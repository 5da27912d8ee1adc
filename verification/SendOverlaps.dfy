/** When two writes of a session can be in flight at the same time, told by the events and by what
    the session itself can read (its state, its flag, its slot), and how long it can go on. */
module SendOverlaps {
  import opened Bytes
  import opened TcpHeader
  import opened FrameReader
  import opened SendProtocol
  import opened SendTheorems

  // ----- Told by events and members -----

  /** A write completes in a running session that finds the slot empty and the flag already
      clear: it is the write that the flag does not account for. */
  predicate Settles(s: Session, e: Event) {
    e.WriteOk? && s.phase.Running? && s.next.None? && !s.sending
  }

  ghost predicate Settled(s: Session, es: seq<Event>)
    requires ValidRun(s, es)
    decreases es
  {
    es != [] && (Settles(s, es[0]) || Settled(Step(s, es[0]), es[1..]))
  }

  /** An offer to a running session with the flag clear, while nothing has settled yet. */
  predicate Premature(s: Session, e: Event, settled: bool) {
    e.Offer? && s.phase.Running? && !s.sending && !settled
  }

  /** In a running session `settled` tells whether the flag accounts for all writes in flight. */
  ghost predicate Tells(s: Session, settled: bool) {
    && (s.phase.Running? ==> Excess(s) == if settled then 0 else 1)
    && (s.phase.NotStarted? || s.phase.Handshaking? ==> !settled)
  }

  lemma TellsStep(s: Session, e: Event, settled: bool)
    requires Inv(s) && Enabled(s, e) && Tells(s, settled)
    ensures Tells(Step(s, e), settled || Settles(s, e))
  {
    hide Conserved, Order, Held, Complete, Want, ValidStage, IsHandshakeRequest;
  }

  lemma PrematureOverlaps(s: Session, e: Event, settled: bool)
    requires Inv(s) && Tells(s, settled)
    ensures Overlaps(s, e) <==> Premature(s, e, settled)
  {
    hide Conserved, Order, Reading;
  }

  lemma {:induction false} TellsRun(s: Session, es: seq<Event>, settled: bool)
    requires Inv(s) && ValidRun(s, es) && Tells(s, settled)
    ensures Tells(Run(s, es), settled || Settled(s, es))
    decreases es
  {
    hide Inv, Step, Enabled, Settles, Tells;
    if es != [] {
      TellsStep(s, es[0], settled);
      StepKeepsInv(s, es[0]);
      TellsRun(Step(s, es[0]), es[1..], settled || Settles(s, es[0]));
    }
  }

  /** In every reachable state: an event starts a second write beside one in flight if and only
      if it is an offer, the session is running with the flag clear, and no completed write since
      the start has found the slot empty with the flag already clear. */
  lemma OverlapIffUnsettled(es: seq<Event>, e: Event)
    requires ValidRun(NEW, es)
    ensures var s := Run(NEW, es);
      Overlaps(s, e) <==> e.Offer? && s.phase.Running? && !s.sending && !Settled(NEW, es)
  {
    NewIsInv();
    RunKeepsInv(NEW, es);
    TellsRun(NEW, es, false);
    PrematureOverlaps(Run(NEW, es), e, Settled(NEW, es));
  }

  /** No offer of the run is premature; `settled` is what the events so far have told. */
  ghost predicate NonePremature(s: Session, es: seq<Event>, settled: bool)
    requires ValidRun(s, es)
    decreases es
  {
    es == []
    || (!Premature(s, es[0], settled) && NonePremature(Step(s, es[0]), es[1..], settled || Settles(s, es[0])))
  }

  lemma {:induction false} QuietIffNonePremature(s: Session, es: seq<Event>, settled: bool)
    requires Inv(s) && ValidRun(s, es) && Tells(s, settled)
    ensures Quiet(s, es) <==> NonePremature(s, es, settled)
    decreases es
  {
    hide Inv, Step, Enabled, Settles, Tells, Overlaps, Premature;
    if es != [] {
      PrematureOverlaps(s, es[0], settled);
      TellsStep(s, es[0], settled);
      StepKeepsInv(s, es[0]);
      QuietIffNonePremature(Step(s, es[0]), es[1..], settled || Settles(s, es[0]));
    }
  }

  /** A run from the start never has two writes in flight if and only if no offer reaches the
      running session with the flag clear before a completed write has found both the slot empty
      and the flag clear. Only the state, the flag, the slot and the completions are looked at. */
  lemma OneWriteIffNonePremature(es: seq<Event>)
    requires ValidRun(NEW, es)
    ensures OneAtATime(NEW, es) <==> NonePremature(NEW, es, false)
  {
    NewIsInv();
    OneWriteIffQuiet(NEW, es);
    QuietIffNonePremature(NEW, es, false);
  }

  // ----- Told by the caller -----

  /** No buffer is offered before a first write has completed: the handshake response. */
  ghost predicate ResponseFirst(es: seq<Event>) {
    es == [] || es[0].WriteOk? || (!es[0].Offer? && ResponseFirst(es[1..]))
  }

  lemma {:induction false} QuietOnceSettled(s: Session, es: seq<Event>)
    requires Inv(s) && ValidRun(s, es) && Tells(s, true)
    ensures Quiet(s, es)
    decreases es
  {
    hide Inv, Step, Enabled, Tells, Overlaps;
    if es != [] {
      PrematureOverlaps(s, es[0], true);
      TellsStep(s, es[0], true);
      StepKeepsInv(s, es[0]);
      QuietOnceSettled(Step(s, es[0]), es[1..]);
    }
  }

  lemma {:induction false} QuietFromResponse(s: Session, es: seq<Event>)
    requires Inv(s) && s.next.None? && !s.sending && Tells(s, false)
    requires ValidRun(s, es) && ResponseFirst(es)
    ensures Quiet(s, es)
    decreases es
  {
    if es == [] {
    } else if es[0].WriteOk? {
      ResponseCompletes(s, es[0]);
      hide Inv, Step, Enabled, Tells;
      QuietOnceSettled(Step(s, es[0]), es[1..]);
    } else {
      OtherSteps(s, es[0]);
      StepKeepsInv(s, es[0]);
      TellsStep(s, es[0], false);
      hide Inv, Step, Enabled, Tells;
      QuietFromResponse(Step(s, es[0]), es[1..]);
    }
  }

  lemma ResponseCompletes(s: Session, e: Event)
    requires Inv(s) && s.next.None? && !s.sending && Tells(s, false) && Enabled(s, e) && e.WriteOk?
    ensures Inv(Step(s, e)) && Tells(Step(s, e), true)
  {
    StepKeepsInv(s, e);
    TellsStep(s, e, false);
    WritesNeedRunning(s);
    hide Inv;
  }

  lemma WritesNeedRunning(s: Session)
    requires Inv(s) && s.outstanding != []
    ensures s.phase.Running? || s.phase.Canceled?
  {
    hide Conserved, Order, Reading;
  }

  /** A caller who offers nothing before the response has been written gets one write at a time. */
  lemma ResponseFirstIsQuiet(es: seq<Event>)
    requires ValidRun(NEW, es) && ResponseFirst(es)
    ensures Quiet(NEW, es) && OneAtATime(NEW, es)
  {
    NewIsInv();
    QuietFromResponse(NEW, es);
    OneWriteIffQuiet(NEW, es);
  }

  // ----- How long it can go on -----

  /** One data write in flight behind a clear flag and an empty slot. */
  ghost predicate Bare(s: Session) {
    s.phase.Running? && !s.sending && s.next.None? && |s.outstanding| == 1 && s.outstanding[0].Data?
  }

  /** The next offer overlaps, and the completion behind it leads to the same place. */
  lemma BareStaysBare(s: Session, b: Buffer)
    requires Bare(s) && Enabled(s, Offer(b))
    ensures Overlaps(s, Offer(b)) && |Step(s, Offer(b)).outstanding| == 2
    ensures var t := Step(s, Offer(b)); Enabled(t, WriteOk(0)) && Bare(Step(t, WriteOk(0)))
    ensures Step(Step(s, Offer(b)), WriteOk(0)).accepted == s.accepted + [b]
  {
  }

  /** How many offers of a run are sent beside a write in flight. */
  ghost function OverlapCount(s: Session, es: seq<Event>): nat
    requires ValidRun(s, es)
    decreases es
  {
    if es == [] then 0
    else (if Overlaps(s, es[0]) then 1 else 0) + OverlapCount(Step(s, es[0]), es[1..])
  }

  /** Every buffer is offered as soon as the write before the last one has completed. */
  function Alternating(bs: seq<Buffer>): seq<Event> {
    if bs == [] then [] else [Offer(bs[0]), WriteOk(0)] + Alternating(bs[1..])
  }

  ghost predicate Newer(bs: seq<Buffer>, accepted: seq<Buffer>) {
    Increasing(bs) && (bs == [] || accepted == [] || accepted[|accepted| - 1].serial < bs[0].serial)
  }

  lemma {:induction false} OverlapsGoOn(s: Session, bs: seq<Buffer>)
    requires Bare(s) && Newer(bs, s.accepted)
    ensures ValidRun(s, Alternating(bs)) && OverlapCount(s, Alternating(bs)) == |bs|
    decreases bs
  {
    if bs != [] {
      var es := Alternating(bs);
      BareStaysBare(s, bs[0]);
      var t := Step(s, es[0]);
      hide Step, Enabled, Bare;
      OverlapsGoOn(Step(t, es[1]), bs[1..]);
      assert es[1..][0] == es[1] && es[1..][1..] == Alternating(bs[1..]);
      assert !Overlaps(t, es[1]);
    }
  }

  lemma {:induction false} OverlapCountConcat(s: Session, es: seq<Event>, more: seq<Event>)
    requires ValidRun(s, es) && ValidRun(Run(s, es), more)
    ensures ValidRun(s, es + more)
    ensures OverlapCount(s, es + more) == OverlapCount(s, es) + OverlapCount(Run(s, es), more)
    decreases es
  {
    hide Step, Enabled, Overlaps;
    RunConcat(s, es, more);
    if es == [] {
      assert es + more == more;
    } else {
      OverlapCountConcat(Step(s, es[0]), es[1..], more);
      assert (es + more)[0] == es[0] && (es + more)[1..] == es[1..] + more;
    }
  }

  /** From the reply on: the second of two buffers is sent beside the response; when that is
      written both data buffers are in flight; and one completion later the session is bare. */
  lemma BareBehindHandshake(s: Session, older: Buffer, newer: Buffer) returns (es: seq<Event>)
    requires s.phase.Running? && !s.sending && s.next == Some(older)
    requires s.outstanding == [Reply] && s.accepted == [older] && older.serial < newer.serial
    ensures es == [Offer(newer), WriteOk(0), WriteOk(0)]
    ensures ValidRun(s, es) && OverlapCount(s, es) == 1
    ensures Step(Step(s, es[0]), es[1]).outstanding == [Data(newer), Data(older)]
    ensures Bare(Run(s, es)) && Run(s, es).accepted == [older, newer]
  {
    var s1 := Step(s, Offer(newer));
    var s2 := Step(s1, WriteOk(0));
    var s3 := Step(s2, WriteOk(0));
    assert Overlaps(s, Offer(newer)) && Bare(s3) && s3.accepted == [older, newer];
    assert s2.outstanding == [Data(newer), Data(older)];
    assert !Overlaps(s1, WriteOk(0)) && !Overlaps(s2, WriteOk(0));
    hide Step, Enabled, Overlaps, Bare;
    es := OverlapPrepend(s2, WriteOk(0), []);
    es := OverlapPrepend(s1, WriteOk(0), es);
    es := OverlapPrepend(s, Offer(newer), es);
  }

  lemma OverlapPrepend(s: Session, e: Event, es: seq<Event>) returns (r: seq<Event>)
    requires Enabled(s, e) && ValidRun(Step(s, e), es)
    ensures r == [e] + es && ValidRun(s, r) && Run(s, r) == Run(Step(s, e), es)
    ensures OverlapCount(s, r) == (if Overlaps(s, e) then 1 else 0) + OverlapCount(Step(s, e), es)
  {
    hide Step, Enabled, Overlaps;
    r := [e] + es;
    assert r[1..] == es;
  }

  /** Two writes in flight are not confined to the handshake: for any number of buffers there is
      a run in which every buffer but the first is sent beside another write. */
  lemma OverlapsWithoutEnd(bs: seq<Buffer>) returns (es: seq<Event>)
    requires |bs| >= 2 && Increasing(bs)
    ensures ValidRun(NEW, es) && OverlapCount(NEW, es) == |bs| - 1
  {
    var hs := HandshakeRun(bs[0]);
    var s := Run(NEW, hs);
    var three := BareBehindHandshake(s, bs[0], bs[1]);
    assert Newer(bs[2..], Run(s, three).accepted);
    hide Bare, Step, Enabled, Increasing;
    OverlapsGoOn(Run(s, three), bs[2..]);
    OverlapCountConcat(s, three, Alternating(bs[2..]));
    OverlapCountConcat(NEW, hs, three + Alternating(bs[2..]));
    OverlapsAreSent(NEW, hs);
    NoDataYet(s);
    es := hs + (three + Alternating(bs[2..]));
  }

  lemma NoDataYet(s: Session)
    requires s.initiated == [Reply]
    ensures DataWrites(s) == [] && DataWrites(NEW) == []
  {
    BuffersAppend([], Reply);
    assert s.initiated == [] + [Reply];
  }

  lemma OverlapIsSent(s: Session, e: Event)
    requires Enabled(s, e)
    ensures |DataWrites(Step(s, e))| >= |DataWrites(s)| + (if Overlaps(s, e) then 1 else 0)
  {
    hide Buffers;
    match e
    case Offer(b) => OfferedWrites(s, b);
    case WriteOk(_) => if s.next.Some? { BuffersAppend(s.initiated, Data(s.next.value)); }
    case _ => OtherSteps(s, e);
  }

  /** Every overlapping offer is a data write of its own. */
  lemma {:induction false} OverlapsAreSent(s: Session, es: seq<Event>)
    requires ValidRun(s, es)
    ensures OverlapCount(s, es) <= |DataWrites(Run(s, es))| - |DataWrites(s)|
    decreases es
  {
    hide Step, Enabled, Overlaps, DataWrites;
    if es != [] {
      OverlapIsSent(s, es[0]);
      OverlapsAreSent(Step(s, es[0]), es[1..]);
    }
  }
}
