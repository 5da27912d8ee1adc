/** What every run of a publisher session keeps: lifecycle, the fate of each buffer, the number
    of writes in flight, their order, and that the slot always drains. */
module SendTheorems {
  import opened Bytes
  import opened TcpHeader
  import opened FrameReader
  import opened SendProtocol

  lemma NewIsInv()
    ensures Inv(NEW)
  {
    assert Buffers(NEW.initiated) == [] && Losers(NEW.dropped) == [];
    assert multiset(NEW.accepted) == multiset{};
  }

  lemma {:induction false} RunKeepsInv(s: Session, es: seq<Event>)
    requires Inv(s) && ValidRun(s, es)
    ensures Inv(Run(s, es))
    decreases es
  {
    hide Inv, Step, Enabled;
    if es != [] {
      StepKeepsInv(s, es[0]);
      RunKeepsInv(Step(s, es[0]), es[1..]);
    }
  }

  // ----- Lifecycle -----

  function Rank(p: Phase): nat {
    match p
    case NotStarted => 0
    case Handshaking => 1
    case Running => 2
    case Canceled => 3
  }

  /** A later state of the same session. */
  ghost predicate Later(s: Session, t: Session) {
    && Rank(s.phase) <= Rank(t.phase) && s.closes <= t.closes
    && s.initiated <= t.initiated && s.accepted <= t.accepted && s.consumed <= t.consumed
    && (s.phase.Canceled? ==> Inert(s, t))
  }

  /** A canceled session starts nothing and changes nothing: it only sees operations end. */
  ghost predicate Inert(s: Session, t: Session) {
    && t == s.(pending := t.pending, consumed := t.consumed, outstanding := t.outstanding)
    && (t.pending == s.pending || t.pending.None?) && |t.outstanding| <= |s.outstanding|
  }

  lemma ClosedIsLater(s: Session, t: Session)
    requires Later(s, t)
    ensures Later(s, Closed(t))
  {
  }

  lemma WrittenIsLater(s: Session, item: Item)
    ensures Later(s, Written(s, item)) && Written(s, item).phase == s.phase
  {
  }

  lemma LaterStill(s: Session, t: Session, u: Session)
    requires Later(s, t) && Later(t, u)
    ensures Later(s, u)
  {
  }

  lemma ReadIsLater(s: Session, bytes: seq<byte>)
    requires !s.phase.NotStarted?
    requires s.pending.Some? && ValidStage(s.pending.value) && |bytes| == Want(s.pending.value)
    ensures Later(s, ReadDone(s, bytes))
  {
    var t := s.(pending := None, consumed := s.consumed + bytes);
    assert Later(s, t);
    ClosedIsLater(s, t);
    WrittenIsLater(t, Reply);
    LaterStill(s, t, Written(t, Reply));
    hide Complete, Closed, Written, Want, ValidStage;
  }

  lemma OfferIsLater(s: Session, b: Buffer)
    ensures Later(s, Offered(s, b))
  {
    var t := s.(accepted := s.accepted + [b]);
    if !s.phase.Canceled? {
      assert Later(s, t);
      WrittenIsLater(t.(sending := true), Data(b));
      hide Written;
    }
  }

  lemma WriteDoneIsLater(s: Session, k: nat)
    requires k < |s.outstanding|
    ensures Later(s, WriteDone(s, k))
  {
    hide Written;
    if s.next.Some? {
      WrittenIsLater(s.(outstanding := Without(s.outstanding, k), next := None), Data(s.next.value));
    }
  }

  lemma StepIsLater(s: Session, e: Event)
    requires Inv(s) && Enabled(s, e)
    ensures Later(s, Step(s, e))
  {
    ReadingIsStarted(s);
    hide Inv;
    match e
    case Start => hide Later; StartIsLater(s);
    case ReadOk(bytes) => hide *; ReadIsLater(s, bytes);
    case Offer(b) => hide *; OfferIsLater(s, b);
    case WriteOk(k) => hide *; WriteDoneIsLater(s, k);
    case ReadError => ClosedIsLater(s, s.(pending := None));
    case WriteError(k) => ClosedIsLater(s, s.(outstanding := Without(s.outstanding, k)));
    case Cancel => ClosedIsLater(s, s);
  }

  lemma StartIsLater(s: Session)
    requires s.phase.NotStarted?
    ensures Later(s, Started(s))
  {
  }

  lemma ReadingIsStarted(s: Session)
    requires Inv(s)
    ensures s.pending.Some? ==> !s.phase.NotStarted?
  {
    hide Conserved, Order, Flow, Held;
  }

  /** The state only moves forward, over any part of any run. */
  lemma {:induction false} LifecycleMovesForward(s: Session, es: seq<Event>)
    requires Inv(s) && ValidRun(s, es)
    ensures Later(s, Run(s, es))
    decreases es
  {
    hide Inv, Step, Enabled;
    if es != [] {
      StepIsLater(s, es[0]);
      StepKeepsInv(s, es[0]);
      LifecycleMovesForward(Step(s, es[0]), es[1..]);
    }
  }

  /** The closed handler runs at most once, exactly when the session is canceled; the first
      write is the handshake response, the only one of its kind, and it follows the complete
      reading of one non-empty handshake message, of which not a byte more was read. */
  lemma SessionLifecycle(es: seq<Event>)
    requires ValidRun(NEW, es)
    ensures var s := Run(NEW, es);
      && s.closes == (if s.phase.Canceled? then 1 else 0)
      && (s.initiated != [] ==> s.initiated[0] == Reply && IsHandshakeRequest(s.consumed))
      && (forall i | 0 <= i < |s.initiated| :: s.initiated[i] == Reply ==> i == 0)
      && (s.phase.Running? ==> s.initiated != [])
  {
    NewIsInv();
    RunKeepsInv(NEW, es);
  }

  /** What the bytes read during the handshake decide, told by the one-shot parser: a session that
      nobody has canceled replies if and only if they are one complete non-empty handshake message;
      it closes, once, if and only if they are a malformed header or another complete message; and
      otherwise it goes on reading. */
  lemma RequestDecides(s: Session, bytes: seq<byte>)
    requires Inv(s) && s.phase.Handshaking? && Enabled(s, ReadOk(bytes))
    ensures var t := Step(s, ReadOk(bytes));
      && t.consumed == s.consumed + bytes
      && (t.phase.Running? <==> IsHandshakeRequest(t.consumed))
      && (t.phase.Running? ==> t.initiated == [Reply])
      && (t.phase.Handshaking? ==>
            t.pending.Some? && (HeadOf(t.consumed).Partial? || t.pending == Some(Content(SIZE_FIELD))))
      && (t.phase.Canceled? ==> HeadOf(t.consumed).Bad? || HeadOf(t.consumed).Whole?)
      && t.closes == (if t.phase.Canceled? then 1 else 0) && t.phase != NotStarted
  {
    var st := s.pending.value;
    StageSound(st, s.consumed, bytes);
    match Complete(st, bytes)
    case Next(next) =>
      var all := s.consumed + bytes;
      if Want(next) > 0 {
        StageWaiting(next, all, []);
        assert all + [] == all;
      } else {
        ContentOfTwo(next, all);
      }
      hide Conserved, Order, Held, Complete, HeadOf;
    case _ => hide Conserved, Order, Held, Complete, HeadOf;
  }

  /** The only read of no bytes is that of the content of a two-byte header: an empty frame. */
  lemma ContentOfTwo(st: Stage, c: seq<byte>)
    requires Held(st, c) && Want(st) == 0
    ensures !IsHandshakeRequest(c) && st == Content(SIZE_FIELD)
  {
    assert st.Content? && |c| == SIZE_FIELD;
  }

  /** A session whose handshake is not over is always waiting for the next bytes. */
  lemma HandshakeIsAwaited(es: seq<Event>)
    requires ValidRun(NEW, es)
    ensures Run(NEW, es).phase.Handshaking? ==> Run(NEW, es).pending.Some?
    ensures Run(NEW, es).phase.Running? ==> Run(NEW, es).pending.None?
  {
    NewIsInv();
    RunKeepsInv(NEW, es);
  }

  // ----- The fate of a buffer -----

  lemma {:induction false} AcceptedOnce(bs: seq<Buffer>, b: Buffer)
    requires Increasing(bs) && b in bs
    ensures multiset(bs)[b] == 1
  {
    var init, last := bs[..|bs| - 1], bs[|bs| - 1];
    assert bs == init + [last];
    if b == last {
      assert b !in init;
      assert b !in multiset(init);
    } else {
      AcceptedOnce(init, b);
    }
  }

  lemma {:induction false} LoserHasWinner(drops: seq<Drop>, b: Buffer) returns (d: Drop)
    requires b in Losers(drops)
    ensures d in drops && d.lost == b
  {
    var last := drops[|drops| - 1];
    if last.lost == b {
      d := last;
    } else {
      d := LoserHasWinner(drops[..|drops| - 1], b);
    }
  }

  /** How often a buffer was handed to the socket, dropped, and found in the slot. */
  function Fates(s: Session, b: Buffer): (nat, nat, nat) {
    (multiset(Buffers(s.initiated))[b], multiset(Losers(s.dropped))[b], if s.next == Some(b) then 1 else 0)
  }

  /** Every accepted buffer has exactly one of the three fates, once; a dropped one lost to a
      strictly newer one; so the newest is never dropped. */
  lemma EveryBufferHasOneFate(s: Session, b: Buffer)
    requires Inv(s) && b in s.accepted
    ensures Fates(s, b).0 + Fates(s, b).1 + Fates(s, b).2 == 1
    ensures Fates(s, b).1 == 1 ==> exists d :: d in s.dropped && d.lost == b && d.winner in s.accepted && b.serial < d.winner.serial
    ensures b == s.accepted[|s.accepted| - 1] ==> Fates(s, b).1 == 0
  {
    hide Flow, Reading, Order, Buffers;
    AcceptedOnce(s.accepted, b);
    if b in Losers(s.dropped) {
      var d := LoserHasWinner(s.dropped, b);
      assert d in s.dropped;
    }
  }

  lemma {:induction false} LosersCount(drops: seq<Drop>)
    ensures |Losers(drops)| == |drops|
  {
    if drops != [] {
      LosersCount(drops[..|drops| - 1]);
    }
  }

  lemma FatesAddUp(s: Session)
    requires Accounted(s)
    ensures |s.accepted| == |Buffers(s.initiated)| + |s.dropped| + |SlotOf(s.next)|
  {
    hide Buffers, Losers;
    LosersCount(s.dropped);
    assert |multiset(s.accepted)| == |s.accepted|;
  }

  /** accepted = initiated + overwritten + (1 if the slot is taken), in every run. */
  lemma BuffersAreConserved(es: seq<Event>)
    requires ValidRun(NEW, es)
    ensures var s := Run(NEW, es);
      && |s.accepted| == |Buffers(s.initiated)| + |s.dropped| + |SlotOf(s.next)|
      && forall b | b in s.accepted ::
           Fates(s, b).0 + Fates(s, b).1 + Fates(s, b).2 == 1
           && (b == s.accepted[|s.accepted| - 1] ==> Fates(s, b).1 == 0)
  {
    NewIsInv();
    RunKeepsInv(NEW, es);
    var s := Run(NEW, es);
    FatesAddUp(s);
    hide Inv, Run, ValidRun, Fates;
    forall b | b in s.accepted
      ensures Fates(s, b).0 + Fates(s, b).1 + Fates(s, b).2 == 1
              && (b == s.accepted[|s.accepted| - 1] ==> Fates(s, b).1 == 0)
    {
      EveryBufferHasOneFate(s, b);
    }
  }

  // ----- Writes in flight -----

  /** An offer that is sent directly although a write is still in flight. */
  predicate Overlaps(s: Session, e: Event) {
    e.Offer? && s.phase.Running? && !s.sending && s.outstanding != []
  }

  ghost predicate Quiet(s: Session, es: seq<Event>)
    requires ValidRun(s, es)
    decreases es
  {
    es == [] || (!Overlaps(s, es[0]) && Quiet(Step(s, es[0]), es[1..]))
  }

  /** At no moment of the run is more than one write in flight. */
  ghost predicate OneAtATime(s: Session, es: seq<Event>)
    requires ValidRun(s, es)
    decreases es
  {
    |s.outstanding| <= 1 && (es == [] || OneAtATime(Step(s, es[0]), es[1..]))
  }

  lemma OutstandingStep(s: Session, e: Event)
    requires Inv(s) && Enabled(s, e)
    ensures |Step(s, e).outstanding| <= 2
    ensures |s.outstanding| <= 1 ==> (|Step(s, e).outstanding| <= 1 <==> !Overlaps(s, e))
  {
    hide Conserved, Order, Held, Complete, Want, ValidStage, IsHandshakeRequest;
  }

  /** A run never has two writes in flight exactly when no offer meets the flag cleared while
      a write is still running. */
  lemma {:induction false} OneWriteIffQuiet(s: Session, es: seq<Event>)
    requires Inv(s) && |s.outstanding| <= 1 && ValidRun(s, es)
    ensures OneAtATime(s, es) <==> Quiet(s, es)
    decreases es
  {
    hide Inv, Step, Enabled, Overlaps;
    if es != [] {
      OutstandingStep(s, es[0]);
      StepKeepsInv(s, es[0]);
      if !Overlaps(s, es[0]) {
        OneWriteIffQuiet(Step(s, es[0]), es[1..]);
      }
    }
  }

  lemma ExcessStep(s: Session, e: Event)
    requires Inv(s) && Enabled(s, e) && !Step(s, e).phase.Canceled?
    ensures s.phase.Running? ==> 0 <= Excess(Step(s, e)) <= Excess(s) && Step(s, e).phase.Running?
    ensures !s.phase.Running? ==> Excess(s) == 0
    ensures !s.phase.Running? && Step(s, e).phase.Running? ==> Excess(Step(s, e)) == 1
  {
    hide Conserved, Order, Held, Complete, Want, ValidStage, IsHandshakeRequest;
  }

  /** While a session lives, its excess is 0 before the reply, 1 at the reply, and from then on
      never grows: once it is back at 0 it stays 0. So there are never more than two writes in
      flight, and never more than one after a moment with none. */
  lemma {:induction false} ExcessNeverReturns(s: Session, es: seq<Event>)
    requires Inv(s) && ValidRun(s, es) && s.phase.Running? && !Run(s, es).phase.Canceled?
    ensures 0 <= Excess(Run(s, es)) <= Excess(s)
    ensures |Run(s, es).outstanding| <= 2
    ensures s.outstanding == [] ==> |Run(s, es).outstanding| <= 1
    decreases es
  {
    if es != [] {
      StepKeepsInv(s, es[0]);
      LifecycleMovesForward(Step(s, es[0]), es[1..]);
      ExcessStep(s, es[0]);
      assert Step(s, es[0]).phase.Running?;
      hide Inv, Step, Enabled;
      ExcessNeverReturns(Step(s, es[0]), es[1..]);
    }
  }

  // ----- Order of the data writes -----

  function DataWrites(s: Session): seq<Buffer> { Buffers(s.initiated) }

  /** An offer that overtakes the buffer stored during the handshake. */
  predicate Overtakes(s: Session, e: Event) {
    e.Offer? && s.phase.Running? && !s.sending && s.next.Some?
  }

  /** The slot holds a buffer older than the one already handed to the socket. */
  ghost predicate Crossed(s: Session) {
    && s.phase.Running? && s.next.Some? && DataWrites(s) != []
    && s.next.value.serial < DataWrites(s)[0].serial
  }

  /** The run contains an overtaking offer with a completed write right behind it. */
  ghost predicate HasSwap(s: Session, es: seq<Event>)
    requires ValidRun(s, es)
    decreases es
  {
    |es| >= 2
    && ((Overtakes(s, es[0]) && es[1].WriteOk?) || HasSwap(Step(s, es[0]), es[1..]))
  }

  lemma CrossedOffer(s: Session, b: Buffer)
    requires Inv(s) && Enabled(s, Offer(b))
    ensures Increasing(DataWrites(Offered(s, b))) <==> Increasing(DataWrites(s))
    ensures Crossed(Offered(s, b)) <==> Overtakes(s, Offer(b))
  {
    OlderThanOffered(s, b);
    OfferedWrites(s, b);
    DirectKeepsOrder(DataWrites(s), b);
    hide *;
    CrossedBehindOffer(s, b);
  }

  lemma CrossedBehindOffer(s: Session, b: Buffer)
    requires forall x | x in DataWrites(s) :: x.serial < b.serial
    requires s.next.Some? ==> s.next.value.serial < b.serial && (s.sending || DataWrites(s) == [])
    requires DataWrites(Offered(s, b))
             == if s.phase.Running? && !s.sending then DataWrites(s) + [b] else DataWrites(s)
    ensures Crossed(Offered(s, b)) <==> Overtakes(s, Offer(b))
  {
    hide DataWrites;
    var sent := DataWrites(s);
    if sent != [] { assert sent[0] in sent; }
  }

  lemma OfferedWrites(s: Session, b: Buffer)
    ensures DataWrites(Offered(s, b))
            == if s.phase.Running? && !s.sending then DataWrites(s) + [b] else DataWrites(s)
  {
    hide Buffers;
    BuffersAppend(s.initiated, Data(b));
  }

  /** An offered buffer is newer than all that was sent and than what waits in the slot, which
      after the handshake is taken beside a cleared flag only while nothing was sent. */
  lemma OlderThanOffered(s: Session, b: Buffer)
    requires Inv(s) && Enabled(s, Offer(b))
    ensures forall x | x in DataWrites(s) :: x.serial < b.serial
    ensures s.next.Some? ==> s.next.value.serial < b.serial && (s.sending || DataWrites(s) == [])
  {
    hide Accounted, Reading, Flow, Buffers;
    NewestIsAbove(s.accepted, b);
  }

  lemma DirectKeepsOrder(sent: seq<Buffer>, b: Buffer)
    requires forall x | x in sent :: x.serial < b.serial
    ensures Increasing(sent + [b]) <==> Increasing(sent)
  {
    var t := sent + [b];
    if Increasing(t) {
      assert forall i | 0 <= i < |sent| :: sent[i] == t[i];
    }
  }

  lemma CrossedWriteDone(s: Session, k: nat)
    requires Inv(s) && k < |s.outstanding|
    ensures Increasing(DataWrites(WriteDone(s, k))) <==> Increasing(DataWrites(s)) && !Crossed(s)
    ensures !Crossed(WriteDone(s, k))
  {
    hide Buffers, Conserved, Reading;
    if s.next.Some? {
      BuffersAppend(s.initiated, Data(s.next.value));
      OrderExtends(DataWrites(s), s.next.value);
    }
  }

  lemma CrossedElse(s: Session, e: Event)
    requires Inv(s) && Enabled(s, e) && !e.Offer? && !e.WriteOk?
    ensures DataWrites(Step(s, e)) == DataWrites(s)
    ensures !Crossed(Step(s, e))
  {
    hide Conserved, Order, Held, Complete, Want, ValidStage, IsHandshakeRequest, Buffers;
    OtherSteps(s, e);
    NothingSentYet(s);
  }

  lemma CrossedStep(s: Session, e: Event)
    requires Inv(s) && Enabled(s, e)
    ensures Increasing(DataWrites(Step(s, e)))
            <==> Increasing(DataWrites(s)) && !(Crossed(s) && e.WriteOk?)
    ensures Crossed(Step(s, e)) <==> Overtakes(s, e)
  {
    hide Inv, Crossed, Increasing;
    match e
    case Offer(b) => CrossedOffer(s, b);
    case WriteOk(k) => CrossedWriteDone(s, k);
    case _ => CrossedElse(s, e);
  }

  lemma {:induction false} SwapStays(s: Session, es: seq<Event>)
    requires Inv(s) && ValidRun(s, es) && !Increasing(DataWrites(s))
    ensures !Increasing(DataWrites(Run(s, es)))
    decreases es
  {
    hide Inv, Step, Enabled, Crossed, Increasing;
    if es != [] {
      StepKeepsInv(s, es[0]);
      CrossedStep(s, es[0]);
      SwapStays(Step(s, es[0]), es[1..]);
    }
  }

  lemma {:induction false} OrderFrom(s: Session, es: seq<Event>)
    requires Inv(s) && ValidRun(s, es) && Increasing(DataWrites(s))
    ensures Increasing(DataWrites(Run(s, es)))
            <==> !HasSwap(s, es) && !(Crossed(s) && es != [] && es[0].WriteOk?)
    decreases es
  {
    hide Inv, Step, Enabled, Crossed, Increasing, Overtakes;
    if es != [] {
      var t := Step(s, es[0]);
      StepKeepsInv(s, es[0]);
      CrossedStep(s, es[0]);
      if Increasing(DataWrites(t)) {
        OrderFrom(t, es[1..]);
      } else {
        SwapStays(t, es[1..]);
      }
    }
  }

  /** Data writes start in the order of the `send` calls, except that the first two may have
      changed places; and they have exactly when, in the running phase with the flag cleared
      and a stored buffer waiting, an offer was followed at once by a completed write. */
  lemma OrderUpToOneSwap(es: seq<Event>)
    requires ValidRun(NEW, es)
    ensures var sent := DataWrites(Run(NEW, es));
      && (Increasing(sent) || SwappedHead(sent))
      && (Increasing(sent) <==> !HasSwap(NEW, es))
  {
    NewIsInv();
    RunKeepsInv(NEW, es);
    OrderFrom(NEW, es);
  }

  lemma OvertakingOverlaps(s: Session, e: Event)
    requires Inv(s)
    ensures Overtakes(s, e) ==> Overlaps(s, e)
  {
  }

  lemma {:induction false} QuietHasNoSwap(s: Session, es: seq<Event>)
    requires Inv(s) && ValidRun(s, es) && Quiet(s, es)
    ensures !HasSwap(s, es)
    decreases es
  {
    if |es| >= 2 {
      OvertakingOverlaps(s, es[0]);
      StepKeepsInv(s, es[0]);
      hide Inv, Step, Enabled, Overtakes, Overlaps;
      QuietHasNoSwap(Step(s, es[0]), es[1..]);
    }
  }

  /** A completion takes exactly its own write out of those in flight, wherever it stands, and puts
      at most the buffer of the slot behind the others. */
  lemma CompletionTakesItsWrite(s: Session, k: nat)
    requires k < |s.outstanding|
    ensures var t, rest := WriteDone(s, k), s.outstanding[..k] + s.outstanding[k + 1..];
      && multiset(rest) + multiset{s.outstanding[k]} == multiset(s.outstanding)
      && t.outstanding == if !s.phase.Canceled? && s.next.Some? then rest + [Data(s.next.value)] else rest
    ensures WriteFailed(s, k).outstanding == s.outstanding[..k] + s.outstanding[k + 1..]
  {
    assert s.outstanding == s.outstanding[..k] + [s.outstanding[k]] + s.outstanding[k + 1..];
  }

  // ----- Draining -----

  /** Writes still to be completed: those in flight and the one waiting in the slot. */
  function Load(s: Session): nat { |s.outstanding| + |SlotOf(s.next)| }

  lemma LoadStep(s: Session, k: nat)
    requires s.phase.Running? && k < |s.outstanding|
    ensures Load(WriteDone(s, k)) == Load(s) - 1 && WriteDone(s, k).phase.Running?
    ensures WriteDone(s, k).accepted == s.accepted
  {
  }

  lemma NewestReachesSocket(s: Session)
    requires Inv(s) && s.next.None? && s.accepted != []
    ensures s.accepted[|s.accepted| - 1] in DataWrites(s)
  {
    EveryBufferHasOneFate(s, s.accepted[|s.accepted| - 1]);
  }

  /** `n` completions take `s` to `t`: the load is `n` less, a loaded session has a write in
      flight, and without a load the flag is clear and the newest accepted buffer was sent. */
  ghost predicate Drains(s: Session, t: Session, n: nat) {
    && t.phase.Running? && t.accepted == s.accepted
    && Load(t) == Load(s) - n
    && (Load(t) > 0 ==> t.outstanding != [])
    && (Load(t) == 0 ==>
          && !t.sending && t.next.None?
          && (t.accepted != [] ==> t.accepted[|t.accepted| - 1] in DataWrites(t)))
  }

  /** Without new offers or errors every completion takes exactly one off the load, a loaded
      session always has a write in flight to complete (nothing is stranded), and when the load
      is gone the flag is cleared and the newest accepted buffer has gone to the socket. */
  lemma {:induction false} Draining(s: Session, es: seq<Event>)
    requires Inv(s) && s.phase.Running? && ValidRun(s, es) && forall e | e in es :: e.WriteOk?
    ensures Drains(s, Run(s, es), |es|)
    decreases es
  {
    if es == [] {
      Drained(s);
    } else {
      assert es[0] in es;
      DrainStep(s, es[0].k);
      hide Inv, Step, Enabled, Drains;
      Draining(Step(s, es[0]), es[1..]);
      DrainsMore(s, Step(s, es[0]), Run(s, es), |es| - 1);
    }
  }

  lemma DrainsMore(s: Session, u: Session, t: Session, n: nat)
    requires u.accepted == s.accepted && Load(u) == Load(s) - 1 && Drains(u, t, n)
    ensures Drains(s, t, n + 1)
  {
    hide Load, DataWrites;
  }

  lemma DrainStep(s: Session, k: nat)
    requires Inv(s) && s.phase.Running? && Enabled(s, WriteOk(k))
    ensures var t := Step(s, WriteOk(k));
      Inv(t) && t.phase.Running? && t.accepted == s.accepted && Load(t) == Load(s) - 1
  {
    StepKeepsInv(s, WriteOk(k));
    hide Inv;
    LoadStep(s, k);
  }

  lemma Drained(s: Session)
    requires Inv(s) && s.phase.Running?
    ensures Drains(s, s, 0)
  {
    if Load(s) == 0 && s.accepted != [] { NewestReachesSocket(s); }
    hide Conserved, Order, Reading;
  }

  // ----- The exceptions are real -----

  lemma ReadsOfHandshakeFrame()
    ensures Complete(Length, HandshakeFrame()[..2]) == Next(Content(HEADER_SIZE))
    ensures var h := Header(HEADER_SIZE, PROTOCOL_HANDSHAKE, 0, 1);
      Complete(Content(HEADER_SIZE), HandshakeFrame()[2..12]) == Next(Payload(h))
    ensures HandshakeFrame()[12..] == [0] && |HandshakeFrame()| == 13
    ensures [] + HandshakeFrame()[..2] + HandshakeFrame()[2..12] + HandshakeFrame()[12..] == HandshakeFrame()
  {
    var h := Header(HEADER_SIZE, PROTOCOL_HANDSHAKE, 0, 1);
    var f := HandshakeFrame();
    WidthsOfTheProtocol();
    EncodeThenDecode(HEADER_SIZE, 2);
    assert f[..2] == LittleEndian(HEADER_SIZE, 2);
    assert f[..2] + f[2..12] == EncodeHeader(h);
    LongHeaderTolerance(h, []);
    assert EncodeHeader(h) + [] == EncodeHeader(h);
  }

  /** A session that has not read anything yet, once the request has arrived. */
  function AfterRequest(s: Session): Session {
    s.(phase := Running, pending := None, consumed := HandshakeFrame(),
       initiated := s.initiated + [Reply], outstanding := s.outstanding + [Reply])
  }

  lemma ReadStep(s: Session, st: Stage, bytes: seq<byte>, next: Stage)
    requires s.phase.Handshaking? && s.pending == Some(st) && ValidStage(st) && |bytes| == Want(st)
    requires Complete(st, bytes) == Next(next)
    ensures Enabled(s, ReadOk(bytes))
    ensures Step(s, ReadOk(bytes)) == s.(pending := Some(next), consumed := s.consumed + bytes)
  {
    hide Complete;
  }

  lemma ReplyStep(s: Session, h: Header, bytes: seq<byte>)
    requires s.phase.Handshaking? && s.pending == Some(Payload(h)) && h.dataSize == |bytes| > 0
    requires h.kind == PROTOCOL_HANDSHAKE
    ensures Enabled(s, ReadOk(bytes))
    ensures Step(s, ReadOk(bytes))
            == s.(phase := Running, pending := None, consumed := s.consumed + bytes,
                  initiated := s.initiated + [Reply], outstanding := s.outstanding + [Reply])
  {
    CompletePayload(h, bytes);
    hide Complete;
  }

  /** The response does not depend on what the request says: it is for version 0, the lowest one. */
  lemma ResponseVersion(s: Session, h: Header, p: seq<byte>, q: seq<byte>)
    requires s.pending == Some(Payload(h)) && h.kind == PROTOCOL_HANDSHAKE
    requires |p| == |q| == h.dataSize > 0
    ensures Step(s, ReadOk(p)) == Step(s, ReadOk(q)).(consumed := s.consumed + p)
    ensures HandshakeFrame()[HEADER_SIZE..] == [0]
  {
    CompletePayload(h, p);
    CompletePayload(h, q);
    hide Complete;
  }

  /** The three reads of the request of a subscriber. */
  lemma RequestRun(s: Session) returns (es: seq<Event>)
    requires s.phase.Handshaking? && s.pending == Some(Length) && s.consumed == []
    ensures ValidRun(s, es) && Run(s, es) == AfterRequest(s)
    ensures forall e | e in es :: e.ReadOk?
  {
    ReadsOfHandshakeFrame();
    var f, h := HandshakeFrame(), Header(HEADER_SIZE, PROTOCOL_HANDSHAKE, 0, 1);
    var a, b, c := f[..2], f[2..12], f[12..];
    hide HandshakeFrame, Complete, Step, Enabled;
    ReadStep(s, Length, a, Content(HEADER_SIZE));
    var s1 := Step(s, ReadOk(a));
    ReadStep(s1, Content(HEADER_SIZE), b, Payload(h));
    var s2 := Step(s1, ReadOk(b));
    ReplyStep(s2, h, c);
    assert Step(s2, ReadOk(c)) == AfterRequest(s);
    es := Prepend(s2, ReadOk(c), []);
    es := Prepend(s1, ReadOk(b), es);
    es := Prepend(s, ReadOk(a), es);
  }

  /** A run up to the reply in which one buffer was offered during the handshake. */
  lemma HandshakeRun(b: Buffer) returns (es: seq<Event>)
    ensures ValidRun(NEW, es)
    ensures Run(NEW, es)
            == Session(Running, false, Some(b), None, HandshakeFrame(), [b], [], [Reply], [Reply], 0)
    ensures Run(NEW, es).consumed == [12, 0, 1, 0, 1, 0, 0, 0, 0, 0, 0, 0, 0]
    ensures forall e | e in es && e.Offer? :: e.buffer == b
  {
    HandshakeBytes();
    hide HandshakeFrame;
    var s1 := Session(Handshaking, false, None, Some(Length), [], [], [], [], [], 0);
    var s2 := s1.(next := Some(b), accepted := [b]);
    assert Enabled(NEW, Start) && Step(NEW, Start) == s1 && Enabled(s1, Offer(b)) && Step(s1, Offer(b)) == s2;
    hide Step, Enabled;
    es := RequestRun(s2);
    es := Prepend(s1, Offer(b), es);
    es := Prepend(NEW, Start, es);
  }

  lemma CompletePayload(h: Header, bytes: seq<byte>)
    requires h.dataSize == |bytes| > 0
    ensures Complete(Payload(h), bytes) == Message(h, bytes)
  {
  }

  lemma Prepend(s: Session, e: Event, es: seq<Event>) returns (r: seq<Event>)
    requires Enabled(s, e) && ValidRun(Step(s, e), es)
    ensures r == [e] + es && ValidRun(s, r) && Run(s, r) == Run(Step(s, e), es)
  {
    r := [e] + es;
    assert r[1..] == es;
  }

  lemma {:induction false} RunConcat(s: Session, es: seq<Event>, more: seq<Event>)
    requires ValidRun(s, es) && ValidRun(Run(s, es), more)
    ensures ValidRun(s, es + more) && Run(s, es + more) == Run(Run(s, es), more)
    decreases es
  {
    hide Step, Enabled;
    if es == [] {
      assert es + more == more;
    } else {
      RunConcat(Step(s, es[0]), es[1..], more);
      assert (es + more)[0] == es[0] && (es + more)[1..] == es[1..] + more;
    }
  }

  lemma RunOne(s: Session, e: Event)
    requires Enabled(s, e)
    ensures ValidRun(s, [e]) && Run(s, [e]) == Step(s, e)
  {
    hide Step, Enabled;
    assert [e][1..] == [];
  }

  lemma RunAppend(s: Session, es: seq<Event>, e: Event)
    requires ValidRun(s, es) && Enabled(Run(s, es), e)
    ensures ValidRun(s, es + [e]) && Run(s, es + [e]) == Step(Run(s, es), e)
  {
    hide Step, Enabled;
    RunOne(Run(s, es), e);
    RunConcat(s, es, [e]);
  }

  /** Neither exception is idle: some run has two writes in flight, and ends with the newer
      buffer written before the older one. */
  lemma SwapAndOverlapHappen(older: Buffer, newer: Buffer) returns (es: seq<Event>)
    requires older.serial < newer.serial
    ensures ValidRun(NEW, es)
    ensures Run(NEW, es).outstanding == [Reply, Data(newer)]
    ensures ValidRun(NEW, es + [WriteOk(0)])
    ensures DataWrites(Run(NEW, es + [WriteOk(0)])) == [newer, older]
    ensures forall e | e in es && e.Offer? :: e.buffer == older || e.buffer == newer
  {
    var hs := HandshakeRun(older);
    SwapTail(Run(NEW, hs), older, newer);
    SwappedBuffers(older, newer);
    hide Step, Enabled, Buffers;
    RunAppend(NEW, hs, Offer(newer));
    es := hs + [Offer(newer)];
    RunAppend(NEW, es, WriteOk(0));
  }

  lemma SwapTail(s: Session, older: Buffer, newer: Buffer)
    requires s.phase.Running? && !s.sending && s.next == Some(older)
    requires s.initiated == [Reply] && s.outstanding == [Reply] && s.accepted == [older]
    requires older.serial < newer.serial
    ensures Enabled(s, Offer(newer)) && Step(s, Offer(newer)).outstanding == [Reply, Data(newer)]
    ensures Enabled(Step(s, Offer(newer)), WriteOk(0))
    ensures Step(Step(s, Offer(newer)), WriteOk(0)).initiated
            == [Reply] + [Data(newer)] + [Data(older)]
  {
  }

  lemma SwappedBuffers(older: Buffer, newer: Buffer)
    ensures Buffers([Reply] + [Data(newer)] + [Data(older)]) == [newer, older]
  {
    assert Buffers([Reply]) == [];
    hide Buffers;
    BuffersAppend([Reply], Data(newer));
    BuffersAppend([Reply] + [Data(newer)], Data(older));
  }
}
