/** The exact condition under which the stream of a connection stays whole, whatever the order in
    which the socket takes the pieces of the writes. */
module TornStreams {
  import opened Bytes
  import opened TcpHeader
  import opened FrameReader
  import opened SendProtocol
  import opened SendTheorems
  import opened Wire

  // ----- A session run as a link run that flushes as late as it can -----

  /** Nothing of a write in flight is on the wire, and each opens like a frame; so does the
      buffer in the slot. */
  ghost predicate Unflushed(l: Link) {
    && (forall k | 0 <= k < |l.left| :: Opens(l.left[k]))
    && (l.sess.next.Some? ==> Opens(l.sess.next.value.bytes))
  }

  /** Every buffer that is offered opens like a frame. */
  ghost predicate OffersOpen(es: seq<Event>) {
    forall e | e in es && e.Offer? :: Opens(e.buffer.bytes)
  }

  lemma ResponseOpens()
    ensures Opens(HandshakeFrame())
  {
    WidthsOfTheProtocol();
    assert LittleEndian(12, 2) == [12, 0];
  }

  /** What a step can start to write. */
  lemma StartedOpens(s: Session, e: Event)
    requires Enabled(s, e) && (e.Offer? ==> Opens(e.buffer.bytes))
    requires s.next.Some? ==> Opens(s.next.value.bytes)
    ensures var t := Step(s, e);
      && (t.next.Some? ==> Opens(t.next.value.bytes))
      && (|t.initiated| > |s.initiated| ==> Opens(ItemBytes(t.initiated[|t.initiated| - 1])))
  {
    ResponseOpens();
    hide HandshakeFrame, Opens, Complete, Want, ValidStage;
  }

  lemma UnflushedStep(l: Link, e: Event)
    requires Unflushed(l) && LinkEnabled(l, Proto(e)) && (e.Offer? ==> Opens(e.buffer.bytes))
    ensures Unflushed(LinkStep(l, Proto(e)))
  {
    StartedOpens(l.sess, e);
    hide Opens, Step, Enabled;
  }

  lemma {:induction false} ProjectConcat(es: seq<LinkEvent>, more: seq<LinkEvent>)
    ensures Project(es + more) == Project(es) + Project(more)
  {
    if es == [] {
      assert es + more == more;
    } else {
      ProjectConcat(es[1..], more);
      assert (es + more)[0] == es[0] && (es + more)[1..] == es[1..] + more;
      Associative(if es[0].Proto? then [es[0].e] else [], Project(es[1..]), Project(more));
    }
  }

  /** `es` takes the link `l` through the events `ps` of its session, and leaves it quiet, with
      nothing of a write in flight on the wire. */
  ghost predicate Lifts(l: Link, es: seq<LinkEvent>, ps: seq<Event>) {
    && ValidLinkRun(l, es) && Project(es) == ps
    && ValidRun(l.sess, ps) && LinkRun(l, es).sess == Run(l.sess, ps)
    && QuietLink(LinkRun(l, es)) && Unflushed(LinkRun(l, es))
  }

  lemma LiftsConcat(l: Link, es: seq<LinkEvent>, ps: seq<Event>, more: seq<LinkEvent>, qs: seq<Event>)
    requires Lifts(l, es, ps) && Lifts(LinkRun(l, es), more, qs)
    ensures Lifts(l, es + more, ps + qs)
  {
    hide LinkRun, ValidLinkRun, Run, ValidRun, Project, QuietLink, Unflushed;
    LinkRunConcat(l, es, more);
    ProjectConcat(es, more);
    RunConcat(l.sess, ps, qs);
  }

  lemma ProjectOne(e: LinkEvent)
    ensures Project([e]) == if e.Proto? then [e.e] else []
  {
    assert [e][1..] == [];
  }

  lemma LiftsOne(l: Link, e: Event)
    requires LinkEnabled(l, Proto(e)) && QuietLink(LinkStep(l, Proto(e))) && Unflushed(LinkStep(l, Proto(e)))
    ensures Lifts(l, [Proto(e)], [e])
  {
    hide QuietLink, Unflushed;
    LinkStepProjects(l, Proto(e));
    hide Step, Enabled, LinkStep, LinkEnabled;
    LinkRunOne(l, Proto(e));
    RunOne(l.sess, e);
    ProjectOne(Proto(e));
  }

  lemma LiftsFlushed(l: Link, f: LinkEvent, e: Event)
    requires f.Flush? && LinkEnabled(l, f) && LinkEnabled(LinkStep(l, f), Proto(e))
    requires var t := LinkStep(LinkStep(l, f), Proto(e)); QuietLink(t) && Unflushed(t)
    ensures Lifts(l, [f] + [Proto(e)], [e])
  {
    hide QuietLink, Unflushed;
    assert LinkStep(l, f).sess == l.sess;
    LiftsOne(LinkStep(l, f), e);
    hide Step, Enabled, LinkStep, LinkEnabled, Run, ValidRun;
    var es := PrependLink(l, f, [Proto(e)]);
    ProjectOne(f);
    ProjectConcat([f], [Proto(e)]);
    assert [] + [e] == [e];
  }

  /** One event of the session; a write is flushed right before it completes. */
  lemma LiftStep(l: Link, e: Event) returns (es: seq<LinkEvent>)
    requires QuietLink(l) && Unflushed(l) && Enabled(l.sess, e) && !Overlaps(l.sess, e)
    requires e.Offer? ==> Opens(e.buffer.bytes)
    ensures Lifts(l, es, [e])
  {
    LeftPerWrite(l);
    if e.WriteOk? {
      Flushed(l, e);
      var f := Flush(0, |l.left[0]|);
      hide *;
      QuietLinkStep(l, f);
      QuietLinkStep(LinkStep(l, f), Proto(e));
      LiftsFlushed(l, f, e);
      es := [f] + [Proto(e)];
    } else {
      assert LinkEnabled(l, Proto(e));
      hide *;
      UnflushedStep(l, e);
      QuietLinkStep(l, Proto(e));
      LiftsOne(l, e);
      es := [Proto(e)];
    }
  }

  lemma LeftPerWrite(l: Link)
    requires QuietLink(l)
    ensures |l.left| == |l.sess.outstanding| <= 1
  {
    hide Inv;
  }

  lemma Flushed(l: Link, e: Event)
    requires Unflushed(l) && |l.left| == |l.sess.outstanding| <= 1 && e.WriteOk? && Enabled(l.sess, e)
    ensures e.k == 0 && |l.left| == 1 && LinkEnabled(l, Flush(0, |l.left[0]|))
    ensures var l1 := LinkStep(l, Flush(0, |l.left[0]|));
      l1.sess == l.sess && LinkEnabled(l1, Proto(e)) && Unflushed(LinkStep(l1, Proto(e)))
  {
    StartedOpens(l.sess, e);
    hide Step;
  }

  lemma {:induction false} Lifted(l: Link, es: seq<Event>) returns (ls: seq<LinkEvent>)
    requires QuietLink(l) && Unflushed(l) && ValidRun(l.sess, es) && Quiet(l.sess, es) && OffersOpen(es)
    ensures Lifts(l, ls, es)
    decreases |es|
  {
    if es == [] {
      LiftsNothing(l);
      ls := [];
    } else {
      OffersOpenParts(es);
      QuietParts(l.sess, es);
      hide *;
      var first := LiftStep(l, es[0]);
      LiftedOne(l, first, es[0]);
      var rest := Lifted(LinkRun(l, first), es[1..]);
      LiftsConcat(l, first, [es[0]], rest, es[1..]);
      ls := first + rest;
      Parts(es, 0);
    }
  }

  lemma Parts<T>(xs: seq<T>, k: nat)
    requires k < |xs|
    ensures xs[..k] + [xs[k]] <= xs && [xs[0]] + xs[1..] == xs
  {
  }

  lemma QuietParts(s: Session, es: seq<Event>)
    requires es != [] && ValidRun(s, es) && Quiet(s, es)
    ensures Enabled(s, es[0]) && !Overlaps(s, es[0])
    ensures ValidRun(Step(s, es[0]), es[1..]) && Quiet(Step(s, es[0]), es[1..])
  {
    hide Step, Enabled, Overlaps;
  }

  lemma LiftsNothing(l: Link)
    requires QuietLink(l) && Unflushed(l)
    ensures Lifts(l, [], [])
  {
    hide QuietLink, Unflushed;
  }

  lemma LiftedOne(l: Link, es: seq<LinkEvent>, e: Event)
    requires Enabled(l.sess, e) && Lifts(l, es, [e])
    ensures ValidLinkRun(l, es) && LinkRun(l, es).sess == Step(l.sess, e)
    ensures QuietLink(LinkRun(l, es)) && Unflushed(LinkRun(l, es))
  {
    hide QuietLink, Unflushed, Step, Enabled;
    RunOne(l.sess, e);
  }

  lemma OffersOpenParts(es: seq<Event>)
    requires es != [] && OffersOpen(es)
    ensures es[0].Offer? ==> Opens(es[0].buffer.bytes)
    ensures OffersOpen(es[1..])
  {
    hide Opens;
    assert es[0] in es && forall e | e in es[1..] :: e in es;
  }

  // ----- The first overlap of a run -----

  lemma {:induction false} FirstOverlap(s: Session, es: seq<Event>) returns (k: nat)
    requires ValidRun(s, es) && !Quiet(s, es)
    ensures k < |es| && ValidRun(s, es[..k]) && Quiet(s, es[..k])
    ensures Enabled(Run(s, es[..k]), es[k]) && Overlaps(Run(s, es[..k]), es[k])
    decreases es
  {
    hide Step, Enabled, Overlaps;
    if Overlaps(s, es[0]) {
      k := 0;
    } else {
      var j := FirstOverlap(Step(s, es[0]), es[1..]);
      k := j + 1;
      assert es[..k][1..] == es[1..][..j];
    }
  }

  lemma {:induction false} QuietPrefix(s: Session, es: seq<Event>, k: nat)
    requires ValidRun(s, es) && Quiet(s, es) && k <= |es|
    ensures ValidRun(s, es[..k]) && Quiet(s, es[..k])
    decreases es
  {
    hide Step, Enabled, Overlaps;
    if k > 0 {
      QuietPrefix(Step(s, es[0]), es[1..], k - 1);
      assert es[..k][1..] == es[1..][..k - 1];
    }
  }

  // ----- Whole if and only if quiet -----

  ghost predicate Whole(l: Link) { l.wire <= Frames(l.sess.initiated) }

  /** At every moment of the run, however the socket orders the pieces of the writes, the stream
      is a prefix of the frames of the started writes. */
  ghost predicate AlwaysWhole(es: seq<Event>) {
    forall ls | ValidLinkRun(FRESH_LINK, ls) && Project(ls) <= es :: Whole(LinkRun(FRESH_LINK, ls))
  }

  /** A run with an overlapping offer has a link run, up to that offer, whose stream is torn. */
  lemma TornUnlessQuiet(es: seq<Event>) returns (ls: seq<LinkEvent>)
    requires ValidRun(NEW, es) && OffersOpen(es) && !Quiet(NEW, es)
    ensures ValidLinkRun(FRESH_LINK, ls) && Project(ls) <= es && !Whole(LinkRun(FRESH_LINK, ls))
  {
    var k := FirstOverlap(NEW, es);
    OverlapIsOffer(Run(NEW, es[..k]), es[k]);
    OffersOpenUpTo(es, k);
    FreshIsQuiet();
    hide *;
    var before := Lifted(FRESH_LINK, es[..k]);
    ls := Torn(before, es[..k], es[k].buffer);
    Parts(es, k);
  }

  lemma OverlapIsOffer(s: Session, e: Event)
    requires Overlaps(s, e)
    ensures e.Offer?
  {
  }

  lemma OffersOpenUpTo(es: seq<Event>, k: nat)
    requires k < |es| && OffersOpen(es)
    ensures OffersOpen(es[..k]) && (es[k].Offer? ==> Opens(es[k].buffer.bytes))
  {
    hide Opens;
    assert es[k] in es && forall e | e in es[..k] :: e in es;
  }

  lemma Torn(before: seq<LinkEvent>, ps: seq<Event>, b: Buffer) returns (ls: seq<LinkEvent>)
    requires Lifts(FRESH_LINK, before, ps) && ValidRun(NEW, ps) && Opens(b.bytes)
    requires Enabled(Run(NEW, ps), Offer(b)) && Overlaps(Run(NEW, ps), Offer(b))
    ensures ValidLinkRun(FRESH_LINK, ls) && Project(ls) == ps + [Offer(b)] && !Whole(LinkRun(FRESH_LINK, ls))
  {
    var l := LinkRun(FRESH_LINK, before);
    assert QuietLink(l) && Unflushed(l) && l.sess == Run(NEW, ps) && Project(before) == ps;
    OverlapIsBesideAWrite(l, b);
    hide *;
    var tear := OverlapCanTearFrames(l, b);
    TornIsNotWhole(LinkRun(l, tear));
    LinkRunConcat(FRESH_LINK, before, tear);
    ProjectConcat(before, tear);
    ProjectTear(b);
    ls := before + tear;
  }

  lemma TornIsNotWhole(l: Link)
    requires !(l.wire <= Frames(l.sess.initiated))
    ensures !Whole(l)
  {
  }

  lemma FreshIsQuiet()
    ensures QuietLink(FRESH_LINK) && Unflushed(FRESH_LINK)
  {
    NewIsInv();
  }

  lemma OverlapIsBesideAWrite(l: Link, b: Buffer)
    requires QuietLink(l) && Unflushed(l) && Enabled(l.sess, Offer(b)) && Overlaps(l.sess, Offer(b))
    ensures l.left != [] && Opens(l.left[0]) && LinkEnabled(l, Proto(Offer(b)))
  {
    LeftPerWrite(l);
    hide QuietLink;
  }

  lemma ProjectTear(b: Buffer)
    ensures Project([Proto(Offer(b)), Flush(0, 1), Flush(1, 1)]) == [Offer(b)]
  {
    ProjectConcat([Proto(Offer(b))], [Flush(0, 1), Flush(1, 1)]);
    assert [Proto(Offer(b))] + [Flush(0, 1), Flush(1, 1)] == [Proto(Offer(b)), Flush(0, 1), Flush(1, 1)];
    assert [Flush(0, 1), Flush(1, 1)][1..] == [Flush(1, 1)] && [Flush(1, 1)][1..] == [];
    assert [Proto(Offer(b))][1..] == [];
  }

  /** For buffers that open like frames: the stream is whole in every order of the pieces if and
      only if no offer of the run overlaps. */
  lemma WholeIffQuiet(es: seq<Event>)
    requires ValidRun(NEW, es) && OffersOpen(es)
    ensures AlwaysWhole(es) <==> Quiet(NEW, es)
  {
    if Quiet(NEW, es) {
      forall ls | ValidLinkRun(FRESH_LINK, ls) && Project(ls) <= es ensures Whole(LinkRun(FRESH_LINK, ls)) {
        QuietPrefix(NEW, es, |Project(ls)|);
        assert es[..|Project(ls)|] == Project(ls);
        LinkProjects(FRESH_LINK, ls);
        StreamIsWholeFrames(ls);
      }
    } else {
      var ls := TornUnlessQuiet(es);
    }
  }

  /** Such a run exists: the peer of some session reads a header that nobody sent. */
  lemma TornStreamHappens(older: Buffer, newer: Buffer) returns (ls: seq<LinkEvent>)
    requires older.serial < newer.serial && Opens(older.bytes) && Opens(newer.bytes)
    ensures ValidLinkRun(FRESH_LINK, ls) && !Whole(LinkRun(FRESH_LINK, ls))
  {
    var es := SwapAndOverlapHappen(older, newer);
    NewIsInv();
    OneWriteIffQuiet(NEW, es);
    if Quiet(NEW, es) { LastOneAtATime(NEW, es); }
    ls := TornUnlessQuiet(es);
  }

  lemma {:induction false} LastOneAtATime(s: Session, es: seq<Event>)
    requires ValidRun(s, es) && OneAtATime(s, es)
    ensures |Run(s, es).outstanding| <= 1
    decreases es
  {
    hide Step, Enabled;
    if es != [] { LastOneAtATime(Step(s, es[0]), es[1..]); }
  }
}
