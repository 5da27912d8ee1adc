/** A publisher session together with the bytes its writes leave in the TCP stream. Asio writes
    a buffer in any number of pieces, and promises nothing about the order of the pieces of two
    writes that run at the same time, so the model allows every order. */
module Wire {
  import opened Bytes
  import opened TcpHeader
  import opened FrameReader
  import opened SendProtocol
  import opened SendTheorems

  /** `left[k]` is what the `k`-th write in flight has not yet put on the wire. */
  datatype Link = Link(sess: Session, left: seq<seq<byte>>, wire: seq<byte>)

  const FRESH_LINK := Link(NEW, [], [])

  datatype LinkEvent = Proto(e: Event) | Flush(k: nat, n: nat)

  function ItemBytes(item: Item): seq<byte> {
    match item
    case Reply => HandshakeFrame()
    case Data(b) => b.bytes
  }

  /** The stream the peer should see: the frames of all started writes, one after the other. */
  function Frames(items: seq<Item>): seq<byte> {
    if items == [] then []
    else Frames(items[..|items| - 1]) + ItemBytes(items[|items| - 1])
  }

  lemma FramesAppend(items: seq<Item>, x: Item)
    ensures Frames(items + [x]) == Frames(items) + ItemBytes(x)
  {
    assert (items + [x])[..|items|] == items;
  }

  /** A write completes without error only when all its bytes are on the wire. */
  ghost predicate LinkEnabled(l: Link, e: LinkEvent) {
    match e
    case Proto(WriteOk(k)) => Enabled(l.sess, e.e) && k < |l.left| && l.left[k] == []
    case Proto(WriteError(k)) => Enabled(l.sess, e.e) && k < |l.left|
    case Proto(_) => Enabled(l.sess, e.e)
    case Flush(k, n) => k < |l.left| && 0 < n <= |l.left[k]|
  }

  function Finished(l: Link, e: Event): seq<seq<byte>>
    requires e.WriteOk? || e.WriteError? ==> e.k < |l.left|
  {
    if e.WriteOk? || e.WriteError? then Without(l.left, e.k) else l.left
  }

  /** The session moves on to `t`; a write that it starts has all its bytes left. */
  function Moved(l: Link, t: Session, kept: seq<seq<byte>>): Link {
    Link(t, if |t.initiated| > |l.sess.initiated| then kept + [ItemBytes(t.initiated[|t.initiated| - 1])] else kept,
         l.wire)
  }

  function LinkStep(l: Link, e: LinkEvent): Link
    requires LinkEnabled(l, e)
  {
    match e
    case Flush(k, n) => Link(l.sess, l.left[k := l.left[k][n..]], l.wire + l.left[k][..n])
    case Proto(p) => Moved(l, Step(l.sess, p), Finished(l, p))
  }

  ghost predicate ValidLinkRun(l: Link, es: seq<LinkEvent>)
    decreases es
  {
    es == [] || (LinkEnabled(l, es[0]) && ValidLinkRun(LinkStep(l, es[0]), es[1..]))
  }

  ghost function LinkRun(l: Link, es: seq<LinkEvent>): Link
    requires ValidLinkRun(l, es)
    decreases es
  {
    if es == [] then l else LinkRun(LinkStep(l, es[0]), es[1..])
  }

  /** No offer of the run is sent while another write is in flight. */
  ghost predicate LinkQuiet(l: Link, es: seq<LinkEvent>)
    requires ValidLinkRun(l, es)
    decreases es
  {
    es == []
    || ((es[0].Proto? ==> !Overlaps(l.sess, es[0].e)) && LinkQuiet(LinkStep(l, es[0]), es[1..]))
  }

  // ----- A link is a session run with bytes -----

  function Project(es: seq<LinkEvent>): seq<Event> {
    if es == [] then []
    else (if es[0].Proto? then [es[0].e] else []) + Project(es[1..])
  }

  lemma LinkStepProjects(l: Link, e: LinkEvent)
    requires e.Proto? && LinkEnabled(l, e)
    ensures Enabled(l.sess, e.e) && LinkStep(l, e).sess == Step(l.sess, e.e)
  {
  }

  /** Forgetting the bytes leaves a run of the session, so its theorems apply to every link;
      and the link is quiet exactly when that run has no overlapping offer, which is when it
      never has two writes in flight (`OneWriteIffQuiet`). */
  lemma {:induction false} LinkProjects(l: Link, es: seq<LinkEvent>)
    requires ValidLinkRun(l, es)
    ensures ValidRun(l.sess, Project(es))
    ensures Run(l.sess, Project(es)) == LinkRun(l, es).sess
    ensures Quiet(l.sess, Project(es)) <==> LinkQuiet(l, es)
    decreases es
  {
    hide Step, Enabled, Overlaps, LinkEnabled;
    if es != [] {
      LinkProjects(LinkStep(l, es[0]), es[1..]);
      if es[0].Proto? {
        LinkStepProjects(l, es[0]);
        assert Project(es)[0] == es[0].e && Project(es)[1..] == Project(es[1..]);
      } else {
        assert Project(es) == Project(es[1..]);
      }
    }
  }

  // ----- One write at a time keeps the frames whole -----

  ghost predicate Aligned(l: Link) {
    && |l.left| == |l.sess.outstanding| <= 1
    && (|l.left| == 1 ==> l.wire + l.left[0] == Frames(l.sess.initiated))
    && (|l.left| == 0 ==>
          && l.wire <= Frames(l.sess.initiated)
          && (!l.sess.phase.Canceled? ==> l.wire == Frames(l.sess.initiated)))
  }

  ghost predicate QuietLink(l: Link) {
    Inv(l.sess) && Aligned(l) && Increasing(DataWrites(l.sess)) && !Crossed(l.sess)
  }

  /** How a step changes the writes: at most one is finished, at most one is started. */
  ghost predicate WritesMoved(s: Session, e: Event, t: Session) {
    var done := e.WriteOk? || e.WriteError?;
    || (t.initiated == s.initiated && t.outstanding == (if done then [] else s.outstanding)
        && (e.WriteError? ==> t.phase.Canceled?)
        && (s.phase.Canceled? ==> t.phase.Canceled?))
    || (exists x ::
          && t.initiated == s.initiated + [x] && t.outstanding == [x]
          && !s.phase.Canceled? && !e.WriteError? && (s.outstanding == [] || done))
  }

  lemma WritesStep(s: Session, e: Event)
    requires Inv(s) && Enabled(s, e) && |s.outstanding| <= 1 && !Overlaps(s, e)
    ensures WritesMoved(s, e, Step(s, e))
  {
    hide Conserved, Order, Held, Complete, Want, ValidStage, IsHandshakeRequest;
    match e
    case ReadOk(bytes) =>
      if Step(s, e).initiated != s.initiated { assert Step(s, e).outstanding == [Reply]; }
    case Offer(b) =>
      if Step(s, e).initiated != s.initiated { assert Step(s, e).outstanding == [Data(b)]; }
    case WriteOk(k) =>
      if Step(s, e).initiated != s.initiated { assert Step(s, e).outstanding == [Data(s.next.value)]; }
    case _ =>
  }

  lemma AlignedStep(l: Link, e: LinkEvent)
    requires Inv(l.sess) && Aligned(l) && LinkEnabled(l, e)
    requires e.Proto? ==> !Overlaps(l.sess, e.e)
    ensures Aligned(LinkStep(l, e))
  {
    if e.Proto? {
      LinkStepProjects(l, e);
      WritesStep(l.sess, e.e);
      hide Inv, Step, Overlaps, Frames, Enabled, LinkEnabled;
      AlignedMoved(l, e.e);
    } else {
      hide Inv, Frames;
      FlushMoves(l.wire, l.left[e.k], e.n);
    }
  }

  /** An event of the session that finishes at most one write and starts at most one. */
  lemma AlignedMoved(l: Link, e: Event)
    requires Aligned(l) && LinkEnabled(l, Proto(e))
    requires WritesMoved(l.sess, e, Step(l.sess, e))
    ensures Aligned(LinkStep(l, Proto(e)))
  {
    NothingLeft(l, e);
    var t, kept := Step(l.sess, e), Finished(l, e);
    assert LinkStep(l, Proto(e)) == Moved(l, t, kept);
    assert !e.WriteOk? && !e.WriteError? ==> kept == l.left;
    hide Step, Enabled, Frames, LinkStep, LinkEnabled, Finished;
    if t.initiated == l.sess.initiated {
      hide Aligned;
      AlignedKept(l, e, t, kept);
    } else {
      var x :| t.initiated == l.sess.initiated + [x] && t.outstanding == [x];
      hide Aligned;
      AlignedStarted(l, t, x, kept);
    }
  }

  lemma AlignedKept(l: Link, e: Event, t: Session, kept: seq<seq<byte>>)
    requires Aligned(l) && t.initiated == l.sess.initiated && WritesMoved(l.sess, e, t)
    requires kept == if e.WriteOk? || e.WriteError? then [] else l.left
    requires e.WriteOk? ==> l.wire == Frames(l.sess.initiated)
    requires e.WriteError? ==> l.wire <= Frames(l.sess.initiated)
    ensures Aligned(Moved(l, t, kept))
  {
    hide Frames;
  }

  lemma AlignedStarted(l: Link, t: Session, x: Item, kept: seq<seq<byte>>)
    requires l.wire == Frames(l.sess.initiated) && kept == []
    requires t.initiated == l.sess.initiated + [x] && t.outstanding == [x]
    ensures Aligned(Moved(l, t, kept))
  {
    FramesAppend(l.sess.initiated, x);
    hide Frames;
    assert Moved(l, t, kept).left == [ItemBytes(x)];
  }

  /** Behind a completed write nothing is left, and every frame so far is on the wire. */
  lemma NothingLeft(l: Link, e: Event)
    requires Aligned(l) && LinkEnabled(l, Proto(e))
    ensures e.WriteOk? || e.WriteError? ==> Finished(l, e) == []
    ensures e.WriteOk? ==> l.wire == Frames(l.sess.initiated)
    ensures l.sess.outstanding == [] && !l.sess.phase.Canceled? ==> l.wire == Frames(l.sess.initiated)
    ensures e.WriteError? ==> l.wire <= Frames(l.sess.initiated)
  {
    hide Frames, Step;
    if e.WriteOk? { assert l.wire + [] == l.wire; }
  }

  lemma FlushMoves(wire: seq<byte>, left: seq<byte>, n: nat)
    requires n <= |left|
    ensures (wire + left[..n]) + left[n..] == wire + left
  {
  }

  lemma QuietLinkStep(l: Link, e: LinkEvent)
    requires QuietLink(l) && LinkEnabled(l, e)
    requires e.Proto? ==> !Overlaps(l.sess, e.e)
    ensures QuietLink(LinkStep(l, e))
  {
    AlignedStep(l, e);
    hide Inv, Aligned, Increasing, Crossed, Step, Enabled;
    if e.Proto? {
      StepKeepsInv(l.sess, e.e);
      CrossedStep(l.sess, e.e);
      OvertakingOverlaps(l.sess, e.e);
    }
  }

  lemma {:induction false} QuietLinkRun(l: Link, es: seq<LinkEvent>)
    requires QuietLink(l) && ValidLinkRun(l, es) && LinkQuiet(l, es)
    ensures QuietLink(LinkRun(l, es))
    decreases es
  {
    hide QuietLink, LinkStep, LinkEnabled;
    if es != [] {
      QuietLinkStep(l, es[0]);
      QuietLinkRun(LinkStep(l, es[0]), es[1..]);
    }
  }

  /** In a quiet run the stream is, at every moment and however the writes were cut into pieces,
      a prefix of the frames of the started writes, and these are in `send` order. */
  lemma StreamIsWholeFrames(es: seq<LinkEvent>)
    requires ValidLinkRun(FRESH_LINK, es) && LinkQuiet(FRESH_LINK, es)
    ensures var l := LinkRun(FRESH_LINK, es);
      && Inv(l.sess) && l.wire <= Frames(l.sess.initiated) && Increasing(DataWrites(l.sess))
      && (l.sess.outstanding == [] && !l.sess.phase.Canceled? ==> l.wire == Frames(l.sess.initiated))
  {
    NewIsInv();
    QuietLinkRun(FRESH_LINK, es);
  }

  // ----- Two writes at a time can tear a frame -----

  /** How a frame of `send`, or the handshake response, opens: with its header size. */
  predicate Opens(bytes: seq<byte>) { |bytes| >= 2 && bytes[0] == HEADER_SIZE && bytes[1] == 0 }

  /** Whenever an offer is sent beside a write of which nothing is on the wire yet, two pieces in
      the wrong order make a header that nobody sent. */
  lemma OverlapCanTearFrames(l: Link, b: Buffer) returns (es: seq<LinkEvent>)
    requires QuietLink(l) && LinkEnabled(l, Proto(Offer(b))) && Overlaps(l.sess, Offer(b))
    requires Opens(b.bytes) && l.left != [] && Opens(l.left[0])
    ensures es == [Proto(Offer(b)), Flush(0, 1), Flush(1, 1)] && ValidLinkRun(l, es)
    ensures LinkRun(l, es).wire == l.wire + [12, 12]
    ensures !(LinkRun(l, es).wire <= Frames(LinkRun(l, es).sess.initiated))
  {
    var l1 := AfterOverlap(l, b);
    hide *;
    es := TwoFirstBytes(l1, l.left[0], b.bytes);
    es := PrependLink(l, Proto(Offer(b)), es);
    TornBehind(l.wire, Frames(l1.sess.initiated));
  }

  lemma TwoFirstBytes(l: Link, first: seq<byte>, second: seq<byte>) returns (es: seq<LinkEvent>)
    requires Opens(first) && Opens(second) && l.left == [first, second]
    ensures es == [Flush(0, 1), Flush(1, 1)] && ValidLinkRun(l, es)
    ensures LinkRun(l, es).wire == l.wire + [12, 12] && LinkRun(l, es).sess == l.sess
  {
    var l1 := Link(l.sess, [first[1..], second], l.wire + [12]);
    var l2 := Link(l.sess, [first[1..], second[1..]], l.wire + [12] + [12]);
    FirstByte(l, 0, l1);
    FirstByte(l1, 1, l2);
    hide *;
    es := PrependLink(l1, Flush(1, 1), []);
    es := PrependLink(l, Flush(0, 1), es);
    assert [12] + [12] == [12, 12];
    Associative(l.wire, [12], [12]);
  }

  /** One byte of the `k`-th write goes out. */
  lemma FirstByte(l: Link, k: nat, t: Link)
    requires k < |l.left| && l.left[k] != []
    requires t == Link(l.sess, l.left[k := l.left[k][1..]], l.wire + [l.left[k][0]])
    ensures LinkEnabled(l, Flush(k, 1)) && LinkStep(l, Flush(k, 1)) == t
    ensures ValidLinkRun(t, []) && LinkRun(t, []) == t
  {
    assert l.left[k][..1] == [l.left[k][0]];
  }

  lemma TornBehind(wire: seq<byte>, frames: seq<byte>)
    requires |frames| >= |wire| + 2 && frames[|wire| + 1] != 12
    ensures !(wire + [12, 12] <= frames)
  {
    assert (wire + [12, 12])[|wire| + 1] == 12;
  }

  lemma AfterOverlap(l: Link, b: Buffer) returns (t: Link)
    requires QuietLink(l) && LinkEnabled(l, Proto(Offer(b))) && Overlaps(l.sess, Offer(b))
    requires l.left != [] && |l.left[0]| >= 2
    ensures t == LinkStep(l, Proto(Offer(b)))
    ensures t.left == [l.left[0], b.bytes] && t.wire == l.wire
    ensures |Frames(t.sess.initiated)| >= |l.wire| + 2
    ensures Frames(t.sess.initiated)[|l.wire| + 1] == l.left[0][1]
  {
    hide Inv, Frames, Increasing, Crossed, Enabled;
    t := LinkStep(l, Proto(Offer(b)));
    FramesAppend(l.sess.initiated, Data(b));
    assert t.sess.initiated == l.sess.initiated + [Data(b)];
    hide Step;
    SecondByte(l.wire, l.left[0], b.bytes);
  }

  lemma SecondByte(wire: seq<byte>, first: seq<byte>, second: seq<byte>)
    requires |first| >= 2
    ensures |wire + first + second| >= |wire| + 2
    ensures (wire + first + second)[|wire| + 1] == first[1]
  {
  }

  lemma {:induction false} LinkRunConcat(l: Link, es: seq<LinkEvent>, more: seq<LinkEvent>)
    requires ValidLinkRun(l, es) && ValidLinkRun(LinkRun(l, es), more)
    ensures ValidLinkRun(l, es + more) && LinkRun(l, es + more) == LinkRun(LinkRun(l, es), more)
    decreases es
  {
    hide LinkStep, LinkEnabled;
    if es == [] {
      assert es + more == more;
    } else {
      LinkRunConcat(LinkStep(l, es[0]), es[1..], more);
      assert (es + more)[0] == es[0] && (es + more)[1..] == es[1..] + more;
    }
  }

  lemma LinkRunOne(l: Link, e: LinkEvent)
    requires LinkEnabled(l, e)
    ensures ValidLinkRun(l, [e]) && LinkRun(l, [e]) == LinkStep(l, e)
  {
    hide LinkStep, LinkEnabled;
    assert [e][1..] == [];
  }

  lemma PrependLink(l: Link, e: LinkEvent, es: seq<LinkEvent>) returns (r: seq<LinkEvent>)
    requires LinkEnabled(l, e) && ValidLinkRun(LinkStep(l, e), es)
    ensures r == [e] + es && ValidLinkRun(l, r) && LinkRun(l, r) == LinkRun(LinkStep(l, e), es)
  {
    r := [e] + es;
    assert r[1..] == es;
  }
}
