/** One connection from `send` to the callback: encoder, conflating sender, byte stream, staged
    reader and subscriber session put together. */
module EndToEnd {
  import opened Bytes
  import opened TcpHeader
  import opened FrameReader
  import opened FrameWriter
  import opened SendProtocol
  import opened SendTheorems
  import opened Wire
  import opened SendOverlaps
  import opened PublisherRuns
  import FanOut
  import Sub = SubscriberProtocol
  import SubRuns = SubscriberRuns
  import SubTheorems = SubscriberTheorems

  /** What a frame carries behind its header. */
  function Content(b: Buffer): seq<byte> { if |b.bytes| < HEADER_SIZE then [] else b.bytes[HEADER_SIZE..] }

  /** The contents of the given buffers, without the empty ones. */
  function NonEmptyContents(bs: seq<Buffer>): seq<seq<byte>> {
    if bs == [] then []
    else
      var last := Content(bs[|bs| - 1]);
      NonEmptyContents(bs[..|bs| - 1]) + (if last == [] then [] else [last])
  }

  /** The content of a buffer of `send` is as long as the user announced, and opens with the
      sub-buffers that are not null; it is exactly these unless some null pointer has a size. */
  ghost predicate Carries(b: Buffer, parts: seq<Part>) {
    && |Content(b)| == TotalSize(parts) && Joined(parts) <= Content(b)
    && (Content(b) == Joined(parts) <==> !HasSizedNull(parts))
  }

  lemma ContentOfSend(b: Buffer, sends: seq<seq<Part>>, prior: seq<seq<byte>>)
    requires MadeBySend(b, sends, prior)
    ensures Carries(b, sends[b.serial])
  {
    var parts := sends[b.serial];
    FilledLayout(parts, prior[b.serial]);
    SizesAddUp(parts);
    hide Filled, HasSizedNull, Joined, TotalSize;
    assert Content(b) == b.bytes[HEADER_SIZE..];
    PrefixOfSameLength(Joined(parts), Content(b));
  }

  lemma PrefixOfSameLength(a: seq<byte>, b: seq<byte>)
    requires a <= b
    ensures a == b <==> |a| == |b|
  {
  }

  // ----- The frames on the wire -----

  function WireOf(item: Item): WireFrame
    requires item.Data? ==> HEADER_SIZE <= |item.buffer.bytes| < 0x1_0000_0000_0000_0000
  {
    match item
    case Reply => WireFrame(Header(HEADER_SIZE, PROTOCOL_HANDSHAKE, 0, 1), [], [0])
    case Data(b) =>
      WireFrame(Header(HEADER_SIZE, REGULAR_PAYLOAD, 0, |b.bytes| - HEADER_SIZE), [], b.bytes[HEADER_SIZE..])
  }

  lemma WireOfItem(item: Item, sends: seq<seq<Part>>, prior: seq<seq<byte>>)
    requires item.Data? ==> MadeBySend(item.buffer, sends, prior)
    ensures item.Data? ==> HEADER_SIZE <= |item.buffer.bytes| < 0x1_0000_0000_0000_0000
    ensures WellFormed(WireOf(item)) && WireBytes(WireOf(item)) == ItemBytes(item)
    ensures item.Data? ==> WireOf(item).payload == Content(item.buffer)
  {
    if item.Data? {
      var parts := sends[item.buffer.serial];
      FilledLayout(parts, prior[item.buffer.serial]);
      hide Filled, EncodeHeader, TotalSize, WellFormed, WireBytes;
      PlainWire(Header(HEADER_SIZE, REGULAR_PAYLOAD, 0, TotalSize(parts)), Content(item.buffer));
    } else {
      hide EncodeHeader, WellFormed, WireBytes;
      PlainWire(Header(HEADER_SIZE, PROTOCOL_HANDSHAKE, 0, 1), [0]);
    }
  }

  /** A frame with a header of our own size. */
  lemma PlainWire(h: Header, payload: seq<byte>)
    requires h.headerSize == HEADER_SIZE && h.dataSize == |payload|
    ensures WellFormed(WireFrame(h, [], payload))
    ensures WireBytes(WireFrame(h, [], payload)) == EncodeHeader(h) + payload
  {
    hide EncodeHeader;
    assert EncodeHeader(h) + [] == EncodeHeader(h);
  }

  lemma {:induction false} SentAppend(ws: seq<WireFrame>, w: WireFrame)
    ensures Sent(ws + [w]) == Sent(ws) + WireBytes(w)
    ensures Contents(ws + [w]) == Contents(ws) + [Frame(w.header.kind, w.payload)]
  {
    hide WireBytes;
    if ws == [] {
      assert ([w])[1..] == [] && [] + [w] == [w];
      assert WireBytes(w) + [] == WireBytes(w);
    } else {
      SentAppend(ws[1..], w);
      assert (ws + [w])[1..] == ws[1..] + [w];
      assert WireBytes(ws[0]) + (Sent(ws[1..]) + WireBytes(w)) == (WireBytes(ws[0]) + Sent(ws[1..])) + WireBytes(w);
    }
  }

  lemma {:induction false} RegularConcat(a: seq<Frame>, b: seq<Frame>)
    ensures Sub.Regular(a + b) == Sub.Regular(a) + Sub.Regular(b)
  {
    if b == [] {
      assert a + b == a;
    } else {
      var init, last := b[..|b| - 1], b[|b| - 1];
      RegularConcat(a, init);
      assert (a + b)[..|a + b| - 1] == a + init;
    }
  }

  /** The frames of the started writes, as wire frames: same bytes, and their regular non-empty
      contents are those of the data writes. */
  lemma {:induction false} FramesAreSends(items: seq<Item>, sends: seq<seq<Part>>, prior: seq<seq<byte>>)
    returns (ws: seq<WireFrame>)
    requires AllMadeBySend(Buffers(items), sends, prior)
    ensures (forall w | w in ws :: WellFormed(w)) && Sent(ws) == Frames(items)
    ensures Sub.Regular(NonEmpty(Contents(ws))) == NonEmptyContents(Buffers(items))
    ensures forall f | f in Contents(ws) :: f.kind == PROTOCOL_HANDSHAKE ==> f.payload == [0]
    decreases |items|
  {
    if items == [] {
      ws := [];
    } else {
      var init, last := items[..|items| - 1], items[|items| - 1];
      assert items == init + [last];
      hide *;
      OneMorePayload(init, last, sends, prior);
      var before := FramesAreSends(init, sends, prior);
      WireOfItem(last, sends, prior);
      ws := before + [WireOf(last)];
      SentAppend(before, WireOf(last));
      FramesAppend(init, last);
      OneMoreFrame(before, WireOf(last));
      WireKinds(last);
    }
  }

  lemma WireKinds(item: Item)
    requires item.Data? ==> HEADER_SIZE <= |item.buffer.bytes| < 0x1_0000_0000_0000_0000
    ensures WireOf(item).header.kind == if item.Data? then REGULAR_PAYLOAD else PROTOCOL_HANDSHAKE
    ensures item.Reply? ==> WireOf(item).payload == [0]
  {
  }

  lemma OneMoreFrame(ws: seq<WireFrame>, w: WireFrame)
    ensures Sub.Regular(NonEmpty(Contents(ws + [w]))) == Sub.Regular(NonEmpty(Contents(ws)))
            + (if w.payload != [] && w.header.kind == REGULAR_PAYLOAD then [w.payload] else [])
  {
    var f := Frame(w.header.kind, w.payload);
    SentAppend(ws, w);
    NonEmptyAppend(Contents(ws), [f]);
    assert [f][1..] == [];
    RegularConcat(NonEmpty(Contents(ws)), NonEmpty([f]));
    RegularOfOne(f);
  }

  lemma RegularOfOne(f: Frame)
    ensures Sub.Regular([f]) == if f.kind == REGULAR_PAYLOAD then [f.payload] else []
    ensures Sub.Regular([]) == []
  {
    assert [f][..0] == [];
  }

  lemma OneMorePayload(init: seq<Item>, last: Item, sends: seq<seq<Part>>, prior: seq<seq<byte>>)
    requires AllMadeBySend(Buffers(init + [last]), sends, prior)
    ensures AllMadeBySend(Buffers(init), sends, prior)
    ensures last.Data? ==> MadeBySend(last.buffer, sends, prior)
    ensures NonEmptyContents(Buffers(init + [last])) == NonEmptyContents(Buffers(init))
            + (if last.Data? && Content(last.buffer) != [] then [Content(last.buffer)] else [])
  {
    BuffersAppend(init, last);
    var all := Buffers(init + [last]);
    if last.Data? {
      assert all[..|all| - 1] == Buffers(init) && all[|all| - 1] == last.buffer;
      assert last.buffer in all;
    }
    forall b | b in Buffers(init) ensures b in all { }
  }

  // ----- A reader of a prefix of the stream -----

  /** Whatever prefix of the frames has been settled, its messages are the first ones sent. */
  lemma SettledPrefix(x: seq<byte>, ws: seq<WireFrame>)
    requires forall w | w in ws :: WellFormed(w)
    requires !Parse(x).bad && Parse(x).rest == [] && x <= Sent(ws)
    ensures Parse(x).frames <= Contents(ws)
    ensures NonEmpty(Parse(x).frames) <= NonEmpty(Contents(ws))
    ensures Sub.Regular(NonEmpty(Parse(x).frames)) <= Sub.Regular(NonEmpty(Contents(ws)))
    ensures x == Sent(ws) ==> Parse(x).frames == Contents(ws)
  {
    hide HeadOf, Parse, NonEmpty, Sub.Regular, WellFormed, Contents, Sent;
    var y := Sent(ws)[|x|..];
    assert Sent(ws) == x + y && [] + y == y;
    ParseAppend(x, y);
    SentParses(ws);
    var later := Parse(y).frames;
    NonEmptyAppend(Parse(x).frames, later);
    RegularConcat(NonEmpty(Parse(x).frames), NonEmpty(later));
  }

  /** What a subscriber that has read some prefix of a publisher's stream can have received. */
  ghost predicate Received(s: Session, t: Sub.Subscription) {
    && t.base <= |t.received| && t.settled <= |t.inbound|
    && t.received[t.base..] <= NonEmptyContents(DataWrites(s))
    && (t.inbound[..t.settled] == Frames(s.initiated) ==>
          t.received[t.base..] == NonEmptyContents(DataWrites(s)))
  }

  lemma ReceivedPrefix(s: Session, wire: seq<byte>, t: Sub.Subscription, sends: seq<seq<Part>>, prior: seq<seq<byte>>)
    requires AllMadeBySend(Buffers(s.initiated), sends, prior)
    requires t.inbound <= wire <= Frames(s.initiated)
    requires t.base <= |t.received| && t.received[t.base..] == Sub.Regular(t.messages) && Sub.Settled(t)
    ensures Received(s, t)
  {
    var ws := FramesAreSends(s.initiated, sends, prior);
    assert t.settled <= |t.inbound|;
    var x := t.inbound[..t.settled];
    assert !Parse(x).bad && Parse(x).rest == [] && NonEmpty(Parse(x).frames) == t.messages;
    hide *;
    PrefixOfPrefix(t.inbound, t.settled, Sent(ws));
    SettledPrefix(x, ws);
    ReceivedFrames(s, t, Parse(x).frames, Contents(ws));
  }

  lemma ReceivedFrames(s: Session, t: Sub.Subscription, read: seq<Frame>, sent: seq<Frame>)
    requires t.base <= |t.received| && t.settled <= |t.inbound|
    requires t.received[t.base..] == Sub.Regular(t.messages) && t.messages == NonEmpty(read)
    requires Sub.Regular(NonEmpty(read)) <= Sub.Regular(NonEmpty(sent))
    requires Sub.Regular(NonEmpty(sent)) == NonEmptyContents(Buffers(s.initiated))
    requires t.inbound[..t.settled] == Frames(s.initiated) ==> read == sent
    ensures Received(s, t)
  {
    hide NonEmpty, Sub.Regular, Frames, Buffers, NonEmptyContents;
  }

  lemma PrefixOfPrefix(a: seq<byte>, n: nat, b: seq<byte>)
    requires n <= |a| && a <= b
    ensures a[..n] <= b
  {
  }

  // ----- The stream never ends a connection -----

  /** Frames such as a publisher sends: the only handshake message is for version 0. */
  ghost predicate Acceptable(ws: seq<WireFrame>) {
    && (forall w | w in ws :: WellFormed(w))
    && (forall f | f in Contents(ws) :: f.kind == PROTOCOL_HANDSHAKE ==> f.payload == [0])
  }

  lemma PrefixAndRest(a: seq<byte>, b: seq<byte>)
    requires a <= b
    ensures b == a + b[|a|..]
  {
  }

  /** A parsed prefix of such frames holds no malformed header. */
  lemma NothingMalformed(x: seq<byte>, frame: seq<byte>, ws: seq<WireFrame>)
    requires Acceptable(ws) && !Parse(x).bad && Parse(x).rest == [] && x + frame <= Sent(ws)
    ensures !HeadOf(frame).Bad?
  {
    var tail := Sent(ws)[|x + frame|..];
    PrefixAndRest(x + frame, Sent(ws));
    SentParses(ws);
    hide HeadOf, Parse, Contents, Sent, WellFormed;
    assert [] + frame == frame;
    ParseAppend(x, frame);
    ParseAppend(x + frame, tail);
    if HeadOf(frame).Bad? { ParseUnsettled(frame); }
  }

  /** A frame behind a parsed prefix is one of the frames. */
  lemma FrameIsAmong(x: seq<byte>, frame: seq<byte>, f: Frame, ws: seq<WireFrame>)
    requires Acceptable(ws) && !Parse(x).bad && Parse(x).rest == [] && x + frame <= Sent(ws)
    requires HeadOf(frame) == Whole(|frame|, f)
    ensures f in Contents(ws)
  {
    hide HeadOf, Contents, Sent, WellFormed;
    ParseAppend(x, frame);
    assert [] + frame == frame && frame + [] == frame;
    ParseWhole(frame, [], f);
    SubTheorems.NoFrames();
    hide Parse;
    SettledPrefix(x + frame, ws);
    assert Parse(x + frame).frames[|Parse(x).frames|] == f;
  }

  /** The connection is still the same: neither a retry nor the closed handler. */
  ghost predicate StillConnected(s: Sub.Subscription, t: Sub.Subscription) {
    t.connected == s.connected && t.retries == s.retries && t.closes == s.closes
  }

  /** What a read of such frames comes to. */
  lemma ReadIsAcceptable(s: Sub.Subscription, read: Sub.CompleteRead, ws: seq<WireFrame>)
    requires Sub.InStream(s, read.stage)
    requires Acceptable(ws) && s.inbound + read.bytes <= Sent(ws)
    ensures match Complete(read.stage, read.bytes)
      case Malformed => false
      case Message(h, payload) => h.kind == PROTOCOL_HANDSHAKE ==> payload == [0]
      case _ => true
  {
    hide Complete, HeadOf, Held, Parse, Contents, Sent, WellFormed, ValidStage, Want;
    var x, c := s.inbound[..s.settled], s.inbound[s.settled..];
    assert s.inbound + read.bytes == x + (c + read.bytes);
    StageSound(read.stage, c, read.bytes);
    NothingMalformed(x, c + read.bytes, ws);
    match Complete(read.stage, read.bytes)
    case Message(h, payload) => FrameIsAmong(x, c + read.bytes, Frame(h.kind, payload), ws);
    case _ =>
  }

  lemma ReadGoesOn(s: Sub.Subscription, read: Sub.CompleteRead, ws: seq<WireFrame>)
    requires !s.canceled && Sub.InStream(s, read.stage)
    requires Acceptable(ws) && s.inbound + read.bytes <= Sent(ws)
    ensures StillConnected(s, Sub.AfterRead(s, read))
  {
    ReadIsAcceptable(s, read, ws);
    hide Complete, Acceptable, Sub.InStream, Sent;
  }

  /** A response is accepted exactly when it is for version 0, the version that was asked for. */
  lemma VersionAcceptedIff(s: Sub.Subscription, h: Header, payload: seq<byte>)
    requires h.kind == PROTOCOL_HANDSHAKE && payload != []
    ensures StillConnected(s, Sub.MessageRead(s, h, payload)) <==> payload[0] == 0
  {
    assert !StillConnected(s, Sub.ConnectionFailed(Sub.Noted(s, Frame(h.kind, payload))));
  }

  /** As long as what is read is a prefix of such frames, the strand's next task ends the
      connection only if an operation of Asio has failed or the session is canceled. */
  lemma OnlyFailuresEndConnection(s: Sub.Subscription, ws: seq<WireFrame>)
    requires SubRuns.Inv(s) && Sub.Enabled(s, Sub.Strand) && !s.canceled
    requires s.posted[s.ran] != Sub.Requested(true) && !s.posted[s.ran].ReadFailed?
    requires Acceptable(ws) && Sub.Step(s, Sub.Strand).inbound <= Sent(ws)
    ensures StillConnected(s, Sub.Step(s, Sub.Strand))
  {
    var t := s.(ran := s.ran + 1);
    if s.posted[s.ran].ReadDone? {
      var read := s.posted[s.ran].read;
      NextIsRead(s);
      assert Sub.Stream(s) && Sub.Tokens(s);
      hide *;
      SubTheorems.StreamPop(s);
      AfterReadInbound(t, read);
      ReadGoesOn(t, read, ws);
      SameConnection(s, t, Sub.AfterRead(t, read));
    } else {
      hide *;
      OtherTaskGoesOn(s);
    }
  }

  lemma NextIsRead(s: Sub.Subscription)
    requires Sub.Enabled(s, Sub.Strand) && s.posted[s.ran].ReadDone?
    ensures Sub.Step(s, Sub.Strand) == Sub.AfterRead(s.(ran := s.ran + 1), s.posted[s.ran].read)
  {
    hide Sub.AfterRead;
  }

  lemma OtherTaskGoesOn(s: Sub.Subscription)
    requires Sub.Enabled(s, Sub.Strand) && !s.canceled && !s.posted[s.ran].ReadDone?
    requires s.posted[s.ran] != Sub.Requested(true) && !s.posted[s.ran].ReadFailed?
    ensures StillConnected(s, Sub.Step(s, Sub.Strand))
  {
    hide Sub.AfterRead;
  }

  lemma AfterReadInbound(s: Sub.Subscription, read: Sub.CompleteRead)
    ensures Sub.AfterRead(s, read).inbound == s.inbound + read.bytes
  {
    hide Complete;
  }

  lemma SameConnection(s: Sub.Subscription, t: Sub.Subscription, u: Sub.Subscription)
    requires t == s.(ran := s.ran + 1) && StillConnected(t, u)
    ensures StillConnected(s, u)
  {
  }

  // ----- From `send` to the callback -----

  /** For one connection, whatever made its buffers. In every run of the publisher's session in
      which no offer is sent beside a running write, and every run of a subscriber session that
      has read some prefix of that stream: the payloads received on the connection, in order, are
      the first of the non-empty contents of the started data writes; these are in `send` order and
      carry what the user handed to `send`; when everything started has been read, nothing is missing; the callbacks follow; and
      whatever the subscriber reads next of that stream leaves it connected. */
  lemma PayloadsArriveInOrder(
    pes: seq<LinkEvent>, sends: seq<seq<Part>>, prior: seq<seq<byte>>,
    limit: int, publishers: nat, callback: nat, ses: seq<Sub.Event>)
    requires ValidLinkRun(FRESH_LINK, pes) && LinkQuiet(FRESH_LINK, pes)
    requires AllMadeBySend(LinkRun(FRESH_LINK, pes).sess.accepted, sends, prior)
    requires publishers > 0 && Sub.ValidRun(Sub.NewSubscription(limit, publishers, callback), ses)
    requires Sub.Run(Sub.NewSubscription(limit, publishers, callback), ses).inbound
             <= LinkRun(FRESH_LINK, pes).wire
    ensures var s := LinkRun(FRESH_LINK, pes).sess;
      var t := Sub.Run(Sub.NewSubscription(limit, publishers, callback), ses);
      && Increasing(DataWrites(s)) && AllCarry(DataWrites(s), sends)
      && Received(s, t)
      && Sub.Payloads(t.calls) <= t.received
    ensures StaysConnected(Sub.Run(Sub.NewSubscription(limit, publishers, callback), ses),
                           LinkRun(FRESH_LINK, pes).wire)
  {
    var first := Sub.NewSubscription(limit, publishers, callback);
    StreamIsWholeFrames(pes);
    SubRuns.NewIsInv(limit, publishers, callback);
    SubRuns.RunKeepsInv(first, ses);
    var l, t := LinkRun(FRESH_LINK, pes), Sub.Run(first, ses);
    hide *;
    WritesAreAccepted(l.sess, sends, prior);
    AllContentsOfSends(DataWrites(l.sess), sends, prior);
    ReceivedOnConnection(t);
    ReceivedPrefix(l.sess, l.wire, t, sends, prior);
    KeepsConnection(l.sess, l.wire, t, sends, prior);
  }

  /** The next task on the strand, unless it brings a failure or the session is canceled, leaves
      the session connected if what it has read is still a prefix of the stream. */
  ghost predicate StaysConnected(t: Sub.Subscription, wire: seq<byte>) {
    Sub.Enabled(t, Sub.Strand) && !t.canceled
    && t.posted[t.ran] != Sub.Requested(true) && !t.posted[t.ran].ReadFailed?
    && Sub.Step(t, Sub.Strand).inbound <= wire
    ==> StillConnected(t, Sub.Step(t, Sub.Strand))
  }

  lemma KeepsConnection(s: Session, wire: seq<byte>, t: Sub.Subscription, sends: seq<seq<Part>>, prior: seq<seq<byte>>)
    requires AllMadeBySend(Buffers(s.initiated), sends, prior) && SubRuns.Inv(t)
    requires wire <= Frames(s.initiated)
    ensures StaysConnected(t, wire)
  {
    var ws := FramesAreSends(s.initiated, sends, prior);
    assert Acceptable(ws);
    hide *;
    NextStaysConnected(t, wire, ws);
  }

  lemma NextStaysConnected(t: Sub.Subscription, wire: seq<byte>, ws: seq<WireFrame>)
    requires SubRuns.Inv(t) && Acceptable(ws) && wire <= Sent(ws)
    ensures StaysConnected(t, wire)
  {
    hide Acceptable, SubRuns.Inv, Sub.Step, StillConnected, Sent;
    if Sub.Enabled(t, Sub.Strand) && !t.canceled
       && t.posted[t.ran] != Sub.Requested(true) && !t.posted[t.ran].ReadFailed?
       && Sub.Step(t, Sub.Strand).inbound <= wire
    {
      OnlyFailuresEndConnection(t, ws);
    }
  }

  ghost predicate AllCarry(bs: seq<Buffer>, sends: seq<seq<Part>>) {
    forall b | b in bs :: b.serial < |sends| && Carries(b, sends[b.serial])
  }

  lemma AllContentsOfSends(bs: seq<Buffer>, sends: seq<seq<Part>>, prior: seq<seq<byte>>)
    requires AllMadeBySend(bs, sends, prior)
    ensures AllCarry(bs, sends)
  {
    forall b | b in bs ensures b.serial < |sends| && Carries(b, sends[b.serial]) {
      assert MadeBySend(b, sends, prior);
      ContentOfSend(b, sends, prior);
    }
  }

  lemma WritesAreAccepted(s: Session, sends: seq<seq<Part>>, prior: seq<seq<byte>>)
    requires Inv(s) && AllMadeBySend(s.accepted, sends, prior)
    ensures AllMadeBySend(Buffers(s.initiated), sends, prior) && DataWrites(s) == Buffers(s.initiated)
  {
    assert Order(s);
    hide MadeBySend;
  }

  lemma ReceivedOnConnection(t: Sub.Subscription)
    requires SubRuns.Inv(t)
    ensures t.base <= |t.received| && t.received[t.base..] == Sub.Regular(t.messages) && Sub.Settled(t)
    ensures Sub.Payloads(t.calls) <= t.received
  {
    assert Sub.Stream(t) && Sub.Deliveries(t);
  }

  /** No buffer is sent to session `x` beside a write in flight. (The session's share of a run is
      always a valid run of its link: `SessionsAcceptSends`.) */
  ghost predicate NeverOverlaps(es: seq<NetEvent>, x: nat)
    requires ValidNetRun(NEW_NET, es)
  {
    ValidLinkRun(FRESH_LINK, Shares(NEW_NET, es, x)) && LinkQuiet(FRESH_LINK, Shares(NEW_NET, es, x))
  }

  /** No buffer is offered to session `x` before its handshake response has been written. */
  ghost predicate RespondsFirst(es: seq<NetEvent>, x: nat)
    requires ValidNetRun(NEW_NET, es)
  {
    ResponseFirst(Project(Shares(NEW_NET, es, x)))
  }

  lemma RespondsFirstNeverOverlaps(es: seq<NetEvent>, x: nat)
    requires ValidNetRun(NEW_NET, es) && x in NetRun(NEW_NET, es).links && RespondsFirst(es, x)
    ensures NeverOverlaps(es, x)
  {
    SessionsAcceptSends(es, x);
    LinkProjects(FRESH_LINK, Shares(NEW_NET, es, x));
    ResponseFirstIsQuiet(Project(Shares(NEW_NET, es, x)));
  }

  /** What reaches a subscriber of session `x` of a publisher in state `n`. */
  ghost predicate Delivered(n: Net, x: nat, t: Sub.Subscription)
    requires x in n.links
  {
    var s := n.links[x].sess;
    && Increasing(DataWrites(s)) && AllCarry(DataWrites(s), n.sends)
    && (forall b | b in DataWrites(s) ::
          x in n.roster.joined && n.roster.joined[x] <= b.serial < FanOut.End(n.roster, x))
    && Received(s, t)
    && Sub.Payloads(t.calls) <= t.received
    && StaysConnected(t, n.links[x].wire)
  }

  /** End to end. In every run of a publisher with any number of sessions and `send` calls, for
      every session that is never sent a buffer beside a write in flight, and every run of a
      subscriber session that has read some prefix of its stream: the payloads received are the
      first of the non-empty contents of the data writes started, each of which carries what one of
      the `send` calls decided while the session was listed was given, in the order of these calls. */
  lemma SendsArriveInOrder(
    pes: seq<NetEvent>, x: nat, limit: int, publishers: nat, callback: nat, ses: seq<Sub.Event>)
    requires ValidNetRun(NEW_NET, pes) && x in NetRun(NEW_NET, pes).links
    requires NeverOverlaps(pes, x)
    requires publishers > 0 && Sub.ValidRun(Sub.NewSubscription(limit, publishers, callback), ses)
    requires Sub.Run(Sub.NewSubscription(limit, publishers, callback), ses).inbound
             <= NetRun(NEW_NET, pes).links[x].wire
    ensures Delivered(NetRun(NEW_NET, pes), x, Sub.Run(Sub.NewSubscription(limit, publishers, callback), ses))
  {
    SessionsAcceptSends(pes, x);
    var n := NetRun(NEW_NET, pes);
    var share := Shares(NEW_NET, pes, x);
    assert ValidLinkRun(FRESH_LINK, share) && LinkQuiet(FRESH_LINK, share);
    StreamIsWholeFrames(share);
    hide *;
    PayloadsArriveInOrder(share, n.sends, n.prior, limit, publishers, callback, ses);
    WritesAreListed(n, x);
    PutTogether(n, x, Sub.Run(Sub.NewSubscription(limit, publishers, callback), ses));
  }

  /** And in particular for every session that is offered nothing before its response is written. */
  lemma SendsArriveBehindResponse(
    pes: seq<NetEvent>, x: nat, limit: int, publishers: nat, callback: nat, ses: seq<Sub.Event>)
    requires ValidNetRun(NEW_NET, pes) && x in NetRun(NEW_NET, pes).links
    requires RespondsFirst(pes, x)
    requires publishers > 0 && Sub.ValidRun(Sub.NewSubscription(limit, publishers, callback), ses)
    requires Sub.Run(Sub.NewSubscription(limit, publishers, callback), ses).inbound
             <= NetRun(NEW_NET, pes).links[x].wire
    ensures Delivered(NetRun(NEW_NET, pes), x, Sub.Run(Sub.NewSubscription(limit, publishers, callback), ses))
  {
    RespondsFirstNeverOverlaps(pes, x);
    hide *;
    SendsArriveInOrder(pes, x, limit, publishers, callback, ses);
  }

  /** A started data write carries a buffer offered during the session's stay in the list. */
  lemma WritesAreListed(n: Net, x: nat)
    requires x in n.links && Inv(n.links[x].sess)
    requires if x in n.roster.joined then
        Tracks(n.links[x], FanOut.Interval(n.roster.joined[x], FanOut.End(n.roster, x)))
      else n.links[x].sess.accepted == []
    ensures forall b | b in DataWrites(n.links[x].sess) ::
      x in n.roster.joined && n.roster.joined[x] <= b.serial < FanOut.End(n.roster, x)
  {
    var s := n.links[x].sess;
    assert Order(s);
    hide Conserved, Flow, Reading, Buffers;
    forall b | b in DataWrites(s)
      ensures x in n.roster.joined && n.roster.joined[x] <= b.serial < FanOut.End(n.roster, x)
    {
      assert b in s.accepted;
      var k :| 0 <= k < |s.accepted| && s.accepted[k] == b;
      var stay := FanOut.Interval(n.roster.joined[x], FanOut.End(n.roster, x));
      assert Serials(s.accepted)[k] == b.serial == stay[k];
      FanOut.IntervalMembers(n.roster.joined[x], FanOut.End(n.roster, x));
      assert stay[k] in stay;
    }
  }

  lemma PutTogether(n: Net, x: nat, t: Sub.Subscription)
    requires x in n.links
    requires Increasing(DataWrites(n.links[x].sess)) && AllCarry(DataWrites(n.links[x].sess), n.sends)
    requires forall b | b in DataWrites(n.links[x].sess) ::
      x in n.roster.joined && n.roster.joined[x] <= b.serial < FanOut.End(n.roster, x)
    requires Received(n.links[x].sess, t)
    requires Sub.Payloads(t.calls) <= t.received && StaysConnected(t, n.links[x].wire)
    ensures Delivered(n, x, t)
  {
  }

  // ----- Freshness -----

  /** The newest accepted buffer that is not empty. */
  ghost predicate NewestNonEmpty(b: Buffer, accepted: seq<Buffer>) {
    && b in accepted && Content(b) != []
    && (forall c | c in accepted && b.serial < c.serial :: Content(c) == [])
  }

  ghost predicate EndsWith(payloads: seq<seq<byte>>, payload: seq<byte>) {
    payloads != [] && payloads[|payloads| - 1] == payload
  }

  lemma {:induction false} NewestContentIsLast(bs: seq<Buffer>, b: Buffer)
    requires Increasing(bs) && NewestNonEmpty(b, bs)
    ensures EndsWith(NonEmptyContents(bs), Content(b))
  {
    var init, last := bs[..|bs| - 1], bs[|bs| - 1];
    if last != b {
      assert bs == init + [last];
      var i :| 0 <= i < |bs| && bs[i] == b;
      assert b.serial < last.serial && init[i] == b;
      NewestContentIsLast(init, b);
    }
  }

  /** A buffer that is not in the slot any more was sent, or gave way to a newer one. */
  lemma SentOrOvertaken(s: Session, b: Buffer)
    requires Inv(s) && s.next.None? && b in s.accepted
    ensures b !in DataWrites(s) ==>
      exists d :: d in s.dropped && d.lost == b && d.winner in s.accepted && b.serial < d.winner.serial
    ensures b == s.accepted[|s.accepted| - 1] ==> b in DataWrites(s)
  {
    EveryBufferHasOneFate(s, b);
    hide Inv, Buffers;
    if b !in DataWrites(s) { assert multiset(DataWrites(s))[b] == 0; }
  }

  lemma WritesAmongAccepted(s: Session)
    requires Inv(s)
    ensures forall b | b in DataWrites(s) :: b in s.accepted
  {
    assert Order(s);
  }

  /** What a subscriber has received last when it has read everything and the slot is empty. */
  ghost predicate Fresh(s: Session, t: Sub.Subscription, b: Buffer)
    requires t.base <= |t.received|
  {
    if b in DataWrites(s) then EndsWith(t.received[t.base..], Content(b))
    else exists d :: d in s.dropped && d.lost == b && d.winner in s.accepted && Content(d.winner) == []
  }

  lemma FreshWhenRead(s: Session, t: Sub.Subscription, b: Buffer)
    requires Inv(s) && Increasing(DataWrites(s)) && Received(s, t)
    requires s.next.None? && t.inbound[..t.settled] == Frames(s.initiated)
    requires NewestNonEmpty(b, s.accepted)
    ensures Fresh(s, t, b)
    ensures b == s.accepted[|s.accepted| - 1] ==> EndsWith(t.received[t.base..], Content(b))
  {
    SentOrOvertaken(s, b);
    WritesAmongAccepted(s);
    hide Inv, Increasing, DataWrites, Frames, Content;
    if b in DataWrites(s) {
      NewestContentIsLast(DataWrites(s), b);
    }
  }

  /** In the runs of `SendsArriveInOrder`: once a subscriber has read all frames of a session whose
      slot is empty, the last payload it has received is the newest non-empty buffer that the
      session accepted, unless that one was overwritten by an empty one; so if the newest buffer
      accepted is not empty, it is what the subscriber has received last. */
  lemma NewestArrives(
    pes: seq<NetEvent>, x: nat, limit: int, publishers: nat, callback: nat, ses: seq<Sub.Event>, b: Buffer)
    requires ValidNetRun(NEW_NET, pes) && x in NetRun(NEW_NET, pes).links
    requires NeverOverlaps(pes, x)
    requires publishers > 0 && Sub.ValidRun(Sub.NewSubscription(limit, publishers, callback), ses)
    requires var s, t := NetRun(NEW_NET, pes).links[x].sess, Sub.Run(Sub.NewSubscription(limit, publishers, callback), ses);
      && t.inbound <= NetRun(NEW_NET, pes).links[x].wire
      && t.settled <= |t.inbound| && t.inbound[..t.settled] == Frames(s.initiated)
      && s.next.None? && NewestNonEmpty(b, s.accepted)
    ensures var s, t := NetRun(NEW_NET, pes).links[x].sess, Sub.Run(Sub.NewSubscription(limit, publishers, callback), ses);
      && t.base <= |t.received| && Fresh(s, t, b)
      && (b == s.accepted[|s.accepted| - 1] ==> EndsWith(t.received[t.base..], Content(b)))
  {
    SendsArriveInOrder(pes, x, limit, publishers, callback, ses);
    SessionIsInv(pes, x);
    var n, t := NetRun(NEW_NET, pes), Sub.Run(Sub.NewSubscription(limit, publishers, callback), ses);
    DeliveredReceives(n, x, t);
    hide *;
    FreshWhenRead(n.links[x].sess, t, b);
  }

  lemma DeliveredReceives(n: Net, x: nat, t: Sub.Subscription)
    requires x in n.links && Delivered(n, x, t)
    ensures Received(n.links[x].sess, t) && Increasing(DataWrites(n.links[x].sess)) && t.base <= |t.received|
  {
  }

  lemma SessionIsInv(pes: seq<NetEvent>, x: nat)
    requires ValidNetRun(NEW_NET, pes) && x in NetRun(NEW_NET, pes).links && NeverOverlaps(pes, x)
    ensures Inv(NetRun(NEW_NET, pes).links[x].sess)
  {
    SessionsAcceptSends(pes, x);
    StreamIsWholeFrames(Shares(NEW_NET, pes, x));
  }

  /** The exception is real: an empty buffer takes the place of one that was to be sent. */
  lemma EmptyBufferOverwrites(b: Buffer, empty: Buffer) returns (es: seq<Event>)
    requires b.serial < empty.serial && Content(empty) == []
    ensures es == [Start, Offer(b), Offer(empty)] && ValidRun(NEW, es)
    ensures Run(NEW, es).dropped == [Drop(b, empty)] && b !in DataWrites(Run(NEW, es))
  {
    var s1 := Step(NEW, Start);
    var s2 := Step(s1, Offer(b));
    var s3 := Step(s2, Offer(empty));
    assert Enabled(s1, Offer(b)) && Enabled(s2, Offer(empty)) && s3.dropped == [Drop(b, empty)];
    assert DataWrites(s3) == [];
    hide Step, Enabled, DataWrites;
    es := Prepend(s2, Offer(empty), []);
    es := Prepend(s1, Offer(b), es);
    es := Prepend(NEW, Start, es);
  }
}
