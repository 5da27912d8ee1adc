/** The staged reader that both session classes drive (header length, header content,
    discard, payload), next to a parser that looks at the whole stream at once. */
module FrameReader {
  import opened Bytes
  import opened TcpHeader

  // ----- The four stages -----

  /** A header size that passed the minimum check. */
  type AcceptedSize = x: uint16 | SIZE_FIELD <= x witness SIZE_FIELD

  /** Which asynchronous read is pending, with what its completion handler captured. */
  datatype Stage =
    | Length
    | Content(size: AcceptedSize)
    | Discard(header: Header, count: uint16)
    | Payload(header: Header)

  /** How many bytes the pending read waits for. */
  function Want(st: Stage): nat {
    match st
    case Length => SIZE_FIELD
    case Content(size) =>
      var mine: uint16 := HEADER_SIZE;
      (if size < mine then size else mine) - SIZE_FIELD
    case Discard(_, count) => count
    case Payload(header) => header.dataSize
  }

  ghost predicate ValidStage(st: Stage) {
    match st
    case Length => true
    case Content(_) => true
    case Discard(_, count) => 0 < count
    case Payload(header) => 0 < header.dataSize
  }

  datatype Progress =
    | Next(stage: Stage)
    | Malformed
    | EmptyFrame(header: Header)
    | Message(header: Header, payload: seq<byte>)

  /** What the reader does once the header is complete and any surplus is skipped. */
  function AtPayload(header: Header): Progress {
    if header.dataSize == 0 then EmptyFrame(header) else Next(Payload(header))
  }

  /** The struct that the length read and the content read have filled in. */
  function Received(size: uint16, content: seq<byte>): Header
    requires |content| <= HEADER_SIZE - SIZE_FIELD
  {
    HeaderOf(LittleEndian(size, 2) + content)
  }

  /** What follows when the pending read has delivered its bytes. */
  function Complete(st: Stage, bytes: seq<byte>): (p: Progress)
    requires ValidStage(st) && |bytes| == Want(st)
    ensures p.Next? ==> ValidStage(p.stage)
    ensures p.Message? ==> p.payload != []
  {
    match st
    case Length =>
      WidthsOfTheProtocol();
      DecodeThenEncode(bytes);
      var size := FromLittleEndian(bytes);
      if size < SIZE_FIELD then Malformed else Next(Content(size))
    case Content(size) =>
      var header := Received(size, bytes);
      var surplus: uint16 := if size > HEADER_SIZE then size - HEADER_SIZE else 0;
      if surplus > 0 then Next(Discard(header, surplus)) else AtPayload(header)
    case Discard(header, _) => AtPayload(header)
    case Payload(header) => Message(header, bytes)
  }

  // ----- One-shot parser -----

  datatype Frame = Frame(kind: byte, payload: seq<byte>)

  datatype Head = Partial | Bad | Whole(extent: nat, frame: Frame)

  /** The first frame of a byte string, read off the protocol's layout. */
  function HeadOf(bytes: seq<byte>): (r: Head)
    ensures r.Whole? ==> SIZE_FIELD <= r.extent <= |bytes|
  {
    if |bytes| < SIZE_FIELD then Partial
    else
      var size := FromLittleEndian(bytes[..SIZE_FIELD]);
      if size < SIZE_FIELD then Bad
      else if |bytes| < size then Partial
      else
        var h := HeaderOf(bytes[..size]);
        if |bytes| < size + h.dataSize then Partial
        else Whole(size + h.dataSize, Frame(h.kind, bytes[size..size + h.dataSize]))
  }

  datatype Parsed = Parsed(frames: seq<Frame>, rest: seq<byte>, bad: bool)

  function Parse(bytes: seq<byte>): Parsed {
    match HeadOf(bytes)
    case Partial => Parsed([], bytes, false)
    case Bad => Parsed([], bytes, true)
    case Whole(n, f) =>
      var p := Parse(bytes[n..]);
      Parsed([f] + p.frames, p.rest, p.bad)
  }

  lemma {:induction false} ParseLeavesNoFrame(bytes: seq<byte>)
    ensures !Parse(bytes).bad ==> HeadOf(Parse(bytes).rest).Partial?
  {
    if HeadOf(bytes).Whole? {
      ParseLeavesNoFrame(bytes[HeadOf(bytes).extent..]);
    }
  }

  function NonEmpty(frames: seq<Frame>): seq<Frame> {
    if frames == [] then []
    else (if frames[0].payload == [] then [] else [frames[0]]) + NonEmpty(frames[1..])
  }

  lemma {:induction false} NonEmptyAppend(a: seq<Frame>, b: seq<Frame>)
    ensures NonEmpty(a + b) == NonEmpty(a) + NonEmpty(b)
  {
    if a == [] {
      assert a + b == b;
    } else {
      NonEmptyAppend(a[1..], b);
      assert (a + b)[1..] == a[1..] + b;
      var first := if a[0].payload == [] then [] else [a[0]];
      Associative(first, NonEmpty(a[1..]), NonEmpty(b));
    }
  }

  lemma ParseUnsettled(x: seq<byte>)
    requires !HeadOf(x).Whole?
    ensures Parse(x) == Parsed([], x, HeadOf(x).Bad?) && NonEmpty(Parse(x).frames) == []
  {
    hide HeadOf;
  }

  lemma ParseWhole(x: seq<byte>, tail: seq<byte>, f: Frame)
    requires HeadOf(x + tail) == Whole(|x|, f)
    ensures var p := Parse(tail); Parse(x + tail) == Parsed([f] + p.frames, p.rest, p.bad)
    ensures NonEmpty(Parse(x + tail).frames)
            == (if f.payload == [] then [] else [f]) + NonEmpty(Parse(tail).frames)
  {
    hide HeadOf;
    assert (x + tail)[|x|..] == tail;
    assert ([f] + Parse(tail).frames)[1..] == Parse(tail).frames;
  }

  lemma HeadStable(x: seq<byte>, y: seq<byte>)
    ensures HeadOf(x).Whole? ==> HeadOf(x + y) == HeadOf(x)
    ensures HeadOf(x).Bad? ==> HeadOf(x + y).Bad?
  {
    if |x| >= SIZE_FIELD {
      assert (x + y)[..SIZE_FIELD] == x[..SIZE_FIELD];
      var size := FromLittleEndian(x[..SIZE_FIELD]);
      if SIZE_FIELD <= size <= |x| {
        assert (x + y)[..size] == x[..size];
        var n := size + HeaderOf(x[..size]).dataSize;
        if n <= |x| {
          assert (x + y)[size..n] == x[size..n];
        }
      }
    }
  }

  lemma ParseFirst(x: seq<byte>, n: nat, f: Frame)
    requires HeadOf(x) == Whole(n, f)
    ensures var p := Parse(x[n..]); Parse(x) == Parsed([f] + p.frames, p.rest, p.bad)
  {
    hide HeadOf;
  }

  /** Parsing goes on where it stopped: what is already parsed never changes. */
  lemma {:induction false} ParseAppend(x: seq<byte>, y: seq<byte>)
    ensures Parse(x).bad ==> Parse(x + y).bad && Parse(x + y).frames == Parse(x).frames
    ensures !Parse(x).bad ==>
      var q := Parse(Parse(x).rest + y);
      Parse(x + y) == Parsed(Parse(x).frames + q.frames, q.rest, q.bad)
    decreases |x|
  {
    hide HeadOf;
    HeadStable(x, y);
    match HeadOf(x)
    case Partial =>
    case Bad =>
    case Whole(n, f) =>
      ParseAppend(x[n..], y);
      assert (x + y)[n..] == x[n..] + y;
      ParseFirst(x, n, f);
      ParseFirst(x + y, n, f);
      hide Parse;
      Associative([f], Parse(x[n..]).frames, Parse(Parse(x).rest + y).frames);
  }

  // ----- The stages agree with the parser -----

  /** `c` is what has been consumed of the current frame when stage `st` is pending. */
  ghost predicate Held(st: Stage, c: seq<byte>) {
    ValidStage(st) &&
    match st
    case Length => c == []
    case Content(size) => |c| == SIZE_FIELD && FromLittleEndian(c) == size
    case Discard(header, count) =>
      |c| == HEADER_SIZE && header.headerSize == HEADER_SIZE + count && header == HeaderOf(c) && FromLittleEndian(c[..2]) == header.headerSize
    case Payload(header) =>
      && SIZE_FIELD <= |c| && header == HeaderOf(c) && FromLittleEndian(c[..2]) == |c|
  }

  lemma SizeFieldOfHeader(c: seq<byte>)
    requires SIZE_FIELD <= |c|
    ensures HeaderOf(c).headerSize == FromLittleEndian(c[..2])
  {
    var full := if |c| >= HEADER_SIZE then c[..HEADER_SIZE] else c + Zeros(HEADER_SIZE - |c|);
    assert full[..2] == c[..2];
  }

  /** Finishing a stage either reaches the next one or settles the current frame
      exactly as the parser would. */
  lemma StageSound(st: Stage, c: seq<byte>, b: seq<byte>)
    requires Held(st, c) && |b| == Want(st)
    ensures match Complete(st, b)
      case Next(st') => Held(st', c + b)
      case Malformed => HeadOf(c + b).Bad?
      case EmptyFrame(h) => HeadOf(c + b) == Whole(|c + b|, Frame(h.kind, []))
      case Message(h, p) =>
        p == b && p != [] && HeadOf(c + b) == Whole(|c + b|, Frame(h.kind, p))
  {
    var all := c + b;
    match st
    case Length =>
      assert all == b && all[..SIZE_FIELD] == b;
    case Content(size) =>
      DecodeThenEncode(c);
      assert all[..2] == c && LittleEndian(size, 2) == c;
      SizeFieldOfHeader(all);
      assert all[..|all|] == all;
    case Discard(header, _) =>
      assert all[..HEADER_SIZE] == c == c[..HEADER_SIZE] && all[..2] == c[..2];
      SizeFieldOfHeader(all);
      assert all[..|all|] == all;
    case Payload(header) =>
      assert all[..2] == c[..2] && all[..|c|] == c;
      assert all[|c|..|c| + |b|] == b;
  }

  /** While a stage still waits for bytes the parser has no whole frame either. */
  lemma StageWaiting(st: Stage, c: seq<byte>, b: seq<byte>)
    requires Held(st, c) && |b| < Want(st)
    ensures HeadOf(c + b).Partial?
  {
    var all := c + b;
    if |all| >= SIZE_FIELD && !st.Length? {
      assert all[..2] == c[..2];
      assert c[..|c|] == c;
      if st.Payload? {
        assert all[..|c|] == c;
      }
    }
  }

  /** A connection's read side: the pending stage, the bytes the socket still holds, the
      non-empty messages handed on, and whether a header was rejected. */
  datatype Rx = Rx(stage: Stage, socket: seq<byte>, messages: seq<Frame>, failed: bool)

  function StageRank(st: Stage): nat { if st.Content? then 1 else 0 }

  /** The pending read gets its bytes and the reader moves on. */
  function ReadOnce(rx: Rx): (r: Rx)
    requires ValidStage(rx.stage) && |rx.socket| >= Want(rx.stage)
    ensures ValidStage(r.stage)
    ensures |r.socket| < |rx.socket|
            || (r.socket == rx.socket && (r.failed || StageRank(r.stage) < StageRank(rx.stage)))
  {
    var w := Want(rx.stage);
    var more := rx.(socket := rx.socket[w..]);
    match Complete(rx.stage, rx.socket[..w])
    case Next(st) => more.(stage := st)
    case Malformed => more.(failed := true)
    case EmptyFrame(_) => more.(stage := Length)
    case Message(h, p) => more.(stage := Length, messages := rx.messages + [Frame(h.kind, p)])
  }

  /** Completes reads for as long as the socket holds enough bytes. */
  function Absorb(rx: Rx): (r: Rx)
    requires ValidStage(rx.stage)
    ensures ValidStage(r.stage)
    decreases !rx.failed, |rx.socket|, StageRank(rx.stage)
  {
    if rx.failed || |rx.socket| < Want(rx.stage) then rx else Absorb(ReadOnce(rx))
  }

  function FeedAll(rx: Rx, chunks: seq<seq<byte>>): Rx
    requires ValidStage(rx.stage)
    decreases chunks
  {
    if chunks == [] then rx
    else FeedAll(Absorb(rx.(socket := rx.socket + chunks[0])), chunks[1..])
  }

  ghost predicate Residue(rx: Rx, rest: seq<byte>) {
    && |rx.socket| <= |rest| && |rx.socket| < Want(rx.stage)
    && rest[|rest| - |rx.socket|..] == rx.socket
    && Held(rx.stage, rest[..|rest| - |rx.socket|])
  }

  /** One completed read consumes stream bytes without changing what the stream means. */
  lemma ReadOnceParses(rx: Rx, c: seq<byte>) returns (c': seq<byte>)
    requires Held(rx.stage, c) && !rx.failed && |rx.socket| >= Want(rx.stage)
    ensures var n, p := ReadOnce(rx), Parse(c + rx.socket);
      if n.failed then p.bad && NonEmpty(p.frames) == [] && n.messages == rx.messages
      else
        var q := Parse(c' + n.socket);
        && Held(n.stage, c')
        && p.bad == q.bad && p.rest == q.rest
        && rx.messages + NonEmpty(p.frames) == n.messages + NonEmpty(q.frames)
  {
    hide HeadOf, Parse, NonEmpty, Complete;
    var w := Want(rx.stage);
    var b, tail := rx.socket[..w], rx.socket[w..];
    var done := c + b;
    assert rx.socket == b + tail && [] + tail == tail && Held(Length, []);
    Associative(c, b, tail);
    StageSound(rx.stage, c, b);
    HeadStable(done, tail);
    hide Held, Want, ValidStage;
    c' := [];
    match Complete(rx.stage, b)
    case Next(st) => c' := done;
    case Malformed => ParseUnsettled(done + tail);
    case EmptyFrame(h) => ParseWhole(done, tail, Frame(h.kind, []));
    case Message(h, p) =>
      ParseWhole(done, tail, Frame(h.kind, p));
      var later := NonEmpty(Parse(tail).frames);
      Associative(rx.messages, [Frame(h.kind, p)], later);
  }

  lemma {:induction false} AbsorbParses(rx: Rx, c: seq<byte>)
    requires Held(rx.stage, c) && !rx.failed
    ensures var r, p := Absorb(rx), Parse(c + rx.socket);
      && r.messages == rx.messages + NonEmpty(p.frames)
      && r.failed == p.bad
      && (!p.bad ==> Residue(r, p.rest))
    decreases |rx.socket|, StageRank(rx.stage)
  {
    hide HeadOf, HeaderOf, Parse, NonEmpty, Complete, ReadOnce;
    if |rx.socket| < Want(rx.stage) {
      StageWaiting(rx.stage, c, rx.socket);
      ParseUnsettled(c + rx.socket);
    } else {
      var c' := ReadOnceParses(rx, c);
      if !ReadOnce(rx).failed {
        AbsorbParses(ReadOnce(rx), c');
      }
    }
  }

  lemma {:induction false} FailureIsFinal(rx: Rx, chunks: seq<seq<byte>>)
    requires rx.failed && ValidStage(rx.stage)
    ensures FeedAll(rx, chunks).failed && FeedAll(rx, chunks).messages == rx.messages
    decreases chunks
  {
    if chunks != [] {
      FailureIsFinal(rx.(socket := rx.socket + chunks[0]), chunks[1..]);
    }
  }

  lemma FeedOnce(rx: Rx, rest: seq<byte>, chunk: seq<byte>)
    requires ValidStage(rx.stage) && Residue(rx, rest) && !rx.failed
    ensures var r, p := Absorb(rx.(socket := rx.socket + chunk)), Parse(rest + chunk);
      && r.messages == rx.messages + NonEmpty(p.frames)
      && r.failed == p.bad
      && (!p.bad ==> Residue(r, p.rest))
  {
    hide HeadOf, Parse, NonEmpty, Absorb, Held;
    var c, fed := rest[..|rest| - |rx.socket|], rx.(socket := rx.socket + chunk);
    assert c + fed.socket == rest + chunk;
    AbsorbParses(fed, c);
  }

  lemma {:induction false} FeedAllParses(rx: Rx, rest: seq<byte>, chunks: seq<seq<byte>>)
    requires ValidStage(rx.stage) && Residue(rx, rest) && !rx.failed && HeadOf(rest).Partial?
    ensures var r, p := FeedAll(rx, chunks), Parse(rest + Flatten(chunks));
      && r.messages == rx.messages + NonEmpty(p.frames)
      && r.failed == p.bad
      && (!p.bad ==> Residue(r, p.rest))
    decreases chunks
  {
    hide HeadOf, Parse, NonEmpty, Absorb, Residue, ValidStage;
    if chunks == [] {
      assert rest + Flatten(chunks) == rest;
      ParseUnsettled(rest);
    } else {
      var fed := Absorb(rx.(socket := rx.socket + chunks[0]));
      var now, later := rest + chunks[0], Flatten(chunks[1..]);
      FeedOnce(rx, rest, chunks[0]);
      Associative(rest, chunks[0], later);
      ParseAppend(now, later);
      var p := Parse(now);
      if p.bad {
        FailureIsFinal(fed, chunks[1..]);
      } else {
        ParseLeavesNoFrame(now);
        FeedAllParses(fed, p.rest, chunks[1..]);
        NonEmptyAppend(p.frames, Parse(p.rest + later).frames);
        Associative(rx.messages, NonEmpty(p.frames), NonEmpty(Parse(p.rest + later).frames));
      }
    }
  }

  const FRESH := Rx(Length, [], [], false)

  lemma NothingHeld()
    ensures ValidStage(FRESH.stage) && Residue(FRESH, []) && HeadOf([]).Partial?
  {
  }

  /** However the stream is cut into chunks, the staged reader hands on exactly the
      non-empty frames of the one-shot parse, rejects exactly the streams the parser
      rejects, and holds exactly the bytes the parser leaves over. */
  lemma StagedReaderIsOneShotParser(chunks: seq<seq<byte>>)
    ensures var r, p := FeedAll(FRESH, chunks), Parse(Flatten(chunks));
      && r.messages == NonEmpty(p.frames)
      && r.failed == p.bad
      && (!p.bad ==> Residue(r, p.rest))
  {
    NothingHeld();
    hide HeadOf, Parse, NonEmpty, Residue, FeedAll;
    FeedAllParses(FRESH, [], chunks);
    assert [] + Flatten(chunks) == Flatten(chunks);
  }

  // ----- Frames of any header size -----

  /** A frame as some peer may send it: header shorter than, equal to or longer than ours. */
  datatype WireFrame = WireFrame(header: Header, extra: seq<byte>, payload: seq<byte>)

  function HeaderBytes(w: WireFrame): seq<byte> {
    if w.header.headerSize < HEADER_SIZE then EncodeHeader(w.header)[..w.header.headerSize]
    else EncodeHeader(w.header) + w.extra
  }

  /** The size fields are honest, and a short header leaves out only zero bytes. */
  ghost predicate WellFormed(w: WireFrame) {
    && SIZE_FIELD <= w.header.headerSize
    && |w.extra| == (if w.header.headerSize < HEADER_SIZE then 0 else w.header.headerSize - HEADER_SIZE)
    && w.header.dataSize == |w.payload|
    && forall i | w.header.headerSize <= i < HEADER_SIZE :: EncodeHeader(w.header)[i] == 0
  }

  function WireBytes(w: WireFrame): seq<byte> { HeaderBytes(w) + w.payload }

  function Sent(ws: seq<WireFrame>): seq<byte> {
    if ws == [] then [] else WireBytes(ws[0]) + Sent(ws[1..])
  }

  function Contents(ws: seq<WireFrame>): seq<Frame> {
    if ws == [] then [] else [Frame(ws[0].header.kind, ws[0].payload)] + Contents(ws[1..])
  }

  lemma HeadOfWireFrame(w: WireFrame, tail: seq<byte>)
    requires WellFormed(w)
    ensures |WireBytes(w)| == w.header.headerSize + |w.payload|
    ensures HeadOf(WireBytes(w) + tail) == Whole(|WireBytes(w)|, Frame(w.header.kind, w.payload))
  {
    var size := w.header.headerSize;
    if size < HEADER_SIZE {
      ShortHeaderTolerance(w.header, size);
    } else {
      LongHeaderTolerance(w.header, w.extra);
    }
    var head := HeaderBytes(w);
    SizeFieldOfHeader(head);
    var all := WireBytes(w) + tail;
    assert all[..2] == head[..2] && all[..size] == head;
    assert all[size..size + |w.payload|] == w.payload;
  }

  /** Decoding gives back what was framed, frame by frame, and after the frames the parser
      stands exactly at the first byte behind them: it never loses frame sync. */
  lemma {:induction false} ParseInverts(ws: seq<WireFrame>, tail: seq<byte>)
    requires forall w | w in ws :: WellFormed(w)
    ensures var p := Parse(tail);
      Parse(Sent(ws) + tail) == Parsed(Contents(ws) + p.frames, p.rest, p.bad)
  {
    hide HeadOf, WireBytes, WellFormed, Parse, NonEmpty;
    if ws == [] {
      assert Sent(ws) + tail == tail;
    } else {
      var first, others := WireBytes(ws[0]), Sent(ws[1..]) + tail;
      assert Sent(ws) + tail == first + others;
      HeadOfWireFrame(ws[0], others);
      var f, more := Frame(ws[0].header.kind, ws[0].payload), Contents(ws[1..]);
      ParseWhole(first, others, f);
      ParseInverts(ws[1..], tail);
      assert ([f] + more) + Parse(tail).frames == [f] + (more + Parse(tail).frames);
    }
  }

  /** What was framed is what is parsed, with nothing left over. */
  lemma SentParses(ws: seq<WireFrame>)
    requires forall w | w in ws :: WellFormed(w)
    ensures Parse(Sent(ws)) == Parsed(Contents(ws), [], false)
  {
    hide WellFormed, Sent, Contents;
    ParseInverts(ws, []);
    assert Sent(ws) + [] == Sent(ws);
    assert Contents(ws) + [] == Contents(ws);
  }

  lemma OnlyLengthHoldsNothing(st: Stage)
    requires Held(st, [])
    ensures st == Length
  {
  }

  /** Any list of well-formed frames, with header sizes from 2 to 65535, cut into chunks in
      any way, arrives as the same list of messages (empty ones produce none), and the reader
      is back at the header-length stage with nothing left in the socket. */
  lemma FramesSurviveChunking(ws: seq<WireFrame>, chunks: seq<seq<byte>>)
    requires forall w | w in ws :: WellFormed(w)
    requires Flatten(chunks) == Sent(ws)
    ensures var r := FeedAll(FRESH, chunks);
      r.messages == NonEmpty(Contents(ws)) && r.stage == Length && r.socket == [] && !r.failed
  {
    hide HeadOf, Parse, Absorb, FeedAll, Sent, Contents, NonEmpty, WellFormed, Held, Want;
    StagedReaderIsOneShotParser(chunks);
    SentParses(ws);
    OnlyLengthHoldsNothing(FeedAll(FRESH, chunks).stage);
  }
}
