/** The publisher's side of one connection as a state machine: lifecycle, handshake request
    reader, and the one-slot conflating sender. One function per atomic step of
    `PublisherSession`; `PublisherSession.dfy` proves that the class takes these steps. */
module SendProtocol {
  import opened Bytes
  import opened TcpHeader
  import opened FrameReader

  datatype Phase = NotStarted | Handshaking | Running | Canceled

  /** A shared buffer; `serial` is the position of its `send` call in the publisher's order. */
  datatype Buffer = Buffer(serial: nat, bytes: seq<byte>)

  /** What an asynchronous write carries. */
  datatype Item = Reply | Data(buffer: Buffer)

  /** A buffer that lost the slot, and the buffer that took it. */
  datatype Drop = Drop(lost: Buffer, winner: Buffer)

  /** The fields of a session (`phase`, `sending`, `next`), its pending read, and the history
      of what it consumed, accepted, dropped, handed to the socket and still has in flight. */
  datatype Session = Session(
    phase: Phase, sending: bool, next: Option<Buffer>,
    pending: Option<Stage>, consumed: seq<byte>,
    accepted: seq<Buffer>, dropped: seq<Drop>,
    initiated: seq<Item>, outstanding: seq<Item>, closes: nat)

  const NEW := Session(NotStarted, false, None, None, [], [], [], [], [], 0)

  // ----- Steps -----

  function Started(s: Session): Session {
    s.(phase := Handshaking, pending := Some(Length))
  }

  function Closed(s: Session): Session {
    if s.phase.Canceled? then s else s.(phase := Canceled, closes := s.closes + 1)
  }

  function Written(s: Session, item: Item): Session {
    if s.phase.Canceled? then s
    else s.(initiated := s.initiated + [item], outstanding := s.outstanding + [item])
  }

  function Replied(s: Session): Session {
    if s.phase.Canceled? then s
    else
      var t := Written(s, Reply);
      if t.phase.Handshaking? then t.(phase := Running) else t
  }

  function ReadDone(s: Session, bytes: seq<byte>): Session
    requires s.pending.Some? && ValidStage(s.pending.value) && |bytes| == Want(s.pending.value)
  {
    var t := s.(pending := None, consumed := s.consumed + bytes);
    if s.phase.Canceled? then t
    else
      match Complete(s.pending.value, bytes)
      case Next(st) => t.(pending := Some(st))
      case Malformed => Closed(t)
      case EmptyFrame(_) => Closed(t)
      case Message(h, _) => if h.kind == PROTOCOL_HANDSHAKE then Replied(t) else Closed(t)
  }

  function ReadFailed(s: Session): Session { Closed(s.(pending := None)) }

  function Stored(s: Session, b: Buffer): Session {
    s.(next := Some(b),
       dropped := if s.next.Some? then s.dropped + [Drop(s.next.value, b)] else s.dropped)
  }

  function Offered(s: Session, b: Buffer): Session {
    if s.phase.Canceled? then s
    else
      var t := s.(accepted := s.accepted + [b]);
      if s.phase.Running? && !s.sending then Written(t.(sending := true), Data(b))
      else Stored(t, b)
  }

  function Without<T>(xs: seq<T>, k: nat): seq<T>
    requires k < |xs|
  {
    xs[..k] + xs[k + 1..]
  }

  function WriteDone(s: Session, k: nat): Session
    requires k < |s.outstanding|
  {
    var t := s.(outstanding := Without(s.outstanding, k));
    if s.phase.Canceled? then t
    else if s.next.Some? then Written(t.(next := None), Data(s.next.value))
    else t.(sending := false)
  }

  function WriteFailed(s: Session, k: nat): Session
    requires k < |s.outstanding|
  {
    Closed(s.(outstanding := Without(s.outstanding, k)))
  }

  // ----- Runs -----

  datatype Event =
    | Start
    | ReadOk(bytes: seq<byte>)
    | ReadError
    | Offer(buffer: Buffer)
    | WriteOk(k: nat)
    | WriteError(k: nat)
    | Cancel

  /** `start` is called once; the fan-out offers buffers in `send` order; a completion belongs
      to an operation that is in flight. */
  ghost predicate Enabled(s: Session, e: Event) {
    match e
    case Start => s.phase.NotStarted?
    case ReadOk(bytes) =>
      s.pending.Some? && ValidStage(s.pending.value) && |bytes| == Want(s.pending.value)
    case ReadError => s.pending.Some?
    case Offer(b) => s.accepted == [] || s.accepted[|s.accepted| - 1].serial < b.serial
    case WriteOk(k) => k < |s.outstanding|
    case WriteError(k) => k < |s.outstanding|
    case Cancel => true
  }

  function Step(s: Session, e: Event): Session
    requires Enabled(s, e)
  {
    match e
    case Start => Started(s)
    case ReadOk(bytes) => ReadDone(s, bytes)
    case ReadError => ReadFailed(s)
    case Offer(b) => Offered(s, b)
    case WriteOk(k) => WriteDone(s, k)
    case WriteError(k) => WriteFailed(s, k)
    case Cancel => Closed(s)
  }

  ghost predicate ValidRun(s: Session, es: seq<Event>)
    decreases es
  {
    es == [] || (Enabled(s, es[0]) && ValidRun(Step(s, es[0]), es[1..]))
  }

  ghost function Run(s: Session, es: seq<Event>): Session
    requires ValidRun(s, es)
    decreases es
  {
    if es == [] then s else Run(Step(s, es[0]), es[1..])
  }

  // ----- The invariant -----

  /** The data buffers among a list of writes, in order. */
  function Buffers(items: seq<Item>): seq<Buffer> {
    if items == [] then []
    else
      var last := items[|items| - 1];
      Buffers(items[..|items| - 1]) + (if last.Data? then [last.buffer] else [])
  }

  function Losers(drops: seq<Drop>): seq<Buffer> {
    if drops == [] then [] else Losers(drops[..|drops| - 1]) + [drops[|drops| - 1].lost]
  }

  function SlotOf(next: Option<Buffer>): seq<Buffer> {
    if next.Some? then [next.value] else []
  }

  ghost predicate Increasing(bs: seq<Buffer>) {
    forall i, j | 0 <= i < j < |bs| :: bs[i].serial < bs[j].serial
  }

  ghost predicate Above(n: nat, bs: seq<Buffer>) {
    forall i | 0 <= i < |bs| :: bs[i].serial < n
  }

  /** In order, once the first two have changed places. */
  ghost predicate SwappedHead(bs: seq<Buffer>) {
    && |bs| >= 2 && bs[1].serial < bs[0].serial
    && Increasing([bs[1], bs[0]] + bs[2..])
  }

  /** Every accepted buffer was handed to the socket, dropped, or is still in the slot. */
  ghost predicate Accounted(s: Session) {
    multiset(s.accepted)
    == multiset(Buffers(s.initiated)) + multiset(Losers(s.dropped)) + multiset(SlotOf(s.next))
  }

  /** The three fates of an accepted buffer, in the order of acceptance, newer beating older. */
  ghost predicate Conserved(s: Session) {
    && Accounted(s)
    && Increasing(s.accepted)
    && (forall d | d in s.dropped :: d.lost.serial < d.winner.serial && d.winner in s.accepted)
  }

  /** The writes in flight beyond what the flag accounts for. */
  function Excess(s: Session): int { |s.outstanding| - (if s.sending then 1 else 0) }

  ghost predicate Flow(s: Session) {
    && (s.phase.NotStarted? || s.phase.Handshaking? ==>
          s.initiated == [] && s.outstanding == [] && !s.sending)
    && (s.phase.Running? ==>
          s.initiated != [] && 0 <= Excess(s) <= 1 && (s.next.Some? ==> s.outstanding != []))
    && |s.outstanding| <= 2
    && (s.initiated != [] ==> s.initiated[0] == Reply && forall i | 1 <= i < |s.initiated| :: s.initiated[i].Data?)
    && s.closes == (if s.phase.Canceled? then 1 else 0)
  }

  ghost predicate IsHandshakeRequest(bytes: seq<byte>) {
    var h := HeadOf(bytes);
    h.Whole? && h.extent == |bytes| && h.frame.kind == PROTOCOL_HANDSHAKE && h.frame.payload != []
  }

  ghost predicate Reading(s: Session) {
    && (s.phase.NotStarted? ==> s.consumed == [] && s.pending.None?)
    && (s.phase.Handshaking? ==> s.pending.Some?)
    && (s.pending.Some? ==> Held(s.pending.value, s.consumed) && s.initiated == [])
    && (s.initiated != [] ==> s.pending.None? && IsHandshakeRequest(s.consumed))
  }

  ghost predicate Order(s: Session) {
    var sent := Buffers(s.initiated);
    && (forall b | b in sent :: b in s.accepted)
    && (Increasing(sent) || SwappedHead(sent))
    && (s.next.Some? ==>
          && s.next.value in s.accepted
          && (s.sending || sent == [])
          && (Above(s.next.value.serial, sent) || (|sent| == 1 && s.next.value.serial < sent[0].serial)))
  }

  ghost predicate Inv(s: Session) { Conserved(s) && Flow(s) && Reading(s) && Order(s) }

  lemma BuffersAppend(items: seq<Item>, x: Item)
    ensures Buffers(items + [x]) == if x.Data? then Buffers(items) + [x.buffer] else Buffers(items)
    ensures multiset(Buffers(items + [x]))
            == if x.Data? then multiset(Buffers(items)) + multiset{x.buffer} else multiset(Buffers(items))
  {
    assert (items + [x])[..|items|] == items;
  }

  lemma LosersAppend(drops: seq<Drop>, d: Drop)
    ensures Losers(drops + [d]) == Losers(drops) + [d.lost]
    ensures multiset(Losers(drops + [d])) == multiset(Losers(drops)) + multiset{d.lost}
  {
    assert (drops + [d])[..|drops|] == drops;
  }

  /** A newly accepted buffer is newer than all accepted ones. */
  lemma NewestIsAbove(accepted: seq<Buffer>, b: Buffer)
    requires Increasing(accepted)
    requires accepted == [] || accepted[|accepted| - 1].serial < b.serial
    ensures forall x | x in accepted :: x.serial < b.serial
    ensures Increasing(accepted + [b])
  {
  }

  lemma OrderExtends(sent: seq<Buffer>, b: Buffer)
    requires Increasing(sent) || SwappedHead(sent)
    requires Above(b.serial, sent) || (|sent| == 1 && b.serial < sent[0].serial)
    ensures Increasing(sent + [b]) || SwappedHead(sent + [b])
    ensures Increasing(sent + [b]) <==> Increasing(sent) && Above(b.serial, sent)
  {
    var t := sent + [b];
    if Increasing(t) {
      assert forall i | 0 <= i < |sent| :: sent[i] == t[i];
      assert t[|sent|] == b;
    }
    if SwappedHead(sent) {
      assert sent[0] == t[0] && sent[1] == t[1];
      assert [t[1], t[0]] + t[2..] == ([sent[1], sent[0]] + sent[2..]) + [b];
    }
  }

  lemma MultisetAppend(bs: seq<Buffer>, b: Buffer)
    ensures multiset(bs + [b]) == multiset(bs) + multiset{b}
  {
  }

  lemma AccountedSent(s: Session, b: Buffer)
    requires Accounted(s) && !s.phase.Canceled?
    requires multiset(s.accepted + [b]) == multiset(s.accepted) + multiset{b}
    requires multiset(Buffers(s.initiated + [Data(b)])) == multiset(Buffers(s.initiated)) + multiset{b}
    ensures Accounted(Written(s.(accepted := s.accepted + [b], sending := true), Data(b)))
  {
    hide Buffers, Losers, SlotOf;
  }

  lemma AccountedStored(s: Session, b: Buffer)
    requires Accounted(s)
    requires multiset(s.accepted + [b]) == multiset(s.accepted) + multiset{b}
    requires s.next.Some? ==>
      multiset(Losers(s.dropped + [Drop(s.next.value, b)])) == multiset(Losers(s.dropped)) + multiset{s.next.value}
    ensures Accounted(Stored(s.(accepted := s.accepted + [b]), b))
  {
    hide Buffers, Losers;
    assert multiset(SlotOf(Some(b))) == multiset{b};
    if s.next.Some? { assert multiset(SlotOf(s.next)) == multiset{s.next.value}; }
  }

  lemma AccountedOffer(s: Session, b: Buffer)
    requires Accounted(s)
    ensures Accounted(Offered(s, b))
  {
    hide Buffers, Losers, SlotOf, Accounted;
    if s.phase.Canceled? {
    } else if s.phase.Running? && !s.sending {
      BuffersAppend(s.initiated, Data(b));
      MultisetAppend(s.accepted, b);
      AccountedSent(s, b);
    } else {
      MultisetAppend(s.accepted, b);
      if s.next.Some? { LosersAppend(s.dropped, Drop(s.next.value, b)); }
      AccountedStored(s, b);
    }
  }

  lemma AccountedWriteDone(s: Session, k: nat)
    requires Accounted(s) && k < |s.outstanding|
    ensures Accounted(WriteDone(s, k))
  {
    hide Buffers, Losers;
    if s.next.Some? { BuffersAppend(s.initiated, Data(s.next.value)); }
  }

  lemma AccountedSame(s: Session, t: Session)
    requires Accounted(s)
    requires t.accepted == s.accepted && t.dropped == s.dropped && t.next == s.next
    requires Buffers(t.initiated) == Buffers(s.initiated)
    ensures Accounted(t)
  {
  }

  /** Only offers and completed writes touch the slot, the flag and the data writes. */
  lemma OtherSteps(s: Session, e: Event)
    requires Enabled(s, e) && !e.Offer? && !e.WriteOk?
    ensures var t := Step(s, e);
      && t.accepted == s.accepted && t.dropped == s.dropped && t.next == s.next
      && t.sending == s.sending && Buffers(t.initiated) == Buffers(s.initiated)
  {
    hide Buffers, Complete, Want, ValidStage;
    BuffersAppend(s.initiated, Reply);
  }

  lemma AccountedStep(s: Session, e: Event)
    requires Accounted(s) && Enabled(s, e)
    ensures Accounted(Step(s, e))
  {
    hide Buffers, Losers, Accounted;
    match e
    case Offer(b) => AccountedOffer(s, b);
    case WriteOk(k) => AccountedWriteDone(s, k);
    case _ =>
      OtherSteps(s, e);
      AccountedSame(s, Step(s, e));
  }

  lemma ConservedStep(s: Session, e: Event)
    requires Conserved(s) && Enabled(s, e)
    ensures Conserved(Step(s, e))
  {
    hide Accounted, Complete, Want, ValidStage;
    AccountedStep(s, e);
    if e.Offer? {
      NewestIsAbove(s.accepted, e.buffer);
      if s.next.Some? { NextIsAccepted(s); }
    }
  }

  lemma NextIsAccepted(s: Session)
    requires Conserved(s) && s.next.Some?
    ensures s.next.value in s.accepted
  {
    assert s.next.value in multiset(s.accepted);
  }

  lemma FlowStep(s: Session, e: Event)
    requires Flow(s) && (s.pending.Some? ==> s.initiated == [] && !s.phase.NotStarted?) && Enabled(s, e)
    ensures Flow(Step(s, e))
  {
    hide Complete, Want, ValidStage;
  }

  lemma ReadingStep(s: Session, e: Event)
    requires Reading(s) && Flow(s) && Enabled(s, e)
    ensures Reading(Step(s, e))
  {
    hide Complete, Want, HeadOf;
    assert Held(Length, []);
    if e.ReadOk? {
      StageSound(s.pending.value, s.consumed, e.bytes);
    }
  }

  lemma OrderOffer(s: Session, b: Buffer)
    requires Order(s) && Increasing(s.accepted) && Enabled(s, Offer(b))
    requires s.phase.NotStarted? || s.phase.Handshaking? ==> Buffers(s.initiated) == []
    ensures Order(Offered(s, b))
  {
    hide Buffers;
    NewestIsAbove(s.accepted, b);
    BuffersAppend(s.initiated, Data(b));
    OrderExtends(Buffers(s.initiated), b);
  }

  lemma OrderWriteDone(s: Session, k: nat)
    requires Order(s) && k < |s.outstanding|
    ensures Order(WriteDone(s, k))
  {
    hide Buffers;
    if s.next.Some? {
      BuffersAppend(s.initiated, Data(s.next.value));
      OrderExtends(Buffers(s.initiated), s.next.value);
    }
  }

  lemma OrderStep(s: Session, e: Event)
    requires Order(s) && Increasing(s.accepted) && Enabled(s, e)
    requires s.phase.NotStarted? || s.phase.Handshaking? ==> Buffers(s.initiated) == []
    ensures Order(Step(s, e))
  {
    match e
    case Offer(b) => hide *; OrderOffer(s, b);
    case WriteOk(k) => hide *; OrderWriteDone(s, k);
    case _ => OtherSteps(s, e);
  }

  lemma StepKeepsInv(s: Session, e: Event)
    requires Inv(s) && Enabled(s, e)
    ensures Inv(Step(s, e))
  {
    hide Conserved, Flow, Order, Step, Enabled;
    IncreasingAccepted(s);
    ConservedStep(s, e);
    PendingBeforeWrites(s);
    FlowStep(s, e);
    ReadingStep(s, e);
    NothingSentYet(s);
    OrderStep(s, e);
  }

  lemma NothingSentYet(s: Session)
    requires Flow(s)
    ensures s.phase.NotStarted? || s.phase.Handshaking? ==> Buffers(s.initiated) == []
  {
  }

  lemma IncreasingAccepted(s: Session)
    requires Conserved(s)
    ensures Increasing(s.accepted)
  {
  }

  lemma PendingBeforeWrites(s: Session)
    requires Reading(s)
    ensures s.pending.Some? ==> s.initiated == [] && !s.phase.NotStarted?
  {
  }
}
