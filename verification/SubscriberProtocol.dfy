/** The subscriber's side of one session as a state machine: resolve, connect, handshake, read,
    retry. Each started asynchronous operation and each continuation queued on the strand is a
    token; the strand runs its tasks one at a time in the order they were posted. */
module SubscriberProtocol {
  import opened Bytes
  import opened TcpHeader
  import opened FrameReader

  /** The asynchronous operation in progress. */
  datatype Op = Resolving(i: nat) | Connecting(i: nat) | Requesting | Reading(stage: Stage) | Backoff

  datatype Arrival = Arrival(stage: Stage, bytes: seq<byte>)

  /** A read that got exactly the bytes it waited for. */
  type CompleteRead = a: Arrival | ValidStage(a.stage) && |a.bytes| == Want(a.stage)
    ghost witness Arrival(Length, [0, 0])

  /** What can be posted to the strand: completions, the two tasks behind a message, and new
      callbacks (numbered). */
  datatype Task =
    | Requested(failed: bool)
    | ReadDone(read: CompleteRead)
    | ReadFailed(stage: Stage)
    | Deliver(payload: seq<byte>)
    | ReadNext
    | Install(callback: nat)

  /** A callback call: which callback, with what, by which task of the strand. */
  datatype Call = Call(callback: Option<nat>, payload: seq<byte>, position: nat)

  /** The fields of a session, the strand (tasks posted so far, of which `ran` have run), and
      the history: attempts to connect, calls of the resolver, retries taken, refills of the
      retry counter, completed payloads, empty frames, calls of the closed handler, regular
      payloads received, callback calls, payloads whose callback task found the session
      canceled; and for the present connection the bytes read, the messages they made, and
      how many payloads had been received before. */
  datatype Subscription = Subscription(
    limit: int, publishers: nat, started: bool, canceled: bool, retriesLeft: int, connected: Option<nat>,
    op: Option<Op>, posted: seq<Task>, ran: nat, callback: Option<nat>,
    attempts: nat, resolves: nat, retries: nat, refilled: int, completed: nat, empties: nat, closes: nat,
    received: seq<seq<byte>>, calls: seq<Call>, skipped: seq<seq<byte>>,
    inbound: seq<byte>, settled: nat, messages: seq<Frame>, base: nat)

  /** A session as `addSession` makes it: the first callback is posted before the start. */
  function NewSubscription(limit: int, publishers: nat, callback: nat): Subscription {
    Subscription(limit, publishers, false, false, limit, None, None, [Install(callback)], 0, None,
                 0, 0, 0, 0, 0, 0, 0, [], [], [], [], 0, [], 0)
  }

  // ----- Steps -----

  function Post(s: Subscription, t: Task): Subscription { s.(posted := s.posted + [t]) }

  function ConnectionFailed(s: Subscription): Subscription {
    var t := s.(connected := None);
    if !s.canceled && s.retriesLeft != 0 then
      t.(retriesLeft := if s.retriesLeft > 0 then s.retriesLeft - 1 else s.retriesLeft,
         retries := s.retries + 1, op := Some(Backoff))
    else t.(closes := s.closes + 1)
  }

  function Begin(s: Subscription, op: Op): Subscription {
    if s.canceled then ConnectionFailed(s) else s.(op := Some(op))
  }

  function Resolve(s: Subscription, i: nat): Subscription {
    if s.canceled then ConnectionFailed(s)
    else s.(op := Some(Resolving(i)), resolves := s.resolves + 1,
            attempts := if i == 0 then s.attempts + 1 else s.attempts)
  }

  function Started(s: Subscription): Subscription {
    var t := s.(started := true);
    if s.canceled then t else Resolve(t, 0)
  }

  function Resolved(s: Subscription, i: nat, failed: bool): Subscription {
    var t := s.(op := None);
    if !failed then Begin(t, Connecting(i))
    else if i + 1 < s.publishers then Resolve(t, i + 1)
    else ConnectionFailed(t)
  }

  function Connected(s: Subscription, i: nat, failed: bool): Subscription {
    var t := s.(op := None);
    if failed then ConnectionFailed(t)
    else Begin(t.(connected := Some(i), inbound := [], settled := 0, messages := [], base := |s.received|),
               Requesting)
  }

  function TimerEnded(s: Subscription, failed: bool): Subscription {
    var t := s.(op := None);
    if failed then t.(closes := s.closes + 1) else Resolve(t, 0)
  }

  /** The payload is complete: whatever its type, the retries are refilled. */
  function Noted(s: Subscription, f: Frame): Subscription {
    s.(retriesLeft := s.limit, refilled := s.refilled + (s.limit - s.retriesLeft),
       completed := s.completed + 1, settled := |s.inbound|, messages := s.messages + [f],
       received := if f.kind == REGULAR_PAYLOAD then s.received + [f.payload] else s.received)
  }

  /** What follows depends on the message type. */
  function MessageRead(s: Subscription, h: Header, payload: seq<byte>): Subscription
    requires payload != []
  {
    var t := Noted(s, Frame(h.kind, payload));
    if h.kind == PROTOCOL_HANDSHAKE then
      if payload[0] > 0 then ConnectionFailed(t) else Post(t, ReadNext)
    else if h.kind == REGULAR_PAYLOAD then Post(Post(t, Deliver(payload)), ReadNext)
    else Post(t, ReadNext)
  }

  function AfterRead(s: Subscription, read: CompleteRead): Subscription {
    var t := s.(inbound := s.inbound + read.bytes);
    match Complete(read.stage, read.bytes)
    case Next(st) => Begin(t, Reading(st))
    case Malformed => ConnectionFailed(t)
    case EmptyFrame(_) =>
      if s.canceled then ConnectionFailed(t)
      else Begin(t.(empties := s.empties + 1, settled := |t.inbound|), Reading(Length))
    case Message(h, payload) => MessageRead(t, h, payload)
  }

  function RunTask(s: Subscription): Subscription
    requires s.ran < |s.posted|
  {
    var t := s.(ran := s.ran + 1);
    match s.posted[s.ran]
    case Requested(failed) => if failed then ConnectionFailed(t) else Begin(t, Reading(Length))
    case ReadDone(read) => AfterRead(t, read)
    case ReadFailed(_) => ConnectionFailed(t)
    case Deliver(payload) =>
      if s.canceled then ConnectionFailed(t.(skipped := s.skipped + [payload]))
      else t.(calls := s.calls + [Call(s.callback, payload, s.ran)])
    case ReadNext => Begin(t, Reading(Length))
    case Install(callback) => t.(callback := Some(callback))
  }

  function CallbackSet(s: Subscription, callback: nat): Subscription {
    if s.canceled then s else Post(s, Install(callback))
  }

  // ----- Runs -----

  datatype Event =
    | Start
    | ResolveEnded(failed: bool)
    | ConnectEnded(failed: bool)
    | WriteEnded(failed: bool)
    | ReadEnded(bytes: seq<byte>)
    | ReadAborted
    | TimerFired(failed: bool)
    | Strand
    | SetCallback(callback: nat)
    | Cancel

  /** An operation ends only while it is in progress; waiting for the retry timer fails only
      because `cancel` aborts it. */
  ghost predicate Enabled(s: Subscription, e: Event) {
    match e
    case Start => !s.started
    case ResolveEnded(_) => s.op.Some? && s.op.value.Resolving?
    case ConnectEnded(_) => s.op.Some? && s.op.value.Connecting?
    case WriteEnded(_) => s.op == Some(Requesting)
    case ReadEnded(bytes) =>
      s.op.Some? && s.op.value.Reading? && ValidStage(s.op.value.stage) && |bytes| == Want(s.op.value.stage)
    case ReadAborted => s.op.Some? && s.op.value.Reading?
    case TimerFired(failed) => s.op == Some(Backoff) && (failed ==> s.canceled)
    case Strand => s.ran < |s.posted|
    case SetCallback(_) => true
    case Cancel => true
  }

  function Step(s: Subscription, e: Event): Subscription
    requires Enabled(s, e)
  {
    match e
    case Start => Started(s)
    case ResolveEnded(failed) => Resolved(s, s.op.value.i, failed)
    case ConnectEnded(failed) => Connected(s, s.op.value.i, failed)
    case WriteEnded(failed) => Post(s.(op := None), Requested(failed))
    case ReadEnded(bytes) => Post(s.(op := None), ReadDone(Arrival(s.op.value.stage, bytes)))
    case ReadAborted => Post(s.(op := None), ReadFailed(s.op.value.stage))
    case TimerFired(failed) => TimerEnded(s, failed)
    case Strand => RunTask(s)
    case SetCallback(callback) => CallbackSet(s, callback)
    case Cancel => s.(canceled := true)
  }

  ghost predicate ValidRun(s: Subscription, es: seq<Event>)
    decreases es
  {
    es == [] || (Enabled(s, es[0]) && ValidRun(Step(s, es[0]), es[1..]))
  }

  ghost function Run(s: Subscription, es: seq<Event>): Subscription
    requires ValidRun(s, es)
    decreases es
  {
    if es == [] then s else Run(Step(s, es[0]), es[1..])
  }

  // ----- Continuations -----

  /** The tasks that carry the session on, as opposed to installing a callback. */
  function Continuations(tasks: seq<Task>): seq<Task> {
    if tasks == [] then []
    else (if tasks[0].Install? then [] else [tasks[0]]) + Continuations(tasks[1..])
  }

  lemma {:induction false} ContinuationsPost(tasks: seq<Task>, t: Task)
    ensures Continuations(tasks + [t])
            == if t.Install? then Continuations(tasks) else Continuations(tasks) + [t]
  {
    if tasks != [] {
      ContinuationsPost(tasks[1..], t);
      assert (tasks + [t])[1..] == tasks[1..] + [t];
    } else {
      assert ([t])[1..] == [];
    }
  }

  function Queue(s: Subscription): seq<Task>
    requires s.ran <= |s.posted|
  {
    s.posted[s.ran..]
  }

  function Queued(s: Subscription): seq<Task>
    requires s.ran <= |s.posted|
  {
    Continuations(Queue(s))
  }

  /** Where the tokens are: before the launch and after the end there is none; in between there
      is one, or two while a callback task is queued in front of the next read. */
  ghost predicate Tokens(s: Subscription) {
    s.ran <= |s.posted| &&
    var q := Queued(s);
    if s.attempts == 0 then s.op.None? && q == [] && s.closes == 0 && s.skipped == []
    else
      || (s.op.Some? && q == [] && s.closes == 0 && s.skipped == [])
      || (s.op.None? && |q| == 1 && !q[0].Deliver? && s.closes == 0 && s.skipped == [])
      || (s.op.None? && |q| == 2 && q[0].Deliver? && q[1].ReadNext? && s.closes == 0 && s.skipped == [])
      || (s.op.None? && q == [ReadNext] && s.closes == 1 && |s.skipped| == 1 && s.canceled)
      || (s.op.None? && q == [] && s.closes == 1 + |s.skipped| && |s.skipped| <= 1
          && (s.skipped != [] ==> s.canceled))
  }

  // ----- Retries -----

  /** `n` times `k`, by repeated addition. */
  function Times(n: int, k: int): int
    decreases if n < 0 then 0 else n
  {
    if n <= 0 then 0 else k + Times(n - 1, k)
  }

  ghost predicate Retries(s: Subscription) {
    && (s.limit >= 0 ==>
          0 <= s.retriesLeft <= s.limit && s.retries + s.retriesLeft == s.limit + s.refilled)
    && (s.limit < 0 ==> s.retriesLeft == s.limit)
    && 0 <= s.refilled && (s.completed == 0 ==> s.refilled == 0)
    && (s.attempts > 0 ==> s.started)
    && s.attempts + (if s.op == Some(Backoff) then 1 else 0) <= s.retries + (if s.started then 1 else 0)
    && (s.closes > 0 && !s.canceled ==> s.retriesLeft == 0)
  }

  ghost predicate Resolves(s: Subscription) {
    && (s.op.Some? && s.op.value.Resolving? ==>
          s.op.value.i < s.publishers && s.attempts > 0
          && s.resolves + (s.publishers - 1 - s.op.value.i) <= Times(s.attempts, s.publishers))
    && s.resolves <= Times(s.attempts, s.publishers)
  }

  // ----- Callbacks -----

  function LastInstall(tasks: seq<Task>): Option<nat> {
    if tasks == [] then None
    else
      var last := tasks[|tasks| - 1];
      if last.Install? then Some(last.callback) else LastInstall(tasks[..|tasks| - 1])
  }

  function Payloads(calls: seq<Call>): seq<seq<byte>> {
    if calls == [] then []
    else Payloads(calls[..|calls| - 1]) + [calls[|calls| - 1].payload]
  }

  function QueuedPayload(q: seq<Task>): seq<seq<byte>> {
    if q != [] && q[0].Deliver? then [q[0].payload] else []
  }

  /** A call was made by an earlier task, with the callback installed last ahead of it. */
  ghost predicate Correct(c: Call, posted: seq<Task>, ran: nat)
    requires ran <= |posted|
  {
    && 0 < c.position < ran && posted[c.position] == Deliver(c.payload)
    && c.callback.Some? && c.callback == LastInstall(posted[..c.position])
  }

  /** Each call was made with the callback installed last ahead of it in the strand. */
  ghost predicate Callbacks(s: Subscription) {
    && s.ran <= |s.posted| && s.posted != [] && s.posted[0].Install?
    && s.callback == LastInstall(s.posted[..s.ran])
    && forall c | c in s.calls :: Correct(c, s.posted, s.ran)
  }

  ghost predicate Deliveries(s: Subscription) {
    s.ran <= |s.posted|
    && s.received == Payloads(s.calls) + s.skipped + QueuedPayload(Queued(s))
  }

  // ----- The connection's stream -----

  function Regular(frames: seq<Frame>): seq<seq<byte>> {
    if frames == [] then []
    else
      var last := frames[|frames| - 1];
      Regular(frames[..|frames| - 1]) + (if last.kind == REGULAR_PAYLOAD then [last.payload] else [])
  }

  /** The bytes of the finished frames parse, with nothing over, into the messages handled. */
  ghost predicate SettledAt(inbound: seq<byte>, settled: nat, messages: seq<Frame>) {
    settled <= |inbound|
    && var p := Parse(inbound[..settled]);
       !p.bad && p.rest == [] && NonEmpty(p.frames) == messages
  }

  /** And stage `st` goes on exactly where the current frame stands. */
  ghost predicate StreamAt(inbound: seq<byte>, settled: nat, messages: seq<Frame>, st: Stage) {
    SettledAt(inbound, settled, messages) && Held(st, inbound[settled..])
  }

  ghost predicate Settled(s: Subscription) { SettledAt(s.inbound, s.settled, s.messages) }

  ghost predicate InStream(s: Subscription, st: Stage) {
    StreamAt(s.inbound, s.settled, s.messages, st)
  }

  ghost predicate Unread(s: Subscription) { s.inbound == [] && s.settled == 0 && s.messages == [] }

  ghost predicate Stream(s: Subscription) {
    s.ran <= |s.posted| && s.base <= |s.received| && s.received[s.base..] == Regular(s.messages) && Settled(s) &&
    var q := Queued(s);
    && (s.op == Some(Requesting) ==> Unread(s))
    && (s.op.Some? && s.op.value.Reading? ==> InStream(s, s.op.value.stage))
    && (q != [] && q[0].Requested? ==> Unread(s))
    && (q != [] && q[0].ReadDone? ==> InStream(s, q[0].read.stage))
    && (q != [] && (q[0].Deliver? || q[0].ReadNext?) ==> InStream(s, Length))
  }
}
