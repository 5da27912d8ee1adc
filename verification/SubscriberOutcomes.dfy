/** What each step of a subscriber session comes to: exactly which ones end the connection and
    what that costs, what a payload gives back, and which publisher the session reports. */
module SubscriberOutcomes {
  import opened Bytes
  import opened TcpHeader
  import opened FrameReader
  import opened SubscriberProtocol
  import opened SubscriberTheorems
  import opened SubscriberRuns

  // ----- Which steps fail -----

  /** The task ends the attempt or the connection: an operation has failed, a header is malformed,
      a handshake message is for a version above 0, or the session is canceled. */
  ghost predicate TaskFails(task: Task, canceled: bool) {
    match task
    case Requested(failed) => failed || canceled
    case ReadFailed(_) => true
    case Deliver(_) => canceled
    case ReadNext => canceled
    case Install(_) => false
    case ReadDone(read) =>
      match Complete(read.stage, read.bytes)
      case Malformed => true
      case Message(h, payload) => h.kind == PROTOCOL_HANDSHAKE && payload[0] > 0
      case _ => canceled
  }

  ghost predicate Fails(s: Subscription, e: Event)
    requires Enabled(s, e)
  {
    match e
    case ResolveEnded(failed) => s.canceled || (failed && s.op.value.i + 1 >= s.publishers)
    case ConnectEnded(failed) => failed || s.canceled
    case TimerFired(failed) => failed || s.canceled
    case Strand => TaskFails(s.posted[s.ran], s.canceled)
    case _ => false
  }

  ghost predicate Completes(s: Subscription, e: Event)
    requires Enabled(s, e)
  {
    e.Strand? && s.posted[s.ran].ReadDone? &&
    var read := s.posted[s.ran].read; Complete(read.stage, read.bytes).Message?
  }

  /** The retries that are left once a payload that the step completes has refilled them. */
  ghost function Chances(s: Subscription, e: Event): int
    requires Enabled(s, e)
  {
    if Completes(s, e) then s.limit else s.retriesLeft
  }

  /** The end of an attempt or a connection: one retry is spent, or the closed handler is called. */
  ghost predicate Ends(s: Subscription, t: Subscription, chances: int) {
    t.connected.None? &&
    if !s.canceled && chances != 0 then
      && t.op == Some(Backoff) && t.retries == s.retries + 1 && t.closes == s.closes
      && t.retriesLeft == if chances > 0 then chances - 1 else chances
    else
      t.op.None? && t.retries == s.retries && t.closes == s.closes + 1 && t.retriesLeft == chances
  }

  ghost predicate Continues(s: Subscription, t: Subscription, chances: int) {
    t.retries == s.retries && t.closes == s.closes && t.retriesLeft == chances && t.connected == s.connected
  }

  lemma FailedEnds(s: Subscription)
    requires s.op.None?
    ensures Ends(s, ConnectionFailed(s), s.retriesLeft)
  {
  }

  lemma BeginOutcome(s: Subscription, op: Op)
    requires s.op.None?
    ensures if s.canceled then Ends(s, Begin(s, op), s.retriesLeft) else Continues(s, Begin(s, op), s.retriesLeft)
  {
  }

  lemma ResolveOutcome(s: Subscription, i: nat)
    requires s.op.None?
    ensures if s.canceled then Ends(s, Resolve(s, i), s.retriesLeft) else Continues(s, Resolve(s, i), s.retriesLeft)
  {
  }

  /** A completed payload of any type refills the retries; only an unsupported version takes one
      again at once. */
  lemma PayloadRefills(s: Subscription, h: Header, payload: seq<byte>)
    requires payload != []
    ensures MessageRead(s, h, payload).retriesLeft
            == if h.kind == PROTOCOL_HANDSHAKE && payload[0] > 0 && !s.canceled && s.limit > 0
               then s.limit - 1 else s.limit
  {
  }

  lemma MessageOutcome(s: Subscription, h: Header, payload: seq<byte>)
    requires s.op.None? && payload != []
    ensures var t := MessageRead(s, h, payload);
      if h.kind == PROTOCOL_HANDSHAKE && payload[0] > 0 then Ends(s, t, s.limit) else Continues(s, t, s.limit)
  {
  }

  lemma ReadOutcome(s: Subscription, read: CompleteRead)
    requires s.op.None?
    ensures var t, chances := AfterRead(s, read),
                              if Complete(read.stage, read.bytes).Message? then s.limit else s.retriesLeft;
      if TaskFails(ReadDone(read), s.canceled) then Ends(s, t, chances) else Continues(s, t, chances)
    ensures AfterRead(s, read).empties
            == s.empties + if Complete(read.stage, read.bytes).EmptyFrame? && !s.canceled then 1 else 0
  {
    var u := s.(inbound := s.inbound + read.bytes);
    hide Complete, ConnectionFailed, Begin, MessageRead;
    EmptiesStay(u);
    match Complete(read.stage, read.bytes)
    case Next(st) => BeginOutcome(u, Reading(st));
    case Malformed => FailedEnds(u);
    case EmptyFrame(_) =>
      FailedEnds(u);
      BeginOutcome(u.(empties := s.empties + 1, settled := |u.inbound|), Reading(Length));
      EmptiesStay(u.(empties := s.empties + 1, settled := |u.inbound|));
    case Message(h, payload) => MessageOutcome(u, h, payload); MessageIsNotEmpty(u, h, payload);
  }

  lemma EmptiesStay(s: Subscription)
    ensures ConnectionFailed(s).empties == s.empties
    ensures forall op :: Begin(s, op).empties == s.empties
  {
  }

  lemma MessageIsNotEmpty(s: Subscription, h: Header, payload: seq<byte>)
    requires payload != []
    ensures MessageRead(s, h, payload).empties == s.empties
  {
  }

  lemma TaskOutcome(s: Subscription)
    requires s.ran < |s.posted| && (!s.posted[s.ran].Install? ==> s.op.None?)
    ensures if Fails(s, Strand) then Ends(s, RunTask(s), Chances(s, Strand))
            else Continues(s, RunTask(s), Chances(s, Strand))
  {
    var t, task := s.(ran := s.ran + 1), s.posted[s.ran];
    match task
    case Install(_) => hide AfterRead, ConnectionFailed, Begin, Complete;
    case ReadDone(read) =>
      hide AfterRead, Complete, Ends, Continues, RunTask;
      ReadTask(s);
      ReadOutcome(t, read);
      SameCounters(s, t, RunTask(s), Chances(s, Strand));
    case _ =>
      hide AfterRead, Complete;
      PlainOutcome(s);
  }

  lemma PlainOutcome(s: Subscription)
    requires s.ran < |s.posted| && !s.posted[s.ran].Install? && !s.posted[s.ran].ReadDone? && s.op.None?
    ensures if TaskFails(s.posted[s.ran], s.canceled) then Ends(s, RunTask(s), s.retriesLeft)
            else Continues(s, RunTask(s), s.retriesLeft)
  {
    var t := s.(ran := s.ran + 1);
    hide AfterRead, Complete, ConnectionFailed, Begin, Ends, Continues;
    FailedEnds(t);
    SameCounters(s, t, ConnectionFailed(t), s.retriesLeft);
    BeginOutcome(t, Reading(Length));
    SameCounters(s, t, Begin(t, Reading(Length)), s.retriesLeft);
    if s.posted[s.ran].Deliver? {
      var u := t.(skipped := s.skipped + [s.posted[s.ran].payload]);
      FailedEnds(u);
      SameCounters(s, u, ConnectionFailed(u), s.retriesLeft);
      if !s.canceled { CallContinues(s); }
    }
  }

  lemma CallContinues(s: Subscription)
    requires s.ran < |s.posted| && s.posted[s.ran].Deliver? && !s.canceled
    ensures Continues(s, RunTask(s), s.retriesLeft)
  {
    hide AfterRead, ConnectionFailed, Begin;
  }

  lemma SameCounters(s: Subscription, u: Subscription, t: Subscription, chances: int)
    requires u.canceled == s.canceled && u.retries == s.retries && u.closes == s.closes && u.connected == s.connected
    ensures Ends(u, t, chances) ==> Ends(s, t, chances)
    ensures Continues(u, t, chances) ==> Continues(s, t, chances)
  {
  }

  /** The publisher that the session reports behind a step that does not fail. */
  function Reported(s: Subscription, e: Event): Option<nat> {
    if e.ConnectEnded? && s.op.Some? && s.op.value.Connecting? then Some(s.op.value.i) else s.connected
  }

  lemma OperationOutcome(s: Subscription, e: Event)
    requires Enabled(s, e) && (e.ResolveEnded? || e.ConnectEnded? || e.TimerFired?)
    requires e.TimerFired? ==> s.connected.None?
    ensures if Fails(s, e) then Ends(s, Step(s, e), s.retriesLeft)
            else Continues(s.(connected := Reported(s, e)), Step(s, e), s.retriesLeft)
  {
    var free := s.(op := None);
    hide ConnectionFailed, Begin, Resolve;
    FailedEnds(free);
    match e
    case ResolveEnded(_) =>
      BeginOutcome(free, Connecting(s.op.value.i));
      ResolveOutcome(free, s.op.value.i + 1);
    case ConnectEnded(_) =>
      BeginOutcome(free.(connected := Some(s.op.value.i), inbound := [], settled := 0, messages := [],
                         base := |s.received|), Requesting);
    case TimerFired(failed) =>
      ResolveOutcome(free, 0);
      if failed { TimerAborted(s); }
  }

  lemma TimerAborted(s: Subscription)
    requires s.canceled && s.op == Some(Backoff)
    ensures var t := TimerEnded(s, true);
      t.op.None? && t.retries == s.retries && t.closes == s.closes + 1 && t.retriesLeft == s.retriesLeft
      && t.connected == s.connected
  {
  }

  lemma OtherOutcome(s: Subscription, e: Event)
    requires Enabled(s, e) && (Posts(e) || e.Cancel? || (e.Start? && s.op.None?))
    ensures Continues(s, Step(s, e), s.retriesLeft)
  {
    hide Want, ValidStage;
  }

  /** A new callback goes to the strand exactly when the session is not canceled. */
  lemma CallbackPostedIff(s: Subscription, callback: nat)
    ensures CallbackSet(s, callback).posted == (if s.canceled then s.posted else s.posted + [Install(callback)])
    ensures CallbackSet(s, callback) == s <==> s.canceled
  {
    assert |CallbackSet(s, callback).posted| == |s.posted| + (if s.canceled then 0 else 1);
  }

  // ----- The connection that is reported -----

  /** A publisher is reported exactly while the request is being sent, the stream is read, or a task
      of the connection is queued in a session that has not closed. */
  ghost predicate Linked(s: Subscription) {
    s.ran <= |s.posted| &&
    (s.connected.Some? <==>
       || (s.op.Some? && (s.op.value.Requesting? || s.op.value.Reading?))
       || (s.op.None? && Queued(s) != [] && s.closes == 0))
  }

  lemma LinkedFailed(s: Subscription)
    requires Idle(s)
    ensures Linked(ConnectionFailed(s))
  {
    hide Continuations;
  }

  lemma LinkedBegin(s: Subscription, op: Op)
    requires Idle(s) && (s.connected.Some? <==> op.Requesting? || op.Reading?)
    ensures Linked(Begin(s, op))
  {
    hide Continuations;
  }

  lemma LinkedResolve(s: Subscription, i: nat)
    requires Idle(s) && s.connected.None?
    ensures Linked(Resolve(s, i))
  {
    hide Continuations;
  }

  lemma LinkedPost(s: Subscription, t: Task)
    requires s.ran <= |s.posted| && s.op.None? && s.connected.Some? && s.closes == 0 && !t.Install?
    ensures Linked(Post(s, t))
  {
    QueuePost(s, t);
    hide Queued;
  }

  lemma LinkedMessage(s: Subscription, h: Header, payload: seq<byte>)
    requires Idle(s) && s.skipped == [] && s.connected.Some? && payload != []
    ensures Linked(MessageRead(s, h, payload))
  {
    var t := Noted(s, Frame(h.kind, payload));
    assert Queued(t) == Queued(s);
    LinkedFailed(t);
    LinkedPost(t, ReadNext);
    LinkedPost(Post(t, Deliver(payload)), ReadNext);
    hide Linked, Queued, ConnectionFailed;
  }

  lemma LinkedRead(s: Subscription, read: CompleteRead)
    requires Idle(s) && s.skipped == [] && s.connected.Some?
    ensures Linked(AfterRead(s, read))
  {
    hide Continuations, Complete, MessageRead, ConnectionFailed, Begin;
    var t := s.(inbound := s.inbound + read.bytes);
    assert Queued(t) == Queued(s);
    LinkedFailed(t);
    match Complete(read.stage, read.bytes)
    case Next(st) => LinkedBegin(t, Reading(st));
    case Malformed =>
    case EmptyFrame(_) =>
      var u := t.(empties := s.empties + 1, settled := |t.inbound|);
      assert Queued(u) == Queued(s);
      LinkedBegin(u, Reading(Length));
    case Message(h, payload) => LinkedMessage(t, h, payload);
  }

  /** The state in which a task that carries the session on starts. */
  lemma LinkedPop(s: Subscription)
    requires Tokens(s) && Linked(s) && s.ran < |s.posted| && !s.posted[s.ran].Install?
    ensures var t, task := s.(ran := s.ran + 1), s.posted[s.ran];
      && s.op.None? && (!task.Deliver? ==> Idle(t))
      && (task.Deliver? ==> Queued(t) == [ReadNext] && s.skipped == [] && s.closes == 0)
      && (s.connected.Some? <==> s.closes == 0) && (s.closes == 0 ==> s.skipped == [])
      && (s.closes > 0 ==> s.canceled && task.ReadNext?)
  {
    QueuePop(s);
    hide Continuations;
  }

  lemma LinkedDeliver(s: Subscription)
    requires s.ran < |s.posted| && s.posted[s.ran].Deliver? && Queued(s.(ran := s.ran + 1)) == [ReadNext]
    requires s.op.None? && s.closes == 0 && s.connected.Some?
    ensures Linked(RunTask(s))
  {
    hide Continuations;
    assert Queued(RunTask(s)) == Queued(s.(ran := s.ran + 1));
  }

  lemma LinkedTask(s: Subscription)
    requires Tokens(s) && Linked(s) && s.ran < |s.posted|
    ensures Linked(RunTask(s))
  {
    var t := s.(ran := s.ran + 1);
    if s.posted[s.ran].Install? {
      QueuePop(s);
      hide Continuations, Tokens;
      assert Queued(RunTask(s)) == Queued(t);
    } else {
      LinkedPop(s);
      hide Linked, Tokens, Idle, Queued, AfterRead, ConnectionFailed, Begin;
      match s.posted[s.ran]
      case Requested(_) =>
        LinkedFailed(t);
        LinkedBegin(t, Reading(Length));
      case ReadDone(read) => LinkedRead(t, read);
      case ReadFailed(_) => LinkedFailed(t);
      case Deliver(_) => LinkedDeliver(s);
      case ReadNext => LinkedNext(t);
    }
  }

  lemma LinkedNext(s: Subscription)
    requires Idle(s) && (s.connected.None? ==> s.canceled)
    ensures Linked(Begin(s, Reading(Length)))
  {
    hide Continuations;
  }

  /** The state in which the handler of an operation starts. */
  lemma LinkedFree(s: Subscription)
    requires Tokens(s) && Linked(s) && s.op.Some?
    ensures Idle(s.(op := None)) && s.closes == 0 && s.skipped == []
    ensures s.connected.Some? <==> s.op.value.Requesting? || s.op.value.Reading?
  {
    hide Continuations;
    assert Queued(s.(op := None)) == Queued(s);
  }

  lemma LinkedConnected(s: Subscription, i: nat, failed: bool)
    requires Idle(s.(op := None))
    ensures Linked(Connected(s, i, failed))
  {
    var free := s.(op := None);
    var t := free.(connected := Some(i), inbound := [], settled := 0, messages := [], base := |s.received|);
    assert Queued(t) == Queued(free);
    LinkedFailed(free);
    LinkedBegin(t, Requesting);
    hide Linked, Queued, ConnectionFailed, Begin;
  }

  lemma LinkedTimer(s: Subscription, failed: bool)
    requires Idle(s.(op := None)) && s.connected.None?
    ensures Linked(TimerEnded(s, failed))
  {
    hide Continuations;
    LinkedResolve(s.(op := None), 0);
    assert Queued(TimerEnded(s, true)) == Queued(s.(op := None));
  }

  lemma LinkedStart(s: Subscription)
    requires Tokens(s) && Linked(s) && !s.started && s.attempts == 0
    ensures Linked(Started(s))
  {
    hide Continuations;
    assert Queued(Started(s)) == Queued(s);
  }

  lemma LinkedStep(s: Subscription, e: Event)
    requires Tokens(s) && Linked(s) && Enabled(s, e) && (s.attempts > 0 ==> s.started)
    ensures Linked(Step(s, e))
  {
    if s.op.Some? { LinkedFree(s); }
    var free := s.(op := None);
    match e
    case Start => hide *; LinkedStart(s); StartIsStarted(s);
    case ResolveEnded(_) =>
      LinkedFailed(free);
      LinkedBegin(free, Connecting(s.op.value.i));
      LinkedResolve(free, s.op.value.i + 1);
      hide Linked, Tokens, Idle, ConnectionFailed, Begin, Resolve;
    case ConnectEnded(failed) =>
      hide Linked, Tokens, Idle, Connected;
      LinkedConnected(s, s.op.value.i, failed);
    case TimerFired(failed) =>
      hide Linked, Tokens, Idle, TimerEnded;
      LinkedTimer(s, failed);
    case Strand =>
      hide Linked, Tokens, RunTask;
      LinkedTask(s);
    case SetCallback(callback) =>
      QueuePost(s, Install(callback));
      hide Queued;
    case Cancel =>
      assert Queued(Step(s, e)) == Queued(s);
    case _ =>
      hide Linked, Tokens, Want, ValidStage;
      LinkedEnded(s, e);
  }

  lemma StartIsStarted(s: Subscription)
    requires Enabled(s, Start)
    ensures Step(s, Start) == Started(s)
  {
    hide Started;
  }

  lemma LinkedEnded(s: Subscription, e: Event)
    requires Enabled(s, e) && (e.WriteEnded? || e.ReadEnded? || e.ReadAborted?)
    requires Idle(s.(op := None)) && s.closes == 0 && s.connected.Some?
    ensures Linked(Step(s, e))
  {
    var free := s.(op := None);
    hide Linked, Queued, Want, ValidStage;
    match e
    case WriteEnded(failed) => LinkedPost(free, Requested(failed));
    case ReadEnded(bytes) => LinkedPost(free, ReadDone(Arrival(s.op.value.stage, bytes)));
    case ReadAborted => LinkedPost(free, ReadFailed(s.op.value.stage));
  }

  lemma NewIsLinked(limit: int, publishers: nat, callback: nat)
    ensures Linked(NewSubscription(limit, publishers, callback))
  {
    var s := NewSubscription(limit, publishers, callback);
    ContinuationsPost([], Install(callback));
    assert Queue(s) == [] + [Install(callback)];
  }

  lemma {:induction false} RunIsLinked(s: Subscription, es: seq<Event>)
    requires Inv(s) && Linked(s) && ValidRun(s, es)
    ensures Inv(Run(s, es)) && Linked(Run(s, es))
    decreases es
  {
    if es != [] {
      LaunchedIsStarted(s);
      StepKeepsInv(s, es[0]);
      assert Tokens(s);
      hide Inv, Tokens, Linked, Step, Enabled;
      LinkedStep(s, es[0]);
      RunIsLinked(Step(s, es[0]), es[1..]);
    }
  }

  // ----- The theorems -----

  /** In every reachable state: while the session resolves, connects or waits for a retry, and once
      it has called its closed handler, no publisher is reported as connected; while it sends the
      request or reads, one is. */
  lemma ReportedPublisher(limit: int, publishers: nat, callback: nat, es: seq<Event>)
    requires publishers > 0 && ValidRun(NewSubscription(limit, publishers, callback), es)
    ensures var t := Run(NewSubscription(limit, publishers, callback), es);
      && (t.op.Some? && (t.op.value.Resolving? || t.op.value.Connecting? || t.op.value.Backoff?) ==> t.connected.None?)
      && (t.closes > 0 ==> t.connected.None?)
      && (t.op.Some? && (t.op.value.Requesting? || t.op.value.Reading?) ==> t.connected.Some?)
  {
    NewIsInv(limit, publishers, callback);
    NewIsLinked(limit, publishers, callback);
    RunIsLinked(NewSubscription(limit, publishers, callback), es);
    ReportedByLink(Run(NewSubscription(limit, publishers, callback), es));
  }

  lemma ReportedByLink(t: Subscription)
    requires Inv(t) && Linked(t)
    ensures t.op.Some? && (t.op.value.Resolving? || t.op.value.Connecting? || t.op.value.Backoff?) ==> t.connected.None?
    ensures t.closes > 0 ==> t.connected.None?
    ensures t.op.Some? && (t.op.value.Requesting? || t.op.value.Reading?) ==> t.connected.Some?
  {
    hide Continuations, Queue, Retries, Resolves, Callbacks, Deliveries, Stream;
  }

  /** What every enabled step comes to. It fails exactly in the cases that `Fails` lists, and then
      the publisher is forgotten and a retry taken, if the session is not canceled and has one left
      (counting the refill by a payload of this very step), and otherwise the closed handler called.
      A step that does not fail leaves retries, calls and the reported publisher alone, except that
      a successful connect reports the entry that it was about. */
  lemma StepOutcome(s: Subscription, e: Event)
    requires Inv(s) && Linked(s) && Enabled(s, e)
    ensures if Fails(s, e) then Ends(s, Step(s, e), Chances(s, e))
            else Continues(s.(connected := Reported(s, e)), Step(s, e), Chances(s, e))
  {
    RunningHasNoOp(s);
    NoOpAtStart(s);
    if e.TimerFired? { ReportedByLink(s); }
    hide Inv, Linked;
    match e
    case Strand =>
      hide RunTask, Fails, Chances;
      TaskOutcome(s);
    case ResolveEnded(_) => hide Step, Fails; OperationOutcome(s, e);
    case ConnectEnded(_) => hide Step, Fails; OperationOutcome(s, e);
    case TimerFired(_) => hide Step, Fails; OperationOutcome(s, e);
    case _ => hide Step; OtherOutcome(s, e);
  }

  lemma NoOpAtStart(s: Subscription)
    requires Inv(s)
    ensures !s.started ==> s.op.None?
  {
    LaunchedIsStarted(s);
    hide Retries, Resolves, Callbacks, Deliveries, Stream, Continuations;
  }

  /** The retries taken since the last completed payload, behind one more step. */
  ghost function LostBehind(s: Subscription, e: Event, n: int): int
    requires Enabled(s, e)
  {
    (if Completes(s, e) then 0 else n) + (Step(s, e).retries - s.retries)
  }

  /** How many retries a run takes behind its last completed payload; `n` were taken before it. */
  ghost function LostInARow(s: Subscription, es: seq<Event>, n: int): int
    requires ValidRun(s, es)
    decreases es
  {
    if es == [] then n else LostInARow(Step(s, es[0]), es[1..], LostBehind(s, es[0], n))
  }

  lemma {:induction false} LeftFrom(s: Subscription, es: seq<Event>, n: int)
    requires Inv(s) && Linked(s) && ValidRun(s, es) && s.limit >= 0 && s.retriesLeft == s.limit - n
    ensures Run(s, es).retriesLeft == s.limit - LostInARow(s, es, n)
    decreases |es|
  {
    if es != [] {
      LeftStep(s, es[0], n);
      hide Inv, Linked, Step, Enabled, LostBehind;
      LeftFrom(Step(s, es[0]), es[1..], LostBehind(s, es[0], n));
    }
  }

  lemma LeftStep(s: Subscription, e: Event, n: int)
    requires Inv(s) && Linked(s) && Enabled(s, e) && s.limit >= 0 && s.retriesLeft == s.limit - n
    ensures var t := Step(s, e);
      && Inv(t) && Linked(t) && t.limit == s.limit
      && t.retriesLeft == s.limit - LostBehind(s, e, n)
  {
    LaunchedIsStarted(s);
    RetriesInRange(s);
    StepOutcome(s, e);
    StepKeepsInv(s, e);
    assert Tokens(s);
    hide Inv, Tokens, Linked, Step, Enabled, Fails, Completes;
    LinkedStep(s, e);
  }

  /** With a limit of N >= 0 the retries left are N less those taken since the last completed
      payload of any type; so a session that nobody cancels closes only when N retries in a row have
      brought no payload. */
  lemma RetriesInARow(limit: nat, publishers: nat, callback: nat, es: seq<Event>)
    requires publishers > 0 && ValidRun(NewSubscription(limit, publishers, callback), es)
    ensures var s := NewSubscription(limit, publishers, callback);
      && Run(s, es).retriesLeft == limit - LostInARow(s, es, 0)
      && (Run(s, es).closes > 0 && !Run(s, es).canceled ==> LostInARow(s, es, 0) == limit)
  {
    NewIsInv(limit, publishers, callback);
    NewIsLinked(limit, publishers, callback);
    LeftFrom(NewSubscription(limit, publishers, callback), es, 0);
    RetryAccounting(limit, publishers, callback, es);
  }
}
