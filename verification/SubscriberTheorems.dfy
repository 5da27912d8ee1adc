/** What every run of a subscriber session keeps: one live continuation, retry accounting,
    termination of reconnection, and orderly callbacks. */
module SubscriberTheorems {
  import opened Bytes
  import opened TcpHeader
  import opened FrameReader
  import opened SubscriberProtocol

  // ----- The strand as a queue -----

  lemma QueuePost(s: Subscription, t: Task)
    requires s.ran <= |s.posted|
    ensures Queue(Post(s, t)) == Queue(s) + [t]
    ensures Queued(Post(s, t)) == if t.Install? then Queued(s) else Queued(s) + [t]
  {
    ContinuationsPost(Queue(s), t);
    assert Queue(Post(s, t)) == Queue(s) + [t];
  }

  lemma QueuePop(s: Subscription)
    requires s.ran < |s.posted|
    ensures var t, task := s.(ran := s.ran + 1), s.posted[s.ran];
      if task.Install? then Queued(t) == Queued(s)
      else Queued(s) != [] && Queued(s)[0] == task && Queued(t) == Queued(s)[1..]
  {
    assert Queue(s)[1..] == Queue(s.(ran := s.ran + 1));
  }

  /** Nothing that has to do with the strand or with messages has changed. */
  ghost predicate SameStrand(s: Subscription, t: Subscription) {
    && t.ran == s.ran && t.posted == s.posted && t.callback == s.callback
    && t.calls == s.calls && t.received == s.received && t.skipped == s.skipped
    && t.limit == s.limit && t.completed == s.completed && t.refilled == s.refilled && t.empties == s.empties
  }

  lemma HandlersLeaveStrand(s: Subscription, op: Op, i: nat)
    ensures SameStrand(s, ConnectionFailed(s)) && SameStrand(s, Begin(s, op)) && SameStrand(s, Resolve(s, i))
  {
  }

  predicate Posts(e: Event) { e.WriteEnded? || e.ReadEnded? || e.ReadAborted? || e.SetCallback? }

  /** Steps that neither post nor run a task. */
  lemma PlainStep(s: Subscription, e: Event)
    requires Enabled(s, e) && !e.Strand? && !Posts(e)
    ensures SameStrand(s, Step(s, e))
  {
    hide ConnectionFailed, Begin, Resolve;
    match e
    case Start => HandlersLeaveStrand(s.(started := true), Requesting, 0);
    case ResolveEnded(_) => HandlersLeaveStrand(s.(op := None), Connecting(s.op.value.i), s.op.value.i + 1);
    case ConnectEnded(_) =>
      var t := s.(op := None);
      HandlersLeaveStrand(t, Requesting, 0);
      HandlersLeaveStrand(t.(connected := Some(s.op.value.i), inbound := [], settled := 0, messages := [],
                             base := |s.received|), Requesting, 0);
    case TimerFired(_) => HandlersLeaveStrand(s.(op := None), Requesting, 0);
    case Cancel =>
  }

  /** A handler is running on the session's only token. */
  ghost predicate Idle(s: Subscription) {
    && s.ran <= |s.posted| && s.attempts > 0 && s.op.None? && Queued(s) == []
    && s.closes == |s.skipped| <= 1 && (s.skipped != [] ==> s.canceled)
  }

  lemma IdleOutcomes(s: Subscription, op: Op, i: nat)
    requires Idle(s)
    ensures Tokens(ConnectionFailed(s)) && Tokens(Begin(s, op)) && Tokens(Resolve(s, i))
  {
    hide Continuations;
  }

  lemma PostedTokens(s: Subscription, payload: seq<byte>)
    requires Idle(s) && s.skipped == []
    ensures Tokens(Post(s, ReadNext)) && Tokens(Post(Post(s, Deliver(payload)), ReadNext))
  {
    hide Continuations;
    QueuePost(s, ReadNext);
    QueuePost(s, Deliver(payload));
    QueuePost(Post(s, Deliver(payload)), ReadNext);
    hide Queued;
    assert Queued(Post(Post(s, Deliver(payload)), ReadNext)) == [Deliver(payload), ReadNext];
    assert Queued(Post(s, ReadNext)) == [ReadNext];
  }

  lemma MessageTokens(s: Subscription, h: Header, payload: seq<byte>)
    requires Idle(s) && s.skipped == [] && payload != []
    ensures Tokens(MessageRead(s, h, payload))
  {
    hide Continuations, Tokens, Post;
    var t := Noted(s, Frame(h.kind, payload));
    assert Queued(t) == Queued(s);
    IdleOutcomes(t, Backoff, 0);
    PostedTokens(t, payload);
  }

  lemma AfterReadTokens(s: Subscription, read: CompleteRead)
    requires Idle(s) && s.skipped == []
    ensures Tokens(AfterRead(s, read))
  {
    hide Continuations, Complete, MessageRead;
    var t := s.(inbound := s.inbound + read.bytes);
    assert Queued(t) == Queued(s);
    match Complete(read.stage, read.bytes)
    case Next(st) => IdleOutcomes(t, Reading(st), 0);
    case Malformed => IdleOutcomes(t, Backoff, 0);
    case EmptyFrame(_) =>
      IdleOutcomes(t, Backoff, 0);
      IdleOutcomes(t.(empties := s.empties + 1, settled := |t.inbound|), Reading(Length), 0);
    case Message(h, payload) => MessageTokens(t, h, payload);
  }

  lemma RunTaskTokens(s: Subscription)
    requires Tokens(s) && s.ran < |s.posted|
    ensures Tokens(RunTask(s))
  {
    QueuePop(s);
    var t := s.(ran := s.ran + 1);
    hide Continuations, AfterRead;
    match s.posted[s.ran]
    case Requested(failed) => IdleOutcomes(t, Reading(Length), 0);
    case ReadDone(read) => AfterReadTokens(t, read);
    case ReadFailed(_) => IdleOutcomes(t, Backoff, 0);
    case Deliver(payload) => assert Queued(RunTask(s)) == Queued(t) == [ReadNext];
    case ReadNext => IdleOutcomes(t, Reading(Length), 0);
    case Install(callback) => assert Queued(RunTask(s)) == Queued(t);
  }

  lemma EndedTokens(s: Subscription, t: Task)
    requires Tokens(s) && s.op.Some? && !t.Install? && !t.Deliver?
    ensures Tokens(Post(s.(op := None), t))
  {
    QueuePost(s.(op := None), t);
    hide Continuations;
  }

  lemma TokensStep(s: Subscription, e: Event)
    requires Tokens(s) && Enabled(s, e) && (s.attempts > 0 ==> s.started)
    ensures Tokens(Step(s, e))
  {
    hide Continuations, RunTask, ConnectionFailed, Begin, Want, ValidStage;
    var free := s.(op := None);
    assert s.ran <= |s.posted| && Queued(free) == Queued(s);
    match e
    case Start =>
      if !s.canceled { StartTokens(s); }
    case ResolveEnded(failed) =>
      IdleOutcomes(free, Connecting(s.op.value.i), s.op.value.i + 1);
    case ConnectEnded(failed) =>
      IdleOutcomes(free, Backoff, 0);
      var t := free.(connected := Some(s.op.value.i), inbound := [], settled := 0, messages := [], base := |s.received|);
      assert Queued(t) == Queued(s);
      IdleOutcomes(t, Requesting, 0);
    case WriteEnded(failed) => EndedTokens(s, Requested(failed));
    case ReadEnded(bytes) => EndedTokens(s, ReadDone(Arrival(s.op.value.stage, bytes)));
    case ReadAborted => EndedTokens(s, ReadFailed(s.op.value.stage));
    case TimerFired(failed) => IdleOutcomes(free, Backoff, 0);
    case Strand => RunTaskTokens(s);
    case SetCallback(callback) => QueuePost(s, Install(callback));
    case Cancel =>
  }

  lemma StartTokens(s: Subscription)
    requires Tokens(s) && s.attempts == 0 && !s.canceled
    ensures Tokens(Started(s))
  {
    hide Continuations;
  }

  // ----- Retry accounting -----

  /** A handler that holds the only token; it has not called the closed handler unless the
      session is canceled. */
  ghost predicate RetriesIdle(s: Subscription) {
    Retries(s) && s.op.None? && s.attempts > 0 && (s.closes > 0 ==> s.canceled)
  }

  lemma RetriesOutcomes(s: Subscription, op: Op)
    requires RetriesIdle(s) && op != Backoff
    ensures Retries(ConnectionFailed(s)) && Retries(Begin(s, op))
  {
  }

  lemma RetriesNoted(s: Subscription, f: Frame)
    requires RetriesIdle(s)
    ensures RetriesIdle(Noted(s, f))
  {
  }

  lemma RetriesMessage(s: Subscription, h: Header, payload: seq<byte>)
    requires RetriesIdle(s) && payload != []
    ensures Retries(MessageRead(s, h, payload))
  {
    var t := Noted(s, Frame(h.kind, payload));
    RetriesNoted(s, Frame(h.kind, payload));
    hide Noted, ConnectionFailed;
    RetriesOutcomes(t, Requesting);
  }

  lemma RetriesAfterRead(s: Subscription, read: CompleteRead)
    requires RetriesIdle(s)
    ensures Retries(AfterRead(s, read))
  {
    var t := s.(inbound := s.inbound + read.bytes);
    assert RetriesIdle(t);
    hide Complete, MessageRead, ConnectionFailed, Begin;
    match Complete(read.stage, read.bytes)
    case Next(st) => RetriesOutcomes(t, Reading(st));
    case Malformed => RetriesOutcomes(t, Requesting);
    case EmptyFrame(_) =>
      RetriesOutcomes(t, Requesting);
      RetriesOutcomes(t.(empties := s.empties + 1, settled := |t.inbound|), Reading(Length));
    case Message(h, payload) => RetriesMessage(t, h, payload);
  }

  /** The state in which a task that carries the session on starts. */
  lemma RetriesPop(s: Subscription)
    requires Retries(s) && Tokens(s) && s.ran < |s.posted| && !s.posted[s.ran].Install?
    ensures RetriesIdle(s.(ran := s.ran + 1))
  {
    QueuePop(s);
    hide Continuations, Queued;
  }

  lemma RetriesRunTask(s: Subscription)
    requires Retries(s) && Tokens(s) && s.ran < |s.posted|
    ensures Retries(RunTask(s))
  {
    var t := s.(ran := s.ran + 1);
    if s.posted[s.ran].Install? {
      hide Tokens;
    } else {
      RetriesPop(s);
      hide Tokens, AfterRead, ConnectionFailed, Begin;
      match s.posted[s.ran]
      case ReadDone(read) => RetriesAfterRead(t, read);
      case Deliver(payload) => RetriesOutcomes(t.(skipped := s.skipped + [payload]), Requesting);
      case _ => RetriesOutcomes(t, Reading(Length));
    }
  }

  /** The operation in progress has ended. */
  lemma RetriesFreed(s: Subscription)
    requires Retries(s) && Tokens(s) && s.op.Some?
    ensures RetriesIdle(s.(op := None))
  {
    hide Continuations, Queued;
  }

  lemma RetriesNext(s: Subscription, i: nat)
    requires RetriesIdle(s) && 0 < i
    ensures Retries(Resolve(s, i))
  {
  }

  /** A new attempt: at the start, or behind a retry. */
  lemma RetriesAttempt(s: Subscription)
    requires Retries(s) && s.started && (s.closes > 0 ==> s.canceled)
    requires s.attempts + 1 <= s.retries + 1
    ensures Retries(Resolve(s.(op := None), 0))
  {
  }

  lemma RetriesTimer(s: Subscription, failed: bool)
    requires Retries(s) && Tokens(s) && s.op == Some(Backoff) && (failed ==> s.canceled)
    ensures Retries(TimerEnded(s, failed))
  {
    RetriesFreed(s);
    if !failed {
      RetriesAttempt(s);
    }
  }

  lemma RetriesStart(s: Subscription)
    requires Retries(s) && Tokens(s) && !s.started
    ensures Retries(Started(s))
  {
    hide Continuations, Queued;
    assert s.attempts == 0;
    if !s.canceled { assert s.(started := true).(op := None) == s.(started := true); }
  }

  lemma RetriesConnected(s: Subscription, i: nat, failed: bool)
    requires RetriesIdle(s.(op := None))
    ensures Retries(Connected(s, i, failed))
  {
    var free := s.(op := None);
    var t := free.(connected := Some(i), inbound := [], settled := 0, messages := [], base := |s.received|);
    assert RetriesIdle(t);
    hide Begin, ConnectionFailed, Retries;
    RetriesOutcomes(free, Requesting);
    RetriesOutcomes(t, Requesting);
  }

  lemma RetriesStep(s: Subscription, e: Event)
    requires Retries(s) && Tokens(s) && Enabled(s, e)
    ensures Retries(Step(s, e))
  {
    if s.op.Some? { RetriesFreed(s); }
    hide Tokens, RunTask, ConnectionFailed, Begin, Resolve, Connected, Started, TimerEnded, Want, ValidStage;
    match e
    case Start => RetriesStart(s);
    case ResolveEnded(_) =>
      RetriesOutcomes(s.(op := None), Connecting(s.op.value.i));
      RetriesNext(s.(op := None), s.op.value.i + 1);
    case ConnectEnded(failed) => RetriesConnected(s, s.op.value.i, failed);
    case TimerFired(failed) => RetriesTimer(s, failed);
    case Strand => RetriesRunTask(s);
    case _ =>
  }

  /** An entry of the publisher list is being resolved or connected to. */
  predicate Contacting(op: Option<Op>) { op.Some? && (op.value.Resolving? || op.value.Connecting?) }

  /** Steps that leave the resolver alone, and start neither to connect nor to send the request. */
  ghost predicate SameResolves(s: Subscription, t: Subscription) {
    && t.attempts == s.attempts && t.resolves == s.resolves && t.publishers == s.publishers && t.limit == s.limit
    && (Contacting(t.op) || t.op == Some(Requesting) ==> t.op == s.op)
  }

  lemma HandlersLeaveResolver(s: Subscription, op: Op)
    requires !Contacting(Some(op)) && op != Requesting && s.op.None?
    ensures SameResolves(s, ConnectionFailed(s)) && SameResolves(s, Begin(s, op))
  {
  }

  lemma MessageResolves(s: Subscription, h: Header, payload: seq<byte>)
    requires s.op.None? && payload != []
    ensures SameResolves(s, MessageRead(s, h, payload))
  {
  }

  lemma AfterReadResolves(s: Subscription, read: CompleteRead)
    requires s.op.None?
    ensures SameResolves(s, AfterRead(s, read))
  {
    hide Complete, MessageRead, ConnectionFailed, Begin;
    var t := s.(inbound := s.inbound + read.bytes);
    match Complete(read.stage, read.bytes)
    case Next(st) => HandlersLeaveResolver(t, Reading(st));
    case Malformed => HandlersLeaveResolver(t, Backoff);
    case EmptyFrame(_) =>
      HandlersLeaveResolver(t, Backoff);
      HandlersLeaveResolver(t.(empties := s.empties + 1, settled := |t.inbound|), Reading(Length));
    case Message(h, payload) => MessageResolves(t, h, payload);
  }

  lemma RunTaskResolves(s: Subscription)
    requires s.ran < |s.posted| && (!s.posted[s.ran].Install? ==> s.op.None?)
    ensures SameResolves(s, RunTask(s))
  {
    hide AfterRead, ConnectionFailed, Begin;
    var t := s.(ran := s.ran + 1);
    match s.posted[s.ran]
    case ReadDone(read) => AfterReadResolves(t, read);
    case Deliver(payload) => HandlersLeaveResolver(t.(skipped := s.skipped + [payload]), Backoff);
    case Install(_) =>
    case _ => HandlersLeaveResolver(t, Reading(Length));
  }

  /** No step but these starts a resolver call. */
  ghost predicate ResolverLeft(s: Subscription, t: Subscription) {
    && t.attempts == s.attempts && t.resolves == s.resolves && t.publishers == s.publishers && t.limit == s.limit
    && (t.op.Some? && t.op.value.Resolving? ==> t.op == s.op)
  }

  lemma ResolvesUntouched(s: Subscription, e: Event)
    requires Enabled(s, e) && !e.Start? && !e.ResolveEnded? && !e.TimerFired?
    requires e.Strand? && !s.posted[s.ran].Install? ==> s.op.None?
    ensures ResolverLeft(s, Step(s, e))
  {
    hide RunTask, Want, ValidStage;
    if e.Strand? { RunTaskResolves(s); }
  }

  lemma ResolvesStays(s: Subscription, t: Subscription)
    requires Resolves(s) && ResolverLeft(s, t)
    ensures Resolves(t)
  {
  }

  /** The steps that may start a resolver call. */
  lemma ResolvesOperation(s: Subscription, e: Event)
    requires Resolves(s) && s.publishers > 0 && Enabled(s, e)
    requires e.Start? || e.ResolveEnded? || e.TimerFired?
    ensures Resolves(Step(s, e)) && Step(s, e).publishers == s.publishers && Step(s, e).limit == s.limit
  {
  }

  lemma ResolvesStep(s: Subscription, e: Event)
    requires Resolves(s) && s.publishers > 0 && Enabled(s, e)
    requires e.Strand? && !s.posted[s.ran].Install? ==> s.op.None?
    ensures Resolves(Step(s, e)) && Step(s, e).publishers == s.publishers && Step(s, e).limit == s.limit
  {
    if e.Start? || e.ResolveEnded? || e.TimerFired? {
      hide *;
      ResolvesOperation(s, e);
    } else {
      ResolvesUntouched(s, e);
      hide Step, Enabled;
      ResolvesStays(s, Step(s, e));
    }
  }

  // ----- Callbacks and deliveries -----

  lemma LastInstallPost(tasks: seq<Task>, t: Task)
    ensures LastInstall(tasks + [t]) == if t.Install? then Some(t.callback) else LastInstall(tasks)
  {
    assert (tasks + [t])[..|tasks|] == tasks;
  }

  lemma {:induction false} InstalledFromTheStart(tasks: seq<Task>)
    requires tasks != [] && tasks[0].Install?
    ensures LastInstall(tasks).Some?
  {
    if |tasks| > 1 && !tasks[|tasks| - 1].Install? {
      InstalledFromTheStart(tasks[..|tasks| - 1]);
    }
  }

  /** The last callback posted to the strand changes only when a new one is set. */
  lemma LastInstallStep(s: Subscription, e: Event)
    requires Enabled(s, e) && !e.SetCallback?
    ensures LastInstall(Step(s, e).posted) == LastInstall(s.posted)
  {
    if e.Strand? {
      assert Step(s, e) == RunTask(s);
      hide *;
      LastInstallTask(s);
    } else if Posts(e) {
      LastInstallPost(s.posted, Step(s, e).posted[|s.posted|]);
      hide LastInstall, Want, ValidStage;
    } else {
      hide LastInstall;
      PlainStep(s, e);
    }
  }

  lemma LastInstallTask(s: Subscription)
    requires s.ran < |s.posted|
    ensures LastInstall(RunTask(s).posted) == LastInstall(s.posted)
  {
    if s.posted[s.ran].ReadDone? {
      hide AfterRead, LastInstall;
      LastInstallRead(s.(ran := s.ran + 1), s.posted[s.ran].read);
    } else {
      PlainTask(s);
      hide RunTask, LastInstall;
    }
  }

  lemma LastInstallRead(s: Subscription, read: CompleteRead)
    ensures LastInstall(AfterRead(s, read).posted) == LastInstall(s.posted)
  {
    hide Complete, LastInstall, MessageRead;
    match Complete(read.stage, read.bytes)
    case Message(h, payload) =>
      var base := s.(inbound := s.inbound + read.bytes);
      MessagePosts(base, h, payload);
      LastInstallPost(s.posted, ReadNext);
      LastInstallPost(s.posted, Deliver(payload));
      LastInstallPost(s.posted + [Deliver(payload)], ReadNext);
    case _ =>
  }

  /** The calls stay as they are and the strand only grows. */
  ghost predicate StrandGrows(s: Subscription, t: Subscription) {
    t.ran == s.ran && t.callback == s.callback && t.calls == s.calls && s.posted <= t.posted
  }

  lemma StrandGrowsStep(s: Subscription, e: Event)
    requires Enabled(s, e) && !e.Strand?
    ensures StrandGrows(s, Step(s, e))
  {
    if Posts(e) {
      hide ValidStage, Want;
    } else {
      PlainStep(s, e);
      hide Step, Enabled;
    }
  }

  lemma MessageStrand(s: Subscription, h: Header, payload: seq<byte>)
    requires payload != []
    ensures StrandGrows(s, MessageRead(s, h, payload))
  {
  }

  lemma AfterReadStrand(s: Subscription, read: CompleteRead)
    ensures StrandGrows(s, AfterRead(s, read))
  {
    hide Complete, MessageRead;
    match Complete(read.stage, read.bytes)
    case Message(h, payload) => MessageStrand(s.(inbound := s.inbound + read.bytes), h, payload);
    case _ =>
  }

  /** A task that neither installs nor calls a callback. */
  lemma OtherTaskStrand(s: Subscription)
    requires s.ran < |s.posted| && !s.posted[s.ran].Install? && !s.posted[s.ran].Deliver?
    ensures StrandGrows(s.(ran := s.ran + 1), RunTask(s))
  {
    hide AfterRead;
    if s.posted[s.ran].ReadDone? {
      AfterReadStrand(s.(ran := s.ran + 1), s.posted[s.ran].read);
    }
  }

  lemma CorrectStays(c: Call, posted: seq<Task>, ran: nat, more: seq<Task>, later: nat)
    requires ran <= |posted| && Correct(c, posted, ran) && posted <= more && ran <= later <= |more|
    ensures Correct(c, more, later)
  {
    hide LastInstall;
    assert more[..c.position] == posted[..c.position];
  }

  lemma CallbacksGrow(s: Subscription, t: Subscription)
    requires Callbacks(s) && StrandGrows(s, t)
    ensures Callbacks(t)
  {
    hide LastInstall, Correct;
    assert t.posted[..s.ran] == s.posted[..s.ran];
    forall c | c in t.calls ensures Correct(c, t.posted, t.ran) {
      CorrectStays(c, s.posted, s.ran, t.posted, t.ran);
    }
  }

  /** A task that has run, beside the callback it may have installed. */
  lemma CallbacksPop(s: Subscription, callback: Option<nat>)
    requires Callbacks(s) && s.ran < |s.posted|
    requires callback == if s.posted[s.ran].Install? then Some(s.posted[s.ran].callback) else s.callback
    ensures Callbacks(s.(ran := s.ran + 1, callback := callback))
  {
    hide LastInstall, Correct;
    LastInstallPost(s.posted[..s.ran], s.posted[s.ran]);
    assert s.posted[..s.ran + 1] == s.posted[..s.ran] + [s.posted[s.ran]];
    forall c | c in s.calls ensures Correct(c, s.posted, s.ran + 1) {
      CorrectStays(c, s.posted, s.ran, s.posted, s.ran + 1);
    }
  }

  lemma CallIsCorrect(s: Subscription)
    requires Callbacks(s) && s.ran < |s.posted| && s.posted[s.ran].Deliver?
    ensures Correct(Call(s.callback, s.posted[s.ran].payload, s.ran), s.posted, s.ran + 1)
  {
    hide Correct;
    InstalledFromTheStart(s.posted[..s.ran]);
    hide LastInstall;
    NewCall(s);
  }

  lemma NewCall(s: Subscription)
    requires 0 < s.ran < |s.posted| && s.posted[s.ran].Deliver?
    requires s.callback.Some? && s.callback == LastInstall(s.posted[..s.ran])
    ensures Correct(Call(s.callback, s.posted[s.ran].payload, s.ran), s.posted, s.ran + 1)
  {
    hide LastInstall;
  }

  /** The callback task: the one call it makes is a correct one. */
  lemma CallbacksDeliver(s: Subscription)
    requires Callbacks(s) && s.ran < |s.posted| && s.posted[s.ran].Deliver?
    ensures Callbacks(RunTask(s))
  {
    hide Callbacks, LastInstall, Correct;
    CallbacksPop(s, s.callback);
    CallIsCorrect(s);
    var t := s.(ran := s.ran + 1);
    if s.canceled {
      CallbacksGrow(t, RunTask(s));
    } else {
      OneMoreCall(t, Call(s.callback, s.posted[s.ran].payload, s.ran));
    }
  }

  lemma OneMoreCall(s: Subscription, c: Call)
    requires Callbacks(s) && s.ran <= |s.posted| && Correct(c, s.posted, s.ran)
    ensures Callbacks(s.(calls := s.calls + [c]))
  {
    hide LastInstall, Correct;
  }

  lemma CallbacksRunTask(s: Subscription)
    requires Callbacks(s) && s.ran < |s.posted|
    ensures Callbacks(RunTask(s))
  {
    hide Callbacks;
    match s.posted[s.ran]
    case Install(callback) => CallbacksPop(s, Some(callback));
    case Deliver(_) => hide *; CallbacksDeliver(s);
    case _ =>
      CallbacksPop(s, s.callback);
      OtherTaskStrand(s);
      hide *;
      CallbacksGrow(s.(ran := s.ran + 1), RunTask(s));
  }

  lemma CallbacksStep(s: Subscription, e: Event)
    requires Callbacks(s) && Enabled(s, e)
    ensures Callbacks(Step(s, e))
  {
    hide Callbacks;
    if e.Strand? {
      assert Step(s, e) == RunTask(s);
      hide *;
      CallbacksRunTask(s);
    } else {
      hide *;
      StrandGrowsStep(s, e);
      CallbacksGrow(s, Step(s, e));
    }
  }

  lemma PayloadsAppend(calls: seq<Call>, c: Call)
    ensures Payloads(calls + [c]) == Payloads(calls) + [c.payload]
  {
    assert (calls + [c])[..|calls|] == calls;
  }

  /** What a completed read adds to the strand, and to the received payloads. */
  lemma AfterReadPosts(s: Subscription, read: CompleteRead)
    requires s.ran <= |s.posted| && Queued(s) == []
    ensures var t := AfterRead(s, read);
      && t.ran <= |t.posted| && t.calls == s.calls && t.skipped == s.skipped
      && t.received == s.received + QueuedPayload(Queued(t))
  {
    hide Complete, Continuations;
    var base := s.(inbound := s.inbound + read.bytes);
    match Complete(read.stage, read.bytes)
    case Message(h, payload) =>
      QueuePost(base, ReadNext);
      QueuePost(base, Deliver(payload));
      QueuePost(Post(base, Deliver(payload)), ReadNext);
      MessagePosts(base, h, payload);
    case _ =>
      assert Queued(AfterRead(s, read)) == Queued(s);
  }

  lemma MessagePosts(s: Subscription, h: Header, payload: seq<byte>)
    requires payload != []
    ensures var t := MessageRead(s, h, payload);
      && t.ran == s.ran && t.calls == s.calls && t.skipped == s.skipped
      && ((t.received == s.received && (t.posted == s.posted || t.posted == Post(s, ReadNext).posted))
          || (t.received == s.received + [payload]
              && t.posted == Post(Post(s, Deliver(payload)), ReadNext).posted))
  {
  }

  /** Every task but a completed read leaves the strand as it is. */
  lemma PlainTask(s: Subscription)
    requires s.ran < |s.posted| && !s.posted[s.ran].ReadDone?
    ensures var t, task := RunTask(s), s.posted[s.ran];
      && t.ran == s.ran + 1 && t.posted == s.posted && t.received == s.received
      && t.skipped == (if task.Deliver? && s.canceled then s.skipped + [task.payload] else s.skipped)
      && t.calls == (if task.Deliver? && !s.canceled
                     then s.calls + [Call(s.callback, task.payload, s.ran)] else s.calls)
  {
    hide ConnectionFailed, Begin;
    var t := s.(ran := s.ran + 1);
    HandlersLeaveStrand(t, Reading(Length), 0);
    if s.posted[s.ran].Deliver? {
      HandlersLeaveStrand(t.(skipped := s.skipped + [s.posted[s.ran].payload]), Requesting, 0);
    }
  }

  lemma ReadDoneDeliveries(s: Subscription)
    requires Deliveries(s) && Tokens(s) && s.ran < |s.posted| && s.posted[s.ran].ReadDone?
    ensures Deliveries(RunTask(s))
  {
    QueuePop(s);
    assert QueuedPayload(Queued(s)) == [] && s.skipped == [];
    hide Continuations, AfterRead, Payloads, Tokens;
    AfterReadPosts(s.(ran := s.ran + 1), s.posted[s.ran].read);
  }

  lemma DeliverDeliveries(s: Subscription)
    requires Deliveries(s) && Tokens(s) && s.ran < |s.posted| && s.posted[s.ran].Deliver?
    ensures Deliveries(RunTask(s))
  {
    hide RunTask, Continuations, Payloads;
    QueuePop(s);
    PlainTask(s);
    var task := s.posted[s.ran];
    PayloadsAppend(s.calls, Call(s.callback, task.payload, s.ran));
    assert s.skipped == [] && |Queued(s)| == 2 && Queued(s)[1].ReadNext?;
    hide Tokens;
    assert Queued(RunTask(s)) == Queued(s.(ran := s.ran + 1)) == [ReadNext];
    NothingElse(Payloads(s.calls), task.payload);
  }

  lemma NothingElse(handled: seq<seq<byte>>, payload: seq<byte>)
    ensures handled + [] + [payload] == (handled + [payload]) + [] + [] == handled + [payload]
  {
  }

  lemma RunTaskDeliveries(s: Subscription)
    requires Deliveries(s) && Tokens(s) && s.ran < |s.posted|
    ensures Deliveries(RunTask(s))
  {
    match s.posted[s.ran]
    case ReadDone(_) => hide *; ReadDoneDeliveries(s);
    case Deliver(_) => hide *; DeliverDeliveries(s);
    case _ =>
      QueuePop(s);
      PlainTask(s);
      assert QueuedPayload(Queued(s)) == QueuedPayload(Queued(s.(ran := s.ran + 1)));
      hide RunTask, Continuations, Payloads, Tokens;
      assert Queued(RunTask(s)) == Queued(s.(ran := s.ran + 1));
  }

  /** A step that posts at most one task, not a callback task. */
  lemma DeliveriesPost(s: Subscription, t: Task)
    requires Deliveries(s) && !t.Deliver?
    requires Queued(s) == [] || t.Install?
    ensures Deliveries(Post(s, t))
  {
    hide Continuations, Payloads;
    QueuePost(s, t);
    hide Queued;
  }

  lemma DeliveriesSame(s: Subscription, t: Subscription)
    requires Deliveries(s) && SameStrand(s, t)
    ensures Deliveries(t)
  {
    hide Continuations, Payloads, QueuedPayload;
    assert Queued(t) == Queued(s);
  }

  lemma QueuedBehindOp(s: Subscription)
    requires Tokens(s)
    ensures s.op.Some? ==> Queued(s) == [] && Queued(s.(op := None)) == []
    ensures s.ran <= |s.posted|
  {
    hide Continuations;
    assert Queued(s.(op := None)) == Queued(s);
  }

  lemma DeliveriesStep(s: Subscription, e: Event)
    requires Deliveries(s) && Tokens(s) && Enabled(s, e)
    ensures Deliveries(Step(s, e))
  {
    QueuedBehindOp(s);
    var free := s.(op := None);
    assert SameStrand(s, free);
    DeliveriesSame(s, free);
    hide Deliveries, Queued, RunTask, Want, ValidStage, SameStrand;
    match e
    case Strand => RunTaskDeliveries(s);
    case WriteEnded(failed) => DeliveriesPost(free, Requested(failed));
    case ReadEnded(bytes) => DeliveriesPost(free, ReadDone(Arrival(s.op.value.stage, bytes)));
    case ReadAborted => DeliveriesPost(free, ReadFailed(s.op.value.stage));
    case SetCallback(callback) => if !s.canceled { DeliveriesPost(s, Install(callback)); }
    case _ =>
      PlainStep(s, e);
      hide Step, Enabled;
      DeliveriesSame(s, Step(s, e));
  }

  // ----- The stream of a connection -----

  lemma RegularAppend(frames: seq<Frame>, f: Frame)
    ensures Regular(frames + [f])
            == if f.kind == REGULAR_PAYLOAD then Regular(frames) + [f.payload] else Regular(frames)
  {
    assert (frames + [f])[..|frames|] == frames;
  }

  /** Finishing a frame keeps the parser and the messages together. */
  lemma FrameSettled(x: seq<byte>, frame: seq<byte>, f: Frame)
    requires !Parse(x).bad && Parse(x).rest == []
    requires HeadOf(frame) == Whole(|frame|, f)
    ensures var p, q := Parse(x), Parse(x + frame);
      && !q.bad && q.rest == []
      && NonEmpty(q.frames) == NonEmpty(p.frames) + (if f.payload == [] then [] else [f])
  {
    hide HeadOf;
    ParseAppend(x, frame);
    assert [] + frame == frame && frame + [] == frame;
    ParseWhole(frame, [], f);
    NoFrames();
    NonEmptyAppend(Parse(x).frames, [f]);
    assert [f] + [] == [f];
  }

  lemma NoFrames()
    ensures Parse([]) == Parsed([], [], false)
  {
  }

  lemma FrameEnds(inbound: seq<byte>, settled: nat, messages: seq<Frame>, st: Stage, bytes: seq<byte>, f: Frame)
    requires StreamAt(inbound, settled, messages, st)
    requires HeadOf(inbound[settled..] + bytes) == Whole(|inbound[settled..] + bytes|, f)
    ensures var all := inbound + bytes;
      StreamAt(all, |all|, messages + (if f.payload == [] then [] else [f]), Length)
  {
    hide HeadOf, Parse, NonEmpty, Held;
    var x, frame := inbound[..settled], inbound[settled..] + bytes;
    FrameSettled(x, frame, f);
    assert inbound + bytes == x + frame;
    WholeStream(x + frame, messages + (if f.payload == [] then [] else [f]));
  }

  lemma WholeStream(all: seq<byte>, messages: seq<Frame>)
    requires var p := Parse(all); !p.bad && p.rest == [] && NonEmpty(p.frames) == messages
    ensures StreamAt(all, |all|, messages, Length)
  {
    hide Parse, NonEmpty;
    assert all[..|all|] == all;
  }

  lemma ReadGoesOn(inbound: seq<byte>, settled: nat, messages: seq<Frame>, st: Stage, bytes: seq<byte>, next: Stage)
    requires StreamAt(inbound, settled, messages, st)
    requires Held(next, inbound[settled..] + bytes)
    ensures StreamAt(inbound + bytes, settled, messages, next)
  {
    hide HeadOf, Parse, NonEmpty, Held;
    assert (inbound + bytes)[settled..] == inbound[settled..] + bytes;
    SettledStays(inbound, settled, messages, bytes);
  }

  lemma SettledStays(inbound: seq<byte>, settled: nat, messages: seq<Frame>, bytes: seq<byte>)
    requires SettledAt(inbound, settled, messages)
    ensures SettledAt(inbound + bytes, settled, messages)
  {
    hide Parse, NonEmpty;
    assert (inbound + bytes)[..settled] == inbound[..settled];
  }

  /** The state a stream is in after a read of stage `st` has completed. */
  lemma ReadSettles(s: Subscription, read: CompleteRead)
    requires InStream(s, read.stage)
    ensures var t := s.(inbound := s.inbound + read.bytes);
      match Complete(read.stage, read.bytes)
      case Next(st) => InStream(t, st)
      case Malformed => true
      case EmptyFrame(h) => InStream(t.(settled := |t.inbound|), Length)
      case Message(h, p) =>
        InStream(t.(settled := |t.inbound|, messages := s.messages + [Frame(h.kind, p)]), Length)
  {
    hide Complete, HeadOf, Parse, NonEmpty, Want, Held;
    StageSound(read.stage, s.inbound[s.settled..], read.bytes);
    match Complete(read.stage, read.bytes)
    case Next(st) =>
      ReadGoesOn(s.inbound, s.settled, s.messages, read.stage, read.bytes, st);
    case Malformed =>
    case EmptyFrame(h) =>
      FrameEnds(s.inbound, s.settled, s.messages, read.stage, read.bytes, Frame(h.kind, []));
      assert s.messages + [] == s.messages;
    case Message(h, p) =>
      FrameEnds(s.inbound, s.settled, s.messages, read.stage, read.bytes, Frame(h.kind, p));
  }

  /** `Stream` while a handler holds the token: nothing is queued. */
  ghost predicate StreamIdle(s: Subscription) {
    && s.ran <= |s.posted| && s.base <= |s.received| && s.received[s.base..] == Regular(s.messages)
    && s.op.None? && Queued(s) == [] && Settled(s)
  }

  lemma StreamFails(s: Subscription)
    requires StreamIdle(s)
    ensures Stream(ConnectionFailed(s)) && forall i: nat :: Stream(Resolve(s, i)) && Stream(Begin(s, Connecting(i)))
  {
    hide Continuations, Regular, SettledAt, StreamAt;
  }

  lemma StreamReads(s: Subscription, st: Stage)
    requires StreamIdle(s) && InStream(s, st)
    ensures Stream(Begin(s, Reading(st)))
  {
    hide Continuations, Regular, SettledAt, StreamAt;
  }

  lemma StreamPosts(s: Subscription, payload: seq<byte>)
    requires StreamIdle(s) && InStream(s, Length)
    ensures Stream(Post(s, ReadNext)) && Stream(Post(Post(s, Deliver(payload)), ReadNext))
  {
    hide Continuations, Regular, SettledAt, StreamAt;
    QueuePost(s, ReadNext);
    QueuePost(s, Deliver(payload));
    QueuePost(Post(s, Deliver(payload)), ReadNext);
    hide Queued;
    assert Queued(Post(Post(s, Deliver(payload)), ReadNext)) == [Deliver(payload), ReadNext];
  }

  lemma StreamIsSettled(inbound: seq<byte>, settled: nat, messages: seq<Frame>, st: Stage)
    requires StreamAt(inbound, settled, messages, st)
    ensures SettledAt(inbound, settled, messages)
  {
  }

  lemma NotedStream(s: Subscription, f: Frame)
    requires StreamIdle(s)
    requires InStream(s.(settled := |s.inbound|, messages := s.messages + [f]), Length)
    ensures StreamIdle(Noted(s, f)) && InStream(Noted(s, f), Length)
  {
    StreamIsSettled(s.inbound, |s.inbound|, s.messages + [f], Length);
    hide Continuations, Regular, SettledAt, StreamAt;
    RegularAppend(s.messages, f);
    assert Queued(Noted(s, f)) == Queued(s);
    if f.kind == REGULAR_PAYLOAD {
      assert Noted(s, f).received[s.base..] == s.received[s.base..] + [f.payload];
    }
  }

  lemma StreamMessage(s: Subscription, h: Header, payload: seq<byte>)
    requires StreamIdle(s) && payload != []
    requires InStream(s.(settled := |s.inbound|, messages := s.messages + [Frame(h.kind, payload)]), Length)
    ensures Stream(MessageRead(s, h, payload))
  {
    var t := Noted(s, Frame(h.kind, payload));
    NotedStream(s, Frame(h.kind, payload));
    hide Noted, StreamIdle, Stream, InStream, Post, ConnectionFailed;
    StreamFails(t);
    StreamPosts(t, payload);
  }

  lemma StreamAfterRead(s: Subscription, read: CompleteRead)
    requires StreamIdle(s) && InStream(s, read.stage)
    ensures Stream(AfterRead(s, read))
  {
    hide Continuations, Regular, SettledAt, StreamAt, Complete, MessageRead, Begin, ConnectionFailed, Stream;
    ReadSettles(s, read);
    SettledStays(s.inbound, s.settled, s.messages, read.bytes);
    var t := s.(inbound := s.inbound + read.bytes);
    assert StreamIdle(t);
    match Complete(read.stage, read.bytes)
    case Next(st) => StreamReads(t, st);
    case Malformed => StreamFails(t);
    case EmptyFrame(_) =>
      StreamFails(t);
      StreamIsSettled(t.inbound, |t.inbound|, s.messages, Length);
      StreamReads(t.(empties := s.empties + 1, settled := |t.inbound|), Length);
    case Message(h, payload) => StreamMessage(t, h, payload);
  }

  /** What `Stream` says about the state in which a task's handler starts. */
  lemma StreamPop(s: Subscription)
    requires Stream(s) && Tokens(s) && s.ran < |s.posted|
    requires !s.posted[s.ran].Install? && !s.posted[s.ran].Deliver?
    ensures var t, task := s.(ran := s.ran + 1), s.posted[s.ran];
      && StreamIdle(t)
      && (task.Requested? ==> Unread(t))
      && (task.ReadDone? ==> InStream(t, task.read.stage))
      && (task.ReadNext? ==> InStream(t, Length))
  {
    QueuePop(s);
    hide Continuations, Regular, SettledAt, StreamAt;
  }

  lemma StreamInstall(s: Subscription)
    requires Stream(s) && Tokens(s) && s.ran < |s.posted| && s.posted[s.ran].Install?
    ensures Stream(RunTask(s))
  {
    QueuePop(s);
    hide Continuations, Regular, SettledAt, StreamAt;
    assert Queued(RunTask(s)) == Queued(s.(ran := s.ran + 1));
  }

  lemma StreamRunTask(s: Subscription)
    requires Stream(s) && Tokens(s) && s.ran < |s.posted|
    ensures Stream(RunTask(s))
  {
    var t, task := s.(ran := s.ran + 1), s.posted[s.ran];
    hide Stream, Tokens, StreamIdle, InStream, Unread, AfterRead, ConnectionFailed, Begin;
    if task.Install? {
      StreamInstall(s);
    } else if task.Deliver? {
      StreamDeliver(s);
    } else {
      StreamPop(s);
      StreamFails(t);
      match task
      case Requested(failed) => StreamStart(t);
      case ReadDone(read) => StreamAfterRead(t, read);
      case ReadFailed(_) =>
      case ReadNext => StreamReads(t, Length);
    }
  }

  lemma StreamStart(s: Subscription)
    requires StreamIdle(s) && Unread(s)
    ensures Stream(Begin(s, Reading(Length)))
  {
    NoFrames();
    assert InStream(s, Length);
    hide StreamAt;
    StreamReads(s, Length);
  }

  lemma StreamDeliver(s: Subscription)
    requires Stream(s) && Tokens(s) && s.ran < |s.posted| && s.posted[s.ran].Deliver?
    ensures Stream(RunTask(s))
  {
    QueuePop(s);
    hide Continuations, Regular, SettledAt, StreamAt;
    assert Queued(RunTask(s)) == Queued(s.(ran := s.ran + 1)) == [ReadNext];
    assert InStream(s, Length) && InStream(RunTask(s), Length);
  }

  lemma StreamStep(s: Subscription, e: Event)
    requires Stream(s) && Tokens(s) && Enabled(s, e) && (s.attempts > 0 ==> s.started)
    ensures Stream(Step(s, e))
  {
    hide Continuations, Regular, SettledAt, StreamAt, RunTask, ConnectionFailed, Begin, Resolve, Want, ValidStage;
    var free := s.(op := None);
    match e
    case Start =>
      assert Queued(s.(started := true)) == Queued(s);
      if !s.canceled { StreamFails(s.(started := true)); }
    case ResolveEnded(failed) => StreamFails(free);
    case ConnectEnded(failed) => StreamConnected(s, failed);
    case WriteEnded(failed) => QueuePost(free, Requested(failed));
    case ReadEnded(bytes) => QueuePost(free, ReadDone(Arrival(s.op.value.stage, bytes)));
    case ReadAborted => QueuePost(free, ReadFailed(s.op.value.stage));
    case TimerFired(failed) => StreamFails(free); assert Queued(TimerEnded(s, true)) == [];
    case Strand => StreamRunTask(s);
    case SetCallback(callback) => QueuePost(s, Install(callback));
    case Cancel => assert Queued(Step(s, e)) == Queued(s);
  }

  lemma NothingSettled()
    ensures SettledAt([], 0, [])
  {
    NoFrames();
  }

  lemma StreamConnected(s: Subscription, failed: bool)
    requires Stream(s) && Tokens(s) && s.op.Some? && s.op.value.Connecting?
    ensures Stream(Connected(s, s.op.value.i, failed))
  {
    hide Continuations, SettledAt, StreamAt;
    NothingSettled();
    StreamFails(s.(op := None));
    var t := s.(op := None, connected := Some(s.op.value.i), inbound := [], settled := 0, messages := [],
                base := |s.received|);
    assert Queued(t) == Queued(s) && t.received[t.base..] == [] == Regular([]);
  }
}
