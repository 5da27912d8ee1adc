/** The theorems about whole runs of a subscriber session. */
module SubscriberRuns {
  import opened Bytes
  import opened TcpHeader
  import opened FrameReader
  import opened SubscriberProtocol
  import opened SubscriberTheorems

  ghost predicate Inv(s: Subscription) {
    && s.publishers > 0
    && Tokens(s) && Retries(s) && Resolves(s) && Callbacks(s) && Deliveries(s) && Stream(s)
  }

  lemma NewIsInv(limit: int, publishers: nat, callback: nat)
    requires publishers > 0
    ensures Inv(NewSubscription(limit, publishers, callback))
  {
    var s := NewSubscription(limit, publishers, callback);
    assert Queue(s) == [Install(callback)];
    ContinuationsPost([], Install(callback));
    assert [] + [Install(callback)] == Queue(s);
    NothingSettled();
  }

  lemma StepKeepsInv(s: Subscription, e: Event)
    requires Inv(s) && Enabled(s, e)
    ensures Inv(Step(s, e)) && Step(s, e).limit == s.limit && Step(s, e).publishers == s.publishers
  {
    LaunchedIsStarted(s);
    RunningHasNoOp(s);
    hide Tokens, Retries, Resolves, Callbacks, Deliveries, Stream, Step, Enabled;
    TokensStep(s, e);
    RetriesStep(s, e);
    ResolvesStep(s, e);
    CallbacksStep(s, e);
    DeliveriesStep(s, e);
    StreamStep(s, e);
  }

  lemma LaunchedIsStarted(s: Subscription)
    requires Retries(s)
    ensures s.attempts > 0 ==> s.started
  {
  }

  lemma RunningHasNoOp(s: Subscription)
    requires Tokens(s)
    ensures s.ran < |s.posted| && !s.posted[s.ran].Install? ==> s.op.None?
  {
    if s.ran < |s.posted| { QueuePop(s); }
  }

  lemma {:induction false} RunKeepsInv(s: Subscription, es: seq<Event>)
    requires Inv(s) && ValidRun(s, es)
    ensures Inv(Run(s, es)) && Run(s, es).limit == s.limit && Run(s, es).publishers == s.publishers
    decreases es
  {
    hide Inv, Step, Enabled;
    if es != [] {
      StepKeepsInv(s, es[0]);
      RunKeepsInv(Step(s, es[0]), es[1..]);
    }
  }

  // ----- Linearity of the continuation -----

  /** Operations in progress and continuations on the strand. */
  function Live(s: Subscription): nat
    requires s.ran <= |s.posted|
  {
    (if s.op.Some? then 1 else 0) + |Queued(s)|
  }

  predicate Launched(s: Subscription) { s.attempts > 0 }

  /** The tokens of a launched session balance: what is live and what has closed is one token,
      one more for a queued callback task, and one more for a callback task that found the
      session canceled. So there is one live continuation, or two while a callback task is
      queued, and a finished session has called its closed handler once or twice. */
  lemma ContinuationsAreLinear(s: Subscription)
    requires Inv(s)
    ensures Live(s) <= 2 && (Live(s) == 2 <==> |QueuedPayload(Queued(s))| == 1)
    ensures !Launched(s) ==> Live(s) == 0 && s.closes == 0
    ensures Launched(s) ==> s.closes + Live(s) == 1 + |QueuedPayload(Queued(s))| + |s.skipped|
    ensures Launched(s) && Live(s) == 0 ==> s.closes == 1 || s.closes == 2
    ensures Launched(s) && Live(s) == 0 ==> (s.closes == 2 <==> s.skipped != [])
  {
    hide Continuations, Queue, Retries, Resolves, Callbacks, Deliveries, Stream;
  }

  /** A callback task that runs although `cancel` has already taken effect. */
  ghost predicate LateCancel(s: Subscription, es: seq<Event>)
    requires ValidRun(s, es)
    decreases es
  {
    es != []
    && ((es[0].Strand? && s.canceled && s.posted[s.ran].Deliver?) || LateCancel(Step(s, es[0]), es[1..]))
  }

  lemma SkippedStep(s: Subscription, e: Event)
    requires Enabled(s, e)
    ensures Step(s, e).skipped != []
            <==> s.skipped != [] || (e.Strand? && s.canceled && s.posted[s.ran].Deliver?)
  {
    if e.Strand? {
      hide Want, ValidStage;
      SkippedRunTask(s);
    } else if Posts(e) {
      hide Want, ValidStage;
    } else {
      PlainStep(s, e);
      hide Step, Enabled;
    }
  }

  lemma SkippedRunTask(s: Subscription)
    requires s.ran < |s.posted|
    ensures RunTask(s).skipped != [] <==> s.skipped != [] || (s.canceled && s.posted[s.ran].Deliver?)
  {
    if s.posted[s.ran].ReadDone? {
      hide AfterRead;
      AfterReadSkips(s.(ran := s.ran + 1), s.posted[s.ran].read);
    } else {
      PlainTask(s);
      hide RunTask;
    }
  }

  lemma AfterReadSkips(s: Subscription, read: CompleteRead)
    ensures AfterRead(s, read).skipped == s.skipped
  {
    hide Complete;
  }

  lemma {:induction false} SkippedByLateCancel(s: Subscription, es: seq<Event>)
    requires ValidRun(s, es)
    ensures Run(s, es).skipped != [] <==> s.skipped != [] || LateCancel(s, es)
    decreases es
  {
    hide Step, Enabled;
    if es != [] {
      SkippedStep(s, es[0]);
      SkippedByLateCancel(Step(s, es[0]), es[1..]);
    }
  }

  /** A finished run has called the closed handler exactly twice if `cancel` took effect before
      the callback task of a regular payload ran, whether ahead of the posts of that payload or
      behind them, and exactly once otherwise. */
  lemma ClosedOnceOrTwice(limit: int, publishers: nat, callback: nat, es: seq<Event>)
    requires publishers > 0 && ValidRun(NewSubscription(limit, publishers, callback), es)
    ensures var s := NewSubscription(limit, publishers, callback);
      var t := Run(s, es);
      && t.ran <= |t.posted|
      && (Launched(t) && Live(t) == 0 ==> t.closes == if LateCancel(s, es) then 2 else 1)
  {
    var s := NewSubscription(limit, publishers, callback);
    NewIsInv(limit, publishers, callback);
    RunKeepsInv(s, es);
    SkippedByLateCancel(s, es);
    ContinuationsAreLinear(Run(s, es));
  }

  lemma TaskKeepsCancel(s: Subscription)
    requires s.ran < |s.posted|
    ensures RunTask(s).canceled == s.canceled
  {
    hide AfterRead;
    if s.posted[s.ran].ReadDone? {
      AfterReadKeepsCancel(s.(ran := s.ran + 1), s.posted[s.ran].read);
    }
  }

  lemma AfterReadKeepsCancel(s: Subscription, read: CompleteRead)
    ensures AfterRead(s, read).canceled == s.canceled
  {
    hide Complete;
  }

  lemma CanceledStays(s: Subscription, e: Event)
    requires Enabled(s, e)
    ensures Step(s, e).canceled == (s.canceled || e.Cancel?)
  {
    if e.Strand? {
      assert Step(s, e) == RunTask(s);
      hide *;
      TaskKeepsCancel(s);
    } else if Posts(e) {
      hide Want, ValidStage;
    } else {
      hide Want, ValidStage;
    }
  }

  /** The completion of the read of a regular payload. */
  ghost predicate RegularRead(task: Task) {
    task.ReadDone? &&
    var p := Complete(task.read.stage, task.read.bytes); p.Message? && p.header.kind == REGULAR_PAYLOAD
  }

  /** A regular payload is on the strand: its callback task, or still the completion of its read. */
  ghost predicate PayloadQueued(s: Subscription) {
    s.ran <= |s.posted| && Queued(s) != [] && (Queued(s)[0].Deliver? || RegularRead(Queued(s)[0]))
  }

  /** A canceled session that has skipped a payload, or is going to. */
  ghost predicate Skips(s: Subscription) { s.canceled && (s.skipped != [] || PayloadQueued(s)) }

  lemma RegularReadPosts(s: Subscription, read: CompleteRead)
    requires s.ran <= |s.posted| && Queued(s) == [] && RegularRead(ReadDone(read))
    ensures PayloadQueued(AfterRead(s, read))
  {
    hide Complete, Continuations, ConnectionFailed;
    var base := s.(inbound := s.inbound + read.bytes);
    var p := Complete(read.stage, read.bytes);
    var noted := Noted(base, Frame(p.header.kind, p.payload));
    assert Queued(noted) == Queued(s);
    QueuePost(noted, Deliver(p.payload));
    QueuePost(Post(noted, Deliver(p.payload)), ReadNext);
    assert AfterRead(s, read) == Post(Post(noted, Deliver(p.payload)), ReadNext);
    hide Queued;
  }

  lemma SkipsTask(s: Subscription)
    requires Tokens(s) && Skips(s) && s.skipped == [] && s.ran < |s.posted|
    ensures RunTask(s).skipped != [] || PayloadQueued(RunTask(s))
  {
    QueuePop(s);
    PayloadIsAlone(s);
    var task := s.posted[s.ran];
    hide *;
    SkipsTaskAt(s, task);
  }

  lemma PayloadIsAlone(s: Subscription)
    requires Tokens(s) && PayloadQueued(s)
    ensures |Queued(s)| == 1 || Queued(s)[0].Deliver?
  {
    hide Continuations, Queue, RegularRead;
  }

  lemma SkipsTaskAt(s: Subscription, task: Task)
    requires s.ran < |s.posted| && task == s.posted[s.ran] && s.canceled && PayloadQueued(s)
    requires |Queued(s)| == 1 || Queued(s)[0].Deliver?
    requires var t := s.(ran := s.ran + 1);
      if task.Install? then Queued(t) == Queued(s) else Queued(s)[0] == task && Queued(t) == Queued(s)[1..]
    ensures RunTask(s).skipped != [] || PayloadQueued(RunTask(s))
  {
    hide Queue, Continuations, AfterRead, RegularRead;
    match task
    case Install(_) => InstallKeepsQueue(s); hide RunTask;
    case Deliver(_) => SkipsDeliver(s);
    case ReadDone(read) =>
      hide Queued;
      RegularReadPosts(s.(ran := s.ran + 1), read);
      ReadTask(s);
    case _ => hide Queued; NotRegularRead(task);
  }

  lemma NotRegularRead(task: Task)
    requires !task.ReadDone?
    ensures !RegularRead(task)
  {
  }

  lemma InstallKeepsQueue(s: Subscription)
    requires s.ran < |s.posted| && s.posted[s.ran].Install?
    ensures RunTask(s).ran == s.ran + 1 <= |RunTask(s).posted|
    ensures Queue(RunTask(s)) == Queue(s.(ran := s.ran + 1))
  {
    hide AfterRead;
  }

  lemma SkipsDeliver(s: Subscription)
    requires s.ran < |s.posted| && s.posted[s.ran].Deliver? && s.canceled
    ensures RunTask(s).skipped != []
  {
    hide AfterRead;
  }

  lemma ReadTask(s: Subscription)
    requires s.ran < |s.posted| && s.posted[s.ran].ReadDone?
    ensures RunTask(s) == AfterRead(s.(ran := s.ran + 1), s.posted[s.ran].read)
  {
    hide AfterRead;
  }

  lemma NothingButTasks(s: Subscription, e: Event)
    requires Inv(s) && PayloadQueued(s) && Enabled(s, e)
    ensures e.Strand? || e.SetCallback? || e.Cancel?
  {
    LaunchedIsStarted(s);
    hide Continuations, Queue, Retries, Resolves, Callbacks, Deliveries, Stream, RegularRead;
  }

  lemma SkipsStep(s: Subscription, e: Event)
    requires Inv(s) && Skips(s) && Enabled(s, e)
    ensures Skips(Step(s, e))
  {
    CanceledStays(s, e);
    if s.skipped != [] {
      SkippedStep(s, e);
      hide Inv, Step, Enabled, PayloadQueued;
    } else {
      NothingButTasks(s, e);
      StrandInBounds(s);
      assert Tokens(s);
      hide Inv, Tokens, RunTask, RegularRead;
      if e.Strand? { SkipsTask(s); } else { assert Queued(Step(s, e)) == Queued(s); }
    }
  }

  lemma {:induction false} SkipsRun(s: Subscription, es: seq<Event>)
    requires Inv(s) && Skips(s) && ValidRun(s, es)
    ensures Inv(Run(s, es)) && Skips(Run(s, es))
    decreases es
  {
    hide Inv, Step, Enabled, Skips;
    if es != [] {
      SkipsStep(s, es[0]);
      StepKeepsInv(s, es[0]);
      SkipsRun(Step(s, es[0]), es[1..]);
    }
  }

  /** Canceling while a regular payload is on the strand, be it as the completion of its read or
      as its callback task, leads to two calls of the closed handler in every run to the end. */
  lemma CancelAheadOfCallback(s: Subscription, es: seq<Event>)
    requires Inv(s) && PayloadQueued(s) && ValidRun(s, [Cancel] + es)
    ensures var t := Run(s, [Cancel] + es); t.ran <= |t.posted| && (Live(t) == 0 ==> t.closes == 2)
  {
    var c := Step(s, Cancel);
    assert ([Cancel] + es)[1..] == es && Queued(c) == Queued(s);
    StepKeepsInv(s, Cancel);
    assert Skips(c);
    hide Inv, Step, Enabled, Skips, PayloadQueued;
    SkipsRun(c, es);
    hide *;
    EndsInTwoCalls(Run(c, es));
    assert Run(s, [Cancel] + es) == Run(c, es) by { CancelFirst(s, es); }
  }

  lemma CancelFirst(s: Subscription, es: seq<Event>)
    requires ValidRun(s, [Cancel] + es)
    ensures ValidRun(Step(s, Cancel), es) && Run(s, [Cancel] + es) == Run(Step(s, Cancel), es)
  {
    hide Step;
    assert ([Cancel] + es)[1..] == es;
  }

  lemma EndsInTwoCalls(t: Subscription)
    requires Inv(t) && Skips(t)
    ensures t.ran <= |t.posted| && (Live(t) == 0 ==> t.closes == 2)
  {
    ContinuationsAreLinear(t);
    hide Continuations, Queue, Retries, Resolves, Callbacks, Deliveries, Stream, RegularRead;
  }

  /** In a canceled session both tasks of a message end in the closed handler. */
  lemma ClosingTask(s: Subscription)
    requires s.canceled && s.ran < |s.posted| && (s.posted[s.ran].Deliver? || s.posted[s.ran].ReadNext?)
    ensures Enabled(s, Strand)
    ensures var t := Step(s, Strand);
      t.canceled && t.posted == s.posted && t.ran == s.ran + 1 && t.closes == s.closes + 1
  {
    hide AfterRead;
  }

  lemma Prepend(s: Subscription, e: Event, es: seq<Event>) returns (r: seq<Event>)
    requires Enabled(s, e) && ValidRun(Step(s, e), es)
    ensures r == [e] + es && ValidRun(s, r) && Run(s, r) == Run(Step(s, e), es)
  {
    hide Step, Enabled;
    r := [e] + es;
    assert r[1..] == es;
  }

  lemma {:induction false} RunConcat(s: Subscription, es: seq<Event>, more: seq<Event>)
    requires ValidRun(s, es) && ValidRun(Run(s, es), more)
    ensures ValidRun(s, es + more) && Run(s, es + more) == Run(Run(s, es), more)
    decreases es
  {
    hide Step, Enabled;
    if es == [] {
      assert es + more == more;
    } else {
      RunConcat(Step(s, es[0]), es[1..], more);
      assert (es + more)[0] == es[0] && (es + more)[1..] == es[1..] + more;
    }
  }

  /** A read of stage `st` is pending, and nothing is queued. */
  ghost predicate Awaits(s: Subscription, st: Stage) {
    s.op == Some(Reading(st)) && s.ran == |s.posted| && !s.canceled
  }

  /** From the start to the first read, when nothing fails. */
  lemma ConnectRun(limit: int, publishers: nat, callback: nat) returns (es: seq<Event>)
    requires publishers > 0
    ensures ValidRun(NewSubscription(limit, publishers, callback), es)
    ensures Awaits(Run(NewSubscription(limit, publishers, callback), es), Length)
  {
    var s0 := NewSubscription(limit, publishers, callback);
    var s1 := Step(s0, Start);
    var s2 := Step(s1, ResolveEnded(false));
    var s3 := Step(s2, ConnectEnded(false));
    var s4 := Step(s3, WriteEnded(false));
    assert s4.posted == [Install(callback), Requested(false)] && s4.ran == 0 && !s4.canceled && s4.op.None?;
    hide AfterRead;
    var s5 := Step(s4, Strand);
    var s6 := Step(s5, Strand);
    assert Awaits(s6, Length);
    assert Enabled(s1, ResolveEnded(false)) && Enabled(s2, ConnectEnded(false)) && Enabled(s3, WriteEnded(false));
    assert Enabled(s4, Strand) && Enabled(s5, Strand);
    hide Step, Enabled;
    es := Prepend(s5, Strand, []);
    es := Prepend(s4, Strand, es);
    es := Prepend(s3, WriteEnded(false), es);
    es := Prepend(s2, ConnectEnded(false), es);
    es := Prepend(s1, ResolveEnded(false), es);
    es := Prepend(s0, Start, es);
  }

  /** A read that leads to the next stage. */
  lemma StageRun(s: Subscription, st: Stage, bytes: seq<byte>, next: Stage) returns (es: seq<Event>)
    requires Awaits(s, st) && ValidStage(st) && |bytes| == Want(st) && Complete(st, bytes) == Next(next)
    ensures ValidRun(s, es) && Awaits(Run(s, es), next)
  {
    hide Complete, Want, ValidStage;
    var s1 := Step(s, ReadEnded(bytes));
    var s2 := Step(s1, Strand);
    assert s1.posted[s1.ran] == ReadDone(Arrival(st, bytes)) && Awaits(s2, next);
    hide Step, Enabled;
    es := Prepend(s1, Strand, []);
    es := Prepend(s, ReadEnded(bytes), es);
  }

  lemma ReadsOfDataFrame(payload: seq<byte>)
    requires HEADER_SIZE + |payload| < 0x1_0000_0000_0000_0000 && payload != []
    ensures var f := DataFrame(payload);
      && |f| >= 12
      && Complete(Length, f[..2]) == Next(Content(HEADER_SIZE))
      && Complete(Content(HEADER_SIZE), f[2..12])
         == Next(Payload(Header(HEADER_SIZE, REGULAR_PAYLOAD, 0, |payload|)))
  {
    var h, f := Header(HEADER_SIZE, REGULAR_PAYLOAD, 0, |payload|), DataFrame(payload);
    WidthsOfTheProtocol();
    EncodeThenDecode(HEADER_SIZE, 2);
    assert f[..2] == LittleEndian(HEADER_SIZE, 2);
    assert f[..2] + f[2..12] == EncodeHeader(h);
    LongHeaderTolerance(h, []);
    assert EncodeHeader(h) + [] == EncodeHeader(h);
  }

  /** A run from a new session to the read of a regular payload. */
  lemma PayloadRun(limit: int, publishers: nat, callback: nat, payload: seq<byte>) returns (es: seq<Event>)
    requires publishers > 0 && payload != [] && HEADER_SIZE + |payload| < 0x1_0000_0000_0000_0000
    ensures ValidRun(NewSubscription(limit, publishers, callback), es)
    ensures var t := Run(NewSubscription(limit, publishers, callback), es);
      Inv(t) && Awaits(t, Payload(Header(HEADER_SIZE, REGULAR_PAYLOAD, 0, |payload|)))
  {
    var s0 := NewSubscription(limit, publishers, callback);
    var f, h := DataFrame(payload), Header(HEADER_SIZE, REGULAR_PAYLOAD, 0, |payload|);
    ReadsOfDataFrame(payload);
    NewIsInv(limit, publishers, callback);
    hide *;
    var a := ConnectRun(limit, publishers, callback);
    var b := StageRun(Run(s0, a), Length, f[..2], Content(HEADER_SIZE));
    RunConcat(s0, a, b);
    var c := StageRun(Run(s0, a + b), Content(HEADER_SIZE), f[2..12], Payload(h));
    RunConcat(s0, a + b, c);
    RunKeepsInv(s0, a + b + c);
    es := a + b + c;
  }

  /** From the read of a regular payload: the two tasks of the message run in a canceled session. */
  lemma TwoClosingTasks(s: Subscription, payload: seq<byte>) returns (es: seq<Event>)
    requires s.canceled && s.ran <= |s.posted| && Queue(s) == [Deliver(payload), ReadNext]
    ensures es == [Strand, Strand] && ValidRun(s, es) && Run(s, es).closes == s.closes + 2
  {
    assert s.posted[s.ran] == Queue(s)[0] && s.posted[s.ran + 1] == Queue(s)[1];
    hide Queue;
    ClosingTask(s);
    var s1 := Step(s, Strand);
    ClosingTask(s1);
    hide Step, Enabled;
    es := Prepend(s1, Strand, []);
    es := Prepend(s, Strand, es);
  }

  /** The second call is real: whatever the limit and the publisher list, a session that connects
      and receives one regular frame calls its closed handler twice when it is canceled between
      the posts behind the payload and the callback task. */
  lemma DoubleCloseHappens(limit: int, publishers: nat, callback: nat, payload: seq<byte>)
    returns (before: seq<Event>, es: seq<Event>)
    requires publishers > 0 && payload != [] && HEADER_SIZE + |payload| < 0x1_0000_0000_0000_0000
    ensures es == before + [ReadEnded(payload), Strand, Cancel, Strand, Strand]
    ensures ValidRun(NewSubscription(limit, publishers, callback), es)
    ensures Run(NewSubscription(limit, publishers, callback), es).closes == 2
  {
    before := PayloadRun(limit, publishers, callback, payload);
    var s0 := NewSubscription(limit, publishers, callback);
    var s := Run(s0, before);
    hide *;
    var t, first := PayloadStrand(s, payload, false);
    var last := TwoClosingTasks(t, payload);
    RunConcat(s, first, last);
    RunConcat(s0, before, first + last);
    es := before + (first + last);
  }

  /** And so it does when it is canceled ahead of the posts, while the completion of the payload
      read is still queued: that handler does not look at the flag. */
  lemma DoubleCloseAheadOfPosts(limit: int, publishers: nat, callback: nat, payload: seq<byte>)
    returns (before: seq<Event>, es: seq<Event>)
    requires publishers > 0 && payload != [] && HEADER_SIZE + |payload| < 0x1_0000_0000_0000_0000
    ensures es == before + [ReadEnded(payload), Cancel, Strand, Strand, Strand]
    ensures ValidRun(NewSubscription(limit, publishers, callback), es)
    ensures Run(NewSubscription(limit, publishers, callback), es).closes == 2
  {
    before := PayloadRun(limit, publishers, callback, payload);
    var s0 := NewSubscription(limit, publishers, callback);
    var s := Run(s0, before);
    hide *;
    var t, first := PayloadStrand(s, payload, true);
    var last := TwoClosingTasks(t, payload);
    RunConcat(s, first, last);
    RunConcat(s0, before, first + last);
    es := before + (first + last);
  }

  /** The end of the payload read, the strand's turn, and `cancel` on either side of it. */
  lemma PayloadStrand(s: Subscription, payload: seq<byte>, early: bool) returns (t: Subscription, es: seq<Event>)
    requires Inv(s) && 0 < |payload| < 0x1_0000_0000_0000_0000
    requires Awaits(s, Payload(Header(HEADER_SIZE, REGULAR_PAYLOAD, 0, |payload|)))
    ensures es == if early then [ReadEnded(payload), Cancel, Strand] else [ReadEnded(payload), Strand, Cancel]
    ensures ValidRun(s, es) && Run(s, es) == t
    ensures t.canceled && t.closes == 0 && t.ran <= |t.posted| && Queue(t) == [Deliver(payload), ReadNext]
  {
    NotClosedWhileReading(s);
    hide Inv;
    var h := Header(HEADER_SIZE, REGULAR_PAYLOAD, 0, |payload|);
    var s1 := Post(s.(op := None), ReadDone(Arrival(Payload(h), payload)));
    assert Enabled(s, ReadEnded(payload)) && Step(s, ReadEnded(payload)) == s1;
    hide Awaits;
    if early {
      var c := CancelEvent(s1);
      MessageTask(c, h, payload);
      t := Step(c, Strand);
      hide Step, Enabled, Queue;
      es := Prepend(c, Strand, []);
      es := Prepend(s1, Cancel, es);
    } else {
      MessageTask(s1, h, payload);
      var d := Step(s1, Strand);
      t := CancelEvent(d);
      hide Step, Enabled, Queue;
      es := Prepend(d, Cancel, []);
      es := Prepend(s1, Strand, es);
    }
    es := Prepend(s, ReadEnded(payload), es);
  }

  lemma CancelEvent(s: Subscription) returns (t: Subscription)
    requires s.ran <= |s.posted|
    ensures Enabled(s, Cancel) && t == Step(s, Cancel)
    ensures t.canceled && t.closes == s.closes && t.posted == s.posted && t.ran == s.ran && Queue(t) == Queue(s)
  {
    t := Step(s, Cancel);
  }

  /** The completion of a regular payload, canceled or not, leaves its two tasks on the strand. */
  lemma MessageTask(s: Subscription, h: Header, payload: seq<byte>)
    requires 0 < |payload| == h.dataSize && h.kind == REGULAR_PAYLOAD
    requires s.ran + 1 == |s.posted| && s.posted[s.ran] == ReadDone(Arrival(Payload(h), payload))
    ensures Enabled(s, Strand)
    ensures var t := Step(s, Strand);
      && t.canceled == s.canceled && t.closes == s.closes
      && t.ran <= |t.posted| && Queue(t) == [Deliver(payload), ReadNext]
  {
  }

  lemma NotClosedWhileReading(s: Subscription)
    requires Inv(s) && s.op.Some?
    ensures s.closes == 0
  {
    hide Continuations, Retries, Resolves, Callbacks, Deliveries, Stream;
  }
  // ----- Retries -----

  lemma {:induction false} TimesIsProduct(n: int, k: nat)
    ensures Times(n, k) == if n <= 0 then 0 else n * k
  {
    if n > 0 {
      TimesIsProduct(n - 1, k);
      assert n * k == (n - 1) * k + k;
    }
  }

  lemma {:induction false} TimesGrows(m: int, n: int, k: nat)
    requires m <= n
    ensures Times(m, k) <= Times(n, k)
    decreases n - m
  {
    if 0 < n && m < n {
      TimesGrows(m, n - 1, k);
    }
  }

  /** With a limit of N >= 0 the counter stays between 0 and N, and retries taken plus retries
      left is N plus all refills; with a negative limit it never moves, and only `cancel` ends
      the session. Attempts and calls of the resolver are bounded by the retries, and the
      publisher index never leaves the list. */
  lemma RetryAccounting(limit: int, publishers: nat, callback: nat, es: seq<Event>)
    requires publishers > 0 && ValidRun(NewSubscription(limit, publishers, callback), es)
    ensures var t := Run(NewSubscription(limit, publishers, callback), es);
      && (limit >= 0 ==>
            && 0 <= t.retriesLeft <= limit && t.retries + t.retriesLeft == limit + t.refilled
            && t.attempts <= limit + 1 + t.refilled)
      && (limit < 0 ==> t.retriesLeft == limit && (t.closes > 0 ==> t.canceled))
      && (t.closes > 0 ==> t.canceled || t.retriesLeft == 0)
      && t.resolves <= t.attempts * publishers
      && (t.op.Some? && t.op.value.Resolving? ==> t.op.value.i < publishers)
  {
    var s := NewSubscription(limit, publishers, callback);
    NewIsInv(limit, publishers, callback);
    RunKeepsInv(s, es);
    var t := Run(s, es);
    hide Tokens, Callbacks, Deliveries, Stream, Run, ValidRun, NewSubscription;
    TimesIsProduct(t.attempts, publishers);
    if t.attempts == 0 {
      assert t.attempts * publishers == 0;
    }
  }

  /** Either nothing was refilled, or one payload was completed and at most `limit` refilled. */
  ghost predicate Refills(s: Subscription, t: Subscription) {
    || (t.completed == s.completed && t.refilled == s.refilled)
    || (t.completed == s.completed + 1 && s.refilled <= t.refilled <= s.refilled + s.limit)
  }

  /** One refill is at most N, and only a completed non-empty payload causes one. */
  lemma RefillPerPayload(s: Subscription, e: Event)
    requires Inv(s) && Enabled(s, e) && s.limit >= 0
    ensures Refills(s, Step(s, e))
  {
    RetriesInRange(s);
    if e.Strand? {
      assert Step(s, e) == RunTask(s);
      hide *;
      RefillRunTask(s);
    } else if Posts(e) {
      hide Inv, Want, ValidStage;
    } else {
      hide *;
      hide Refills;
      PlainStep(s, e);
      RefillsNothing(s, Step(s, e));
    }
  }

  lemma RefillsNothing(s: Subscription, t: Subscription)
    requires SameStrand(s, t)
    ensures Refills(s, t)
  {
  }

  lemma RetriesInRange(s: Subscription)
    requires Retries(s) && s.limit >= 0
    ensures 0 <= s.retriesLeft <= s.limit
  {
  }

  lemma RefillRunTask(s: Subscription)
    requires s.ran < |s.posted| && 0 <= s.retriesLeft <= s.limit
    ensures Refills(s, RunTask(s))
  {
    hide AfterRead;
    if s.posted[s.ran].ReadDone? {
      RefillAfterRead(s.(ran := s.ran + 1), s.posted[s.ran].read);
    }
  }

  lemma RefillAfterRead(s: Subscription, read: CompleteRead)
    requires 0 <= s.retriesLeft <= s.limit
    ensures Refills(s, AfterRead(s, read))
  {
    hide Complete;
  }

  /** Without a completed payload: at most N + 1 attempts and (N + 1) * L resolver calls. */
  lemma FruitlessAttempts(limit: nat, publishers: nat, callback: nat, es: seq<Event>)
    requires publishers > 0 && ValidRun(NewSubscription(limit, publishers, callback), es)
    requires Run(NewSubscription(limit, publishers, callback), es).completed == 0
    ensures var t := Run(NewSubscription(limit, publishers, callback), es);
      t.attempts <= limit + 1 && t.resolves <= (limit + 1) * publishers
  {
    var s := NewSubscription(limit, publishers, callback);
    NewIsInv(limit, publishers, callback);
    RunKeepsInv(s, es);
    hide *;
    FewAttempts(Run(s, es));
  }

  lemma FewAttempts(t: Subscription)
    requires Inv(t) && t.limit >= 0 && t.completed == 0
    ensures t.attempts <= t.limit + 1 && t.resolves <= (t.limit + 1) * t.publishers
  {
    hide Tokens, Callbacks, Deliveries, Stream;
    TimesGrows(t.attempts, t.limit + 1, t.publishers);
    TimesIsProduct(t.limit + 1, t.publishers);
  }

  // ----- Termination -----

  /** Steps that one attempt can take at most, without a message or an empty frame. */
  function AttemptCost(publishers: nat): nat { publishers + 12 }

  function OpCost(op: Op, publishers: nat): nat {
    match op
    case Resolving(i) => 11 + (if i < publishers then publishers - i else 0)
    case Connecting(_) => 11
    case Requesting => 10
    case Reading(Length) => 8
    case Reading(Content(_)) => 6
    case Reading(Discard(_, _)) => 4
    case Reading(Payload(_)) => 2
    case Backoff => AttemptCost(publishers)
  }

  function TaskCost(t: Task, publishers: nat): nat {
    match t
    case Requested(_) => 9
    case ReadDone(read) => OpCost(Reading(read.stage), publishers) - 1
    case ReadFailed(_) => 1
    case Deliver(_) => 1
    case ReadNext => 9
    case Install(_) => 1
  }

  function QueueCost(tasks: seq<Task>, publishers: nat): nat {
    if tasks == [] then 0 else TaskCost(tasks[0], publishers) + QueueCost(tasks[1..], publishers)
  }

  /** How many more steps the session can take on its own. */
  function Potential(s: Subscription): nat
    requires s.ran <= |s.posted|
  {
    (if s.op.Some? then OpCost(s.op.value, s.publishers) else 0)
    + QueueCost(Queue(s), s.publishers)
    + (if s.started then 0 else AttemptCost(s.publishers))
    + TimesNat(s.retriesLeft, AttemptCost(s.publishers))
  }

  function TimesNat(n: int, k: nat): (r: nat)
    ensures r == Times(n, k)
  {
    TimesGrows(0, if n < 0 then 0 else n, k);
    Times(n, k)
  }

  /** What a completed payload can add: a full set of retries and the next read. */
  function PayloadCost(s: Subscription): nat { TimesNat(s.limit, AttemptCost(s.publishers)) + 11 }

  /** Steps that come from outside. */
  function Outside(e: Event): nat {
    if e.SetCallback? then 2 else if e.Cancel? then 1 else 0
  }

  lemma {:induction false} QueueCostPost(tasks: seq<Task>, t: Task, publishers: nat)
    ensures QueueCost(tasks + [t], publishers) == QueueCost(tasks, publishers) + TaskCost(t, publishers)
  {
    if tasks == [] {
      assert ([t])[1..] == [];
    } else {
      QueueCostPost(tasks[1..], t, publishers);
      assert (tasks + [t])[1..] == tasks[1..] + [t];
    }
  }

  lemma PostPotential(s: Subscription, t: Task)
    requires s.ran <= |s.posted|
    ensures Potential(Post(s, t)) == Potential(s) + TaskCost(t, s.publishers)
  {
    QueueCostPost(Queue(s), t, s.publishers);
    assert Queue(Post(s, t)) == Queue(s) + [t];
  }

  /** Potential of a state whose running handler holds the only token. */
  lemma FailPotential(s: Subscription)
    requires s.ran <= |s.posted| && s.op.None? && s.started && s.retriesLeft >= 0
    ensures Potential(ConnectionFailed(s)) <= Potential(s)
  {
    hide QueueCost;
    assert Queue(ConnectionFailed(s)) == Queue(s);
  }

  lemma BeginPotential(s: Subscription, op: Op)
    requires s.ran <= |s.posted| && s.op.None? && s.started && s.retriesLeft >= 0
    ensures Potential(Begin(s, op)) <= Potential(s) + OpCost(op, s.publishers)
  {
    hide QueueCost;
    FailPotential(s);
  }

  lemma ResolvePotential(s: Subscription, i: nat)
    requires s.ran <= |s.posted| && s.op.None? && s.started && s.retriesLeft >= 0
    ensures Potential(Resolve(s, i)) <= Potential(s) + OpCost(Resolving(i), s.publishers)
  {
    hide QueueCost;
    FailPotential(s);
  }

  /** The potential gained by settling a read, against the counters it moves. */
  lemma MessagePotential(s: Subscription, h: Header, payload: seq<byte>)
    requires s.ran <= |s.posted| && s.op.None? && s.started && s.limit >= 0 && s.retriesLeft >= 0 && payload != []
    ensures Potential(MessageRead(s, h, payload)) <= Potential(s) + PayloadCost(s) - 1
    ensures MessageRead(s, h, payload).completed == s.completed + 1
    ensures MessageRead(s, h, payload).empties == s.empties
  {
    var t := Noted(s, Frame(h.kind, payload));
    assert Queue(t) == Queue(s);
    hide QueueCost, Queue;
    assert Potential(t) <= Potential(s) + PayloadCost(s) - 11;
    FailPotential(t);
    PostPotential(t, ReadNext);
    PostPotential(t, Deliver(payload));
    PostPotential(Post(t, Deliver(payload)), ReadNext);
  }

  lemma AfterReadPotential(s: Subscription, read: CompleteRead)
    requires s.limit >= 0
    requires s.ran <= |s.posted| && s.op.None? && s.started && s.retriesLeft >= 0
    ensures var t, cost := AfterRead(s, read), TaskCost(ReadDone(read), s.publishers);
      t.ran <= |t.posted|
      && Potential(t) + 1 <= Potential(s) + cost + 6 * (t.empties - s.empties)
                             + (if t.completed > s.completed then PayloadCost(s) else 0)
      && s.completed <= t.completed <= s.completed + 1
  {
    var t := s.(inbound := s.inbound + read.bytes);
    assert Queue(t) == Queue(s);
    assert read.stage.Length? || read.stage.Content? || read.stage.Discard? || read.stage.Payload?;
    CompleteShape(read);
    hide QueueCost, Queue, Complete, MessageRead, PayloadCost;
    match Complete(read.stage, read.bytes)
    case Next(st) => BeginPotential(t, Reading(st));
    case Malformed => FailPotential(t);
    case EmptyFrame(_) =>
      FailPotential(t);
      var u := t.(empties := s.empties + 1, settled := |t.inbound|);
      assert Potential(u) == Potential(t);
      BeginPotential(u, Reading(Length));
    case Message(h, payload) => MessagePotential(t, h, payload);
  }

  /** A read leads to a later stage of the same frame, or settles the frame. */
  lemma CompleteShape(read: CompleteRead)
    ensures match Complete(read.stage, read.bytes)
      case Next(st) => OpCost(Reading(st), 0) <= OpCost(Reading(read.stage), 0) - 2
      case Malformed => read.stage.Length?
      case EmptyFrame(_) => read.stage.Content? || read.stage.Discard?
      case Message(_, _) => read.stage.Payload?
  {
  }

  lemma QueuePotential(s: Subscription)
    requires s.ran < |s.posted|
    ensures Potential(s) == Potential(s.(ran := s.ran + 1)) + TaskCost(s.posted[s.ran], s.publishers)
  {
    assert Queue(s)[1..] == Queue(s.(ran := s.ran + 1));
  }

  /** A step that is not forced from outside takes at least one off the potential, unless it
      completes a payload or an empty frame. */
  ghost predicate Descends(s: Subscription, e: Event, t: Subscription)
    requires s.ran <= |s.posted|
  {
    && t.ran <= |t.posted|
    && s.empties <= t.empties && s.completed <= t.completed <= s.completed + 1
    && Potential(t) + 1 <= Potential(s) + Outside(e) + 6 * (t.empties - s.empties)
                           + (if t.completed > s.completed then PayloadCost(s) else 0)
  }

  lemma SamePotential(s: Subscription, t: Subscription)
    requires s.ran <= |s.posted| && t.op == s.op && t.posted == s.posted && t.ran == s.ran
    requires t.publishers == s.publishers && t.retriesLeft == s.retriesLeft && t.started == s.started
    ensures Potential(t) == Potential(s)
  {
  }

  lemma PlainTaskPotential(s: Subscription)
    requires s.ran < |s.posted| && 0 <= s.retriesLeft && !s.posted[s.ran].ReadDone?
    requires !s.posted[s.ran].Install? ==> s.op.None? && s.started
    ensures var t := RunTask(s);
      t.ran <= |t.posted| && t.empties == s.empties && t.completed == s.completed
      && Potential(t) + 1 <= Potential(s)
  {
    QueuePotential(s);
    var t := s.(ran := s.ran + 1);
    hide QueueCost, Queue, Potential;
    match s.posted[s.ran]
    case Deliver(payload) =>
      var u := t.(skipped := s.skipped + [payload]);
      SamePotential(t, u);
      SamePotential(t, t.(calls := s.calls + [Call(s.callback, payload, s.ran)]));
      FailPotential(u);
    case Install(callback) => SamePotential(t, RunTask(s));
    case Requested(_) =>
      FailPotential(t);
      BeginPotential(t, Reading(Length));
    case ReadFailed(_) => FailPotential(t);
    case ReadNext => BeginPotential(t, Reading(Length));
  }

  lemma RunTaskDescends(s: Subscription)
    requires s.ran < |s.posted| && 0 <= s.retriesLeft && 0 <= s.limit
    requires !s.posted[s.ran].Install? ==> s.op.None? && s.started
    ensures Descends(s, Strand, RunTask(s))
  {
    if s.posted[s.ran].ReadDone? {
      QueuePotential(s);
      AfterReadPotential(s.(ran := s.ran + 1), s.posted[s.ran].read);
    } else {
      PlainTaskPotential(s);
    }
  }

  /** The facts of the invariant that the potential needs. */
  lemma DescentFacts(s: Subscription)
    requires Inv(s) && s.limit >= 0
    ensures s.ran <= |s.posted| && s.retriesLeft >= 0
    ensures s.op.Some? ==> s.started && (s.op.value.Resolving? ==> s.op.value.i < s.publishers)
    ensures s.ran < |s.posted| && !s.posted[s.ran].Install? ==> s.op.None? && s.started
  {
    if s.ran < |s.posted| { QueuePop(s); }
    hide Continuations, Queue, Callbacks, Deliveries, Stream;
  }

  /** An operation ends: its cost is freed, and what follows costs less. */
  lemma OperationDescends(s: Subscription, e: Event)
    requires s.ran <= |s.posted| && s.retriesLeft >= 0 && s.started && s.op.Some? && Enabled(s, e)
    requires e.ResolveEnded? || e.ConnectEnded? || e.TimerFired?
    requires s.op.value.Resolving? ==> s.op.value.i < s.publishers
    ensures Descends(s, e, Step(s, e))
  {
    var free := s.(op := None);
    assert Potential(s) == Potential(free) + OpCost(s.op.value, s.publishers)
      by { assert Queue(free) == Queue(s); }
    hide QueueCost, Queue, Potential;
    FailPotential(free);
    match e
    case ResolveEnded(failed) =>
      BeginPotential(free, Connecting(s.op.value.i));
      ResolvePotential(free, s.op.value.i + 1);
    case ConnectEnded(failed) =>
      var u := free.(connected := Some(s.op.value.i), inbound := [], settled := 0, messages := [],
                     base := |s.received|);
      SamePotential(free, u);
      BeginPotential(u, Requesting);
    case TimerFired(failed) =>
      SamePotential(free, free.(closes := s.closes + 1));
      ResolvePotential(free, 0);
  }

  lemma CompletionDescends(s: Subscription, e: Event)
    requires s.ran <= |s.posted| && s.op.Some? && Enabled(s, e)
    requires e.WriteEnded? || e.ReadEnded? || e.ReadAborted?
    ensures Descends(s, e, Step(s, e))
  {
    var free := s.(op := None);
    assert Potential(s) == Potential(free) + OpCost(s.op.value, s.publishers)
      by { assert Queue(free) == Queue(s); }
    hide QueueCost, Queue, Potential;
    match e
    case WriteEnded(failed) => PostPotential(free, Requested(failed));
    case ReadEnded(bytes) => PostPotential(free, ReadDone(Arrival(s.op.value.stage, bytes)));
    case ReadAborted => PostPotential(free, ReadFailed(s.op.value.stage));
  }

  lemma StartDescends(s: Subscription)
    requires s.ran <= |s.posted| && s.op.None? && !s.started && s.retriesLeft >= 0
    ensures Descends(s, Start, Started(s))
  {
    var t := s.(started := true);
    assert Queue(t) == Queue(s);
    hide QueueCost, Queue;
    if !s.canceled { ResolvePotential(t, 0); }
  }

  lemma StepDescends(s: Subscription, e: Event)
    requires Inv(s) && Enabled(s, e) && s.limit >= 0
    ensures s.ran <= |s.posted| && Descends(s, e, Step(s, e))
  {
    DescentFacts(s);
    hide Inv, Potential;
    match e
    case Start => StartDescends(s);
    case Strand => RunTaskDescends(s);
    case SetCallback(callback) => PostPotential(s, Install(callback));
    case Cancel => SamePotential(s, s.(canceled := true));
    case ResolveEnded(_) => OperationDescends(s, e);
    case ConnectEnded(_) => OperationDescends(s, e);
    case TimerFired(_) => OperationDescends(s, e);
    case _ => CompletionDescends(s, e);
  }

  function OutsideSteps(es: seq<Event>): nat {
    if es == [] then 0 else Outside(es[0]) + OutsideSteps(es[1..])
  }

  /** The arithmetic of putting one step in front of a bounded run. */
  lemma DescentsAdd(steps: nat, p0: int, p1: int, p2: int, out0: int, out1: int,
                    e0: int, e1: int, e2: int, c0: int, c1: int, c2: int, w: nat)
    requires p1 + 1 <= p0 + out0 + 6 * (e1 - e0) + (if c1 > c0 then w else 0)
    requires steps - 1 + p2 <= p1 + out1 + 6 * (e2 - e1) + Times(c2 - c1, w)
    requires c0 <= c1 <= c0 + 1 && c1 <= c2
    ensures steps + p2 <= p0 + (out0 + out1) + 6 * (e2 - e0) + Times(c2 - c0, w)
  {
  }

  lemma StrandInBounds(s: Subscription)
    requires Inv(s)
    ensures s.ran <= |s.posted|
  {
  }

  /** What a run of `n` steps from `s` to `t` costs, `out` of it from outside. */
  ghost predicate Pays(s: Subscription, t: Subscription, n: nat, out: nat) {
    && s.ran <= |s.posted| && t.ran <= |t.posted|
    && s.empties <= t.empties && s.completed <= t.completed
    && n + Potential(t) <= Potential(s) + out + 6 * (t.empties - s.empties)
                           + Times(t.completed - s.completed, PayloadCost(s))
  }

  lemma PaysNothing(s: Subscription)
    requires Inv(s)
    ensures Pays(s, s, 0, 0)
  {
    StrandInBounds(s);
    hide Potential, PayloadCost, Inv;
    assert Times(0, PayloadCost(s)) == 0;
  }

  lemma SamePayloadCost(s: Subscription, t: Subscription)
    requires t.limit == s.limit && t.publishers == s.publishers
    ensures PayloadCost(t) == PayloadCost(s)
  {
  }

  lemma PaysMore(s: Subscription, e: Event, u: Subscription, t: Subscription, n: nat, out: nat)
    requires s.ran <= |s.posted| && Descends(s, e, u) && PayloadCost(u) == PayloadCost(s) && Pays(u, t, n, out)
    ensures Pays(s, t, n + 1, Outside(e) + out)
  {
    hide Potential, PayloadCost, Outside, Times;
    DescentsAdd(n + 1, Potential(s), Potential(u), Potential(t), Outside(e), out,
                s.empties, u.empties, t.empties, s.completed, u.completed, t.completed, PayloadCost(s));
  }

  lemma PaysStep(s: Subscription, e: Event, t: Subscription, n: nat, out: nat)
    requires Inv(s) && Enabled(s, e) && s.limit >= 0 && Pays(Step(s, e), t, n, out)
    ensures Pays(s, t, n + 1, Outside(e) + out)
  {
    hide *;
    StepDescends(s, e);
    StepKeepsInv(s, e);
    SamePayloadCost(s, Step(s, e));
    PaysMore(s, e, Step(s, e), t, n, out);
  }

  lemma {:induction false} RunDescends(s: Subscription, es: seq<Event>)
    requires Inv(s) && ValidRun(s, es) && s.limit >= 0
    ensures Pays(s, Run(s, es), |es|, OutsideSteps(es))
    decreases |es|
  {
    hide Inv, Step, Enabled, Pays, Outside;
    if es == [] {
      PaysNothing(s);
    } else {
      StepKeepsInv(s, es[0]);
      RunDescends(Step(s, es[0]), es[1..]);
      PaysStep(s, es[0], Run(s, es), |es| - 1, OutsideSteps(es[1..]));
    }
  }

  lemma NewPotential(limit: nat, publishers: nat, callback: nat)
    ensures Potential(NewSubscription(limit, publishers, callback)) == (limit + 1) * (publishers + 12) + 1
  {
    var s := NewSubscription(limit, publishers, callback);
    QueueCostPost([], Install(callback), publishers);
    assert Queue(s) == [] + [Install(callback)];
    TimesIsProduct(limit, publishers + 12);
    assert (limit + 1) * (publishers + 12) == limit * (publishers + 12) + (publishers + 12);
  }

  /** With a limit of N >= 0 and L publishers, every run is over after at most (N + 1)(L + 12) + 1
      steps, 6 more for each empty frame, N(L + 12) + 11 more for each completed payload, and those
      that `setCallback` and `cancel` bring in. In particular reconnection without success ends. */
  lemma RunsAreBounded(limit: nat, publishers: nat, callback: nat, es: seq<Event>)
    requires publishers > 0 && ValidRun(NewSubscription(limit, publishers, callback), es)
    ensures var t := Run(NewSubscription(limit, publishers, callback), es);
      |es| <= (limit + 1) * (publishers + 12) + 1 + 6 * t.empties
              + t.completed * (limit * (publishers + 12) + 11) + OutsideSteps(es)
  {
    var s := NewSubscription(limit, publishers, callback);
    NewIsInv(limit, publishers, callback);
    NewPotential(limit, publishers, callback);
    RunDescends(s, es);
    NewPayloadCost(limit, publishers, callback);
    hide Potential, PayloadCost, Pays, Run, ValidRun, Inv, OutsideSteps;
    PaysInFull(s, Run(s, es), |es|, OutsideSteps(es));
  }

  lemma NewPayloadCost(limit: nat, publishers: nat, callback: nat)
    ensures PayloadCost(NewSubscription(limit, publishers, callback)) == limit * (publishers + 12) + 11
  {
    TimesIsProduct(limit, publishers + 12);
  }

  lemma PaysInFull(s: Subscription, t: Subscription, n: nat, out: nat)
    requires Pays(s, t, n, out) && s.empties == 0 && s.completed == 0
    ensures n <= Potential(s) + 6 * t.empties + t.completed * PayloadCost(s) + out
  {
    hide Potential, PayloadCost;
    TimesIsProduct(t.completed, PayloadCost(s));
    if t.completed == 0 {
      assert t.completed * PayloadCost(s) == 0;
    }
  }

  /** A session with a live continuation can always go on by itself: a run stops only when the
      session has ended. */
  lemma NeverStuck(s: Subscription)
    requires Inv(s) && Live(s) > 0
    ensures exists e :: Enabled(s, e) && Outside(e) == 0
  {
    hide Retries, Resolves, Callbacks, Deliveries, Stream;
    if s.op.Some? {
      var e := match s.op.value
        case Resolving(_) => ResolveEnded(true)
        case Connecting(_) => ConnectEnded(true)
        case Requesting => WriteEnded(true)
        case Reading(_) => ReadAborted
        case Backoff => TimerFired(false);
      assert Enabled(s, e);
    } else {
      assert Queue(s) != [];
      assert Enabled(s, Strand);
    }
  }

  // ----- Callbacks -----

  /** Callbacks are called with the received payloads in the order of the frames, each with the
      callback installed last ahead of it in the strand, never with none; at most one callback
      task is queued, and while it is, no further read has been started. */
  lemma CallbacksInFrameOrder(limit: int, publishers: nat, callback: nat, es: seq<Event>)
    requires publishers > 0 && ValidRun(NewSubscription(limit, publishers, callback), es)
    ensures var t := Run(NewSubscription(limit, publishers, callback), es);
      && t.ran <= |t.posted| && |QueuedPayload(Queued(t))| <= 1
      && Payloads(t.calls) <= t.received
      && (!t.canceled ==> t.received == Payloads(t.calls) + QueuedPayload(Queued(t)))
      && (QueuedPayload(Queued(t)) != [] ==> t.op.None?)
      && forall c | c in t.calls ::
           && 0 < c.position < |t.posted| && t.posted[c.position] == Deliver(c.payload)
           && c.callback.Some? && c.callback == LastInstall(t.posted[..c.position])
  {
    var s := NewSubscription(limit, publishers, callback);
    NewIsInv(limit, publishers, callback);
    RunKeepsInv(s, es);
    var t := Run(s, es);
    hide Run, ValidRun, NewSubscription, Continuations, Retries, Resolves, Stream;
    assert t.canceled || t.skipped == [];
    assert Payloads(t.calls) + [] == Payloads(t.calls);
  }
}
