/** Which entries of the publisher list an attempt to connect contacts, and when the first entry
    that works is the one that is used. */
module SubscriberAttempts {
  import opened Bytes
  import opened TcpHeader
  import opened FrameReader
  import opened SubscriberProtocol
  import opened SubscriberTheorems
  import opened SubscriberRuns

  // ----- One step of an attempt -----

  /** Resolving entry `i` fails in a session that is not canceled. */
  predicate PassesOver(s: Subscription, e: Event, i: nat) {
    e == ResolveEnded(true) && s.op == Some(Resolving(i)) && !s.canceled
  }

  /** Entry `i` has been connected to, and the request is being sent. */
  predicate Connects(s: Subscription, i: nat) { s.op == Some(Requesting) && s.connected == Some(i) }

  /** Where a step of the same attempt leads to. */
  ghost predicate Advances(s: Subscription, e: Event, t: Subscription) {
    && t.canceled == (s.canceled || e.Cancel?)
    && (!Contacting(s.op) ==>
          !Contacting(t.op) && (t.op == Some(Requesting) ==> s.op == t.op && t.connected == s.connected))
    && (Contacting(s.op) && s.op.value.Resolving? ==>
          var i := s.op.value.i;
          if e == ResolveEnded(true) && !s.canceled && i + 1 < s.publishers then t.op == Some(Resolving(i + 1))
          else if e == ResolveEnded(false) && !s.canceled then t.op == Some(Connecting(i))
          else if e.ResolveEnded? then !Contacting(t.op) && t.op != Some(Requesting)
          else t.op == s.op)
    && (Contacting(s.op) && s.op.value.Connecting? ==>
          if e == ConnectEnded(false) && !s.canceled then Connects(t, s.op.value.i)
          else if e.ConnectEnded? then !Contacting(t.op) && t.op != Some(Requesting)
          else t.op == s.op)
  }

  lemma FailureContactsNothing(s: Subscription)
    requires s.op.None?
    ensures var t := ConnectionFailed(s);
      t.canceled == s.canceled && !Contacting(t.op) && t.op != Some(Requesting)
  {
  }

  lemma AdvancesByOperation(s: Subscription, e: Event)
    requires Enabled(s, e) && (e.ResolveEnded? || e.ConnectEnded?)
    ensures Advances(s, e, Step(s, e))
  {
    var free := s.(op := None);
    FailureContactsNothing(free);
    if e.ConnectEnded? {
      FailureContactsNothing(free.(connected := Some(s.op.value.i), inbound := [], settled := 0, messages := [],
                                   base := |s.received|));
    }
    hide ConnectionFailed;
  }

  lemma AdvancesByTask(s: Subscription)
    requires s.ran < |s.posted| && (!s.posted[s.ran].Install? ==> s.op.None?)
    ensures Advances(s, Strand, RunTask(s))
  {
    RunTaskResolves(s);
    TaskKeepsCancel(s);
    if !s.posted[s.ran].Install? {
      hide RunTask;
    }
  }

  lemma AdvancesElse(s: Subscription, e: Event)
    requires Enabled(s, e) && (Posts(e) || e.Cancel?)
    ensures Advances(s, e, Step(s, e))
  {
    hide Want, ValidStage;
  }

  /** Inside an attempt: the retry timer does not fire. */
  lemma AdvancesStep(s: Subscription, e: Event)
    requires Inv(s) && s.attempts > 0 && Enabled(s, e) && !e.TimerFired?
    ensures Inv(Step(s, e)) && Step(s, e).attempts > 0 && Step(s, e).publishers == s.publishers
    ensures Advances(s, e, Step(s, e))
  {
    StepKeepsInv(s, e);
    RunningHasNoOp(s);
    AttemptsGrow(s, e);
    hide Inv, Advances;
    match e
    case ResolveEnded(_) => AdvancesByOperation(s, e);
    case ConnectEnded(_) => AdvancesByOperation(s, e);
    case Strand =>
      assert Step(s, e) == RunTask(s);
      hide RunTask;
      AdvancesByTask(s);
    case _ => AdvancesElse(s, e);
  }

  lemma AttemptsGrow(s: Subscription, e: Event)
    requires Inv(s) && s.attempts > 0 && Enabled(s, e) && !e.TimerFired?
    ensures Step(s, e).attempts > 0 && !e.Start?
  {
    RunningHasNoOp(s);
    LaunchedIsStarted(s);
    hide Inv;
    if e.ResolveEnded? {
      hide ConnectionFailed, Begin;
      HandlersLeaveResolver(s.(op := None), Reading(Length));
      assert Begin(s.(op := None), Connecting(s.op.value.i)).attempts == s.attempts by { BeginKeepsAttempts(s); }
    } else {
      hide Step;
      ResolvesUntouched(s, e);
    }
  }

  lemma BeginKeepsAttempts(s: Subscription)
    ensures forall op :: Begin(s.(op := None), op).attempts == s.attempts
  {
  }

  // ----- Attempts -----

  ghost predicate OneAttempt(es: seq<Event>) { forall e | e in es :: !e.TimerFired? }

  /** At some moment of the run entry `j` is being resolved or connected to. */
  ghost predicate Contacted(s: Subscription, es: seq<Event>, j: nat)
    requires ValidRun(s, es)
    decreases es
  {
    (Contacting(s.op) && s.op.value.i == j) || (es != [] && Contacted(Step(s, es[0]), es[1..], j))
  }

  ghost predicate PassedOver(s: Subscription, es: seq<Event>, i: nat)
    requires ValidRun(s, es)
    decreases es
  {
    es != [] && (PassesOver(s, es[0], i) || PassedOver(Step(s, es[0]), es[1..], i))
  }

  /** Once the attempt has connected or failed it contacts nothing more. */
  lemma {:induction false} BehindContact(s: Subscription, es: seq<Event>, j: nat)
    requires Inv(s) && s.attempts > 0 && ValidRun(s, es) && OneAttempt(es) && !Contacting(s.op)
    ensures !Contacted(s, es, j) && !PassedOver(s, es, j)
    decreases es
  {
    if es != [] {
      assert es[0] in es && forall e | e in es[1..] :: e in es;
      AdvancesStep(s, es[0]);
      hide Inv, Step, Enabled;
      BehindContact(Step(s, es[0]), es[1..], j);
    }
  }

  lemma {:induction false} DuringConnect(s: Subscription, es: seq<Event>, j: nat)
    requires Inv(s) && s.attempts > 0 && ValidRun(s, es) && OneAttempt(es)
    requires Contacting(s.op) && s.op.value.Connecting?
    ensures Contacted(s, es, j) <==> j == s.op.value.i
    ensures !PassedOver(s, es, j)
    decreases es
  {
    if es != [] {
      assert es[0] in es && forall e | e in es[1..] :: e in es;
      AdvancesStep(s, es[0]);
      hide Inv, Step, Enabled;
      if Contacting(Step(s, es[0]).op) {
        DuringConnect(Step(s, es[0]), es[1..], j);
      } else {
        BehindContact(Step(s, es[0]), es[1..], j);
      }
    }
  }

  /** Resolving fails at every entry from `i` up to, but not including, `j`. */
  ghost predicate AllPassed(s: Subscription, es: seq<Event>, i: nat, j: nat)
    requires ValidRun(s, es)
  {
    forall k | i <= k < j :: PassedOver(s, es, k)
  }

  lemma {:induction false} FromEntry(s: Subscription, es: seq<Event>, j: nat)
    requires Inv(s) && s.attempts > 0 && ValidRun(s, es) && OneAttempt(es)
    requires Contacting(s.op) && s.op.value.Resolving?
    ensures var i := s.op.value.i;
      Contacted(s, es, j) <==> j == i || (i < j < s.publishers && AllPassed(s, es, i, j))
    decreases es
  {
    var i := s.op.value.i;
    if es == [] {
      if i < j { assert !PassedOver(s, es, i); }
    } else {
      OneAttemptTail(es);
      AdvancesStep(s, es[0]);
      var t := Step(s, es[0]);
      FromResolving(s, es[0], t, i);
      if Contacting(t.op) && t.op.value.Resolving? {
        hide *;
        FromEntry(t, es[1..], j);
        PassedFrom(s, es, i, j);
        GoesOn(s, es, i, j);
      } else {
        hide *;
        StopsAtEntry(s, es, i, j);
        NothingBehind(s, es, i, j);
      }
    }
  }

  lemma OneAttemptTail(es: seq<Event>)
    requires es != [] && OneAttempt(es)
    ensures !es[0].TimerFired? && OneAttempt(es[1..])
  {
    assert es[0] in es && forall e | e in es[1..] :: e in es;
  }

  /** A step that starts while entry `i` is being resolved. */
  lemma FromResolving(s: Subscription, e: Event, t: Subscription, i: nat)
    requires Advances(s, e, t) && s.op == Some(Resolving(i))
    ensures Contacting(t.op) && t.op.value.Resolving? ==>
      || (t.op == s.op && !PassesOver(s, e, i))
      || (t.op == Some(Resolving(i + 1)) && PassesOver(s, e, i) && i + 1 < s.publishers)
    ensures !(Contacting(t.op) && t.op.value.Resolving?) ==>
      && (PassesOver(s, e, i) ==> i + 1 >= s.publishers)
      && (Contacting(t.op) ==> t.op.value.i == i)
  {
  }

  /** The attempt does not go on to another entry. */
  lemma StopsAtEntry(s: Subscription, es: seq<Event>, i: nat, j: nat)
    requires es != [] && ValidRun(s, es) && OneAttempt(es[1..])
    requires var t := Step(s, es[0]);
      Inv(t) && t.attempts > 0 && !(Contacting(t.op) && t.op.value.Resolving?)
      && (Contacting(t.op) ==> t.op.value.i == i)
    ensures var t := Step(s, es[0]); !PassedOver(t, es[1..], i) && (Contacted(t, es[1..], j) ==> j == i)
  {
    var t := Step(s, es[0]);
    hide Inv, Step, Enabled;
    if Contacting(t.op) {
      DuringConnect(t, es[1..], i);
      DuringConnect(t, es[1..], j);
    } else {
      BehindContact(t, es[1..], i);
      BehindContact(t, es[1..], j);
    }
  }

  lemma NothingBehind(s: Subscription, es: seq<Event>, i: nat, j: nat)
    requires es != [] && ValidRun(s, es) && s.op == Some(Resolving(i))
    requires PassesOver(s, es[0], i) ==> i + 1 >= s.publishers
    requires var t := Step(s, es[0]); !PassedOver(t, es[1..], i) && (Contacted(t, es[1..], j) ==> j == i)
    ensures Contacted(s, es, j) <==> j == i || (i < j < s.publishers && AllPassed(s, es, i, j))
  {
    hide Step, Enabled, PassesOver;
    if i < j < s.publishers { assert !PassedOver(s, es, i); }
  }

  lemma GoesOn(s: Subscription, es: seq<Event>, i: nat, j: nat)
    requires es != [] && ValidRun(s, es) && s.op == Some(Resolving(i))
    requires var t := Step(s, es[0]);
      var next := if PassesOver(s, es[0], i) then i + 1 else i;
      && t.publishers == s.publishers && (PassesOver(s, es[0], i) ==> next < s.publishers)
      && (Contacted(t, es[1..], j) <==> j == next || (next < j < t.publishers && AllPassed(t, es[1..], next, j)))
      && (AllPassed(s, es, i, j) <==> AllPassed(t, es[1..], next, j))
    ensures Contacted(s, es, j) <==> j == i || (i < j < s.publishers && AllPassed(s, es, i, j))
  {
    hide Step, Enabled, PassesOver;
  }

  /** What is passed over behind the first event of an attempt that goes on resolving. */
  lemma PassedFrom(s: Subscription, es: seq<Event>, i: nat, j: nat)
    requires es != [] && ValidRun(s, es) && s.op == Some(Resolving(i))
    requires var t := Step(s, es[0]);
      || (t.op == s.op && !PassesOver(s, es[0], i))
      || (t.op == Some(Resolving(i + 1)) && PassesOver(s, es[0], i))
    ensures var t := Step(s, es[0]);
      AllPassed(s, es, i, j) <==> AllPassed(t, es[1..], if PassesOver(s, es[0], i) then i + 1 else i, j)
  {
    hide Step, Enabled;
    var t := Step(s, es[0]);
    assert forall k :: PassedOver(s, es, k) <==> PassesOver(s, es[0], k) || PassedOver(t, es[1..], k);
  }

  /** In every attempt of every run, an entry of the publisher list is contacted if and only if
      resolving has failed at every entry before it: failing to connect leads to no other entry. */
  lemma EntryContactedIff(limit: int, publishers: nat, callback: nat, before: seq<Event>, attempt: seq<Event>, j: nat)
    requires publishers > 0 && ValidRun(NewSubscription(limit, publishers, callback), before)
    requires Run(NewSubscription(limit, publishers, callback), before).op == Some(Resolving(0))
    requires ValidRun(Run(NewSubscription(limit, publishers, callback), before), attempt) && OneAttempt(attempt)
    ensures var s := Run(NewSubscription(limit, publishers, callback), before);
      Contacted(s, attempt, j) <==> j < publishers && AllPassed(s, attempt, 0, j)
  {
    var s := NewSubscription(limit, publishers, callback);
    NewIsInv(limit, publishers, callback);
    RunKeepsInv(s, before);
    assert s.publishers == publishers;
    hide *;
    FromFirstEntry(Run(s, before), attempt, j);
  }

  lemma FromFirstEntry(s: Subscription, es: seq<Event>, j: nat)
    requires Inv(s) && s.op == Some(Resolving(0)) && ValidRun(s, es) && OneAttempt(es)
    ensures Contacted(s, es, j) <==> j < s.publishers && AllPassed(s, es, 0, j)
  {
    ResolvingIsLaunched(s);
    assert s.publishers > 0;
    hide Inv, PassedOver, Contacted;
    FromEntry(s, es, j);
  }

  lemma ResolvingIsLaunched(s: Subscription)
    requires Inv(s)
    ensures Contacting(s.op) ==> s.attempts > 0
  {
    hide Retries, Resolves, Callbacks, Deliveries, Stream, Continuations;
  }

  // ----- Whole runs -----

  predicate BehindFirst(op: Option<Op>) { Contacting(op) && op.value.i > 0 }

  /** Some entry behind the first is contacted. */
  ghost predicate FallsBack(s: Subscription, es: seq<Event>)
    requires ValidRun(s, es)
    decreases es
  {
    BehindFirst(s.op) || (es != [] && FallsBack(Step(s, es[0]), es[1..]))
  }

  lemma FallBackStep(s: Subscription, e: Event)
    requires Inv(s) && Enabled(s, e) && !BehindFirst(s.op)
    ensures BehindFirst(Step(s, e).op) <==> PassesOver(s, e, 0) && s.publishers > 1
  {
    if s.attempts > 0 && !e.TimerFired? {
      AdvancesStep(s, e);
      hide *;
      AdvancesBehindFirst(s, e, Step(s, e));
    } else {
      NotLaunchedYet(s);
      hide *;
      FirstContact(s, e);
    }
  }

  lemma AdvancesBehindFirst(s: Subscription, e: Event, t: Subscription)
    requires Advances(s, e, t) && !BehindFirst(s.op)
    ensures BehindFirst(t.op) <==> PassesOver(s, e, 0) && s.publishers > 1
  {
  }

  /** A new attempt starts at the first entry. */
  lemma FirstContact(s: Subscription, e: Event)
    requires Enabled(s, e) && (e.TimerFired? || s.op.None?)
    ensures !BehindFirst(Step(s, e).op) && !PassesOver(s, e, 0)
  {
    if e.Strand? {
      assert Step(s, e) == RunTask(s);
      hide RunTask;
      RunTaskResolves(s);
    } else {
      hide Want, ValidStage;
    }
  }

  lemma NotLaunchedYet(s: Subscription)
    requires Inv(s)
    ensures s.attempts == 0 ==> s.op.None?
  {
    hide Retries, Resolves, Callbacks, Deliveries, Stream, Continuations;
  }

  lemma {:induction false} FallBackRun(s: Subscription, es: seq<Event>)
    requires Inv(s) && ValidRun(s, es) && !BehindFirst(s.op)
    ensures FallsBack(s, es) <==> s.publishers > 1 && PassedOver(s, es, 0)
    decreases es
  {
    if es != [] {
      FallBackStep(s, es[0]);
      StepKeepsInv(s, es[0]);
      hide Inv, Step, Enabled, BehindFirst, PassesOver;
      if !BehindFirst(Step(s, es[0]).op) {
        FallBackRun(Step(s, es[0]), es[1..]);
      } else {
        assert FallsBack(Step(s, es[0]), es[1..]);
      }
    }
  }

  /** In a whole run, with any number of attempts: an entry behind the first is ever contacted if
      and only if there is one and resolving the first entry has failed. */
  lemma FallsBackIff(limit: int, publishers: nat, callback: nat, es: seq<Event>)
    requires publishers > 0 && ValidRun(NewSubscription(limit, publishers, callback), es)
    ensures FallsBack(NewSubscription(limit, publishers, callback), es)
            <==> publishers > 1 && PassedOver(NewSubscription(limit, publishers, callback), es, 0)
  {
    NewIsInv(limit, publishers, callback);
    FallBackRun(NewSubscription(limit, publishers, callback), es);
  }

  /** The failing input: the first entry resolves and refuses the connection. The session waits
      and starts over at the same entry, and the second one is never contacted. */
  lemma RefusedEntryIsRetried(limit: int, callback: nat) returns (es: seq<Event>)
    requires limit != 0
    ensures es == [Start, ResolveEnded(false), ConnectEnded(true), TimerFired(false)]
    ensures ValidRun(NewSubscription(limit, 2, callback), es)
    ensures Run(NewSubscription(limit, 2, callback), es).op == Some(Resolving(0))
    ensures !FallsBack(NewSubscription(limit, 2, callback), es)
  {
    var s0 := NewSubscription(limit, 2, callback);
    var s1 := Step(s0, Start);
    var s2 := Step(s1, ResolveEnded(false));
    var s3 := Step(s2, ConnectEnded(true));
    var s4 := Step(s3, TimerFired(false));
    assert s4.op == Some(Resolving(0)) && s3.op == Some(Backoff);
    assert Enabled(s1, ResolveEnded(false)) && Enabled(s2, ConnectEnded(true)) && Enabled(s3, TimerFired(false));
    assert !PassesOver(s0, Start, 0);
    hide Step, Enabled;
    es := Prepend(s3, TimerFired(false), []);
    es := Prepend(s2, ConnectEnded(true), es);
    es := Prepend(s1, ResolveEnded(false), es);
    es := Prepend(s0, Start, es);
    SuccessPassesNothing(s0, es);
    FallsBackIff(limit, 2, callback, es);
  }

  lemma {:induction false} SuccessPassesNothing(s: Subscription, es: seq<Event>)
    requires ValidRun(s, es) && forall e | e in es :: e != ResolveEnded(true)
    ensures !PassedOver(s, es, 0)
    decreases es
  {
    if es != [] {
      assert es[0] in es && forall e | e in es[1..] :: e in es;
      SuccessPassesNothing(Step(s, es[0]), es[1..]);
    }
  }

  // ----- The first entry that works -----

  /** Whether the name of an entry can be resolved, and whether it accepts connections. */
  datatype Entry = Entry(resolves: bool, accepts: bool)

  /** The first entry from `i` on that resolves, or the length of the list. */
  function FirstResolving(list: seq<Entry>, i: nat): (k: nat)
    requires i <= |list|
    ensures i <= k <= |list| && (k < |list| ==> list[k].resolves)
    ensures forall m | i <= m < k :: !list[m].resolves
    decreases |list| - i
  {
    if i == |list| || list[i].resolves then i else FirstResolving(list, i + 1)
  }

  /** The first entry from `i` on that resolves and accepts, or the length of the list. */
  function FirstWorking(list: seq<Entry>, i: nat): (k: nat)
    requires i <= |list|
    ensures i <= k <= |list| && (k < |list| ==> list[k].resolves && list[k].accepts)
    ensures forall m | i <= m < k :: !(list[m].resolves && list[m].accepts)
    decreases |list| - i
  {
    if i == |list| || (list[i].resolves && list[i].accepts) then i else FirstWorking(list, i + 1)
  }

  /** The outcome of an event, if it is one of the resolver or of a connect, is that of the list. */
  ghost predicate Answers(s: Subscription, e: Event, list: seq<Entry>) {
    Contacting(s.op) && s.op.value.i < |list| ==>
      && (s.op.value.Resolving? && e.ResolveEnded? ==> e.failed == !list[s.op.value.i].resolves)
      && (s.op.value.Connecting? && e.ConnectEnded? ==> e.failed == !list[s.op.value.i].accepts)
  }

  ghost predicate Follows(s: Subscription, es: seq<Event>, list: seq<Entry>)
    requires ValidRun(s, es)
    decreases es
  {
    es == [] || (Answers(s, es[0], list) && Follows(Step(s, es[0]), es[1..], list))
  }

  /** The session uses entry `j`. */
  ghost predicate Uses(s: Subscription, es: seq<Event>, j: nat)
    requires ValidRun(s, es)
    decreases es
  {
    Connects(s, j) || (es != [] && Uses(Step(s, es[0]), es[1..], j))
  }

  /** An attempt in a session that nobody cancels, to its decision. */
  ghost predicate Decided(s: Subscription, es: seq<Event>)
    requires ValidRun(s, es)
  {
    OneAttempt(es) && (forall e | e in es :: !e.Cancel?) && !Contacting(Run(s, es).op)
  }

  lemma DecidedTail(s: Subscription, es: seq<Event>)
    requires es != [] && ValidRun(s, es) && Decided(s, es)
    ensures Decided(Step(s, es[0]), es[1..]) && !es[0].TimerFired? && !es[0].Cancel?
  {
    hide Step, Enabled;
    assert es[0] in es && forall e | e in es[1..] :: e in es;
  }

  lemma {:induction false} UsedOnce(s: Subscription, es: seq<Event>, j: nat)
    requires Inv(s) && s.attempts > 0 && ValidRun(s, es) && Decided(s, es) && !Contacting(s.op)
    ensures Uses(s, es, j) <==> Connects(s, j)
    decreases es
  {
    if es != [] {
      DecidedTail(s, es);
      AdvancesStep(s, es[0]);
      hide Inv, Step, Enabled, Decided;
      UsedOnce(Step(s, es[0]), es[1..], j);
    }
  }

  /** The entry an attempt will use from where it is. */
  function Choice(op: Option<Op>, list: seq<Entry>): nat
    requires Contacting(op) ==> op.value.i < |list|
  {
    if !Contacting(op) then |list|
    else
      var k := if op.value.Resolving? then FirstResolving(list, op.value.i) else op.value.i;
      if k < |list| && list[k].accepts then k else |list|
  }

  lemma {:induction false} UsesChoice(s: Subscription, es: seq<Event>, list: seq<Entry>, j: nat)
    requires Inv(s) && s.attempts > 0 && !s.canceled && ValidRun(s, es) && Decided(s, es)
    requires |list| == s.publishers && Follows(s, es, list)
    requires Contacting(s.op) && s.op.value.i < |list|
    ensures Uses(s, es, j) <==> j < |list| && j == Choice(s.op, list)
    decreases es
  {
    if es != [] {
      DecidedTail(s, es);
      AdvancesStep(s, es[0]);
      var t := Step(s, es[0]);
      hide Inv, Step, Enabled, Decided;
      ChoiceStays(s, es[0], t, list);
      if Contacting(t.op) {
        UsesChoice(t, es[1..], list, j);
      } else {
        UsedOnce(t, es[1..], j);
      }
    }
  }

  /** A step of the attempt keeps the choice, or makes the connection. */
  lemma ChoiceStays(s: Subscription, e: Event, t: Subscription, list: seq<Entry>)
    requires !s.canceled && !e.Cancel? && |list| == s.publishers && Answers(s, e, list)
    requires Contacting(s.op) && s.op.value.i < |list| && Advances(s, e, t)
    ensures !t.canceled && s.op != Some(Requesting)
    ensures Contacting(t.op) ==> t.op.value.i < |list| && Choice(t.op, list) == Choice(s.op, list)
    ensures !Contacting(t.op) ==>
      forall j: nat :: Connects(t, j) <==> j < |list| && j == Choice(s.op, list)
  {
  }

  /** A decided attempt, of a session that is not canceled, whose operations end as the list of
      entries says, connects to the first entry that resolves if that one accepts, and otherwise
      to none. So it connects to the first entry that works, if there is one, exactly when no
      entry works or the first one that resolves does. */
  lemma FirstWorkingIsUsedIff(s: Subscription, es: seq<Event>, list: seq<Entry>)
    requires Inv(s) && s.op == Some(Resolving(0)) && !s.canceled && ValidRun(s, es) && Decided(s, es)
    requires |list| == s.publishers && Follows(s, es, list)
    ensures forall j | 0 <= j < |list| :: Uses(s, es, j) <==> j == FirstResolving(list, 0) && list[j].accepts
    ensures (forall j | 0 <= j < |list| :: Uses(s, es, j) <==> j == FirstWorking(list, 0))
            <==> FirstWorking(list, 0) == |list| || FirstWorking(list, 0) == FirstResolving(list, 0)
  {
    ResolvingIsLaunched(s);
    assert |list| > 0;
    hide Inv, Decided, Follows, Uses;
    forall j | 0 <= j < |list|
      ensures Uses(s, es, j) <==> j == FirstResolving(list, 0) && list[j].accepts
    {
      UsesChoice(s, es, list, j);
    }
    var w := FirstWorking(list, 0);
    if w < |list| {
      assert Uses(s, es, w) <==> w == FirstResolving(list, 0);
    }
  }
}
