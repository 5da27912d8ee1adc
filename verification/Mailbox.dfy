/** The one-slot mailbox between the sessions of a subscriber and its callback thread, and the
    switch between synchronous and asynchronous callbacks, as interleaved atomic steps. */
module Mailbox {
  import opened Bytes

  /** The callback thread; `Holding(n)` runs the user's callback on buffer `n`. */
  datatype Worker = NoThread | Waiting | Holding(n: nat) | Exited

  /** How far a `setCallback` (for the given mode) or a `cancel` has come. */
  datatype Setter = Idle | Stopping(next: Mode) | Joined(next: Mode) | Clearing | Spawning

  datatype Mode = Synchronous | Asynchronous | Canceled

  /** `slot`, `sync` and `stop` are the members `last_callback_data_`,
      `user_callback_is_synchronous_` and `callback_thread_stop_`. Buffers are numbered in the
      order in which session tasks bring them; each list tells what became of some of them. */
  datatype Mail = Mail(
    slot: Option<nat>, sync: bool, stop: bool, worker: Worker, setter: Setter, arrivals: nat,
    processed: seq<nat>, overwritten: seq<nat>, cleared: seq<nat>, ranSync: seq<nat>, ignored: seq<nat>)

  const NEW_MAIL := Mail(None, true, true, NoThread, Idle, 0, [], [], [], [], [])

  function SlotOf(slot: Option<nat>): seq<nat> { if slot.Some? then [slot.value] else [] }

  function HeldBy(w: Worker): seq<nat> { if w.Holding? then [w.n] else [] }

  // ----- Steps -----

  /** A session task with the storing callback. */
  function Stored(m: Mail): Mail {
    var t := m.(arrivals := m.arrivals + 1);
    if m.sync then t.(ignored := m.ignored + [m.arrivals])
    else t.(slot := Some(m.arrivals), overwritten := m.overwritten + SlotOf(m.slot))
  }

  /** A session task with a synchronous callback. */
  function CalledSync(m: Mail): Mail {
    var t := m.(arrivals := m.arrivals + 1);
    if m.sync then t.(ranSync := m.ranSync + [m.arrivals]) else t.(ignored := m.ignored + [m.arrivals])
  }

  /** The waiting callback thread wakes up: it exits if told to, else it takes the slot. */
  function Woken(m: Mail): Mail
    requires m.worker.Waiting? && (m.slot.Some? || m.stop)
  {
    if m.stop then m.(worker := Exited) else m.(worker := Holding(m.slot.value), slot := None)
  }

  /** The user's callback returns. */
  function CallbackReturned(m: Mail): Mail
    requires m.worker.Holding?
  {
    m.(worker := Waiting, processed := m.processed + [m.worker.n])
  }

  function SetterStarted(m: Mail, next: Mode): Mail {
    if m.worker.NoThread? then m.(setter := Joined(next)) else m.(stop := true, setter := Stopping(next))
  }

  function ThreadJoined(m: Mail): Mail
    requires m.setter.Stopping?
  {
    m.(worker := NoThread, setter := Joined(m.setter.next))
  }

  function FlagSet(m: Mail): Mail
    requires m.setter.Joined?
  {
    match m.setter.next
    case Synchronous => m.(sync := true, setter := Clearing)
    case Asynchronous => m.(sync := false, setter := Spawning)
    case Canceled => m.(sync := true, setter := Idle)
  }

  function SlotCleared(m: Mail): Mail {
    m.(slot := None, cleared := m.cleared + SlotOf(m.slot), setter := Idle)
  }

  function ThreadSpawned(m: Mail): Mail { m.(stop := false, worker := Waiting, setter := Idle) }

  datatype Event =
    | StoreTask | SyncTask | Wake | Return
    | BeginSet(next: Mode) | Join | SetFlag | ClearSlot | Spawn

  /** The thread is joined only when it has exited; `setCallback` and `cancel` do not overlap. */
  predicate Enabled(m: Mail, e: Event) {
    match e
    case StoreTask => true
    case SyncTask => true
    case Wake => m.worker.Waiting? && (m.slot.Some? || m.stop)
    case Return => m.worker.Holding?
    case BeginSet(_) => m.setter.Idle?
    case Join => m.setter.Stopping? && m.worker.Exited?
    case SetFlag => m.setter.Joined?
    case ClearSlot => m.setter.Clearing?
    case Spawn => m.setter.Spawning?
  }

  function Step(m: Mail, e: Event): Mail
    requires Enabled(m, e)
  {
    match e
    case StoreTask => Stored(m)
    case SyncTask => CalledSync(m)
    case Wake => Woken(m)
    case Return => CallbackReturned(m)
    case BeginSet(next) => SetterStarted(m, next)
    case Join => ThreadJoined(m)
    case SetFlag => FlagSet(m)
    case ClearSlot => SlotCleared(m)
    case Spawn => ThreadSpawned(m)
  }

  ghost predicate ValidRun(m: Mail, es: seq<Event>)
    decreases es
  {
    es == [] || (Enabled(m, es[0]) && ValidRun(Step(m, es[0]), es[1..]))
  }

  ghost function Run(m: Mail, es: seq<Event>): Mail
    requires ValidRun(m, es)
    decreases es
  {
    if es == [] then m else Run(Step(m, es[0]), es[1..])
  }

  // ----- The fate of a buffer -----

  function UpTo(n: nat): seq<nat> { seq(n, i => i) }

  ghost predicate Increasing(ns: seq<nat>) { forall i, j | 0 <= i < j < |ns| :: ns[i] < ns[j] }

  ghost predicate Below(ns: seq<nat>, n: nat) { forall i | 0 <= i < |ns| :: ns[i] < n }

  /** Where every buffer is that has not been taken for good. */
  function Pipeline(m: Mail): seq<nat> { m.processed + HeldBy(m.worker) + SlotOf(m.slot) }

  ghost predicate Accounted(m: Mail) {
    multiset(UpTo(m.arrivals))
    == multiset(Pipeline(m)) + multiset(m.overwritten) + multiset(m.cleared)
       + multiset(m.ranSync) + multiset(m.ignored)
  }

  ghost predicate Ordered(m: Mail) { Increasing(Pipeline(m)) && Below(Pipeline(m), m.arrivals) }

  /** There is a thread exactly while the mode is asynchronous, except while it is being set. */
  ghost predicate Threads(m: Mail) {
    && (m.worker.NoThread? ==> m.stop)
    && (m.setter.Idle? ==> (m.worker.NoThread? <==> m.sync) && !m.worker.Exited?)
    && (m.setter.Idle? && !m.sync ==> !m.stop)
    && (m.setter.Stopping? ==> m.stop && !m.worker.NoThread?)
    && (m.setter.Joined? ==> m.worker.NoThread?)
    && (m.setter.Clearing? ==> m.worker.NoThread? && m.sync)
    && (m.setter.Spawning? ==> m.worker.NoThread? && !m.sync)
  }

  ghost predicate Inv(m: Mail) { Accounted(m) && Ordered(m) && Threads(m) }

  lemma UpToGrows(n: nat)
    ensures UpTo(n + 1) == UpTo(n) + [n]
    ensures multiset(UpTo(n + 1)) == multiset(UpTo(n)) + multiset{n}
  {
  }

  /** A pipeline moves its head on without losing or reordering anything. */
  lemma PipelineStep(m: Mail, e: Event)
    requires Threads(m) && Enabled(m, e)
    ensures var t := Step(m, e);
      match e
      case StoreTask =>
        if m.sync then Pipeline(t) == Pipeline(m)
        else Pipeline(t) == m.processed + HeldBy(m.worker) + [m.arrivals]
      case ClearSlot => Pipeline(t) == m.processed + HeldBy(m.worker)
      case _ => Pipeline(t) == Pipeline(m)
  {
    match e
    case StoreTask => PipelineStored(m);
    case ClearSlot => PipelineCleared(m);
    case Wake => PipelineMoves(m);
    case Return => PipelineMoves(m);
    case _ =>
      hide Pipeline;
      PipelineIsSame(m, Step(m, e));
  }

  lemma PipelineMoves(m: Mail)
    ensures m.worker.Waiting? && (m.slot.Some? || m.stop) ==> Pipeline(Woken(m)) == Pipeline(m)
    ensures m.worker.Holding? ==> Pipeline(CallbackReturned(m)) == Pipeline(m)
  {
  }

  lemma PipelineStored(m: Mail)
    ensures Pipeline(Stored(m))
            == if m.sync then Pipeline(m) else m.processed + HeldBy(m.worker) + [m.arrivals]
  {
  }

  lemma PipelineCleared(m: Mail)
    ensures Pipeline(SlotCleared(m)) == m.processed + HeldBy(m.worker)
  {
  }

  lemma AccountedStep(m: Mail, e: Event)
    requires Accounted(m) && Threads(m) && Enabled(m, e)
    ensures Accounted(Step(m, e))
  {
    hide Accounted, Pipeline, UpTo;
    match e
    case StoreTask => StoreAccounted(m);
    case SyncTask => SyncAccounted(m);
    case ClearSlot => ClearAccounted(m);
    case _ =>
      PipelineStep(m, e);
      assert var t := Step(m, e);
        && t.arrivals == m.arrivals && t.overwritten == m.overwritten && t.cleared == m.cleared
        && t.ranSync == m.ranSync && t.ignored == m.ignored;
      hide *;
      AccountedSame(m, Step(m, e));
  }

  lemma AccountedSame(m: Mail, t: Mail)
    requires Accounted(m) && Pipeline(t) == Pipeline(m) && t.arrivals == m.arrivals
    requires t.overwritten == m.overwritten && t.cleared == m.cleared
    requires t.ranSync == m.ranSync && t.ignored == m.ignored
    ensures Accounted(t)
  {
    hide Pipeline, UpTo;
  }

  lemma SyncAccounted(m: Mail)
    requires Accounted(m)
    ensures Accounted(CalledSync(m))
  {
    UpToGrows(m.arrivals);
    hide UpTo, Pipeline;
    assert Pipeline(CalledSync(m)) == Pipeline(m) by { PipelineIsSame(m, CalledSync(m)); }
  }

  lemma PipelineIsSame(m: Mail, t: Mail)
    requires t.processed == m.processed && HeldBy(t.worker) == HeldBy(m.worker) && t.slot == m.slot
    ensures Pipeline(t) == Pipeline(m)
  {
  }

  lemma ClearAccounted(m: Mail)
    requires Accounted(m)
    ensures Accounted(SlotCleared(m))
  {
    hide UpTo;
    var done := m.processed + HeldBy(m.worker);
    assert multiset(Pipeline(m)) == multiset(done) + multiset(SlotOf(m.slot));
    assert Pipeline(SlotCleared(m)) == done;
    assert multiset(m.cleared + SlotOf(m.slot)) == multiset(m.cleared) + multiset(SlotOf(m.slot));
  }

  lemma StoreAccounted(m: Mail)
    requires Accounted(m)
    ensures Accounted(Stored(m))
  {
    UpToGrows(m.arrivals);
    hide UpTo;
    if m.sync {
      PipelineIsSame(m, Stored(m));
      hide Pipeline;
    } else {
      var done := m.processed + HeldBy(m.worker);
      assert multiset(Pipeline(m)) == multiset(done) + multiset(SlotOf(m.slot));
      assert Pipeline(Stored(m)) == done + [m.arrivals];
      hide Pipeline;
      assert multiset(m.overwritten + SlotOf(m.slot)) == multiset(m.overwritten) + multiset(SlotOf(m.slot));
    }
  }

  lemma OrderedStep(m: Mail, e: Event)
    requires Ordered(m) && Threads(m) && Enabled(m, e)
    ensures Ordered(Step(m, e))
  {
    PipelineStep(m, e);
    var done := m.processed + HeldBy(m.worker);
    assert Pipeline(m) == done + SlotOf(m.slot);
    assert forall i | 0 <= i < |done| :: done[i] == Pipeline(m)[i];
  }

  lemma StepKeepsInv(m: Mail, e: Event)
    requires Inv(m) && Enabled(m, e)
    ensures Inv(Step(m, e))
  {
    assert Threads(Step(m, e));
    hide Accounted, Ordered;
    AccountedStep(m, e);
    OrderedStep(m, e);
  }

  lemma {:induction false} RunKeepsInv(m: Mail, es: seq<Event>)
    requires Inv(m) && ValidRun(m, es)
    ensures Inv(Run(m, es))
    decreases es
  {
    hide Inv, Step, Enabled;
    if es != [] {
      StepKeepsInv(m, es[0]);
      RunKeepsInv(Step(m, es[0]), es[1..]);
    }
  }

  /** How often buffer `n` was processed, is held or waits in the slot; was overwritten; was
      cleared; was passed to a synchronous callback; or met a callback of the other mode. */
  function Fates(m: Mail, n: nat): nat {
    multiset(m.processed)[n] + multiset(HeldBy(m.worker))[n] + multiset(SlotOf(m.slot))[n]
    + multiset(m.overwritten)[n] + multiset(m.cleared)[n] + multiset(m.ranSync)[n] + multiset(m.ignored)[n]
  }

  lemma {:induction false} UpToHasEachOnce(count: nat, n: nat)
    ensures multiset(UpTo(count))[n] == if n < count then 1 else 0
  {
    if count > 0 {
      UpToHasEachOnce(count - 1, n);
      UpToGrows(count - 1);
    } else {
      assert UpTo(0) == [];
    }
  }

  /** In every interleaving, every buffer that a session task brought has exactly one fate; the
      user's asynchronous callback sees buffers in the order in which they came, whatever the
      session; and what it holds, and what waits, is newer than all it has seen. */
  lemma EveryBufferHasOneFate(es: seq<Event>)
    requires ValidRun(NEW_MAIL, es)
    ensures var m := Run(NEW_MAIL, es);
      && (forall n | 0 <= n < m.arrivals :: Fates(m, n) == 1)
      && Increasing(m.processed + HeldBy(m.worker) + SlotOf(m.slot))
  {
    assert Inv(NEW_MAIL) by { assert UpTo(0) == [] && Pipeline(NEW_MAIL) == []; }
    RunKeepsInv(NEW_MAIL, es);
    var m := Run(NEW_MAIL, es);
    forall n | 0 <= n < m.arrivals ensures Fates(m, n) == 1 {
      UpToHasEachOnce(m.arrivals, n);
      FatesAreAccounted(m, n);
    }
  }

  lemma FatesAreAccounted(m: Mail, n: nat)
    requires Accounted(m)
    ensures Fates(m, n) == multiset(UpTo(m.arrivals))[n]
  {
    hide UpTo;
    assert multiset(Pipeline(m))
           == multiset(m.processed) + multiset(HeldBy(m.worker)) + multiset(SlotOf(m.slot));
  }

  // ----- Which buffer meets which fate -----

  /** The number that the event brings, if it is a task of the given kind that finds the mode flag
      as given. */
  function Brought(m: Mail, e: Event, synchronous: bool, flag: bool): seq<nat> {
    if (if synchronous then e.SyncTask? else e.StoreTask?) && m.sync == flag then [m.arrivals] else []
  }

  /** The buffers that such tasks have brought in a run. */
  ghost function Arrived(m: Mail, es: seq<Event>, synchronous: bool, flag: bool): seq<nat>
    requires ValidRun(m, es)
    decreases es
  {
    if es == [] then []
    else Brought(m, es[0], synchronous, flag) + Arrived(Step(m, es[0]), es[1..], synchronous, flag)
  }

  /** The buffers of tasks whose kind does not fit the flag they find. */
  ghost function Mismatched(m: Mail, es: seq<Event>): seq<nat>
    requires ValidRun(m, es)
    decreases es
  {
    if es == [] then []
    else (Brought(m, es[0], true, false) + Brought(m, es[0], false, true)) + Mismatched(Step(m, es[0]), es[1..])
  }

  /** What a storing task has put into the slot, wherever it is by now. */
  function Kept(m: Mail): multiset<nat> {
    multiset(Pipeline(m)) + multiset(m.overwritten) + multiset(m.cleared)
  }

  /** On the way from `m` to `t` these buffers were passed to the synchronous callback, ignored,
      and put into the slot. */
  ghost predicate Fated(m: Mail, t: Mail, ran: seq<nat>, ignored: seq<nat>, stored: seq<nat>) {
    t.ranSync == m.ranSync + ran && t.ignored == m.ignored + ignored && Kept(t) == Kept(m) + multiset(stored)
  }

  lemma ListsStep(m: Mail, e: Event)
    requires Enabled(m, e)
    ensures var t := Step(m, e);
      && t.arrivals == m.arrivals + (if e.SyncTask? || e.StoreTask? then 1 else 0)
      && t.ranSync == m.ranSync + Brought(m, e, true, true)
      && t.ignored == m.ignored + (Brought(m, e, true, false) + Brought(m, e, false, true))
  {
  }

  lemma KeptStep(m: Mail, e: Event)
    requires Threads(m) && Enabled(m, e)
    ensures Kept(Step(m, e)) == Kept(m) + multiset(Brought(m, e, false, false))
  {
    match e
    case StoreTask => hide *; KeptStored(m); StoreStep(m);
    case ClearSlot => hide *; KeptCleared(m); ClearStep(m);
    case _ =>
      PipelineStep(m, e);
      assert var t := Step(m, e); t.overwritten == m.overwritten && t.cleared == m.cleared;
      assert Brought(m, e, false, false) == [];
      hide *;
      KeptSame(m, Step(m, e));
  }

  lemma StoreStep(m: Mail)
    ensures Enabled(m, StoreTask) && Step(m, StoreTask) == Stored(m)
    ensures Brought(m, StoreTask, false, false) == if m.sync then [] else [m.arrivals]
  {
    hide Stored;
  }

  lemma ClearStep(m: Mail)
    ensures Enabled(m, ClearSlot) ==> Step(m, ClearSlot) == SlotCleared(m)
    ensures Brought(m, ClearSlot, false, false) == []
  {
    hide SlotCleared;
  }

  lemma KeptSame(m: Mail, t: Mail)
    requires Pipeline(t) == Pipeline(m) && t.overwritten == m.overwritten && t.cleared == m.cleared
    ensures Kept(t) == Kept(m)
  {
    hide Pipeline;
  }

  lemma FateStep(m: Mail, e: Event)
    requires Threads(m) && Enabled(m, e)
    ensures Fated(m, Step(m, e), Brought(m, e, true, true),
                  Brought(m, e, true, false) + Brought(m, e, false, true), Brought(m, e, false, false))
  {
    hide Step, Enabled, Threads, Brought, Kept;
    ListsStep(m, e);
    KeptStep(m, e);
  }

  lemma FatedTwice(m: Mail, u: Mail, t: Mail, ran: seq<nat>, ran': seq<nat>, ignored: seq<nat>, ignored': seq<nat>,
                   stored: seq<nat>, stored': seq<nat>)
    requires Fated(m, u, ran, ignored, stored) && Fated(u, t, ran', ignored', stored')
    ensures Fated(m, t, ran + ran', ignored + ignored', stored + stored')
  {
    hide Kept;
    Associative(m.ranSync, ran, ran');
    Associative(m.ignored, ignored, ignored');
    MultisetOfSum(stored, stored');
  }

  lemma KeptStored(m: Mail)
    ensures Kept(Stored(m)) == Kept(m) + multiset(if m.sync then [] else [m.arrivals])
  {
    if m.sync {
      PipelineIsSame(m, Stored(m));
      hide Pipeline;
    } else {
      var done := m.processed + HeldBy(m.worker);
      assert multiset(Pipeline(m)) == multiset(done) + multiset(SlotOf(m.slot));
      assert Pipeline(Stored(m)) == done + [m.arrivals];
      hide Pipeline;
      assert multiset(m.overwritten + SlotOf(m.slot)) == multiset(m.overwritten) + multiset(SlotOf(m.slot));
    }
  }

  lemma KeptCleared(m: Mail)
    ensures Kept(SlotCleared(m)) == Kept(m)
  {
    var done := m.processed + HeldBy(m.worker);
    assert multiset(Pipeline(m)) == multiset(done) + multiset(SlotOf(m.slot));
    assert Pipeline(SlotCleared(m)) == done;
    assert multiset(m.cleared + SlotOf(m.slot)) == multiset(m.cleared) + multiset(SlotOf(m.slot));
  }

  lemma {:induction false} FatesOfRun(m: Mail, es: seq<Event>)
    requires Threads(m) && ValidRun(m, es)
    ensures Fated(m, Run(m, es), Arrived(m, es, true, true), Mismatched(m, es), Arrived(m, es, false, false))
    decreases es
  {
    if es == [] {
      NothingFated(m);
    } else {
      var u := Step(m, es[0]);
      ThreadsStep(m, es[0]);
      FateStep(m, es[0]);
      hide Step, Enabled, Threads, Brought, Fated;
      FatesOfRun(u, es[1..]);
      FatedTwice(m, u, Run(u, es[1..]), Brought(m, es[0], true, true), Arrived(u, es[1..], true, true),
                 Brought(m, es[0], true, false) + Brought(m, es[0], false, true), Mismatched(u, es[1..]),
                 Brought(m, es[0], false, false), Arrived(u, es[1..], false, false));
    }
  }

  lemma ThreadsStep(m: Mail, e: Event)
    requires Threads(m) && Enabled(m, e)
    ensures Threads(Step(m, e))
  {
  }

  lemma NothingFated(m: Mail)
    ensures Fated(m, m, [], [], [])
  {
    hide Kept;
  }

  lemma MultisetOfSum(a: seq<nat>, b: seq<nat>)
    ensures multiset(a + b) == multiset(a) + multiset(b)
  {
  }

  /** In every interleaving: the user's synchronous callback was called with exactly the buffers of
      those synchronous tasks that found the flag raised, in order; the slot was given exactly the
      buffers of the storing tasks that found it lowered; and just the rest was ignored. */
  lemma FateIsDecidedByFlag(es: seq<Event>)
    requires ValidRun(NEW_MAIL, es)
    ensures var m := Run(NEW_MAIL, es);
      && m.ranSync == Arrived(NEW_MAIL, es, true, true)
      && m.ignored == Mismatched(NEW_MAIL, es)
      && Kept(m) == multiset(Arrived(NEW_MAIL, es, false, false))
  {
    FatesOfRun(NEW_MAIL, es);
    assert Pipeline(NEW_MAIL) == [];
  }

  // ----- A thread that was told to stop -----

  lemma StoppedStep(m: Mail, e: Event)
    requires m.stop && Enabled(m, e) && !e.Spawn?
    ensures var t := Step(m, e);
      && t.stop && t.processed + HeldBy(t.worker) == m.processed + HeldBy(m.worker)
      && (e.Wake? ==> t.worker.Exited? && t.slot == m.slot)
  {
    if e.Return? { assert (m.processed + [m.worker.n]) + [] == m.processed + [m.worker.n]; }
  }

  /** Once the thread has been told to stop it finishes the callback it runs and takes nothing more,
      whatever the sessions store, until a new thread is started. */
  lemma {:induction false} StoppedTakesNothing(m: Mail, es: seq<Event>)
    requires m.stop && ValidRun(m, es) && forall e | e in es :: !e.Spawn?
    ensures Run(m, es).stop
    ensures Run(m, es).processed + HeldBy(Run(m, es).worker) == m.processed + HeldBy(m.worker)
    decreases es
  {
    hide Step, Enabled;
    if es != [] {
      assert es[0] in es && forall e | e in es[1..] :: e in es;
      StoppedStep(m, es[0]);
      StoppedTakesNothing(Step(m, es[0]), es[1..]);
    }
  }

  // ----- The switch to synchronous mode -----

  predicate LowersFlag(m: Mail, e: Event) { e.SetFlag? && m.setter == Joined(Asynchronous) }

  ghost predicate StaysSynchronous(m: Mail, es: seq<Event>)
    requires ValidRun(m, es)
    decreases es
  {
    es == [] || (!LowersFlag(m, es[0]) && StaysSynchronous(Step(m, es[0]), es[1..]))
  }

  lemma SynchronousStep(m: Mail, e: Event)
    requires Enabled(m, e) && m.sync && m.slot.None? && !LowersFlag(m, e)
    ensures Step(m, e).sync && Step(m, e).slot.None?
  {
  }

  /** Once synchronous mode has cleared the slot it stays empty, however stale storing callbacks
      of the sessions interleave, until asynchronous mode is set. */
  lemma {:induction false} SlotStaysEmpty(m: Mail, es: seq<Event>)
    requires m.setter.Clearing? && m.sync && ValidRun(m, [ClearSlot] + es)
    requires StaysSynchronous(m, [ClearSlot] + es)
    ensures Run(m, [ClearSlot] + es).slot.None?
  {
    assert ([ClearSlot] + es)[1..] == es;
    SlotEmptyFrom(SlotCleared(m), es);
  }

  lemma {:induction false} SlotEmptyFrom(m: Mail, es: seq<Event>)
    requires m.sync && m.slot.None? && ValidRun(m, es) && StaysSynchronous(m, es)
    ensures Run(m, es).slot.None?
    decreases es
  {
    hide Step, Enabled, LowersFlag;
    if es != [] {
      SynchronousStep(m, es[0]);
      SlotEmptyFrom(Step(m, es[0]), es[1..]);
    }
  }

  // ----- The whole of `setCallback` and `cancel` -----

  /** The steps that a call takes: it stops and joins the thread if there is one, sets the flag,
      and then clears the slot or starts the new thread. */
  function Script(m: Mail, next: Mode): seq<Event> {
    [BeginSet(next)] + (if m.worker.NoThread? then [] else [Join]) + Ending(next)
  }

  function Ending(next: Mode): seq<Event> {
    match next
    case Synchronous => [SetFlag, ClearSlot]
    case Asynchronous => [SetFlag, Spawn]
    case Canceled => [SetFlag]
  }

  predicate OfSetter(e: Event) { e.BeginSet? || e.Join? || e.SetFlag? || e.ClearSlot? || e.Spawn? }

  /** The steps of the caller among the events of a run. */
  function SetterSteps(es: seq<Event>): seq<Event> {
    if es == [] then [] else (if OfSetter(es[0]) then [es[0]] else []) + SetterSteps(es[1..])
  }

  /** What the caller still has to do. */
  function Remaining(m: Mail): seq<Event> {
    match m.setter
    case Idle => []
    case Stopping(next) => [Join] + Ending(next)
    case Joined(next) => Ending(next)
    case Clearing => [ClearSlot]
    case Spawning => [Spawn]
  }

  /** The mode is in force: a thread that nobody has told to stop, or no thread; and synchronous
      mode has an empty slot. */
  ghost predicate InForce(m: Mail, next: Mode) {
    match next
    case Synchronous => m.sync && m.worker.NoThread? && m.slot.None?
    case Asynchronous => !m.sync && (m.worker.Waiting? || m.worker.Holding?) && !m.stop
    case Canceled => m.sync && m.worker.NoThread?
  }

  /** A call for mode `next` is under way, or has ended and the mode is in force. */
  ghost predicate Towards(m: Mail, next: Mode) {
    match m.setter
    case Idle => InForce(m, next)
    case Stopping(mode) => mode == next
    case Joined(mode) => mode == next
    case Clearing => next.Synchronous?
    case Spawning => next.Asynchronous?
  }

  lemma TowardsStep(m: Mail, e: Event, next: Mode)
    requires Threads(m) && Towards(m, next) && Enabled(m, e) && !e.BeginSet?
    ensures Threads(Step(m, e)) && Towards(Step(m, e), next)
    ensures Remaining(m) == (if OfSetter(e) then [e] else []) + Remaining(Step(m, e))
  {
  }

  lemma {:induction false} TowardsRun(m: Mail, es: seq<Event>, next: Mode)
    requires Threads(m) && Towards(m, next) && ValidRun(m, es) && forall e | e in es :: !e.BeginSet?
    ensures Threads(Run(m, es)) && Towards(Run(m, es), next)
    ensures Remaining(m) == SetterSteps(es) + Remaining(Run(m, es))
    decreases es
  {
    hide Step, Enabled, Threads, Towards, OfSetter, Remaining;
    if es != [] {
      assert es[0] in es && forall e | e in es[1..] :: e in es;
      var t := Step(m, es[0]);
      TowardsStep(m, es[0], next);
      TowardsRun(t, es[1..], next);
      Associative(if OfSetter(es[0]) then [es[0]] else [], SetterSteps(es[1..]), Remaining(Run(t, es[1..])));
    }
  }

  /** However session tasks and the callback thread interleave with a call of `setCallback` or
      `cancel`, the caller's steps are those of the script, in its order; and whenever it has
      returned and no other call has begun, the whole script was run and the mode is in force. */
  lemma SetterRunsItsScript(m: Mail, next: Mode, es: seq<Event>)
    requires Threads(m) && m.setter.Idle?
    requires ValidRun(m, [BeginSet(next)] + es) && forall e | e in es :: !e.BeginSet?
    ensures var t := Run(m, [BeginSet(next)] + es);
      && SetterSteps([BeginSet(next)] + es) <= Script(m, next)
      && (t.setter.Idle? ==> SetterSteps([BeginSet(next)] + es) == Script(m, next) && InForce(t, next))
  {
    assert ([BeginSet(next)] + es)[1..] == es;
    var s := SetterStarted(m, next);
    assert Threads(s) && Towards(s, next) && Script(m, next) == [BeginSet(next)] + Remaining(s);
    hide Threads, Script, Remaining, InForce, Step, Enabled, Ending;
    assert Step(m, BeginSet(next)) == s by { StartsSetter(m, next); }
    TowardsRun(s, es, next);
    ScriptParts(Run(s, es), [BeginSet(next)], SetterSteps(es));
  }

  lemma StartsSetter(m: Mail, next: Mode)
    requires Enabled(m, BeginSet(next))
    ensures Step(m, BeginSet(next)) == SetterStarted(m, next)
  {
  }

  lemma ScriptParts(t: Mail, first: seq<Event>, steps: seq<Event>)
    ensures first + steps <= first + (steps + Remaining(t))
    ensures t.setter.Idle? ==> Remaining(t) == [] && steps + Remaining(t) == steps
  {
  }

  /** The thread comes to its end: a running callback returns, and the next wait sees the stop. */
  function ThreadEnds(w: Worker): seq<Event> {
    match w
    case Waiting => [Wake]
    case Holding(_) => [Return, Wake]
    case _ => []
  }

  /** A call that meets no session task. */
  function Undisturbed(m: Mail, next: Mode): seq<Event> {
    [BeginSet(next)] + ThreadEnds(m.worker) + (if m.worker.NoThread? then [] else [Join]) + Ending(next)
  }

  lemma {:induction false} RunConcat(m: Mail, es: seq<Event>, more: seq<Event>)
    requires ValidRun(m, es) && ValidRun(Run(m, es), more)
    ensures ValidRun(m, es + more) && Run(m, es + more) == Run(Run(m, es), more)
    decreases es
  {
    hide Step, Enabled;
    if es == [] {
      assert es + more == more;
    } else {
      RunConcat(Step(m, es[0]), es[1..], more);
      assert (es + more)[0] == es[0] && (es + more)[1..] == es[1..] + more;
    }
  }

  /** One more event at the end of a run. */
  lemma RunOn(m: Mail, es: seq<Event>, e: Event)
    requires ValidRun(m, es) && Enabled(Run(m, es), e)
    ensures ValidRun(m, es + [e]) && Run(m, es + [e]) == Step(Run(m, es), e)
  {
    hide Step, Enabled;
    assert [e][1..] == [];
    RunConcat(m, es, [e]);
  }

  lemma UndisturbedRuns(m: Mail, next: Mode)
    requires Threads(m) && m.setter.Idle? && ValidRun(m, Undisturbed(m, next))
    ensures var t := Run(m, Undisturbed(m, next)); t.setter.Idle? ==> InForce(t, next)
  {
    var es := Undisturbed(m, next);
    assert es == [BeginSet(next)] + es[1..];
    assert forall e | e in es[1..] :: !e.BeginSet?;
    hide *;
    SetterRunsItsScript(m, next, es[1..]);
  }
}
