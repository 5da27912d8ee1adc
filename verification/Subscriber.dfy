/** `Subscriber_Impl`: its sessions, its user callback and the mailbox of its callback thread,
    updated in place, one method per atomic step (a section under the callback mutex, or a single
    access to an atomic flag), and the calls that are made of these steps. */
module SubscriberMailbox {
  import opened Bytes
  import opened Mailbox
  import opened SubscriberSide
  import Sub = SubscriberProtocol
  import SubTheorems = SubscriberTheorems
  import FanOut

  const NOTHING: nat := 0    // the callback that does nothing
  const STORING: nat := 1    // the callback that stores into the mailbox

  /** `callback` is the one that will be in use when the strand has run what is posted. */
  ghost predicate Installed(s: Sub.Subscription, callback: nat) {
    s.canceled || Sub.LastInstall(s.posted) == Some(callback)
  }

  lemma InstalledBySet(s: Sub.Subscription, callback: nat)
    ensures Installed(Sub.CallbackSet(s, callback), callback)
  {
    SubTheorems.LastInstallPost(s.posted, Sub.Install(callback));
    hide Sub.LastInstall;
  }

  class Subscriber {
    var sessionList: seq<SubscriberSession>
    var synchronousUserCallback: nat
    var lastCallbackData: Option<nat>
    var userCallbackIsSynchronous: bool
    var callbackThreadStop: bool
    var callbackThread: Worker
    /** How far a `setCallback` has come, and what became of the buffers. `Model` takes the rest
        of the state from the fields above. */
    ghost var trail: Mail

    ghost function Model(): Mail
      reads this
    {
      trail.(slot := lastCallbackData, sync := userCallbackIsSynchronous, stop := callbackThreadStop,
             worker := callbackThread)
    }

    /** What `setCallbackToSession` installs: the user's callback, or the one that stores. */
    function SessionCallback(): nat
      reads this
    {
      if userCallbackIsSynchronous then synchronousUserCallback else STORING
    }

    /** No session is listed twice, and each of them has, or will have when its strand gets there,
        the callback of the present mode. */
    ghost predicate Wired()
      reads this, sessionList
    {
      && FanOut.NoRepeats(sessionList)
      && forall i | 0 <= i < |sessionList| :: Installed(sessionList[i].Model(), SessionCallback())
    }

    constructor ()
      ensures Model() == NEW_MAIL && sessionList == [] && Wired()
    {
      sessionList, synchronousUserCallback := [], NOTHING;
      lastCallbackData, userCallbackIsSynchronous, callbackThreadStop := None, true, true;
      callbackThread, trail := NoThread, NEW_MAIL;
    }

    /** The callback that an asynchronous subscriber installs in its sessions. */
    method StoreData(buffer: nat)
      requires buffer == trail.arrivals
      modifies this`lastCallbackData, this`trail
      ensures Model() == Stored(old(Model()))
    {
      trail := trail.(arrivals := trail.arrivals + 1);
      if !userCallbackIsSynchronous {
        trail := trail.(overwritten := trail.overwritten + SlotOf(lastCallbackData));
        lastCallbackData := Some(buffer);
      } else {
        trail := trail.(ignored := trail.ignored + [buffer]);
      }
    }

    /** The callback that a synchronous subscriber installs in its sessions. */
    method CallSynchronously(buffer: nat)
      requires buffer == trail.arrivals
      modifies this`trail
      ensures Model() == CalledSync(old(Model()))
    {
      trail := trail.(arrivals := trail.arrivals + 1);
      if userCallbackIsSynchronous {
        trail := trail.(ranSync := trail.ranSync + [buffer]);
      } else {
        trail := trail.(ignored := trail.ignored + [buffer]);
      }
    }

    /** The callback thread passes its wait: it exits, or swaps the slot for an empty one. */
    method WakeCallbackThread() returns (callbackData: Option<nat>)
      requires callbackThread.Waiting? && (lastCallbackData.Some? || callbackThreadStop)
      modifies this`callbackThread, this`lastCallbackData
      ensures Model() == Woken(old(Model()))
      ensures callbackData == if old(callbackThreadStop) then None else old(lastCallbackData)
    {
      if callbackThreadStop {
        callbackThread := Exited;
        return None;
      }
      callbackData := None;
      callbackData, lastCallbackData := lastCallbackData, callbackData;
      callbackThread := Holding(callbackData.value);
    }

    /** The user's asynchronous callback returns. */
    method ReturnFromCallback()
      requires callbackThread.Holding?
      modifies this`callbackThread, this`trail
      ensures Model() == CallbackReturned(old(Model()))
    {
      trail := trail.(processed := trail.processed + [callbackThread.n]);
      callbackThread := Waiting;
    }

    // ----- The steps of `setCallback` and `cancel` -----

    method StopCallbackThread(next: Mode)
      requires trail.setter.Idle?
      modifies this`callbackThreadStop, this`trail
      ensures Model() == SetterStarted(old(Model()), next)
    {
      if callbackThread != NoThread {
        callbackThreadStop := true;
        trail := trail.(setter := Stopping(next));
      } else {
        trail := trail.(setter := Joined(next));
      }
    }

    method JoinCallbackThread()
      requires trail.setter.Stopping? && callbackThread.Exited?
      modifies this`callbackThread, this`trail
      ensures Model() == ThreadJoined(old(Model()))
    {
      callbackThread := NoThread;
      trail := trail.(setter := Joined(trail.setter.next));
    }

    method SetMode(next: Mode)
      requires trail.setter == Joined(next)
      modifies this`userCallbackIsSynchronous, this`trail
      ensures Model() == FlagSet(old(Model()))
    {
      if next == Asynchronous {
        userCallbackIsSynchronous := false;
        trail := trail.(setter := Spawning);
      } else {
        userCallbackIsSynchronous := true;
        trail := trail.(setter := if next == Synchronous then Clearing else Idle);
      }
    }

    method ClearCallbackData()
      requires trail.setter.Clearing?
      modifies this`lastCallbackData, this`trail
      ensures Model() == SlotCleared(old(Model()))
    {
      trail := trail.(cleared := trail.cleared + SlotOf(lastCallbackData));
      lastCallbackData := None;
      trail := trail.(setter := Idle);
    }

    method SpawnCallbackThread()
      requires trail.setter.Spawning?
      modifies this`callbackThreadStop, this`callbackThread, this`trail
      ensures Model() == ThreadSpawned(old(Model()))
    {
      callbackThreadStop := false;
      callbackThread := Waiting;
      trail := trail.(setter := Idle);
    }

    /** The callback thread's own steps to its end, once it has been told to stop. */
    method FinishCallbackThread(ghost begun: Mail, ghost es: seq<Event>) returns (ghost more: seq<Event>)
      requires callbackThread.Waiting? || callbackThread.Holding?
      requires callbackThreadStop && ValidRun(begun, es) && Run(begun, es) == Model()
      modifies this`callbackThread, this`lastCallbackData, this`trail
      ensures more == es + ThreadEnds(old(callbackThread)) && ValidRun(begun, more) && Run(begun, more) == Model()
      ensures callbackThread.Exited? && trail.setter == old(trail.setter)
    {
      more := es;
      if callbackThread.Holding? {
        RunOn(begun, more, Return);
        ReturnFromCallback();
        more := more + [Return];
      }
      RunOn(begun, more, Wake);
      var none := WakeCallbackThread();
      more := more + [Wake];
    }

    /** Sets the flag, and then clears the slot or starts the new thread. */
    method EnterMode(next: Mode, ghost begun: Mail, ghost es: seq<Event>) returns (ghost more: seq<Event>)
      requires trail.setter == Joined(next) && ValidRun(begun, es) && Run(begun, es) == Model()
      modifies this`userCallbackIsSynchronous, this`lastCallbackData, this`callbackThreadStop,
               this`callbackThread, this`trail
      ensures more == es + Ending(next) && ValidRun(begun, more) && Run(begun, more) == Model()
      ensures trail.setter.Idle?
    {
      hide Run, ValidRun;
      RunOn(begun, es, SetFlag);
      SetMode(next);
      more := es + [SetFlag];
      if next == Synchronous {
        RunOn(begun, more, ClearSlot);
        ClearCallbackData();
        more := more + [ClearSlot];
      } else if next == Asynchronous {
        RunOn(begun, more, Spawn);
        SpawnCallbackThread();
        more := more + [Spawn];
      }
    }

    /** Tells the callback thread to stop and waits for its end, if there is one. */
    method RetireCallbackThread(next: Mode) returns (ghost es: seq<Event>)
      requires trail.setter.Idle? && !callbackThread.Exited?
      modifies this`callbackThreadStop, this`callbackThread, this`lastCallbackData, this`trail
      ensures es == [BeginSet(next)] + ThreadEnds(old(callbackThread))
                    + (if old(callbackThread).NoThread? then [] else [Join])
      ensures ValidRun(old(Model()), es) && Run(old(Model()), es) == Model()
      ensures trail.setter == Joined(next)
    {
      ghost var begun := Model();
      es := [BeginSet(next)];
      RunOn(begun, [], BeginSet(next));
      hide Run, ValidRun;
      StopCallbackThread(next);
      if callbackThread != NoThread {
        es := FinishCallbackThread(begun, es);
        RunOn(begun, es, Join);
        JoinCallbackThread();
        es := es + [Join];
      }
    }

    // ----- The sessions -----

    /** A new session gets the callback of the present mode before it is listed and started. */
    method AddSession(publisherCount: nat, maxReconnectionAttempts: int) returns (session: SubscriberSession)
      requires 0 < publisherCount && Wired()
      modifies this`sessionList
      ensures fresh(session) && sessionList == old(sessionList) + [session] && Wired()
      ensures session.Model()
              == Sub.Started(Sub.NewSubscription(maxReconnectionAttempts, publisherCount, SessionCallback()))
    {
      hide Sub.LastInstall, Sub.Started;
      session := new SubscriberSession(publisherCount, maxReconnectionAttempts, SessionCallback());
      FirstInstall(session.Model(), SessionCallback());
      sessionList := sessionList + [session];
      session.Start();
    }

    static lemma FirstInstall(s: Sub.Subscription, callback: nat)
      requires s.posted == [Sub.Install(callback)]
      ensures Installed(Sub.Started(s), callback)
    {
      SubTheorems.LastInstallPost([], Sub.Install(callback));
      assert [] + [Sub.Install(callback)] == s.posted;
      SubTheorems.HandlersLeaveStrand(s.(started := true), Sub.Requesting, 0);
      hide Sub.LastInstall, Sub.Resolve;
    }

    /** The closed handler of a session. */
    method OnSessionClosed(session: SubscriberSession)
      requires Wired()
      modifies this`sessionList
      ensures sessionList == FanOut.Erased(old(sessionList), session) && Wired()
    {
      FanOut.ErasedFromList(sessionList, session);
      ghost var before := sessionList;
      var position := FanOut.Find(sessionList, session);
      if position < |sessionList| {
        sessionList := sessionList[..position] + sessionList[position + 1..];
      }
      hide Installed, FanOut.Erased, FanOut.NoRepeats;
      forall i | 0 <= i < |sessionList| ensures Installed(sessionList[i].Model(), SessionCallback()) {
        assert sessionList[i] in sessionList;
        var k :| 0 <= k < |before| && before[k] == sessionList[i];
      }
    }

    /** `setCallbackToSession` for every session of the list. */
    method RenewCallbacks()
      requires FanOut.NoRepeats(sessionList)
      modifies sessionList
      ensures forall i | 0 <= i < |sessionList| ::
        sessionList[i].Model() == Sub.CallbackSet(old(sessionList[i].Model()), SessionCallback())
    {
      for i := 0 to |sessionList|
        invariant forall j | 0 <= j < i ::
          sessionList[j].Model() == Sub.CallbackSet(old(sessionList[j].Model()), SessionCallback())
        invariant forall j | i <= j < |sessionList| :: sessionList[j].Model() == old(sessionList[j].Model())
      {
        hide Sub.CallbackSet;
        sessionList[i].SetSynchronousCallback(SessionCallback());
      }
    }

    method CancelSessions()
      requires FanOut.NoRepeats(sessionList)
      modifies sessionList
      ensures forall i | 0 <= i < |sessionList| ::
        sessionList[i].Model() == old(sessionList[i].Model()).(canceled := true)
    {
      for i := 0 to |sessionList|
        invariant forall j | 0 <= j < i ::
          sessionList[j].Model() == old(sessionList[j].Model()).(canceled := true)
        invariant forall j | i <= j < |sessionList| :: sessionList[j].Model() == old(sessionList[j].Model())
      {
        sessionList[i].Cancel();
      }
    }

    // ----- The whole calls, when no session task comes in between -----

    /** Ends the old callback thread, enters the mode, and renews the callbacks of the sessions
        unless both modes are asynchronous: then they store already.
        (`SetterRunsItsScript` is about every interleaving with session tasks.) */
    method SetCallback(callback: nat, synchronous: bool)
      requires trail.setter.Idle? && Threads(Model()) && Wired()
      modifies this`userCallbackIsSynchronous, this`lastCallbackData, this`callbackThreadStop,
               this`callbackThread, this`synchronousUserCallback, this`trail, sessionList
      ensures var next := if synchronous then Synchronous else Asynchronous;
        && ValidRun(old(Model()), Undisturbed(old(Model()), next))
        && Model() == Run(old(Model()), Undisturbed(old(Model()), next))
        && InForce(Model(), next)
      ensures trail.setter.Idle? && SessionCallback() == (if synchronous then callback else STORING)
      ensures forall i | 0 <= i < |sessionList| ::
        sessionList[i].Model() == if synchronous || old(userCallbackIsSynchronous)
          then Sub.CallbackSet(old(sessionList[i].Model()), SessionCallback())
          else old(sessionList[i].Model())
      ensures Wired()
    {
      var next := if synchronous then Synchronous else Asynchronous;
      var renew := synchronous || userCallbackIsSynchronous;
      EnterThrough(next);
      synchronousUserCallback := if synchronous then callback else NOTHING;
      hide Run, ValidRun, Installed;
      assert userCallbackIsSynchronous == synchronous;
      if renew {
        RenewCallbacks();
        hide Sub.CallbackSet;
        forall i | 0 <= i < |sessionList| ensures Installed(sessionList[i].Model(), SessionCallback()) {
          InstalledBySet(old(sessionList[i].Model()), SessionCallback());
        }
      }
    }

    /** The part of `setCallback` and `cancel` that concerns the mailbox. */
    method EnterThrough(next: Mode)
      requires trail.setter.Idle? && Threads(Model())
      modifies this`userCallbackIsSynchronous, this`lastCallbackData, this`callbackThreadStop,
               this`callbackThread, this`trail
      ensures ValidRun(old(Model()), Undisturbed(old(Model()), next))
      ensures Model() == Run(old(Model()), Undisturbed(old(Model()), next))
      ensures trail.setter.Idle? && InForce(Model(), next)
    {
      ghost var begun := Model();
      ghost var es := RetireCallbackThread(next);
      es := EnterMode(next, begun, es);
      UndisturbedRuns(begun, next);
    }

    /** Cancels the sessions, ends the callback thread and drops the user's callback. */
    method Cancel()
      requires trail.setter.Idle? && Threads(Model()) && Wired()
      modifies this`userCallbackIsSynchronous, this`lastCallbackData, this`callbackThreadStop,
               this`callbackThread, this`synchronousUserCallback, this`trail, sessionList
      ensures ValidRun(old(Model()), Undisturbed(old(Model()), Canceled))
      ensures Model() == Run(old(Model()), Undisturbed(old(Model()), Canceled)) && InForce(Model(), Canceled)
      ensures trail.setter.Idle? && SessionCallback() == NOTHING
      ensures forall i | 0 <= i < |sessionList| ::
        sessionList[i].Model() == old(sessionList[i].Model()).(canceled := true)
      ensures Wired()
    {
      CancelSessions();
      hide Run, ValidRun;
      EnterThrough(Canceled);
      synchronousUserCallback := NOTHING;
      hide Sub.LastInstall;
    }
  }
}
