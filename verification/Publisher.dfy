/** `Publisher_Impl`: the session list and `send`, updating the sessions in place. */
module PublisherCore {
  import opened Bytes
  import opened TcpHeader
  import opened FrameWriter
  import opened SendProtocol
  import opened PublisherSide
  import FanOut

  ghost predicate Older(bs: seq<Buffer>, n: nat) { forall b | b in bs :: b.serial < n }

  lemma OfferedAccepts(s: Session, b: Buffer)
    requires Older(s.accepted, b.serial)
    ensures Enabled(s, Offer(b)) && Older(Offered(s, b).accepted, b.serial + 1)
  {
  }

  lemma ClosedAccepts(s: Session)
    ensures Closed(s).accepted == s.accepted
  {
  }

  ghost function CanceledOf(sessions: seq<PublisherSession>): set<PublisherSession>
    reads sessions
  {
    set s | s in sessions && s.state.Canceled?
  }

  class Publisher {
    var isRunning: bool
    var publisherSessions: seq<PublisherSession>
    /** Counts decided sends; it stands for the identity of the buffer a `send` got from the pool. */
    var decided: nat
    /** The history of the list. `Roster` takes the rest of the state from the fields above. */
    ghost var trail: FanOut.Roster<PublisherSession>

    ghost function Roster(): FanOut.Roster<PublisherSession>
      reads this
    {
      trail.(sessions := publisherSessions, decided := decided)
    }

    /** No session is listed twice, and what a session has accepted was decided earlier: so the
        next buffer is one that `Enabled(_, Offer(_))` allows. */
    ghost predicate Valid()
      reads this, publisherSessions
    {
      && FanOut.NoRepeats(publisherSessions)
      && (forall s | s in publisherSessions :: s in trail.offers)
      && (forall s | s in publisherSessions :: Older(s.trail.accepted, decided))
    }

    constructor (isRunning: bool)
      ensures Valid() && Roster() == FanOut.NewRoster() && this.isRunning == isRunning
    {
      this.isRunning, publisherSessions, decided := isRunning, [], 0;
      trail := FanOut.NewRoster();
    }

    /** The end of accepting a client: the started session joins the list. */
    method AddSession(session: PublisherSession)
      requires Valid() && session !in publisherSessions && session.trail.accepted == []
      modifies this
      ensures Valid() && Roster() == FanOut.Inserted(old(Roster()), session) && isRunning == old(isRunning)
    {
      publisherSessions := publisherSessions + [session];
      trail := trail.(offers := trail.offers[session := []], joined := trail.joined[session := decided]);
    }

    /** The closed handler of a session. */
    method OnSessionClosed(session: PublisherSession)
      requires Valid()
      modifies this`publisherSessions, this`trail
      ensures Valid() && Roster() == FanOut.SessionClosed(old(Roster()), session) && isRunning == old(isRunning)
    {
      FanOut.ErasedFromList(publisherSessions, session);
      trail := FanOut.SessionClosed(Roster(), session);
      var position := FanOut.Find(publisherSessions, session);
      if position < |publisherSessions| {
        publisherSessions := publisherSessions[..position] + publisherSessions[position + 1..];
      }
    }

    /** Every session of a list is offered the same buffer, one after the other. */
    static method OfferEach(sessions: seq<PublisherSession>, buffer: Buffer)
      requires FanOut.NoRepeats(sessions)
      modifies sessions
      ensures forall i | 0 <= i < |sessions| :: sessions[i].Model() == Offered(old(sessions[i].Model()), buffer)
    {
      for i := 0 to |sessions|
        invariant forall j | 0 <= j < i :: sessions[j].Model() == Offered(old(sessions[j].Model()), buffer)
        invariant forall j | i <= j < |sessions| :: sessions[j].Model() == old(sessions[j].Model())
      {
        hide Offered;
        sessions[i].SendDataBuffer(buffer);
      }
    }

    /** The second lock section of `send`: every listed session is offered the same buffer. */
    method OfferToAll(bytes: seq<byte>)
      requires Valid()
      modifies this`decided, this`trail, publisherSessions
      ensures Valid() && Roster() == FanOut.FannedOut(old(Roster()))
      ensures forall i | 0 <= i < |publisherSessions| ::
                var s, b := publisherSessions[i], Buffer(old(decided), bytes);
                Enabled(old(s.Model()), Offer(b)) && s.Model() == Offered(old(s.Model()), b)
    {
      var buffer := Buffer(decided, bytes);
      forall i | 0 <= i < |publisherSessions|
        ensures var s := publisherSessions[i].Model();
          Enabled(s, Offer(buffer)) && Older(Offered(s, buffer).accepted, decided + 1)
      {
        assert publisherSessions[i] in publisherSessions;
        OfferedAccepts(publisherSessions[i].Model(), buffer);
      }
      hide Offered, Enabled, FanOut.FannedOut, Older;
      OfferEach(publisherSessions, buffer);
      assert forall i | 0 <= i < |publisherSessions| ::
          publisherSessions[i].Model() == Offered(old(publisherSessions[i].Model()), buffer);
      CountSend();
    }

    /** The fan-out is over: the `send` is decided. */
    method CountSend()
      requires FanOut.NoRepeats(publisherSessions)
      requires forall s | s in publisherSessions :: s in trail.offers
      requires forall i | 0 <= i < |publisherSessions| :: Older(publisherSessions[i].Model().accepted, decided + 1)
      modifies this`decided, this`trail
      ensures Valid() && Roster() == FanOut.FannedOut(old(Roster()))
    {
      trail := FanOut.FannedOut(Roster());
      decided := decided + 1;
      hide Older;
      forall s | s in publisherSessions ensures Older(s.trail.accepted, decided) {
        var i :| 0 <= i < |publisherSessions| && publisherSessions[i] == s;
        assert s.trail.accepted == s.Model().accepted;
      }
    }

    /** `send`, for a buffer of the pool that still holds `prior`: refused by a publisher that is
        not running, skipped without subscribers, and else offered to all of them as the frame of
        the joined sub-buffers. */
    method Send(payloads: seq<Part>, prior: seq<byte>) returns (sent: bool)
      requires Valid() && HEADER_SIZE + TotalSize(payloads) < 0x1_0000_0000_0000_0000
      modifies this`decided, this`trail, publisherSessions
      ensures Valid() && sent == isRunning
      ensures Roster() ==
        if !isRunning then old(Roster())
        else if publisherSessions == [] then FanOut.Skipped(old(Roster()))
        else FanOut.FannedOut(old(Roster()))
      ensures forall i | 0 <= i < |publisherSessions| ::
        var s := publisherSessions[i];
        s.Model() == if isRunning then Offered(old(s.Model()), Buffer(old(decided), Filled(payloads, prior)))
                     else old(s.Model())
    {
      if !isRunning {
        return false;
      }
      if publisherSessions == [] {
        decided := decided + 1;
        return true;
      }
      var buffer := FillBuffer(payloads, prior);
      OfferToAll(buffer[..]);
      return true;
    }

    /** Cancels a session, which calls the closed handler unless it was canceled before. */
    method CancelSession(session: PublisherSession)
      requires Valid()
      modifies this`publisherSessions, this`trail, session
      ensures Valid() && session.Model() == Closed(old(session.Model()))
      ensures Roster() == if old(session.state).Canceled? then old(Roster())
                          else FanOut.SessionClosed(old(Roster()), session)
    {
      var wasCanceled := session.state == Canceled;
      ClosedAccepts(session.Model());
      session.Cancel();
      assert session.trail.accepted == session.Model().accepted;
      assert Valid();
      if !wasCanceled {
        OnSessionClosed(session);
      }
    }

    /** Stops the publisher and cancels the sessions of the list; each that was not canceled yet
        calls the closed handler, which removes it. */
    method Cancel()
      requires Valid()
      modifies this, publisherSessions
      ensures Valid() && !isRunning
      ensures forall s | s in old(publisherSessions) :: s.Model() == Closed(old(s.Model()))
      ensures Roster() == FanOut.SessionsClosed(old(Roster()), old(publisherSessions), old(CanceledOf(publisherSessions)))
      ensures forall s :: s in publisherSessions <==> s in old(publisherSessions) && old(s.state).Canceled?
    {
      isRunning := false;
      var sessions := publisherSessions;
      CancelEach(sessions);
      FanOut.AllErased(old(Roster()), sessions, old(CanceledOf(sessions)));
      hide Closed, FanOut.SessionsClosed, FanOut.NoRepeats;
      assert publisherSessions == Roster().sessions;
    }

    /** Cancels the sessions one after the other. */
    method CancelEach(sessions: seq<PublisherSession>)
      requires Valid() && FanOut.NoRepeats(sessions)
      modifies this`publisherSessions, this`trail, sessions
      ensures Valid()
      ensures forall i | 0 <= i < |sessions| :: sessions[i].Model() == Closed(old(sessions[i].Model()))
      ensures Roster() == FanOut.SessionsClosed(old(Roster()), sessions, old(CanceledOf(sessions)))
    {
      ghost var roster, gone := Roster(), CanceledOf(sessions);
      assert forall i | 0 <= i < |sessions| :: sessions[i] in gone <==> sessions[i].Model().phase.Canceled?;
      for i := 0 to |sessions|
        invariant Valid()
        invariant forall j | 0 <= j < i :: sessions[j].Model() == Closed(old(sessions[j].Model()))
        invariant forall j | i <= j < |sessions| :: sessions[j].Model() == old(sessions[j].Model())
        invariant Roster() == FanOut.SessionsClosed(roster, sessions[..i], gone)
      {
        hide Closed, FanOut.SessionClosed, FanOut.SessionsClosed;
        FanOut.SessionsClosedNext(roster, sessions, i, gone);
        assert sessions[i].Model().phase == sessions[i].state;
        CancelSession(sessions[i]);
      }
      assert sessions[..|sessions|] == sessions;
    }
  }
}
