/** A whole publisher in motion: its session list, all its sessions with their streams, and `send`,
    interleaved at the lock sections. It shows that what a session accepts is what `send` made. */
module PublisherRuns {
  import opened Bytes
  import opened TcpHeader
  import opened FrameReader
  import opened FrameWriter
  import opened SendProtocol
  import opened SendTheorems
  import opened Wire
  import FanOut

  /** The session list, the link of every accepted client, and what each decided `send` was
      called with and found in its recycled buffer. */
  datatype Net = Net(roster: FanOut.Roster<nat>, links: map<nat, Link>,
                     sends: seq<seq<Part>>, prior: seq<seq<byte>>)

  const NEW_NET := Net(FanOut.NewRoster(), map[], [], [])

  datatype NetEvent =
    | Accept(x: nat)                              // a client is accepted, its session started
    | Insert(x: nat)                              // and put into the list
    | At(x: nat, e: LinkEvent)                    // a session or its socket moves
    | Closed(x: nat)                              // the closed handler's lock section
    | Skip(parts: seq<Part>)                      // a `send` that finds the list empty
    | Send(parts: seq<Part>, prior: seq<byte>)    // a `send` that offers its buffer

  // ----- Steps -----

  predicate Fits(parts: seq<Part>) { HEADER_SIZE + TotalSize(parts) < 0x1_0000_0000_0000_0000 }

  /** Sessions are started by `Accept` and offered buffers by `Send` only; the closed handler
      runs once, in a session that is canceled. */
  ghost predicate NetEnabled(n: Net, e: NetEvent) {
    match e
    case Accept(x) => x !in n.links
    case Insert(x) => x in n.links && x !in n.roster.joined
    case At(x, e) =>
      x in n.links && LinkEnabled(n.links[x], e) && (e.Proto? ==> !e.e.Start? && !e.e.Offer?)
    case Closed(x) => x in n.links && n.links[x].sess.phase.Canceled? && x !in n.roster.closed
    case Skip(parts) => n.roster.sessions == []
    case Send(parts, prior) => Fits(parts)
  }

  function OfferedLink(l: Link, b: Buffer): Link { Moved(l, Offered(l.sess, b), l.left) }

  /** The buffer of the `send` that is decided next. */
  function NextBuffer(n: Net, parts: seq<Part>, prior: seq<byte>): Buffer
    requires Fits(parts)
  {
    Buffer(n.roster.decided, Filled(parts, prior))
  }

  function FanOutLinks(n: Net, b: Buffer): map<nat, Link> {
    map x | x in n.links :: if x in n.roster.sessions then OfferedLink(n.links[x], b) else n.links[x]
  }

  function NetStep(n: Net, e: NetEvent): Net
    requires NetEnabled(n, e)
  {
    match e
    case Accept(x) => n.(links := n.links[x := LinkStep(FRESH_LINK, Proto(Start))])
    case Insert(x) => n.(roster := FanOut.Inserted(n.roster, x))
    case At(x, e) => n.(links := n.links[x := LinkStep(n.links[x], e)])
    case Closed(x) => n.(roster := FanOut.SessionClosed(n.roster, x))
    case Skip(parts) => Net(FanOut.Skipped(n.roster), n.links, n.sends + [parts], n.prior + [[]])
    case Send(parts, prior) =>
      Net(FanOut.FannedOut(n.roster), FanOutLinks(n, NextBuffer(n, parts, prior)),
          n.sends + [parts], n.prior + [prior])
  }

  ghost predicate ValidNetRun(n: Net, es: seq<NetEvent>)
    decreases es
  {
    es == [] || (NetEnabled(n, es[0]) && ValidNetRun(NetStep(n, es[0]), es[1..]))
  }

  ghost function NetRun(n: Net, es: seq<NetEvent>): Net
    requires ValidNetRun(n, es)
    decreases es
  {
    if es == [] then n else NetRun(NetStep(n, es[0]), es[1..])
  }

  // ----- What every run keeps -----

  /** The buffer holds what the `send` of its serial made of its sub-buffers. */
  ghost predicate MadeBySend(b: Buffer, sends: seq<seq<Part>>, prior: seq<seq<byte>>) {
    b.serial < |sends| == |prior| && Fits(sends[b.serial]) && b.bytes == Filled(sends[b.serial], prior[b.serial])
  }

  ghost predicate AllMadeBySend(bs: seq<Buffer>, sends: seq<seq<Part>>, prior: seq<seq<byte>>) {
    forall b | b in bs :: MadeBySend(b, sends, prior)
  }

  function Serials(bs: seq<Buffer>): seq<nat> { seq(|bs|, i requires 0 <= i < |bs| => bs[i].serial) }

  /** The sends that the fan-out has offered to a session. */
  function OffersOf(n: Net, x: nat): seq<nat> { if x in n.roster.offers then n.roster.offers[x] else [] }

  /** A session has accepted, in order, the sends offered to it: all of them while it lives, and
      the first ones, up to its cancellation, from then on. */
  ghost predicate Tracks(l: Link, offers: seq<nat>) {
    && Serials(l.sess.accepted) <= offers
    && (!l.sess.phase.Canceled? ==> Serials(l.sess.accepted) == offers)
  }

  ghost predicate ListInv(n: Net) {
    && FanOut.Listed(n.roster) && FanOut.Offers(n.roster)
    && |n.sends| == |n.prior| == n.roster.decided
    && (forall x | x in n.roster.joined :: x in n.links)
    && (forall x | x in n.roster.closed :: x in n.links && n.links[x].sess.phase.Canceled?)
  }

  ghost predicate LinkInv(n: Net, x: nat)
    requires x in n.links
  {
    var l := n.links[x];
    && Tracks(l, OffersOf(n, x))
    && AllMadeBySend(l.sess.accepted, n.sends, n.prior)
    && !l.sess.phase.NotStarted?
  }

  ghost predicate NetInv(n: Net) { ListInv(n) && forall x | x in n.links :: LinkInv(n, x) }

  // ----- One session's part in a run -----

  /** What the event is for session `x`. */
  ghost function Share(n: Net, e: NetEvent, x: nat): seq<LinkEvent>
    requires NetEnabled(n, e)
  {
    match e
    case Accept(y) => if x == y then [Proto(Start)] else []
    case At(y, e) => if x == y then [e] else []
    case Send(parts, prior) =>
      if x in n.links && x in n.roster.sessions then [Proto(Offer(NextBuffer(n, parts, prior)))] else []
    case _ => []
  }

  ghost function Shares(n: Net, es: seq<NetEvent>, x: nat): seq<LinkEvent>
    requires ValidNetRun(n, es)
    decreases es
  {
    if es == [] then [] else Share(n, es[0], x) + Shares(NetStep(n, es[0]), es[1..], x)
  }

  function LinkOf(n: Net, x: nat): Link { if x in n.links then n.links[x] else FRESH_LINK }

  // ----- The list -----

  lemma ListStep(n: Net, e: NetEvent)
    requires ListInv(n) && NetEnabled(n, e)
    ensures ListInv(NetStep(n, e))
  {
    hide FanOut.Listed, FanOut.Offers, FanOut.FannedOut, FanOut.Inserted, FanOut.SessionClosed, Filled;
    match e
    case Accept(_) =>
    case Insert(x) =>
      FanOut.ListedStep(n.roster, FanOut.Insert(x));
      FanOut.OffersStep(n.roster, FanOut.Insert(x));
      RosterBookkeeping(n.roster, FanOut.Insert(x));
    case At(x, e) => CanceledStays(n.links[x], e);
    case Closed(x) =>
      FanOut.ListedStep(n.roster, FanOut.Close(x));
      FanOut.OffersStep(n.roster, FanOut.Close(x));
      RosterBookkeeping(n.roster, FanOut.Close(x));
    case Skip(_) =>
      FanOut.ListedStep(n.roster, FanOut.Skip);
      FanOut.OffersStep(n.roster, FanOut.Skip);
    case Send(_, _) =>
      FanOut.ListedStep(n.roster, FanOut.Send);
      FanOut.OffersStep(n.roster, FanOut.Send);
      RosterBookkeeping(n.roster, FanOut.Send);
  }

  lemma RosterBookkeeping(r: FanOut.Roster<nat>, e: FanOut.Event<nat>)
    requires FanOut.Enabled(r, e)
    ensures var t := FanOut.Step(r, e);
      && (forall x | x in t.joined :: x in r.joined || e == FanOut.Insert(x))
      && (forall x | x in t.closed :: x in r.closed || e == FanOut.Close(x))
      && t.decided == r.decided + (if e.Send? || e.Skip? then 1 else 0)
  {
  }

  lemma CanceledStays(l: Link, e: LinkEvent)
    requires LinkEnabled(l, e) && (e.Proto? ==> !e.e.Start?)
    ensures l.sess.phase.Canceled? ==> LinkStep(l, e).sess.phase.Canceled?
    ensures l.sess.phase.NotStarted? <== LinkStep(l, e).sess.phase.NotStarted?
  {
    hide Complete, Want, ValidStage;
  }

  // ----- The sessions -----

  lemma SerialsAppend(bs: seq<Buffer>, b: Buffer)
    ensures Serials(bs + [b]) == Serials(bs) + [b.serial]
  {
  }

  lemma OfferTracks(l: Link, b: Buffer, offers: seq<nat>)
    requires Tracks(l, offers)
    ensures Tracks(OfferedLink(l, b), offers + [b.serial])
    ensures OfferedLink(l, b).sess.phase == l.sess.phase
    ensures OfferedLink(l, b).sess.accepted
            == if l.sess.phase.Canceled? then l.sess.accepted else l.sess.accepted + [b]
  {
    SerialsAppend(l.sess.accepted, b);
    hide Serials;
  }

  lemma MoveTracks(l: Link, e: LinkEvent, offers: seq<nat>)
    requires Tracks(l, offers) && LinkEnabled(l, e) && (e.Proto? ==> !e.e.Start? && !e.e.Offer?)
    ensures Tracks(LinkStep(l, e), offers) && LinkStep(l, e).sess.accepted == l.sess.accepted
  {
    CanceledStays(l, e);
    hide Serials, Complete, Want, ValidStage;
  }

  lemma StillMade(bs: seq<Buffer>, sends: seq<seq<Part>>, prior: seq<seq<byte>>, parts: seq<Part>, was: seq<byte>)
    requires AllMadeBySend(bs, sends, prior)
    ensures AllMadeBySend(bs, sends + [parts], prior + [was])
  {
    hide Filled;
    forall b | b in bs ensures MadeBySend(b, sends + [parts], prior + [was]) {
      assert MadeBySend(b, sends, prior);
    }
  }

  lemma OneMoreMade(bs: seq<Buffer>, b: Buffer, sends: seq<seq<Part>>, prior: seq<seq<byte>>)
    requires AllMadeBySend(bs, sends, prior) && MadeBySend(b, sends, prior)
    ensures AllMadeBySend(bs + [b], sends, prior)
  {
    hide MadeBySend;
  }

  lemma NextIsMade(n: Net, parts: seq<Part>, prior: seq<byte>)
    requires ListInv(n) && Fits(parts)
    ensures MadeBySend(NextBuffer(n, parts, prior), n.sends + [parts], n.prior + [prior])
  {
    hide Filled, FanOut.Listed, FanOut.Offers;
  }

  /** What the fan-out adds to the offers of a session. */
  lemma OffersOfSend(n: Net, x: nat)
    requires ListInv(n)
    ensures var t := FanOut.FannedOut(n.roster);
      (if x in t.offers then t.offers[x] else [])
      == if x in n.roster.sessions then OffersOf(n, x) + [n.roster.decided] else OffersOf(n, x)
  {
    if x in n.roster.sessions { assert x in n.roster.joined && x in n.roster.offers; }
  }

  lemma SendEffect(n: Net, parts: seq<Part>, prior: seq<byte>, x: nat)
    requires NetEnabled(n, Send(parts, prior)) && x in n.links
    ensures var t, b := NetStep(n, Send(parts, prior)), NextBuffer(n, parts, prior);
      && t.sends == n.sends + [parts] && t.prior == n.prior + [prior]
      && t.roster == FanOut.FannedOut(n.roster)
      && x in t.links && t.links[x] == if x in n.roster.sessions then OfferedLink(n.links[x], b) else n.links[x]
  {
    hide FanOut.FannedOut, OfferedLink, Filled;
  }

  lemma LinkSend(n: Net, parts: seq<Part>, prior: seq<byte>, x: nat)
    requires NetInv(n) && NetEnabled(n, Send(parts, prior)) && x in n.links
    ensures LinkInv(NetStep(n, Send(parts, prior)), x)
  {
    assert LinkInv(n, x);
    SendEffect(n, parts, prior, x);
    OffersOfSend(n, x);
    NextIsMade(n, parts, prior);
    hide *;
    LinkOffered(n, NetStep(n, Send(parts, prior)), x, NextBuffer(n, parts, prior), parts, prior);
  }

  lemma LinkOffered(n: Net, t: Net, x: nat, b: Buffer, parts: seq<Part>, prior: seq<byte>)
    requires x in n.links && x in t.links && LinkInv(n, x)
    requires t.sends == n.sends + [parts] && t.prior == n.prior + [prior]
    requires b.serial == n.roster.decided && MadeBySend(b, t.sends, t.prior)
    requires t.links[x] == if x in n.roster.sessions then OfferedLink(n.links[x], b) else n.links[x]
    requires OffersOf(t, x) == if x in n.roster.sessions then OffersOf(n, x) + [b.serial] else OffersOf(n, x)
    ensures LinkInv(t, x)
  {
    var l := n.links[x];
    OfferTracks(l, b, OffersOf(n, x));
    StillMade(l.sess.accepted, n.sends, n.prior, parts, prior);
    OneMoreMade(l.sess.accepted, b, t.sends, t.prior);
    hide Tracks, AllMadeBySend, MadeBySend, OfferedLink, OffersOf;
  }

  lemma LinkSkip(n: Net, parts: seq<Part>, x: nat)
    requires NetInv(n) && NetEnabled(n, Skip(parts)) && x in n.links
    ensures LinkInv(NetStep(n, Skip(parts)), x)
  {
    assert LinkInv(n, x);
    StillMade(n.links[x].sess.accepted, n.sends, n.prior, parts, []);
    hide Tracks, AllMadeBySend, ListInv;
  }

  lemma LinkAccept(n: Net, x: nat)
    requires NetInv(n) && NetEnabled(n, Accept(x))
    ensures LinkInv(NetStep(n, Accept(x)), x)
  {
    assert x !in n.roster.joined && x !in n.roster.offers by { hide FanOut.Listed; }
    var t := NetStep(n, Accept(x));
    assert t.links[x].sess.accepted == [] && Serials([]) == [];
  }

  lemma LinkInsert(n: Net, y: nat, x: nat)
    requires NetInv(n) && NetEnabled(n, Insert(y)) && x in n.links
    ensures LinkInv(NetStep(n, Insert(y)), x)
  {
    assert LinkInv(n, x);
    assert y !in n.roster.offers by { hide FanOut.Listed; }
    hide Tracks, AllMadeBySend, ListInv;
  }

  /** Steps that leave a session, its offers and the sends as they are. */
  lemma LinkSame(n: Net, t: Net, x: nat)
    requires x in n.links && LinkInv(n, x) && x in t.links && t.links[x] == n.links[x]
    requires OffersOf(t, x) == OffersOf(n, x) && t.sends == n.sends && t.prior == n.prior
    ensures LinkInv(t, x)
  {
    hide Tracks, AllMadeBySend, OffersOf;
  }

  lemma LinkMoves(n: Net, e: LinkEvent, x: nat)
    requires x in n.links && LinkInv(n, x) && NetEnabled(n, At(x, e))
    ensures LinkInv(NetStep(n, At(x, e)), x)
  {
    MoveTracks(n.links[x], e, OffersOf(n, x));
    CanceledStays(n.links[x], e);
    hide Tracks, AllMadeBySend, LinkStep;
  }

  lemma LinkStays(n: Net, e: NetEvent, x: nat)
    requires NetInv(n) && NetEnabled(n, e) && x in NetStep(n, e).links
    ensures LinkInv(NetStep(n, e), x)
  {
    match e
    case Accept(y) =>
      if x == y { LinkAccept(n, y); } else { hide ListInv, LinkInv; LinkSame(n, NetStep(n, e), x); }
    case Insert(y) => hide ListInv, LinkInv; LinkInsert(n, y, x);
    case At(y, f) => hide *; LinkAt(n, y, f, x);
    case Closed(y) => hide *; LinkClosed(n, y, x);
    case Skip(parts) => hide *; LinkIsThere(n, e, x); LinkSkip(n, parts, x);
    case Send(parts, prior) => hide *; LinkIsThere(n, e, x); LinkSend(n, parts, prior, x);
  }

  lemma LinkClosed(n: Net, y: nat, x: nat)
    requires NetInv(n) && NetEnabled(n, Closed(y)) && x in NetStep(n, Closed(y)).links
    ensures LinkInv(NetStep(n, Closed(y)), x)
  {
    hide ListInv, LinkInv;
    LinkSame(n, NetStep(n, Closed(y)), x);
  }

  lemma LinkAt(n: Net, y: nat, e: LinkEvent, x: nat)
    requires NetInv(n) && NetEnabled(n, At(y, e)) && x in NetStep(n, At(y, e)).links
    ensures LinkInv(NetStep(n, At(y, e)), x)
  {
    hide ListInv, LinkInv, LinkStep, LinkEnabled;
    if x == y { LinkMoves(n, e, x); } else { LinkSame(n, NetStep(n, At(y, e)), x); }
  }

  lemma LinkIsThere(n: Net, e: NetEvent, x: nat)
    requires NetEnabled(n, e) && (e.Skip? || e.Send?) && x in NetStep(n, e).links
    ensures x in n.links
  {
    hide Filled, OfferedLink, FanOut.FannedOut;
  }

  lemma NetStepKeeps(n: Net, e: NetEvent)
    requires NetInv(n) && NetEnabled(n, e)
    ensures NetInv(NetStep(n, e))
  {
    ListStep(n, e);
    forall x | x in NetStep(n, e).links ensures LinkInv(NetStep(n, e), x) {
      LinkStays(n, e, x);
    }
    hide ListInv, LinkInv, NetStep, NetEnabled;
  }

  lemma {:induction false} NetRunKeeps(n: Net, es: seq<NetEvent>)
    requires NetInv(n) && ValidNetRun(n, es)
    ensures NetInv(NetRun(n, es))
    decreases es
  {
    hide NetInv, NetStep, NetEnabled;
    if es != [] {
      NetStepKeeps(n, es[0]);
      NetRunKeeps(NetStep(n, es[0]), es[1..]);
    }
  }

  // ----- A session's part is a run of its link -----

  /** A buffer of the fan-out is newer than all that a session has accepted. */
  lemma OfferIsEnabled(l: Link, b: Buffer, sends: seq<seq<Part>>, prior: seq<seq<byte>>)
    requires AllMadeBySend(l.sess.accepted, sends, prior) && b.serial == |sends|
    ensures LinkEnabled(l, Proto(Offer(b)))
  {
    var a := l.sess.accepted;
    hide Filled, Fits;
    if a != [] {
      assert MadeBySend(a[|a| - 1], sends, prior);
    }
  }

  lemma ShareOfSend(n: Net, parts: seq<Part>, prior: seq<byte>, x: nat)
    requires NetInv(n) && NetEnabled(n, Send(parts, prior)) && x in n.links && x in n.roster.sessions
    ensures var l, b := n.links[x], NextBuffer(n, parts, prior);
      && LinkEnabled(l, Proto(Offer(b)))
      && LinkStep(l, Proto(Offer(b))) == LinkOf(NetStep(n, Send(parts, prior)), x)
  {
    assert LinkInv(n, x);
    OfferIsEnabled(n.links[x], NextBuffer(n, parts, prior), n.sends, n.prior);
    SendEffect(n, parts, prior, x);
    hide *;
    OfferIsLinkStep(n.links[x], NextBuffer(n, parts, prior));
    ThereAlready(NetStep(n, Send(parts, prior)), x);
  }

  lemma ThereAlready(n: Net, x: nat)
    requires x in n.links
    ensures LinkOf(n, x) == n.links[x]
  {
  }

  lemma OfferIsLinkStep(l: Link, b: Buffer)
    requires LinkEnabled(l, Proto(Offer(b)))
    ensures LinkStep(l, Proto(Offer(b))) == OfferedLink(l, b)
  {
    hide Offered;
  }

  lemma ShareStep(n: Net, e: NetEvent, x: nat)
    requires NetInv(n) && NetEnabled(n, e)
    ensures ValidLinkRun(LinkOf(n, x), Share(n, e, x))
    ensures LinkRun(LinkOf(n, x), Share(n, e, x)) == LinkOf(NetStep(n, e), x)
  {
    match e
    case Accept(y) =>
      hide NetInv, LinkStep;
      if x == y { LinkRunOne(FRESH_LINK, Proto(Start)); }
    case At(y, e) =>
      hide NetInv, LinkStep, LinkEnabled;
      if x == y { LinkRunOne(n.links[x], e); }
    case Send(parts, prior) =>
      if x in n.links { SendEffect(n, parts, prior, x); }
      if x in n.links && x in n.roster.sessions {
        ShareOfSend(n, parts, prior, x);
        hide NetInv, LinkStep, LinkEnabled, NetStep, NextBuffer;
        LinkRunOne(n.links[x], Proto(Offer(NextBuffer(n, parts, prior))));
      } else {
        hide NetInv, Filled, OfferedLink, FanOut.FannedOut, NextBuffer;
      }
    case _ => hide NetInv;
  }

  lemma {:induction false} SharesRun(n: Net, es: seq<NetEvent>, x: nat)
    requires NetInv(n) && ValidNetRun(n, es)
    ensures ValidLinkRun(LinkOf(n, x), Shares(n, es, x))
    ensures LinkRun(LinkOf(n, x), Shares(n, es, x)) == LinkOf(NetRun(n, es), x)
    decreases es
  {
    if es != [] {
      NetStepKeeps(n, es[0]);
      ShareStep(n, es[0], x);
      hide NetInv, NetStep, NetEnabled, Share, LinkOf;
      SharesRun(NetStep(n, es[0]), es[1..], x);
      LinkRunConcat(LinkOf(n, x), Share(n, es[0], x), Shares(NetStep(n, es[0]), es[1..], x));
    }
  }

  lemma NewNetInv()
    ensures NetInv(NEW_NET)
  {
  }

  /** In every run of a publisher: what a session does is a run of a session on its own, so that
      all theorems about sessions and their streams apply; and what it accepts was made by `send`
      and is, in order, the sends decided between its insertion into the list and its removal, or
      the first of these if it was canceled earlier. */
  lemma SessionsAcceptSends(es: seq<NetEvent>, x: nat)
    requires ValidNetRun(NEW_NET, es) && x in NetRun(NEW_NET, es).links
    ensures var n := NetRun(NEW_NET, es);
      && ValidLinkRun(FRESH_LINK, Shares(NEW_NET, es, x))
      && LinkRun(FRESH_LINK, Shares(NEW_NET, es, x)) == n.links[x]
      && AllMadeBySend(n.links[x].sess.accepted, n.sends, n.prior)
    ensures var n := NetRun(NEW_NET, es);
      if x in n.roster.joined then
        Tracks(n.links[x], FanOut.Interval(n.roster.joined[x], FanOut.End(n.roster, x)))
      else n.links[x].sess.accepted == []
  {
    NewNetInv();
    NetRunKeeps(NEW_NET, es);
    SharesRun(NEW_NET, es, x);
    hide NetStep, NetEnabled;
    AcceptedInterval(NetRun(NEW_NET, es), x);
  }

  lemma AcceptedInterval(n: Net, x: nat)
    requires NetInv(n) && x in n.links
    ensures AllMadeBySend(n.links[x].sess.accepted, n.sends, n.prior)
    ensures if x in n.roster.joined then
        Tracks(n.links[x], FanOut.Interval(n.roster.joined[x], FanOut.End(n.roster, x)))
      else n.links[x].sess.accepted == []
  {
    assert LinkInv(n, x);
    if x in n.roster.joined {
      assert FanOut.OfferedInterval(n.roster, x);
      hide Tracks;
    } else {
      assert x !in n.roster.offers;
      assert |Serials(n.links[x].sess.accepted)| == 0;
    }
  }

  // ----- Sessions that stay in the list for good -----

  lemma PrependNet(n: Net, e: NetEvent, es: seq<NetEvent>) returns (r: seq<NetEvent>)
    requires NetEnabled(n, e) && ValidNetRun(NetStep(n, e), es)
    ensures r == [e] + es && ValidNetRun(n, r) && NetRun(n, r) == NetRun(NetStep(n, e), es)
  {
    hide NetStep, NetEnabled;
    r := [e] + es;
    assert r[1..] == es;
  }

  /** A client that is gone before its session is inserted: the closed handler finds nothing to
      remove, and the session is in the list from then on. */
  lemma StaleSessionHappens(x: nat) returns (es: seq<NetEvent>)
    ensures es == [Accept(x), At(x, Proto(Cancel)), Closed(x), Insert(x)] && ValidNetRun(NEW_NET, es)
    ensures var n := NetRun(NEW_NET, es);
      x in n.roster.sessions && x in n.roster.closed && x in n.links && n.links[x].sess.phase.Canceled?
  {
    var n1 := NetStep(NEW_NET, Accept(x));
    var n2 := NetStep(n1, At(x, Proto(Cancel)));
    var n3 := NetStep(n2, Closed(x));
    var n4 := NetStep(n3, Insert(x));
    assert NetEnabled(n1, At(x, Proto(Cancel))) && NetEnabled(n2, Closed(x)) && NetEnabled(n3, Insert(x));
    assert n4.roster.sessions == [x] && x in n4.roster.closed && n4.links[x].sess.phase.Canceled?;
    hide NetStep, NetEnabled;
    es := PrependNet(n3, Insert(x), []);
    es := PrependNet(n2, Closed(x), es);
    es := PrependNet(n1, At(x, Proto(Cancel)), es);
    es := PrependNet(NEW_NET, Accept(x), es);
  }

  lemma StaleStep(n: Net, e: NetEvent, x: nat)
    requires NetEnabled(n, e) && x in n.roster.sessions && x in n.roster.closed
    ensures x in NetStep(n, e).roster.sessions && x in NetStep(n, e).roster.closed
  {
    hide LinkStep, LinkEnabled, Filled, FanOutLinks;
    if e.Closed? {
      assert e.x != x;
      var k := FanOut.Find(n.roster.sessions, e.x);
      var i :| 0 <= i < |n.roster.sessions| && n.roster.sessions[i] == x;
      if k < |n.roster.sessions| {
        assert NetStep(n, e).roster.sessions[if i < k then i else i - 1] == x;
      }
    }
  }

  /** Nothing ever removes a stale session: it is offered every later buffer. */
  lemma {:induction false} StaleForGood(n: Net, es: seq<NetEvent>, x: nat)
    requires ValidNetRun(n, es) && x in n.roster.sessions && x in n.roster.closed
    ensures x in NetRun(n, es).roster.sessions && x in NetRun(n, es).roster.closed
    decreases es
  {
    hide NetStep, NetEnabled;
    if es != [] {
      StaleStep(n, es[0], x);
      StaleForGood(NetStep(n, es[0]), es[1..], x);
    }
  }
}
