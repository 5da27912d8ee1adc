/** The publisher's session list and the order in which `send` calls reach the sessions. A
    `send` is numbered in the lock section that decides it: the check that finds the list empty,
    or the fan-out. */
module FanOut {
  import opened Bytes

  /** The session list; per session the numbers of the sends offered to it, the count of decided
      sends when it was inserted and when it was removed; and the sessions that have run their
      closed handler, in particular before they were inserted. */
  datatype Roster<T(==)> = Roster(
    sessions: seq<T>, decided: nat, offers: map<T, seq<nat>>, joined: map<T, nat>, left: map<T, nat>,
    closed: set<T>, early: set<T>)

  function NewRoster<T>(): Roster<T> { Roster([], 0, map[], map[], map[], {}, {}) }

  // ----- Steps -----

  function Inserted<T>(r: Roster<T>, x: T): Roster<T> {
    r.(sessions := r.sessions + [x], offers := r.offers[x := []], joined := r.joined[x := r.decided])
  }

  /** The position of the first occurrence, or the length. */
  function Find<T(==)>(xs: seq<T>, x: T): (k: nat)
    ensures k <= |xs| && (k < |xs| ==> xs[k] == x) && (k < |xs| <==> x in xs)
  {
    if xs == [] then 0 else if xs[0] == x then 0 else 1 + Find(xs[1..], x)
  }

  function Erased<T(==)>(xs: seq<T>, x: T): seq<T> {
    var k := Find(xs, x);
    if k < |xs| then xs[..k] + xs[k + 1..] else xs
  }

  /** The closed handler of a session: it is erased if it is in the list. */
  function SessionClosed<T(==)>(r: Roster<T>, x: T): Roster<T> {
    var t := r.(closed := r.closed + {x}, sessions := Erased(r.sessions, x));
    if x in r.sessions then t.(left := r.left[x := r.decided]) else t.(early := r.early + {x})
  }

  /** The closed handlers of several sessions, one after the other, except those in `gone`. */
  function SessionsClosed<T(==)>(r: Roster<T>, xs: seq<T>, gone: set<T>): Roster<T> {
    if xs == [] then r
    else
      var before, last := SessionsClosed(r, xs[..|xs| - 1], gone), xs[|xs| - 1];
      if last in gone then before else SessionClosed(before, last)
  }

  /** A `send` that finds no session, decided by the check. */
  function Skipped<T>(r: Roster<T>): Roster<T> { r.(decided := r.decided + 1) }

  /** A `send` that offers its buffer to every session in the list. */
  function FannedOut<T(==)>(r: Roster<T>): Roster<T> {
    r.(decided := r.decided + 1,
       offers := map x | x in r.offers :: if x in r.sessions then r.offers[x] + [r.decided] else r.offers[x])
  }

  datatype Event<T> = Insert(x: T) | Close(x: T) | Skip | Send

  /** A session is inserted once and closes once; the check skips only on an empty list. */
  predicate Enabled<T(==)>(r: Roster<T>, e: Event<T>) {
    match e
    case Insert(x) => x !in r.joined
    case Close(x) => x !in r.closed
    case Skip => r.sessions == []
    case Send => true
  }

  function Step<T(==)>(r: Roster<T>, e: Event<T>): Roster<T>
    requires Enabled(r, e)
  {
    match e
    case Insert(x) => Inserted(r, x)
    case Close(x) => SessionClosed(r, x)
    case Skip => Skipped(r)
    case Send => FannedOut(r)
  }

  ghost predicate ValidRun<T>(r: Roster<T>, es: seq<Event<T>>)
    decreases es
  {
    es == [] || (Enabled(r, es[0]) && ValidRun(Step(r, es[0]), es[1..]))
  }

  ghost function Run<T>(r: Roster<T>, es: seq<Event<T>>): Roster<T>
    requires ValidRun(r, es)
    decreases es
  {
    if es == [] then r else Run(Step(r, es[0]), es[1..])
  }

  // ----- What every run keeps -----

  function Interval(from: nat, to: nat): seq<nat> {
    if from >= to then [] else seq(to - from, i requires 0 <= i => from + i)
  }

  /** Where the stay of an inserted session ends: at its removal, or now. */
  function End<T(==)>(r: Roster<T>, x: T): nat { if x in r.left then r.left[x] else r.decided }

  ghost predicate NoRepeats<T>(xs: seq<T>) { forall i, j | 0 <= i < j < |xs| :: xs[i] != xs[j] }

  ghost predicate Listed<T>(r: Roster<T>) {
    && NoRepeats(r.sessions)
    && (forall x | x in r.sessions :: x in r.joined && x !in r.left)
    && (forall x | x in r.joined && x !in r.left :: x in r.sessions)
    && (forall x | x in r.left :: x in r.joined && x in r.closed && x !in r.early)
    && (forall x | x in r.early :: x in r.closed)
    && (forall x | x in r.closed :: x in r.left || x in r.early)
  }

  /** A session has been offered what was decided during its stay. */
  ghost predicate OfferedInterval<T>(r: Roster<T>, x: T)
    requires x in r.joined && x in r.offers
  {
    r.joined[x] <= End(r, x) <= r.decided && r.offers[x] == Interval(r.joined[x], End(r, x))
  }

  ghost predicate Offers<T>(r: Roster<T>) {
    && (forall x | x in r.offers :: x in r.joined)
    && (forall x | x in r.joined :: x in r.offers && OfferedInterval(r, x))
  }

  lemma ErasedFromList<T>(xs: seq<T>, x: T)
    requires NoRepeats(xs)
    ensures NoRepeats(Erased(xs, x))
    ensures forall y | y in Erased(xs, x) :: y in xs && y != x
    ensures forall y | y in xs && y != x :: y in Erased(xs, x)
  {
    var k, t := Find(xs, x), Erased(xs, x);
    forall y | y in xs && y != x ensures y in t {
      var i :| 0 <= i < |xs| && xs[i] == y;
      if k < |xs| { assert t[if i < k then i else i - 1] == y; }
    }
  }

  /** The handlers remove their sessions, whatever the order, and no other. */
  lemma {:induction false} AllErased<T>(r: Roster<T>, xs: seq<T>, gone: set<T>)
    requires NoRepeats(r.sessions)
    ensures var t := SessionsClosed(r, xs, gone);
      && NoRepeats(t.sessions) && t.decided == r.decided && t.offers == r.offers && t.joined == r.joined
      && (forall y :: y in t.sessions <==> y in r.sessions && (y !in xs || y in gone))
  {
    if xs != [] {
      var init, last := xs[..|xs| - 1], xs[|xs| - 1];
      AllErased(r, init, gone);
      ErasedFromList(SessionsClosed(r, init, gone).sessions, last);
      assert forall y :: y in xs <==> y in init || y == last;
      hide Erased, SessionsClosed, NoRepeats;
    }
  }

  lemma SessionsClosedNext<T>(r: Roster<T>, xs: seq<T>, i: nat, gone: set<T>)
    requires i < |xs|
    ensures SessionsClosed(r, xs[..0], gone) == r
    ensures var before := SessionsClosed(r, xs[..i], gone);
      SessionsClosed(r, xs[..i + 1], gone) == if xs[i] in gone then before else SessionClosed(before, xs[i])
  {
    assert xs[..i + 1][..i] == xs[..i];
    hide SessionClosed;
  }

  lemma ListedStep<T>(r: Roster<T>, e: Event<T>)
    requires Listed(r) && Enabled(r, e)
    ensures Listed(Step(r, e))
  {
    if e.Close? { ErasedFromList(r.sessions, e.x); }
  }

  lemma IntervalGrows(from: nat, to: nat)
    requires from <= to
    ensures Interval(from, to + 1) == Interval(from, to) + [to]
  {
  }

  lemma OfferedStep<T>(r: Roster<T>, e: Event<T>, x: T)
    requires Listed(r) && Enabled(r, e) && x in r.joined && x in r.offers && OfferedInterval(r, x)
    ensures var t := Step(r, e); x in t.joined && x in t.offers && OfferedInterval(t, x)
  {
    if (e.Send? || e.Skip?) && x in r.sessions { IntervalGrows(r.joined[x], r.decided); }
    hide Interval;
  }

  lemma OffersStep<T>(r: Roster<T>, e: Event<T>)
    requires Listed(r) && Offers(r) && Enabled(r, e)
    ensures Offers(Step(r, e))
  {
    hide OfferedInterval, Listed, End;
    if e.Insert? {
      OffersInsert(r, e.x);
    } else {
      forall x | x in r.joined ensures x in Step(r, e).offers && OfferedInterval(Step(r, e), x) {
        OfferedStep(r, e, x);
      }
    }
  }

  lemma OffersInsert<T>(r: Roster<T>, x: T)
    requires Listed(r) && Offers(r) && x !in r.joined
    ensures Offers(Inserted(r, x))
  {
    LeftWasJoined(r);
    hide Listed, End, Interval;
    var t := Inserted(r, x);
    forall y | y in t.joined ensures y in t.offers && OfferedInterval(t, y) {
      if y == x { FirstInterval(r, x); } else { OfferedStep(r, Insert(x), y); }
    }
  }

  lemma LeftWasJoined<T>(r: Roster<T>)
    requires Listed(r)
    ensures forall x | x in r.left :: x in r.joined
  {
  }

  lemma FirstInterval<T>(r: Roster<T>, x: T)
    requires x !in r.joined && x !in r.left
    ensures OfferedInterval(Inserted(r, x), x)
  {
  }

  lemma {:induction false} RunKeeps<T>(r: Roster<T>, es: seq<Event<T>>)
    requires Listed(r) && Offers(r) && ValidRun(r, es)
    ensures Listed(Run(r, es)) && Offers(Run(r, es))
    decreases es
  {
    hide Listed, Offers, Step, Enabled;
    if es != [] {
      ListedStep(r, es[0]);
      OffersStep(r, es[0]);
      RunKeeps(Step(r, es[0]), es[1..]);
    }
  }

  // ----- The order of the list -----

  ghost predicate Before<T>(joined: map<T, nat>, x: T, y: T) {
    x in joined && y in joined && joined[x] <= joined[y]
  }

  /** The sessions are listed in the order in which they were inserted. */
  ghost predicate InOrder<T>(sessions: seq<T>, joined: map<T, nat>) {
    forall i, j | 0 <= i < j < |sessions| :: Before(joined, sessions[i], sessions[j])
  }

  ghost predicate NoneLater<T>(joined: map<T, nat>, n: nat) { forall x | x in joined :: joined[x] <= n }

  ghost predicate Senior<T>(r: Roster<T>) { NoneLater(r.joined, r.decided) && InOrder(r.sessions, r.joined) }

  lemma SeniorInsert<T>(r: Roster<T>, x: T)
    requires Senior(r) && Listed(r) && x !in r.joined
    ensures Senior(Inserted(r, x))
  {
    var t := Inserted(r, x);
    forall i, j | 0 <= i < j < |t.sessions| ensures Before(t.joined, t.sessions[i], t.sessions[j]) {
      assert r.sessions[i] in r.sessions;
      if j < |r.sessions| {
        assert r.sessions[j] in r.sessions;
        assert Before(r.joined, r.sessions[i], r.sessions[j]);
      }
    }
  }

  lemma ErasedInOrder<T>(xs: seq<T>, x: T, joined: map<T, nat>)
    requires InOrder(xs, joined)
    ensures InOrder(Erased(xs, x), joined)
  {
    var k, ys := Find(xs, x), Erased(xs, x);
    hide Before;
    forall i, j | 0 <= i < j < |ys| ensures Before(joined, ys[i], ys[j]) {
      var i', j' := if k < |xs| && k <= i then i + 1 else i, if k < |xs| && k <= j then j + 1 else j;
      assert ys[i] == xs[i'] && ys[j] == xs[j'];
    }
  }

  lemma SeniorClose<T>(r: Roster<T>, x: T)
    requires Senior(r)
    ensures Senior(SessionClosed(r, x))
  {
    ErasedInOrder(r.sessions, x, r.joined);
    hide InOrder, Erased;
  }

  lemma SeniorStep<T>(r: Roster<T>, e: Event<T>)
    requires Senior(r) && Listed(r) && Enabled(r, e)
    ensures Senior(Step(r, e))
  {
    match e
    case Insert(x) => hide *; SeniorInsertStep(r, x);
    case Close(x) => hide *; SeniorCloseStep(r, x);
    case _ => SeniorSame(r, Step(r, e));
  }

  lemma SeniorSame<T>(r: Roster<T>, t: Roster<T>)
    requires Senior(r) && t.sessions == r.sessions && t.joined == r.joined && r.decided <= t.decided
    ensures Senior(t)
  {
    hide InOrder;
    forall x | x in t.joined ensures t.joined[x] <= t.decided {
      assert x in r.joined && r.joined[x] <= r.decided;
    }
  }

  lemma SeniorInsertStep<T>(r: Roster<T>, x: T)
    requires Senior(r) && Listed(r) && Enabled(r, Insert(x))
    ensures Senior(Step(r, Insert(x)))
  {
    hide Senior, Listed, Inserted;
    SeniorInsert(r, x);
  }

  lemma SeniorCloseStep<T>(r: Roster<T>, x: T)
    requires Senior(r) && Enabled(r, Close(x))
    ensures Senior(Step(r, Close(x)))
  {
    hide Senior, SessionClosed;
    SeniorClose(r, x);
  }

  lemma {:induction false} SeniorRun<T>(r: Roster<T>, es: seq<Event<T>>)
    requires Senior(r) && Listed(r) && ValidRun(r, es)
    ensures Senior(Run(r, es))
    decreases es
  {
    hide Senior, Listed, Step, Enabled;
    if es != [] {
      SeniorStep(r, es[0]);
      ListedStep(r, es[0]);
      SeniorRun(Step(r, es[0]), es[1..]);
    }
  }

  /** In every run, a fan-out serves the sessions in the order in which they came. */
  lemma ListInOrder<T>(es: seq<Event<T>>)
    requires ValidRun(NewRoster<T>(), es)
    ensures Senior(Run(NewRoster<T>(), es))
  {
    SeniorRun(NewRoster<T>(), es);
  }

  ghost predicate StrictlyIncreasing(ns: seq<nat>) { forall i, j | 0 <= i < j < |ns| :: ns[i] < ns[j] }

  /** In every run, the buffers offered to a session are exactly the sends decided between its
      insertion and its removal, in order and without a gap: so any two sessions are offered the
      same buffers, in the same order, while both are in the list. */
  lemma SessionsAgreeOnOrder<T>(es: seq<Event<T>>, x: T, y: T)
    requires ValidRun(NewRoster(), es)
    requires x in Run(NewRoster(), es).joined && y in Run(NewRoster(), es).joined
    ensures var r := Run(NewRoster(), es);
      && x in r.offers && y in r.offers && StrictlyIncreasing(r.offers[x])
      && (forall n :: n in r.offers[x] <==> r.joined[x] <= n < End(r, x))
      && (forall n | r.joined[x] <= n < End(r, x) && r.joined[y] <= n < End(r, y) ::
            n in r.offers[x] && n in r.offers[y])
  {
    RunKeeps(NewRoster(), es);
    var r := Run(NewRoster(), es);
    IntervalMembers(r.joined[x], End(r, x));
    IntervalMembers(r.joined[y], End(r, y));
  }

  lemma IntervalMembers(from: nat, to: nat)
    ensures StrictlyIncreasing(Interval(from, to))
    ensures forall n :: n in Interval(from, to) <==> from <= n < to
  {
    forall n | from <= n < to ensures n in Interval(from, to) {
      assert Interval(from, to)[n - from] == n;
    }
  }

  /** A closed session stays in the list exactly when it closed before it was inserted. */
  lemma StaleSessions<T>(es: seq<Event<T>>, x: T)
    requires ValidRun(NewRoster(), es)
    ensures var r := Run(NewRoster(), es);
      x in r.sessions && x in r.closed <==> x in r.joined && x in r.early
  {
    RunKeeps(NewRoster(), es);
  }

  ghost predicate ClosesEarly<T>(r: Roster<T>, es: seq<Event<T>>, x: T)
    requires ValidRun(r, es)
    decreases es
  {
    es != [] && ((es[0] == Close(x) && x !in r.sessions) || ClosesEarly(Step(r, es[0]), es[1..], x))
  }

  /** The condition in terms of the run: its closed handler came while it was not in the list. */
  lemma {:induction false} EarlyMeansNotListed<T>(r: Roster<T>, es: seq<Event<T>>, x: T)
    requires ValidRun(r, es)
    ensures x in Run(r, es).early <==> x in r.early || ClosesEarly(r, es, x)
    decreases es
  {
    if es != [] {
      EarlyMeansNotListed(Step(r, es[0]), es[1..], x);
    }
  }
}
