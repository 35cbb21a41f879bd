/**
 * The queues of the intersection: per compass direction one arrival list
 * (vehicles approaching the stop line) and one stop list (vehicles waiting
 * at it), plus one shared list of the vehicles inside the intersection.
 */
module Queues {
  import opened Drivers

  datatype Option<T> = None | Some(value: T)

  /** How many drivers of `s` carry the name `x`. */
  function Occ(s: seq<Driver>, x: nat): nat
  {
    if s == [] then 0 else Occ(s[..|s| - 1], x) + (if s[|s| - 1].name == x then 1 else 0)
  }

  lemma OccAppend(s: seq<Driver>, v: Driver, x: nat)
    ensures Occ(s + [v], x) == Occ(s, x) + (if v.name == x then 1 else 0)
  {
    assert (s + [v])[..|s|] == s;
  }

  lemma {:induction false} OccConcat(a: seq<Driver>, b: seq<Driver>, x: nat)
    ensures Occ(a + b, x) == Occ(a, x) + Occ(b, x)
    decreases |b|
  {
    if b == [] {
      assert a + b == a;
    } else {
      var c := b[..|b| - 1];
      assert a + b == (a + c) + [b[|b| - 1]];
      OccAppend(a + c, b[|b| - 1], x);
      OccConcat(a, c, x);
    }
  }

  /** Taking the head off a list removes one occurrence of the head's name. */
  lemma OccDropHead(s: seq<Driver>, x: nat)
    requires s != []
    ensures Occ(s, x) == Occ(s[1..], x) + (if s[0].name == x then 1 else 0)
  {
    assert s == [s[0]] + s[1..];
    OccConcat([s[0]], s[1..], x);
    assert Occ([s[0]], x) == Occ([], x) + (if s[0].name == x then 1 else 0) by {
      assert [s[0]][..0] == [];
    }
  }

  /** Lists with the same names position by position have the same occurrences. */
  lemma {:induction false} OccSameNames(a: seq<Driver>, b: seq<Driver>, x: nat)
    requires |a| == |b| && forall i :: 0 <= i < |a| ==> a[i].name == b[i].name
    ensures Occ(a, x) == Occ(b, x)
    decreases |a|
  {
    if a != [] {
      OccSameNames(a[..|a| - 1], b[..|b| - 1], x);
    }
  }

  /** A name that occurs in a list is counted at least once. */
  lemma {:induction false} OccMember(s: seq<Driver>, i: nat)
    requires i < |s|
    ensures Occ(s, s[i].name) >= 1
    decreases |s|
  {
    if i < |s| - 1 {
      OccMember(s[..|s| - 1], i);
    }
  }

  /** Drivers listed in increasing name order, which is creation order. */
  predicate ByName(s: seq<Driver>)
  {
    forall i, j :: 0 <= i < j < |s| ==> s[i].name < s[j].name
  }

  /** Every driver of `s` comes from `d`, is in state `e` and has not crashed. */
  predicate InLane(s: seq<Driver>, d: Direction, e: Event)
  {
    forall i :: 0 <= i < |s| ==> s[i].origin == d && s[i].event == e && !s[i].crashed
  }

  /** A driver one tick later: its countdown is one time step lower. */
  function Age(v: Driver): Driver
  {
    v.(busyTime := v.busyTime - TimeStep)
  }

  /** Every driver of `s` one tick later, order and all other fields kept. */
  function Aged(s: seq<Driver>): seq<Driver>
  {
    seq(|s|, i requires 0 <= i < |s| => Age(s[i]))
  }

  /** A driver whose overdue (negative) countdown is floored at zero. */
  function Clamp(v: Driver): Driver
  {
    if v.busyTime < 0 then v.(busyTime := 0) else v
  }

  function Clamped(s: seq<Driver>): seq<Driver>
  {
    seq(|s|, i requires 0 <= i < |s| => Clamp(s[i]))
  }

  /** One of the countdown loops: lowers every driver's countdown in place. */
  method ElapseEach(s: seq<Driver>) returns (r: seq<Driver>)
    ensures r == Aged(s)
  {
    r := s;
    var i := 0;
    while i < |r|
      invariant 0 <= i <= |r| == |s|
      invariant forall k :: 0 <= k < i ==> r[k] == Age(s[k])
      invariant forall k :: i <= k < |r| ==> r[k] == s[k]
    {
      r := r[i := r[i].(busyTime := r[i].busyTime - TimeStep)];
      i := i + 1;
    }
  }

  /** One of the clamping loops: zeroes every negative countdown in place. */
  method ResetEach(s: seq<Driver>) returns (r: seq<Driver>)
    ensures r == Clamped(s)
  {
    r := s;
    var i := 0;
    while i < |r|
      invariant 0 <= i <= |r| == |s|
      invariant forall k :: 0 <= k < i ==> r[k] == Clamp(s[k])
      invariant forall k :: i <= k < |r| ==> r[k] == s[k]
    {
      if r[i].busyTime < 0 {
        r := r[i := r[i].(busyTime := 0)];
      }
      i := i + 1;
    }
  }

  /**
   * Ageing and clamping change countdowns only: the same drivers stay in the
   * same order, so every name occurs as often as before.
   */
  lemma CountdownUpdatesKeepNames(s: seq<Driver>, x: nat)
    ensures |Aged(s)| == |s| && |Clamped(s)| == |s|
    ensures forall i :: 0 <= i < |s| ==> Aged(s)[i].name == s[i].name && Clamped(s)[i].name == s[i].name
    ensures Occ(Aged(s), x) == Occ(s, x) && Occ(Clamped(s), x) == Occ(s, x)
  {
    OccSameNames(Aged(s), s, x);
    OccSameNames(Clamped(s), s, x);
  }

  /**
   * Ageing and clamping keep a list in its lane (origin, state and crash
   * flag) and in creation order, and no countdown is negative after
   * clamping.
   */
  lemma CountdownUpdatesKeepLane(s: seq<Driver>, d: Direction, e: Event)
    ensures InLane(s, d, e) ==> InLane(Aged(s), d, e) && InLane(Clamped(s), d, e)
    ensures ByName(s) ==> ByName(Aged(s)) && ByName(Clamped(s))
    ensures forall i :: 0 <= i < |s| ==> Clamped(s)[i].busyTime >= 0
  {
  }

  /** Four lists of drivers, one per compass direction. */
  datatype Lanes = Lanes(north: seq<Driver>, east: seq<Driver>, south: seq<Driver>, west: seq<Driver>)
  {
    function Get(d: Direction): seq<Driver>
    {
      match d
      case North => north
      case East => east
      case South => south
      case West => west
    }

    /** The same lanes with direction `d`'s list replaced by `s`. */
    function Set(d: Direction, s: seq<Driver>): (r: Lanes)
      ensures r.Get(d) == s
      ensures forall e :: e != d ==> r.Get(e) == Get(e)
    {
      match d
      case North => this.(north := s)
      case East => this.(east := s)
      case South => this.(south := s)
      case West => this.(west := s)
    }

    /** Every driver of every lane one tick later. */
    function Elapsed(): (r: Lanes)
      ensures forall d :: r.Get(d) == Aged(Get(d))
    {
      Lanes(Aged(north), Aged(east), Aged(south), Aged(west))
    }

    /** Every driver of every lane comes from that lane's own direction. */
    predicate AllInPlace()
    {
      forall d, i :: 0 <= i < |Get(d)| ==> Get(d)[i].origin == d
    }

    /** Every lane's head comes from that lane's own direction. */
    predicate HeadsInPlace()
    {
      forall d :: Get(d) != [] ==> Get(d)[0].origin == d
    }

    function Count(): nat
    {
      |north| + |east| + |south| + |west|
    }

    /** How many drivers of all four lanes carry the name `x`. */
    function Tally(x: nat): nat
    {
      Occ(north, x) + Occ(east, x) + Occ(south, x) + Occ(west, x)
    }

    /** Replacing one lane's list replaces that list's drivers in the totals. */
    lemma SetCounts(d: Direction, s: seq<Driver>, x: nat)
      ensures Set(d, s).Tally(x) + Occ(Get(d), x) == Tally(x) + Occ(s, x)
      ensures Set(d, s).Count() + |Get(d)| == Count() + |s|
    {
      match d
      case North =>
      case East =>
      case South =>
      case West =>
    }

    lemma ElapsedCounts(x: nat)
      ensures Elapsed().Tally(x) == Tally(x) && Elapsed().Count() == Count()
    {
      CountdownUpdatesKeepNames(north, x);
      CountdownUpdatesKeepNames(east, x);
      CountdownUpdatesKeepNames(south, x);
      CountdownUpdatesKeepNames(west, x);
    }
  }

  function EmptyLanes(): Lanes
  {
    Lanes([], [], [], [])
  }

  /** Lane `d` has a head whose countdown has gone negative (it is overdue). */
  predicate Overdue(l: Lanes, d: Direction)
  {
    l.Get(d) != [] && l.Get(d)[0].busyTime < 0
  }

  /** Best head seen so far in the admission scan: its countdown and the driver. */
  datatype Best = Best(min: int, driver: Option<Driver>)

  /** One step of the scan: take this list's head if it beats the running minimum strictly. */
  function Consider(b: Best, q: seq<Driver>): Best
  {
    if q != [] && q[0].busyTime < b.min then Best(q[0].busyTime, Some(q[0])) else b
  }

  /** The direction at position `k` of the scan order North, East, South, West. */
  function NthDirection(k: nat): (d: Direction)
    requires k < 4
    ensures ScanIndex(d) == k
    ensures forall e :: ScanIndex(e) == k ==> e == d
  {
    if k == 0 then North else if k == 1 then East else if k == 2 then South else West
  }

  /** The scan after its first `k` directions, starting from minimum 0 and nobody. */
  function ScanPrefix(l: Lanes, k: nat): Best
    requires k <= 4
  {
    if k == 0 then Best(0, None) else Consider(ScanPrefix(l, k - 1), l.Get(NthDirection(k - 1)))
  }

  /**
   * What the scan knows after `k` directions: its minimum is at most zero and
   * at most every scanned head's countdown; with nobody chosen the minimum is
   * still zero; otherwise the chosen driver `w` is an overdue scanned head
   * holding the minimum, strictly below every head scanned before it.
   */
  lemma {:induction false} ScanPrefixChoice(l: Lanes, k: nat) returns (w: Direction)
    requires k <= 4
    ensures ScanPrefix(l, k).min <= 0
    ensures forall d :: ScanIndex(d) < k && l.Get(d) != [] ==> ScanPrefix(l, k).min <= l.Get(d)[0].busyTime
    ensures ScanPrefix(l, k).driver.None? ==> ScanPrefix(l, k).min == 0
    ensures ScanPrefix(l, k).driver.Some? ==>
      && ScanIndex(w) < k && Overdue(l, w)
      && ScanPrefix(l, k).driver.value == l.Get(w)[0]
      && ScanPrefix(l, k).min == l.Get(w)[0].busyTime
      && forall d :: ScanIndex(d) < ScanIndex(w) && l.Get(d) != [] ==> ScanPrefix(l, k).min < l.Get(d)[0].busyTime
  {
    if k == 0 {
      w := North;
    } else {
      var earlier := ScanPrefixChoice(l, k - 1);
      var q := l.Get(NthDirection(k - 1));
      if q != [] && q[0].busyTime < ScanPrefix(l, k - 1).min {
        w := NthDirection(k - 1);
      } else {
        w := earlier;
      }
    }
  }

  /**
   * The admission rule over the four stop-list heads: nobody unless some head
   * is overdue; otherwise an overdue head whose countdown is no larger than
   * any other head's. When every head waits in its own origin's list, the
   * chosen driver heads its origin's list and its countdown is strictly
   * smaller than that of every head earlier in scan order.
   */
  lemma ScanChoice(l: Lanes)
    ensures var r := ScanPrefix(l, 4).driver;
      && (r.None? <==> forall d :: !Overdue(l, d))
      && (r.Some? ==> exists d :: Overdue(l, d) && r.value == l.Get(d)[0])
      && (r.Some? ==> forall d :: l.Get(d) != [] ==> r.value.busyTime <= l.Get(d)[0].busyTime)
      && (r.Some? && l.HeadsInPlace() ==>
            && Overdue(l, r.value.origin) && r.value == l.Get(r.value.origin)[0]
            && forall d :: l.Get(d) != [] && ScanIndex(d) < ScanIndex(r.value.origin) ==>
                 r.value.busyTime < l.Get(d)[0].busyTime)
  {
    var w := ScanPrefixChoice(l, 4);
  }

  class DriverQueue {
    var arrivals: Lanes
    var stops: Lanes
    var intersection: seq<Driver>

    constructor ()
      ensures arrivals == EmptyLanes() && stops == EmptyLanes() && intersection == []
    {
      arrivals := EmptyLanes();
      stops := EmptyLanes();
      intersection := [];
    }

    /** Direction `d`'s stop list has a head whose countdown has gone negative. */
    predicate Eligible(d: Direction)
      reads this
    {
      Overdue(stops, d)
    }

    /** Every stop-list head waits in its own origin's list. */
    predicate HeadsInPlace()
      reads this
    {
      stops.HeadsInPlace()
    }

    method AddDriverArrivals(v: Driver)
      modifies this`arrivals
      ensures arrivals == old(arrivals).Set(v.origin, old(arrivals).Get(v.origin) + [v])
    {
      arrivals := arrivals.Set(v.origin, arrivals.Get(v.origin) + [v]);
    }

    method AddDriverStop(v: Driver)
      modifies this`stops
      ensures stops == old(stops).Set(v.origin, old(stops).Get(v.origin) + [v])
    {
      stops := stops.Set(v.origin, stops.Get(v.origin) + [v]);
    }

    method AddDriverIntersection(v: Driver)
      modifies this`intersection
      ensures intersection == old(intersection) + [v]
    {
      intersection := intersection + [v];
    }

    /** Lowers the countdown of every queued driver by one time step. */
    method ElapseDriverTime()
      modifies this
      ensures arrivals == old(arrivals).Elapsed()
      ensures stops == old(stops).Elapsed()
      ensures intersection == Aged(old(intersection))
    {
      var north := ElapseEach(arrivals.north);
      var east := ElapseEach(arrivals.east);
      var south := ElapseEach(arrivals.south);
      var west := ElapseEach(arrivals.west);
      var northStop := ElapseEach(stops.north);
      var westStop := ElapseEach(stops.west);
      var southStop := ElapseEach(stops.south);
      var eastStop := ElapseEach(stops.east);
      var inside := ElapseEach(intersection);
      arrivals := Lanes(north, east, south, west);
      stops := Lanes(northStop, eastStop, southStop, westStop);
      intersection := inside;
    }

    /**
     * The admission rule: scanning the stop-list heads North, East, South,
     * West against a running minimum that starts at zero and moves only on a
     * strictly smaller countdown. Nobody is chosen unless some head is
     * overdue (negative); otherwise the chosen head has the smallest
     * countdown of all overdue heads, and ties go to the earliest direction
     * in scan order.
     */
    function NextDriver(): (r: Option<Driver>)
      reads this
      ensures r == ScanPrefix(stops, 4).driver
      ensures r.None? <==> forall d :: !Eligible(d)
      ensures r.Some? ==> exists d :: Eligible(d) && r.value == stops.Get(d)[0]
      ensures r.Some? ==> forall d :: Eligible(d) ==> r.value.busyTime <= stops.Get(d)[0].busyTime
      ensures r.Some? && HeadsInPlace() ==>
        && Eligible(r.value.origin) && r.value == stops.Get(r.value.origin)[0]
        && forall d :: Eligible(d) && ScanIndex(d) < ScanIndex(r.value.origin) ==>
             r.value.busyTime < stops.Get(d)[0].busyTime
    {
      var b1 := Consider(Best(0, None), stops.north);
      var b2 := Consider(b1, stops.east);
      var b3 := Consider(b2, stops.south);
      var b4 := Consider(b3, stops.west);
      assert b1 == ScanPrefix(stops, 1);
      assert b2 == ScanPrefix(stops, 2) by { assert NthDirection(1) == East; }
      assert b3 == ScanPrefix(stops, 3) by { assert NthDirection(2) == South; }
      assert b4 == ScanPrefix(stops, 4) by { assert NthDirection(3) == West; }
      ScanChoice(stops);
      assert forall d :: Eligible(d) == Overdue(stops, d);
      b4.driver
    }

    /** Floors at zero every negative countdown in direction `d`'s stop list. */
    method ResetBusyTime(d: Direction)
      modifies this`stops
      ensures stops == old(stops).Set(d, Clamped(old(stops).Get(d)))
    {
      var clamped := ResetEach(stops.Get(d));
      stops := stops.Set(d, clamped);
    }
  }
}
