/** Directed integer intervals as sets of points. A width gives the range of the integer type; additions
    that saturate at its ends are written out. */
module Intervallum {
  import opened Wrappers

  datatype Width = Width(min: int, max: int) {
    predicate Valid() {
      -0x8000_0000_0000_0000 <= min <= 0 < max < 0x1_0000_0000_0000_0000
    }

    predicate Holds(x: int) {
      min <= x <= max
    }

    /** `saturating_add` and `saturating_sub`. */
    function Clamp(x: int): int {
      if x < min then min else if x > max then max else x
    }
  }

  datatype Kind = Exclusive | Inclusive

  datatype Interval = Interval(initium: int, finis: int, kind: Kind)

  predicate Fits(w: Width, a: Interval) {
    w.Valid() && w.Holds(a.initium) && w.Holds(a.finis)
  }

  predicate Ascending(a: Interval) {
    a.initium <= a.finis
  }

  /** `continet`: `initium` belongs to the interval, `finis` only to a closed one. */
  predicate Continet(a: Interval, x: int) {
    match a.kind
    case Exclusive => if Ascending(a) then a.initium <= x < a.finis else a.finis < x <= a.initium
    case Inclusive => if Ascending(a) then a.initium <= x <= a.finis else a.finis <= x <= a.initium
  }

  predicate IsEmpty(a: Interval) {
    a.kind == Exclusive && a.initium == a.finis
  }

  function Max(a: int, b: int): int {
    if a >= b then a else b
  }

  function Min(a: int, b: int): int {
    if a <= b then a else b
  }

  function Low(a: Interval): int { Min(a.initium, a.finis) }

  function High(a: Interval): int { Max(a.initium, a.finis) }

  /** The least and the greatest point of a non-empty interval. */
  function First(a: Interval): int { if a.kind == Exclusive && !Ascending(a) then a.finis + 1 else Low(a) }

  function Last(a: Interval): int { if a.kind == Exclusive && Ascending(a) then a.finis - 1 else High(a) }

  /** The points are those between the first and the last; an empty interval has none. */
  lemma PointsAreRun(a: Interval, x: int)
    ensures Continet(a, x) <==> First(a) <= x <= Last(a)
    ensures IsEmpty(a) <==> First(a) > Last(a)
    ensures Low(a) <= First(a) && Last(a) <= High(a)
  {
  }

  // ----- walking

  /** How many points there are. */
  function Count(a: Interval): nat {
    if IsEmpty(a) then 0 else Last(a) - First(a) + 1
  }

  /** The k-th point of the walk. */
  function Step(a: Interval, k: nat): int {
    if Ascending(a) then a.initium + k else a.initium - k
  }

  /** The walk visits the points of the interval and no others, each once. */
  lemma WalkVisits(a: Interval, x: int)
    ensures Continet(a, x) <==> exists k: nat :: k < Count(a) && Step(a, k) == x
  {
    if Continet(a, x) {
      var k := if Ascending(a) then x - a.initium else a.initium - x;
      assert k < Count(a) && Step(a, k) == x;
    }
  }

  method AdLista(w: Width, a: Interval) returns (out: seq<int>)
    requires Fits(w, a)
    ensures |out| == Count(a) && forall k :: 0 <= k < |out| ==> out[k] == Step(a, k) && w.Holds(out[k])
  {
    out := [];
    var cursor := a.initium;
    if Ascending(a) {
      while if a.kind == Exclusive then cursor < a.finis else cursor <= a.finis
        invariant cursor == a.initium + |out| && |out| <= Count(a)
        invariant w.Holds(cursor) || |out| == Count(a)
        invariant forall k :: 0 <= k < |out| ==> out[k] == Step(a, k) && w.Holds(out[k])
        decreases a.finis - cursor
      {
        out := out + [cursor];
        if cursor >= w.max {
          break;
        }
        cursor := cursor + 1;
      }
    } else {
      while if a.kind == Exclusive then cursor > a.finis else cursor >= a.finis
        invariant cursor == a.initium - |out| && |out| <= Count(a)
        invariant w.Holds(cursor) || |out| == Count(a)
        invariant forall k :: 0 <= k < |out| ==> out[k] == Step(a, k) && w.Holds(out[k])
        decreases cursor - a.finis
      {
        out := out + [cursor];
        if cursor <= w.min {
          break;
        }
        cursor := cursor - 1;
      }
    }
  }

  /** The lazy walk: a cursor, and a flag for when it cannot move past the end of the type. */
  class IntervallumWalk {
    const w: Width
    const interval: Interval
    var cursor: int
    var exhausted: bool
    /** How many points were handed out. */
    ghost var given: nat

    ghost predicate Valid()
      reads this
    {
      && Fits(w, interval) && given <= Count(interval)
      && (exhausted ==> given == Count(interval))
      && (!exhausted ==> w.Holds(cursor) && cursor == Step(interval, given))
    }

    constructor (w: Width, interval: Interval)
      requires Fits(w, interval)
      ensures Valid() && given == 0 && this.interval == interval
    {
      this.w, this.interval, cursor, exhausted, given := w, interval, interval.initium, false, 0;
    }

    /** The next point of the same walk as the eager list, or None after the last one and ever after. */
    method Next() returns (r: Option<int>)
      requires Valid()
      modifies this
      ensures Valid()
      ensures r == if old(given) < Count(interval) then Some(Step(interval, old(given))) else None
      ensures given == old(given) + (if r.Some? then 1 else 0)
    {
      if exhausted {
        return None;
      }
      var ascending := Ascending(interval);
      var done := if ascending
        then (if interval.kind == Exclusive then cursor >= interval.finis else cursor > interval.finis)
        else (if interval.kind == Exclusive then cursor <= interval.finis else cursor < interval.finis);
      if done {
        exhausted := true;
        return None;
      }
      var current := cursor;
      given := given + 1;
      if ascending {
        if current >= w.max || current >= interval.finis {
          exhausted := true;
        } else {
          cursor := cursor + 1;
        }
      } else if current <= w.min || current <= interval.finis {
        exhausted := true;
      } else {
        cursor := cursor - 1;
      }
      r := Some(current);
    }
  }

  /** `as i64` of a value of the type. */
  function ToI64(n: int): int {
    if n > 0x7fff_ffff_ffff_ffff then n - 0x1_0000_0000_0000_0000 else n
  }

  function Span(a: Interval): nat { High(a) - Low(a) }

  /** `longitudo`, whose subtraction saturates at the end of the type. */
  function Longitudo(w: Width, a: Interval): int {
    var span := ToI64(w.Clamp(Span(a)));
    if a.kind == Exclusive then span else if span == 0x7fff_ffff_ffff_ffff then span else span + 1
  }

  /** It is the number of points exactly when the span fits the type and the number fits an i64. */
  lemma LongitudoCounts(w: Width, a: Interval)
    requires Fits(w, a)
    ensures Longitudo(w, a) == Count(a) <==> Span(a) <= w.max && Count(a) <= 0x7fff_ffff_ffff_ffff
  {
  }

  /** A signed byte interval whose length comes out wrong. */
  lemma LongitudoSaturates()
    ensures var w := Width(-128, 127); var a := Interval(-100, 100, Inclusive);
            Fits(w, a) && Count(a) == 201 && Longitudo(w, a) == 128
  {
  }

  // ----- clamping

  function Coercere(w: Width, a: Interval, value: int): (r: int) {
    if Continet(a, value) then value
    else
      var low := if a.kind == Exclusive && !Ascending(a) then w.Clamp(Low(a) + 1) else Low(a);
      var high := if a.kind == Exclusive && Ascending(a) then w.Clamp(High(a) - 1) else High(a);
      if value < low then low else if value > high then high else value
  }

  function Distance(x: int, y: int): nat {
    if x <= y then y - x else x - y
  }

  /** The clamped value is a point of the interval exactly when there is one, and then the nearest. */
  lemma CoercereNearest(w: Width, a: Interval, value: int)
    requires Fits(w, a) && w.Holds(value)
    ensures Continet(a, Coercere(w, a, value)) <==> !IsEmpty(a)
    ensures forall x :: Continet(a, x) ==> Distance(value, Coercere(w, a, value)) <= Distance(value, x)
    ensures w.Holds(Coercere(w, a, value))
  {
  }

  // ----- intersection

  /** The result of scanning in from both ends: an inclusive interval in the direction of the left one. */
  function Directed(left: Interval, low: int, high: int): Interval {
    if left.initium > left.finis then Interval(high, low, Inclusive) else Interval(low, high, Inclusive)
  }

  predicate Shared(a: Interval, b: Interval, x: int) {
    Continet(a, x) && Continet(b, x)
  }

  lemma SharedRun(a: Interval, b: Interval)
    ensures forall x :: Shared(a, b, x) <==> Max(First(a), First(b)) <= x <= Min(Last(a), Last(b))
    ensures Max(Low(a), Low(b)) <= Max(First(a), First(b)) && Min(Last(a), Last(b)) <= Min(High(a), High(b))
  {
  }

  lemma DirectedHolds(w: Width, left: Interval, low: int, high: int)
    requires w.Valid() && w.Holds(low) && w.Holds(high) && low <= high
    ensures var r := Directed(left, low, high);
            Fits(w, r) && r.kind == Inclusive && forall x :: Continet(r, x) <==> low <= x <= high
    ensures var r := Directed(left, low, high);
            (left.initium > left.finis ==> r.initium >= r.finis) &&
                (left.initium <= left.finis ==> r.initium <= r.finis)
  {
  }

  /** Some exactly when the intervals share a point, and then with exactly the shared points, in the
      direction of the left one. */
  method Inter(w: Width, a: Interval, b: Interval) returns (r: Option<Interval>)
    requires Fits(w, a) && Fits(w, b)
    ensures r.None? <==> forall x :: !Shared(a, b, x)
    ensures r.Some? ==> Fits(w, r.value) && forall x :: Continet(r.value, x) <==> Shared(a, b, x)
    ensures r.Some? ==> r.value.kind == Inclusive
    ensures r.Some? ==>
              if a.initium > a.finis then r.value.initium >= r.value.finis else r.value.initium <= r.value.finis
  {
    SharedRun(a, b);
    var lo := Max(Low(a), Low(b));
    var hi := Min(High(a), High(b));
    hide Continet, Shared, First, Last;
    if lo > hi {
      return None;
    }
    var newLo := lo;
    while !Shared(a, b, newLo)
      invariant lo <= newLo <= hi
      invariant forall x :: lo <= x < newLo ==> !Shared(a, b, x)
      decreases hi - newLo
    {
      if newLo >= hi {
        return None;
      }
      newLo := w.Clamp(newLo + 1);
    }
    var newHi := hi;
    while !Shared(a, b, newHi)
      invariant newLo <= newHi <= hi
      invariant forall x :: newHi < x <= hi ==> !Shared(a, b, x)
      decreases newHi - newLo
    {
      if newHi <= newLo {
        return None;
      }
      newHi := w.Clamp(newHi - 1);
    }
    DirectedHolds(w, a, newLo, newHi);
    r := Some(Directed(a, newLo, newHi));
  }

  // ----- union

  function ActualHigh(w: Width, a: Interval): int {
    if Continet(a, High(a)) then High(a) else w.Clamp(High(a) - 1)
  }

  function ActualLow(w: Width, a: Interval): int {
    if Continet(a, Low(a)) then Low(a) else w.Clamp(Low(a) + 1)
  }

  predicate Touches(w: Width, a: Interval, b: Interval) {
    || (a.finis == b.initium && (Continet(a, b.initium) || Continet(b, a.finis)))
    || (b.finis == a.initium && (Continet(b, a.initium) || Continet(a, b.finis)))
    || w.Clamp(ActualHigh(w, a) + 1) == ActualLow(w, b)
    || w.Clamp(ActualHigh(w, b) + 1) == ActualLow(w, a)
  }

  predicate Meet(a: Interval, b: Interval) {
    First(a) <= Last(b) && First(b) <= Last(a) && !IsEmpty(a) && !IsEmpty(b)
  }

  predicate InUnion(a: Interval, b: Interval, x: int) {
    Continet(a, x) || Continet(b, x)
  }

  /** Whatever lies between two points of the union belongs to it. */
  ghost predicate NoGap(a: Interval, b: Interval) {
    forall x, y, z :: InUnion(a, b, x) && InUnion(a, b, z) && x <= y <= z ==> InUnion(a, b, y)
  }

  lemma MeetIsShared(a: Interval, b: Interval)
    ensures Meet(a, b) <==> exists x :: Shared(a, b, x)
  {
    if Meet(a, b) {
      assert Shared(a, b, Max(First(a), First(b)));
    }
  }

  /** The bounds that are compared are the points next to each other. */
  lemma ActualBounds(w: Width, a: Interval)
    requires Fits(w, a) && !IsEmpty(a)
    ensures ActualHigh(w, a) == Last(a) && ActualLow(w, a) == First(a)
    ensures w.Holds(First(a)) && w.Holds(Last(a)) && First(a) <= Last(a)
  {
  }

  /** The ends of a non-empty interval are its first or last point, or next to it outside. */
  lemma TouchesMeans(w: Width, a: Interval, b: Interval)
    requires Fits(w, a) && Fits(w, b) && !IsEmpty(a) && !IsEmpty(b)
    ensures Touches(w, a, b) ==> First(a) <= Last(b) + 1 && First(b) <= Last(a) + 1
    ensures Last(a) + 1 == First(b) || Last(b) + 1 == First(a) ==> Touches(w, a, b)
  {
    ActualBounds(w, a);
    ActualBounds(w, b);
    hide ActualHigh, ActualLow;
  }

  /** Two runs of points have no gap between them exactly when neither ends before the other begins. */
  lemma RunsNoGap(a: Interval, b: Interval)
    requires !IsEmpty(a) && !IsEmpty(b)
    ensures NoGap(a, b) <==> First(a) <= Last(b) + 1 && First(b) <= Last(a) + 1
  {
    forall x ensures InUnion(a, b, x) <==> First(a) <= x <= Last(a) || First(b) <= x <= Last(b) {
      PointsAreRun(a, x);
      PointsAreRun(b, x);
    }
    hide Continet, InUnion, First, Last, IsEmpty;
    assert InUnion(a, b, First(a)) && InUnion(a, b, First(b)) && InUnion(a, b, Last(a)) && InUnion(a, b, Last(b));
    if Last(a) + 1 < First(b) {
      assert !InUnion(a, b, Last(a) + 1);
    } else if Last(b) + 1 < First(a) {
      assert !InUnion(a, b, Last(b) + 1);
    }
  }

  /** Non-empty intervals that meet or touch are those without a gap between them. */
  lemma NoGapIsContact(w: Width, a: Interval, b: Interval)
    requires Fits(w, a) && Fits(w, b) && !IsEmpty(a) && !IsEmpty(b)
    ensures NoGap(a, b) <==> Meet(a, b) || Touches(w, a, b)
  {
    RunsNoGap(a, b);
    TouchesMeans(w, a, b);
    hide Touches, NoGap, First, Last;
  }

  /** The scans look for a point that belongs to one of the intervals. Two empty intervals that count as
      touching have none, so for them the loops would never end; for all others they do. */
  predicate UnionEnds(w: Width, a: Interval, b: Interval) {
    !IsEmpty(a) || !IsEmpty(b) || !Touches(w, a, b)
  }

  method Union(w: Width, a: Interval, b: Interval) returns (r: Option<Interval>)
    requires Fits(w, a) && Fits(w, b) && UnionEnds(w, a, b)
    ensures r.Some? <==> Meet(a, b) || Touches(w, a, b)
    ensures !IsEmpty(a) && !IsEmpty(b) ==> (r.Some? <==> NoGap(a, b))
    ensures r.Some? ==> Fits(w, r.value) && r.value.kind == Inclusive
    ensures r.Some? ==> forall x :: Continet(r.value, x) <==> InUnion(a, b, x)
    ensures r.Some? ==>
              if a.initium > a.finis then r.value.initium >= r.value.finis else r.value.initium <= r.value.finis
  {
    var common := Inter(w, a, b);
    MeetIsShared(a, b);
    if IsEmpty(a) || IsEmpty(b) {
      OneRunNoGap(a, b);
    } else {
      NoGapIsContact(w, a, b);
    }
    if common.None? && !Touches(w, a, b) {
      return None;
    }
    NotBothEmpty(w, a, b);
    hide Continet, InUnion, First, Last, IsEmpty, Touches, NoGap, Meet, Shared, Directed, Fits;
    var newLo := ScanLow(w, a, b);
    var newHi := ScanHigh(w, a, b, newLo);
    DirectedHolds(w, a, newLo, newHi);
    r := Some(Directed(a, newLo, newHi));
    FillsBetween(a, b, newLo, newHi);
  }

  lemma OneRunNoGap(a: Interval, b: Interval)
    requires IsEmpty(a) || IsEmpty(b)
    ensures NoGap(a, b)
  {
  }

  lemma NotBothEmpty(w: Width, a: Interval, b: Interval)
    requires UnionEnds(w, a, b) && (Meet(a, b) || Touches(w, a, b))
    ensures !IsEmpty(a) || !IsEmpty(b)
  {
  }

  /** The first loop of `union`. */
  method ScanLow(w: Width, a: Interval, b: Interval) returns (newLo: int)
    requires Fits(w, a) && Fits(w, b) && (!IsEmpty(a) || !IsEmpty(b))
    ensures w.Holds(newLo) && InUnion(a, b, newLo) && forall x :: x < newLo ==> !InUnion(a, b, x)
  {
    UnionInside(a, b);
    hide Continet, InUnion, First, Last, IsEmpty;
    newLo := Min(Low(a), Low(b));
    var hi := Max(High(a), High(b));
    while !InUnion(a, b, newLo)
      invariant Min(Low(a), Low(b)) <= newLo <= hi
      invariant forall x :: x < newLo ==> !InUnion(a, b, x)
      decreases hi - newLo
    {
      UnionReachable(a, b, newLo);
      newLo := w.Clamp(newLo + 1);
    }
  }

  /** The second loop of `union`. */
  method ScanHigh(w: Width, a: Interval, b: Interval, newLo: int) returns (newHi: int)
    requires Fits(w, a) && Fits(w, b) && InUnion(a, b, newLo)
    ensures w.Holds(newHi) && newLo <= newHi && InUnion(a, b, newHi) && forall x :: x > newHi ==> !InUnion(a, b, x)
  {
    UnionInside(a, b);
    hide Continet, InUnion, First, Last, IsEmpty;
    newHi := Max(High(a), High(b));
    while !InUnion(a, b, newHi)
      invariant newLo <= newHi <= Max(High(a), High(b))
      invariant forall x :: x > newHi ==> !InUnion(a, b, x)
      decreases newHi - newLo
    {
      newHi := w.Clamp(newHi - 1);
    }
  }

  lemma UnionInside(a: Interval, b: Interval)
    ensures forall x :: InUnion(a, b, x) ==> Min(Low(a), Low(b)) <= x <= Max(High(a), High(b))
  {
  }

  lemma FillsBetween(a: Interval, b: Interval, low: int, high: int)
    requires NoGap(a, b) && InUnion(a, b, low) && InUnion(a, b, high)
    requires forall x :: x < low || x > high ==> !InUnion(a, b, x)
    ensures forall x :: low <= x <= high <==> InUnion(a, b, x)
  {
  }

  /** While a scan has not met a point, one is still ahead. */
  lemma UnionReachable(a: Interval, b: Interval, x: int)
    requires (!IsEmpty(a) || !IsEmpty(b)) && forall y :: y <= x ==> !InUnion(a, b, y)
    ensures x < Max(High(a), High(b))
  {
    var c := if !IsEmpty(a) then a else b;
    PointsAreRun(c, First(c));
    assert InUnion(a, b, First(c));
  }

  /** Where a scan from `x` is after k turns; it stays at the end of the type. */
  function ScanUp(w: Width, x: int, k: nat): int {
    if k == 0 then x else w.Clamp(ScanUp(w, x, k - 1) + 1)
  }

  function ScanDown(w: Width, x: int, k: nat): int {
    if k == 0 then x else w.Clamp(ScanDown(w, x, k - 1) - 1)
  }

  lemma {:induction false} ScansMove(w: Width, x: int, k: nat)
    requires w.Holds(x)
    ensures w.Holds(x + k) ==> ScanUp(w, x, k) == x + k
    ensures w.Holds(x - k) ==> ScanDown(w, x, k) == x - k
  {
    if k > 0 {
      ScansMove(w, x, k - 1);
    }
  }

  /** The scan upwards from the lower end comes to a point, and so does the one downwards. */
  ghost predicate ScansEnd(w: Width, a: Interval, b: Interval) {
    && (exists k: nat :: InUnion(a, b, ScanUp(w, Min(Low(a), Low(b)), k)))
    && (exists k: nat :: InUnion(a, b, ScanDown(w, Max(High(a), High(b)), k)))
  }

  /** `union` comes to an end exactly when it does not get to the scans or both scans end. */
  lemma UnionEndsExactly(w: Width, a: Interval, b: Interval)
    requires Fits(w, a) && Fits(w, b)
    ensures UnionEnds(w, a, b) <==> ((forall x :: !Shared(a, b, x)) && !Touches(w, a, b)) || ScansEnd(w, a, b)
  {
    if IsEmpty(a) && IsEmpty(b) {
      assert forall x :: !InUnion(a, b, x) && !Shared(a, b, x);
    } else {
      UnionInside(a, b);
      var c := if !IsEmpty(a) then a else b;
      PointsAreRun(c, First(c));
      var x, low, high := First(c), Min(Low(a), Low(b)), Max(High(a), High(b));
      assert InUnion(a, b, x) && low <= x <= high;
      ScansMove(w, low, x - low);
      ScansMove(w, high, high - x);
      hide InUnion, ScanUp, ScanDown, Touches;
      assert InUnion(a, b, ScanUp(w, low, x - low)) && InUnion(a, b, ScanDown(w, high, high - x));
    }
  }

  /** The intervals for which it does not: two empty ones next to each other, or at the same end of the type. */
  lemma EmptyUnionNeverEnds(w: Width, a: Interval, b: Interval)
    requires Fits(w, a) && Fits(w, b)
    ensures UnionEnds(w, a, b) <==>
              !(IsEmpty(a) && IsEmpty(b) &&
                (Distance(a.finis, b.finis) == 1 || (a.finis == b.finis && (a.finis == w.min || a.finis == w.max))))
  {
    if IsEmpty(a) && IsEmpty(b) {
      assert ActualHigh(w, a) == w.Clamp(a.finis - 1) && ActualLow(w, a) == w.Clamp(a.finis + 1);
    }
  }
}
