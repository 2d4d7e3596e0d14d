/** Light-cone reachability between intervals and balls of real space, hop by hop and along chains. */
module Geometry {
  import opened Prelude

  type SquareRoot = real -> real

  /** What is assumed of the platform's square root where a result depends on it. */
  ghost predicate IsSqrt(sqrt: SquareRoot) {
    forall x: real :: x >= 0.0 ==> sqrt(x) >= 0.0 && sqrt(x) * sqrt(x) == x
  }

  /** Speeds are positive, in light-years per year. */
  type Speed = v: real | v > 0.0 witness 1.0

  function RealMax(a: real, b: real): real {
    if a >= b then a else b
  }

  datatype Point = Point(x: real, y: real, z: real)

  /** What a coordinate says of time and place: an interval, and a ball of space. */
  datatype Place = Place(tMin: I64, tMax: I64, center: Point, radius: real) {
    predicate IsValid() {
      tMin <= tMax && radius >= 0.0
    }
  }

  function Minus(p: Point, q: Point): Point {
    Point(p.x - q.x, p.y - q.y, p.z - q.z)
  }

  function Plus(p: Point, q: Point): Point {
    Point(p.x + q.x, p.y + q.y, p.z + q.z)
  }

  function Dot(p: Point, q: Point): real {
    p.x * q.x + p.y * q.y + p.z * q.z
  }

  function DistanceSquared(p: Point, q: Point): real {
    Dot(Minus(p, q), Minus(p, q))
  }

  function Distance(sqrt: SquareRoot, p: Point, q: Point): real {
    sqrt(DistanceSquared(p, q))
  }

  function MinDistance(sqrt: SquareRoot, p: Place, q: Place): real {
    RealMax(Distance(sqrt, p.center, q.center) - p.radius - q.radius, 0.0)
  }

  /** `e2.t_min - e1.t_max`, in 64-bit arithmetic. */
  function Delay(p: Place, q: Place): I64 {
    WrapI64(q.tMin - p.tMax)
  }

  /** How far light gets between two instants. */
  function Travel(speed: Speed, from: int, to: int): real {
    speed * (to - from) as real
  }

  predicate HopPossible(sqrt: SquareRoot, p: Place, q: Place, speed: Speed) {
    q.tMin >= p.tMin && Delay(p, q) as real >= MinDistance(sqrt, p, q) / speed
  }

  // ---------------------------------------------------------------- one hop, without the square root

  lemma ScaleUp(delay: real, distance: real, speed: Speed)
    ensures delay >= distance / speed <==> speed * delay >= distance
  {
    var q := distance / speed;
    assert q * speed == distance;
    if delay >= q {
      assert (delay - q) * speed >= 0.0;
    } else {
      assert (q - delay) * speed > 0.0;
    }
  }

  lemma SquareStrict(a: real, b: real)
    requires 0.0 <= a < b
    ensures a * a < b * b
  {
    assert (b - a) * b > 0.0;
    assert (b - a) * a >= 0.0;
  }

  lemma SquaresOrder(a: real, b: real)
    requires a >= 0.0 && b >= 0.0
    ensures a <= b <==> a * a <= b * b
  {
    if a < b {
      SquareStrict(a, b);
    } else if b < a {
      SquareStrict(b, a);
    }
  }

  lemma DotSelf(p: Point)
    ensures Dot(p, p) >= 0.0
  {
    assert p.x * p.x >= 0.0 && p.y * p.y >= 0.0 && p.z * p.z >= 0.0;
  }

  lemma ReachCoversDistance(delay: real, distance: real, radii: real, speed: Speed)
    requires distance >= 0.0
    ensures delay >= RealMax(distance - radii, 0.0) / speed <==>
            delay >= 0.0 && speed * delay + radii >= distance
  {
    ScaleUp(delay, RealMax(distance - radii, 0.0), speed);
    ScaleUp(delay, 0.0, speed);
  }

  /**
   * A hop is possible exactly when the second place does not start before the first, the delay is not negative,
   * and light from the first ball, widened by the second radius, covers the squared distance in time.
   */
  lemma PossibleIffReached(sqrt: SquareRoot, p: Place, q: Place, speed: Speed)
    requires IsSqrt(sqrt)
    ensures HopPossible(sqrt, p, q, speed) <==>
            var reach := speed * Delay(p, q) as real + (p.radius + q.radius);
            && q.tMin >= p.tMin
            && Delay(p, q) >= 0
            && reach >= 0.0
            && reach * reach >= DistanceSquared(p.center, q.center)
  {
    DotSelf(Minus(p.center, q.center));
    var delay, distance := Delay(p, q) as real, Distance(sqrt, p.center, q.center);
    ReachCoversDistance(delay, distance, p.radius + q.radius, speed);
    var reach := speed * delay + (p.radius + q.radius);
    if reach >= 0.0 {
      SquaresOrder(distance, reach);
    }
  }

  /** The 64-bit subtraction of a hop stays in range below. */
  predicate Unwrapped(p: Place, q: Place) {
    q.tMin - p.tMax >= -TWO_63
  }

  lemma HopTiming(sqrt: SquareRoot, p: Place, q: Place, speed: Speed)
    requires HopPossible(sqrt, p, q, speed) && Unwrapped(p, q)
    ensures q.tMin >= p.tMax
    ensures Travel(speed, p.tMax, q.tMin) >= MinDistance(sqrt, p, q) >= 0.0
  {
    var exact := q.tMin - p.tMax;
    ScaleUp(Delay(p, q) as real, MinDistance(sqrt, p, q), speed);
    assert MinDistance(sqrt, p, q) / speed >= 0.0;
    assert exact >= Delay(p, q) >= 0;
    assert speed * (exact - Delay(p, q)) as real >= 0.0;
  }

  /** A possible hop puts the second interval after the first exactly when the subtraction did not wrap. */
  lemma PossibleHopOrdered(sqrt: SquareRoot, p: Place, q: Place, speed: Speed)
    requires HopPossible(sqrt, p, q, speed)
    ensures q.tMin >= p.tMax <==> Unwrapped(p, q)
  {
    if Unwrapped(p, q) {
      HopTiming(sqrt, p, q, speed);
    }
  }

  /** A hop that wraps is accepted although its second interval is over before the first one is. */
  lemma WrappedHopAccepted(sqrt: SquareRoot)
    returns (p: Place, q: Place)
    requires IsSqrt(sqrt)
    ensures p.IsValid() && q.IsValid()
    ensures HopPossible(sqrt, p, q, 1.0)
    ensures q.tMax < p.tMax && !Unwrapped(p, q)
    ensures p == Place(-5, TWO_63 - 1, Point(0.0, 0.0, 0.0), 0.0) && q == Place(-3, -3, Point(0.0, 0.0, 0.0), 0.0)
  {
    var origin := Point(0.0, 0.0, 0.0);
    p, q := Place(-5, TWO_63 - 1, origin, 0.0), Place(-3, -3, origin, 0.0);
    assert Delay(p, q) == TWO_63 - 2;
    PossibleIffReached(sqrt, p, q, 1.0);
  }

  // ---------------------------------------------------------------- the triangle inequality

  lemma SquareNonNegative(a: real)
    ensures a * a >= 0.0
  {
  }

  lemma LagrangeIdentity(a: real, b: real, c: real, x: real, y: real, z: real)
    ensures (a * a + b * b + c * c) * (x * x + y * y + z * z)
         == (a * x + b * y + c * z) * (a * x + b * y + c * z)
            + ((a * y - b * x) * (a * y - b * x) + (b * z - c * y) * (b * z - c * y)
               + (a * z - c * x) * (a * z - c * x))
  {
  }

  lemma CauchyOfComponents(a: real, b: real, c: real, x: real, y: real, z: real)
    ensures (a * x + b * y + c * z) * (a * x + b * y + c * z) <= (a * a + b * b + c * c) * (x * x + y * y + z * z)
  {
    LagrangeIdentity(a, b, c, x, y, z);
    SquareNonNegative(a * y - b * x);
    SquareNonNegative(b * z - c * y);
    SquareNonNegative(a * z - c * x);
  }

  lemma CauchySchwarz(u: Point, v: Point)
    ensures Dot(u, v) * Dot(u, v) <= Dot(u, u) * Dot(v, v)
  {
    CauchyOfComponents(u.x, u.y, u.z, v.x, v.y, v.z);
  }

  lemma NormOfSum(u: Point, v: Point)
    ensures Dot(Plus(u, v), Plus(u, v)) == Dot(u, u) + Dot(v, v) + 2.0 * Dot(u, v)
  {
  }

  lemma ProductSquared(a: real, b: real)
    ensures (a * b) * (a * b) == (a * a) * (b * b)
  {
  }

  lemma TriangleInequality(sqrt: SquareRoot, p: Point, q: Point, r: Point)
    requires IsSqrt(sqrt)
    ensures Distance(sqrt, p, r) <= Distance(sqrt, p, q) + Distance(sqrt, q, r)
  {
    var u, v := Minus(p, q), Minus(q, r);
    DotSelf(u);
    DotSelf(v);
    DotSelf(Minus(p, r));
    assert Plus(u, v) == Minus(p, r);
    var a, b, c := Distance(sqrt, p, q), Distance(sqrt, q, r), Distance(sqrt, p, r);
    NormOfSum(u, v);
    CauchySchwarz(u, v);
    ProductSquared(a, b);
    assert a * b >= 0.0;
    if Dot(u, v) >= 0.0 {
      SquaresOrder(Dot(u, v), a * b);
    }
    assert Dot(u, v) <= a * b;
    assert (a + b) * (a + b) == a * a + b * b + 2.0 * (a * b);
    SquaresOrder(c, a + b);
  }

  // ---------------------------------------------------------------- whole chains

  ghost predicate ChainPossible(sqrt: SquareRoot, chain: seq<Place>, speed: Speed) {
    forall i :: 0 <= i < |chain| - 1 ==> HopPossible(sqrt, chain[i], chain[i + 1], speed)
  }

  ghost predicate ChainUnwrapped(chain: seq<Place>) {
    forall i :: 0 <= i < |chain| - 1 ==> Unwrapped(chain[i], chain[i + 1])
  }

  ghost predicate AllValid(chain: seq<Place>) {
    forall i :: 0 <= i < |chain| ==> chain[i].IsValid()
  }

  /** Sum of the hop distances. */
  function PathLength(sqrt: SquareRoot, chain: seq<Place>): real {
    if |chain| < 2 then 0.0 else
    PathLength(sqrt, chain[..|chain| - 1]) + MinDistance(sqrt, chain[|chain| - 2], chain[|chain| - 1])
  }

  /** Sum of the radii of every place but the first and the last. */
  function InteriorRadii(chain: seq<Place>): real {
    if |chain| < 3 then 0.0 else InteriorRadii(chain[..|chain| - 1]) + chain[|chain| - 2].radius
  }

  lemma LastHop(sqrt: SquareRoot, chain: seq<Place>, speed: Speed)
    requires |chain| >= 2 && ChainPossible(sqrt, chain, speed)
    ensures HopPossible(sqrt, chain[|chain| - 2], chain[|chain| - 1], speed)
    ensures ChainPossible(sqrt, chain[..|chain| - 1], speed)
    ensures ChainUnwrapped(chain) ==> Unwrapped(chain[|chain| - 2], chain[|chain| - 1])
  {
    assert chain[|chain| - 1] == chain[|chain| - 2 + 1];
  }

  lemma AddDelays(start: int, arrive: int, leave: int, end: int, path: real, hop: real, speed: Speed)
    requires Travel(speed, start, arrive) >= path && arrive <= leave && Travel(speed, leave, end) >= hop
    ensures Travel(speed, start, end) >= path + hop
  {
    var before, stay, after := (arrive - start) as real, (leave - arrive) as real, (end - leave) as real;
    assert (end - start) as real == before + stay + after;
    assert speed * stay >= 0.0;
    assert speed * (before + stay + after) == speed * before + speed * stay + speed * after;
  }

  /** Along a possible chain the whole delay is at least the time light needs for the sum of the hops. */
  lemma {:induction false} ChainTiming(sqrt: SquareRoot, chain: seq<Place>, speed: Speed)
    requires |chain| >= 2 && AllValid(chain)
    requires ChainPossible(sqrt, chain, speed) && ChainUnwrapped(chain)
    ensures PathLength(sqrt, chain) >= 0.0
    ensures chain[|chain| - 1].tMin >= chain[0].tMin
    ensures chain[|chain| - 1].tMin >= chain[0].tMax
    ensures Travel(speed, chain[0].tMax, chain[|chain| - 1].tMin) >= PathLength(sqrt, chain)
  {
    var n := |chain| - 1;
    var p, q := chain[n - 1], chain[n];
    LastHop(sqrt, chain, speed);
    HopTiming(sqrt, p, q, speed);
    if n == 1 {
      assert PathLength(sqrt, chain[..n]) == 0.0;
    } else {
      ChainTiming(sqrt, chain[..n], speed);
      assert p.IsValid();
      AddDelays(chain[0].tMax, p.tMin, p.tMax, q.tMin, PathLength(sqrt, chain[..n]), MinDistance(sqrt, p, q), speed);
    }
  }

  /** The direct distance exceeds the sum of the hops by at most twice the radii passed through. */
  lemma {:induction false} ChainDistance(sqrt: SquareRoot, chain: seq<Place>)
    requires IsSqrt(sqrt) && |chain| >= 2
    ensures var first, last := chain[0], chain[|chain| - 1];
            Distance(sqrt, first.center, last.center) - first.radius - last.radius
            <= PathLength(sqrt, chain) + 2.0 * InteriorRadii(chain)
  {
    var n := |chain| - 1;
    if n == 1 {
      assert PathLength(sqrt, chain[..n]) == 0.0;
    } else {
      ChainDistance(sqrt, chain[..n]);
      TriangleInequality(sqrt, chain[0].center, chain[n - 1].center, chain[n].center);
      assert InteriorRadii(chain) == InteriorRadii(chain[..n]) + chain[n - 1].radius;
    }
  }

  lemma {:induction false} NoInteriorRadii(chain: seq<Place>)
    requires forall i :: 0 < i < |chain| - 1 ==> chain[i].radius == 0.0
    ensures InteriorRadii(chain) == 0.0
  {
    if |chain| < 3 {
    } else {
      NoInteriorRadii(chain[..|chain| - 1]);
    }
  }

  /** A possible chain through points composes: its ends are one possible hop, unless their delay overflows. */
  lemma ChainComposes(sqrt: SquareRoot, chain: seq<Place>, speed: Speed)
    requires IsSqrt(sqrt) && |chain| >= 2 && AllValid(chain)
    requires ChainPossible(sqrt, chain, speed) && ChainUnwrapped(chain)
    requires forall i :: 0 < i < |chain| - 1 ==> chain[i].radius == 0.0
    ensures var first, last := chain[0], chain[|chain| - 1];
            HopPossible(sqrt, first, last, speed) <==> last.tMin - first.tMax < TWO_63
  {
    var first, last := chain[0], chain[|chain| - 1];
    ChainTiming(sqrt, chain, speed);
    ChainDistance(sqrt, chain);
    NoInteriorRadii(chain);
    assert MinDistance(sqrt, first, last) <= PathLength(sqrt, chain);
    DirectHop(sqrt, first, last, PathLength(sqrt, chain), speed);
  }

  /**
   * Through interior points every two places of a possible chain are one possible hop, in the true order of time,
   * exactly when no hop's subtraction wraps and no delay overflows.
   */
  lemma ChainComposesExact(sqrt: SquareRoot, chain: seq<Place>, speed: Speed)
    requires IsSqrt(sqrt) && AllValid(chain) && ChainPossible(sqrt, chain, speed)
    requires forall i :: 0 < i < |chain| - 1 ==> chain[i].radius == 0.0
    ensures (forall i, j :: 0 <= i < j < |chain| ==>
               HopPossible(sqrt, chain[i], chain[j], speed) && chain[j].tMin >= chain[i].tMax)
       <==> (ChainUnwrapped(chain) && forall i, j :: 0 <= i < j < |chain| ==> chain[j].tMin - chain[i].tMax < TWO_63)
  {
    hide HopPossible;
    if ChainUnwrapped(chain) {
      forall i, j | 0 <= i < j < |chain|
        ensures HopPossible(sqrt, chain[i], chain[j], speed) <==> chain[j].tMin - chain[i].tMax < TWO_63
        ensures chain[j].tMin >= chain[i].tMax
      {
        var part := chain[i..j + 1];
        PartOfChain(sqrt, chain, i, j, speed);
        ChainComposes(sqrt, part, speed);
        ChainTiming(sqrt, part, speed);
      }
    } else {
      var i :| 0 <= i < |chain| - 1 && !Unwrapped(chain[i], chain[i + 1]);
      assert chain[i + 1].tMin < chain[i].tMax;
    }
  }

  lemma PartOfChain(sqrt: SquareRoot, chain: seq<Place>, i: nat, j: nat, speed: Speed)
    requires i < j < |chain| && AllValid(chain) && ChainPossible(sqrt, chain, speed)
    ensures var part := chain[i..j + 1];
            && |part| == j - i + 1 && part[0] == chain[i] && part[j - i] == chain[j]
            && AllValid(part) && ChainPossible(sqrt, part, speed)
            && (ChainUnwrapped(chain) ==> ChainUnwrapped(part))
            && (forall k :: 0 < k < |part| - 1 ==> part[k] == chain[i + k])
  {
    hide HopPossible, Unwrapped;
    var part := chain[i..j + 1];
    assert forall k :: 0 <= k < |part| ==> part[k] == chain[i + k];
    forall k | 0 <= k < |part| - 1 ensures HopPossible(sqrt, part[k], part[k + 1], speed) {
      assert HopPossible(sqrt, chain[i + k], chain[i + k + 1], speed);
    }
    if ChainUnwrapped(chain) {
      forall k | 0 <= k < |part| - 1 ensures Unwrapped(part[k], part[k + 1]) {
        assert Unwrapped(chain[i + k], chain[i + k + 1]);
      }
    }
  }

  /** Between any two places of the chain light has time for all the hops. */
  ghost predicate TimedThroughout(sqrt: SquareRoot, chain: seq<Place>, speed: Speed) {
    forall i, j :: 0 <= i < j < |chain| ==>
      Travel(speed, chain[i].tMax, chain[j].tMin) >= PathLength(sqrt, chain[i..j + 1])
  }

  /** Light has time for the hops between any two places of a possible chain exactly when no subtraction wraps. */
  lemma ChainTimingExact(sqrt: SquareRoot, chain: seq<Place>, speed: Speed)
    requires AllValid(chain) && ChainPossible(sqrt, chain, speed)
    ensures ChainUnwrapped(chain) <==> TimedThroughout(sqrt, chain, speed)
  {
    hide HopPossible, PathLength, Travel;
    if ChainUnwrapped(chain) {
      forall i, j | 0 <= i < j < |chain|
        ensures Travel(speed, chain[i].tMax, chain[j].tMin) >= PathLength(sqrt, chain[i..j + 1])
      {
        PartOfChain(sqrt, chain, i, j, speed);
        ChainTiming(sqrt, chain[i..j + 1], speed);
      }
    } else {
      var i :| 0 <= i < |chain| - 1 && !Unwrapped(chain[i], chain[i + 1]);
      WrappedHopTooSoon(sqrt, chain[i], chain[i + 1], speed);
      assert chain[i..i + 1 + 1] == [chain[i], chain[i + 1]];
    }
  }

  /** The two results on a possible chain of valid places, from end to end. */
  lemma PossibleChainMeaning(sqrt: SquareRoot, chain: seq<Place>, speed: Speed)
    requires IsSqrt(sqrt) && |chain| >= 2 && AllValid(chain) && ChainPossible(sqrt, chain, speed)
    ensures var first, last := chain[0], chain[|chain| - 1];
            && Distance(sqrt, first.center, last.center) - first.radius - last.radius
               <= PathLength(sqrt, chain) + 2.0 * InteriorRadii(chain)
            && (ChainUnwrapped(chain) ==> Travel(speed, first.tMax, last.tMin) >= PathLength(sqrt, chain))
            && (ChainUnwrapped(chain) <==> TimedThroughout(sqrt, chain, speed))
  {
    hide PathLength, InteriorRadii, ChainPossible, ChainUnwrapped, Distance, Travel, IsSqrt, AllValid, TimedThroughout;
    ChainTimingExact(sqrt, chain, speed);
    if ChainUnwrapped(chain) {
      ChainTiming(sqrt, chain, speed);
    }
    ChainDistance(sqrt, chain);
  }

  lemma WrappedHopTooSoon(sqrt: SquareRoot, p: Place, q: Place, speed: Speed)
    requires !Unwrapped(p, q)
    ensures Travel(speed, p.tMax, q.tMin) < 0.0 <= PathLength(sqrt, [p, q])
  {
    assert [p, q][..1] == [p];
    assert PathLength(sqrt, [p, q]) == PathLength(sqrt, [p]) + MinDistance(sqrt, p, q);
    NegativeTravel(speed, q.tMin - p.tMax);
  }

  lemma NegativeTravel(speed: Speed, delay: int)
    requires delay < 0
    ensures speed * delay as real < 0.0
  {
    var d := delay as real;
    assert d < 0.0;
    assert speed * d < 0.0;
  }

  /** With a wrapped hop a chain need not compose, not even through one point of space. */
  lemma WrappedChainNotComposed(sqrt: SquareRoot) returns (chain: seq<Place>)
    requires IsSqrt(sqrt)
    ensures |chain| == 3 && AllValid(chain) && (forall i :: 0 <= i < 3 ==> chain[i].radius == 0.0)
    ensures ChainPossible(sqrt, chain, 1.0) && !ChainUnwrapped(chain)
    ensures !HopPossible(sqrt, chain[0], chain[2], 1.0)
  {
    var p, q := WrappedHopAccepted(sqrt);
    var r := q.(tMin := 0, tMax := 0);
    chain := [p, q, r];
    assert !Unwrapped(chain[0], chain[0 + 1]);
    assert Delay(q, r) == 3 && Delay(p, r) < 0;
    PossibleIffReached(sqrt, q, r, 1.0);
    PossibleIffReached(sqrt, p, r, 1.0);
  }

  lemma DirectHop(sqrt: SquareRoot, p: Place, q: Place, path: real, speed: Speed)
    requires q.tMin >= p.tMin && q.tMin >= p.tMax
    requires Travel(speed, p.tMax, q.tMin) >= path >= MinDistance(sqrt, p, q)
    ensures HopPossible(sqrt, p, q, speed) <==> q.tMin - p.tMax < TWO_63
  {
    ScaleUp(Delay(p, q) as real, MinDistance(sqrt, p, q), speed);
    assert MinDistance(sqrt, p, q) / speed >= 0.0;
    assert q.tMin - p.tMax >= TWO_63 ==> Delay(p, q) < 0;
  }

  /** A hop with no delay, along one axis. */
  lemma FreeHop(sqrt: SquareRoot, p: Place, q: Place, speed: Speed)
    requires IsSqrt(sqrt)
    requires p.tMin == p.tMax == q.tMin == 0
    requires p.center == Point(p.center.x, 0.0, 0.0) && q.center == Point(q.center.x, 0.0, 0.0)
    requires p.center.x <= q.center.x && p.radius >= 0.0 && q.radius >= 0.0
    ensures HopPossible(sqrt, p, q, speed) <==> p.radius + q.radius >= q.center.x - p.center.x
  {
    PossibleIffReached(sqrt, p, q, speed);
    var d := q.center.x - p.center.x;
    assert DistanceSquared(p.center, q.center) == d * d;
    SquaresOrder(d, p.radius + q.radius);
  }

  /** Balls of the given radii along one axis, each touching the next, all at one instant. */
  function Touching(radii: seq<real>): (chain: seq<Place>)
    ensures |chain| == |radii|
  {
    if radii == [] then [] else
    var last := |radii| - 1;
    var before := Touching(radii[..last]);
    var x := if last == 0 then 0.0 else before[last - 1].center.x + radii[last - 1] + radii[last];
    before + [Place(0, 0, Point(x, 0.0, 0.0), radii[last])]
  }

  ghost predicate NonNegative(radii: seq<real>) {
    forall i :: 0 <= i < |radii| ==> radii[i] >= 0.0
  }

  lemma {:induction false} TouchingPlaces(radii: seq<real>)
    requires NonNegative(radii)
    ensures var chain := Touching(radii);
            forall i :: 0 <= i < |chain| ==> chain[i] == Place(0, 0, Point(chain[i].center.x, 0.0, 0.0), radii[i])
  {
    if radii == [] {
    } else {
      TouchingPlaces(radii[..|radii| - 1]);
    }
  }

  lemma {:induction false} TouchingGap(radii: seq<real>, i: nat)
    requires i + 1 < |radii|
    ensures var chain := Touching(radii);
            chain[i + 1].center.x == chain[i].center.x + radii[i] + radii[i + 1]
  {
    var last := |radii| - 1;
    if i + 1 == last {
    } else {
      TouchingGap(radii[..last], i);
    }
  }

  lemma TouchingHop(sqrt: SquareRoot, p: Place, q: Place, speed: Speed)
    requires IsSqrt(sqrt) && p.radius >= 0.0 && q.radius >= 0.0
    requires p == Place(0, 0, Point(p.center.x, 0.0, 0.0), p.radius)
    requires q == Place(0, 0, Point(q.center.x, 0.0, 0.0), q.radius)
    requires q.center.x == p.center.x + p.radius + q.radius
    ensures HopPossible(sqrt, p, q, speed) && MinDistance(sqrt, p, q) == 0.0
  {
    FreeHop(sqrt, p, q, speed);
    AxisDistance(sqrt, p.center, q.center);
  }

  lemma TouchingHops(sqrt: SquareRoot, radii: seq<real>, speed: Speed)
    requires IsSqrt(sqrt) && NonNegative(radii)
    ensures AllValid(Touching(radii)) && ChainUnwrapped(Touching(radii))
    ensures ChainPossible(sqrt, Touching(radii), speed)
  {
    var chain := Touching(radii);
    TouchingPlaces(radii);
    hide Touching, HopPossible, MinDistance;
    forall i | 0 <= i < |chain| - 1 ensures HopPossible(sqrt, chain[i], chain[i + 1], speed) {
      TouchingGap(radii, i);
      TouchingHop(sqrt, chain[i], chain[i + 1], speed);
    }
  }

  lemma {:induction false} TouchingPath(sqrt: SquareRoot, radii: seq<real>, speed: Speed)
    requires IsSqrt(sqrt) && NonNegative(radii)
    ensures PathLength(sqrt, Touching(radii)) == 0.0
  {
    if |radii| < 2 {
    } else {
      var chain, last := Touching(radii), |radii| - 1;
      assert chain[..last] == Touching(radii[..last]);
      TouchingPath(sqrt, radii[..last], speed);
      TouchingPlaces(radii);
      TouchingGap(radii, last - 1);
      hide Touching, HopPossible, MinDistance;
      TouchingHop(sqrt, chain[last - 1], chain[last], speed);
    }
  }

  lemma AxisDistance(sqrt: SquareRoot, p: Point, q: Point)
    requires IsSqrt(sqrt) && p == Point(p.x, 0.0, 0.0) && q == Point(q.x, 0.0, 0.0) && p.x <= q.x
    ensures Distance(sqrt, p, q) == q.x - p.x
  {
    var d, distance := q.x - p.x, Distance(sqrt, p, q);
    assert DistanceSquared(p, q) == d * d;
    DotSelf(Minus(p, q));
    SquaresOrder(d, distance);
    SquaresOrder(distance, d);
  }

  /** From the first centre to the last: the end radii once, the interior radii twice. */
  lemma {:induction false} TouchingLength(radii: seq<real>)
    requires NonNegative(radii) && |radii| >= 2
    ensures var chain := Touching(radii);
            var last := |radii| - 1;
            && chain[last].center.x - chain[0].center.x == radii[0] + 2.0 * InteriorRadii(chain) + radii[last]
            && InteriorRadii(chain) >= 0.0
  {
    var last := |radii| - 1;
    TouchingPlaces(radii);
    TouchingGap(radii, last - 1);
    if last == 1 {
    } else {
      TouchingLength(radii[..last]);
      assert Touching(radii)[..last] == Touching(radii[..last]);
    }
  }

  lemma {:induction false} SomeRadius(chain: seq<Place>, i: nat)
    requires 0 < i < |chain| - 1 && chain[i].radius > 0.0 && AllValid(chain)
    ensures InteriorRadii(chain) > 0.0
  {
    var last := |chain| - 1;
    if i < last - 1 {
      SomeRadius(chain[..last], i);
    } else {
      RadiiNonNegative(chain[..last]);
    }
  }

  lemma {:induction false} RadiiNonNegative(chain: seq<Place>)
    requires AllValid(chain)
    ensures InteriorRadii(chain) >= 0.0
  {
    if |chain| < 3 {
    } else {
      RadiiNonNegative(chain[..|chain| - 1]);
    }
  }

  lemma TouchingEnds(sqrt: SquareRoot, radii: seq<real>, i: nat, speed: Speed)
    requires IsSqrt(sqrt) && NonNegative(radii) && 0 < i < |radii| - 1 && radii[i] > 0.0
    ensures var chain := Touching(radii);
            && !HopPossible(sqrt, chain[0], chain[|radii| - 1], speed)
            && Distance(sqrt, chain[0].center, chain[|radii| - 1].center)
               == radii[0] + 2.0 * InteriorRadii(chain) + radii[|radii| - 1]
  {
    var last, chain := |radii| - 1, Touching(radii);
    TouchingPlaces(radii);
    TouchingLength(radii);
    SomeRadius(chain, i);
    hide Touching, InteriorRadii, Distance, HopPossible, NonNegative;
    AxisDistance(sqrt, chain[0].center, chain[last].center);
    FreeHop(sqrt, chain[0], chain[last], speed);
  }

  /**
   * Any interior radii that are not all zero break composition: there is a possible chain through balls of those
   * radii, and of any end radii, whose ends are not one possible hop. On it the bound of `ChainDistance` is attained.
   */
  lemma InteriorRadiiBreakComposition(sqrt: SquareRoot, radii: seq<real>, i: nat, speed: Speed)
    returns (chain: seq<Place>)
    requires IsSqrt(sqrt) && NonNegative(radii) && 0 < i < |radii| - 1 && radii[i] > 0.0
    ensures |chain| == |radii| && forall j :: 0 <= j < |radii| ==> chain[j].radius == radii[j]
    ensures AllValid(chain) && ChainUnwrapped(chain)
    ensures ChainPossible(sqrt, chain, speed)
    ensures !HopPossible(sqrt, chain[0], chain[|chain| - 1], speed)
    ensures Distance(sqrt, chain[0].center, chain[|chain| - 1].center) - radii[0] - radii[|radii| - 1]
         == PathLength(sqrt, chain) + 2.0 * InteriorRadii(chain)
  {
    TouchingPlaces(radii);
    TouchingHops(sqrt, radii, speed);
    TouchingPath(sqrt, radii, speed);
    TouchingEnds(sqrt, radii, i, speed);
    hide Touching, PathLength, InteriorRadii, Distance, HopPossible, ChainPossible, ChainUnwrapped, AllValid;
    chain := Touching(radii);
  }
}
