/** Light-cone proofs over chains of coordinates, and event dependencies. */
module Causal {
  import opened Prelude
  import opened Types
  import opened Geometry

  function PlaceOf(interval: TimeInterval, region: Region3D): Place {
    Place(interval.tMin, interval.tMax,
          Point(Real(region.x), Real(region.y), Real(region.z)), Real(region.radiusLy))
  }

  function CoordPlace(c: SpacetimeCoord): Place {
    PlaceOf(c.timeInterval, c.positionRegion)
  }

  function Places(chain: seq<SpacetimeCoord>): (places: seq<Place>)
    ensures |places| == |chain| && forall i :: 0 <= i < |chain| ==> places[i] == CoordPlace(chain[i])
  {
    seq(|chain|, i requires 0 <= i < |chain| => CoordPlace(chain[i]))
  }

  predicate LightconePossible(sqrt: SquareRoot, e1: SpacetimeCoord, e2: SpacetimeCoord, speed: Speed) {
    HopPossible(sqrt, CoordPlace(e1), CoordPlace(e2), speed)
  }

  /** Squared distance of the centres of two regions. */
  function CentresApart(a: Region3D, b: Region3D): real {
    var dx, dy, dz := Real(a.x) - Real(b.x), Real(a.y) - Real(b.y), Real(a.z) - Real(b.z);
    dx * dx + dy * dy + dz * dz
  }

  /** A difference of two 64-bit times, as 64-bit subtraction leaves it. */
  function Wrapped(difference: int): int
    requires -TWO_64 < difference < TWO_64
  {
    if difference >= TWO_63 then difference - TWO_64
    else if difference < -TWO_63 then difference + TWO_64
    else difference
  }

  /** The light-cone test, on the fields of the two coordinates. */
  lemma LightconeOnFields(sqrt: SquareRoot, e1: SpacetimeCoord, e2: SpacetimeCoord, speed: Speed)
    requires IsSqrt(sqrt)
    ensures var delay := Wrapped(e2.timeInterval.tMin - e1.timeInterval.tMax);
            var radii := Real(e1.positionRegion.radiusLy) + Real(e2.positionRegion.radiusLy);
            var reach := speed * delay as real + radii;
            LightconePossible(sqrt, e1, e2, speed) <==>
              && e2.timeInterval.tMin >= e1.timeInterval.tMin
              && delay >= 0
              && reach >= 0.0
              && reach * reach >= CentresApart(e1.positionRegion, e2.positionRegion)
  {
    hide Real;
    PossibleIffReached(sqrt, CoordPlace(e1), CoordPlace(e2), speed);
    hide HopPossible;
    WrappedDelay(e1, e2);
  }

  lemma WrappedDelay(e1: SpacetimeCoord, e2: SpacetimeCoord)
    ensures Delay(CoordPlace(e1), CoordPlace(e2)) == Wrapped(e2.timeInterval.tMin - e1.timeInterval.tMax)
  {
    hide Real;
  }

  /** The distance of two regions: of their centres, less both radii, and never negative. */
  lemma RegionsApart(sqrt: SquareRoot, a: SpacetimeCoord, b: SpacetimeCoord) returns (centres: real)
    requires IsSqrt(sqrt)
    ensures centres >= 0.0 && centres * centres == CentresApart(a.positionRegion, b.positionRegion)
    ensures var gap := centres - Real(a.positionRegion.radiusLy) - Real(b.positionRegion.radiusLy);
            MinDistance(sqrt, CoordPlace(a), CoordPlace(b)) == if gap >= 0.0 then gap else 0.0
  {
    hide Real;
    centres := Distance(sqrt, CoordPlace(a).center, CoordPlace(b).center);
    DotSelf(Minus(CoordPlace(a).center, CoordPlace(b).center));
  }

  // ---------------------------------------------------------------- proofs over a chain

  datatype LightconeStatus = Valid | Invalid | Unknown

  datatype LightconeHop = LightconeHop(
    fromEvent: Text, toEvent: Text,
    fromRegion: Region3D, toRegion: Region3D,
    minDistanceLy: real,
    fromTMin: I64, toTMin: I64)

  datatype LightconeProof = LightconeProof(hops: seq<LightconeHop>, status: LightconeStatus)

  /** The hop from `a` to `b`. */
  function HopBetween(sqrt: SquareRoot, fromEvent: Text, toEvent: Text, a: SpacetimeCoord, b: SpacetimeCoord)
    : LightconeHop
  {
    LightconeHop(fromEvent, toEvent, a.positionRegion, b.positionRegion,
                 MinDistance(sqrt, CoordPlace(a), CoordPlace(b)),
                 a.timeInterval.tMin, b.timeInterval.tMin)
  }

  function HopSum(hops: seq<LightconeHop>): real {
    if hops == [] then 0.0 else HopSum(hops[..|hops| - 1]) + hops[|hops| - 1].minDistanceLy
  }

  lemma EveryHopPossible(sqrt: SquareRoot, chain: seq<SpacetimeCoord>, speed: Speed)
    ensures ChainPossible(sqrt, Places(chain), speed)
       <==> forall i :: 0 <= i < |chain| - 1 ==> LightconePossible(sqrt, chain[i], chain[i + 1], speed)
  {
    hide HopPossible, PlaceOf;
    var places := Places(chain);
    assert forall i :: 0 <= i < |chain| - 1 ==>
        (HopPossible(sqrt, places[i], places[i + 1], speed)
         <==> LightconePossible(sqrt, chain[i], chain[i + 1], speed));
  }

  /** The recorded hop distances sum to the length of the path through the places. */
  lemma {:induction false} HopsMeasurePath(sqrt: SquareRoot, fromEvent: Text, toEvent: Text,
                                           chain: seq<SpacetimeCoord>, hops: seq<LightconeHop>)
    requires |hops| == |chain| - 1
    requires forall i :: 0 <= i < |hops| ==> hops[i] == HopBetween(sqrt, fromEvent, toEvent, chain[i], chain[i + 1])
    ensures HopSum(hops) == PathLength(sqrt, Places(chain))
    decreases |hops|
  {
    hide MinDistance, PlaceOf;
    if hops == [] {
    } else {
      var n := |hops| - 1;
      HopsMeasurePath(sqrt, fromEvent, toEvent, chain[..n + 1], hops[..n]);
      assert Places(chain)[..n + 1] == Places(chain[..n + 1]);
      assert hops[n] == HopBetween(sqrt, fromEvent, toEvent, chain[n], chain[n + 1]);
    }
  }

  /** What a hop records of the two coordinates it joins. */
  lemma HopRecords(sqrt: SquareRoot, fromEvent: Text, toEvent: Text, a: SpacetimeCoord, b: SpacetimeCoord)
    ensures HopBetween(sqrt, fromEvent, toEvent, a, b)
         == LightconeHop(fromEvent, toEvent, a.positionRegion, b.positionRegion,
                         MinDistance(sqrt, CoordPlace(a), CoordPlace(b)), a.timeInterval.tMin, b.timeInterval.tMin)
  {
  }

  method ProveLightcone(sqrt: SquareRoot, fromEvent: Text, toEvent: Text,
                        chain: seq<SpacetimeCoord>, speed: Speed)
    returns (r: Result<LightconeProof>)
    ensures |chain| < 2 ==> r == Failure(Validation)
    ensures |chain| >= 2 ==>
              && r.Success?
              && |r.value.hops| == |chain| - 1
              && (forall i :: 0 <= i < |chain| - 1 ==>
                    r.value.hops[i] == HopBetween(sqrt, fromEvent, toEvent, chain[i], chain[i + 1]))
              && HopSum(r.value.hops) == PathLength(sqrt, Places(chain))
              && r.value.status == if ChainPossible(sqrt, Places(chain), speed) then Valid else Invalid
  {
    if |chain| < 2 {
      return Failure(Validation);
    }
    hide MinDistance, HopPossible, PlaceOf, LightconePossible, ChainPossible, HopSum, PathLength;
    var hops: seq<LightconeHop> := [];
    for i := 0 to |chain| - 1
      invariant |hops| == i
      invariant forall j :: 0 <= j < i ==> hops[j] == HopBetween(sqrt, fromEvent, toEvent, chain[j], chain[j + 1])
    {
      hops := hops + [HopBetween(sqrt, fromEvent, toEvent, chain[i], chain[i + 1])];
    }
    HopsMeasurePath(sqrt, fromEvent, toEvent, chain, hops);
    var valid := forall i :: 0 <= i < |chain| - 1 ==> LightconePossible(sqrt, chain[i], chain[i + 1], speed);
    EveryHopPossible(sqrt, chain, speed);
    r := Success(LightconeProof(hops, if valid then Valid else Invalid));
  }

  /**
   * What a `Valid` proof over well-formed coordinates means: the direct distance is within the path and twice the
   * interior radii, and light has time for the path between any two of the coordinates exactly when no 64-bit
   * subtraction wraps.
   */
  lemma ValidChainMeaning(sqrt: SquareRoot, chain: seq<SpacetimeCoord>, speed: Speed)
    requires IsSqrt(sqrt) && |chain| >= 2
    requires forall c :: c in chain ==> c.IsValid()
    requires ChainPossible(sqrt, Places(chain), speed)
    ensures var places, first, last := Places(chain), CoordPlace(chain[0]), CoordPlace(chain[|chain| - 1]);
            && Distance(sqrt, first.center, last.center) - first.radius - last.radius
               <= PathLength(sqrt, places) + 2.0 * InteriorRadii(places)
            && (ChainUnwrapped(places) ==> Travel(speed, first.tMax, last.tMin) >= PathLength(sqrt, places))
            && (ChainUnwrapped(places) <==> TimedThroughout(sqrt, places, speed))
  {
    var places := Places(chain);
    ValidPlaces(chain);
    PossibleChainMeaning(sqrt, places, speed);
    hide Places, CoordPlace, PathLength, InteriorRadii, ChainPossible, ChainUnwrapped, Distance, Travel, IsSqrt,
         AllValid, TimedThroughout;
    assert places[0] == CoordPlace(chain[0]) && places[|chain| - 1] == CoordPlace(chain[|chain| - 1]);
  }

  lemma ValidPlaces(chain: seq<SpacetimeCoord>)
    requires forall c :: c in chain ==> c.IsValid()
    ensures AllValid(Places(chain))
  {
    hide Real, IsFinite;
    var places := Places(chain);
    forall i | 0 <= i < |places| ensures places[i].IsValid() {
      assert chain[i].IsValid();
    }
  }

  /** A coordinate at the origin of space, during an interval. */
  function AtOrigin(tMin: I64, tMax: I64): SpacetimeCoord {
    SpacetimeCoord([], TimeInterval(tMin, tMax), Region3D(0, 0, 0, 0), 0, [])
  }

  lemma AtOriginPlace(tMin: I64, tMax: I64)
    ensures CoordPlace(AtOrigin(tMin, tMax)) == Place(tMin, tMax, Point(0.0, 0.0, 0.0), 0.0)
    ensures tMin <= tMax ==> AtOrigin(tMin, tMax).IsValid()
  {
    assert BiasedExponent(0) == 0;
    var fraction := 0.0 / RealPow2(52);
    assert fraction == 0.0;
    assert fraction * RealPow2(-1022) == 0.0;
    hide RealPow2;
    assert Real(0) == 0.0;
  }

  /** Two well-formed coordinates whose chain is found valid although the second is over before the first is. */
  lemma WrappedProofIsValid(sqrt: SquareRoot) returns (chain: seq<SpacetimeCoord>)
    requires IsSqrt(sqrt)
    ensures |chain| == 2 && chain[0].IsValid() && chain[1].IsValid()
    ensures ChainPossible(sqrt, Places(chain), 1.0) && !ChainUnwrapped(Places(chain))
    ensures chain[1].timeInterval.tMax < chain[0].timeInterval.tMax
    ensures Travel(1.0, chain[0].timeInterval.tMax, chain[1].timeInterval.tMin) < PathLength(sqrt, Places(chain))
  {
    var p, q := WrappedHopAccepted(sqrt);
    AtOriginPlace(p.tMin, p.tMax);
    AtOriginPlace(q.tMin, q.tMax);
    chain := [AtOrigin(p.tMin, p.tMax), AtOrigin(q.tMin, q.tMax)];
    hide HopPossible, PathLength, Travel;
    assert Places(chain) == [p, q];
    assert !Unwrapped([p, q][0], [p, q][0 + 1]);
    WrappedHopTooSoon(sqrt, p, q, 1.0);
  }

  method ValidateClaimLightcone(sqrt: SquareRoot, origin: SpacetimeCoord, destination: SpacetimeCoord, speed: Speed)
    returns (r: Result<LightconeStatus>)
    ensures r == if LightconePossible(sqrt, origin, destination, speed) then Success(Valid) else Failure(Validation)
  {
    var chain := [origin, destination];
    var proof := ProveLightcone(sqrt, Ascii("origin"), Ascii("destination"), chain, speed);
    ghost var places := Places(chain);
    assert ChainPossible(sqrt, places, speed) <==> HopPossible(sqrt, places[0], places[0 + 1], speed);
    r := match proof
      case Failure(error) => Failure(error)
      case Success(p) => if p.status != Valid then Failure(Validation) else Success(Valid);
  }

  // ---------------------------------------------------------------- event dependencies

  predicate DependenciesKnown(eventId: Text, dependencies: seq<Text>, known: seq<Text>) {
    forall i :: 0 <= i < |dependencies| ==> dependencies[i] != eventId && dependencies[i] in known
  }

  method ValidateEventDependencyChain(eventId: Text, dependencies: seq<Text>, known: seq<Text>)
    returns (r: Result<()>)
    ensures r == if DependenciesKnown(eventId, dependencies, known) then Success(()) else Failure(Validation)
  {
    for i := 0 to |dependencies|
      invariant forall j :: 0 <= j < i ==> dependencies[j] != eventId && dependencies[j] in known
    {
      if dependencies[i] == eventId {
        return Failure(Validation);
      }
      if dependencies[i] !in known {
        return Failure(Validation);
      }
    }
    r := Success(());
  }
}
