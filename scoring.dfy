/** The scoring rule of convoy.py (`scoring_func`), in exact integer form.
    The source divides floats: burned = 450 * fc / 100 and
    stops = trunc(burned / ec). For fc >= 0 and ec > 0 the truncation is the
    floor, so stops = (450 * fc) div (100 * ec), and burned <= 230 holds
    exactly when 450 * fc <= 23000. */
module Scoring {

  /** Length of the fixed route, in km. */
  const RouteKm: nat := 450

  /** Fuel burned over the route, times 100 (so it stays an integer). */
  function BurnedTimes100(fuelConsumption: nat): nat {
    RouteKm * fuelConsumption
  }

  /** Number of refuelling stops: the truncated quotient of burned fuel by
      the tank size. */
  function Stops(fuelConsumption: nat, engineCapacity: nat): nat
    requires engineCapacity > 0
  {
    var burned: nat, tank: nat := BurnedTimes100(fuelConsumption), 100 * engineCapacity;
    DivFloor(burned, tank);
    burned / tank
  }

  /** Euclidean division of naturals is the truncating division of the
      source, and it brackets the dividend. */
  lemma DivFloor(a: nat, b: nat)
    requires b > 0
    ensures 0 <= a / b && (a / b) * b <= a < (a / b) * b + b
  {}

  function StopsPoints(fuelConsumption: nat, engineCapacity: nat): nat
    requires engineCapacity > 0
  {
    var stops := Stops(fuelConsumption, engineCapacity);
    if stops < 1 then 2 else if stops < 2 then 1 else 0
  }

  function BurnPoints(fuelConsumption: nat): nat {
    if BurnedTimes100(fuelConsumption) <= 230 * 100 then 2 else 1
  }

  function LoadPoints(maximumLoad: nat): nat {
    if maximumLoad >= 20 then 2 else 0
  }

  /** The score of one vehicle: the three terms added. It is never 0, since
      the burn term always gives at least 1, and never above 6. */
  function Score(fuelConsumption: nat, engineCapacity: nat, maximumLoad: nat): (r: nat)
    requires engineCapacity > 0
    ensures 1 <= r <= 6
  {
    StopsPoints(fuelConsumption, engineCapacity) + BurnPoints(fuelConsumption)
      + LoadPoints(maximumLoad)
  }

  /** The stops term, stated without division: a full tank covers the route
      (2 points), one stop (1 point), or two or more (0 points). */
  lemma StopsPointsMeaning(fc: nat, ec: nat)
    requires ec > 0
    ensures StopsPoints(fc, ec) == 2 <==> 450 * fc < 100 * ec
    ensures StopsPoints(fc, ec) == 1 <==> 100 * ec <= 450 * fc < 200 * ec
    ensures StopsPoints(fc, ec) == 0 <==> 200 * ec <= 450 * fc
  {
    var a, b := 450 * fc, 100 * ec;
    var q := a / b;
    DivFloor(a, b);
    assert q == Stops(fc, ec);
    if q == 0 {
      assert a < b;
    } else if q == 1 {
      assert b <= a < 2 * b;
    } else {
      assert q * b >= 2 * b by { MulMonotone(2, q, b); }
    }
  }

  lemma MulMonotone(x: nat, y: nat, b: nat)
    requires x <= y
    ensures x * b <= y * b
  {}

  /** The burn term: 2 points when at most 230 units are burned. */
  lemma BurnPointsMeaning(fc: nat)
    ensures BurnPoints(fc) == 2 <==> 450 * fc <= 23000
    ensures BurnPoints(fc) == 1 <==> 450 * fc > 23000
  {}

  /** Raising the maximum load never lowers the score. */
  lemma ScoreMonotoneInLoad(fc: nat, ec: nat, load1: nat, load2: nat)
    requires ec > 0 && load1 <= load2
    ensures Score(fc, ec, load1) <= Score(fc, ec, load2)
  {}

  /** With the tank fixed, raising the fuel consumption never raises the
      score. */
  lemma ScoreAntitoneInFuel(fc1: nat, fc2: nat, ec: nat, load: nat)
    requires ec > 0 && fc1 <= fc2
    ensures Score(fc2, ec, load) <= Score(fc1, ec, load)
  {
    StopsPointsMeaning(fc1, ec);
    StopsPointsMeaning(fc2, ec);
    MulMonotone(fc1, fc2, 450);
  }

  /** With the consumption fixed, a larger tank never lowers the score. */
  lemma ScoreMonotoneInCapacity(fc: nat, ec1: nat, ec2: nat, load: nat)
    requires 0 < ec1 <= ec2
    ensures Score(fc, ec1, load) <= Score(fc, ec2, load)
  {
    StopsPointsMeaning(fc, ec1);
    StopsPointsMeaning(fc, ec2);
    MulMonotone(ec1, ec2, 100);
  }

  /** Two vehicles: (10, 100, 25) scores 6, with no stop, little fuel and
      a heavy load; (100, 100, 20) scores 3, with four stops and 450 litres
      burned. */
  lemma ScoreExamples()
    ensures Score(10, 100, 25) == 6
    ensures Score(100, 100, 20) == 3
  {
    assert Stops(10, 100) == 0;
    assert Stops(100, 100) == 4;
  }
}
