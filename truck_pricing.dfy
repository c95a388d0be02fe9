/**
 * The truck pricing rule of the moving estimator (EstimateDao.getPricePerTruck).
 *
 * The two-row TRUCK_CAPACITY table is a parameter instead of a database query.
 * Row 0 is the small truck, row 1 the large one. Java's `int` division and
 * remainder truncate toward zero; they are written out as JavaDiv and JavaRem.
 */
module TruckPricing {
  import opened Outcome

  /** One row of TRUCK_CAPACITY: how many boxes a truck class carries and what it costs. */
  datatype TruckCapacity = TruckCapacity(maxBox: int, price: int)

  /** The two exceptions getPricePerTruck can throw. */
  datatype PricingError =
    | IndexOutOfBounds   // List.get(1) on a table with fewer than two rows
    | DivisionByZero     // ArithmeticException from `/` or `%` by a zero capacity

  function Abs(x: int): (a: nat)
    ensures a == x || a == -x
  {
    if x < 0 then -x else x
  }

  /** Java's `a / b` on ints: the quotient truncated toward zero. */
  function JavaDiv(a: int, b: int): (q: int)
    requires b != 0
    ensures Abs(q) == Abs(a) / Abs(b)
    ensures q < 0 ==> (a < 0) != (b < 0)
    ensures q > 0 ==> (a < 0) == (b < 0)
    ensures a >= 0 && b > 0 ==> q == a / b
  {
    var m: int := Abs(a) / Abs(b);
    assert m >= 0;
    if (a < 0) != (b < 0) then -m else m
  }

  /** Java truncates `-7 / 2` toward zero, to -3. */
  lemma JavaDivRoundsTowardZero()
    ensures JavaDiv(-7, 2) == -3 && JavaDiv(7, -2) == -3 && JavaDiv(-7, -2) == 3
  {
  }

  /** Java's `a % b` on ints: the remainder takes the sign of the dividend. */
  function JavaRem(a: int, b: int): (r: int)
    requires b != 0
    ensures a == JavaDiv(a, b) * b + r
    ensures a >= 0 ==> 0 <= r < Abs(b)
    ensures a < 0 ==> 0 <= -r < Abs(b)
    ensures a >= 0 && b > 0 ==> r == a % b
  {
    JavaDivRem(a, b);
    if a < 0 then -(Abs(a) % Abs(b)) else Abs(a) % Abs(b)
  }

  /** Truncated quotient and sign-of-dividend remainder recompose the dividend. */
  lemma JavaDivRem(a: int, b: int)
    requires b != 0
    ensures a == JavaDiv(a, b) * b + (if a < 0 then -(Abs(a) % Abs(b)) else Abs(a) % Abs(b))
  {
    var q, m := Abs(a) / Abs(b), Abs(a) % Abs(b);
    assert Abs(a) == q * Abs(b) + m;
    if b < 0 {
      assert (-q) * b == q * Abs(b);
    } else {
      assert (-q) * b == -(q * Abs(b));
    }
  }

  /**
   * getPricePerTruck(boxNum) with the capacity table passed in.
   * The quotient and remainder by the large capacity are taken before any
   * band is chosen, so a short table or a zero large capacity fails for
   * every box count.
   */
  function PricePerTruck(boxNum: int, table: seq<TruckCapacity>): (r: Result<int, PricingError>)
    ensures r.Failure? <==> |table| < 2 || table[1].maxBox == 0
    ensures |table| < 2 ==> r == Failure(IndexOutOfBounds)
    ensures |table| >= 2 && table[1].maxBox == 0 ==> r == Failure(DivisionByZero)
  {
    if |table| < 2 then Failure(IndexOutOfBounds)
    else if table[1].maxBox == 0 then Failure(DivisionByZero)
    else
      var small, large := table[0], table[1];
      var div := JavaDiv(boxNum, large.maxBox);
      var sur := JavaRem(boxNum, large.maxBox);
      if boxNum <= small.maxBox then Success(small.price)
      else if boxNum <= large.maxBox then Success(large.price)
      else if sur <= small.maxBox then Success(div * large.price + small.price)
      else Success(div * large.price + large.price)
  }

  /** A table the pricing rule is meant for: two rows, ascending, a positive large capacity. */
  predicate WellFormedTable(table: seq<TruckCapacity>)
  {
    |table| >= 2 && 0 <= table[0].maxBox <= table[1].maxBox && 0 < table[1].maxBox
  }

  /** Prices that grow with the truck class and are never negative. */
  predicate AscendingPrices(table: seq<TruckCapacity>)
    requires |table| >= 2
  {
    0 <= table[0].price <= table[1].price
  }

  /** The number of trucks of each class a quote pays for. */
  datatype TruckPlan = TruckPlan(large: nat, small: nat)

  /**
   * The trucks the rule charges for, stated with Euclidean division: one small
   * truck, one large truck, or `boxNum / maxBox1` full large trucks plus one
   * more truck (small when the remainder fits it, large otherwise).
   */
  function PlanFor(boxNum: int, table: seq<TruckCapacity>): (plan: TruckPlan)
    requires WellFormedTable(table)
    ensures plan.small <= 1
    ensures plan.large + plan.small >= 1
  {
    var m0, m1 := table[0].maxBox, table[1].maxBox;
    if boxNum <= m0 then TruckPlan(0, 1)
    else if boxNum <= m1 then TruckPlan(1, 0)
    else if boxNum % m1 <= m0 then TruckPlan(boxNum / m1, 1)
    else TruckPlan(boxNum / m1 + 1, 0)
  }

  function PlanCost(plan: TruckPlan, table: seq<TruckCapacity>): int
    requires |table| >= 2
  {
    plan.large * table[1].price + plan.small * table[0].price
  }

  function PlanCapacity(plan: TruckPlan, table: seq<TruckCapacity>): int
    requires |table| >= 2
  {
    plan.large * table[1].maxBox + plan.small * table[0].maxBox
  }

  /** On a well-formed table the quote is the cost of the trucks in PlanFor. */
  lemma PriceIsPlanCost(boxNum: int, table: seq<TruckCapacity>)
    requires WellFormedTable(table)
    ensures PricePerTruck(boxNum, table) == Success(PlanCost(PlanFor(boxNum, table), table))
  {
  }

  /** The trucks charged for can carry every box of a non-negative load. */
  lemma PlanCarriesLoad(boxNum: int, table: seq<TruckCapacity>)
    requires WellFormedTable(table) && boxNum >= 0
    ensures PlanCapacity(PlanFor(boxNum, table), table) >= boxNum
  {
  }

  /**
   * A load within the small capacity is charged the small price, whatever
   * the large row says.
   */
  lemma SmallBand(boxNum: int, table: seq<TruckCapacity>)
    requires |table| >= 2 && table[1].maxBox != 0
    requires boxNum <= table[0].maxBox
    ensures PricePerTruck(boxNum, table) == Success(table[0].price)
  {
  }

  /** A load above the small capacity that one large truck carries costs one large truck. */
  lemma LargeBand(boxNum: int, table: seq<TruckCapacity>)
    requires |table| >= 2 && table[1].maxBox != 0
    requires table[0].maxBox < boxNum <= table[1].maxBox
    ensures PricePerTruck(boxNum, table) == Success(table[1].price)
  {
  }

  /**
   * Beyond both capacities the quote is `boxNum / maxBox1` large trucks plus
   * one small truck when the remainder fits it, else one more large truck.
   */
  lemma MultiTruckBand(boxNum: int, table: seq<TruckCapacity>)
    requires WellFormedTable(table)
    requires boxNum > table[1].maxBox
    ensures var div, sur := boxNum / table[1].maxBox, boxNum % table[1].maxBox;
      PricePerTruck(boxNum, table) ==
        if sur <= table[0].maxBox then Success(div * table[1].price + table[0].price)
        else Success(div * table[1].price + table[1].price)
  {
  }

  /**
   * An exact multiple of the large capacity is still charged one small truck
   * on top of the large trucks, although those alone carry every box.
   */
  lemma ExactMultipleAddsSmallTruck(k: int, table: seq<TruckCapacity>)
    requires WellFormedTable(table) && k >= 2
    ensures var boxNum := k * table[1].maxBox;
      PricePerTruck(boxNum, table) == Success(k * table[1].price + table[0].price) &&
      PlanCapacity(TruckPlan(k, 0), table) == boxNum
  {
    var m1 := table[1].maxBox;
    var boxNum := k * m1;
    assert boxNum > m1 by {
      assert boxNum == m1 + (k - 1) * m1;
    }
    DivModOfMultiple(k, m1);
    MultiTruckBand(boxNum, table);
  }

  lemma DivModOfMultiple(k: int, m: int)
    requires m > 0
    ensures (k * m) / m == k && (k * m) % m == 0
  {
    DivModUnique(k * m, m, k, 0);
  }

  /** Euclidean quotient and remainder are the only pair with `a == q * b + r, 0 <= r < b`. */
  lemma DivModUnique(a: int, b: int, q: int, r: int)
    requires b > 0 && a == q * b + r && 0 <= r < b
    ensures a / b == q && a % b == r
  {
    var q', r' := a / b, a % b;
    assert a == q' * b + r';
    if q' < q {
      assert (q - q') * b == q * b - q' * b;
      MulAtLeast(q - q', b);
    } else if q' > q {
      assert (q' - q) * b == q' * b - q * b;
      MulAtLeast(q' - q, b);
    }
  }

  lemma DivAtLeastOne(a: int, b: int)
    requires a >= b > 0
    ensures a / b >= 1
  {
  }

  lemma MulAtLeast(n: int, b: int)
    requires n >= 1 && b > 0
    ensures n * b >= b
  {
  }

  /** Beyond the large capacity a quote pays for at least one large and one small truck. */
  lemma MultiBandAtLeast(boxNum: int, table: seq<TruckCapacity>)
    requires WellFormedTable(table) && AscendingPrices(table)
    requires boxNum > table[1].maxBox
    ensures PricePerTruck(boxNum, table).Success?
    ensures PricePerTruck(boxNum, table).value >= table[0].price + table[1].price
  {
    var m1, p1 := table[1].maxBox, table[1].price;
    var q := boxNum / m1;
    DivAtLeastOne(boxNum, m1);
    MulMonotone(1, q, p1);
    MultiTruckBand(boxNum, table);
  }

  /** Inside the multi-truck band one more box never lowers the quote. */
  lemma MultiBandStep(boxNum: int, table: seq<TruckCapacity>)
    requires WellFormedTable(table) && AscendingPrices(table)
    requires boxNum > table[1].maxBox
    ensures PricePerTruck(boxNum, table).Success? && PricePerTruck(boxNum + 1, table).Success?
    ensures PricePerTruck(boxNum, table).value <= PricePerTruck(boxNum + 1, table).value
  {
    var m0, m1 := table[0].maxBox, table[1].maxBox;
    var p0, p1 := table[0].price, table[1].price;
    var q, s := boxNum / m1, boxNum % m1;
    var full := q * p1;
    MultiTruckBand(boxNum, table);
    MultiTruckBand(boxNum + 1, table);
    assert PricePerTruck(boxNum, table).value <= full + p1;
    if s + 1 < m1 {
      DivModUnique(boxNum + 1, m1, q, s + 1);
      assert PricePerTruck(boxNum + 1, table).value == full + (if s + 1 <= m0 then p0 else p1);
    } else {
      DivModUnique(boxNum + 1, m1, q + 1, 0);
      assert (q + 1) * p1 == full + p1;
      assert PricePerTruck(boxNum + 1, table).value == full + p1 + p0;
    }
  }

  /** One more box never lowers the quote (ascending table and prices). */
  lemma PriceStep(boxNum: int, table: seq<TruckCapacity>)
    requires WellFormedTable(table) && AscendingPrices(table)
    ensures PricePerTruck(boxNum, table).Success? && PricePerTruck(boxNum + 1, table).Success?
    ensures PricePerTruck(boxNum, table).value <= PricePerTruck(boxNum + 1, table).value
  {
    if boxNum > table[1].maxBox {
      MultiBandStep(boxNum, table);
    } else if boxNum + 1 > table[1].maxBox {
      MultiBandAtLeast(boxNum + 1, table);
    }
  }

  lemma MulMonotone(a: int, b: int, c: int)
    requires a <= b && c >= 0
    ensures a * c <= b * c
  {
    assert b * c - a * c == (b - a) * c;
  }

  /**
   * The quote never decreases as the load grows, for a well-formed table
   * whose large truck costs at least as much as the small one.
   */
  lemma {:induction false} PriceMonotone(boxNum: int, more: int, table: seq<TruckCapacity>)
    requires WellFormedTable(table) && AscendingPrices(table)
    requires boxNum <= more
    ensures PricePerTruck(boxNum, table).Success? && PricePerTruck(more, table).Success?
    ensures PricePerTruck(boxNum, table).value <= PricePerTruck(more, table).value
    decreases more - boxNum
  {
    if boxNum < more {
      PriceMonotone(boxNum, more - 1, table);
      PriceStep(more - 1, table);
    }
  }

  /** The quotes of the small (10 boxes, 5000) and large (20 boxes, 9000) trucks. */
  lemma SampleQuotes()
    ensures var table := [TruckCapacity(10, 5000), TruckCapacity(20, 9000)];
      PricePerTruck(10, table) == Success(5000) &&
      PricePerTruck(15, table) == Success(9000) &&
      PricePerTruck(25, table) == Success(14000) &&
      PricePerTruck(35, table) == Success(18000) &&
      PricePerTruck(40, table) == Success(23000) &&
      PricePerTruck(45, table) == Success(23000)
  {
  }

  /** The failures happen before any band is chosen, even for a load the small truck carries. */
  lemma SampleFailures()
    ensures PricePerTruck(3, [TruckCapacity(10, 5000)]) == Failure(IndexOutOfBounds)
    ensures PricePerTruck(3, [TruckCapacity(10, 5000), TruckCapacity(0, 9000)]) == Failure(DivisionByZero)
  {
  }
}
