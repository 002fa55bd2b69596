/** Decimal addition in a context of 80 significant digits, on amounts in 10^-18 USD. */
module Decimals {
  import opened Common

  // |amount| of at most 18 integer and 18 fractional digits, in units of 10^-18.
  const MONEY_LIMIT := 1_000_000_000_000_000_000_000_000_000_000_000_000
  // 10^80: integers below it have at most 80 digits.
  const PRECISION_LIMIT := 100_000_000_000_000_000_000_000_000_000_000_000_000_000_000_000_000_000_000_000_000_000_000

  function Abs(x: int): nat {
    if x < 0 then -x else x
  }

  predicate InMoneyRange(x: int) {
    Abs(x) < MONEY_LIMIT
  }

  // ---------- how an amount is written ----------

  const MAX_PLACES: nat := 18

  /** What the text of an amount says beside its value: whether it has a minus sign, and how many decimal
      places it has. Value and form together determine the text. */
  datatype Form = Form(minus: bool, places: nat)

  function TenTo(n: nat): (t: nat)
    ensures t >= 1
  {
    if n == 0 then 1 else 10 * TenTo(n - 1)
  }

  predicate HasPlaces(amount: int, places: nat) {
    places <= MAX_PLACES && amount % TenTo(MAX_PLACES - places) == 0
  }

  lemma AllPlacesDo(amount: int)
    ensures HasPlaces(amount, MAX_PLACES)
  {
    assert TenTo(0) == 1;
  }

  /** The amount can be written that way; zero may have a minus sign. */
  predicate Written(amount: int, form: Form) {
    HasPlaces(amount, form.places) && (amount < 0 ==> form.minus) && (amount > 0 ==> !form.minus)
  }

  /** The fewest decimal places, at least n, an amount can be written with. */
  function FewestPlaces(amount: int, n: nat): (places: nat)
    requires n <= MAX_PLACES
    ensures n <= places && HasPlaces(amount, places)
    ensures forall k :: n <= k < places ==> !HasPlaces(amount, k)
    decreases MAX_PLACES - n
  {
    hide TenTo;
    AllPlacesDo(amount);
    if HasPlaces(amount, n) then n else FewestPlaces(amount, n + 1)
  }

  /** decimal_text: no superfluous zeros, and no minus sign for zero. */
  function PlainForm(amount: int): (form: Form)
    ensures Written(amount, form) && (amount == 0 ==> form == Form(false, 0))
    ensures forall other :: Written(amount, other) ==> form.places <= other.places
  {
    hide TenTo;
    Form(amount < 0, FewestPlaces(amount, 0))
  }

  // ---------- rounding ----------

  /** The power of ten that has to be rounded away for x to fit in 80 digits. */
  function RoundingUnit(x: nat): (u: nat)
    ensures u >= 1
  {
    if x < PRECISION_LIMIT then 1 else 10 * RoundingUnit(x / 10)
  }

  /** Rounding to 80 significant digits, ties to even. */
  function Round(x: int): int {
    var u := RoundingUnit(Abs(x));
    var q, r := Abs(x) / u, Abs(x) % u;
    var rounded := if 2 * r > u || (2 * r == u && q % 2 == 1) then q + 1 else q;
    if x < 0 then -(rounded * u) else rounded * u
  }

  /** The unit is the least power of ten that leaves at most 80 digits. */
  lemma {:induction false} UnitIsLeast(x: nat)
    ensures x / RoundingUnit(x) < PRECISION_LIMIT
    ensures RoundingUnit(x) == 1 <==> x < PRECISION_LIMIT
    ensures RoundingUnit(x) > 1 ==> exists e: nat :: RoundingUnit(x) == 10 * TenTo(e) && x / TenTo(e) >= PRECISION_LIMIT
  {
    if x >= PRECISION_LIMIT {
      UnitIsLeast(x / 10);
      var u := RoundingUnit(x / 10);
      DivideTwice(x, u);
      if u == 1 {
        assert TenTo(0) == 1;
        assert RoundingUnit(x) == 10 * TenTo(0);
      } else {
        var e: nat :| u == 10 * TenTo(e) && x / 10 / TenTo(e) >= PRECISION_LIMIT;
        DivideTwice(x, TenTo(e));
        assert TenTo(e + 1) == u;
      }
    }
  }

  lemma DivideTwice(x: nat, u: nat)
    requires u >= 1
    ensures x / 10 / u == x / (10 * u)
  {
    var a, b := x / 10, x % 10;
    var q, r := a / u, a % u;
    assert a == q * u + r;
    assert x == q * (10 * u) + (10 * r + b);
    assert 10 * r + b < 10 * u;
    QuotientIs(x, 10 * u, q, 10 * r + b);
  }

  /** The number of units nearest to a, of two equally near ones the even one. */
  lemma NearestUnits(a: nat, u: nat) returns (q: nat)
    requires u >= 1
    ensures q == (if 2 * (a % u) > u || (2 * (a % u) == u && a / u % 2 == 1) then a / u + 1 else a / u)
    ensures 2 * Abs(q * u - a) <= u && (2 * Abs(q * u - a) == u ==> q % 2 == 0)
    ensures u == 1 ==> q == a
  {
    var n, r := a / u, a % u;
    assert a == n * u + r;
    q := if 2 * r > u || (2 * r == u && n % 2 == 1) then n + 1 else n;
    if q == n + 1 {
      assert q * u == n * u + u;
    } else {
      assert q * u == n * u;
    }
  }

  /** Rounding gives the nearest number of at most 80 digits times the unit, of two equally near ones the
      even one, and leaves alone what has at most 80 digits. */
  lemma RoundsToNearest(x: int) returns (q: nat)
    ensures var u := RoundingUnit(Abs(x));
      && Round(x) == (if x < 0 then -(q * u) else q * u) && q <= PRECISION_LIMIT
      && 2 * Abs(Round(x) - x) <= u && (2 * Abs(Round(x) - x) == u ==> q % 2 == 0)
    ensures Abs(x) < PRECISION_LIMIT ==> Round(x) == x
  {
    hide RoundingUnit;
    UnitIsLeast(Abs(x));
    q := NearestUnits(Abs(x), RoundingUnit(Abs(x)));
    var p := q * RoundingUnit(Abs(x));
    assert Round(x) == if x < 0 then -p else p;
  }

  function ContextAdd(a: int, b: int): int {
    Round(a + b)
  }

  /** A running total of fewer than `limit` admitted amounts is added to without rounding. */
  lemma AddIsExact(total: int, amount: int, count: nat)
    requires count < 25_000
    requires Abs(total) <= count * MONEY_LIMIT && InMoneyRange(amount)
    ensures ContextAdd(total, amount) == total + amount
    ensures Abs(total + amount) <= (count + 1) * MONEY_LIMIT
  {
    var x := Abs(total + amount);
    assert x <= (count + 1) * MONEY_LIMIT;
    assert RoundingUnit(x) == 1;
    assert x / 1 == x && x % 1 == 0;
  }
}
