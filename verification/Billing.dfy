/** Pricing usage into a statement: exact floored quotients, a total, and lines by amount. */
module Billing {
  import Sorting

  const BYTES_PER_GIB := 0x4000_0000

  const ITEMS_PER_UNIT := 1_000_000

  const INT64_SPAN := 0x1_0000_0000_0000_0000

  /** The low 64 bits of an integer, read as a signed number. */
  function Int64(x: int): int {
    (x + INT64_SPAN / 2) % INT64_SPAN - INT64_SPAN / 2
  }

  predicate Fits(x: int) {
    -INT64_SPAN / 2 <= x < INT64_SPAN / 2
  }

  lemma FitsSame(x: int)
    requires Fits(x)
    ensures Int64(x) == x
  {
  }

  datatype Cost = Cost(customer: nat, name: string, items: int, bytes: int)

  datatype Line = Line(customer: nat, name: string, items: int, bytes: int, bytesCost: int, itemsCost: int, total: int)

  datatype Settings = Settings(pricePerGiB: int, pricePerMillion: int)

  datatype Statement = Statement(lines: seq<Line>, total: int)

  /** price * qty / divisor, floored; nothing for non-positive operands. */
  function Quote(price: int, qty: int, divisor: int): int {
    if price <= 0 || qty <= 0 || divisor <= 0 then 0 else price * qty / divisor
  }

  method MulDiv(price: int, qty: int, divisor: int) returns (r: int)
    ensures r == Int64(Quote(price, qty, divisor))
    ensures Fits(Quote(price, qty, divisor)) ==> r == Quote(price, qty, divisor)
  {
    hide Int64, Fits, Quote;
    QuoteIs(price, qty, divisor);
    if Fits(Quote(price, qty, divisor)) {
      FitsSame(Quote(price, qty, divisor));
    }
    if price <= 0 || qty <= 0 || divisor <= 0 {
      ZeroFits();
      return 0;
    }
    var n := price * qty;
    n := n / divisor;
    return Int64(n);
  }

  lemma QuoteIs(price: int, qty: int, divisor: int)
    ensures price <= 0 || qty <= 0 || divisor <= 0 ==> Quote(price, qty, divisor) == 0
    ensures price > 0 && qty > 0 && divisor > 0 ==> Quote(price, qty, divisor) == price * qty / divisor
  {
  }

  lemma ZeroFits()
    ensures Int64(0) == 0
  {
  }

  /** A customer's line. */
  function Priced(c: Cost, s: Settings): Line {
    var bytes, items := Quote(s.pricePerGiB, c.bytes, BYTES_PER_GIB), Quote(s.pricePerMillion, c.items, ITEMS_PER_UNIT);
    Line(c.customer, c.name, c.items, c.bytes, bytes, items, bytes + items)
  }

  function PricedAll(costs: seq<Cost>, s: Settings): seq<Line> {
    seq(|costs|, i requires 0 <= i < |costs| => Priced(costs[i], s))
  }

  function Total(lines: seq<Line>): int {
    if lines == [] then 0 else Total(lines[..|lines| - 1]) + lines[|lines| - 1].total
  }

  /** By amount, largest first, then by name. */
  predicate LineLe(a: Line, b: Line) {
    a.total > b.total || (a.total == b.total && Sorting.StringLe(a.name, b.name))
  }

  lemma LineOrder()
    ensures Sorting.Preorder(LineLe)
  {
    hide Sorting.StringLe;
    Sorting.StringOrder();
    assert forall a, b, c :: Sorting.StringLe(a, b) && Sorting.StringLe(b, c) ==> Sorting.StringLe(a, c);
    forall a, b ensures LineLe(a, b) || LineLe(b, a) {
    }
    forall a, b, c | LineLe(a, b) && LineLe(b, c) ensures LineLe(a, c) {
    }
  }

  /** Every quotient, every line total and the grand total is a 64-bit number. */
  ghost predicate InRange(costs: seq<Cost>, s: Settings) {
    (forall i :: 0 <= i < |costs| ==> LineFits(Priced(costs[i], s))) && Fits(Total(PricedAll(costs, s)))
  }

  ghost predicate LineFits(l: Line) {
    Fits(l.bytesCost) && Fits(l.itemsCost) && Fits(l.total)
  }

  /** The line as 64-bit arithmetic leaves it. */
  function Wrapped(c: Cost, s: Settings): Line {
    var l := Priced(c, s);
    var bytes, items := Int64(l.bytesCost), Int64(l.itemsCost);
    l.(bytesCost := bytes, itemsCost := items, total := Int64(bytes + items))
  }

  function WrappedAll(costs: seq<Cost>, s: Settings): seq<Line> {
    seq(|costs|, i requires 0 <= i < |costs| => Wrapped(costs[i], s))
  }

  lemma WrappedExact(c: Cost, s: Settings)
    requires LineFits(Priced(c, s))
    ensures Wrapped(c, s) == Priced(c, s)
  {
    hide Quote, Int64, Fits;
    FitsSame(Priced(c, s).bytesCost);
    FitsSame(Priced(c, s).itemsCost);
    FitsSame(Priced(c, s).total);
  }

  /** In range, wrapping changes nothing. */
  lemma InRangeExact(costs: seq<Cost>, s: Settings)
    requires InRange(costs, s)
    ensures WrappedAll(costs, s) == PricedAll(costs, s) && Int64(Total(PricedAll(costs, s))) == Total(PricedAll(costs, s))
  {
    hide Priced, Wrapped, Int64, Fits, LineFits, Total;
    forall i | 0 <= i < |costs| ensures Wrapped(costs[i], s) == Priced(costs[i], s) {
      WrappedExact(costs[i], s);
    }
    FitsSame(Total(PricedAll(costs, s)));
  }

  /** Wrapping in between does not change a wrapped sum. */
  lemma WrapSum(a: int, b: int)
    ensures Int64(Int64(a) + b) == Int64(a + b)
  {
    var k := (a + INT64_SPAN / 2) / INT64_SPAN;
    assert Int64(a) == a - k * INT64_SPAN;
    WrapShift(a + b, k);
  }

  lemma WrapShift(x: int, k: int)
    ensures Int64(x - k * INT64_SPAN) == Int64(x)
  {
  }

  method PriceLine(c: Cost, s: Settings) returns (l: Line)
    ensures l == Wrapped(c, s) && (LineFits(Priced(c, s)) ==> l == Priced(c, s))
  {
    hide Quote, Int64, Fits;
    var bytesCost := MulDiv(s.pricePerGiB, c.bytes, BYTES_PER_GIB);
    var itemsCost := MulDiv(s.pricePerMillion, c.items, ITEMS_PER_UNIT);
    l := Line(c.customer, c.name, c.items, c.bytes, bytesCost, itemsCost, Int64(bytesCost + itemsCost));
    if LineFits(Priced(c, s)) {
      WrappedExact(c, s);
    }
  }

  lemma TotalNone()
    ensures Total([]) == 0
  {
  }

  lemma TotalNext(lines: seq<Line>, l: Line)
    ensures Total(lines + [l]) == Total(lines) + l.total
  {
    assert (lines + [l])[..|lines|] == lines;
  }

  method PriceLines(costs: seq<Cost>, s: Settings) returns (lines: seq<Line>, total: int)
    ensures lines == WrappedAll(costs, s) && total == Int64(Total(lines))
    ensures InRange(costs, s) ==> lines == PricedAll(costs, s) && total == Total(lines)
  {
    hide Int64, Fits, Priced, Wrapped, LineFits, InRange, Total, PricedAll;
    lines, total := [], 0;
    ghost var all := WrappedAll(costs, s);
    ZeroFits();
    TotalNone();
    for i := 0 to |costs|
      invariant lines == all[..i] && total == Int64(Total(lines))
    {
      var l := PriceLine(costs[i], s);
      TotalNext(lines, l);
      WrapSum(Total(lines), l.total);
      assert all[..i + 1] == all[..i] + [all[i]];
      lines, total := lines + [l], Int64(total + l.total);
    }
    assert all[..|costs|] == all;
    if InRange(costs, s) {
      InRangeExact(costs, s);
    }
  }

  /** The statement: its lines are the priced costs, sorted by amount and then name with equal
      lines in input order, and its total is their sum, both in 64-bit arithmetic; in range they
      are the exact prices and the exact sum. */
  method Compute(costs: seq<Cost>, s: Settings) returns (st: Statement)
    ensures multiset(st.lines) == multiset(WrappedAll(costs, s)) && Sorting.Sorted(st.lines, LineLe)
    ensures forall l :: Sorting.Ties(st.lines, l, LineLe) == Sorting.Ties(WrappedAll(costs, s), l, LineLe)
    ensures st.total == Int64(Total(st.lines))
    ensures InRange(costs, s) ==> multiset(st.lines) == multiset(PricedAll(costs, s)) && st.total == Total(st.lines)
  {
    hide LineLe, PricedAll, WrappedAll, InRange, Total, Int64, Sorting.Sort, Sorting.Ties, Sorting.Sorted, Sorting.Preorder;
    var lines, total := PriceLines(costs, s);
    LineOrder();
    Sorting.SortMultiset(lines, LineLe);
    Sorting.SortSorted(lines, LineLe);
    forall l ensures Sorting.Ties(Sorting.Sort(lines, LineLe), l, LineLe) == Sorting.Ties(lines, l, LineLe) {
      Sorting.SortStable(lines, l, LineLe);
    }
    var sorted := Sorting.Sort(lines, LineLe);
    TotalPermutes(lines, sorted);
    st := Statement(sorted, total);
  }

  // ---------------------------------------------------------------------
  // The total does not depend on the order of the lines

  lemma {:induction false} TotalConcat(a: seq<Line>, b: seq<Line>)
    ensures Total(a + b) == Total(a) + Total(b)
    decreases |b|
  {
    if b == [] {
      assert a + b == a;
    } else {
      assert (a + b)[..|a + b| - 1] == a + b[..|b| - 1];
      TotalConcat(a, b[..|b| - 1]);
    }
  }

  lemma TotalWithout(xs: seq<Line>, i: nat)
    requires i < |xs|
    ensures Total(xs) == Total(Sorting.Without(xs, i)) + xs[i].total
  {
    hide Total;
    var a, b := xs[..i], xs[i + 1..];
    assert xs == (a + [xs[i]]) + b && Sorting.Without(xs, i) == a + b;
    TotalConcat(a + [xs[i]], b);
    TotalConcat(a, [xs[i]]);
    TotalConcat(a, b);
    TotalOne(xs[i]);
  }

  lemma TotalOne(l: Line)
    ensures Total([l]) == l.total
  {
    assert [l][..0] == [];
  }

  lemma {:induction false} TotalPermutes(a: seq<Line>, b: seq<Line>)
    requires multiset(a) == multiset(b)
    ensures Total(a) == Total(b)
    decreases |a|
  {
    hide Total;
    if a == [] {
      assert |b| == |multiset(b)| == |multiset(a)| == 0;
      assert a == b;
    } else {
      var i := Sorting.FindIn(a, b, a[0]);
      Sorting.WithoutOne(a, 0);
      Sorting.WithoutOne(b, i);
      Sorting.Cancel(multiset(Sorting.Without(a, 0)), multiset(Sorting.Without(b, i)), a[0]);
      TotalPermutes(Sorting.Without(a, 0), Sorting.Without(b, i));
      TotalWithout(a, 0);
      TotalWithout(b, i);
    }
  }

  // ---------------------------------------------------------------------
  // Splitting usage

  function Sum(parts: seq<nat>): nat {
    if parts == [] then 0 else Sum(parts[..|parts| - 1]) + parts[|parts| - 1]
  }

  /** The parts priced one by one. */
  function Quotes(price: int, parts: seq<nat>, divisor: int): int {
    if parts == [] then 0 else Quotes(price, parts[..|parts| - 1], divisor) + Quote(price, parts[|parts| - 1], divisor)
  }

  lemma QuoteRemainder(price: nat, qty: nat, divisor: nat)
    requires divisor > 0
    ensures 0 <= price * qty - Quote(price, qty, divisor) * divisor <= divisor - 1
  {
    if price > 0 && qty > 0 {
      Division(price * qty, divisor);
    }
  }

  lemma Division(n: nat, d: nat)
    requires d > 0
    ensures 0 <= n - (n / d) * d <= d - 1
  {
  }

  lemma Distribute(price: int, a: int, b: int)
    ensures price * (a + b) == price * a + price * b
  {
  }

  /** What the floors cut off: the remainders of the parts, in fractions of the divisor. */
  function Leftovers(price: nat, parts: seq<nat>, divisor: nat): nat
    requires divisor > 0
  {
    if parts == [] then 0 else Leftovers(price, parts[..|parts| - 1], divisor) + price * parts[|parts| - 1] % divisor
  }

  lemma Accumulate(price: int, a: int, b: int, qa: int, qb: int, d: int, ra: int, rb: int)
    requires price * a == qa * d + ra && price * b == qb * d + rb
    ensures price * (a + b) == (qa + qb) * d + (ra + rb)
  {
    Distribute(price, a, b);
    Distribute(d, qa, qb);
  }

  lemma QuoteExact(price: nat, qty: nat, divisor: nat)
    requires divisor > 0
    ensures price * qty == Quote(price, qty, divisor) * divisor + price * qty % divisor
  {
    Divided(price * qty, divisor);
  }

  lemma Divided(n: nat, d: nat)
    requires d > 0
    ensures n == n / d * d + n % d
  {
  }

  lemma {:induction false} QuotesExact(price: nat, parts: seq<nat>, divisor: nat)
    requires divisor > 0
    ensures price * Sum(parts) == Quotes(price, parts, divisor) * divisor + Leftovers(price, parts, divisor)
  {
    hide Quote;
    if parts != [] {
      var init, last := parts[..|parts| - 1], parts[|parts| - 1];
      QuotesExact(price, init, divisor);
      QuoteExact(price, last, divisor);
      Accumulate(price, Sum(init), last, Quotes(price, init, divisor), Quote(price, last, divisor), divisor,
                 Leftovers(price, init, divisor), price * last % divisor);
    }
  }

  /** One division of the whole: q whole divisors more shift the quotient by q. */
  lemma Shifted(n: int, q: int, r: nat, w: int, d: nat)
    requires d > 0 && n == q * d + r && 0 <= n - w * d <= d - 1
    ensures w == q + r / d
  {
    Divided(r, d);
    Distribute(d, q, r / d);
    QuotientBounds(n, q + r / d, w, 1, d);
  }

  /** Exactly what pricing in parts loses: the whole divisors in the leftovers. Nothing is lost
      exactly when the leftovers stay below one divisor. */
  lemma SplitExactly(price: nat, parts: seq<nat>, divisor: nat)
    requires divisor > 0
    ensures Quote(price, Sum(parts), divisor) == Quotes(price, parts, divisor) + Leftovers(price, parts, divisor) / divisor
    ensures Quotes(price, parts, divisor) == Quote(price, Sum(parts), divisor) <==> Leftovers(price, parts, divisor) < divisor
  {
    hide Quote, Quotes, Sum, Leftovers;
    QuotesExact(price, parts, divisor);
    QuoteRemainder(price, Sum(parts), divisor);
    Shifted(price * Sum(parts), Quotes(price, parts, divisor), Leftovers(price, parts, divisor),
        Quote(price, Sum(parts), divisor), divisor);
    NoWhole(Leftovers(price, parts, divisor), divisor);
  }

  lemma NoWhole(n: nat, d: nat)
    requires d > 0
    ensures n / d >= 0 && (n / d == 0 <==> n < d)
  {
  }

  lemma QuotientBounds(n: int, s: int, w: int, k: nat, d: nat)
    requires d > 0 && k > 0 && 0 <= n - s * d <= k * (d - 1) && 0 <= n - w * d <= d - 1
    ensures s <= w <= s + k - 1
  {
    if w < s {
      Distribute(d, w + 1, s - w - 1);
    } else if w > s + k - 1 {
      Distribute(d, s + k, w - s - k);
      Distribute(d, s, k);
    }
  }

  lemma {:induction false} LeftoversBound(price: nat, parts: seq<nat>, divisor: nat)
    requires divisor > 0
    ensures Leftovers(price, parts, divisor) <= |parts| * (divisor - 1)
  {
    if parts != [] {
      LeftoversBound(price, parts[..|parts| - 1], divisor);
      Distribute(divisor - 1, |parts| - 1, 1);
    }
  }

  /** So pricing usage in n parts never costs more than pricing it whole, and falls short by at
      most n - 1 micro-units. */
  lemma SplitPricing(price: nat, parts: seq<nat>, divisor: nat)
    requires divisor > 0 && parts != []
    ensures Quotes(price, parts, divisor) <= Quote(price, Sum(parts), divisor) <= Quotes(price, parts, divisor) + |parts| - 1
  {
    hide Quote, Quotes, Sum, Leftovers;
    var left := Leftovers(price, parts, divisor);
    SplitExactly(price, parts, divisor);
    LeftoversBound(price, parts, divisor);
    Division(left, divisor);
    QuotientBounds(left, 0, left / divisor, |parts|, divisor);
  }

  function Ones(n: nat): seq<nat> {
    if n == 0 then [] else Ones(n - 1) + [1]
  }

  lemma {:induction false} OnesPriced(price: nat, n: nat, divisor: nat)
    requires price < divisor
    ensures |Ones(n)| == n && Sum(Ones(n)) == n && Quotes(price, Ones(n), divisor) == 0
  {
    if n > 0 {
      OnesPriced(price, n - 1, divisor);
      assert Ones(n)[..n - 1] == Ones(n - 1);
      UnitFree(price, divisor);
    }
  }

  lemma UnitFree(price: nat, divisor: nat)
    requires price < divisor
    ensures Quote(price, 1, divisor) == 0
  {
  }

  /** The bound is met for every n: n single units at price n - 1 and divisor n cost nothing, and
      n - 1 when priced whole. */
  lemma SplitTight(n: nat)
    requires n >= 1
    ensures |Ones(n)| == n && Quotes(n - 1, Ones(n), n) == 0 && Quote(n - 1, Sum(Ones(n)), n) == n - 1
  {
    hide Ones, Quotes, Sum, Quote;
    OnesPriced(n - 1, n, n);
    QuoteRemainder(n - 1, n, n);
    QuotientBounds((n - 1) * n, n - 1, Quote(n - 1, n, n), 1, n);
  }
}
