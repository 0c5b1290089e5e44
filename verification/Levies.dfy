/**
 The amounts of one turnover box: turnover split by period, and each levy as a
 sum of rounded products, one per distinct combination of rate and coefficient.
 */
module Levies {
  import opened Common
  import opened Rounding
  import opened Sorting

  /** Rate in ten-thousandths of a percent, coefficient in ten-thousandths. */
  type Group = (int, int)

  datatype Rates = Rates(cotisation: int, acre: int, cfp: int, chamber: int, liberatoire: int)

  datatype RatedSource = RatedSource(amount: int, prior: bool, rates: Rates)

  datatype Levy = Cotisation | Cfp | Chamber | Liberatoire

  const ONE := 10_000
  const SCALE := 10_000_000_000

  /** The combination under which a levy groups an amount. */
  function GroupOf(levy: Levy, r: Rates): Group {
    match levy
    case Cotisation => (r.cotisation, r.acre)
    case Cfp => (r.cfp, ONE)
    case Chamber => (r.chamber, ONE)
    case Liberatoire => (r.liberatoire, ONE)
  }

  /** Rounded levy on one base: base * rate / 100 * coefficient. */
  function RoundedLevy(base: int, g: Group): int {
    RoundDiv(base * (g.0 * g.1), SCALE)
  }

  /** A manual adjustment joins the sources at the rates of the period end. */
  function WithManual(sources: seq<RatedSource>, manual: int, rates: Rates): seq<RatedSource> {
    if manual == 0 then sources else sources + [RatedSource(manual, false, rates)]
  }

  function Base(levy: Levy, sources: seq<RatedSource>, g: Group): int {
    if sources == [] then 0
    else (if GroupOf(levy, sources[0].rates) == g then sources[0].amount else 0) + Base(levy, sources[1..], g)
  }

  function Groups(levy: Levy, sources: seq<RatedSource>): (r: set<Group>)
    ensures forall s | s in sources :: GroupOf(levy, s.rates) in r
  {
    set s | s in sources :: GroupOf(levy, s.rates)
  }

  /** Sum of a function over a finite set. */
  ghost function SumOver(s: set<Group>, f: Group -> int): int {
    if s == {} then 0
    else
      var x :| x in s;
      f(x) + SumOver(s - {x}, f)
  }

  function Bases(levy: Levy, sources: seq<RatedSource>): Group -> int {
    g => Base(levy, sources, g)
  }

  function Rounded(base: Group -> int): Group -> int {
    g => RoundedLevy(base(g), g)
  }

  function Times(base: Group -> int, w: Group -> int): Group -> int {
    g => base(g) * w(g)
  }

  ghost function LevyAmount(levy: Levy, sources: seq<RatedSource>): int {
    SumOver(Groups(levy, sources), Rounded(Bases(levy, sources)))
  }

  function Total(sources: seq<RatedSource>): int {
    if sources == [] then 0 else sources[0].amount + Total(sources[1..])
  }

  /** Amounts of the prior-period or of the current sources. */
  function PeriodTotal(sources: seq<RatedSource>, prior: bool): int {
    if sources == [] then 0
    else (if sources[0].prior == prior then sources[0].amount else 0) + PeriodTotal(sources[1..], prior)
  }

  // ------------------------------------------------------------ the loop

  datatype Box = Box(current: int, prior: int, computed: int, declared: int,
                     cotisation: int, cfp: int, chamber: int, liberatoire: int, total: int)

  ghost predicate Grouped(levy: Levy, sources: seq<RatedSource>, bases: map<Group, int>) {
    bases.Keys == Groups(levy, sources) && forall g | g in bases :: bases[g] == Base(levy, sources, g)
  }

  function AddTo(bases: map<Group, int>, g: Group, amount: int): map<Group, int> {
    bases[g := (if g in bases then bases[g] else 0) + amount]
  }

  lemma {:induction false} BaseAppend(levy: Levy, sources: seq<RatedSource>, x: RatedSource, g: Group)
    ensures Base(levy, sources + [x], g)
         == Base(levy, sources, g) + if GroupOf(levy, x.rates) == g then x.amount else 0
  {
    if sources == [] {
      assert ([] + [x])[1..] == [];
    } else {
      BaseAppend(levy, sources[1..], x, g);
      assert (sources + [x])[1..] == sources[1..] + [x];
    }
  }

  lemma {:induction false} NoBase(levy: Levy, sources: seq<RatedSource>, g: Group)
    requires g !in Groups(levy, sources)
    ensures Base(levy, sources, g) == 0
  {
    if sources != [] {
      assert sources[0] in sources;
      assert forall s | s in sources[1..] :: s in sources;
      NoBase(levy, sources[1..], g);
    }
  }

  lemma GroupedStep(levy: Levy, sources: seq<RatedSource>, x: RatedSource, bases: map<Group, int>)
    requires Grouped(levy, sources, bases)
    ensures Grouped(levy, sources + [x], AddTo(bases, GroupOf(levy, x.rates), x.amount))
  {
    var g := GroupOf(levy, x.rates);
    forall h ensures Base(levy, sources + [x], h) == Base(levy, sources, h) + if h == g then x.amount else 0 {
      BaseAppend(levy, sources, x, h);
    }
    if g !in bases {
      NoBase(levy, sources, g);
    }
    assert forall s :: s in sources + [x] <==> s in sources || s == x;
    assert Groups(levy, sources + [x]) == Groups(levy, sources) + {g};
  }

  function Entries(bases: map<Group, int>): Group -> int {
    g => if g in bases then bases[g] else 0
  }

  method SumRounded(bases: map<Group, int>) returns (levy: int)
    ensures levy == SumOver(bases.Keys, Rounded(Entries(bases)))
  {
    levy := 0;
    var left := bases.Keys;
    ghost var f := Rounded(Entries(bases));
    while left != {}
      invariant left <= bases.Keys
      invariant levy + SumOver(left, f) == SumOver(bases.Keys, f)
      decreases |left|
    {
      var g :| g in left;
      SumOverRemove(left, f, g);
      levy := levy + RoundDiv(bases[g] * (g.0 * g.1), 10_000_000_000);
      left := left - {g};
    }
  }

  lemma {:induction false} SumOverRemove(s: set<Group>, f: Group -> int, x: Group)
    requires x in s
    ensures SumOver(s, f) == f(x) + SumOver(s - {x}, f)
  {
    var y :| y in s && SumOver(s, f) == f(y) + SumOver(s - {y}, f);
    if y != x {
      SumOverRemove(s - {y}, f, x);
      SumOverRemove(s - {x}, f, y);
      assert s - {y} - {x} == s - {x} - {y};
    }
  }

  lemma {:induction false} SumOverSame(s: set<Group>, f: Group -> int, h: Group -> int)
    requires forall g | g in s :: f(g) == h(g)
    ensures SumOver(s, f) == SumOver(s, h)
  {
    if s != {} {
      var x :| x in s;
      SumOverRemove(s, f, x);
      SumOverRemove(s, h, x);
      SumOverSame(s - {x}, f, h);
    }
  }

  lemma GroupedLevy(levy: Levy, sources: seq<RatedSource>, bases: map<Group, int>)
    requires Grouped(levy, sources, bases)
    ensures SumOver(bases.Keys, Rounded(Entries(bases))) == LevyAmount(levy, sources)
  {
    SumOverSame(bases.Keys, Rounded(Entries(bases)), Rounded(Bases(levy, sources)));
  }

  method RefreshAmounts(sources: seq<RatedSource>, manual: int, manualRates: Rates) returns (box: Box)
    ensures box.current == PeriodTotal(sources, false) && box.prior == PeriodTotal(sources, true)
    ensures box.computed == box.current + box.prior + manual == Total(WithManual(sources, manual, manualRates))
    ensures box.declared == Max(0, box.computed)
    ensures var all := WithManual(sources, manual, manualRates);
      && box.cotisation == LevyAmount(Cotisation, all) && box.cfp == LevyAmount(Cfp, all)
      && box.chamber == LevyAmount(Chamber, all) && box.liberatoire == LevyAmount(Liberatoire, all)
    ensures box.total == box.cotisation + box.cfp + box.chamber + box.liberatoire
    ensures manual == 0 && |sources| == 1 ==> NearestLevies(box, sources[0].amount, sources[0].rates)
    ensures manual != 0 && |sources| == 0 ==> NearestLevies(box, manual, manualRates)
  {
    hide LevyAmount, SumOver, RoundedLevy, Grouped;
    var current, prior := 0, 0;
    var cotisations: map<Group, int>, cfps: map<Group, int> := map[], map[];
    var chambers: map<Group, int>, liberatoires: map<Group, int> := map[], map[];
    NothingGrouped();
    for i := 0 to |sources|
      invariant current + PeriodTotal(sources[i..], false) == PeriodTotal(sources, false)
      invariant prior + PeriodTotal(sources[i..], true) == PeriodTotal(sources, true)
      invariant Grouped(Cotisation, sources[..i], cotisations) && Grouped(Cfp, sources[..i], cfps)
      invariant Grouped(Chamber, sources[..i], chambers) && Grouped(Liberatoire, sources[..i], liberatoires)
    {
      var source := sources[i];
      assert sources[i..][1..] == sources[i + 1..];
      assert sources[..i + 1] == sources[..i] + [source];
      if source.prior {
        prior := prior + source.amount;
      } else {
        current := current + source.amount;
      }
      GroupedStep(Cotisation, sources[..i], source, cotisations);
      GroupedStep(Cfp, sources[..i], source, cfps);
      GroupedStep(Chamber, sources[..i], source, chambers);
      GroupedStep(Liberatoire, sources[..i], source, liberatoires);
      cotisations := AddTo(cotisations, (source.rates.cotisation, source.rates.acre), source.amount);
      cfps := AddTo(cfps, (source.rates.cfp, ONE), source.amount);
      chambers := AddTo(chambers, (source.rates.chamber, ONE), source.amount);
      liberatoires := AddTo(liberatoires, (source.rates.liberatoire, ONE), source.amount);
    }
    assert sources[..|sources|] == sources;
    ghost var all := WithManual(sources, manual, manualRates);
    if manual != 0 {
      ghost var extra := RatedSource(manual, false, manualRates);
      GroupedStep(Cotisation, sources, extra, cotisations);
      GroupedStep(Cfp, sources, extra, cfps);
      GroupedStep(Chamber, sources, extra, chambers);
      GroupedStep(Liberatoire, sources, extra, liberatoires);
      cotisations := AddTo(cotisations, (manualRates.cotisation, manualRates.acre), manual);
      cfps := AddTo(cfps, (manualRates.cfp, ONE), manual);
      chambers := AddTo(chambers, (manualRates.chamber, ONE), manual);
      liberatoires := AddTo(liberatoires, (manualRates.liberatoire, ONE), manual);
    }
    GroupedLevy(Cotisation, all, cotisations);
    GroupedLevy(Cfp, all, cfps);
    GroupedLevy(Chamber, all, chambers);
    GroupedLevy(Liberatoire, all, liberatoires);
    var cotisation := SumRounded(cotisations);
    var cfp := SumRounded(cfps);
    var chamber := SumRounded(chambers);
    var liberatoire := SumRounded(liberatoires);
    TotalIsBoth(sources);
    TotalAppend(sources, manual, manualRates);
    if |all| == 1 {
      OneSourceLevies(all[0]);
      assert all == [all[0]];
    }
    box := Box(current, prior, current + prior + manual, Max(0, current + prior + manual),
               cotisation, cfp, chamber, liberatoire, cotisation + cfp + chamber + liberatoire);
  }

  lemma NothingGrouped()
    ensures forall levy :: Grouped(levy, [], map[])
  {
  }

  lemma {:induction false} TotalIsBoth(sources: seq<RatedSource>)
    ensures Total(sources) == PeriodTotal(sources, false) + PeriodTotal(sources, true)
  {
    if sources != [] {
      TotalIsBoth(sources[1..]);
    }
  }

  lemma {:induction false} TotalAppend(sources: seq<RatedSource>, manual: int, rates: Rates)
    ensures Total(WithManual(sources, manual, rates)) == Total(sources) + manual
  {
    if manual != 0 {
      if sources == [] {
        assert WithManual(sources, manual, rates)[1..] == [];
      } else {
        TotalAppend(sources[1..], manual, rates);
        assert WithManual(sources, manual, rates)[1..] == WithManual(sources[1..], manual, rates);
      }
    }
  }

  // ------------------------------------------------------------ what a levy amounts to

  /** Each levy of one amount is the nearest cent of amount * rate / 100, the contribution times its coefficient. */
  ghost predicate NearestLevies(box: Box, amount: int, r: Rates) {
    && IsNearest(box.cotisation, amount * r.cotisation * r.acre, 10_000_000_000)
    && IsNearest(box.cfp, amount * r.cfp, 1_000_000)
    && IsNearest(box.chamber, amount * r.chamber, 1_000_000)
    && IsNearest(box.liberatoire, amount * r.liberatoire, 1_000_000)
  }

  /** Sources of one group are levied together: the nearest cent of the rate on their sum. */
  lemma OneGroupLevy(levy: Levy, sources: seq<RatedSource>, g: Group)
    requires sources != [] && forall s | s in sources :: GroupOf(levy, s.rates) == g
    ensures IsNearest(LevyAmount(levy, sources), Total(sources) * (g.0 * g.1), 10_000_000_000)
  {
    assert sources[0] in sources;
    assert Groups(levy, sources) == {g};
    var f := Rounded(Bases(levy, sources));
    SumOverRemove({g}, f, g);
    assert {g} - {g} == {};
    OnlyBase(levy, sources, g);
    RoundDivNearest(Total(sources) * (g.0 * g.1), SCALE);
  }

  lemma {:induction false} OnlyBase(levy: Levy, sources: seq<RatedSource>, g: Group)
    requires forall s | s in sources :: GroupOf(levy, s.rates) == g
    ensures Base(levy, sources, g) == Total(sources)
  {
    if sources != [] {
      assert sources[0] in sources;
      OnlyBase(levy, sources[1..], g);
    }
  }

  /** Sources that share rate and coefficient are levied as one amount, each levy at its own rate. */
  lemma SharedRatesLevy(sources: seq<RatedSource>, r: Rates)
    requires sources != []
    ensures (forall s | s in sources :: s.rates.cotisation == r.cotisation && s.rates.acre == r.acre) ==>
      IsNearest(LevyAmount(Cotisation, sources), Total(sources) * (r.cotisation * r.acre), 10_000_000_000)
    ensures (forall s | s in sources :: s.rates.cfp == r.cfp) ==>
      IsNearest(LevyAmount(Cfp, sources), Total(sources) * r.cfp, 1_000_000)
    ensures (forall s | s in sources :: s.rates.chamber == r.chamber) ==>
      IsNearest(LevyAmount(Chamber, sources), Total(sources) * r.chamber, 1_000_000)
    ensures (forall s | s in sources :: s.rates.liberatoire == r.liberatoire) ==>
      IsNearest(LevyAmount(Liberatoire, sources), Total(sources) * r.liberatoire, 1_000_000)
  {
    hide LevyAmount, Total, IsNearest;
    if forall s | s in sources :: s.rates.cotisation == r.cotisation && s.rates.acre == r.acre {
      OneGroupLevy(Cotisation, sources, (r.cotisation, r.acre));
    }
    if forall s | s in sources :: s.rates.cfp == r.cfp {
      OneGroupLevy(Cfp, sources, (r.cfp, ONE));
      WithoutCoefficient(LevyAmount(Cfp, sources), Total(sources), r.cfp);
    }
    if forall s | s in sources :: s.rates.chamber == r.chamber {
      OneGroupLevy(Chamber, sources, (r.chamber, ONE));
      WithoutCoefficient(LevyAmount(Chamber, sources), Total(sources), r.chamber);
    }
    if forall s | s in sources :: s.rates.liberatoire == r.liberatoire {
      OneGroupLevy(Liberatoire, sources, (r.liberatoire, ONE));
      WithoutCoefficient(LevyAmount(Liberatoire, sources), Total(sources), r.liberatoire);
    }
  }

  /** A coefficient of one cancels. */
  lemma WithoutCoefficient(levy: int, total: int, rate: int)
    requires IsNearest(levy, total * (rate * 10_000), 10_000_000_000)
    ensures IsNearest(levy, total * rate, 1_000_000)
  {
    var n := total * rate;
    assert total * (rate * 10_000) == n * 10_000;
  }

  lemma OneSourceLevies(s: RatedSource)
    ensures IsNearest(LevyAmount(Cotisation, [s]), s.amount * s.rates.cotisation * s.rates.acre, 10_000_000_000)
    ensures IsNearest(LevyAmount(Cfp, [s]), s.amount * s.rates.cfp, 1_000_000)
    ensures IsNearest(LevyAmount(Chamber, [s]), s.amount * s.rates.chamber, 1_000_000)
    ensures IsNearest(LevyAmount(Liberatoire, [s]), s.amount * s.rates.liberatoire, 1_000_000)
  {
    hide LevyAmount, IsNearest;
    SharedRatesLevy([s], s.rates);
    assert [s][1..] == [] && Total([s]) == s.amount;
    Associates(s.amount, s.rates.cotisation, s.rates.acre);
  }

  lemma Associates(a: int, b: int, c: int)
    ensures a * (b * c) == a * b * c
  {
  }

  // ------------------------------------------------------------ the order of evidence does not matter

  lemma {:induction false} BaseOfPermutation(levy: Levy, a: seq<RatedSource>, b: seq<RatedSource>, g: Group)
    requires multiset(a) == multiset(b)
    ensures Base(levy, a, g) == Base(levy, b, g)
    decreases |a|
  {
    if a == [] {
      assert |multiset(b)| == 0;
    } else {
      var i := MatchFirst(a, b);
      BaseOfPermutation(levy, a[1..], b[..i] + b[i + 1..], g);
      BaseWithout(levy, b, i, g);
    }
  }

  lemma MatchFirst(a: seq<RatedSource>, b: seq<RatedSource>) returns (i: nat)
    requires a != [] && multiset(a) == multiset(b)
    ensures i < |b| && b[i] == a[0] && multiset(a[1..]) == multiset(b[..i] + b[i + 1..])
  {
    hide *;
    assert a[0] in multiset(a);
    assert a[0] in b;
    i :| 0 <= i < |b| && b[i] == a[0];
    WithoutFirst(a);
    WithoutOne(b, i);
  }

  lemma {:induction false} BaseWithout(levy: Levy, b: seq<RatedSource>, i: nat, g: Group)
    requires i < |b|
    ensures Base(levy, b, g) == Base(levy, b[..i] + b[i + 1..], g) + if GroupOf(levy, b[i].rates) == g
      then b[i].amount else 0
    decreases i
  {
    if i == 0 {
      assert b[..0] + b[1..] == b[1..];
    } else {
      BaseWithout(levy, b[1..], i - 1, g);
      var rest := b[..i] + b[i + 1..];
      assert rest[0] == b[0] && rest[1..] == b[1..][..i - 1] + b[1..][i..];
    }
  }

  /** Each levy is the same for every order of the sources. */
  lemma LevyIgnoresOrder(levy: Levy, a: seq<RatedSource>, b: seq<RatedSource>)
    requires multiset(a) == multiset(b)
    ensures LevyAmount(levy, a) == LevyAmount(levy, b)
  {
    forall x ensures x in a <==> x in b {
      assert x in multiset(a) <==> x in multiset(b);
    }
    assert Groups(levy, a) == Groups(levy, b);
    forall g ensures Base(levy, a, g) == Base(levy, b, g) {
      BaseOfPermutation(levy, a, b, g);
    }
    SumOverSame(Groups(levy, a), Rounded(Bases(levy, a)), Rounded(Bases(levy, b)));
  }

  // ------------------------------------------------------------ nothing is levied twice or left out

  /** Each amount weighted by its own group. */
  function Weighted(levy: Levy, sources: seq<RatedSource>, w: Group -> int): int {
    if sources == [] then 0
    else sources[0].amount * w(GroupOf(levy, sources[0].rates)) + Weighted(levy, sources[1..], w)
  }

  lemma {:induction false} SumOverAddOne(s: set<Group>, f: Group -> int, h: Group -> int, g: Group, extra: int)
    requires g in s && h(g) == f(g) + extra && forall x | x in s && x != g :: h(x) == f(x)
    ensures SumOver(s, h) == SumOver(s, f) + extra
  {
    SumOverRemove(s, f, g);
    SumOverRemove(s, h, g);
    SumOverSame(s - {g}, f, h);
  }

  lemma {:induction false} SumOverZero(s: set<Group>, f: Group -> int)
    requires forall g | g in s :: f(g) == 0
    ensures SumOver(s, f) == 0
  {
    if s != {} {
      var x :| x in s;
      SumOverRemove(s, f, x);
      SumOverZero(s - {x}, f);
    }
  }

  lemma {:induction false} BasesCarryEverything(levy: Levy, sources: seq<RatedSource>, s: set<Group>, w: Group -> int)
    requires Groups(levy, sources) <= s
    ensures SumOver(s, Times(Bases(levy, sources), w)) == Weighted(levy, sources, w)
  {
    hide SumOver, GroupOf;
    var f := Times(Bases(levy, sources), w);
    if sources == [] {
      SumOverZero(s, f);
    } else {
      var rest := Times(Bases(levy, sources[1..]), w);
      var x, g0 := sources[0], GroupOf(levy, sources[0].rates);
      assert x in sources && forall y | y in sources[1..] :: y in sources;
      BasesCarryEverything(levy, sources[1..], s, w);
      Distribute(x.amount, Base(levy, sources[1..], g0), w(g0));
      SumOverAddOne(s, rest, f, g0, x.amount * w(g0));
    }
  }

  lemma Distribute(a: int, b: int, w: int)
    ensures (a + b) * w == b * w + a * w
  {
  }

  function One(): Group -> int {
    g => 1
  }

  lemma {:induction false} UnitWeights(levy: Levy, sources: seq<RatedSource>)
    ensures Weighted(levy, sources, One()) == Total(sources)
  {
    if sources != [] {
      UnitWeights(levy, sources[1..]);
    }
  }

  /** The group bases of every levy sum to the unrounded turnover, manual adjustment included. */
  lemma GroupBasesSumToTurnover(levy: Levy, sources: seq<RatedSource>, manual: int, rates: Rates)
    ensures var all := WithManual(sources, manual, rates);
      SumOver(Groups(levy, all), Bases(levy, all)) == Total(sources) + manual
  {
    var all := WithManual(sources, manual, rates);
    BasesCarryEverything(levy, all, Groups(levy, all), One());
    SumOverSame(Groups(levy, all), Bases(levy, all), Times(Bases(levy, all), One()));
    UnitWeights(levy, all);
    TotalAppend(sources, manual, rates);
  }

  // ------------------------------------------------------------ how far rounding can go

  function Weight(g: Group): int {
    g.0 * g.1
  }

  lemma {:induction false} RoundingWithin(s: set<Group>, base: Group -> int)
    ensures -SCALE * |s| <= 2 * (SCALE * SumOver(s, Rounded(base)) - SumOver(s, Times(base, Weight))) <= SCALE * |s|
  {
    if s != {} {
      var x :| x in s;
      SumOverRemove(s, Rounded(base), x);
      SumOverRemove(s, Times(base, Weight), x);
      RoundingWithin(s - {x}, base);
      RoundDivNearest(base(x) * (x.0 * x.1), SCALE);
      assert |s| == |s - {x}| + 1;
    }
  }

  lemma WithinHalfCent(levy: Levy, sources: seq<RatedSource>)
    ensures var n := |Groups(levy, sources)|;
      -SCALE * n <= 2 * (SCALE * LevyAmount(levy, sources) - Weighted(levy, sources, Weight)) <= SCALE * n
  {
    RoundingWithin(Groups(levy, sources), Bases(levy, sources));
    BasesCarryEverything(levy, sources, Groups(levy, sources), Weight);
  }

  /** Sum of a product over the sources. */
  function Products(sources: seq<RatedSource>, f: RatedSource -> int): int {
    if sources == [] then 0 else f(sources[0]) + Products(sources[1..], f)
  }

  /** The rates a levy meets, told apart as it groups them. */
  function ContributionRates(sources: seq<RatedSource>): set<(int, int)> {
    set s | s in sources :: (s.rates.cotisation, s.rates.acre)
  }

  function PlainRates(sources: seq<RatedSource>, rate: Rates -> int): set<int> {
    set s | s in sources :: rate(s.rates)
  }

  /** Each levy is within half a cent per distinct rate of the exact sum of its products. */
  lemma LevyWithinHalfCentPerGroup(sources: seq<RatedSource>)
    ensures var n := |ContributionRates(sources)|;
      -10_000_000_000 * n
      <= 2 * (10_000_000_000 * LevyAmount(Cotisation, sources)
              - Products(sources, (s: RatedSource) => s.amount * (s.rates.cotisation * s.rates.acre)))
      <= 10_000_000_000 * n
    ensures Abs(2 * (1_000_000 * LevyAmount(Cfp, sources)
                     - Products(sources, (s: RatedSource) => s.amount * s.rates.cfp)))
      <= 1_000_000 * |PlainRates(sources, (r: Rates) => r.cfp)|
    ensures Abs(2 * (1_000_000 * LevyAmount(Chamber, sources)
                     - Products(sources, (s: RatedSource) => s.amount * s.rates.chamber)))
      <= 1_000_000 * |PlainRates(sources, (r: Rates) => r.chamber)|
    ensures Abs(2 * (1_000_000 * LevyAmount(Liberatoire, sources)
                     - Products(sources, (s: RatedSource) => s.amount * s.rates.liberatoire)))
      <= 1_000_000 * |PlainRates(sources, (r: Rates) => r.liberatoire)|
  {
    hide LevyAmount;
    WithinHalfCent(Cotisation, sources);
    assert Groups(Cotisation, sources) == ContributionRates(sources);
    WeightedContribution(sources);
    PlainLevy(Cfp, sources, (r: Rates) => r.cfp);
    PlainLevy(Chamber, sources, (r: Rates) => r.chamber);
    PlainLevy(Liberatoire, sources, (r: Rates) => r.liberatoire);
    SameProducts(sources, (s: RatedSource) => s.amount * s.rates.cfp, AtRate((r: Rates) => r.cfp));
    SameProducts(sources, (s: RatedSource) => s.amount * s.rates.chamber, AtRate((r: Rates) => r.chamber));
    SameProducts(sources, (s: RatedSource) => s.amount * s.rates.liberatoire, AtRate((r: Rates) => r.liberatoire));
  }

  function AtRate(rate: Rates -> int): RatedSource -> int {
    (s: RatedSource) => s.amount * rate(s.rates)
  }

  lemma {:induction false} SameProducts(sources: seq<RatedSource>, f: RatedSource -> int, g: RatedSource -> int)
    requires forall s :: f(s) == g(s)
    ensures Products(sources, f) == Products(sources, g)
  {
    if sources != [] {
      SameProducts(sources[1..], f, g);
    }
  }

  lemma {:induction false} WeightedContribution(sources: seq<RatedSource>)
    ensures Weighted(Cotisation, sources, Weight)
      == Products(sources, (s: RatedSource) => s.amount * (s.rates.cotisation * s.rates.acre))
  {
    if sources != [] {
      WeightedContribution(sources[1..]);
    }
  }

  /** A levy without coefficient. */
  lemma PlainLevy(levy: Levy, sources: seq<RatedSource>, rate: Rates -> int)
    requires forall r :: GroupOf(levy, r) == (rate(r), 10_000)
    ensures Abs(2 * (1_000_000 * LevyAmount(levy, sources) - Products(sources, AtRate(rate))))
      <= 1_000_000 * |PlainRates(sources, rate)|
  {
    hide LevyAmount;
    WithinHalfCent(levy, sources);
    WeightedPlain(levy, sources, rate);
    SameCount(levy, sources, rate);
  }

  lemma {:induction false} WeightedPlain(levy: Levy, sources: seq<RatedSource>, rate: Rates -> int)
    requires forall r :: GroupOf(levy, r) == (rate(r), 10_000)
    ensures Weighted(levy, sources, Weight) == 10_000 * Products(sources, AtRate(rate))
  {
    if sources != [] {
      WeightedPlain(levy, sources[1..], rate);
      var a, q := sources[0].amount, rate(sources[0].rates);
      Associates(a, q, 10_000);
      assert Weight((q, 10_000)) == q * 10_000;
    }
  }

  lemma SameCount(levy: Levy, sources: seq<RatedSource>, rate: Rates -> int)
    requires forall r :: GroupOf(levy, r) == (rate(r), 10_000)
    ensures |Groups(levy, sources)| == |PlainRates(sources, rate)|
  {
    SizeOfPairs(PlainRates(sources, rate));
    assert Groups(levy, sources) == Pairs(PlainRates(sources, rate));
  }

  function Pairs(rates: set<int>): set<Group> {
    set q | q in rates :: (q, 10_000)
  }

  lemma {:induction false} SizeOfPairs(rates: set<int>)
    ensures |Pairs(rates)| == |rates|
  {
    if rates == {} {
      assert Pairs(rates) == {};
    } else {
      var q := Member(rates);
      SizeOfPairs(rates - {q});
      assert Pairs(rates) == Pairs(rates - {q}) + {(q, 10_000)};
    }
  }
}
