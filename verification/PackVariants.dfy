/** One variant of a product for every pack size its suppliers publish. */
module PackVariants {
  import opened Common
  import opened PackKeys

  datatype Base = Milliliter | Gram

  /** An offer as published; zero or an empty unit when the shop says nothing. */
  datatype Offer = Offer(quantity: real, unit: string)

  datatype Pack = Pack(quantity: real, base: Base)

  /** The name of a variant: one printed here, or text that does not read as a quantity and a unit. */
  datatype Label = Printed(quantity: real, base: Base) | Typed(text: string)

  type Group = (int, Base)

  /** What one of the unit is in its base; the unit in lower case without blanks around it. */
  function Factor(unit: string): Option<(real, Base)> {
    match unit
    case "ml" => Some((1.0, Milliliter))
    case "l" => Some((1000.0, Milliliter))
    case "cl" => Some((10.0, Milliliter))
    case "fl oz" => Some((29.5735, Milliliter))
    case "pint" => Some((473.176, Milliliter))
    case "quart" => Some((946.353, Milliliter))
    case "gallon" => Some((3785.41, Milliliter))
    case "g" => Some((1.0, Gram))
    case "kg" => Some((1000.0, Gram))
    case "lb" => Some((453.592, Gram))
    case "pound" => Some((453.592, Gram))
    case "oz" => Some((28.3495, Gram))
    case _ => None
  }

  ghost predicate Within(a: real, b: real, tolerance: real) {
    a - tolerance <= b <= a + tolerance
  }

  /** How many millilitres or grams one of the unit is. */
  ghost function One(unit: string): real {
    match Factor(unit) case Some(f) => f.0 case None => 0.0
  }

  /**
   Each unit by its definition, to the precision kept: a gallon is 231 cubic inches of 16.387064 ml,
   a pound 453.59237 g.
   */
  lemma UnitsByDefinition(unit: string)
    ensures Factor(unit).Some? && Factor(unit).value.1 == Milliliter <==>
            unit in {"ml", "cl", "l", "fl oz", "pint", "quart", "gallon"}
    ensures Factor(unit).Some? && Factor(unit).value.1 == Gram <==> unit in {"g", "kg", "oz", "lb", "pound"}
    ensures One("ml") == 1.0 && One("l") == 1000.0 * One("ml") == 100.0 * One("cl")
    ensures One("g") == 1.0 && One("kg") == 1000.0 * One("g")
    ensures One("lb") == One("pound") == 16.0 * One("oz") && Within(One("lb"), 453.59237, 0.0005)
    ensures Within(One("gallon"), 231.0 * 16.387064, 0.005) && Within(4.0 * One("quart"), 231.0 * 16.387064, 0.002)
    ensures Within(8.0 * One("pint"), 231.0 * 16.387064, 0.004)
    ensures Within(128.0 * One("fl oz"), 231.0 * 16.387064, 0.0064)
  {
  }

  function PackageToUom(o: Offer): Option<Pack> {
    if o.quantity == 0.0 || o.unit == "" || Factor(o.unit).None? then None
    else Some(Pack(o.quantity * Factor(o.unit).value.0, Factor(o.unit).value.1))
  }

  function GroupOf(p: Pack): Group {
    (KeyOf(p.quantity), p.base)
  }

  /** The quantities of one group, in the order of the offers. */
  function Members(offers: seq<Offer>, g: Group): seq<real> {
    if offers == [] then []
    else
      Adds(offers[0], g) + Members(offers[1..], g)
  }

  // ------------------------------------------------------------ the label of a group

  predicate Whole(q: real) {
    q == q.Floor as real
  }

  /** Published more often; then whole; then larger. */
  predicate Better(m: multiset<real>, a: real, b: real) {
    if m[a] != m[b] then m[a] > m[b]
    else if Whole(a) != Whole(b) then Whole(a)
    else a > b
  }

  lemma BetterIsTransitive(m: multiset<real>, s: seq<real>, rest: real)
    requires s != [] && Better(m, s[0], rest)
    ensures forall x | Better(m, x, s[0]) :: Better(m, x, rest)
  {
  }

  function BestOf(m: multiset<real>, s: seq<real>): (best: real)
    requires s != []
    ensures best in s && forall x | x in s :: !Better(m, x, best)
  {
    if |s| == 1 then s[0]
    else
      var rest := BestOf(m, s[1..]);
      if Better(m, s[0], rest) then BetterIsTransitive(m, s, rest); s[0] else rest
  }

  /** Rounded to two decimals, as labels print quantities. */
  function Round2(q: real): real {
    if Whole(q) then q else RoundHalfEven(q * 100.0) as real / 100.0
  }

  function LabelOf(members: seq<real>, base: Base): Label
    requires members != []
  {
    Printed(Round2(BestOf(multiset(members), members)), base)
  }

  ghost predicate IsGroupLabel(offers: seq<Offer>, l: Label) {
    exists g: Group :: Members(offers, g) != [] && l == LabelOf(Members(offers, g), g.1)
  }

  // ------------------------------------------------------------ the loops

  class Template {
    var labels: seq<Label>

    /** Groups the packs by key and base. */
    method GroupPacks(offers: seq<Offer>) returns (groups: map<Group, seq<real>>, names: seq<Group>)
      ensures IsGrouping(offers, groups, names)
    {
      hide Members, PackageToUom, GroupOf;
      groups, names := map[], [];
      NothingGrouped(offers);
      for i := 0 to |offers|
        invariant IsGrouping(offers[..i], groups, names)
      {
        MembersGrow(offers, i);
        var pack := PackageToUom(offers[i]);
        if pack.Some? {
          var g := GroupOf(pack.value);
          if g !in groups {
            names := names + [g];
          }
          groups := groups[g := (if g in groups then groups[g] else []) + [pack.value.quantity]];
        }
      }
      assert offers[..|offers|] == offers;
    }

    /** The most frequently published quantity, then a whole one, then the largest. */
    method Common(members: seq<real>) returns (common: real)
      requires members != []
      ensures common == BestOf(multiset(members), members)
    {
      common := members[0];
      for k := 1 to |members|
        invariant common == BestOf(multiset(members), members[..k])
      {
        BestOfOneMore(multiset(members), members[..k], members[k]);
        assert members[..k + 1] == members[..k] + [members[k]];
        if Better(multiset(members), members[k], common) {
          common := members[k];
        }
      }
      assert members[..|members|] == members;
    }

    /** Only ever adds labels, one for each group. */
    method SyncPackVariants(offers: seq<Offer>)
      modifies this
      ensures Synced(old(labels), offers, labels)
    {
      hide Members, BestOf;
      ghost var before := labels;
      var groups, names := GroupPacks(offers);
      for i := 0 to |names|
        invariant before <= labels
        invariant forall l :: l in labels <==> l in before || NamedBefore(groups, names, i, l)
        invariant (forall l | l in labels :: l in before) ==> labels == before
      {
        NamedNext(groups, names, i);
        var common := Common(groups[names[i]]);
        var name := Printed(Round2(common), names[i].1);
        if name !in labels {
          labels := labels + [name];
        }
      }
      LabelsOfGroups(offers, groups, names);
    }

    /** The first variant whose label reads as a pack of the wanted key. */
    method VariantForPack(quantity: real, base: Base) returns (r: Option<Label>)
      ensures r.Some? <==> Finds(labels, quantity, base)
      ensures r.Some? ==> r.value in labels && Carries(r.value, quantity, base)
    {
      for i := 0 to |labels|
        invariant forall k | 0 <= k < i :: !Carries(labels[k], quantity, base)
      {
        if labels[i].Printed? && labels[i].quantity != 0.0 && labels[i].base == base
           && PackKey(labels[i].quantity) == PackKey(quantity) {
          assert Carries(labels[i], quantity, base);
          return Some(labels[i]);
        }
      }
      r := None;
    }
  }

  /** A label that reads as a pack with the wanted key. */
  predicate Carries(l: Label, quantity: real, base: Base) {
    l.Printed? && l.quantity != 0.0 && PackKey(l.quantity) == PackKey(quantity) && l.base == base
  }

  predicate Finds(labels: seq<Label>, quantity: real, base: Base) {
    exists l :: l in labels && Carries(l, quantity, base)
  }

  /** The groups found in the offers, each with its members. */
  ghost predicate IsGrouping(offers: seq<Offer>, groups: map<Group, seq<real>>, names: seq<Group>) {
    && (forall g :: g in groups <==> g in names)
    && (forall g :: Members(offers, g) == if g in groups then groups[g] else [])
    && (forall g | g in groups :: groups[g] != [])
  }

  ghost predicate NamedBefore(groups: map<Group, seq<real>>, names: seq<Group>, i: nat, l: Label)
    requires i <= |names| && forall g :: g in names ==> g in groups && groups[g] != []
  {
    exists k :: 0 <= k < i && l == LabelOf(groups[names[k]], names[k].1)
  }

  lemma NamedNext(groups: map<Group, seq<real>>, names: seq<Group>, i: nat)
    requires i < |names| && forall g :: g in names ==> g in groups && groups[g] != []
    ensures forall l ::
      NamedBefore(groups, names, i + 1, l) <==>
      NamedBefore(groups, names, i, l) || l == LabelOf(groups[names[i]], names[i].1)
  {
    hide LabelOf;
    forall l ensures NamedBefore(groups, names, i + 1, l)
        <==> NamedBefore(groups, names, i, l) || l == LabelOf(groups[names[i]], names[i].1) {
      if NamedBefore(groups, names, i + 1, l) {
        var k :| 0 <= k < i + 1 && l == LabelOf(groups[names[k]], names[k].1);
      }
    }
  }

  lemma NothingGrouped(offers: seq<Offer>)
    ensures IsGrouping(offers[..0], map[], [])
  {
    assert offers[..0] == [];
  }

  lemma BestOfOneMore(m: multiset<real>, s: seq<real>, x: real)
    requires s != []
    ensures BestOf(m, s + [x]) == if Better(m, x, BestOf(m, s)) then x else BestOf(m, s)
  {
    var best := BestOf(m, s);
    if Better(m, x, best) {
      BetterIsTransitive(m, [x], best);
      BestIsUnique(m, s + [x], x);
    } else {
      BestIsUnique(m, s + [x], best);
    }
  }

  /** What an offer adds to a group. */
  function Adds(o: Offer, g: Group): seq<real> {
    var pack := PackageToUom(o);
    if pack.Some? && GroupOf(pack.value) == g then [pack.value.quantity] else []
  }

  lemma {:induction false} MembersGrow(offers: seq<Offer>, i: nat)
    requires i < |offers|
    ensures forall g :: Members(offers[..i + 1], g) == Members(offers[..i], g) + Adds(offers[i], g)
  {
    hide PackageToUom, GroupOf;
    if i > 0 {
      MembersGrow(offers[1..], i - 1);
      assert offers[..i + 1][1..] == offers[1..][..i] && offers[..i][1..] == offers[1..][..i - 1];
    } else {
      assert offers[..1][1..] == [] && offers[..0] == [];
    }
  }

  lemma LabelsOfGroups(offers: seq<Offer>, groups: map<Group, seq<real>>, names: seq<Group>)
    requires IsGrouping(offers, groups, names)
    ensures forall l :: IsGroupLabel(offers, l) <==> NamedBefore(groups, names, |names|, l)
  {
    hide Members, LabelOf;
    forall l ensures IsGroupLabel(offers, l) <==> NamedBefore(groups, names, |names|, l) {
      if IsGroupLabel(offers, l) {
        var g: Group :| Members(offers, g) != [] && l == LabelOf(Members(offers, g), g.1);
        assert g in names;
        var k :| 0 <= k < |names| && names[k] == g;
      }
      if NamedBefore(groups, names, |names|, l) {
        var k :| 0 <= k < |names| && l == LabelOf(groups[names[k]], names[k].1);
        assert names[k] in groups && Members(offers, names[k]) == groups[names[k]];
      }
    }
  }

  lemma BestIsUnique(m: multiset<real>, s: seq<real>, best: real)
    requires s != [] && best in s && forall x | x in s :: !Better(m, x, best)
    ensures best == BestOf(m, s)
  {
    var other := BestOf(m, s);
    assert !Better(m, other, best) && !Better(m, best, other);
  }

  // ------------------------------------------------------------ every offer finds its pack

  /** The label printed for a group still reads as its key. */
  predicate LabelKeepsKey(members: seq<real>)
    requires members != []
  {
    var common := BestOf(multiset(members), members);
    Round2(common) != 0.0 && KeyOf(Round2(common)) == KeyOf(common)
  }

  lemma {:induction false} MembersHaveTheKey(offers: seq<Offer>, g: Group)
    ensures forall q | q in Members(offers, g) :: q != 0.0 && KeyOf(q) == g.0
    ensures forall o | o in offers && Adds(o, g) != [] :: PackageToUom(o).value.quantity in Members(offers, g)
    ensures (exists o :: o in offers && Adds(o, g) != []) <==> Members(offers, g) != []
  {
    hide KeyOf, Factor;
    if offers != [] {
      MembersHaveTheKey(offers[1..], g);
      assert offers == [offers[0]] + offers[1..];
      NeverZero(offers[0]);
    }
  }

  lemma NeverZero(o: Offer)
    ensures PackageToUom(o).Some? ==> PackageToUom(o).value.quantity != 0.0
  {
    hide KeyOf;
    if o.quantity != 0.0 && Factor(o.unit).Some? {
      assert Factor(o.unit).value.0 > 0.0;
      NonZeroProduct(o.quantity, Factor(o.unit).value.0);
    }
  }

  lemma NonZeroProduct(a: real, b: real)
    requires a != 0.0 && b > 0.0
    ensures a * b != 0.0
  {
  }

  /** Labels after syncing, as SyncPackVariants leaves them. */
  ghost predicate Synced(before: seq<Label>, offers: seq<Offer>, after: seq<Label>) {
    && before <= after && (forall l :: l in after <==> l in before || IsGroupLabel(offers, l))
    && ((forall l | l in after :: l in before) ==> after == before)
  }

  /**
   After a sync every offer whose group is printed with a label of the same
   key finds a variant, however many shops spell the size differently.
   */
  lemma OfferFindsItsPack(before: seq<Label>, offers: seq<Offer>, after: seq<Label>, o: Offer)
    requires Synced(before, offers, after) && o in offers && PackageToUom(o).Some?
    ensures var p := PackageToUom(o).value; var members := Members(offers, GroupOf(p));
      members != [] && (LabelKeepsKey(members) ==> Finds(after, p.quantity, p.base))
  {
    hide KeyOf, Factor, Round2;
    var p := PackageToUom(o).value;
    var g := GroupOf(p);
    assert Adds(o, g) != [];
    MembersHaveTheKey(offers, g);
    NeverZero(o);
    var members := Members(offers, g);
    if LabelKeepsKey(members) {
      var l := LabelOf(members, g.1);
      assert IsGroupLabel(offers, l);
      assert Carries(l, p.quantity, p.base);
    }
  }

  /** With every quantity published to at most two decimals each offer finds its pack. */
  lemma TwoDecimalOffersAllFind(before: seq<Label>, offers: seq<Offer>, after: seq<Label>, o: Offer)
    requires Synced(before, offers, after) && o in offers && PackageToUom(o).Some?
    requires forall x | x in offers && PackageToUom(x).Some? ::
      Round2(PackageToUom(x).value.quantity) == PackageToUom(x).value.quantity
    ensures Finds(after, PackageToUom(o).value.quantity, PackageToUom(o).value.base)
  {
    hide KeyOf, Factor, Round2;
    var g := GroupOf(PackageToUom(o).value);
    OfferFindsItsPack(before, offers, after, o);
    MembersHaveTheKey(offers, g);
    MembersArePublished(offers, g);
    var members := Members(offers, g);
    var common := BestOf(multiset(members), members);
    assert common in members;
  }

  lemma {:induction false} MembersArePublished(offers: seq<Offer>, g: Group)
    ensures forall q | q in Members(offers, g) :: exists x ::
      x in offers && PackageToUom(x).Some? && PackageToUom(x).value.quantity == q
  {
    hide KeyOf, Factor;
    if offers != [] {
      MembersArePublished(offers[1..], g);
      assert offers == [offers[0]] + offers[1..];
    }
  }

  /** The label of another group reads as a pack of the wanted key. */
  ghost predicate OtherGroupCarries(offers: seq<Offer>, g: Group, quantity: real, base: Base) {
    exists h: Group :: h != g && Members(offers, h) != [] && Carries(LabelOf(Members(offers, h), h.1), quantity, base)
  }

  /**
   After a sync an offer finds a variant exactly when its group's label keeps
   the key, a variant from before carries it, or another group's label reads as it.
   */
  lemma FindsExactly(before: seq<Label>, offers: seq<Offer>, after: seq<Label>, o: Offer)
    requires Synced(before, offers, after) && o in offers && PackageToUom(o).Some?
    ensures var p := PackageToUom(o).value; var members := Members(offers, GroupOf(p));
      members != [] && (Finds(after, p.quantity, p.base) <==>
        LabelKeepsKey(members) || Finds(before, p.quantity, p.base)
            || OtherGroupCarries(offers, GroupOf(p), p.quantity, p.base))
  {
    hide KeyOf, Factor, Round2, Members, BestOf;
    var p := PackageToUom(o).value;
    var g := GroupOf(p);
    OfferFindsItsPack(before, offers, after, o);
    MembersHaveTheKey(offers, g);
    NeverZero(o);
    var own := LabelOf(Members(offers, g), g.1);
    if Finds(after, p.quantity, p.base) {
      var l :| l in after && Carries(l, p.quantity, p.base);
      if l !in before {
        var h: Group :| Members(offers, h) != [] && l == LabelOf(Members(offers, h), h.1);
        if h == g {
          assert l == own && LabelKeepsKey(Members(offers, g));
        }
      }
    }
    if Finds(before, p.quantity, p.base) {
      var l :| l in before && Carries(l, p.quantity, p.base);
      assert l in after;
    }
    if OtherGroupCarries(offers, g, p.quantity, p.base) {
      var h: Group :| h != g && Members(offers, h) != []
          && Carries(LabelOf(Members(offers, h), h.1), p.quantity, p.base);
      assert IsGroupLabel(offers, LabelOf(Members(offers, h), h.1));
    }
  }

  /** On a product without earlier packs whose offers form one group, only its own label can carry the key. */
  lemma OneGroupFindsExactly(offers: seq<Offer>, after: seq<Label>, o: Offer)
    requires Synced([], offers, after) && o in offers && PackageToUom(o).Some?
    requires forall x | x in offers && PackageToUom(x).Some? ::
      GroupOf(PackageToUom(x).value) == GroupOf(PackageToUom(o).value)
    ensures var p := PackageToUom(o).value; var members := Members(offers, GroupOf(p));
      members != [] && (Finds(after, p.quantity, p.base) <==> LabelKeepsKey(members))
  {
    hide KeyOf, Factor, Carries, LabelKeepsKey, LabelOf;
    var p := PackageToUom(o).value;
    var g := GroupOf(p);
    FindsExactly([], offers, after, o);
    forall h: Group | Members(offers, h) != [] ensures h == g {
      MembersHaveTheKey(offers, h);
    }
  }

  /** Three offers of one size; the label is printed for the one published twice. */
  function Example(): seq<Offer> {
    [Offer(474.999, "ml"), Offer(474.999, "ml"), Offer(470.0, "ml")]
  }

  lemma ExampleGroup()
    ensures Members(Example(), (470, Milliliter)) == [474.999, 474.999, 470.0]
    ensures forall o | o in Example() :: PackageToUom(o).Some? && GroupOf(PackageToUom(o).value) == (470, Milliliter)
  {
    hide KeyOf, Factor;
    var offers, g: Group := Example(), (470, Milliliter);
    KeyAt(474.999, 47);
    KeyAt(470.0, 47);
    PublishedInMillilitres(474.999);
    PublishedInMillilitres(470.0);
    assert Adds(offers[0], g) == [474.999] && Adds(offers[1], g) == [474.999] && Adds(offers[2], g) == [470.0];
    ThreeMembers(offers, g);
  }

  lemma ExampleLabel()
    ensures var m := [474.999, 474.999, 470.0]; !LabelKeepsKey(m)
  {
    hide KeyOf, BestOf;
    var m := [474.999, 474.999, 470.0];
    assert multiset(m)[474.999] == 2 && multiset(m)[470.0] == 1;
    BestIsUnique(multiset(m), m, 474.999);
    assert Round2(474.999) == 475.0;
    KeyAt(474.999, 47);
    KeyAt(475.0, 48);
  }

  /** One offer printed with a different key than its own is enough for an exact one to find nothing. */
  lemma ExactOfferMayFindNothing()
    ensures Round2(470.0) == 470.0 && Offer(470.0, "ml") in Example()
    ensures forall after | Synced([], Example(), after) :: !Finds(after, 470.0, Milliliter)
  {
    hide KeyOf, Factor, Members, LabelKeepsKey, GroupOf;
    ExampleGroup();
    ExampleLabel();
    PublishedInMillilitres(470.0);
    forall after | Synced([], Example(), after) ensures !Finds(after, 470.0, Milliliter) {
      OneGroupFindsExactly(Example(), after, Example()[2]);
    }
  }

  lemma PublishedInMillilitres(q: real)
    requires q != 0.0
    ensures PackageToUom(Offer(q, "ml")) == Some(Pack(q, Milliliter))
  {
  }

  lemma ThreeMembers(offers: seq<Offer>, g: Group)
    requires |offers| == 3
    ensures Members(offers, g) == Adds(offers[0], g) + Adds(offers[1], g) + Adds(offers[2], g)
  {
    hide Adds;
    assert offers[1..][1..] == [offers[2]] && offers[1..][1..][1..] == [];
    assert Members(offers[1..][1..], g) == Adds(offers[2], g);
  }

  lemma KeyAt(q: real, k: int)
    requires 100.0 <= q < 1000.0 && RoundHalfEven(q / 10.0) == k
    ensures KeyOf(q) == 10 * k
  {
    assert Pow10(1) == 10;
    UnitUnique(q, 1);
  }

  /** The label of a group does not depend on the order of the offers. */
  lemma LabelIgnoresOrder(a: seq<real>, b: seq<real>, base: Base)
    requires a != [] && b != [] && multiset(a) == multiset(b)
    ensures LabelOf(a, base) == LabelOf(b, base)
  {
    hide BestOf, Better, Round2;
    var best := BestOf(multiset(b), b);
    assert forall x :: x in a <==> x in multiset(a);
    assert forall x :: x in b <==> x in multiset(b);
    BestIsUnique(multiset(a), a, best);
  }

  /** Syncing the same offers again changes nothing. */
  lemma SyncAgainAddsNothing(before: seq<Label>, offers: seq<Offer>, after: seq<Label>, again: seq<Label>)
    requires Synced(before, offers, after) && Synced(after, offers, again)
    ensures again == after
  {
  }
}
