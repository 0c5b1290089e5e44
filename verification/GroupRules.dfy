/** Implied access groups, and the check that company-owned models are covered by company rules. */
module GroupRules {
  import opened Paths

  type Implications = map<string, set<string>>

  function Implied(implications: Implications, group: string): set<string> {
    if group in implications then implications[group] else {}
  }

  function Implies(implications: Implications): (string, string) -> bool {
    (a, b) => b in Implied(implications, a)
  }

  function Everything(implications: Implications, group: string): set<string> {
    {group} + set a, b | a in implications && b in implications[a] :: b
  }

  lemma ImpliedIsKnown(implications: Implications, group: string, current: string)
    ensures Implied(implications, current) <= Everything(implications, group)
  {
  }

  /** The groups a member of `group` belongs to: exactly those reachable by implications. */
  method ImpliedGroupClosure(group: string, implications: Implications) returns (result: set<string>)
    ensures forall g :: g in result <==> Reaches(Implies(implications), group, g)
  {
    hide Reaches, Everything;
    ghost var edge, all := Implies(implications), Everything(implications, group);
    result := {group};
    var pending := [group];
    ReachesItself(edge, group);
    assert group in all by { GroupIsKnown(implications, group); }
    while pending != []
      invariant group in result && result <= all
      invariant forall g | g in result :: Reaches(edge, group, g)
      invariant forall g | g in pending :: g in result
      invariant forall g, h | g in result && g !in pending && h in Implied(implications, g) :: h in result
      decreases |all - result|, |pending|
    {
      var current := pending[|pending| - 1];
      assert forall g | g in pending :: g in pending[..|pending| - 1] || g == current;
      pending := pending[..|pending| - 1];
      ghost var before, popped := result, pending;
      var unseen := Implied(implications, current) - result;
      ghost var added := unseen;
      ImpliedIsKnown(implications, group, current);
      result, pending := AddAll(unseen, result, pending);
      forall g | g in added ensures Reaches(edge, group, g) {
        ReachesOneFurther(edge, group, current, g);
      }
      forall g, h | g in result && g !in pending && h in Implied(implications, g) ensures h in result {
        assert g == current || (g in before && g !in popped);
      }
      if added != {} {
        assert before < result;
        FewerOutside(all, before, result);
      } else {
        assert result == before;
      }
    }
    forall g | Reaches(edge, group, g) ensures g in result {
      ClosedSetHasReachable(edge, result, group, g);
    }
  }

  /** The inner loop: newly found groups join the result and the stack. */
  method AddAll(found: set<string>, result: set<string>, pending: seq<string>) returns (result': set<string>,
                pending': seq<string>)
    ensures result' == result + found
    ensures forall g :: g in pending' <==> g in pending || g in found
    ensures found == {} ==> pending' == pending
  {
    result', pending' := result, pending;
    var left := found;
    while left != {}
      invariant left <= found
      invariant forall g :: g in result' <==> g in result || (g in found && g !in left)
      invariant forall g :: g in pending' <==> g in pending || (g in found && g !in left)
      invariant left == found ==> pending' == pending
      decreases |left|
    {
      var implied :| implied in left;
      result' := result' + {implied};
      pending' := pending' + [implied];
      left := left - {implied};
    }
  }

  lemma GroupIsKnown(implications: Implications, group: string)
    ensures group in Everything(implications, group)
  {
  }

  // ------------------------------------------------------------ company rules

  datatype Permission = Read | Write | Create | Unlink

  /** One line of the access list; an empty group name stands for all users. */
  datatype Access = Access(model: string, group: string, granted: set<Permission>)

  /** A record rule; without groups it is global. */
  datatype Rule = Rule(model: string, groups: set<string>, applies: set<Permission>, hasCompanyBoundary: bool)

  datatype Finding = Finding(model: string, group: string, missing: set<Permission>)

  /** A permission of a group on a model is bounded by a global rule or by a rule of a group it belongs to. */
  ghost predicate Covered(rules: seq<Rule>, implications: Implications, model: string, group: string, p: Permission) {
    exists r | r in rules :: r.model == model && r.hasCompanyBoundary && p in r.applies
      && (r.groups == {} || exists h | h in r.groups :: Reaches(Implies(implications), group, h))
  }

  /** A permission the access list grants on a model of the addon itself. */
  predicate Granted(rows: seq<Access>, localModels: set<string>, model: string, group: string, p: Permission) {
    model in localModels && exists a | a in rows :: a.model == model && a.group == group && p in a.granted
  }

  type Grants = map<(string, string), set<Permission>>

  function Entry(m: Grants, k: (string, string)): set<Permission> {
    if k in m then m[k] else {}
  }

  function At(m: map<string, set<Permission>>, k: string): set<Permission> {
    if k in m then m[k] else {}
  }

  lemma EntryExtended(m: Grants, k: (string, string), more: set<Permission>)
    ensures forall x :: Entry(m[k := Entry(m, k) + more], x) == if x == k then Entry(m, k) + more else Entry(m, x)
  {
  }

  lemma AtExtended(m: map<string, set<Permission>>, k: string, more: set<Permission>)
    ensures forall x :: At(m[k := At(m, k) + more], x) == if x == k then At(m, k) + more else At(m, x)
  {
  }

  ghost predicate GrantsMatch(grants: Grants, rows: seq<Access>, localModels: set<string>) {
    forall model, group, p :: p in Entry(grants, (model, group)) <==> Granted(rows, localModels, model, group, p)
  }

  lemma GrantsStep(grants: Grants, rows: seq<Access>, row: Access, localModels: set<string>)
    requires GrantsMatch(grants, rows, localModels)
    ensures GrantsMatch(if row.model in localModels && row.granted != {}
                        then grants[(row.model, row.group) := Entry(grants, (row.model, row.group)) + row.granted]
                            else grants,
                        rows + [row], localModels)
  {
    forall model, group, p
      ensures Granted(rows + [row], localModels, model, group, p)
        <==> (Granted(rows, localModels, model, group, p)
              || (model in localModels && row.model == model && row.group == group && p in row.granted))
    {
      assert forall a :: a in rows + [row] <==> a in rows || a == row;
    }
    EntryExtended(grants, (row.model, row.group), row.granted);
  }

  method CollectGrants(rows: seq<Access>, localModels: set<string>) returns (grants: Grants)
    ensures GrantsMatch(grants, rows, localModels)
    ensures forall k | k in grants :: k.0 in localModels && grants[k] != {}
  {
    grants := map[];
    for i := 0 to |rows|
      invariant GrantsMatch(grants, rows[..i], localModels)
      invariant forall k | k in grants :: k.0 in localModels && grants[k] != {}
    {
      var row := rows[i];
      assert rows[..i + 1] == rows[..i] + [row];
      GrantsStep(grants, rows[..i], row, localModels);
      if row.model in localModels && row.granted != {} {
        grants := grants[(row.model, row.group) := Entry(grants, (row.model, row.group)) + row.granted];
      }
    }
    assert rows[..|rows|] == rows;
  }

  predicate ByGroup(rules: seq<Rule>, models: set<string>, model: string, group: string, p: Permission) {
    model in models && exists r | r in rules ::
        r.model == model && r.hasCompanyBoundary && p in r.applies && group in r.groups
  }

  predicate Globally(rules: seq<Rule>, models: set<string>, model: string, p: Permission) {
    model in models && exists r | r in rules ::
        r.model == model && r.hasCompanyBoundary && p in r.applies && r.groups == {}
  }

  ghost predicate RulesMatch(byGroup: Grants, globally: map<string, set<Permission>>, rules: seq<Rule>,
                             models: set<string>) {
    && (forall model, group, p :: p in Entry(byGroup, (model, group)) <==> ByGroup(rules, models, model, group, p))
    && (forall model, p :: p in At(globally, model) <==> Globally(rules, models, model, p))
  }

  lemma RulesStep(rules: seq<Rule>, rule: Rule, models: set<string>)
    ensures forall model, group, p ::
      (ByGroup(rules + [rule], models, model, group, p)
       <==> (ByGroup(rules, models, model, group, p)
             || (model in models && rule.model == model && rule.hasCompanyBoundary && p in rule.applies
                && group in rule.groups)))
    ensures forall model, p ::
      (Globally(rules + [rule], models, model, p)
       <==> (Globally(rules, models, model, p)
             || (model in models && rule.model == model && rule.hasCompanyBoundary && p in rule.applies
                && rule.groups == {})))
  {
    assert forall r :: r in rules + [rule] <==> r in rules || r == rule;
  }

  /** Adds the rule's permissions to each of its groups. */
  method AddToGroups(byGroup: Grants, rule: Rule) returns (r: Grants)
    ensures forall model, group ::
      Entry(r, (model, group)) == if model == rule.model && group in rule.groups
                                  then Entry(byGroup, (model, group)) + rule.applies else Entry(byGroup, (model, group))
  {
    r := byGroup;
    var groups := rule.groups;
    while groups != {}
      invariant groups <= rule.groups
      invariant forall model, group ::
        Entry(r, (model, group)) == if model == rule.model && group in rule.groups && group !in groups
                                    then Entry(byGroup, (model, group)) + rule.applies
                                        else Entry(byGroup, (model, group))
      decreases |groups|
    {
      var group :| group in groups;
      EntryExtended(r, (rule.model, group), rule.applies);
      r := r[(rule.model, group) := Entry(r, (rule.model, group)) + rule.applies];
      groups := groups - {group};
    }
  }

  method CollectRules(rules: seq<Rule>, models: set<string>)
    returns (byGroup: Grants, globally: map<string, set<Permission>>)
    ensures RulesMatch(byGroup, globally, rules, models)
  {
    byGroup, globally := map[], map[];
    for i := 0 to |rules|
      invariant RulesMatch(byGroup, globally, rules[..i], models)
    {
      var rule := rules[i];
      assert rules[..i + 1] == rules[..i] + [rule];
      RulesStep(rules[..i], rule, models);
      if rule.model in models && rule.hasCompanyBoundary {
        if rule.groups == {} {
          AtExtended(globally, rule.model, rule.applies);
          globally := globally[rule.model := At(globally, rule.model) + rule.applies];
        } else {
          byGroup := AddToGroups(byGroup, rule);
        }
      }
    }
    assert rules[..|rules|] == rules;
  }

  ghost predicate ExactlyUncovered(f: Finding, localModels: set<string>, rows: seq<Access>, rules: seq<Rule>,
                                   implications: Implications)
  {
    forall p :: p in f.missing <==>
      (Granted(rows, localModels, f.model, f.group, p) && !Covered(rules, implications, f.model, f.group, p))
  }

  /** Some permission of the group on the model is granted and not covered. */
  ghost predicate Uncovered(model: string, group: string, localModels: set<string>, rows: seq<Access>, rules: seq<Rule>,
                            implications: Implications)
  {
    exists p :: Granted(rows, localModels, model, group, p) && !Covered(rules, implications, model, group, p)
  }

  predicate Reported(findings: seq<Finding>, model: string, group: string) {
    exists f | f in findings :: f.model == model && f.group == group
  }

  /**
   Silent exactly when every granted permission is covered; otherwise each
   finding lists exactly what is not, and no model and group goes unreported.
   */
  method CheckCompanyRules(localModels: set<string>, rows: seq<Access>, rules: seq<Rule>, implications: Implications)
    returns (findings: seq<Finding>)
    ensures findings == [] <==> forall model, group, p | Granted(rows, localModels, model, group, p) ::
      Covered(rules, implications, model, group, p)
    ensures forall f | f in findings :: f.missing != {} && ExactlyUncovered(f, localModels, rows, rules, implications)
    ensures forall model, group ::
      Reported(findings, model, group) <==> Uncovered(model, group, localModels, rows, rules, implications)
  {
    hide Covered, Granted, ExactlyUncovered, Judged, RulesMatch, GrantsMatch, IsMissing;
    findings := [];
    if localModels == {} {
      NothingGranted(localModels, rows, rules, implications);
      return;
    }
    var grants := CollectGrants(rows, localModels);
    var models := set k | k in grants :: k.0;
    var byGroup, globally := CollectRules(rules, models);
    var left := grants.Keys;
    while left != {}
      invariant left <= grants.Keys
      invariant forall f | f in findings ::
        f.missing != {} && ExactlyUncovered(f, localModels, rows, rules, implications)
      invariant forall k | k in grants.Keys - left :: Judged(findings, grants, k, rules, implications)
      decreases |left|
    {
      var key :| key in left;
      var applicable := ImpliedGroupClosure(key.1, implications);
      var missing := MissingFor(key, grants[key], applicable, byGroup, globally);
      MissingIsUncovered(rules, implications, models, key, grants[key], applicable, byGroup, globally, missing);
      ghost var before := findings;
      if missing != {} {
        findings := findings + [Finding(key.0, key.1, missing)];
      }
      JudgedNext(before, findings, key, missing, grants, localModels, rows, rules, implications);
      left := left - {key};
    }
    AllReported(findings, grants, localModels, rows, rules, implications);
  }

  /** A model and group is reported unless all its granted permissions are covered. */
  ghost predicate Judged(findings: seq<Finding>, grants: Grants, k: (string, string), rules: seq<Rule>,
                         implications: Implications)
    requires k in grants
  {
    Reported(findings, k.0, k.1) || forall p | p in grants[k] :: Covered(rules, implications, k.0, k.1, p)
  }

  lemma JudgedNext(before: seq<Finding>, after: seq<Finding>, key: (string, string), missing: set<Permission>,
                   grants: Grants,
                   localModels: set<string>, rows: seq<Access>, rules: seq<Rule>, implications: Implications)
    requires key in grants && GrantsMatch(grants, rows, localModels)
    requires after == if missing != {} then before + [Finding(key.0, key.1, missing)] else before
    requires forall p :: p in missing <==> p in grants[key] && !Covered(rules, implications, key.0, key.1, p)
    ensures Judged(after, grants, key, rules, implications)
    ensures forall k | k in grants && Judged(before, grants, k, rules, implications) ::
      Judged(after, grants, k, rules, implications)
    ensures forall f | f in after && f !in before ::
      f.missing != {} && ExactlyUncovered(f, localModels, rows, rules, implications)
  {
    hide Covered, Granted;
    assert forall p :: p in Entry(grants, (key.0, key.1)) <==> Granted(rows, localModels, key.0, key.1, p);
    if missing != {} {
      ReportedMore(before, Finding(key.0, key.1, missing));
    }
  }

  lemma NothingGranted(localModels: set<string>, rows: seq<Access>, rules: seq<Rule>, implications: Implications)
    requires localModels == {}
    ensures forall model, group, p :: !Granted(rows, localModels, model, group, p)
    ensures forall model, group :: !Uncovered(model, group, localModels, rows, rules, implications)
  {
  }

  lemma ReportedMore(findings: seq<Finding>, f: Finding)
    ensures forall model, group ::
      Reported(findings + [f], model, group) <==>
        Reported(findings, model, group) || (f.model == model && f.group == group)
  {
    assert forall x :: x in findings + [f] <==> x in findings || x == f;
  }

  lemma AllReported(findings: seq<Finding>, grants: Grants, localModels: set<string>, rows: seq<Access>,
                    rules: seq<Rule>,
                    implications: Implications)
    requires GrantsMatch(grants, rows, localModels)
    requires forall f | f in findings :: f.missing != {} && ExactlyUncovered(f, localModels, rows, rules, implications)
    requires forall k | k in grants :: Judged(findings, grants, k, rules, implications)
    ensures forall model, group ::
      Reported(findings, model, group) <==> Uncovered(model, group, localModels, rows, rules, implications)
    ensures findings == [] <==> forall model, group, p | Granted(rows, localModels, model, group, p) ::
      Covered(rules, implications, model, group, p)
  {
    hide Covered, Granted;
    forall model, group
      ensures Reported(findings, model, group) <==> Uncovered(model, group, localModels, rows, rules, implications)
    {
      if Reported(findings, model, group) {
        var f :| f in findings && f.model == model && f.group == group;
        var p :| p in f.missing;
      }
      if Uncovered(model, group, localModels, rows, rules, implications) {
        var p :| Granted(rows, localModels, model, group, p) && !Covered(rules, implications, model, group, p);
        assert p in Entry(grants, (model, group));
      }
    }
    if findings != [] {
      var f := findings[0];
      assert f in findings && Reported(findings, f.model, f.group);
    } else {
      forall model, group ensures !Uncovered(model, group, localModels, rows, rules, implications) {
        assert !Reported(findings, model, group);
      }
    }
  }

  ghost predicate IsMissing(p: Permission, key: (string, string), granted: set<Permission>, applicable: set<string>,
                            byGroup: Grants, globally: map<string, set<Permission>>)
  {
    && p in granted
    && !(p in At(globally, key.0))
    && forall g | g in applicable :: p !in Entry(byGroup, (key.0, g))
  }

  /** What the group's own and implied rules and the global rules leave uncovered. */
  method MissingFor(key: (string, string), granted: set<Permission>, applicable: set<string>,
                    byGroup: Grants, globally: map<string, set<Permission>>) returns (missing: set<Permission>)
    ensures forall p :: p in missing <==> IsMissing(p, key, granted, applicable, byGroup, globally)
  {
    hide Entry, At;
    var covered := At(globally, key.0);
    var groups := applicable;
    while groups != {}
      invariant groups <= applicable
      invariant forall p :: p in covered <==>
        (p in At(globally, key.0))
        || exists g | g in applicable - groups :: p in Entry(byGroup, (key.0, g))
      decreases |groups|
    {
      var g :| g in groups;
      assert applicable - (groups - {g}) == (applicable - groups) + {g};
      covered := covered + Entry(byGroup, (key.0, g));
      groups := groups - {g};
    }
    missing := granted - covered;
  }

  lemma MissingIsUncovered(rules: seq<Rule>, implications: Implications, models: set<string>, key: (string, string),
                           granted: set<Permission>, applicable: set<string>, byGroup: Grants,
                           globally: map<string, set<Permission>>, missing: set<Permission>)
    requires key.0 in models
    requires forall g :: g in applicable <==> Reaches(Implies(implications), key.1, g)
    requires RulesMatch(byGroup, globally, rules, models)
    requires forall p :: p in missing <==> IsMissing(p, key, granted, applicable, byGroup, globally)
    ensures forall p :: p in missing <==> p in granted && !Covered(rules, implications, key.0, key.1, p)
  {
    forall p | p in granted ensures p in missing <==> !Covered(rules, implications, key.0, key.1, p) {
      if Covered(rules, implications, key.0, key.1, p) {
        var r :| r in rules && r.model == key.0 && r.hasCompanyBoundary && p in r.applies
                 && (r.groups == {} || exists h | h in r.groups :: Reaches(Implies(implications), key.1, h));
        if r.groups == {} {
          assert Globally(rules, models, key.0, p);
        } else {
          var h :| h in r.groups && Reaches(Implies(implications), key.1, h);
          assert ByGroup(rules, models, key.0, h, p) && h in applicable;
          assert p in Entry(byGroup, (key.0, h));
        }
      }
      if p !in missing && !Globally(rules, models, key.0, p) {
        var g :| g in applicable && p in Entry(byGroup, (key.0, g));
        assert ByGroup(rules, models, key.0, g, p);
      }
    }
  }
}
