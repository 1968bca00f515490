/** Rule evaluation: operators over fact values, quantifiers over metric instances, AND/OR over
    conditions. */
module Threshold {
  import opened Wrappers
  import opened Sorting
  import opened FactCatalog
  import opened Profiles
  import opened MetricQuery

  datatype Breach = Breach(
    eqpId: string, proc: string, ruleId: string, fact: string, category: string, op: Op,
    currentValue: Option<real>, threshold: Operand, severity: Severity)

  /** An absent value never breaches. */
  predicate OpCompare(v: Option<real>, op: Op, threshold: Operand)
    requires op == TrendIs || threshold.Number?
  {
    v.Some? &&
    match op
    case Ge => v.value >= threshold.x
    case Gt => v.value > threshold.x
    case Le => v.value <= threshold.x
    case Lt => v.value < threshold.x
    case Eq => v.value == threshold.x
    case Ne => v.value != threshold.x
    case TrendIs => threshold == Number(v.value)
  }

  /** The operators by what they say of two numbers. */
  lemma OperatorsCompare(v: real, x: real)
    ensures OpCompare(Some(v), Ge, Number(x)) <==> v > x || v == x
    ensures OpCompare(Some(v), Gt, Number(x)) <==> v > x
    ensures OpCompare(Some(v), Le, Number(x)) <==> v < x || v == x
    ensures OpCompare(Some(v), Lt, Number(x)) <==> v < x
    ensures OpCompare(Some(v), Eq, Number(x)) <==> v == x
    ensures OpCompare(Some(v), Ne, Number(x)) <==> v < x || v > x
    ensures forall op: Op :: op != TrendIs ==> !OpCompare(None, op, Number(x))
    ensures forall text: string :: !OpCompare(Some(v), TrendIs, Text(text))
  {
  }

  function Present(values: seq<Option<real>>): seq<real> {
    if values == [] then []
    else if values[0].Some? then [values[0].value] + Present(values[1..])
    else Present(values[1..])
  }

  function Breaching(c: Condition): real -> bool
    requires ValidCondition(c)
  {
    (v: real) => OpCompare(Some(v), c.op, c.value)
  }

  /** The most extreme value in the operator's direction. */
  function Worst(vs: seq<real>, op: Op): real
    requires vs != []
  {
    if HighSide(op) then MaxOf(vs) else if LowSide(op) then MinOf(vs) else vs[0]
  }

  function EvaluateCondition(c: Condition, values: seq<Option<real>>): (r: (bool, Option<real>))
    requires ValidCondition(c)
  {
    var present := Present(values);
    var passing := Filter(Breaching(c), present);
    var passed :=
      match c.quantifier
      case Any => |passing| >= 1
      case All => present != [] && |passing| == |present|
      case Count => |passing| >= c.countMin.value;
    if !passed then (false, if present != [] then Some(present[0]) else None)
    else (true, if passing != [] then Some(Worst(passing, c.op)) else None)
  }

  // ---------------------------------------------------------------- one condition

  ghost predicate Breaches(c: Condition, v: real)
    requires ValidCondition(c)
  {
    OpCompare(Some(v), c.op, c.value)
  }

  /** Each instance with a value, and how many of them breach. */
  ghost function Passers(c: Condition, values: seq<Option<real>>): multiset<real>
    requires ValidCondition(c)
  {
    multiset(Filter(Breaching(c), Present(values)))
  }

  lemma {:induction false} FilterCounts<T>(keep: T -> bool, s: seq<T>)
    ensures |Filter(keep, s)| <= |s|
    ensures |Filter(keep, s)| == |s| <==> forall x :: x in s ==> keep(x)
    ensures |Filter(keep, s)| >= 1 <==> exists x :: x in s && keep(x)
  {
    if s != [] {
      FilterCounts(keep, s[1..]);
      assert s == [s[0]] + s[1..];
      assert forall x :: x in s <==> x == s[0] || x in s[1..];
    }
  }

  lemma {:induction false} FilterMultiplicity<T>(keep: T -> bool, s: seq<T>, x: T)
    ensures multiset(Filter(keep, s))[x] == if keep(x) then multiset(s)[x] else 0
  {
    if s != [] {
      FilterMultiplicity(keep, s[1..], x);
      assert s == [s[0]] + s[1..];
    }
  }

  lemma BreachingIs(c: Condition, v: real)
    requires ValidCondition(c)
    ensures Breaching(c)(v) == Breaches(c, v)
  {
  }

  lemma {:induction false} BreachingCounts(c: Condition, vs: seq<real>)
    requires ValidCondition(c)
    ensures var n := |Filter(Breaching(c), vs)|;
      && n <= |vs|
      && (n >= 1 <==> exists v :: v in vs && Breaches(c, v))
      && (n == |vs| <==> forall v :: v in vs ==> Breaches(c, v))
  {
    hide OpCompare, ValidCondition, Breaches, Breaching;
    if vs != [] {
      var first, rest := vs[0], vs[1..];
      BreachingCounts(c, rest);
      BreachingIs(c, first);
      assert vs == [first] + rest;
      assert forall v :: v in vs <==> v == first || v in rest;
      if v :| v in rest && Breaches(c, v) { assert v in vs; }
      assert first in vs;
    }
  }

  /** `any` passes when some instance breaches, `all` when there are instances and all breach, `count`
      when at least that many do. No instances, no pass. */
  lemma ConditionPassesIff(c: Condition, values: seq<Option<real>>)
    requires ValidCondition(c)
    ensures var present := Present(values); var passed := EvaluateCondition(c, values).0;
      && (c.quantifier == Any ==> (passed <==> exists v :: v in present && Breaches(c, v)))
      && (c.quantifier == All ==> (passed <==> present != [] && forall v :: v in present ==> Breaches(c, v)))
      && (c.quantifier == Count ==> (passed <==> |Passers(c, values)| >= c.countMin.value))
      && (present == [] ==> !passed)
    ensures forall v :: Passers(c, values)[v] == if Breaches(c, v) then multiset(Present(values))[v] else 0
  {
    hide Filter, Present, Breaches, Breaching;
    BreachingCounts(c, Present(values));
    forall v ensures Passers(c, values)[v] == if Breaches(c, v) then multiset(Present(values))[v] else 0 {
      FilterMultiplicity(Breaching(c), Present(values), v);
      BreachingIs(c, v);
    }
  }

  /** Instance `i` has a value, and it breaches. */
  ghost predicate BreachesAt(c: Condition, values: seq<Option<real>>, i: int)
    requires ValidCondition(c)
  {
    0 <= i < |values| && values[i].Some? && OpCompare(values[i], c.op, c.value)
  }

  /** What a condition asks of its instances: `any`, that one breaches; `all`, that there is one with a value
      and every one with a value breaches; `count`, that at least that many breach. */
  ghost predicate Satisfied(c: Condition, values: seq<Option<real>>)
    requires ValidCondition(c)
  {
    match c.quantifier
    case Any => exists i :: BreachesAt(c, values, i)
    case All =>
      && (exists i :: 0 <= i < |values| && values[i].Some?)
      && forall i :: 0 <= i < |values| && values[i].Some? ==> BreachesAt(c, values, i)
    case Count => |set i | 0 <= i < |values| && BreachesAt(c, values, i)| >= c.countMin.value
  }

  lemma {:induction false} PresentMembers(values: seq<Option<real>>)
    ensures forall v :: v in Present(values) <==> Some(v) in values
  {
    if values != [] {
      assert values == [values[0]] + values[1..];
      PresentMembers(values[1..]);
    }
  }

  lemma PresentCons(x: Option<real>, s: seq<Option<real>>)
    ensures Present([x] + s) == Present([x]) + Present(s)
  {
    assert ([x] + s)[1..] == s && [x][1..] == [];
  }

  lemma {:induction false} PresentConcat(a: seq<Option<real>>, b: seq<Option<real>>)
    ensures Present(a + b) == Present(a) + Present(b)
  {
    if a == [] {
      assert a + b == b;
    } else {
      hide Present;
      PresentConcat(a[1..], b);
      assert a == [a[0]] + a[1..] && a + b == [a[0]] + (a[1..] + b);
      PresentCons(a[0], a[1..]);
      PresentCons(a[0], a[1..] + b);
      Associates(Present([a[0]]), Present(a[1..]), Present(b));
    }
  }

  lemma PresentOne(v: Option<real>)
    ensures Present([v]) == if v.Some? then [v.value] else []
  {
  }

  lemma {:induction false} PassersAreCounted(c: Condition, values: seq<Option<real>>)
    requires ValidCondition(c)
    ensures |set i | 0 <= i < |values| && BreachesAt(c, values, i)| == |Filter(Breaching(c), Present(values))|
  {
    hide Filter, OpCompare, ValidCondition;
    if values == [] {
      assert (set i | 0 <= i < |values| && BreachesAt(c, values, i)) == {};
      FilterCounts(Breaching(c), []);
    } else {
      var n := |values| - 1;
      var front, v := values[..n], values[n];
      PassersAreCounted(c, front);
      assert values == front + [v];
      PresentConcat(front, [v]);
      PresentOne(v);
      OneMorePasser(c, front, v);
      if v.Some? {
        FilterConcat(Breaching(c), Present(front), [v.value]);
        FilterOne(Breaching(c), v.value);
        BreachingIs(c, v.value);
      } else {
        assert Present(front) + [] == Present(front);
      }
    }
  }

  lemma OneMorePasser(c: Condition, front: seq<Option<real>>, v: Option<real>)
    requires ValidCondition(c)
    ensures var values := front + [v];
      (set i | 0 <= i < |values| && BreachesAt(c, values, i)) ==
        (set i | 0 <= i < |front| && BreachesAt(c, front, i)) +
        (if v.Some? && Breaches(c, v.value) then {|front|} else {})
  {
    hide OpCompare, ValidCondition;
    var values := front + [v];
    forall i | 0 <= i < |values| ensures BreachesAt(c, values, i) <==>
      if i < |front| then BreachesAt(c, front, i) else v.Some? && Breaches(c, v.value)
    {
      assert i < |front| ==> values[i] == front[i];
    }
  }

  /** A condition passes exactly when its instances are as it asks. */
  lemma PassedIffSatisfied(c: Condition, values: seq<Option<real>>)
    requires ValidCondition(c)
    ensures EvaluateCondition(c, values).0 <==> Satisfied(c, values)
  {
    ConditionPassesIff(c, values);
    PassersAreCounted(c, values);
    hide Filter, OpCompare, Present, ValidCondition, EvaluateCondition;
    PresentAre(values);
    var present := Present(values);
    forall i | 0 <= i < |values| && values[i].Some?
      ensures BreachesAt(c, values, i) <==> Breaches(c, values[i].value) {}
    if v :| v in present && Breaches(c, v) {
      var i :| 0 <= i < |values| && values[i] == Some(v);
      assert BreachesAt(c, values, i);
    }
  }

  lemma PresentAre(values: seq<Option<real>>)
    ensures forall i :: 0 <= i < |values| && values[i].Some? ==> values[i].value in Present(values)
    ensures forall v :: v in Present(values) ==> exists i :: 0 <= i < |values| && values[i] == Some(v)
  {
    PresentMembers(values);
    hide Present;
    forall i | 0 <= i < |values| && values[i].Some? ensures values[i].value in Present(values) {
      var v := values[i].value;
      assert values[i] in values && values[i] == Some(v);
    }
  }

  /** Instance `i` is the first to breach, and its value is `v`. */
  ghost predicate FirstToBreach(c: Condition, values: seq<Option<real>>, i: int, v: real)
    requires ValidCondition(c)
  {
    BreachesAt(c, values, i) && values[i].value == v && forall j :: 0 <= j < i ==> !BreachesAt(c, values, j)
  }

  lemma {:induction false} FirstPasser(c: Condition, values: seq<Option<real>>)
    requires ValidCondition(c) && Filter(Breaching(c), Present(values)) != []
    ensures exists i :: FirstToBreach(c, values, i, Filter(Breaching(c), Present(values))[0])
  {
    hide OpCompare, ValidCondition;
    var v := Filter(Breaching(c), Present(values))[0];
    if values[0].Some? && Breaches(c, values[0].value) {
      BreachingIs(c, values[0].value);
      assert FirstToBreach(c, values, 0, v);
    } else {
      if values[0].Some? { BreachingIs(c, values[0].value); }
      FirstPasser(c, values[1..]);
      var i :| FirstToBreach(c, values[1..], i, v);
      forall j | 0 <= j < i + 1 ensures !BreachesAt(c, values, j) {
        assert j > 0 ==> !BreachesAt(c, values[1..], j - 1);
      }
      assert FirstToBreach(c, values, i + 1, v);
    }
  }

  /** `v` is what a passed condition reports: an instance's value that itself breaches and, where the
      operator has a side, the most extreme of all instances on that side, else the first that breaches. */
  ghost predicate Witnesses(c: Condition, values: seq<Option<real>>, v: real)
    requires ValidCondition(c)
  {
    && v in Present(values) && Breaches(c, v)
    && (c.op in {Ge, Gt} ==> forall w :: w in Present(values) ==> w <= v)
    && (c.op in {Le, Lt} ==> forall w :: w in Present(values) ==> v <= w)
    && (c.op in {Eq, Ne} ==> exists i :: FirstToBreach(c, values, i, v))
  }

  lemma PassedWitnessesItself(c: Condition, values: seq<Option<real>>)
    requires ValidCondition(c) && EvaluateCondition(c, values).0
    ensures EvaluateCondition(c, values).1.Some? && Witnesses(c, values, EvaluateCondition(c, values).1.value)
  {
    var present := Present(values);
    var passing := Filter(Breaching(c), present);
    var breaching := Breaching(c);
    FilterCounts(breaching, present);
    FilterMembers(breaching, present);
    assert passing != [];
    var v := Worst(passing, c.op);
    assert v in passing;
    FirstPasser(c, values);
    hide Present, Filter, MaxOf, MinOf, FirstToBreach;
    forall w | w in present && HighSide(c.op) ensures w <= v {
      assert w > v ==> breaching(w);
    }
    forall w | w in present && LowSide(c.op) ensures v <= w {
      assert w < v ==> breaching(w);
    }
  }

  // ---------------------------------------------------------------- one rule

  type Facts = map<string, seq<Option<real>>>

  function ValuesOf(facts: Facts, ref: string): seq<Option<real>> {
    if ref in facts then facts[ref] else []
  }

  predicate Passes(c: Condition, facts: Facts)
    requires ValidCondition(c)
  {
    EvaluateCondition(c, ValuesOf(facts, c.fact)).0
  }

  predicate PassesAt(rule: Rule, facts: Facts, k: nat)
    requires ValidRule(rule)
  {
    k < |rule.conditions| && Passes(rule.conditions[k], facts)
  }

  predicate Fires(rule: Rule, facts: Facts)
    requires ValidRule(rule)
  {
    if rule.combine == And then forall k: nat :: k < |rule.conditions| ==> PassesAt(rule, facts, k)
    else exists k: nat :: k < |rule.conditions| && PassesAt(rule, facts, k)
  }

  /** Position of the first condition that passes, or the length when none does. */
  function FirstPassing(rule: Rule, facts: Facts, k: nat): (n: nat)
    requires ValidRule(rule) && k <= |rule.conditions|
    ensures k <= n <= |rule.conditions|
    ensures forall j: nat :: k <= j < n ==> !PassesAt(rule, facts, j)
    ensures n < |rule.conditions| ==> PassesAt(rule, facts, n)
    decreases |rule.conditions| - k
  {
    if k == |rule.conditions| || PassesAt(rule, facts, k) then k else FirstPassing(rule, facts, k + 1)
  }

  function CategoryOf(categories: map<string, string>, measureId: string): string {
    if measureId in categories then categories[measureId] else ""
  }

  /** The breach reported for condition `c`. */
  function BreachBy(rule: Rule, c: Condition, facts: Facts, eqpId: string, proc: string,
                    categories: map<string, string>): Breach
    requires ValidCondition(c)
  {
    Breach(eqpId, proc, rule.id, c.fact, CategoryOf(categories, MeasureId(c.fact)), c.op,
           EvaluateCondition(c, ValuesOf(facts, c.fact)).1, c.value, rule.severity)
  }

  /** What evaluating `rule` reports: nothing, or a breach by the first condition that passes. */
  function Verdict(rule: Rule, facts: Facts, eqpId: string, proc: string,
                   categories: map<string, string>): Option<Breach>
    requires ValidRule(rule)
  {
    if !Fires(rule, facts) then None
    else
      var k := FirstPassing(rule, facts, 0);
      assert k < |rule.conditions| by { assert PassesAt(rule, facts, 0) || rule.combine == Or; }
      Some(BreachBy(rule, rule.conditions[k], facts, eqpId, proc, categories))
  }

  /** What a rule asks: with AND all of its conditions, with OR one of them. */
  ghost predicate RuleHolds(rule: Rule, facts: Facts)
    requires ValidRule(rule)
  {
    match rule.combine
    case And => forall c :: c in rule.conditions ==> Satisfied(c, if c.fact in facts then facts[c.fact] else [])
    case Or => exists c :: c in rule.conditions && Satisfied(c, if c.fact in facts then facts[c.fact] else [])
  }

  /** A rule reports a breach exactly when what it asks holds. */
  lemma BreachedIff(rule: Rule, facts: Facts, eqpId: string, proc: string, categories: map<string, string>)
    requires ValidRule(rule)
    ensures Verdict(rule, facts, eqpId, proc, categories).Some? <==> RuleHolds(rule, facts)
  {
    hide EvaluateCondition, Satisfied, ValidCondition;
    forall c | c in rule.conditions ensures Passes(c, facts) <==> Satisfied(c, ValuesOf(facts, c.fact)) {
      PassedIffSatisfied(c, ValuesOf(facts, c.fact));
    }
    forall k: nat | k < |rule.conditions| ensures rule.conditions[k] in rule.conditions {}
    if c :| c in rule.conditions && Passes(c, facts) {
      var k: nat :| k < |rule.conditions| && rule.conditions[k] == c;
      assert PassesAt(rule, facts, k);
    }
    if c :| c in rule.conditions && !Passes(c, facts) {
      var k: nat :| k < |rule.conditions| && rule.conditions[k] == c;
      assert !PassesAt(rule, facts, k);
    }
  }

  type Outcome = (Condition, bool, Option<real>)

  function OutcomeOf(c: Condition, facts: Facts): Outcome
    requires ValidCondition(c)
  {
    var r := EvaluateCondition(c, ValuesOf(facts, c.fact));
    (c, r.0, r.1)
  }

  method EvaluateConditions(rule: Rule, facts: Facts) returns (results: seq<Outcome>, all: bool, any: bool)
    requires ValidRule(rule)
    ensures |results| == |rule.conditions|
    ensures forall k: nat :: k < |results| ==> results[k] == OutcomeOf(rule.conditions[k], facts)
    ensures all <==> forall k: nat :: k < |results| ==> results[k].1
    ensures any <==> exists k: nat :: k < |results| && results[k].1
  {
    hide OutcomeOf, ValidCondition;
    results, all, any := [], true, false;
    for i := 0 to |rule.conditions|
      invariant |results| == i
      invariant forall k: nat :: k < i ==> results[k] == OutcomeOf(rule.conditions[k], facts)
      invariant all <==> forall k: nat :: k < i ==> results[k].1
      invariant any <==> exists k: nat :: k < i && results[k].1
    {
      var outcome := OutcomeOf(rule.conditions[i], facts);
      results := results + [outcome];
      all, any := all && outcome.1, any || outcome.1;
    }
  }

  method EvaluateRule(rule: Rule, facts: Facts, eqpId: string, proc: string, categories: map<string, string>)
    returns (breach: Option<Breach>)
    requires ValidRule(rule)
    ensures breach == Verdict(rule, facts, eqpId, proc, categories)
    ensures breach.Some? <==> RuleHolds(rule, facts)
  {
    BreachedIff(rule, facts, eqpId, proc, categories);
    hide MeasureId, EvaluateCondition, ValidCondition, RuleHolds;
    var results, all, any := EvaluateConditions(rule, facts);
    forall k: nat | k < |results| ensures results[k].1 == PassesAt(rule, facts, k) {}
    var breached := if rule.combine == And then all else any;
    assert breached == Fires(rule, facts);
    if !breached { return None; }
    var t := 0;
    while t < |results| && !results[t].1
      invariant t <= |results| && FirstPassing(rule, facts, 0) == FirstPassing(rule, facts, t)
    {
      t := t + 1;
    }
    // some condition passed, so the search never falls back on the first result
    var (cond, _, value) := results[t];
    breach := Some(Breach(eqpId, proc, rule.id, cond.fact, CategoryOf(categories, MeasureId(cond.fact)),
                          cond.op, value, cond.value, rule.severity));
  }

  /** A rule that fires reports a condition of its own with a value that really breaches it, the
      severity of the rule, and the conditions before it did not pass. */
  lemma BreachWitnessesItself(rule: Rule, facts: Facts, eqpId: string, proc: string, categories: map<string, string>)
    returns (k: nat)
    requires ValidRule(rule) && Verdict(rule, facts, eqpId, proc, categories).Some?
    ensures k < |rule.conditions| && PassesAt(rule, facts, k)
    ensures forall j: nat :: j < k ==> !PassesAt(rule, facts, j)
    ensures var b := Verdict(rule, facts, eqpId, proc, categories).value; var c := rule.conditions[k];
      && b.ruleId == rule.id && b.eqpId == eqpId && b.proc == proc && b.severity == rule.severity
      && b.fact == c.fact && b.op == c.op && b.threshold == c.value
      && b.currentValue.Some? && OpCompare(b.currentValue, b.op, b.threshold)
      && Witnesses(c, ValuesOf(facts, c.fact), b.currentValue.value)
  {
    hide EvaluateCondition, Present, MeasureId, Witnesses;
    k := FirstPassing(rule, facts, 0);
    var c := rule.conditions[k];
    PassedWitnessesItself(c, ValuesOf(facts, c.fact));
    assert Breaches(c, EvaluateCondition(c, ValuesOf(facts, c.fact)).1.value) by { WitnessBreaches(c, facts); }
  }

  lemma WitnessBreaches(c: Condition, facts: Facts)
    requires ValidCondition(c) && Passes(c, facts)
    ensures EvaluateCondition(c, ValuesOf(facts, c.fact)).1.Some?
    ensures Breaches(c, EvaluateCondition(c, ValuesOf(facts, c.fact)).1.value)
  {
    PassedWitnessesItself(c, ValuesOf(facts, c.fact));
  }
}
