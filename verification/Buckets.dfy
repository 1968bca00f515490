/** From fact values to pending alerts, machine bucket by machine bucket. */
module Buckets {
  import opened Wrappers
  import opened Sorting
  import opened Dicts
  import opened Profiles
  import opened Cascade
  import opened MetricQuery
  import opened Threshold
  import opened Analysis

  /** A fired breach with what is needed to cool it down and send it. */
  datatype Pending = Pending(breach: Breach, notifyName: string, channel: Channel, window: int)

  type Target = (string, string)

  // ---------------------------------------------------------------- one rule on one machine and proc

  /** The values of the measure called `id`; nothing when the profile has no such measure. */
  function ResultOf(ctx: Context, p: Profile, ids: seq<string>, id: string): Parsed {
    var m := MeasureById(p, id);
    if m.Some? then Computed(ctx, m.value, ids) else map[]
  }

  function CellOf(parsed: Parsed, at: Target, name: string): seq<Option<real>> {
    if at in parsed && name in parsed[at] then parsed[at][name] else []
  }

  function Cell(ctx: Context, p: Profile, ids: seq<string>, ref: string, at: Target): seq<Option<real>> {
    CellOf(ResultOf(ctx, p, ids, MeasureId(ref)), at, FactName(ref))
  }

  function Refs(rule: Rule): set<string> {
    set i | 0 <= i < |rule.conditions| :: rule.conditions[i].fact
  }

  function FactsAt(ctx: Context, p: Profile, ids: seq<string>, rule: Rule, at: Target): Threshold.Facts {
    map ref | ref in Refs(rule) :: Cell(ctx, p, ids, ref, at)
  }

  function Targets(ctx: Context, p: Profile, ids: seq<string>, rule: Rule): set<Target> {
    set ref, at | ref in Refs(rule) && at in ResultOf(ctx, p, ids, MeasureId(ref)) :: at
  }

  function CategoryById(p: Profile, id: string): string {
    var m := MeasureById(p, id);
    if m.Some? then m.value.category else ""
  }

  function Categories(p: Profile): map<string, string> {
    map i | 0 <= i < |p.measures| :: p.measures[i].id := CategoryById(p, p.measures[i].id)
  }

  function VerdictAt(ctx: Context, p: Profile, ids: seq<string>, rule: Rule, at: Target): Option<Breach>
    requires ValidRule(rule)
  {
    Verdict(rule, FactsAt(ctx, p, ids, rule, at), at.0, at.1, Categories(p))
  }

  /** The measure whose window the alert quotes is always there, even in a profile full of dangling
      references: what fires has seen a value, and only a measure gives values. */
  lemma TriggerMeasureExists(ctx: Context, p: Profile, ids: seq<string>, rule: Rule, at: Target)
    requires ValidRule(rule)
    ensures var verdict := VerdictAt(ctx, p, ids, rule, at);
      verdict.Some? ==> MeasureById(p, MeasureId(verdict.value.fact)).Some?
  {
    hide ValidRule, ValidCondition, MeasureById, MeasureId, FactName, Verdict, Categories, Computed;
    if VerdictAt(ctx, p, ids, rule, at).Some? {
      var facts := FactsAt(ctx, p, ids, rule, at);
      var k := BreachWitnessesItself(rule, facts, at.0, at.1, Categories(p));
      var c := rule.conditions[k];
      assert Present(ValuesOf(facts, c.fact)) != [];
      assert c.fact in Refs(rule) && ValuesOf(facts, c.fact) != [];
    }
  }

  /** What rule `rule` leaves pending at `at`. A rule whose channel is missing leaves nothing. */
  function PendingAt(ctx: Context, p: Profile, ids: seq<string>, rule: Rule, at: Target): Option<Pending>
    requires ValidRule(rule)
  {
    var verdict := VerdictAt(ctx, p, ids, rule, at);
    if verdict.None? then None
    else
      var channel := Get(p.notify, rule.notify);
      if channel.None? then None
      else
        TriggerMeasureExists(ctx, p, ids, rule, at);
        var measure := MeasureById(p, MeasureId(verdict.value.fact)).value;
        Some(Pending(verdict.value, rule.notify, channel.value, measure.window))
  }

  lemma PendingNamesItsSource(ctx: Context, p: Profile, ids: seq<string>, rule: Rule, at: Target)
    requires ValidRule(rule)
    ensures var x := PendingAt(ctx, p, ids, rule, at);
      x.Some? ==> x.value.breach.ruleId == rule.id && (x.value.breach.eqpId, x.value.breach.proc) == at
  {
    hide ValidRule, MeasureById, MeasureId, Categories, FactsAt;
    if PendingAt(ctx, p, ids, rule, at).Some? {
      var k := BreachWitnessesItself(rule, FactsAt(ctx, p, ids, rule, at), at.0, at.1, Categories(p));
    }
  }

  /** `x` is what one of `rules` leaves pending for the machines `ids`. */
  ghost predicate IsPending(ctx: Context, p: Profile, ids: seq<string>, rules: seq<Rule>, x: Pending)
    requires forall r :: r in rules ==> ValidRule(r)
  {
    exists r, at :: PendingFrom(ctx, p, ids, rules, x, r, at)
  }

  ghost predicate PendingFrom(ctx: Context, p: Profile, ids: seq<string>, rules: seq<Rule>, x: Pending, r: Rule,
                              at: Target)
    requires forall r :: r in rules ==> ValidRule(r)
  {
    r in rules && at in Targets(ctx, p, ids, r) && PendingAt(ctx, p, ids, r, at) == Some(x)
  }

  // ---------------------------------------------------------------- evaluating a bucket

  type Results = map<string, Parsed>

  function ResultIn(results: Results, id: string): Parsed {
    if id in results then results[id] else map[]
  }

  /** `results` has the values of every measure that `rule` refers to. */
  ghost predicate Knows(ctx: Context, p: Profile, ids: seq<string>, results: Results, rule: Rule) {
    forall ref :: ref in Refs(rule) ==> ResultIn(results, MeasureId(ref)) == ResultOf(ctx, p, ids, MeasureId(ref))
  }

  method ComputeReferenced(ctx: Context, p: Profile, rules: seq<Rule>, ids: seq<string>) returns (results: Results)
    ensures forall r :: r in rules ==> Knows(ctx, p, ids, results, r)
  {
    hide MeasureId, MeasureById, Computed;
    var referenced := set i, ref | 0 <= i < |rules| && ref in Refs(rules[i]) :: MeasureId(ref);
    results := map[];
    var rest := referenced;
    while rest != {}
      invariant rest <= referenced
      invariant forall id :: id in results ==> id in referenced - rest
      invariant forall id :: id in referenced - rest ==> ResultIn(results, id) == ResultOf(ctx, p, ids, id)
    {
      var id :| id in rest;
      rest := rest - {id};
      var measure := MeasureById(p, id);
      if measure.Some? {
        var parsed := ComputeMeasure(ctx, measure.value, ids);
        results := results[id := parsed];
      }
    }
    forall r | r in rules ensures Knows(ctx, p, ids, results, r) {
      forall ref | ref in Refs(r) ensures MeasureId(ref) in referenced {
        var i :| 0 <= i < |rules| && rules[i] == r;
      }
    }
  }

  /** `pending` lists, once each, what `rule` leaves pending at the targets `done`. */
  ghost predicate PendingOver(ctx: Context, p: Profile, ids: seq<string>, rule: Rule, done: set<Target>,
                              pending: seq<Pending>)
    requires ValidRule(rule)
  {
    NoDups(pending) &&
    forall x :: x in pending <==> exists at :: at in done && PendingAt(ctx, p, ids, rule, at) == Some(x)
  }

  method EvaluateRuleOverTargets(ctx: Context, p: Profile, ids: seq<string>, results: Results, rule: Rule)
    returns (pending: seq<Pending>)
    requires ValidRule(rule) && Knows(ctx, p, ids, results, rule)
    ensures PendingOver(ctx, p, ids, rule, Targets(ctx, p, ids, rule), pending)
  {
    hide MeasureId, FactName, MeasureById, Verdict, PendingAt, ResultOf, ValidRule;
    pending := [];
    var targets := set ref, at | ref in Refs(rule) && at in ResultIn(results, MeasureId(ref)) :: at;
    assert targets == Targets(ctx, p, ids, rule);
    var rest := targets;
    while rest != {}
      invariant rest <= targets
      invariant PendingOver(ctx, p, ids, rule, targets - rest, pending)
    {
      var at :| at in rest;
      var one := EvaluateRuleAt(ctx, p, ids, results, rule, at);
      PendingOneMore(ctx, p, ids, rule, targets - rest, pending, at);
      assert targets - (rest - {at}) == (targets - rest) + {at};
      rest := rest - {at};
      if one.Some? {
        pending := pending + [one.value];
      }
    }
    assert targets - rest == targets;
  }

  lemma PendingOneMore(ctx: Context, p: Profile, ids: seq<string>, rule: Rule, done: set<Target>,
                       pending: seq<Pending>, at: Target)
    requires ValidRule(rule) && PendingOver(ctx, p, ids, rule, done, pending) && at !in done
    ensures var one := PendingAt(ctx, p, ids, rule, at);
      PendingOver(ctx, p, ids, rule, done + {at}, if one.Some? then pending + [one.value] else pending)
  {
    hide PendingAt, ValidRule;
    var one := PendingAt(ctx, p, ids, rule, at);
    if one.Some? && one.value in pending {
      var other :| other in done && PendingAt(ctx, p, ids, rule, other) == one;
      PendingNamesItsSource(ctx, p, ids, rule, at);
      PendingNamesItsSource(ctx, p, ids, rule, other);
    }
  }

  method EvaluateRuleAt(ctx: Context, p: Profile, ghost ids: seq<string>, results: Results, rule: Rule, at: Target)
    returns (pending: Option<Pending>)
    requires ValidRule(rule) && Knows(ctx, p, ids, results, rule)
    ensures pending == PendingAt(ctx, p, ids, rule, at)
  {
    hide MeasureId, FactName, MeasureById, Verdict, ResultOf, ValidRule;
    var facts := map ref | ref in Refs(rule) :: CellOf(ResultIn(results, MeasureId(ref)), at, FactName(ref));
    assert facts == FactsAt(ctx, p, ids, rule, at);
    var breach := EvaluateRule(rule, facts, at.0, at.1, Categories(p));
    if breach.None? { return None; }
    var channel := Get(p.notify, rule.notify);
    if channel.None? { return None; }
    TriggerMeasureExists(ctx, p, ids, rule, at);
    var measure := MeasureById(p, MeasureId(breach.value.fact)).value;
    pending := Some(Pending(breach.value, rule.notify, channel.value, measure.window));
  }

  /** `_evaluate_bucket`: exactly what the rules leave pending, each once. */
  method EvaluateBucket(ctx: Context, p: Profile, rules: seq<Rule>, ids: seq<string>) returns (pending: seq<Pending>)
    requires forall r :: r in rules ==> ValidRule(r)
    requires forall i, j :: 0 <= i < j < |rules| ==> rules[i].id != rules[j].id
    ensures NoDups(pending) && forall x :: x in pending <==> IsPending(ctx, p, ids, rules, x)
  {
    hide PendingAt, ValidRule, Targets, Knows;
    var results := ComputeReferenced(ctx, p, rules, ids);
    pending := [];
    for i := 0 to |rules|
      invariant NoDups(pending) && forall x :: x in pending <==> IsPending(ctx, p, ids, rules[..i], x)
    {
      assert rules[i] in rules;
      var more := EvaluateRuleOverTargets(ctx, p, ids, results, rules[i]);
      PendingOneRuleMore(ctx, p, ids, rules, i, pending, more);
      pending := pending + more;
    }
    assert rules[..|rules|] == rules;
  }

  lemma PendingOneRuleMore(ctx: Context, p: Profile, ids: seq<string>, rules: seq<Rule>, i: nat,
                           before: seq<Pending>, more: seq<Pending>)
    requires forall r :: r in rules ==> ValidRule(r)
    requires forall i, j :: 0 <= i < j < |rules| ==> rules[i].id != rules[j].id
    requires i < |rules| && PendingOver(ctx, p, ids, rules[i], Targets(ctx, p, ids, rules[i]), more)
    requires NoDups(before) && forall x :: x in before <==> IsPending(ctx, p, ids, rules[..i], x)
    ensures NoDups(before + more) && forall x :: x in before + more <==> IsPending(ctx, p, ids, rules[..i + 1], x)
  {
    hide PendingAt, ValidRule, Targets;
    assert rules[..i + 1] == rules[..i] + [rules[i]];
    forall x ensures x in before + more <==> IsPending(ctx, p, ids, rules[..i + 1], x) {
      if x in before {
        var r, at :| PendingFrom(ctx, p, ids, rules[..i], x, r, at);
        assert PendingFrom(ctx, p, ids, rules[..i + 1], x, r, at);
      }
      if x in more {
        var at :| at in Targets(ctx, p, ids, rules[i]) && PendingAt(ctx, p, ids, rules[i], at) == Some(x);
        assert PendingFrom(ctx, p, ids, rules[..i + 1], x, rules[i], at);
      }
      if IsPending(ctx, p, ids, rules[..i + 1], x) {
        var r, at :| PendingFrom(ctx, p, ids, rules[..i + 1], x, r, at);
        assert r in rules[..i] ==> PendingFrom(ctx, p, ids, rules[..i], x, r, at);
        assert r == rules[i] ==> x in more;
      }
    }
    forall x | x in before ensures x !in more {
      var r, at :| PendingFrom(ctx, p, ids, rules[..i], x, r, at);
      PendingNamesItsSource(ctx, p, ids, r, at);
      if x in more {
        var bt :| bt in Targets(ctx, p, ids, rules[i]) && PendingAt(ctx, p, ids, rules[i], bt) == Some(x);
        PendingNamesItsSource(ctx, p, ids, rules[i], bt);
      }
    }
    NoDupsConcat(before, more);
  }
}
