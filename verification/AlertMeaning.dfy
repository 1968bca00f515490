/** From stored rows to alerts: which values a rule sees, and when it leaves an alert pending. */
module AlertMeaning {
  import opened Wrappers
  import opened Sorting
  import opened Dicts
  import opened FactCatalog
  import opened Profiles
  import opened Cascade
  import opened MetricQuery
  import opened MetricMeaning
  import opened Threshold
  import opened Analysis
  import opened Buckets

  // ---------------------------------------------------------------- the values behind a reference

  /** `ref` is `id.type` for measure `m` of `p` and its fact `f`. A measure whose id has a dot cannot be
      referred to. */
  ghost predicate Denotes(p: Profile, ref: string, m: Measure, f: Fact) {
    m in p.measures && f in m.facts && '.' !in m.id && ref == m.id + "." + Name(f.kind)
  }

  /** Fact `f` of `m` is computed in the query for `ids`, and the engine answers for the target. */
  ghost predicate Measured(ctx: Context, m: Measure, f: Fact, ids: seq<string>, at: Target) {
    var q := RequestFor(ctx, m, ids);
    IsImplemented(f.kind) && q.metrics != [] && Answered(ctx.es, q, Searched(q, ctx.rows), at.0, at.1)
  }

  /** What fact `f` of `m` says of the target's rows: one value per metric instance, or one over all. */
  ghost function FromRows(ctx: Context, m: Measure, f: Fact, ids: seq<string>, at: Target): seq<Option<real>> {
    var q := RequestFor(ctx, m, ids);
    DirectValues(ctx.es, q, f, Group(q, Searched(q, ctx.rows), at.0, at.1))
  }

  ghost predicate Reads(ctx: Context, p: Profile, ids: seq<string>, ref: string, at: Target, m: Measure, f: Fact) {
    Denotes(p, ref, m, f) && Measured(ctx, m, f, ids, at)
  }

  /** The values a rule reads under `ref` at a target; none when nothing is measured there. */
  ghost function ValuesAt(ctx: Context, p: Profile, ids: seq<string>, ref: string, at: Target): seq<Option<real>> {
    if m, f :| Reads(ctx, p, ids, ref, at, m, f) then FromRows(ctx, m, f, ids, at) else []
  }

  lemma DenotesOne(p: Profile, ref: string, m: Measure, f: Fact, n: Measure, g: Fact)
    requires ValidProfile(p) && Denotes(p, ref, m, f) && Denotes(p, ref, n, g)
    ensures m == n && f == g
  {
    hide ValidRule, MeasureId, FactName, Name;
    ReferenceSplits(m.id, Name(f.kind));
    ReferenceSplits(n.id, Name(g.kind));
    NamesDiffer(f.kind, g.kind);
    var i :| 0 <= i < |p.measures| && p.measures[i] == m;
    var j :| 0 <= j < |p.measures| && p.measures[j] == n;
    assert i == j;
    var k :| 0 <= k < |m.facts| && m.facts[k] == f;
    var l :| 0 <= l < |m.facts| && m.facts[l] == g;
    assert k == l;
  }

  /** A reference is read from the rows in one way only: the group of the asked-for rows of that machine and
      proc, split by metric where the measure says so. */
  lemma ValuesAreFromRows(ctx: Context, p: Profile, ids: seq<string>, at: Target, m: Measure, f: Fact)
    requires ValidProfile(p) && m in p.measures && f in m.facts && '.' !in m.id
    ensures var ref := m.id + "." + Name(f.kind);
      ValuesAt(ctx, p, ids, ref, at) == if Measured(ctx, m, f, ids, at) then FromRows(ctx, m, f, ids, at) else []
  {
    hide ValidProfile, Measured, Name, FromRows;
    var ref := m.id + "." + Name(f.kind);
    assert Denotes(p, ref, m, f);
    if Measured(ctx, m, f, ids, at) { assert Reads(ctx, p, ids, ref, at, m, f); }
    forall n, g | Reads(ctx, p, ids, ref, at, n, g) ensures n == m && g == f { DenotesOne(p, ref, m, f, n, g); }
  }

  /** `r` is a stored row that measure `m` is about at a target: of its machine and proc, of the measure's
      category and metrics, inside the window up to now, on the day the window begins or on the day it ends. */
  ghost predicate IsRowOf(ctx: Context, m: Measure, ids: seq<string>, at: Target, r: Row) {
    var start := ctx.now - m.window * 60_000_000;
    && r in ctx.rows && r.eqp == at.0 && (ids == [] || r.eqp in ids)
    && r.proc == (if m.proc == "*" then at.1 else m.proc) && r.category == m.category
    && (if m.expand
        then r.metric in ctx.names(IndexDays(ctx.now, m.window), m.category, m.proc) && ctx.matches(r.metric, m.metric)
        else r.metric == m.metric)
    && start <= r.at <= ctx.now
    && (r.at / 86_400_000_000 == start / 86_400_000_000 || r.at / 86_400_000_000 == ctx.now / 86_400_000_000)
  }

  /** The rows grouped for a target are those. */
  lemma GroupHolds(ctx: Context, m: Measure, ids: seq<string>, at: Target, r: Row)
    requires MetricsOf(ctx, m) != []
    ensures var q := RequestFor(ctx, m, ids);
      r in Group(q, Searched(q, ctx.rows), at.0, at.1) <==> IsRowOf(ctx, m, ids, at, r)
  {
    var q := RequestFor(ctx, m, ids);
    var rows := Searched(q, ctx.rows);
    FilterMembers(InDays(IndexDays(q.now, q.window)), ctx.rows);
    FilterMembers(AskedBy(q), rows);
    WithinMembers(EQP, at.0, Asked(q, rows));
    WithinMembers(PROC, at.1, Within(EQP, at.0, Asked(q, rows)));
    MetricsAre(ctx, m, r.metric);
    hide Filter, MetricsOf, IndexDays, Within, Implemented;
    DaysAre(q.now, q.window, r.at);
  }

  lemma MetricsAre(ctx: Context, m: Measure, name: string)
    ensures name in MetricsOf(ctx, m) <==>
      if m.expand
      then name in ctx.names(IndexDays(ctx.now, m.window), m.category, m.proc) && ctx.matches(name, m.metric)
      else name == m.metric
  {
    FilterMembers(MatchesPattern(ctx, m.metric), ctx.names(IndexDays(ctx.now, m.window), m.category, m.proc));
  }

  lemma DaysAre(now: int, window: int, at: int)
    ensures DayOf(at) in IndexDays(now, window) <==>
      at / 86_400_000_000 == (now - window * 60_000_000) / 86_400_000_000 || at / 86_400_000_000 == now / 86_400_000_000
  {
  }

  // ---------------------------------------------------------------- what is evaluated is what is measured

  /** The computed measure has the values of the rows. */
  lemma ComputedFromRows(ctx: Context, m: Measure, f: Fact, ids: seq<string>, at: Target)
    requires Sound(ctx.es) && ValidMeasure(m) && f in m.facts
    ensures CellOf(Computed(ctx, m, ids), at, Name(f.kind)) ==
      if Measured(ctx, m, f, ids, at) then FromRows(ctx, m, f, ids, at) else []
  {
    hide Sound, Run, Answered, Searched, DirectValues, Group, Name, MetricsOf, IsImplemented;
    var q := RequestFor(ctx, m, ids);
    var rows := Searched(q, ctx.rows);
    FilterMembers(IsImplementedFact, m.facts);
    ImplementedIsComputable(m);
    if q.facts != [] && q.metrics != [] {
      CompiledMeansDirect(ctx.es, q, rows, at.0, at.1);
      if IsImplemented(f.kind) {
        var i :| 0 <= i < |q.facts| && q.facts[i] == f;
      } else {
        NotAmongNames(q.facts, f);
      }
    }
  }

  lemma NotAmongNames(facts: seq<Fact>, f: Fact)
    requires Computable(facts) && !IsImplemented(f.kind)
    ensures Name(f.kind) !in FactNames(facts)
  {
    hide Name;
    if i :| 0 <= i < |facts| && Name(facts[i].kind) == Name(f.kind) { NamesDiffer(facts[i].kind, f.kind); }
  }

  lemma ComputedNames(ctx: Context, m: Measure, ids: seq<string>, at: Target, name: string) returns (f: Fact)
    requires Sound(ctx.es) && ValidMeasure(m) && CellOf(Computed(ctx, m, ids), at, name) != []
    ensures f in m.facts && name == Name(f.kind)
  {
    hide Sound, Run, Answered, Searched, DirectValues, Group, Name, MetricsOf;
    var q := RequestFor(ctx, m, ids);
    ImplementedIsComputable(m);
    CompiledMeansDirect(ctx.es, q, Searched(q, ctx.rows), at.0, at.1);
    var i :| 0 <= i < |q.facts| && Name(q.facts[i].kind) == name;
    FilterMembers(IsImplementedFact, m.facts);
    f := q.facts[i];
    assert f in q.facts;
  }

  lemma NameNotEmpty(t: FactType)
    ensures Name(t) != ""
  {
  }

  lemma CellHasSource(ctx: Context, p: Profile, ids: seq<string>, ref: string, at: Target)
    returns (m: Measure, f: Fact)
    requires Sound(ctx.es) && ValidProfile(p) && Cell(ctx, p, ids, ref, at) != []
    ensures Denotes(p, ref, m, f)
  {
    hide Sound, Computed, MeasureById, MeasureId, FactName, Name, ValidMeasure, ValidRule;
    MeasureByIdIs(p, MeasureId(ref));
    m := MeasureById(p, MeasureId(ref)).value;
    f := ComputedNames(ctx, m, ids, at, FactName(ref));
    NameNotEmpty(f.kind);
    ReferenceJoins(ref);
  }

  /** The cell a rule is given is what the rows say under its reference, or nothing. */
  lemma CellIsFromRows(ctx: Context, p: Profile, ids: seq<string>, ref: string, at: Target)
    requires Sound(ctx.es) && ValidProfile(p)
    ensures Cell(ctx, p, ids, ref, at) == ValuesAt(ctx, p, ids, ref, at)
  {
    hide Sound, Computed, MeasureById, MeasureId, FactName, Name, Measured, FromRows, ValidMeasure, ValidRule;
    MeasureByIdIs(p, MeasureId(ref));
    if m, f :| Denotes(p, ref, m, f) {
      ReferenceSplits(m.id, Name(f.kind));
      ComputedFromRows(ctx, m, f, ids, at);
      ValuesAreFromRows(ctx, p, ids, at, m, f);
    } else if Cell(ctx, p, ids, ref, at) != [] {
      var m, f := CellHasSource(ctx, p, ids, ref, at);
    }
  }

  // ---------------------------------------------------------------- when an alert is left pending

  /** What the rule asks holds of the values measured at the target. */
  ghost predicate RuleMet(ctx: Context, p: Profile, ids: seq<string>, rule: Rule, at: Target)
    requires ValidRule(rule)
  {
    match rule.combine
    case And => forall c :: c in rule.conditions ==> Satisfied(c, ValuesAt(ctx, p, ids, c.fact, at))
    case Or => exists c :: c in rule.conditions && Satisfied(c, ValuesAt(ctx, p, ids, c.fact, at))
  }

  /** The rule's channel exists, and what the rule asks holds. */
  ghost predicate Alerts(ctx: Context, p: Profile, ids: seq<string>, rule: Rule, at: Target)
    requires ValidRule(rule)
  {
    HasKey(p.notify, rule.notify) && RuleMet(ctx, p, ids, rule, at)
  }

  lemma HoldsIsMet(ctx: Context, p: Profile, ids: seq<string>, rule: Rule, at: Target)
    requires Sound(ctx.es) && ValidProfile(p) && ValidRule(rule)
    ensures RuleHolds(rule, FactsAt(ctx, p, ids, rule, at)) <==> RuleMet(ctx, p, ids, rule, at)
  {
    hide Sound, Cell, ValuesAt, ValidProfile, ValidCondition, Satisfied;
    var facts := FactsAt(ctx, p, ids, rule, at);
    forall c | c in rule.conditions ensures c.fact in facts && facts[c.fact] == ValuesAt(ctx, p, ids, c.fact, at) {
      CellIsFromRows(ctx, p, ids, c.fact, at);
    }
  }

  lemma SatisfiedHasValues(c: Condition, values: seq<Option<real>>)
    requires ValidCondition(c)
    ensures Satisfied(c, values) ==> values != []
  {
    if values == [] { assert (set i | 0 <= i < |values| && BreachesAt(c, values, i)) == {}; }
  }

  lemma MetIsTarget(ctx: Context, p: Profile, ids: seq<string>, rule: Rule, at: Target)
    requires Sound(ctx.es) && ValidProfile(p) && ValidRule(rule) && RuleMet(ctx, p, ids, rule, at)
    ensures at in Targets(ctx, p, ids, rule)
  {
    hide Sound, ValuesAt, ValidProfile, ValidCondition, Satisfied, ResultOf, MeasureId, FactName;
    assert rule.conditions[0] in rule.conditions;
    var c :| c in rule.conditions && Satisfied(c, ValuesAt(ctx, p, ids, c.fact, at));
    SatisfiedHasValues(c, ValuesAt(ctx, p, ids, c.fact, at));
    CellIsFromRows(ctx, p, ids, c.fact, at);
    assert c.fact in Refs(rule);
  }

  /** An alert is left pending at a target exactly when the channel is there and what the rule asks holds of
      the rows. */
  lemma PendingIff(ctx: Context, p: Profile, ids: seq<string>, rule: Rule, at: Target)
    requires Sound(ctx.es) && ValidProfile(p) && ValidRule(rule)
    ensures at in Targets(ctx, p, ids, rule) && PendingAt(ctx, p, ids, rule, at).Some?
       <==> Alerts(ctx, p, ids, rule, at)
  {
    hide Sound, ValidProfile, ValidRule, RuleMet, RuleHolds, FactsAt, Targets, Verdict, MeasureById, MeasureId,
         Categories, Get;
    BreachedIff(rule, FactsAt(ctx, p, ids, rule, at), at.0, at.1, Categories(p));
    HoldsIsMet(ctx, p, ids, rule, at);
    GetIff(p.notify, rule.notify);
    if RuleMet(ctx, p, ids, rule, at) { MetIsTarget(ctx, p, ids, rule, at); }
  }

  /** With one `any` condition that is: exactly when some instance's value breaches. */
  lemma AnyInstanceAlerts(ctx: Context, p: Profile, ids: seq<string>, rule: Rule, m: Measure, f: Fact, at: Target)
    requires Sound(ctx.es) && ValidProfile(p) && ValidRule(rule) && HasKey(p.notify, rule.notify)
    requires |rule.conditions| == 1 && rule.conditions[0].quantifier == Any
    requires Denotes(p, rule.conditions[0].fact, m, f) && Measured(ctx, m, f, ids, at)
    ensures at in Targets(ctx, p, ids, rule) && PendingAt(ctx, p, ids, rule, at).Some? <==>
      exists v :: Some(v) in FromRows(ctx, m, f, ids, at) && Breaches(rule.conditions[0], v)
  {
    hide Sound, ValidProfile, ValidCondition, Targets, PendingAt, FromRows, Measured, OpCompare, ValuesAt, Name;
    PendingIff(ctx, p, ids, rule, at);
    ValuesAreFromRows(ctx, p, ids, at, m, f);
    var c, values := rule.conditions[0], FromRows(ctx, m, f, ids, at);
    assert forall d :: d in rule.conditions <==> d == c;
    if i :| BreachesAt(c, values, i) { SomeValueBreaches(c, values, i); }
    if v :| Some(v) in values && Breaches(c, v) {
      var i :| 0 <= i < |values| && values[i] == Some(v);
      assert BreachesAt(c, values, i);
    }
  }

  lemma SomeValueBreaches(c: Condition, values: seq<Option<real>>, i: int)
    requires ValidCondition(c) && BreachesAt(c, values, i)
    ensures exists v :: Some(v) in values && Breaches(c, v)
  {
    hide OpCompare, ValidCondition;
    var v := values[i].value;
    assert values[i] == Some(v) && values[i] in values;
  }

  /** `x` reports condition `c` of `rule`, the first that holds, at the target: with one of the measured values
      that breach it, the rule's severity and channel, and the category and window of the measure. */
  ghost predicate Reports(ctx: Context, p: Profile, ids: seq<string>, rule: Rule, at: Target, x: Pending, k: nat)
    requires ValidRule(rule)
  {
    && k < |rule.conditions|
    && var c := rule.conditions[k];
       && x.breach.eqpId == at.0 && x.breach.proc == at.1 && x.breach.ruleId == rule.id
       && x.breach.fact == c.fact && x.breach.op == c.op && x.breach.threshold == c.value
       && x.breach.severity == rule.severity && x.notifyName == rule.notify && (rule.notify, x.channel) in p.notify
       && Satisfied(c, ValuesAt(ctx, p, ids, c.fact, at))
       && (forall j :: 0 <= j < k ==>
             !Satisfied(rule.conditions[j], ValuesAt(ctx, p, ids, rule.conditions[j].fact, at)))
       && x.breach.currentValue.Some?
       && Witnesses(c, ValuesAt(ctx, p, ids, c.fact, at), x.breach.currentValue.value)
       && exists m, f :: Denotes(p, c.fact, m, f) && x.breach.category == m.category && x.window == m.window
  }

  lemma PassesIsSatisfied(ctx: Context, p: Profile, ids: seq<string>, rule: Rule, at: Target, k: nat)
    requires Sound(ctx.es) && ValidProfile(p) && ValidRule(rule) && k < |rule.conditions|
    ensures var c := rule.conditions[k]; var facts := FactsAt(ctx, p, ids, rule, at);
      && ValuesOf(facts, c.fact) == ValuesAt(ctx, p, ids, c.fact, at)
      && (PassesAt(rule, facts, k) <==> Satisfied(c, ValuesAt(ctx, p, ids, c.fact, at)))
  {
    hide Sound, Cell, ValuesAt, ValidProfile, ValidCondition, Satisfied, EvaluateCondition;
    var c := rule.conditions[k];
    CellIsFromRows(ctx, p, ids, c.fact, at);
    PassedIffSatisfied(c, ValuesAt(ctx, p, ids, c.fact, at));
    assert c.fact in Refs(rule);
  }

  /** Whatever is left pending is such a report. */
  lemma PendingReports(ctx: Context, p: Profile, ids: seq<string>, rule: Rule, at: Target) returns (k: nat)
    requires Sound(ctx.es) && ValidProfile(p) && ValidRule(rule) && PendingAt(ctx, p, ids, rule, at).Some?
    ensures Reports(ctx, p, ids, rule, at, PendingAt(ctx, p, ids, rule, at).value, k)
  {
    hide Sound, ValidProfile, ValidCondition, RuleHolds, FactsAt, MeasureById, Cell,
         Get, Satisfied, ValuesAt, Witnesses, PassesAt, EvaluateCondition;
    var x := PendingAt(ctx, p, ids, rule, at).value;
    var facts := FactsAt(ctx, p, ids, rule, at);
    k := BreachWitnessesItself(rule, facts, at.0, at.1, Categories(p));
    forall j: nat | j <= k { PassesIsSatisfied(ctx, p, ids, rule, at, j); }
    GetIff(p.notify, rule.notify);
    var m, f := SourceOfCell(ctx, p, ids, rule.conditions[k], at);
  }

  lemma SourceOfCell(ctx: Context, p: Profile, ids: seq<string>, c: Condition, at: Target)
    returns (m: Measure, f: Fact)
    requires Sound(ctx.es) && ValidProfile(p) && ValidCondition(c)
    requires Satisfied(c, ValuesAt(ctx, p, ids, c.fact, at))
    ensures Denotes(p, c.fact, m, f) && MeasureById(p, MeasureId(c.fact)) == Some(m)
    ensures CategoryOf(Categories(p), MeasureId(c.fact)) == m.category
  {
    hide Sound, FromRows, Measured, ValidMeasure, ValidRule, ValidCondition, Satisfied, MeasureById, MeasureId, Name;
    SatisfiedHasValues(c, ValuesAt(ctx, p, ids, c.fact, at));
    m, f :| Reads(ctx, p, ids, c.fact, at, m, f);
    ReferenceSplits(m.id, Name(f.kind));
    MeasureByIdIs(p, m.id);
    var i :| 0 <= i < |p.measures| && p.measures[i] == m;
    assert p.measures[i].id == m.id;
  }

  // ---------------------------------------------------------------- what the reference check asks

  /** Condition `c` of a rule compares a fact of a measure with an operator the fact allows, and the measure's
      window is no shorter than the rule's interval. */
  ghost predicate IsServed(p: Profile, rule: Rule, c: Condition, m: Measure, f: Fact) {
    Denotes(p, c.fact, m, f) && OpAllowed(f.kind, c.op) && rule.interval <= m.window
  }

  /** A rule has its channel, each condition the fact it names, and all its measures are about one proc. */
  ghost predicate IsSound(p: Profile, rule: Rule) {
    && HasKey(p.notify, rule.notify)
    && (forall c :: c in rule.conditions ==> exists m, f :: IsServed(p, rule, c, m, f))
    && forall c, d, m, n, f, g ::
         c in rule.conditions && d in rule.conditions && Denotes(p, c.fact, m, f) && Denotes(p, d.fact, n, g) ==>
           m.proc == n.proc
  }

  /** A condition refers to a measure and its fact exactly when its text denotes them. */
  lemma DenotesIff(p: Profile, c: Condition, m: Measure, f: Fact)
    requires ValidProfile(p)
    ensures Denotes(p, c.fact, m, f) <==>
      RefersTo(p, c, m) && f in m.facts && FactByName(m, FactName(c.fact)) == Some(f.kind)
  {
    hide ValidRule, MeasureById, MeasureId, FactName, Name, FactByName, ValidMeasure;
    MeasureByIdIs(p, MeasureId(c.fact));
    if Denotes(p, c.fact, m, f) {
      ReferenceSplits(m.id, Name(f.kind));
      FactByNameIs(m, f);
    }
    if RefersTo(p, c, m) && f in m.facts && FactByName(m, FactName(c.fact)) == Some(f.kind) {
      NamedFact(m, FactName(c.fact), f.kind);
      NameNotEmpty(f.kind);
      ReferenceJoins(c.fact);
    }
  }

  lemma FactByNameIs(m: Measure, f: Fact)
    requires ValidMeasure(m) && f in m.facts
    ensures FactByName(m, Name(f.kind)) == Some(f.kind)
  {
    hide Name, Last;
    var items := FactKinds(m);
    LastIff(items, Name(f.kind));
    var i :| 0 <= i < |m.facts| && m.facts[i] == f;
    assert items[i].0 == Name(f.kind);
    var k :| 0 <= k < |items| && items[k] == (Name(f.kind), Last(items, Name(f.kind)).value);
    NamesDiffer(m.facts[k].kind, f.kind);
  }

  lemma NamedFact(m: Measure, name: string, t: FactType)
    requires FactByName(m, name) == Some(t)
    ensures name == Name(t) && exists f :: f in m.facts && f.kind == t
  {
    hide Name, Last;
    var items := FactKinds(m);
    LastIff(items, name);
    var k :| 0 <= k < |items| && items[k] == (name, t);
    assert m.facts[k] in m.facts;
  }

  lemma SoundConditions(p: Profile, e: Problem)
    requires ValidProfile(p) && e.rule < |p.rules| && IsSound(p, p.rules[e.rule])
    requires e.MissingMeasure? || e.MissingFact? || e.OpNotAllowed?
    ensures !Faulty(p, e)
  {
    hide ValidProfile, Denotes, MeasureById, MeasureId, FactName, FactByName, OpAllowed, RefersTo, IsSound;
    var rule := p.rules[e.rule];
    if e.cond < |rule.conditions| {
      assert rule.conditions[e.cond] in rule.conditions;
      var m, f := ServedBy(p, rule, rule.conditions[e.cond]);
    }
  }

  lemma SoundRule(p: Profile, e: Problem)
    requires ValidProfile(p) && e.rule < |p.rules| && IsSound(p, p.rules[e.rule])
    requires e.MissingChannel? || e.IntervalExceedsWindow? || e.MixedProcs?
    ensures !Faulty(p, e)
  {
    hide ValidProfile, Denotes, MeasureById, MeasureId, FactName, FactByName, OpAllowed, RefersTo;
    var rule := p.rules[e.rule];
    forall c, n | c in rule.conditions && RefersTo(p, c, n)
      ensures rule.interval <= n.window && exists f :: Denotes(p, c.fact, n, f)
    {
      var m, f := ServedBy(p, rule, c);
    }
  }

  lemma SoundHasNoFault(p: Profile, e: Problem)
    requires ValidProfile(p) && forall r :: r in p.rules ==> IsSound(p, r)
    ensures !Faulty(p, e)
  {
    hide ValidProfile, IsSound;
    if e.rule < |p.rules| {
      assert p.rules[e.rule] in p.rules;
      hide Faulty;
      if e.MissingMeasure? || e.MissingFact? || e.OpNotAllowed? { SoundConditions(p, e); } else { SoundRule(p, e); }
    }
  }

  lemma ServedBy(p: Profile, rule: Rule, c: Condition) returns (m: Measure, f: Fact)
    requires ValidProfile(p) && IsSound(p, rule) && c in rule.conditions
    ensures Denotes(p, c.fact, m, f) && OpAllowed(f.kind, c.op) && rule.interval <= m.window
    ensures MeasureById(p, MeasureId(c.fact)) == Some(m) && RefersTo(p, c, m)
    ensures FactByName(m, FactName(c.fact)) == Some(f.kind)
    ensures forall n :: RefersTo(p, c, n) ==> n == m
  {
    hide ValidProfile, Denotes, MeasureById, MeasureId, FactName, FactByName, OpAllowed;
    m, f :| IsServed(p, rule, c, m, f);
    DenotesIff(p, c, m, f);
  }

  lemma FaultlessIsSound(p: Profile, ri: nat)
    requires ValidProfile(p) && WellReferenced(p) && ri < |p.rules|
    ensures IsSound(p, p.rules[ri])
  {
    hide ValidProfile, Denotes, MeasureById, MeasureId, FactName, FactByName, OpAllowed;
    var rule := p.rules[ri];
    assert !Faulty(p, MissingChannel(ri));
    forall c | c in rule.conditions ensures exists m, f :: IsServed(p, rule, c, m, f) {
      var ci :| 0 <= ci < |rule.conditions| && rule.conditions[ci] == c;
      var m, f := FaultlessIsServed(p, ri, ci);
    }
    forall c, d, m, n, f, g
      | c in rule.conditions && d in rule.conditions && Denotes(p, c.fact, m, f) && Denotes(p, d.fact, n, g)
      ensures m.proc == n.proc
    {
      DenotesIff(p, c, m, f);
      DenotesIff(p, d, n, g);
      assert !Faulty(p, MixedProcs(ri));
    }
  }

  lemma FaultlessIsServed(p: Profile, ri: nat, ci: nat) returns (m: Measure, f: Fact)
    requires ValidProfile(p) && WellReferenced(p) && ri < |p.rules| && ci < |p.rules[ri].conditions|
    ensures IsServed(p, p.rules[ri], p.rules[ri].conditions[ci], m, f)
  {
    hide ValidProfile, Denotes, MeasureById, MeasureId, FactName, FactByName, OpAllowed;
    var rule := p.rules[ri];
    var c := rule.conditions[ci];
    assert !Faulty(p, MissingMeasure(ri, ci));
    m := MeasureById(p, MeasureId(c.fact)).value;
    assert RefersTo(p, c, m);
    assert !Faulty(p, MissingFact(ri, ci));
    var t := FactByName(m, FactName(c.fact)).value;
    assert !Faulty(p, OpNotAllowed(ri, ci));
    assert !Faulty(p, IntervalExceedsWindow(ri, MeasureId(c.fact)));
    NamedFact(m, FactName(c.fact), t);
    f :| f in m.facts && f.kind == t;
    DenotesIff(p, c, m, f);
  }

  /** A valid profile passes the reference check exactly when each of its rules has its channel, each condition
      a fact to compare that allows the operator, windows long enough, and one proc. */
  lemma WellReferencedIff(p: Profile)
    requires ValidProfile(p)
    ensures WellReferenced(p) <==> forall r :: r in p.rules ==> IsSound(p, r)
  {
    hide ValidProfile, IsSound, Faulty;
    if WellReferenced(p) {
      forall r | r in p.rules ensures IsSound(p, r) {
        var ri: nat :| ri < |p.rules| && p.rules[ri] == r;
        FaultlessIsSound(p, ri);
      }
    }
    if forall r :: r in p.rules ==> IsSound(p, r) {
      forall e { SoundHasNoFault(p, e); }
    }
  }
}
