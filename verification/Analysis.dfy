/** One analysis tick: machines with equal effective profiles share one set of queries. */
module Analysis {
  import opened Wrappers
  import opened Sorting
  import opened FactCatalog
  import opened Profiles
  import opened MetricQuery
  import opened MetricMeaning
  import opened Threshold

  /** One tick's view of the world: its clock, the process's stored rows, the search engine, the metric
      names the engine lists for some days, and the wildcard match. */
  datatype Context = Context(
    now: int, rows: seq<Row>, es: Engine,
    names: (seq<int>, string, string) -> seq<string>, matches: (string, string) -> bool)

  // ---------------------------------------------------------------- one measure

  function IsImplementedFact(f: Fact): bool {
    IsImplemented(f.kind)
  }

  function Implemented(m: Measure): seq<Fact> {
    Filter(IsImplementedFact, m.facts)
  }

  function MatchesPattern(ctx: Context, pattern: string): string -> bool {
    (name: string) => ctx.matches(name, pattern)
  }

  function MetricsOf(ctx: Context, m: Measure): seq<string> {
    if m.expand then Filter(MatchesPattern(ctx, m.metric), ctx.names(IndexDays(ctx.now, m.window), m.category, m.proc))
    else [m.metric]
  }

  function RequestFor(ctx: Context, m: Measure, eqpIds: seq<string>): Request {
    Request(ctx.now, m.window, m.category, MetricsOf(ctx, m), m.proc, Implemented(m), m.expand, eqpIds)
  }

  /** The values of measure `m` for the machines `eqpIds`. */
  function Computed(ctx: Context, m: Measure, eqpIds: seq<string>): Parsed {
    var q := RequestFor(ctx, m, eqpIds);
    if q.facts == [] || q.metrics == [] then map[] else Run(ctx.es, q, Searched(q, ctx.rows))
  }

  method ComputeMeasure(ctx: Context, m: Measure, eqpIds: seq<string>) returns (parsed: Parsed)
    ensures parsed == Computed(ctx, m, eqpIds)
  {
    hide Search, Parse, Compile;
    var facts := Implemented(m);
    if facts == [] { return map[]; }
    var days := IndexDays(ctx.now, m.window);
    var metrics := [m.metric];
    if m.expand {
      metrics := Filter(MatchesPattern(ctx, m.metric), ctx.names(days, m.category, m.proc));
      if metrics == [] { return map[]; }
    }
    var q := Request(ctx.now, m.window, m.category, metrics, m.proc, facts, m.expand, eqpIds);
    var query := BuildMetricAggregationQuery(q);
    var response := Search(ctx.es, query, Filter(InDays(days), ctx.rows));
    parsed := ParseMetricAggregation(response, facts, m.proc, m.expand);
  }

  lemma {:induction false} ImplementedIsComputable(m: Measure)
    requires ValidMeasure(m)
    ensures Computable(Implemented(m))
  {
    KindsStayDistinct(m.facts);
    FilterMembers(IsImplementedFact, m.facts);
    forall i | 0 <= i < |Implemented(m)| ensures IsImplemented(Implemented(m)[i].kind) {
      assert Implemented(m)[i] in Implemented(m);
    }
  }

  lemma {:induction false} KindsStayDistinct(facts: seq<Fact>)
    requires DistinctKinds(facts)
    ensures DistinctKinds(Filter(IsImplementedFact, facts))
  {
    if facts != [] {
      KindsStayDistinct(facts[1..]);
      var r, rest := Filter(IsImplementedFact, facts), Filter(IsImplementedFact, facts[1..]);
      FilterMembers(IsImplementedFact, facts[1..]);
      forall j | 0 <= j < |rest| ensures rest[j].kind != facts[0].kind {
        assert rest[j] in facts[1..];
      }
      assert r == rest || r == [facts[0]] + rest;
    }
  }

  // ---------------------------------------------------------------- a machine's values are its own

  /** A request for the machines `eqpIds`. */
  function Among(q: Request, eqpIds: seq<string>): Request {
    q.(eqpIds := eqpIds)
  }

  function OfMachine(q: Request, e: string): Row -> bool {
    (r: Row) => AskedBy(Among(q, []))(r) && r.eqp == e
  }

  lemma AskedAmong(q: Request, ids: seq<string>, r: Row)
    requires ids != []
    ensures AskedBy(Among(q, ids))(r) <==> AskedBy(Among(q, []))(r) && r.eqp in ids
  {
  }

  lemma MachineRows(q: Request, ids: seq<string>, e: string, rows: seq<Row>)
    requires e in ids
    ensures Within(EQP, e, Asked(Among(q, ids), rows)) == Filter(OfMachine(q, e), rows)
  {
    forall r ensures OfMachine(q, e)(r) == (Having(EQP, e)(r) && AskedBy(Among(q, ids))(r)) { AskedAmong(q, ids, r); }
    FilterOfFilter(Having(EQP, e), AskedBy(Among(q, ids)), OfMachine(q, e), rows);
  }

  /** The machines named by `ids`, each once. */
  ghost function Distinct(ids: seq<string>): set<string> {
    set x | x in ids
  }

  lemma SubsetIsNoLarger(a: set<string>, b: set<string>)
    requires a <= b
    ensures |a| <= |b|
  {
    assert b == a + (b - a);
  }

  /** The machines among `ids` that have rows the query asks for. */
  ghost function WithRows(q: Request, ids: seq<string>, rows: seq<Row>): set<string> {
    FieldValues(EQP, Asked(Among(q, ids), rows))
  }

  lemma WithRowsAre(q: Request, ids: seq<string>, rows: seq<Row>)
    requires ids != []
    ensures WithRows(q, ids, rows) <= Distinct(ids) && |WithRows(q, ids, rows)| <= |Distinct(ids)|
    ensures forall e :: e in WithRows(q, ids, rows) <==> e in ids && Filter(OfMachine(q, e), rows) != []
  {
    var h := Asked(Among(q, ids), rows);
    FilterMembers(AskedBy(Among(q, ids)), rows);
    forall r { AskedAmong(q, ids, r); }
    forall e ensures e in WithRows(q, ids, rows) <==> e in ids && Filter(OfMachine(q, e), rows) != [] {
      FilterMembers(OfMachine(q, e), rows);
      FilterCounts(OfMachine(q, e), rows);
      hide Filter, AskedBy;
      if e in ids && Filter(OfMachine(q, e), rows) != [] {
        var r := Filter(OfMachine(q, e), rows)[0];
        assert r in Filter(OfMachine(q, e), rows);
        assert r in h && FieldOf(EQP, r) == e;
      }
    }
    SubsetIsNoLarger(WithRows(q, ids, rows), Distinct(ids));
  }

  /** A query shared by `ids` leaves machine `e` out only when it has no rows for it. */
  ghost predicate Heard(es: Engine, q: Request, ids: seq<string>, e: string, rows: seq<Row>) {
    Filter(OfMachine(q, e), rows) != [] ==> e in Machines(es, Among(q, ids), rows)
  }

  lemma AnsweredHasRows(es: Engine, q: Request, ids: seq<string>, e: string, rows: seq<Row>)
    requires Sound(es) && e in Machines(es, Among(q, ids), rows) && ids != []
    ensures e in ids && Filter(OfMachine(q, e), rows) != []
  {
    hide Filter, ProperGroups, AskedBy, Sound;
    WithRowsAre(q, ids, rows);
    GroupsHaveRows(es, EQP, TERMS_AGG_SIZE, Asked(Among(q, ids), rows), e);
  }

  /** Nobody with rows is left out exactly when at most 30000 of the machines sharing the query have rows. */
  lemma AllHeardIff(es: Engine, q: Request, ids: seq<string>, rows: seq<Row>)
    requires Sound(es) && ids != []
    ensures (forall e :: e in ids ==> Heard(es, q, ids, e, rows)) <==> |WithRows(q, ids, rows)| <= 30000
  {
    hide Filter, ProperGroups, AskedBy, Sound;
    WithRowsAre(q, ids, rows);
    AllGroupsIff(es, EQP, TERMS_AGG_SIZE, Asked(Among(q, ids), rows));
  }

  /** A query for one machine never leaves it out. */
  lemma HeardAlone(es: Engine, q: Request, e: string, rows: seq<Row>)
    requires Sound(es)
    ensures Heard(es, q, [e], e, rows)
  {
    hide WithRows, Heard, Sound;
    WithRowsAre(q, [e], rows);
    assert Distinct([e]) == {e};
    AllHeardIff(es, q, [e], rows);
    assert e in [e];
  }

  /** Machine `e` and proc `p` get the same answer in a query shared by `ids` as in one of `e`'s own. */
  ghost predicate SameAnswer(es: Engine, q: Request, ids: seq<string>, e: string, p: string, rows: seq<Row>) {
    var shared, own := Run(es, Among(q, ids), rows), Run(es, Among(q, [e]), rows);
    ((e, p) in shared <==> (e, p) in own) && ((e, p) in shared ==> shared[(e, p)] == own[(e, p)])
  }

  lemma AnswerIsLocal(es: Engine, q: Request, ids: seq<string>, e: string, p: string, rows: seq<Row>)
    requires Sound(es) && Computable(q.facts) && e in ids && Heard(es, q, ids, e, rows)
    ensures SameAnswer(es, q, ids, e, p, rows)
  {
    hide Sound, Run, Machines, Filter, DirectValues, Name, Procs, OfProc, WithRows;
    var shared, own := Run(es, Among(q, ids), rows), Run(es, Among(q, [e]), rows);
    CompiledMeansDirect(es, Among(q, ids), rows, e, p);
    CompiledMeansDirect(es, Among(q, [e]), rows, e, p);
    MachineRows(q, ids, e, rows);
    MachineRows(q, [e], e, rows);
    BothAnswer(es, q, ids, e, rows);
    var h := Filter(OfMachine(q, e), rows);
    SameProcs(es, q, ids, e, h);
    if (e, p) in shared {
      forall name | name in FactNames(q.facts) ensures shared[(e, p)][name] == own[(e, p)][name] {
        var i :| 0 <= i < |q.facts| && Name(q.facts[i].kind) == name;
        SameGroup(q, ids, e, p, h);
        SameDirect(es, q, ids, e, q.facts[i], OfProc(q, p, h));
      }
      assert shared[(e, p)] == own[(e, p)];
    }
  }

  lemma BothAnswer(es: Engine, q: Request, ids: seq<string>, e: string, rows: seq<Row>)
    requires Sound(es) && e in ids && Heard(es, q, ids, e, rows)
    ensures e in Machines(es, Among(q, ids), rows) <==> e in Machines(es, Among(q, [e]), rows)
  {
    hide Sound, Machines, Filter;
    HeardAlone(es, q, e, rows);
    if e in Machines(es, Among(q, ids), rows) { AnsweredHasRows(es, q, ids, e, rows); }
    if e in Machines(es, Among(q, [e]), rows) { AnsweredHasRows(es, q, [e], e, rows); }
  }

  lemma SameProcs(es: Engine, q: Request, ids: seq<string>, e: string, h: seq<Row>)
    ensures Procs(es, Among(q, ids), h) == Procs(es, Among(q, [e]), h)
  {
  }

  lemma SameGroup(q: Request, ids: seq<string>, e: string, p: string, h: seq<Row>)
    ensures OfProc(Among(q, ids), p, h) == OfProc(q, p, h) == OfProc(Among(q, [e]), p, h)
  {
  }

  lemma SameDirect(es: Engine, q: Request, ids: seq<string>, e: string, f: Fact, g: seq<Row>)
    ensures DirectValues(es, Among(q, ids), f, g) == DirectValues(es, Among(q, [e]), f, g)
  {
    hide FactValue;
  }

  /** A row that `q` asks for, of machine `e`. */
  function SampleRow(q: Request, e: string): Row {
    Row(q.now, q.category, if q.metrics == [] then "" else q.metrics[0], q.proc, e, None)
  }

  function Sample(q: Request): string -> Row {
    (e: string) => SampleRow(q, e)
  }

  lemma SampleIsAsked(q: Request, ids: seq<string>, e: string)
    requires q.window >= 0 && e in ids
    ensures AskedBy(Among(q, ids))(SampleRow(q, e))
  {
  }

  /** With a row for each of `ids`, there are as many machines as distinct ids. */
  lemma SamplesAsked(q: Request, ids: seq<string>)
    requires q.window >= 0
    ensures Asked(Among(q, ids), Map(Sample(q), ids)) == Map(Sample(q), ids)
  {
    var rows, keep := Map(Sample(q), ids), AskedBy(Among(q, ids));
    forall r | r in rows ensures keep(r) {
      var i :| 0 <= i < |rows| && rows[i] == r;
      SampleIsAsked(q, ids, ids[i]);
    }
    hide AskedBy, Filter, Map;
    FilterKeepsAll(keep, rows);
  }

  lemma SamplesNameAll(q: Request, ids: seq<string>)
    ensures FieldValues(EQP, Map(Sample(q), ids)) == Distinct(ids)
  {
    var rows := Map(Sample(q), ids);
    forall i | 0 <= i < |ids| ensures FieldOf(EQP, rows[i]) == ids[i] {}
    hide Map, Sample;
    forall e ensures e in FieldValues(EQP, rows) <==> e in ids {
      if e in ids {
        var i :| 0 <= i < |ids| && ids[i] == e;
        assert rows[i] in rows && FieldOf(EQP, rows[i]) == e;
      }
    }
  }

  /** A machine's shared answers are its own exactly when the query does not leave it out. */
  lemma AnswersAreOwnIff(es: Engine, q: Request, ids: seq<string>, e: string, rows: seq<Row>)
    requires Sound(es) && Computable(q.facts) && e in ids
    ensures (forall p :: SameAnswer(es, q, ids, e, p, rows)) <==> Heard(es, q, ids, e, rows)
  {
    hide Sound, Run, Machines, Filter, Procs;
    if Heard(es, q, ids, e, rows) {
      forall p ensures SameAnswer(es, q, ids, e, p, rows) { AnswerIsLocal(es, q, ids, e, p, rows); }
    } else {
      var p := AnsweredAlone(es, q, e, rows);
      CompiledMeansDirect(es, Among(q, ids), rows, e, p);
      assert !SameAnswer(es, q, ids, e, p, rows);
    }
  }

  lemma AnsweredAlone(es: Engine, q: Request, e: string, rows: seq<Row>) returns (p: string)
    requires Sound(es) && Computable(q.facts) && Filter(OfMachine(q, e), rows) != []
    ensures (e, p) in Run(es, Among(q, [e]), rows)
  {
    hide Sound, Run, ProperGroups, Filter, Procs, WithRows;
    var own := Among(q, [e]);
    var h := Within(EQP, e, Asked(own, rows));
    MachineRows(q, [e], e, rows);
    HeardAlone(es, q, e, rows);
    SomeProcAnswered(es, own, h, h[0]);
    p :| p in Procs(es, own, h);
    CompiledMeansDirect(es, own, rows, e, p);
  }

  /** No machine's answers differ, whatever rows there are, exactly when no more than 30000 distinct machines
      share the query (or its window is negative and asks for nothing). */
  lemma SharedAnswersAreOwnIff(es: Engine, q: Request, ids: seq<string>)
    requires Sound(es) && Computable(q.facts) && ids != []
    ensures (forall rows, e, p :: e in ids ==> SameAnswer(es, q, ids, e, p, rows)) <==>
      q.window < 0 || |Distinct(ids)| <= 30000
  {
    hide Sound, SameAnswer, Distinct, WithRows, Heard;
    if q.window < 0 || |Distinct(ids)| <= TERMS_AGG_SIZE {
      forall rows, e, p | e in ids ensures SameAnswer(es, q, ids, e, p, rows) {
        WithRowsAre(q, ids, rows);
        if q.window < 0 { NothingAsked(q, ids, rows); }
        AllHeardIff(es, q, ids, rows);
        AnswersAreOwnIff(es, q, ids, e, rows);
      }
    } else {
      var rows := Map(Sample(q), ids);
      SamplesAreWithRows(q, ids);
      AllHeardIff(es, q, ids, rows);
      var e :| e in ids && !Heard(es, q, ids, e, rows);
      AnswersAreOwnIff(es, q, ids, e, rows);
    }
  }

  lemma NothingAsked(q: Request, ids: seq<string>, rows: seq<Row>)
    requires q.window < 0
    ensures WithRows(q, ids, rows) == {}
  {
    FilterCounts(AskedBy(Among(q, ids)), rows);
    assert Asked(Among(q, ids), rows) == [];
  }

  lemma SamplesAreWithRows(q: Request, ids: seq<string>)
    requires q.window >= 0
    ensures WithRows(q, ids, Map(Sample(q), ids)) == Distinct(ids)
  {
    hide Asked, FieldValues, Map;
    SamplesAsked(q, ids);
    SamplesNameAll(q, ids);
  }

  lemma AnsweredAreAsked(es: Engine, q: Request, rows: seq<Row>, e: string, p: string)
    requires Sound(es) && Computable(q.facts) && q.eqpIds != [] && (e, p) in Run(es, q, rows)
    ensures e in q.eqpIds
  {
    hide Run, Within, ProperGroups;
    CompiledMeansDirect(es, q, rows, e, p);
    GroupsHaveRows(es, EQP, TERMS_AGG_SIZE, Asked(q, rows), e);
    FilterMembers(AskedBy(q), rows);
  }

  /** The query for measure `m` and the machines `ids` does not leave `e` out, or is never made because nothing
      is left to compute. */
  ghost predicate MeasureHeard(ctx: Context, m: Measure, ids: seq<string>, e: string) {
    var q := RequestFor(ctx, m, ids);
    q.facts == [] || q.metrics == [] || Heard(ctx.es, q, ids, e, Searched(q, ctx.rows))
  }

  /** Machine `e` and proc `p` get the same values of `m` together with `ids` as alone. */
  ghost predicate SameValues(ctx: Context, m: Measure, ids: seq<string>, e: string, p: string) {
    var shared, own := Computed(ctx, m, ids), Computed(ctx, m, [e]);
    ((e, p) in shared <==> (e, p) in own) && ((e, p) in shared ==> shared[(e, p)] == own[(e, p)])
  }

  lemma SameValuesAreSameAnswers(ctx: Context, m: Measure, ids: seq<string>, e: string, p: string)
    ensures var q := RequestFor(ctx, m, ids);
      SameValues(ctx, m, ids, e, p) <==>
        q.facts == [] || q.metrics == [] || SameAnswer(ctx.es, q, ids, e, p, Searched(q, ctx.rows))
  {
    hide Run, Searched, MetricsOf, Implemented;
    var q := RequestFor(ctx, m, ids);
    assert Among(q, ids) == q && Among(q, [e]) == RequestFor(ctx, m, [e]);
    SearchedAlike(q, [e], ctx.rows);
  }

  /** A machine gets exactly its own values of a measure from a shared query if and only if the query does not
      leave it out. */
  lemma ComputedLocallyIff(ctx: Context, m: Measure, ids: seq<string>, e: string)
    requires Sound(ctx.es) && ValidMeasure(m) && e in ids
    ensures (forall p :: SameValues(ctx, m, ids, e, p)) <==> MeasureHeard(ctx, m, ids, e)
  {
    hide Sound, Searched, MetricsOf, Implemented, SameValues, SameAnswer, Heard;
    ImplementedIsComputable(m);
    var q := RequestFor(ctx, m, ids);
    AnswersAreOwnIff(ctx.es, q, ids, e, Searched(q, ctx.rows));
    forall p { SameValuesAreSameAnswers(ctx, m, ids, e, p); }
  }

  /** A query for at most 30000 machines leaves none of them out, whatever rows there are. */
  lemma FewMachinesHeard(ctx: Context, m: Measure, ids: seq<string>, e: string)
    requires Sound(ctx.es) && e in ids && |Distinct(ids)| <= 30000
    ensures MeasureHeard(ctx, m, ids, e)
  {
    hide Sound, Searched, MetricsOf, Implemented, WithRows, Heard;
    var q := RequestFor(ctx, m, ids);
    WithRowsAre(q, ids, Searched(q, ctx.rows));
    AllHeardIff(ctx.es, q, ids, Searched(q, ctx.rows));
  }

  lemma SearchedAlike(q: Request, ids: seq<string>, rows: seq<Row>)
    ensures Searched(Among(q, ids), rows) == Searched(q, rows)
  {
  }

  lemma ComputedAreAsked(ctx: Context, m: Measure, ids: seq<string>, e: string, p: string)
    requires Sound(ctx.es) && ValidMeasure(m) && ids != [] && (e, p) in Computed(ctx, m, ids)
    ensures e in ids
  {
    hide Sound, Run, Searched, MetricsOf, Implemented;
    ImplementedIsComputable(m);
    var q := RequestFor(ctx, m, ids);
    AnsweredAreAsked(ctx.es, q, Searched(q, ctx.rows), e, p);
  }
}
