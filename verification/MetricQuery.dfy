/** Measures as Elasticsearch queries: what a measure is compiled to, what the engine makes of it, and
    how the response is read back. */
module MetricQuery {
  import opened Wrappers
  import opened Sorting
  import opened Dicts
  import opened FactCatalog
  import opened Profiles

  // ---------------------------------------------------------------- stored rows

  /** One EARS document. Times are in microseconds since the epoch. */
  datatype Row = Row(at: int, category: string, metric: string, proc: string, eqp: string, value: Option<real>)

  datatype Field = CATEGORY | METRIC | PROC | EQP

  function FieldOf(f: Field, r: Row): string {
    match f
    case CATEGORY => r.category
    case METRIC => r.metric
    case PROC => r.proc
    case EQP => r.eqp
  }

  // ---------------------------------------------------------------- queries

  datatype Clause =
    | TimeRange(gte: int, lte: int)
    | Term(field: Field, value: string)
    | Terms(field: Field, values: seq<string>)

  datatype Statistic = Maximum | Minimum | Average

  datatype Leaf =
    | Stat(statistic: Statistic)
    | Percentiles(percent: nat)
    | NewestHit
    | CountInRange(atLeast: bool, bound: Option<real>)

  datatype Level = BY_EQP | BY_PROC | BY_METRIC

  datatype Aggs =
    | Leaves(leaves: map<string, Leaf>)
    | GroupBy(level: Level, field: Field, size: nat, inner: Aggs)

  datatype Query = Query(filters: seq<Clause>, aggs: Aggs)

  const TERMS_AGG_SIZE: nat := 30000
  const METRIC_TERMS_SIZE: nat := 1000
  const PROC_TERMS_SIZE: nat := 1000

  const MINUTE: int := 60_000_000
  const DAY: int := 1440 * MINUTE

  // ---------------------------------------------------------------- the compiler

  datatype Strategy = STAT | PERCENTILES | TOP_HITS | FILTER_RANGE | LATER_PHASE

  function StrategyOf(t: FactType): Strategy {
    match t
    case MAX | MIN | AVG => STAT
    case LAST | DELTA => TOP_HITS
    case P50 | P90 | P95 | P99 => PERCENTILES
    case SPIKE_COUNT => FILTER_RANGE
    case _ => LATER_PHASE
  }

  function StatOf(t: FactType): Statistic {
    if t == MAX then Maximum else if t == MIN then Minimum else Average
  }

  function PercentOf(t: FactType): nat {
    if t == P50 then 50 else if t == P90 then 90 else if t == P95 then 95 else 99
  }

  function LeafFor(f: Fact): Leaf {
    match StrategyOf(f.kind)
    case STAT => Stat(StatOf(f.kind))
    case PERCENTILES => Percentiles(PercentOf(f.kind))
    case FILTER_RANGE => CountInRange(f.direction == Some(Above), f.over)
    case _ => NewestHit
  }

  function SubAggs(facts: seq<Fact>): map<string, Leaf> {
    if facts == [] then map[]
    else
      var n := |facts| - 1;
      var f := facts[n];
      if StrategyOf(f.kind).LATER_PHASE? then SubAggs(facts[..n])
      else SubAggs(facts[..n])[Name(f.kind) := LeafFor(f)]
  }

  method BuildFactSubAggs(facts: seq<Fact>) returns (sub: map<string, Leaf>)
    ensures sub == SubAggs(facts)
  {
    hide Name;
    sub := map[];
    for i := 0 to |facts|
      invariant sub == SubAggs(facts[..i])
    {
      assert facts[..i + 1][..i] == facts[..i];
      var f := facts[i];
      var name := Name(f.kind);
      match StrategyOf(f.kind) {
        case STAT => sub := sub[name := Stat(StatOf(f.kind))];
        case PERCENTILES => sub := sub[name := Percentiles(PercentOf(f.kind))];
        case TOP_HITS => sub := sub[name := NewestHit];
        case FILTER_RANGE => sub := sub[name := CountInRange(f.direction == Some(Above), f.over)];
        case LATER_PHASE =>
      }
    }
    assert facts[..|facts|] == facts;
  }

  /** What is asked of one measure. An empty `metrics` or `eqpIds` asks for all of them. */
  datatype Request = Request(
    now: int, window: int, category: string, metrics: seq<string>, proc: string, facts: seq<Fact>,
    expand: bool, eqpIds: seq<string>)

  function MetricAggs(q: Request): Aggs {
    var leaf := Leaves(SubAggs(q.facts));
    if q.expand then GroupBy(BY_METRIC, METRIC, METRIC_TERMS_SIZE, leaf) else leaf
  }

  function ProcAggs(q: Request): Aggs {
    if q.proc == "*" then GroupBy(BY_PROC, PROC, PROC_TERMS_SIZE, MetricAggs(q)) else MetricAggs(q)
  }

  function FilterClauses(q: Request): seq<Clause> {
    [TimeRange(q.now - q.window * MINUTE, q.now), Term(CATEGORY, q.category)]
    + (if q.metrics != [] then [Terms(METRIC, q.metrics)] else [])
    + (if q.proc != "*" then [Term(PROC, q.proc)] else [])
    + (if q.eqpIds != [] then [Terms(EQP, q.eqpIds)] else [])
  }

  function Compile(q: Request): Query {
    Query(FilterClauses(q), GroupBy(BY_EQP, EQP, TERMS_AGG_SIZE, ProcAggs(q)))
  }

  method BuildMetricAggregationQuery(q: Request) returns (query: Query)
    ensures query == Compile(q)
  {
    var leaf := BuildFactSubAggs(q.facts);
    var inner := Leaves(leaf);
    if q.expand { inner := GroupBy(BY_METRIC, METRIC, METRIC_TERMS_SIZE, inner); }
    if q.proc == "*" { inner := GroupBy(BY_PROC, PROC, PROC_TERMS_SIZE, inner); }
    var filters := [TimeRange(q.now - q.window * MINUTE, q.now), Term(CATEGORY, q.category)];
    if q.metrics != [] { filters := filters + [Terms(METRIC, q.metrics)]; }
    if q.proc != "*" { filters := filters + [Term(PROC, q.proc)]; }
    if q.eqpIds != [] { filters := filters + [Terms(EQP, q.eqpIds)]; }
    query := Query(filters, GroupBy(BY_EQP, EQP, TERMS_AGG_SIZE, inner));
  }

  // ---------------------------------------------------------------- the search engine

  /** Percentile answers are keyed "95.0" or "95", depending on the engine. */
  datatype PercentKey = Dotted(percent: nat) | Plain(percent: nat)

  datatype SubResult =
    | StatValue(value: Option<real>)
    | PercentileValues(values: map<PercentKey, Option<real>>)
    | Hits(hits: seq<Option<real>>)
    | DocCount(count: nat)

  datatype Body = Facts(facts: map<string, SubResult>) | Buckets(level: Level, buckets: seq<Bucket>)

  datatype Bucket = Bucket(key: string, body: Body)

  /** What the engine is free to choose: which groups it returns and in what order, how it estimates
      a percentile, which key it answers under, and which of several newest rows it calls newest. */
  datatype Engine = Engine(
    terms: (Field, nat, seq<Row>) -> seq<string>,
    percentile: (nat, multiset<real>) -> real,
    percentKey: nat -> PercentKey,
    newest: seq<Row> -> Row)

  ghost function FieldValues(f: Field, rows: seq<Row>): set<string> {
    set r | r in rows :: FieldOf(f, r)
  }

  function Least(a: nat, b: nat): nat {
    if a <= b then a else b
  }

  /** Up to `size` distinct groups, none of them empty. */
  ghost predicate ProperGroups(f: Field, size: nat, rows: seq<Row>, keys: seq<string>) {
    && NoDups(keys)
    && (forall k :: k in keys ==> k in FieldValues(f, rows))
    && |keys| == Least(size, |FieldValues(f, rows)|)
  }

  ghost predicate IsNewest(rows: seq<Row>, r: Row) {
    r in rows && forall s :: s in rows ==> s.at <= r.at
  }

  ghost predicate Sound(es: Engine) {
    && (forall f, size, rows :: ProperGroups(f, size, rows, es.terms(f, size, rows)))
    && (forall rows :: rows != [] ==> IsNewest(rows, es.newest(rows)))
    && (forall p :: es.percentKey(p).percent == p)
  }

  function MaxOf(vs: seq<real>): (m: real)
    requires vs != []
    ensures m in vs && forall v :: v in vs ==> v <= m
  {
    var n := |vs| - 1;
    if n == 0 then vs[0]
    else
      var m := MaxOf(vs[..n]);
      assert vs == vs[..n] + [vs[n]];
      if vs[n] > m then vs[n] else m
  }

  function MinOf(vs: seq<real>): (m: real)
    requires vs != []
    ensures m in vs && forall v :: v in vs ==> m <= v
  {
    var n := |vs| - 1;
    if n == 0 then vs[0]
    else
      var m := MinOf(vs[..n]);
      assert vs == vs[..n] + [vs[n]];
      if vs[n] < m then vs[n] else m
  }

  function Sum(vs: seq<real>): real {
    if vs == [] then 0.0 else Sum(vs[..|vs| - 1]) + vs[|vs| - 1]
  }

  /** The values there are: a row may lack EARS_VALUE. */
  function Numbers(rows: seq<Row>): seq<real> {
    if rows == [] then []
    else if rows[0].value.Some? then [rows[0].value.value] + Numbers(rows[1..])
    else Numbers(rows[1..])
  }

  function AverageOf(vs: seq<real>): real
    requires vs != []
  {
    Sum(vs) / |vs| as real
  }

  function InRangeTest(atLeast: bool, bound: Option<real>): real -> bool {
    (v: real) => bound.None? || (if atLeast then v >= bound.value else v <= bound.value)
  }

  function EvalLeaf(es: Engine, leaf: Leaf, rows: seq<Row>): SubResult {
    var vs := Numbers(rows);
    match leaf
    case Stat(s) =>
      StatValue(if vs == [] then None
                else Some(match s case Maximum => MaxOf(vs) case Minimum => MinOf(vs) case Average => AverageOf(vs)))
    case Percentiles(p) =>
      PercentileValues(map[es.percentKey(p) := if vs == [] then None else Some(es.percentile(p, multiset(vs)))])
    case NewestHit => Hits(if rows == [] then [] else [es.newest(rows).value])
    case CountInRange(atLeast, bound) => DocCount(|Filter(InRangeTest(atLeast, bound), vs)|)
  }

  function Having(f: Field, key: string): Row -> bool {
    (r: Row) => FieldOf(f, r) == key
  }

  /** The rows of one group. */
  function Within(f: Field, key: string, rows: seq<Row>): seq<Row> {
    Filter(Having(f, key), rows)
  }

  function Interp(es: Engine, aggs: Aggs, rows: seq<Row>): Body
    decreases aggs
  {
    match aggs
    case Leaves(leaves) => Facts(map name | name in leaves :: EvalLeaf(es, leaves[name], rows))
    case GroupBy(level, field, size, inner) =>
      var keys := es.terms(field, size, rows);
      Buckets(level, seq(|keys|, i requires 0 <= i < |keys| =>
        Bucket(keys[i], Interp(es, inner, Within(field, keys[i], rows)))))
  }

  predicate Holds(c: Clause, r: Row) {
    match c
    case TimeRange(gte, lte) => gte <= r.at <= lte
    case Term(f, v) => FieldOf(f, r) == v
    case Terms(f, vs) => FieldOf(f, r) in vs
  }

  function Matching(filters: seq<Clause>): Row -> bool {
    (r: Row) => forall i :: 0 <= i < |filters| ==> Holds(filters[i], r)
  }

  function Search(es: Engine, query: Query, rows: seq<Row>): Body {
    Interp(es, query.aggs, Filter(Matching(query.filters), rows))
  }

  // ---------------------------------------------------------------- reading the response

  function ReadFact(bucket: Body, f: Fact): Option<real> {
    if bucket.Buckets? || Name(f.kind) !in bucket.facts then None
    else
      var sub := bucket.facts[Name(f.kind)];
      match StrategyOf(f.kind)
      case STAT => if sub.StatValue? then sub.value else None
      case FILTER_RANGE => if sub.DocCount? then Some(sub.count as real) else None
      case PERCENTILES =>
        var p := PercentOf(f.kind);
        if sub.PercentileValues? && Dotted(p) in sub.values then sub.values[Dotted(p)]
        else if sub.PercentileValues? && Plain(p) in sub.values then sub.values[Plain(p)]
        else None
      case TOP_HITS => if sub.Hits? && sub.hits != [] then sub.hits[0] else None
      case LATER_PHASE => None
  }

  type FactValues = map<string, seq<Option<real>>>

  /** Per machine and proc, per fact name, one value for each metric instance. */
  type Parsed = map<(string, string), FactValues>

  function FactNames(facts: seq<Fact>): set<string> {
    set i | 0 <= i < |facts| :: Name(facts[i].kind)
  }

  /** What one instance bucket adds under `name`. */
  function Column(facts: seq<Fact>, name: string, inst: Body): seq<Option<real>> {
    if facts == [] then []
    else
      var n := |facts| - 1;
      Column(facts[..n], name, inst) + (if Name(facts[n].kind) == name then [ReadFact(inst, facts[n])] else [])
  }

  function ColumnOf(facts: seq<Fact>, name: string): Body -> seq<Option<real>> {
    (inst: Body) => Column(facts, name, inst)
  }

  function ReadInstances(insts: seq<Body>, facts: seq<Fact>): FactValues {
    map name | name in FactNames(facts) :: FlatMap(ColumnOf(facts, name), insts)
  }

  function BodyOf(b: Bucket): Body {
    b.body
  }

  function ProcBuckets(eqp: Bucket, proc: string): seq<Bucket> {
    if eqp.body.Buckets? && eqp.body.level == BY_PROC then eqp.body.buckets else [Bucket(proc, eqp.body)]
  }

  function Instances(b: Bucket, expand: bool): seq<Body> {
    if expand && b.body.Buckets? && b.body.level == BY_METRIC then Map(BodyOf, b.body.buckets) else [b.body]
  }

  function EqpBuckets(response: Body): seq<Bucket> {
    if response.Buckets? && response.level == BY_EQP then response.buckets else []
  }

  function ParseProcs(eqp: string, procs: seq<Bucket>, facts: seq<Fact>, expand: bool): Parsed {
    if procs == [] then map[]
    else
      var n := |procs| - 1;
      ParseProcs(eqp, procs[..n], facts, expand)
        [(eqp, procs[n].key) := ReadInstances(Instances(procs[n], expand), facts)]
  }

  function ParseEqps(eqps: seq<Bucket>, facts: seq<Fact>, proc: string, expand: bool): Parsed {
    if eqps == [] then map[]
    else
      var n := |eqps| - 1;
      ParseEqps(eqps[..n], facts, proc, expand) + ParseProcs(eqps[n].key, ProcBuckets(eqps[n], proc), facts, expand)
  }

  function Parse(response: Body, facts: seq<Fact>, proc: string, expand: bool): Parsed {
    ParseEqps(EqpBuckets(response), facts, proc, expand)
  }

  method ParseMetricAggregation(response: Body, facts: seq<Fact>, proc: string, expand: bool) returns (result: Parsed)
    ensures result == Parse(response, facts, proc, expand)
  {
    hide ParseProcs;
    result := map[];
    var eqps := EqpBuckets(response);
    for i := 0 to |eqps|
      invariant result == ParseEqps(eqps[..i], facts, proc, expand)
    {
      assert eqps[..i + 1][..i] == eqps[..i];
      result := ParseMachine(eqps[i].key, ProcBuckets(eqps[i], proc), facts, expand, result);
    }
    assert eqps[..|eqps|] == eqps;
  }

  lemma ParseOneProcMore(eqp: string, procs: seq<Bucket>, facts: seq<Fact>, expand: bool, j: nat)
    requires j < |procs|
    ensures ParseProcs(eqp, procs[..j + 1], facts, expand) == ParseProcs(eqp, procs[..j], facts, expand)
      [(eqp, procs[j].key) := ReadInstances(Instances(procs[j], expand), facts)]
  {
    hide ReadInstances, Instances;
    assert procs[..j + 1][..j] == procs[..j];
  }

  lemma UpdateSum<K, V>(a: map<K, V>, b: map<K, V>, k: K, v: V)
    ensures (a + b)[k := v] == a + b[k := v]
  {
  }

  method ParseMachine(eqp: string, procs: seq<Bucket>, facts: seq<Fact>, expand: bool, start: Parsed)
    returns (result: Parsed)
    ensures result == start + ParseProcs(eqp, procs, facts, expand)
  {
    result := start;
    assert start + ParseProcs(eqp, procs[..0], facts, expand) == start;
    hide ReadInstances, Instances, ParseProcs;
    for j := 0 to |procs|
      invariant result == start + ParseProcs(eqp, procs[..j], facts, expand)
    {
      var factValues := CollectFacts(Instances(procs[j], expand), facts);
      ParseOneProcMore(eqp, procs, facts, expand, j);
      UpdateSum(start, ParseProcs(eqp, procs[..j], facts, expand), (eqp, procs[j].key), factValues);
      result := result[(eqp, procs[j].key) := factValues];
    }
    assert procs[..|procs|] == procs;
  }

  /** `factValues` is what the instances `done` gave, and `facts` of one more. */
  ghost predicate Collected(factValues: FactValues, names: set<string>, all: seq<Fact>, done: seq<Body>,
                            facts: seq<Fact>, inst: Body) {
    && factValues.Keys == names
    && forall name :: name in names ==>
         factValues[name] == FlatMap(ColumnOf(all, name), done) + Column(facts, name, inst)
  }

  lemma CollectedMore(factValues: FactValues, done: seq<Body>, facts: seq<Fact>, j: nat, inst: Body)
    requires j < |facts| && Collected(factValues, FactNames(facts), facts, done, facts[..j], inst)
    ensures var name := Name(facts[j].kind);
      && name in factValues
      && Collected(factValues[name := factValues[name] + [ReadFact(inst, facts[j])]], FactNames(facts), facts, done,
                   facts[..j + 1], inst)
  {
    hide ReadFact, Name, FlatMap;
    assert facts[..j + 1][..j] == facts[..j];
  }

  method CollectFacts(insts: seq<Body>, facts: seq<Fact>) returns (factValues: FactValues)
    ensures factValues == ReadInstances(insts, facts)
  {
    hide Column, FactNames;
    factValues := map name | name in FactNames(facts) :: [];
    for i := 0 to |insts|
      invariant factValues == ReadInstances(insts[..i], facts)
    {
      assert insts[..i + 1][..i] == insts[..i];
      factValues := CollectInstance(insts[..i], insts[i], facts, factValues);
    }
    assert insts[..|insts|] == insts;
  }

  method CollectInstance(ghost done: seq<Body>, inst: Body, facts: seq<Fact>, start: FactValues)
    returns (factValues: FactValues)
    requires start == ReadInstances(done, facts)
    ensures Collected(factValues, FactNames(facts), facts, done, facts, inst)
  {
    factValues := start;
    assert Collected(factValues, FactNames(facts), facts, done, facts[..0], inst);
    hide *;
    for j := 0 to |facts|
      invariant Collected(factValues, FactNames(facts), facts, done, facts[..j], inst)
    {
      CollectedMore(factValues, done, facts, j, inst);
      var name := Name(facts[j].kind);
      factValues := factValues[name := factValues[name] + [ReadFact(inst, facts[j])]];
    }
    assert facts[..|facts|] == facts;
  }
}
