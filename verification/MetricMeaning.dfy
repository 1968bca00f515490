/** Compiling a measure, running the query and parsing the response is grouping the rows directly. */
module MetricMeaning {
  import opened Wrappers
  import opened Sorting
  import opened Dicts
  import opened FactCatalog
  import opened Profiles
  import opened MetricQuery

  // ---------------------------------------------------------------- the direct meaning

  /** The rows request `q` is about. */
  function AskedBy(q: Request): Row -> bool {
    (r: Row) =>
      && q.now - q.window * MINUTE <= r.at <= q.now && r.category == q.category
      && (q.metrics == [] || r.metric in q.metrics)
      && (q.proc == "*" || r.proc == q.proc)
      && (q.eqpIds == [] || r.eqp in q.eqpIds)
  }

  function Asked(q: Request, rows: seq<Row>): seq<Row> {
    Filter(AskedBy(q), rows)
  }

  function Beyond(f: Fact): real -> bool {
    (v: real) => f.over.None? || (if f.direction == Some(Above) then v >= f.over.value else v <= f.over.value)
  }

  /** What fact `f` says about `rows`. */
  function FactValue(es: Engine, f: Fact, rows: seq<Row>): Option<real> {
    var vs := Numbers(rows);
    match f.kind
    case MAX => if vs == [] then None else Some(MaxOf(vs))
    case MIN => if vs == [] then None else Some(MinOf(vs))
    case AVG => if vs == [] then None else Some(AverageOf(vs))
    case P50 => if vs == [] then None else Some(es.percentile(50, multiset(vs)))
    case P90 => if vs == [] then None else Some(es.percentile(90, multiset(vs)))
    case P95 => if vs == [] then None else Some(es.percentile(95, multiset(vs)))
    case P99 => if vs == [] then None else Some(es.percentile(99, multiset(vs)))
    case LAST => if rows == [] then None else es.newest(rows).value
    case SPIKE_COUNT => Some(|Filter(Beyond(f), vs)| as real)
    case _ => None
  }

  /** The procs answered for, and the rows of one of them, among the rows `h` of a machine. */
  function Procs(es: Engine, q: Request, h: seq<Row>): seq<string> {
    if q.proc == "*" then es.terms(PROC, PROC_TERMS_SIZE, h) else [q.proc]
  }

  function OfProc(q: Request, p: string, h: seq<Row>): seq<Row> {
    if q.proc == "*" then Within(PROC, p, h) else h
  }

  function Machines(es: Engine, q: Request, rows: seq<Row>): seq<string> {
    es.terms(EQP, TERMS_AGG_SIZE, Asked(q, rows))
  }

  /** The asked-for rows of machine `e` and proc `p`. */
  function Group(q: Request, rows: seq<Row>, e: string, p: string): seq<Row> {
    OfProc(q, p, Within(EQP, e, Asked(q, rows)))
  }

  /** One value per metric instance, or one for all of them together. */
  function DirectValues(es: Engine, q: Request, f: Fact, g: seq<Row>): seq<Option<real>> {
    if q.expand then
      var keys := es.terms(METRIC, METRIC_TERMS_SIZE, g);
      seq(|keys|, i requires 0 <= i < |keys| => FactValue(es, f, Within(METRIC, keys[i], g)))
    else [FactValue(es, f, g)]
  }

  /** What the model's validators and the engine ask of the facts of one query. */
  ghost predicate Computable(facts: seq<Fact>) {
    DistinctKinds(facts) && forall i :: 0 <= i < |facts| ==> IsImplemented(facts[i].kind)
  }

  // ---------------------------------------------------------------- filters

  lemma ClausesSayAsked(q: Request, r: Row)
    ensures Matching(FilterClauses(q))(r) == AskedBy(q)(r)
  {
    var a := if q.metrics != [] then [Terms(METRIC, q.metrics)] else [];
    var b := if q.proc != "*" then [Term(PROC, q.proc)] else [];
    var c := if q.eqpIds != [] then [Terms(EQP, q.eqpIds)] else [];
    var base := [TimeRange(q.now - q.window * MINUTE, q.now), Term(CATEGORY, q.category)];
    assert FilterClauses(q) == base + a + b + c;
    MatchingConcat(base + a + b, c, r);
    MatchingConcat(base + a, b, r);
    MatchingConcat(base, a, r);
    assert base == [base[0]] + [base[1]];
    MatchingConcat([base[0]], [base[1]], r);
    assert forall d :: Matching([d])(r) <==> Holds([d][0], r);
  }

  lemma MatchingConcat(a: seq<Clause>, b: seq<Clause>, r: Row)
    ensures Matching(a + b)(r) <==> Matching(a)(r) && Matching(b)(r)
  {
    assert forall i :: 0 <= i < |a| ==> (a + b)[i] == a[i];
    assert forall i :: 0 <= i < |b| ==> (a + b)[|a| + i] == b[i];
  }

  // ---------------------------------------------------------------- leaves

  lemma {:induction false} LeafOf(facts: seq<Fact>, i: nat)
    requires Computable(facts) && i < |facts|
    ensures Name(facts[i].kind) in SubAggs(facts) && SubAggs(facts)[Name(facts[i].kind)] == LeafFor(facts[i])
  {
    hide Name, LeafFor;
    var n := |facts| - 1;
    if i < n {
      LeafOf(facts[..n], i);
      if Name(facts[i].kind) == Name(facts[n].kind) { NamesDiffer(facts[i].kind, facts[n].kind); }
    }
  }

  /** Compiled, evaluated and read back, a fact is what it says about the rows. */
  lemma {:induction false} LeafMeansFact(es: Engine, facts: seq<Fact>, i: nat, rows: seq<Row>)
    requires Sound(es) && Computable(facts) && i < |facts|
    ensures ReadFact(Interp(es, Leaves(SubAggs(facts)), rows), facts[i]) == FactValue(es, facts[i], rows)
  {
    hide Name, SubAggs;
    LeafOf(facts, i);
    var f := facts[i];
    if f.kind == SPIKE_COUNT {
      FilterSame(InRangeTest(f.direction == Some(Above), f.over), Beyond(f), Numbers(rows));
    }
    EvalMeansFact(es, f, rows);
  }

  lemma EvalMeansFact(es: Engine, f: Fact, rows: seq<Row>)
    requires Sound(es) && IsImplemented(f.kind)
    requires f.kind == SPIKE_COUNT ==>
      Filter(InRangeTest(f.direction == Some(Above), f.over), Numbers(rows)) == Filter(Beyond(f), Numbers(rows))
    ensures ReadFact(Facts(map[Name(f.kind) := EvalLeaf(es, LeafFor(f), rows)]), f) == FactValue(es, f, rows)
  {
    hide Name, Numbers, Filter, MaxOf, MinOf;
  }

  // ---------------------------------------------------------------- columns

  lemma {:induction false} ColumnIsOne(facts: seq<Fact>, i: nat, inst: Body)
    requires Computable(facts) && i < |facts|
    ensures Column(facts, Name(facts[i].kind), inst) == [ReadFact(inst, facts[i])]
  {
    hide Name, ReadFact;
    var n := |facts| - 1;
    if i < n {
      ColumnIsOne(facts[..n], i, inst);
      if Name(facts[i].kind) == Name(facts[n].kind) { NamesDiffer(facts[i].kind, facts[n].kind); }
    } else {
      ColumnIsNone(facts[..n], facts[n], inst);
    }
  }

  lemma {:induction false} ColumnIsNone(facts: seq<Fact>, f: Fact, inst: Body)
    requires forall j :: 0 <= j < |facts| ==> facts[j].kind != f.kind
    ensures Column(facts, Name(f.kind), inst) == []
  {
    hide Name, ReadFact;
    if facts != [] {
      var n := |facts| - 1;
      ColumnIsNone(facts[..n], f, inst);
      if Name(facts[n].kind) == Name(f.kind) { NamesDiffer(facts[n].kind, f.kind); }
    }
  }

  lemma {:induction false} ColumnsOf(facts: seq<Fact>, i: nat, insts: seq<Body>)
    requires Computable(facts) && i < |facts|
    ensures var c := FlatMap(ColumnOf(facts, Name(facts[i].kind)), insts);
      |c| == |insts| && forall k :: 0 <= k < |insts| ==> c[k] == ReadFact(insts[k], facts[i])
  {
    hide Name, ReadFact;
    if insts != [] {
      var n := |insts| - 1;
      ColumnsOf(facts, i, insts[..n]);
      ColumnIsOne(facts, i, insts[n]);
    }
  }

  /** The values read out of one machine-and-proc bucket. */
  lemma GroupMeansDirect(es: Engine, q: Request, key: string, i: nat, g: seq<Row>)
    requires Sound(es) && Computable(q.facts) && i < |q.facts|
    ensures var read := ReadInstances(Instances(Bucket(key, Interp(es, MetricAggs(q), g)), q.expand), q.facts);
      var name := Name(q.facts[i].kind);
      && read.Keys == FactNames(q.facts) && name in read
      && read[name] == DirectValues(es, q, q.facts[i], g)
  {
    hide Name, ReadFact, FactValue, SubAggs, ProperGroups, Within, EvalLeaf;
    var insts := Instances(Bucket(key, Interp(es, MetricAggs(q), g)), q.expand);
    var leaf := Leaves(SubAggs(q.facts));
    ColumnsOf(q.facts, i, insts);
    if q.expand {
      var keys := es.terms(METRIC, METRIC_TERMS_SIZE, g);
      forall k | 0 <= k < |keys|
        ensures ReadFact(insts[k], q.facts[i]) == FactValue(es, q.facts[i], Within(METRIC, keys[k], g))
      {
        assert insts[k] == Interp(es, leaf, Within(METRIC, keys[k], g));
        LeafMeansFact(es, q.facts, i, Within(METRIC, keys[k], g));
      }
    } else {
      assert insts == [Interp(es, leaf, g)];
      LeafMeansFact(es, q.facts, i, g);
    }
  }

  // ---------------------------------------------------------------- procs and machines

  ghost predicate DistinctKeys(bs: seq<Bucket>) {
    forall i, j :: 0 <= i < j < |bs| ==> bs[i].key != bs[j].key
  }

  lemma {:induction false} ParsedProc(eqp: string, procs: seq<Bucket>, facts: seq<Fact>, expand: bool, i: nat)
    requires DistinctKeys(procs) && i < |procs|
    ensures var x := (eqp, procs[i].key); var parsed := ParseProcs(eqp, procs, facts, expand);
      x in parsed && parsed[x] == ReadInstances(Instances(procs[i], expand), facts)
  {
    hide ReadInstances, Instances;
    var n := |procs| - 1;
    if i < n {
      assert procs[..n][i] == procs[i];
      ParsedProc(eqp, procs[..n], facts, expand, i);
    }
  }

  lemma {:induction false} ParsedProcSource(eqp: string, procs: seq<Bucket>, facts: seq<Fact>, expand: bool,
                                            x: (string, string)) returns (i: nat)
    requires x in ParseProcs(eqp, procs, facts, expand)
    ensures i < |procs| && x == (eqp, procs[i].key)
  {
    hide ReadInstances, Instances;
    var n := |procs| - 1;
    if x == (eqp, procs[n].key) {
      i := n;
    } else {
      i := ParsedProcSource(eqp, procs[..n], facts, expand, x);
    }
  }

  /** What one machine's bucket gives. */
  function ParseOne(eqp: Bucket, facts: seq<Fact>, proc: string, expand: bool): Parsed {
    ParseProcs(eqp.key, ProcBuckets(eqp, proc), facts, expand)
  }

  lemma {:induction false} ParsedEqp(eqps: seq<Bucket>, facts: seq<Fact>, proc: string, expand: bool,
                                     k: nat, x: (string, string))
    requires DistinctKeys(eqps) && k < |eqps| && x.0 == eqps[k].key
    ensures var parsed, one := ParseEqps(eqps, facts, proc, expand), ParseOne(eqps[k], facts, proc, expand);
      (x in parsed <==> x in one) && (x in parsed ==> parsed[x] == one[x])
  {
    hide ParseProcs, ProcBuckets;
    var n := |eqps| - 1;
    if x in ParseOne(eqps[n], facts, proc, expand) {
      var i := ParsedProcSource(eqps[n].key, ProcBuckets(eqps[n], proc), facts, expand, x);
    }
    if k < n {
      assert eqps[..n][k] == eqps[k];
      ParsedEqp(eqps[..n], facts, proc, expand, k, x);
    } else if x in ParseEqps(eqps[..n], facts, proc, expand) {
      var j := ParsedEqpSource(eqps[..n], facts, proc, expand, x);
    }
  }

  lemma {:induction false} ParsedEqpSource(eqps: seq<Bucket>, facts: seq<Fact>, proc: string, expand: bool,
                                           x: (string, string)) returns (k: nat)
    requires x in ParseEqps(eqps, facts, proc, expand)
    ensures k < |eqps| && eqps[k].key == x.0
  {
    hide ParseProcs, ProcBuckets;
    var n := |eqps| - 1;
    if x in ParseEqps(eqps[..n], facts, proc, expand) {
      k := ParsedEqpSource(eqps[..n], facts, proc, expand, x);
    } else {
      k := n;
      var i := ParsedProcSource(eqps[n].key, ProcBuckets(eqps[n], proc), facts, expand, x);
    }
  }

  /** The proc buckets of a machine whose rows are `h`. */
  lemma ProcBucketsOf(es: Engine, q: Request, e: string, h: seq<Row>)
    requires Sound(es)
    ensures var bs := ProcBuckets(Bucket(e, Interp(es, ProcAggs(q), h)), q.proc); var ps := Procs(es, q, h);
      && DistinctKeys(bs) && |bs| == |ps|
      && forall i :: 0 <= i < |ps| ==> bs[i] == Bucket(ps[i], Interp(es, MetricAggs(q), OfProc(q, ps[i], h)))
  {
    hide SubAggs, Within;
    assert ProperGroups(PROC, PROC_TERMS_SIZE, h, es.terms(PROC, PROC_TERMS_SIZE, h));
  }

  lemma EqpBucketsOf(es: Engine, q: Request, rows: seq<Row>)
    requires Sound(es)
    ensures var bs := EqpBuckets(Search(es, Compile(q), rows)); var ms := Machines(es, q, rows);
      && DistinctKeys(bs) && |bs| == |ms|
      && forall k :: 0 <= k < |ms| ==>
           bs[k] == Bucket(ms[k], Interp(es, ProcAggs(q), Within(EQP, ms[k], Asked(q, rows))))
  {
    hide SubAggs, Within, FilterClauses;
    forall r ensures Matching(FilterClauses(q))(r) == AskedBy(q)(r) { ClausesSayAsked(q, r); }
    FilterSame(Matching(FilterClauses(q)), AskedBy(q), rows);
    assert ProperGroups(EQP, TERMS_AGG_SIZE, Asked(q, rows), Machines(es, q, rows));
  }

  /** Machine `e` and proc `p` are among those the engine answers for. */
  predicate Answered(es: Engine, q: Request, rows: seq<Row>, e: string, p: string) {
    e in Machines(es, q, rows) && p in Procs(es, q, Within(EQP, e, Asked(q, rows)))
  }

  function Run(es: Engine, q: Request, rows: seq<Row>): Parsed {
    Parse(Search(es, Compile(q), rows), q.facts, q.proc, q.expand)
  }

  /** The compiler is correct: the parsed answer has exactly the machines and procs answered for, and
      for each fact exactly the values of the direct grouping, for any proc and expansion. */
  lemma CompiledMeansDirect(es: Engine, q: Request, rows: seq<Row>, e: string, p: string)
    requires Sound(es) && Computable(q.facts)
    ensures (e, p) in Run(es, q, rows) <==> Answered(es, q, rows, e, p)
    ensures Answered(es, q, rows, e, p) ==> Run(es, q, rows)[(e, p)].Keys == FactNames(q.facts)
    ensures forall i :: 0 <= i < |q.facts| && Answered(es, q, rows, e, p) ==>
      && Name(q.facts[i].kind) in FactNames(q.facts)
      && Run(es, q, rows)[(e, p)][Name(q.facts[i].kind)] == DirectValues(es, q, q.facts[i], Group(q, rows, e, p))
  {
    hide Sound, Search, Compile, ParseProcs, ProcBuckets, ReadInstances, Instances, DirectValues, Name, OfProc, Asked,
         Within, Interp, Procs, FactNames;
    var eqps, ms := EqpBuckets(Search(es, Compile(q), rows)), Machines(es, q, rows);
    EqpBucketsOf(es, q, rows);
    if (e, p) in Run(es, q, rows) {
      var k := ParsedEqpSource(eqps, q.facts, q.proc, q.expand, (e, p));
      assert ms[k] == e;
    }
    if k: nat :| k < |ms| && ms[k] == e {
      ParsedEqp(eqps, q.facts, q.proc, q.expand, k, (e, p));
      MachineMeansDirect(es, q, e, p, Within(EQP, e, Asked(q, rows)));
    }
  }

  lemma MachineMeansDirect(es: Engine, q: Request, e: string, p: string, h: seq<Row>)
    requires Sound(es) && Computable(q.facts)
    ensures var one := ParseOne(Bucket(e, Interp(es, ProcAggs(q), h)), q.facts, q.proc, q.expand);
      && ((e, p) in one <==> p in Procs(es, q, h))
      && ((e, p) in one ==> one[(e, p)].Keys == FactNames(q.facts))
      && (forall i :: 0 <= i < |q.facts| && (e, p) in one ==>
           && Name(q.facts[i].kind) in one[(e, p)]
           && one[(e, p)][Name(q.facts[i].kind)] == DirectValues(es, q, q.facts[i], OfProc(q, p, h)))
  {
    hide Sound, ParseProcs, ProcBuckets, Instances, DirectValues, Name, OfProc, Interp, Procs, FactNames, FlatMap,
         ColumnOf;
    var bs := ProcBuckets(Bucket(e, Interp(es, ProcAggs(q), h)), q.proc);
    ProcBucketsOf(es, q, e, h);
    if (e, p) in ParseProcs(e, bs, q.facts, q.expand) {
      var i := ParsedProcSource(e, bs, q.facts, q.expand, (e, p));
    }
    if j: nat :| j < |bs| && bs[j].key == p {
      ParsedProc(e, bs, q.facts, q.expand, j);
      forall i | 0 <= i < |q.facts| {
        GroupMeansDirect(es, q, p, i, OfProc(q, p, h));
      }
    }
  }

  // ---------------------------------------------------------------- within the size limits

  /** No more machines than one query returns and, where procs are grouped, no more procs per machine. */
  ghost predicate GroupsFit(q: Request, rows: seq<Row>) {
    var h := Asked(q, rows);
    && |FieldValues(EQP, h)| <= 30000
    && (q.proc == "*" ==> forall e :: |FieldValues(PROC, Within(EQP, e, h))| <= 1000)
  }

  /** Nor, where instances are told apart, more instances per machine and proc. */
  ghost predicate WithinLimits(q: Request, rows: seq<Row>) {
    && GroupsFit(q, rows)
    && (q.expand ==> forall e, p :: |FieldValues(METRIC, Group(q, rows, e, p))| <= 1000)
  }

  lemma {:induction false} SizeOfDistinct(keys: seq<string>)
    requires NoDups(keys)
    ensures |set k | k in keys| == |keys|
  {
    if keys != [] {
      var n := |keys| - 1;
      SizeOfDistinct(keys[..n]);
      assert keys == keys[..n] + [keys[n]];
      assert (set k | k in keys) == (set k | k in keys[..n]) + {keys[n]};
    }
  }

  lemma SubsetOfSameSize(a: set<string>, b: set<string>)
    requires a <= b && |a| == |b|
    ensures a == b
  {
    assert b == a + (b - a);
    assert |b| == |a| + |b - a|;
  }

  /** All groups come back exactly when there are at most `size` of them. */
  lemma AllGroupsIff(es: Engine, f: Field, size: nat, rows: seq<Row>)
    requires Sound(es)
    ensures (forall v :: v in FieldValues(f, rows) ==> v in es.terms(f, size, rows)) <==> |FieldValues(f, rows)| <= size
  {
    var keys, all := es.terms(f, size, rows), FieldValues(f, rows);
    assert ProperGroups(f, size, rows, keys);
    var got := set k | k in keys;
    SizeOfDistinct(keys);
    assert got <= all;
    if |all| <= size { SubsetOfSameSize(got, all); }
    if forall v :: v in all ==> v in keys { assert got == all; }
  }

  ghost predicate HasRow(q: Request, rows: seq<Row>, e: string, p: string) {
    exists r :: r in rows && AskedBy(q)(r) && r.eqp == e && (if q.proc == "*" then r.proc == p else q.proc == p)
  }

  lemma WithinMembers(f: Field, key: string, rows: seq<Row>)
    ensures forall r :: r in Within(f, key, rows) <==> r in rows && FieldOf(f, r) == key
  {
    FilterMembers(Having(f, key), rows);
  }

  /** Nothing is answered for that has no row. */
  lemma AnsweredHasRow(es: Engine, q: Request, rows: seq<Row>, e: string, p: string)
    requires Sound(es) && Answered(es, q, rows, e, p)
    ensures HasRow(q, rows, e, p)
  {
    FilterMembers(AskedBy(q), rows);
    hide Sound, ProperGroups, Filter, Within;
    var h := Asked(q, rows);
    WithinMembers(EQP, e, h);
    GroupsHaveRows(es, EQP, TERMS_AGG_SIZE, h, e);
    GroupsHaveRows(es, PROC, PROC_TERMS_SIZE, Within(EQP, e, h), p);
  }

  /** And within the limits everything that has one is. */
  lemma RowIsAnswered(es: Engine, q: Request, rows: seq<Row>, e: string, p: string)
    requires Sound(es) && GroupsFit(q, rows) && HasRow(q, rows, e, p)
    ensures Answered(es, q, rows, e, p)
  {
    FilterMembers(AskedBy(q), rows);
    hide Sound, ProperGroups, Filter, Within;
    var h := Asked(q, rows);
    WithinMembers(EQP, e, h);
    AllGroupsIff(es, EQP, TERMS_AGG_SIZE, h);
    AllGroupsIff(es, PROC, PROC_TERMS_SIZE, Within(EQP, e, h));
    var r :| r in rows && AskedBy(q)(r) && r.eqp == e && (if q.proc == "*" then r.proc == p else q.proc == p);
    assert FieldOf(EQP, r) in FieldValues(EQP, h) && FieldOf(PROC, r) in FieldValues(PROC, Within(EQP, e, h));
  }

  lemma GroupsHaveRows(es: Engine, f: Field, size: nat, rows: seq<Row>, k: string)
    requires Sound(es)
    ensures k in es.terms(f, size, rows) ==> k in FieldValues(f, rows)
  {
    assert ProperGroups(f, size, rows, es.terms(f, size, rows));
  }

  /** `values` holds one value of fact `f` for each metric instance with rows in `g`, in the order `ms`. */
  ghost predicate OnePerInstance(es: Engine, f: Fact, g: seq<Row>, ms: seq<string>, values: seq<Option<real>>) {
    && NoDups(ms) && (forall m :: m in ms <==> m in FieldValues(METRIC, g))
    && |values| == |ms|
    && forall k :: 0 <= k < |ms| ==> values[k] == FactValue(es, f, Within(METRIC, ms[k], g))
  }

  /** The answer for `(e, p)` lists, for every fact, the instances `ms`. */
  ghost predicate AnswersBy(es: Engine, q: Request, rows: seq<Row>, e: string, p: string, ms: seq<string>) {
    (e, p) in Run(es, q, rows) &&
    forall f :: f in q.facts ==>
      && Name(f.kind) in Run(es, q, rows)[(e, p)]
      && var values := Run(es, q, rows)[(e, p)][Name(f.kind)];
         if q.expand then OnePerInstance(es, f, Group(q, rows, e, p), ms, values)
         else values == [FactValue(es, f, Group(q, rows, e, p))]
  }

  lemma InstancesOf(es: Engine, q: Request, g: seq<Row>)
    requires Sound(es) && (q.expand ==> |FieldValues(METRIC, g)| <= METRIC_TERMS_SIZE)
    ensures forall f :: if q.expand
                        then OnePerInstance(es, f, g, es.terms(METRIC, METRIC_TERMS_SIZE, g), DirectValues(es, q, f, g))
                        else DirectValues(es, q, f, g) == [FactValue(es, f, g)]
  {
    AllGroupsIff(es, METRIC, METRIC_TERMS_SIZE, g);
    assert ProperGroups(METRIC, METRIC_TERMS_SIZE, g, es.terms(METRIC, METRIC_TERMS_SIZE, g));
    hide FactValue, Within, FieldValues;
  }

  /** With every window and group within its limit, the answer has exactly the machines and procs with
      rows, and each fact one value per metric instance with rows, or one over all of them. */
  lemma QueryIsGrouping(es: Engine, q: Request, rows: seq<Row>, e: string, p: string)
    requires Sound(es) && Computable(q.facts) && WithinLimits(q, rows)
    ensures (e, p) in Run(es, q, rows) <==> HasRow(q, rows, e, p)
    ensures HasRow(q, rows, e, p) ==> exists ms :: AnswersBy(es, q, rows, e, p, ms)
  {
    hide Sound, Group, Run, HasRow, FactNames, Name, Answered, DirectValues;
    CompiledMeansDirect(es, q, rows, e, p);
    if Answered(es, q, rows, e, p) { AnsweredHasRow(es, q, rows, e, p); }
    var g := Group(q, rows, e, p);
    if HasRow(q, rows, e, p) {
      RowIsAnswered(es, q, rows, e, p);
      var ms := es.terms(METRIC, METRIC_TERMS_SIZE, g);
      InstancesOf(es, q, g);
      assert AnswersBy(es, q, rows, e, p, ms);
    }
  }

  /** No machine and proc with a row is missing exactly when there are no more machines and, where procs
      are grouped, no more procs on any machine than the query returns. */
  lemma NothingMissingIff(es: Engine, q: Request, rows: seq<Row>)
    requires Sound(es) && Computable(q.facts)
    ensures (forall e, p :: HasRow(q, rows, e, p) ==> (e, p) in Run(es, q, rows)) <==> GroupsFit(q, rows)
  {
    hide Sound, Run, HasRow, Answered, GroupsFit;
    forall e, p ensures (e, p) in Run(es, q, rows) <==> Answered(es, q, rows, e, p) {
      CompiledMeansDirect(es, q, rows, e, p);
    }
    if GroupsFit(q, rows) {
      forall e, p | HasRow(q, rows, e, p) ensures Answered(es, q, rows, e, p) { RowIsAnswered(es, q, rows, e, p); }
    }
    if forall e, p :: HasRow(q, rows, e, p) ==> (e, p) in Run(es, q, rows) {
      AllMachinesFit(es, q, rows);
      if q.proc == "*" {
        forall e ensures |FieldValues(PROC, Within(EQP, e, Asked(q, rows)))| <= PROC_TERMS_SIZE {
          AllProcsFit(es, q, rows, e);
        }
      }
      FitsIfAllFit(q, rows);
    }
  }

  lemma FitsIfAllFit(q: Request, rows: seq<Row>)
    requires |FieldValues(EQP, Asked(q, rows))| <= TERMS_AGG_SIZE
    requires q.proc == "*" ==> forall e :: |FieldValues(PROC, Within(EQP, e, Asked(q, rows)))| <= PROC_TERMS_SIZE
    ensures GroupsFit(q, rows)
  {
    hide Asked, Within, FieldValues;
  }

  ghost predicate AllRowsAnswered(es: Engine, q: Request, rows: seq<Row>) {
    forall e, p :: HasRow(q, rows, e, p) ==> Answered(es, q, rows, e, p)
  }

  lemma AllMachinesFit(es: Engine, q: Request, rows: seq<Row>)
    requires Sound(es) && AllRowsAnswered(es, q, rows)
    ensures |FieldValues(EQP, Asked(q, rows))| <= TERMS_AGG_SIZE
  {
    var h := Asked(q, rows);
    FilterMembers(AskedBy(q), rows);
    hide Sound, Filter, Within, Procs;
    AllGroupsIff(es, EQP, TERMS_AGG_SIZE, h);
    forall v | v in FieldValues(EQP, h) ensures v in es.terms(EQP, TERMS_AGG_SIZE, h) {
      var r :| r in h && FieldOf(EQP, r) == v;
      assert HasRow(q, rows, v, if q.proc == "*" then r.proc else q.proc);
    }
  }

  lemma AllProcsFit(es: Engine, q: Request, rows: seq<Row>, e: string)
    requires Sound(es) && AllRowsAnswered(es, q, rows) && q.proc == "*"
    ensures |FieldValues(PROC, Within(EQP, e, Asked(q, rows)))| <= PROC_TERMS_SIZE
  {
    var mine := Within(EQP, e, Asked(q, rows));
    FilterMembers(AskedBy(q), rows);
    WithinMembers(EQP, e, Asked(q, rows));
    hide Sound, Filter, Within;
    AllGroupsIff(es, PROC, PROC_TERMS_SIZE, mine);
    forall v | v in FieldValues(PROC, mine) ensures v in es.terms(PROC, PROC_TERMS_SIZE, mine) {
      var r :| r in mine && FieldOf(PROC, r) == v;
      assert HasRow(q, rows, e, v);
    }
  }

  lemma InstancesCount(es: Engine, g: seq<Row>)
    requires Sound(es)
    ensures |es.terms(METRIC, METRIC_TERMS_SIZE, g)| == Least(METRIC_TERMS_SIZE, |FieldValues(METRIC, g)|)
  {
    assert ProperGroups(METRIC, METRIC_TERMS_SIZE, g, es.terms(METRIC, METRIC_TERMS_SIZE, g));
  }

  /** Where instances are told apart, each fact has a value for as many as have rows, up to 1000. */
  lemma InstancesReturned(es: Engine, q: Request, rows: seq<Row>, e: string, p: string, i: nat)
    requires Sound(es) && Computable(q.facts) && q.expand && i < |q.facts|
    ensures (e, p) in Run(es, q, rows) ==>
      && Name(q.facts[i].kind) in Run(es, q, rows)[(e, p)]
      && var n := |FieldValues(METRIC, Group(q, rows, e, p))|;
         |Run(es, q, rows)[(e, p)][Name(q.facts[i].kind)]| == Least(METRIC_TERMS_SIZE, n)
  {
    CompiledMeansDirect(es, q, rows, e, p);
    hide Sound, Run, Answered, Name, Group, FactNames, FactValue, Within, FieldValues;
    InstancesCount(es, Group(q, rows, e, p));
  }

  ghost predicate FullyAnswered(es: Engine, q: Request, rows: seq<Row>) {
    forall e, p :: HasRow(q, rows, e, p) ==> exists ms :: AnswersBy(es, q, rows, e, p, ms)
  }

  /** Only machines and procs with rows are answered for; and they all are, with every fact's value for
      every instance with rows, exactly within the limits. */
  lemma QueryIsGroupingIff(es: Engine, q: Request, rows: seq<Row>)
    requires Sound(es) && Computable(q.facts) && q.facts != []
    ensures forall e, p :: (e, p) in Run(es, q, rows) ==> HasRow(q, rows, e, p)
    ensures FullyAnswered(es, q, rows) <==> WithinLimits(q, rows)
  {
    hide Sound, HasRow, GroupsFit, AnswersBy, Group, Run, Answered, Computable;
    forall e, p | (e, p) in Run(es, q, rows) ensures HasRow(q, rows, e, p) {
      CompiledMeansDirect(es, q, rows, e, p);
      AnsweredHasRow(es, q, rows, e, p);
    }
    if WithinLimits(q, rows) {
      forall e, p | HasRow(q, rows, e, p) ensures exists ms :: AnswersBy(es, q, rows, e, p, ms) {
        QueryIsGrouping(es, q, rows, e, p);
      }
    }
    if FullyAnswered(es, q, rows) {
      forall e, p | HasRow(q, rows, e, p) ensures (e, p) in Run(es, q, rows) {
        var ms :| AnswersBy(es, q, rows, e, p, ms);
        ListedAreAll(es, q, rows, e, p, ms);
      }
      NothingMissingIff(es, q, rows);
      if q.expand {
        forall e, p ensures |FieldValues(METRIC, Group(q, rows, e, p))| <= METRIC_TERMS_SIZE {
          AllInstancesFit(es, q, rows, e, p);
        }
      }
    }
  }

  lemma ListedAreAll(es: Engine, q: Request, rows: seq<Row>, e: string, p: string, ms: seq<string>)
    requires Sound(es) && Computable(q.facts) && q.facts != [] && AnswersBy(es, q, rows, e, p, ms)
    ensures (e, p) in Run(es, q, rows)
    ensures q.expand ==> |FieldValues(METRIC, Group(q, rows, e, p))| <= METRIC_TERMS_SIZE
  {
    hide Sound, Run, Group, FactValue, Within, FieldValues, Name, Computable;
    assert q.facts[0] in q.facts;
    if q.expand {
      InstancesReturned(es, q, rows, e, p, 0);
      SizeOfDistinct(ms);
      assert (set m | m in ms) == FieldValues(METRIC, Group(q, rows, e, p));
    }
  }

  lemma AllInstancesFit(es: Engine, q: Request, rows: seq<Row>, e: string, p: string)
    requires Sound(es) && Computable(q.facts) && q.facts != [] && q.expand && FullyAnswered(es, q, rows)
    ensures |FieldValues(METRIC, Group(q, rows, e, p))| <= METRIC_TERMS_SIZE
  {
    hide Sound, Run, AnswersBy, Computable, Filter;
    var g, p0 := Group(q, rows, e, p), if q.proc == "*" then p else q.proc;
    assert g == Group(q, rows, e, p0);
    if g == [] {
      assert FieldValues(METRIC, g) == {};
    } else {
      GroupHasRow(q, rows, e, p0);
      var ms :| AnswersBy(es, q, rows, e, p0, ms);
      ListedAreAll(es, q, rows, e, p0, ms);
    }
  }

  lemma GroupHasRow(q: Request, rows: seq<Row>, e: string, p: string)
    requires Group(q, rows, e, p) != [] && (q.proc == "*" || q.proc == p)
    ensures HasRow(q, rows, e, p)
  {
    var r := Group(q, rows, e, p)[0];
    FilterMembers(AskedBy(q), rows);
    WithinMembers(EQP, e, Asked(q, rows));
    WithinMembers(PROC, p, Within(EQP, e, Asked(q, rows)));
    hide Filter, Within;
    assert r in Group(q, rows, e, p);
  }

  /** Beyond 30000 machines some machine with rows goes unanswered, and only then. */
  lemma EveryMachineAnsweredIff(es: Engine, q: Request, rows: seq<Row>)
    requires Sound(es) && Computable(q.facts)
    ensures (forall r :: r in Asked(q, rows) ==> exists p :: (r.eqp, p) in Run(es, q, rows))
       <==> |FieldValues(EQP, Asked(q, rows))| <= 30000
  {
    hide Sound, ProperGroups, Asked, Within, Run, Procs;
    var h := Asked(q, rows);
    AllGroupsIff(es, EQP, TERMS_AGG_SIZE, h);
    forall r | r in h ensures (exists p :: (r.eqp, p) in Run(es, q, rows)) <==> r.eqp in Machines(es, q, rows) {
      forall p { CompiledMeansDirect(es, q, rows, r.eqp, p); }
      WithinMembers(EQP, r.eqp, h);
      SomeProcAnswered(es, q, Within(EQP, r.eqp, h), r);
      if r.eqp in Machines(es, q, rows) {
        var p :| p in Procs(es, q, Within(EQP, r.eqp, h));
        assert Answered(es, q, rows, r.eqp, p);
      }
    }
    forall r | r in h ensures FieldOf(EQP, r) in FieldValues(EQP, h) {}
  }

  lemma SomeProcAnswered(es: Engine, q: Request, h: seq<Row>, r: Row)
    requires Sound(es) && r in h
    ensures exists p :: p in Procs(es, q, h)
  {
    var ps := es.terms(PROC, PROC_TERMS_SIZE, h);
    assert ProperGroups(PROC, PROC_TERMS_SIZE, h, ps);
    assert FieldOf(PROC, r) in FieldValues(PROC, h);
    assert FieldValues(PROC, h) != {} && |ps| > 0;
    var p := if q.proc == "*" then ps[0] else q.proc;
    assert p in Procs(es, q, h);
  }

  lemma {:induction false} NumbersAre(rows: seq<Row>)
    ensures forall v :: v in Numbers(rows) <==> exists r :: r in rows && r.value == Some(v)
  {
    if rows != [] {
      NumbersAre(rows[1..]);
      assert rows == [rows[0]] + rows[1..];
      forall v ensures v in Numbers(rows) <==> exists r :: r in rows && r.value == Some(v) {
        if v in Numbers(rows) && rows[0].value == Some(v) { assert rows[0] in rows; }
        if v in Numbers(rows[1..]) {
          var r :| r in rows[1..] && r.value == Some(v);
          assert r in rows;
        }
      }
    }
  }

  lemma {:induction false} NumberOfRow(rows: seq<Row>, r: Row)
    requires r in rows && r.value.Some?
    ensures r.value.value in Numbers(rows)
  {
    if r != rows[0] {
      assert rows == [rows[0]] + rows[1..];
      NumberOfRow(rows[1..], r);
    }
  }

  /** `max` and `min` are values of rows, none of them beyond; `last` is a newest row's value. */
  lemma ExtremesAreRows(es: Engine, f: Fact, rows: seq<Row>, v: real)
    requires Sound(es) && f.kind in {MAX, MIN, LAST} && FactValue(es, f, rows) == Some(v)
    ensures exists r :: r in rows && r.value == Some(v) && (f.kind == LAST ==> IsNewest(rows, r))
    ensures forall r :: r in rows && r.value.Some? ==>
      (f.kind == MAX ==> r.value.value <= v) && (f.kind == MIN ==> v <= r.value.value)
  {
    NumbersAre(rows);
    if f.kind == LAST {
      assert IsNewest(rows, es.newest(rows));
    }
    forall r | r in rows && r.value.Some? ensures r.value.value in Numbers(rows) {
      NumberOfRow(rows, r);
    }
  }

  /** Row `i` has a value at or beyond the boundary of `f`, above or below it. */
  ghost predicate SpikesAt(f: Fact, rows: seq<Row>, i: int) {
    && 0 <= i < |rows| && rows[i].value.Some? && f.over.Some?
    && (f.direction == Some(Above) ==> rows[i].value.value >= f.over.value)
    && (f.direction == Some(Below) ==> rows[i].value.value <= f.over.value)
    && f.direction in {Some(Above), Some(Below)}
  }

  lemma NumbersCons(x: Row, s: seq<Row>)
    ensures Numbers([x] + s) == Numbers([x]) + Numbers(s)
  {
    assert ([x] + s)[1..] == s && [x][1..] == [];
  }

  lemma {:induction false} NumbersConcat(a: seq<Row>, b: seq<Row>)
    ensures Numbers(a + b) == Numbers(a) + Numbers(b)
  {
    if a == [] {
      assert a + b == b;
    } else {
      hide Numbers;
      NumbersConcat(a[1..], b);
      assert a == [a[0]] + a[1..] && a + b == [a[0]] + (a[1..] + b);
      NumbersCons(a[0], a[1..]);
      NumbersCons(a[0], a[1..] + b);
      Associates(Numbers([a[0]]), Numbers(a[1..]), Numbers(b));
    }
  }

  lemma OneMoreSpike(f: Fact, front: seq<Row>, r: Row)
    ensures (set i | 0 <= i < |front + [r]| && SpikesAt(f, front + [r], i)) ==
      (set i | 0 <= i < |front| && SpikesAt(f, front, i)) + (if SpikesAt(f, [r], 0) then {|front|} else {})
  {
    forall i | 0 <= i < |front + [r]|
      ensures SpikesAt(f, front + [r], i) <==> if i < |front| then SpikesAt(f, front, i) else SpikesAt(f, [r], 0)
    {
      assert i < |front| ==> (front + [r])[i] == front[i];
    }
  }

  /** A spike count is the number of rows with a value at or beyond the boundary. */
  lemma {:induction false} SpikeCounts(es: Engine, f: Fact, rows: seq<Row>)
    requires f.kind == SPIKE_COUNT && ValidFact(f)
    ensures FactValue(es, f, rows) == Some(|set i | 0 <= i < |rows| && SpikesAt(f, rows, i)| as real)
  {
    hide SpikesAt, Filter;
    if rows == [] {
      NoSpikes(f, rows);
    } else {
      var n := |rows| - 1;
      var front, r := rows[..n], rows[n];
      assert rows == front + [r];
      SpikeCounts(es, f, front);
      NumbersConcat(front, [r]);
      OneMoreSpike(f, front, r);
      OneSpike(f, r);
      FilterConcat(Beyond(f), Numbers(front), Numbers([r]));
    }
  }

  lemma NoSpikes(f: Fact, rows: seq<Row>)
    requires rows == []
    ensures Filter(Beyond(f), Numbers(rows)) == []
    ensures (set i | 0 <= i < |rows| && SpikesAt(f, rows, i)) == {}
  {
  }

  lemma OneSpike(f: Fact, r: Row)
    requires f.kind == SPIKE_COUNT && ValidFact(f)
    ensures |Filter(Beyond(f), Numbers([r]))| == if SpikesAt(f, [r], 0) then 1 else 0
  {
    if r.value.Some? {
      assert Numbers([r]) == [r.value.value];
      FilterOne(Beyond(f), r.value.value);
    }
  }

  /** The sum is that of the parts, and of one value the value. */
  lemma {:induction false} SumAdds(a: seq<real>, b: seq<real>)
    ensures Sum(a + b) == Sum(a) + Sum(b)
    decreases |b|
  {
    if b == [] {
      assert a + b == a;
    } else {
      var n := |b| - 1;
      SumAdds(a, b[..n]);
      assert (a + b)[..|a| + n] == a + b[..n];
    }
  }

  lemma {:induction false} SumBetween(vs: seq<real>, low: real, high: real)
    requires forall v :: v in vs ==> low <= v <= high
    ensures |vs| as real * low <= Sum(vs) <= |vs| as real * high
  {
    if vs != [] {
      var n := |vs| - 1;
      assert vs[n] in vs && forall v :: v in vs[..n] ==> v in vs;
      SumBetween(vs[..n], low, high);
      assert |vs| as real * low == n as real * low + low && |vs| as real * high == n as real * high + high;
    }
  }

  /** An average is no less than the least value and no more than the greatest. */
  lemma AverageBetween(vs: seq<real>)
    requires vs != []
    ensures MinOf(vs) <= AverageOf(vs) <= MaxOf(vs)
  {
    hide Sum, MinOf, MaxOf;
    SumBetween(vs, MinOf(vs), MaxOf(vs));
    QuotientBetween(Sum(vs), |vs| as real, MinOf(vs), MaxOf(vs));
  }

  /** The averages of two parts weigh in by their sizes. */
  lemma AveragesWeigh(a: seq<real>, b: seq<real>)
    requires a != [] && b != []
    ensures var m, n := |a| as real, |b| as real;
      AverageOf(a + b) * (m + n) == AverageOf(a) * m + AverageOf(b) * n
  {
    hide Sum;
    SumAdds(a, b);
    var m, n := |a| as real, |b| as real;
    assert |a + b| as real == m + n;
    TimesQuotient(Sum(a), m);
    TimesQuotient(Sum(b), n);
    TimesQuotient(Sum(a + b), m + n);
  }

  lemma TimesQuotient(s: real, n: real)
    requires n > 0.0
    ensures s / n * n == s
  {
  }

  lemma QuotientBetween(s: real, n: real, low: real, high: real)
    requires n > 0.0 && n * low <= s <= n * high
    ensures low <= s / n <= high
  {
    var q := s / n;
    assert n * q == s;
    assert q < low ==> n * q < n * low;
    assert q > high ==> n * q > n * high;
  }

  // ---------------------------------------------------------------- which day indexes are searched

  function DayOf(t: int): int {
    t / DAY
  }

  /** The UTC days whose indexes `resolve_index_range` names. */
  function IndexDays(now: int, window: int): seq<int> {
    var start := now - window * MINUTE;
    if DayOf(start) == DayOf(now) then [DayOf(now)] else [DayOf(start), DayOf(now)]
  }

  function InDays(days: seq<int>): Row -> bool {
    (r: Row) => DayOf(r.at) in days
  }

  /** The rows that are searched: one index a day, each holding its day's rows. */
  function Searched(q: Request, rows: seq<Row>): seq<Row> {
    Filter(InDays(IndexDays(q.now, q.window)), rows)
  }

  predicate SpansTwoDays(q: Request) {
    DayOf(q.now) - DayOf(q.now - q.window * MINUTE) <= 1
  }

  lemma DayMonotone(a: int, b: int)
    requires a <= b
    ensures DayOf(a) <= DayOf(b)
  {
  }

  /** The named indexes hold every row asked for, whatever rows there are, exactly when the window
      touches no more than two days. */
  lemma NoRowMissedIff(q: Request)
    ensures (forall rows :: Asked(q, Searched(q, rows)) == Asked(q, rows)) <==> SpansTwoDays(q)
  {
    var start := q.now - q.window * MINUTE;
    if SpansTwoDays(q) {
      forall rows ensures Asked(q, Searched(q, rows)) == Asked(q, rows) {
        forall r | AskedBy(q)(r) ensures InDays(IndexDays(q.now, q.window))(r) {
          DayMonotone(start, r.at);
          DayMonotone(r.at, q.now);
        }
        FilterOfFilter(AskedBy(q), InDays(IndexDays(q.now, q.window)), AskedBy(q), rows);
      }
    } else {
      var r := MissedRow(q);
      FilterOne(AskedBy(q), r);
      FilterOne(InDays(IndexDays(q.now, q.window)), r);
      assert Asked(q, Searched(q, [r])) == [] && Asked(q, [r]) == [r];
    }
  }

  /** A row of a day between the first and the last. */
  lemma MissedRow(q: Request) returns (r: Row)
    requires !SpansTwoDays(q)
    ensures AskedBy(q)(r) && !InDays(IndexDays(q.now, q.window))(r)
  {
    var start := q.now - q.window * MINUTE;
    var at := (DayOf(start) + 1) * DAY;
    assert DayOf(at) == DayOf(start) + 1;
    r := Row(at, q.category, if q.metrics == [] then "" else q.metrics[0], q.proc,
             if q.eqpIds == [] then "" else q.eqpIds[0], None);
  }

  lemma DayLongSpansTwo(q: Request)
    requires q.window <= 1440
    ensures SpansTwoDays(q)
  {
    assert DayOf(q.now - DAY) == DayOf(q.now) - 1;
    DayMonotone(q.now - DAY, q.now - q.window * MINUTE);
  }

  /** Rows that differ only in what is not asked for give one answer. */
  lemma SameAskedSameRun(es: Engine, q: Request, a: seq<Row>, b: seq<Row>)
    requires Asked(q, a) == Asked(q, b)
    ensures Run(es, q, a) == Run(es, q, b)
  {
    hide Parse, Interp, FilterClauses, AskedBy, Matching;
    forall r ensures Matching(FilterClauses(q))(r) == AskedBy(q)(r) { ClausesSayAsked(q, r); }
    FilterSame(Matching(FilterClauses(q)), AskedBy(q), a);
    FilterSame(Matching(FilterClauses(q)), AskedBy(q), b);
  }

  /** Windows of up to 24 hours never reach a third day, so the search misses no row. */
  lemma DayLongWindowsAreCovered(es: Engine, q: Request, rows: seq<Row>)
    requires q.window <= 1440
    ensures SpansTwoDays(q) && Run(es, q, Searched(q, rows)) == Run(es, q, rows)
  {
    hide SpansTwoDays, Run, Asked, Searched;
    DayLongSpansTwo(q);
    NoRowMissedIff(q);
    SameAskedSameRun(es, q, Searched(q, rows), rows);
  }
}
