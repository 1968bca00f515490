/** The profile repository: the reference check of an effective profile, the cadence query and the
    version-locked writes. */
module Repository {
  import opened Wrappers
  import opened Sorting
  import opened Dicts
  import opened FactCatalog
  import opened Profiles
  import opened Cascade

  // ---------------------------------------------------------------- checking an effective profile

  predicate AboutCondition(e: Problem) {
    e.MissingMeasure? || e.MissingFact? || e.OpNotAllowed?
  }

  /** Measure `id` exists and a condition of `conditions` refers to it. */
  ghost predicate Referenced(p: Profile, conditions: seq<Condition>, id: string) {
    MeasureById(p, id).Some? && exists c :: c in conditions && MeasureId(c.fact) == id
  }

  /** `validate_effective`: exactly the faults there are, each once or more. */
  method ValidateEffective(p: Profile) returns (errors: seq<Problem>)
    ensures forall e :: e in errors <==> Faulty(p, e)
  {
    errors := [];
    for ri := 0 to |p.rules|
      invariant forall e :: e in errors <==> e.rule < ri && Faulty(p, e)
    {
      var more := RuleProblems(p, ri);
      errors := errors + more;
    }
  }

  method RuleProblems(p: Profile, ri: nat) returns (errors: seq<Problem>)
    requires ri < |p.rules|
    ensures forall e :: e in errors <==> e.rule == ri && Faulty(p, e)
  {
    var rule := p.rules[ri];
    GetIff(p.notify, rule.notify);
    var channel := if Get(p.notify, rule.notify).None? then [MissingChannel(ri)] else [];
    var conds, referenced := ConditionProblems(p, ri);
    var windows := WindowProblems(p, ri, referenced);
    var mixed := ProcProblems(p, ri, referenced);
    errors := channel + conds + windows + mixed;
  }

  method ConditionProblems(p: Profile, ri: nat) returns (errors: seq<Problem>, referenced: set<string>)
    requires ri < |p.rules|
    ensures forall e :: e in errors <==> e.rule == ri && AboutCondition(e) && Faulty(p, e)
    ensures forall id :: id in referenced <==> Referenced(p, p.rules[ri].conditions, id)
  {
    hide MeasureId, MeasureById, FactName, FactByName;
    var conditions := p.rules[ri].conditions;
    errors, referenced := [], {};
    for ci := 0 to |conditions|
      invariant forall e :: e in errors <==> e.rule == ri && AboutCondition(e) && e.cond < ci && Faulty(p, e)
      invariant forall id :: id in referenced <==> Referenced(p, conditions[..ci], id)
    {
      var c := conditions[ci];
      var mid := MeasureId(c.fact);
      var measure := MeasureById(p, mid);
      forall id { ReferencedStep(p, conditions, ci, id); }
      assert forall m :: RefersTo(p, c, m) <==> measure == Some(m);
      if measure.None? {
        errors := errors + [MissingMeasure(ri, ci)];
      } else {
        assert RefersTo(p, c, measure.value);
        referenced := referenced + {mid};
        var kind := FactByName(measure.value, FactName(c.fact));
        if kind.None? {
          errors := errors + [MissingFact(ri, ci)];
        } else if !OpAllowed(kind.value, c.op) {
          errors := errors + [OpNotAllowed(ri, ci)];
        }
      }
    }
    assert conditions[..|conditions|] == conditions;
  }

  lemma ReferencedStep(p: Profile, conditions: seq<Condition>, n: nat, id: string)
    requires n < |conditions|
    ensures Referenced(p, conditions[..n + 1], id) <==>
      Referenced(p, conditions[..n], id) || (id == MeasureId(conditions[n].fact) && MeasureById(p, id).Some?)
  {
    hide MeasureId, MeasureById;
    assert conditions[..n + 1] == conditions[..n] + [conditions[n]];
    if id == MeasureId(conditions[n].fact) && MeasureById(p, id).Some? {
      assert conditions[n] in conditions[..n + 1];
    }
    if Referenced(p, conditions[..n], id) {
      var c :| c in conditions[..n] && MeasureId(c.fact) == id;
      assert c in conditions[..n + 1];
    }
  }

  method WindowProblems(p: Profile, ri: nat, referenced: set<string>) returns (errors: seq<Problem>)
    requires ri < |p.rules|
    requires forall id :: id in referenced <==> Referenced(p, p.rules[ri].conditions, id)
    ensures forall e :: e in errors <==> e.rule == ri && e.IntervalExceedsWindow? && Faulty(p, e)
  {
    var rule := p.rules[ri];
    errors := [];
    var rest := referenced;
    while rest != {}
      invariant rest <= referenced
      invariant forall e :: e in errors <==> (e.rule == ri && e.IntervalExceedsWindow?
                && e.measureId in referenced - rest && rule.interval > MeasureById(p, e.measureId).value.window)
    {
      var mid :| mid in rest;
      rest := rest - {mid};
      if rule.interval > MeasureById(p, mid).value.window {
        errors := errors + [IntervalExceedsWindow(ri, mid)];
      }
    }
    forall e: Problem | e.rule == ri && e.IntervalExceedsWindow?
      ensures Faulty(p, e) <==> e.measureId in referenced && rule.interval > MeasureById(p, e.measureId).value.window
    {
      if e.measureId in referenced {
        var c :| c in rule.conditions && MeasureId(c.fact) == e.measureId;
        assert RefersTo(p, c, MeasureById(p, e.measureId).value);
      }
    }
  }

  method ProcProblems(p: Profile, ri: nat, referenced: set<string>) returns (errors: seq<Problem>)
    requires ri < |p.rules|
    requires forall id :: id in referenced <==> Referenced(p, p.rules[ri].conditions, id)
    ensures forall e :: e in errors <==> e.rule == ri && e.MixedProcs? && Faulty(p, e)
  {
    var rule := p.rules[ri];
    var procs := set id | id in referenced :: ProcOf(p, id);
    if |procs| > 1 {
      TwoProcsMix(p, ri, referenced, procs);
      errors := [MixedProcs(ri)];
    } else {
      OneProcIsUnmixed(p, ri, referenced, procs);
      errors := [];
    }
  }

  function ProcOf(p: Profile, id: string): string {
    var m := MeasureById(p, id);
    if m.Some? then m.value.proc else ""
  }

  lemma ProcSource(p: Profile, conditions: seq<Condition>, id: string) returns (c: Condition, m: Measure)
    requires Referenced(p, conditions, id)
    ensures c in conditions && RefersTo(p, c, m) && m.proc == ProcOf(p, id)
  {
    hide MeasureId, MeasureById;
    c :| c in conditions && MeasureId(c.fact) == id;
    m := MeasureById(p, id).value;
  }

  lemma TwoProcsMix(p: Profile, ri: nat, referenced: set<string>, procs: set<string>)
    requires ri < |p.rules| && |procs| > 1
    requires forall id :: id in referenced ==> Referenced(p, p.rules[ri].conditions, id)
    requires procs == set id | id in referenced :: ProcOf(p, id)
    ensures Faulty(p, MixedProcs(ri))
  {
    hide MeasureId, MeasureById, RefersTo, ProcOf, Referenced;
    TwoOf(procs);
    var a, b :| a in procs && b in procs && a != b;
    var i :| i in referenced && ProcOf(p, i) == a;
    var j :| j in referenced && ProcOf(p, j) == b;
    var c, m := ProcSource(p, p.rules[ri].conditions, i);
    var d, n := ProcSource(p, p.rules[ri].conditions, j);
  }

  lemma OneProcIsUnmixed(p: Profile, ri: nat, referenced: set<string>, procs: set<string>)
    requires ri < |p.rules| && |procs| <= 1
    requires forall id :: Referenced(p, p.rules[ri].conditions, id) ==> id in referenced
    requires procs == set id | id in referenced :: ProcOf(p, id)
    ensures !Faulty(p, MixedProcs(ri))
  {
    hide MeasureId, MeasureById;
    var conditions := p.rules[ri].conditions;
    forall c, d, m, n | c in conditions && d in conditions && RefersTo(p, c, m) && RefersTo(p, d, n)
      ensures m.proc == n.proc
    {
      assert Referenced(p, conditions, MeasureId(c.fact)) && Referenced(p, conditions, MeasureId(d.fact));
      assert ProcOf(p, MeasureId(c.fact)) == m.proc && ProcOf(p, MeasureId(d.fact)) == n.proc;
      assert m.proc in procs && n.proc in procs;
      AtMostOne(procs, m.proc, n.proc);
    }
  }

  lemma TwoOf<T>(s: set<T>)
    requires |s| > 1
    ensures exists a, b :: a in s && b in s && a != b
  {
    var a :| a in s;
    assert |s - {a}| > 0;
    var b :| b in s - {a};
  }

  lemma AtMostOne<T>(s: set<T>, a: T, b: T)
    requires |s| <= 1 && a in s && b in s
    ensures a == b
  {
    assert a != b ==> |s - {a} - {b}| == |s| - 2;
  }

  // ---------------------------------------------------------------- the collection

  datatype WriteResult =
    Written(version: int) | VersionConflict | NotFound | AlreadyExists | Invalid(errors: seq<Problem>)

  /** Position of the document of `scope`, or the length when there is none. */
  function IndexOf(docs: seq<StoredDoc>, scope: Scope): (i: nat)
    ensures i <= |docs|
    ensures i < |docs| ==> docs[i].scope == scope
    ensures forall j :: 0 <= j < i ==> docs[j].scope != scope
  {
    if docs == [] || docs[0].scope == scope then 0 else 1 + IndexOf(docs[1..], scope)
  }

  /** `x` added to a set kept in ascending order. */
  function AddAscending(s: seq<int>, x: int): (r: seq<int>)
    requires Ascending(s)
    ensures Ascending(r) && forall y :: y in r <==> y in s || y == x
  {
    if s == [] || x < s[0] then [x] + s
    else if s[0] == x then s
    else
      var rest := AddAscending(s[1..], x);
      assert s == [s[0]] + s[1..];
      assert forall i :: 0 <= i < |rest| ==> rest[i] in rest;
      [s[0]] + rest
  }

  ghost predicate IsIntervalAmong(rules: seq<StoredRule>, interval: int) {
    exists r :: r in rules && On(r.enabled) && r.body.interval == interval
  }

  lemma IntervalsAmongOneMore(rules: seq<StoredRule>, n: nat, interval: int)
    requires n < |rules|
    ensures IsIntervalAmong(rules[..n + 1], interval) <==>
      IsIntervalAmong(rules[..n], interval) || (On(rules[n].enabled) && rules[n].body.interval == interval)
  {
    assert rules[..n + 1] == rules[..n] + [rules[n]];
    assert rules[n] in rules[..n + 1];
    if IsIntervalAmong(rules[..n], interval) {
      var r :| r in rules[..n] && On(r.enabled) && r.body.interval == interval;
      assert r in rules[..n + 1];
    }
  }

  lemma IntervalsOneMore(docs: seq<StoredDoc>, n: nat, process: string, interval: int)
    requires n < |docs|
    ensures IsIntervalOf(docs[..n + 1], process, interval) <==>
      IsIntervalOf(docs[..n], process, interval)
      || (InReach(docs[n], process) && IsIntervalAmong(docs[n].rules, interval))
  {
    assert docs[..n + 1] == docs[..n] + [docs[n]];
    if IsIntervalOf(docs[..n + 1], process, interval) {
      var d, r :| Counts(docs[..n + 1], process, d, r) && r.body.interval == interval;
      assert d == docs[n] || Counts(docs[..n], process, d, r);
    }
    if IsIntervalOf(docs[..n], process, interval) {
      var d, r :| Counts(docs[..n], process, d, r) && r.body.interval == interval;
      assert Counts(docs[..n + 1], process, d, r);
    }
    if InReach(docs[n], process) && IsIntervalAmong(docs[n].rules, interval) {
      var r :| r in docs[n].rules && On(r.enabled) && r.body.interval == interval;
      assert Counts(docs[..n + 1], process, docs[n], r);
    }
  }

  class ProfileRepository {
    var docs: seq<StoredDoc>

    constructor ()
      ensures docs == []
    {
      docs := [];
    }

    method CollectScopeDocs(process: string, model: string, eqpId: string) returns (chain: seq<Profile>)
      ensures chain == Chain(docs, process, model, eqpId)
      ensures forall p :: p in chain <==> exists d :: Reaches(docs, process, model, eqpId, d) && p == Load(d)
      ensures UniqueScopes(docs) ==>
        forall i, j :: 0 <= i < j < |chain| ==> Broader(chain[i].scope, chain[j].scope)
    {
      hide Ancestors, Load, Broader, Reaches, UniqueScopes, RankLe;
      ChainMembers(docs, process, model, eqpId);
      ChainNarrowsAll(docs, process, model, eqpId);
      var triples := CascadeTriples(process, model, eqpId);
      chain := Sort(RankLe, Selected(docs, triples));
    }

    method GetSchedulingIntervals(process: string) returns (intervals: seq<int>)
      ensures Ascending(intervals) && forall i :: i in intervals <==> IsIntervalOf(docs, process, i)
      ensures forall i :: i in intervals <==>
        exists d, r ::
          && d in docs && r in d.rules && (d.scope.process == process || d.scope.process == "*")
          && d.enabled != Some(false) && r.enabled != Some(false) && r.body.interval == i
    {
      forall i { IntervalIs(docs, process, i); }
      intervals := [];
      for d := 0 to |docs|
        invariant Ascending(intervals)
        invariant forall i :: i in intervals <==> IsIntervalOf(docs[..d], process, i)
      {
        forall i { IntervalsOneMore(docs, d, process, i); }
        if InReach(docs[d], process) {
          for k := 0 to |docs[d].rules|
            invariant Ascending(intervals)
            invariant forall i :: i in intervals <==>
              IsIntervalOf(docs[..d], process, i) || IsIntervalAmong(docs[d].rules[..k], i)
          {
            forall i { IntervalsAmongOneMore(docs[d].rules, k, i); }
            if On(docs[d].rules[k].enabled) {
              intervals := AddAscending(intervals, docs[d].rules[k].body.interval);
            }
          }
          assert docs[d].rules[..|docs[d].rules|] == docs[d].rules;
        }
      }
      assert docs[..|docs|] == docs;
    }

    method Create(profile: Profile) returns (r: WriteResult)
      requires UniqueScopes(docs)
      modifies this
      ensures UniqueScopes(docs)
      ensures IndexOf(old(docs), profile.scope) < |old(docs)| ==> r == AlreadyExists && docs == old(docs)
      ensures IndexOf(old(docs), profile.scope) == |old(docs)| ==>
        r == Written(profile.governance.version) && docs == old(docs) + [Store(profile, profile.governance)]
    {
      if IndexOf(docs, profile.scope) < |docs| { return AlreadyExists; }
      docs := docs + [Store(profile, profile.governance)];
      return Written(profile.governance.version);
    }

    /** One conditional update; a miss is told apart by looking the scope up again. */
    method ReplaceWithVersion(profile: Profile, expected: int) returns (r: WriteResult)
      requires UniqueScopes(docs)
      modifies this
      ensures UniqueScopes(docs)
      ensures var i := IndexOf(old(docs), profile.scope);
        if i == |old(docs)| then r == NotFound && docs == old(docs)
        else if old(docs)[i].governance.version != expected then r == VersionConflict && docs == old(docs)
        else r == Written(expected + 1) && docs == old(docs)[i := Store(profile, Governance(expected + 1, "api"))]
    {
      var i := IndexOf(docs, profile.scope);
      if i == |docs| { return NotFound; }
      if docs[i].governance.version != expected { return VersionConflict; }
      docs := docs[i := Store(profile, Governance(expected + 1, "api"))];
      return Written(expected + 1);
    }
  }
}
