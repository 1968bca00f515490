/** Monitoring profiles: scope documents and their fold into the profile a machine runs. */
module Profiles {
  import opened Wrappers
  import opened Sorting
  import opened Dicts
  import opened FactCatalog

  // ---------------------------------------------------------------- the documents

  datatype Scope = Scope(process: string, model: string, eqpId: string)

  datatype Direction = Above | Below | High | Low

  datatype Fact = Fact(kind: FactType, over: Option<real>, direction: Option<Direction>)

  /** `expand` is True for one value per metric instance, False for a scalar. */
  datatype Measure = Measure(
    id: string, category: string, metric: string, proc: string, window: int, expand: bool, facts: seq<Fact>)

  datatype Operand = Number(x: real) | Text(s: string)

  datatype Quantifier = Any | All | Count

  datatype Condition = Condition(
    fact: string, op: Op, value: Operand, quantifier: Quantifier, countMin: Option<int>)

  datatype Severity = WARNING | CRITICAL

  datatype Combine = And | Or

  datatype Rule = Rule(
    id: string, interval: int, severity: Severity, combine: Combine, conditions: seq<Condition>,
    notify: string, enabled: bool)

  datatype GroupBy = ByEqp | ByModel | ByProcess

  datatype Channel = Channel(
    cooldownMinutes: int, emailCode: string, emailSubcode: Option<string>, groupBy: GroupBy,
    emailGroup: Option<string>)

  datatype Governance = Governance(version: int, updatedBy: string)

  datatype Profile = Profile(
    scope: Scope, enabled: bool, governance: Governance,
    measures: seq<Measure>, rules: seq<Rule>, notify: Dict<string, Channel>)

  function MeasureKey(m: Measure): string { m.id }

  function RuleKey(r: Rule): string { r.id }

  // ---------------------------------------------------------------- what the models accept

  /** Where `fact.partition(".")` cuts: the position of the first dot. */
  function DotAt(fact: string): (n: nat)
    ensures n <= |fact|
  {
    if fact == "" || fact[0] == '.' then 0 else 1 + DotAt(fact[1..])
  }

  function MeasureId(fact: string): string {
    fact[..DotAt(fact)]
  }

  function FactName(fact: string): string {
    if DotAt(fact) < |fact| then fact[DotAt(fact) + 1..] else ""
  }

  /** A reference splits at its first dot. */
  lemma {:induction false} ReferenceSplits(id: string, name: string)
    requires '.' !in id
    ensures MeasureId(id + "." + name) == id && FactName(id + "." + name) == name
  {
    var ref := id + "." + name;
    DotFollows(id, name);
    assert ref[..|id|] == id && ref[|id| + 1..] == name;
  }

  lemma {:induction false} DotFollows(id: string, name: string)
    requires '.' !in id
    ensures DotAt(id + "." + name) == |id|
  {
    var ref := id + "." + name;
    if id != "" {
      assert ref[1..] == id[1..] + "." + name;
      assert id[0] in id && forall c :: c in id[1..] ==> c in id;
      DotFollows(id[1..], name);
    }
  }

  lemma {:induction false} NoDotBefore(ref: string)
    ensures '.' !in ref[..DotAt(ref)]
    ensures DotAt(ref) < |ref| ==> ref[DotAt(ref)] == '.'
  {
    if ref != "" && ref[0] != '.' {
      NoDotBefore(ref[1..]);
      assert ref[..DotAt(ref)] == [ref[0]] + ref[1..][..DotAt(ref[1..])];
    }
  }

  lemma ReferenceJoins(ref: string)
    ensures '.' !in MeasureId(ref)
    ensures FactName(ref) != "" ==> ref == MeasureId(ref) + "." + FactName(ref)
  {
    NoDotBefore(ref);
    var n := DotAt(ref);
    if n < |ref| { assert ref == ref[..n] + [ref[n]] + ref[n + 1..]; }
  }

  predicate ValidFact(f: Fact) {
    f.kind in {SPIKE_COUNT, DURATION} ==>
      f.over.Some? && (f.direction == Some(Above) || f.direction == Some(Below))
  }

  ghost predicate DistinctKinds(facts: seq<Fact>) {
    forall i, j :: 0 <= i < j < |facts| ==> facts[i].kind != facts[j].kind
  }

  ghost predicate ValidMeasure(m: Measure) {
    && m.facts != []
    && (forall i :: 0 <= i < |m.facts| ==> ValidFact(m.facts[i]))
    && DistinctKinds(m.facts)
  }

  predicate ValidCondition(c: Condition) {
    && '.' in c.fact
    && (c.quantifier == Count ==> c.countMin.Some? && c.countMin.value >= 1)
    && (c.op == TrendIs <==> c.value.Text?)
  }

  predicate ValidRule(r: Rule) {
    r.conditions != [] && forall i :: 0 <= i < |r.conditions| ==> ValidCondition(r.conditions[i])
  }

  ghost predicate ValidProfile(p: Profile) {
    && (forall m :: m in p.measures ==> ValidMeasure(m))
    && (forall r :: r in p.rules ==> ValidRule(r))
    && (forall i, j :: 0 <= i < j < |p.measures| ==> p.measures[i].id != p.measures[j].id)
    && (forall i, j :: 0 <= i < j < |p.rules| ==> p.rules[i].id != p.rules[j].id)
    && UniqueKeys(p.notify)
  }

  // ---------------------------------------------------------------- the fold

  function MeasureItems(p: Profile): (r: seq<(string, Measure)>)
    ensures |r| == |p.measures| && forall i :: 0 <= i < |r| ==> r[i] == (p.measures[i].id, p.measures[i])
  {
    seq(|p.measures|, i requires 0 <= i < |p.measures| => (p.measures[i].id, p.measures[i]))
  }

  /** A rule with the verdict of the document it stands in. */
  function Bake(p: Profile, r: Rule): Rule {
    r.(enabled := p.enabled && r.enabled)
  }

  function RuleItems(p: Profile): (r: seq<(string, Rule)>)
    ensures |r| == |p.rules| && forall i :: 0 <= i < |r| ==> r[i] == (p.rules[i].id, Bake(p, p.rules[i]))
  {
    seq(|p.rules|, i requires 0 <= i < |p.rules| => (p.rules[i].id, Bake(p, p.rules[i])))
  }

  function NotifyItems(p: Profile): seq<(string, Channel)> {
    p.notify
  }

  predicate AnyEnabled(rules: seq<Rule>) {
    exists i :: 0 <= i < |rules| && rules[i].enabled
  }

  function FoldedMeasures(docs: seq<Profile>): Dict<string, Measure> {
    PutAll([], FlatMap(MeasureItems, docs))
  }

  function FoldedRules(docs: seq<Profile>): Dict<string, Rule> {
    PutAll([], FlatMap(RuleItems, docs))
  }

  function FoldedNotify(docs: seq<Profile>): Dict<string, Channel> {
    PutAll([], FlatMap(NotifyItems, docs))
  }

  /** The effective profile of `docs`, broadest first. `blank` is the governance record of a fold
      over no documents at all. */
  function Fold(docs: seq<Profile>, target: Scope, blank: Governance): Profile {
    var rules := Values(FoldedRules(docs));
    Profile(target, AnyEnabled(rules),
            if docs == [] then blank else docs[|docs| - 1].governance,
            Values(FoldedMeasures(docs)), rules, FoldedNotify(docs))
  }

  /** The fold is for its target, is on when one of its rules is, and carries the last governance record. */
  lemma FoldHeader(docs: seq<Profile>, target: Scope, blank: Governance)
    ensures var f := Fold(docs, target, blank);
      && f.scope == target
      && (f.enabled <==> exists r :: r in f.rules && r.enabled)
      && (docs != [] ==> f.governance == docs[|docs| - 1].governance)
  {
    hide FoldedMeasures, FoldedRules, FoldedNotify, Values;
    var rules := Fold(docs, target, blank).rules;
    if r :| r in rules && r.enabled {
      var i :| 0 <= i < |rules| && rules[i] == r;
    }
  }

  lemma OneDocMore(docs: seq<Profile>, d: nat)
    requires d < |docs|
    ensures FoldedMeasures(docs[..d + 1]) == PutAll(FoldedMeasures(docs[..d]), MeasureItems(docs[d]))
    ensures FoldedRules(docs[..d + 1]) == PutAll(FoldedRules(docs[..d]), RuleItems(docs[d]))
    ensures FoldedNotify(docs[..d + 1]) == PutAll(FoldedNotify(docs[..d]), NotifyItems(docs[d]))
  {
    hide PutAll, MeasureItems, RuleItems, NotifyItems;
    assert docs[..d + 1][..d] == docs[..d];
    PutAllConcat([], FlatMap(MeasureItems, docs[..d]), MeasureItems(docs[d]));
    PutAllConcat([], FlatMap(RuleItems, docs[..d]), RuleItems(docs[d]));
    PutAllConcat([], FlatMap(NotifyItems, docs[..d]), NotifyItems(docs[d]));
  }

  method FoldProfiles(docs: seq<Profile>, target: Scope, blank: Governance) returns (effective: Profile)
    ensures effective == Fold(docs, target, blank)
  {
    var measures: Dict<string, Measure> := [];
    var rules: Dict<string, Rule> := [];
    var notify: Dict<string, Channel> := [];
    var governance := blank;
    assert FoldedMeasures(docs[..0]) == [] && FoldedRules(docs[..0]) == [] && FoldedNotify(docs[..0]) == [];
    hide FoldedMeasures, FoldedRules, FoldedNotify, PutAll;
    var d := 0;
    while d < |docs|
      invariant d <= |docs|
      invariant measures == FoldedMeasures(docs[..d])
      invariant rules == FoldedRules(docs[..d])
      invariant notify == FoldedNotify(docs[..d])
      invariant governance == if d == 0 then blank else docs[d - 1].governance
    {
      var doc := docs[d];
      OneDocMore(docs, d);
      measures := PutMeasures(measures, doc);
      rules := PutRules(rules, doc);
      notify := PutChannels(notify, doc);
      governance := doc.governance;
      d := d + 1;
    }
    assert docs[..d] == docs;
    var folded := Values(rules);
    effective := Profile(target, AnyEnabled(folded), governance, Values(measures), folded, notify);
  }

  method PutMeasures(start: Dict<string, Measure>, doc: Profile) returns (measures: Dict<string, Measure>)
    ensures measures == PutAll(start, MeasureItems(doc))
  {
    measures := start;
    ghost var items := MeasureItems(doc);
    assert items[..0] == [];
    for i := 0 to |doc.measures|
      invariant measures == PutAll(start, items[..i])
    {
      assert items[..i + 1][..i] == items[..i];
      measures := Put(measures, doc.measures[i].id, doc.measures[i]);
    }
    assert items[..|items|] == items;
  }

  method PutRules(start: Dict<string, Rule>, doc: Profile) returns (rules: Dict<string, Rule>)
    ensures rules == PutAll(start, RuleItems(doc))
  {
    rules := start;
    ghost var items := RuleItems(doc);
    assert items[..0] == [];
    for i := 0 to |doc.rules|
      invariant rules == PutAll(start, items[..i])
    {
      assert items[..i + 1][..i] == items[..i];
      var r := doc.rules[i];
      rules := Put(rules, r.id, r.(enabled := doc.enabled && r.enabled));
    }
    assert items[..|items|] == items;
  }

  method PutChannels(start: Dict<string, Channel>, doc: Profile) returns (notify: Dict<string, Channel>)
    ensures notify == PutAll(start, NotifyItems(doc))
  {
    notify := start;
    ghost var items := NotifyItems(doc);
    assert items[..0] == [];
    for i := 0 to |doc.notify|
      invariant notify == PutAll(start, items[..i])
    {
      assert items[..i + 1][..i] == items[..i];
      notify := Put(notify, doc.notify[i].0, doc.notify[i].1);
    }
    assert items[..|items|] == items;
  }

  // ---------------------------------------------------------------- folding is incremental

  lemma MeasuresRefold(docs: seq<Profile>, f: Profile)
    requires f.measures == Values(FoldedMeasures(docs))
    ensures MeasureItems(f) == FoldedMeasures(docs)
  {
    var d := FoldedMeasures(docs);
    MeasureKeysAreIds(docs);
    PutAllUnique([], FlatMap(MeasureItems, docs));
    forall i | 0 <= i < |d| ensures d[i].0 == d[i].1.id { assert d[i] in d; }
  }

  lemma {:induction false} MeasureKeysAreIds(docs: seq<Profile>)
    ensures forall x :: x in FlatMap(MeasureItems, docs) ==> x.0 == x.1.id
  {
    if docs != [] { MeasureKeysAreIds(docs[..|docs| - 1]); }
  }

  lemma {:induction false} RuleKeysAreIds(docs: seq<Profile>)
    ensures forall x :: x in FlatMap(RuleItems, docs) ==> x.0 == x.1.id
  {
    if docs != [] { RuleKeysAreIds(docs[..|docs| - 1]); }
  }

  /** Baking an already folded rule changes nothing: the folded profile is enabled as soon as one of
      its rules is. */
  lemma RulesRefold(docs: seq<Profile>, f: Profile)
    requires f.rules == Values(FoldedRules(docs)) && f.enabled == AnyEnabled(f.rules)
    ensures RuleItems(f) == FoldedRules(docs)
  {
    var d := FoldedRules(docs);
    RuleKeysAreIds(docs);
    PutAllUnique([], FlatMap(RuleItems, docs));
    forall i | 0 <= i < |d| ensures RuleItems(f)[i] == d[i] {
      assert d[i] in d;
      assert f.rules[i].enabled ==> f.enabled;
    }
  }

  lemma RefoldPrefix<V>(items: Profile -> seq<(string, V)>, xs: seq<Profile>, ys: seq<Profile>, f: Profile)
    requires items(f) == PutAll([], FlatMap(items, xs))
    ensures PutAll([], FlatMap(items, [f] + ys)) == PutAll([], FlatMap(items, xs + ys))
  {
    FlatMapConcat(items, [f], ys);
    FlatMapConcat(items, xs, ys);
    assert [f][..0] == [];
    assert FlatMap(items, [f]) == items(f);
    PutAllConcat([], items(f), FlatMap(items, ys));
    PutAllConcat([], FlatMap(items, xs), FlatMap(items, ys));
    PutAllUnique([], FlatMap(items, xs));
    PutAllOwnItems(items(f));
  }

  /** Folding in two stages is folding at once: the same measures, rules with their baked verdicts
      and channels, in the same order, the same governance and the same overall verdict. */
  lemma FoldIsIncremental(xs: seq<Profile>, ys: seq<Profile>, via: Scope, target: Scope, b0: Governance, b1: Governance)
    requires xs != []
    ensures Fold([Fold(xs, via, b0)] + ys, target, b1) == Fold(xs + ys, target, b1)
  {
    hide FlatMap, PutAll, Values, MeasureItems, RuleItems, AnyEnabled;
    var f := Fold(xs, via, b0);
    MeasuresRefold(xs, f);
    RulesRefold(xs, f);
    RefoldPrefix(MeasureItems, xs, ys, f);
    RefoldPrefix(RuleItems, xs, ys, f);
    RefoldPrefix(NotifyItems, xs, ys, f);
  }

  /** Folding a folded profile again gives it back. */
  lemma FoldIsIdempotent(xs: seq<Profile>, target: Scope, b0: Governance, b1: Governance)
    requires xs != []
    ensures Fold([Fold(xs, target, b0)], target, b1) == Fold(xs, target, b0)
  {
    hide FoldedMeasures, FoldedRules, FoldedNotify, Values, AnyEnabled;
    FoldIsIncremental(xs, [], target, target, b0, b1);
    assert [Fold(xs, target, b0)] + [] == [Fold(xs, target, b0)] && xs + [] == xs;
  }

  /** The fold of valid documents is a valid profile: ids stay unique, so building it never fails. */
  lemma FoldIsValid(docs: seq<Profile>, target: Scope, blank: Governance)
    requires forall d :: d in docs ==> ValidProfile(d)
    ensures ValidProfile(Fold(docs, target, blank))
  {
    MeasureKeysAreIds(docs);
    RuleKeysAreIds(docs);
    FoldItemsValid(docs);
    PutAllUnique([], FlatMap(MeasureItems, docs));
    PutAllUnique([], FlatMap(RuleItems, docs));
    PutAllUnique([], FlatMap(NotifyItems, docs));
    var ms, rs := FoldedMeasures(docs), FoldedRules(docs);
    forall i | 0 <= i < |ms| ensures ms[i].0 == ms[i].1.id && ValidMeasure(ms[i].1) { assert ms[i] in ms; }
    forall i | 0 <= i < |rs| ensures rs[i].0 == rs[i].1.id && ValidRule(rs[i].1) { assert rs[i] in rs; }
  }

  lemma {:induction false} FoldItemsValid(docs: seq<Profile>)
    requires forall d :: d in docs ==> ValidProfile(d)
    ensures forall x :: x in FlatMap(MeasureItems, docs) ==> ValidMeasure(x.1)
    ensures forall x :: x in FlatMap(RuleItems, docs) ==> ValidRule(x.1)
  {
    if docs != [] {
      var n := |docs| - 1;
      FoldItemsValid(docs[..n]);
      assert docs[n] in docs;
      forall x | x in RuleItems(docs[n]) ensures ValidRule(x.1) {
        var i :| 0 <= i < |docs[n].rules| && x == (docs[n].rules[i].id, Bake(docs[n], docs[n].rules[i]));
        assert docs[n].rules[i] in docs[n].rules;
      }
    }
  }

  // ---------------------------------------------------------------- who decides an item

  ghost predicate DeclaresRule(p: Profile, id: string) {
    exists i :: 0 <= i < |p.rules| && p.rules[i].id == id
  }

  /** `r` is `p`'s declaration of rule `id`, with `p`'s verdict. */
  ghost predicate IsDeclaration(p: Profile, id: string, r: Rule) {
    exists i :: 0 <= i < |p.rules| && p.rules[i].id == id && r == Bake(p, p.rules[i])
  }

  /** The most specific document that declares rule `id`. */
  ghost predicate DecidesRule(docs: seq<Profile>, id: string, j: nat) {
    j < |docs| && DeclaresRule(docs[j], id) && forall k :: j < k < |docs| ==> !DeclaresRule(docs[k], id)
  }

  function Rank(s: Scope): nat {
    if s.process == "*" then 0 else if s.model == "*" then 1 else if s.eqpId == "*" then 2 else 3
  }

  predicate RankLe(p: Profile, q: Profile) {
    Rank(p.scope) <= Rank(q.scope)
  }

  lemma RankLeIsPreorder()
    ensures TotalPreorder(RankLe)
  {
  }

  /** The scope label the effective-profile API shows. */
  function Label(s: Scope): string {
    s.process + "/" + s.model + "/" + s.eqpId
  }

  lemma LabelIs(s: Scope)
    ensures Label(s) == s.process + "/" + s.model + "/" + s.eqpId
  {
  }

  /** The keys of `items`, each with `tag`. */
  function Labelled<V>(items: seq<(string, V)>, tag: string): (r: seq<(string, string)>)
    ensures |r| == |items| && forall i :: 0 <= i < |r| ==> r[i] == (items[i].0, tag)
  {
    seq(|items|, i requires 0 <= i < |items| => (items[i].0, tag))
  }

  function MeasureLabels(p: Profile): seq<(string, string)> {
    Labelled(MeasureItems(p), Label(p.scope))
  }

  function RuleLabels(p: Profile): seq<(string, string)> {
    Labelled(RuleItems(p), Label(p.scope))
  }

  function ChannelLabels(p: Profile): seq<(string, string)> {
    Labelled(NotifyItems(p), Label(p.scope))
  }

  /** Id or name to label. */
  datatype Labels = Labels(measures: Dict<string, string>, rules: Dict<string, string>, notify: Dict<string, string>)

  /** The labels of documents already in rank order. */
  function LabelsOf(chain: seq<Profile>): Labels {
    Labels(PutAll([], FlatMap(MeasureLabels, chain)), PutAll([], FlatMap(RuleLabels, chain)),
           PutAll([], FlatMap(ChannelLabels, chain)))
  }

  /** What `_provenance` builds. */
  function LabelsFor(docs: seq<Profile>): Labels {
    LabelsOf(Sort(RankLe, docs))
  }

  method LabelAll<V>(start: Dict<string, string>, items: seq<(string, V)>, tag: string)
    returns (labels: Dict<string, string>)
    ensures labels == PutAll(start, Labelled(items, tag))
  {
    labels := start;
    ghost var all := Labelled(items, tag);
    assert all[..0] == [];
    for i := 0 to |items|
      invariant labels == PutAll(start, all[..i])
    {
      assert all[..i + 1][..i] == all[..i];
      labels := Put(labels, items[i].0, tag);
    }
    assert all[..|all|] == all;
  }

  method Provenance(docs: seq<Profile>) returns (labels: Labels)
    ensures labels == LabelsFor(docs)
  {
    hide Put, Label, PutAll, Labelled;
    var chain := Sort(RankLe, docs);
    labels := Labels([], [], []);
    NoLabels(chain[..0]);
    for d := 0 to |chain|
      invariant labels == LabelsOf(chain[..d])
    {
      assert chain[..d + 1][..d] == chain[..d];
      var doc := chain[d];
      var measures := LabelAll(labels.measures, MeasureItems(doc), Label(doc.scope));
      var rules := LabelAll(labels.rules, RuleItems(doc), Label(doc.scope));
      var notify := LabelAll(labels.notify, NotifyItems(doc), Label(doc.scope));
      PutAllConcat([], FlatMap(MeasureLabels, chain[..d]), MeasureLabels(doc));
      PutAllConcat([], FlatMap(RuleLabels, chain[..d]), RuleLabels(doc));
      PutAllConcat([], FlatMap(ChannelLabels, chain[..d]), ChannelLabels(doc));
      labels := Labels(measures, rules, notify);
    }
    assert chain[..|chain|] == chain;
  }

  lemma NoLabels(chain: seq<Profile>)
    requires chain == []
    ensures LabelsOf(chain) == Labels([], [], [])
  {
  }

  lemma LabelledAlike<V>(items: seq<(string, V)>, tag: string, id: string)
    ensures Last(Labelled(items, tag), id) == if Last(items, id).Some? then Some(tag) else None
  {
    var labels := Labelled(items, tag);
    LastIff(items, id);
    LastIff(labels, id);
    if Last(items, id).Some? {
      var i :| 0 <= i < |items| && items[i] == (id, Last(items, id).value);
      assert labels[i] == (id, tag);
    }
    if Last(labels, id).Some? {
      var i :| 0 <= i < |labels| && labels[i] == (id, Last(labels, id).value);
      assert items[i] == (id, items[i].1);
    }
  }

  /** Document `j` is the last one whose items have `id`. */
  ghost predicate LastToDeclare<V>(items: Profile -> seq<(string, V)>, docs: seq<Profile>, id: string, j: nat) {
    && j < |docs| && Last(items(docs[j]), id).Some?
    && forall k :: j < k < |docs| ==> Last(items(docs[k]), id).None?
  }

  lemma {:induction false} LastDeclarerGives<V>(items: Profile -> seq<(string, V)>, docs: seq<Profile>, id: string,
                                                j: nat)
    requires LastToDeclare(items, docs, id, j)
    ensures Last(FlatMap(items, docs), id) == Last(items(docs[j]), id)
  {
    hide Last;
    var n := |docs| - 1;
    LastOfConcat(FlatMap(items, docs[..n]), items(docs[n]), id);
    if j < n { LastDeclarerGives(items, docs[..n], id, j); }
  }

  /** The item kept under `id` and the label kept under `id` come from the same document. */
  lemma {:induction false} ItemAndLabelTogether<V>(items: Profile -> seq<(string, V)>,
                                                   labels: Profile -> seq<(string, string)>,
                                                   docs: seq<Profile>, id: string) returns (j: nat)
    requires forall p :: labels(p) == Labelled(items(p), Label(p.scope))
    requires Last(FlatMap(items, docs), id).Some?
    ensures LastToDeclare(items, docs, id, j) && Last(FlatMap(items, docs), id) == Last(items(docs[j]), id)
    ensures Last(FlatMap(labels, docs), id) == Some(Label(docs[j].scope))
  {
    hide Last, Label;
    var n := |docs| - 1;
    if docs == [] { NothingLast<V>(id); }
    LastOfConcat(FlatMap(items, docs[..n]), items(docs[n]), id);
    LastOfConcat(FlatMap(labels, docs[..n]), labels(docs[n]), id);
    LabelledAlike(items(docs[n]), Label(docs[n].scope), id);
    if Last(items(docs[n]), id).Some? {
      j := n;
    } else {
      j := ItemAndLabelTogether(items, labels, docs[..n], id);
    }
  }

  lemma NothingLast<V>(id: string)
    ensures Last<string, V>([], id) == None
  {
  }

  /** In a chain ordered broadest first, the folded measure `id` is the one of the last document that
      declares it, and the provenance label names that very document. */
  lemma MeasureFromLabelledDoc(docs: seq<Profile>, id: string) returns (j: nat)
    requires SortedBy(RankLe, docs) && Get(FoldedMeasures(docs), id).Some?
    ensures LastToDeclare(MeasureItems, docs, id, j)
    ensures Get(FoldedMeasures(docs), id) == Last(MeasureItems(docs[j]), id)
    ensures Get(LabelsFor(docs).measures, id) == Some(Label(docs[j].scope))
    ensures var s := docs[j].scope; Get(LabelsFor(docs).measures, id) == Some(s.process + "/" + s.model + "/" + s.eqpId)
  {
    hide Last, Label;
    SortKeepsSorted(RankLe, docs);
    GetOfPutAll(FlatMap(MeasureItems, docs), id);
    GetOfPutAll(FlatMap(MeasureLabels, docs), id);
    j := ItemAndLabelTogether(MeasureItems, MeasureLabels, docs, id);
    LabelIs(docs[j].scope);
  }

  /** The same for channels. */
  lemma ChannelFromLabelledDoc(docs: seq<Profile>, name: string) returns (j: nat)
    requires SortedBy(RankLe, docs) && Get(FoldedNotify(docs), name).Some?
    ensures LastToDeclare(NotifyItems, docs, name, j)
    ensures Get(FoldedNotify(docs), name) == Last(NotifyItems(docs[j]), name)
    ensures Get(LabelsFor(docs).notify, name) == Some(Label(docs[j].scope))
    ensures var s := docs[j].scope; Get(LabelsFor(docs).notify, name) == Some(s.process + "/" + s.model + "/" + s.eqpId)
  {
    hide Last, Label;
    SortKeepsSorted(RankLe, docs);
    GetOfPutAll(FlatMap(NotifyItems, docs), name);
    GetOfPutAll(FlatMap(ChannelLabels, docs), name);
    j := ItemAndLabelTogether(NotifyItems, ChannelLabels, docs, name);
    LabelIs(docs[j].scope);
  }

  lemma DeclaresIff(p: Profile, id: string)
    ensures DeclaresRule(p, id) <==> Last(RuleItems(p), id).Some?
    ensures DeclaresRule(p, id) ==> IsDeclaration(p, id, Last(RuleItems(p), id).value)
  {
    var items := RuleItems(p);
    LastIff(items, id);
    if DeclaresRule(p, id) {
      var i :| 0 <= i < |p.rules| && p.rules[i].id == id;
      assert items[i] == (id, Bake(p, p.rules[i]));
    }
    if Last(items, id).Some? {
      var k :| 0 <= k < |items| && items[k] == (id, Last(items, id).value);
      assert p.rules[k].id == id && items[k].1 == Bake(p, p.rules[k]);
    }
  }

  /** Some document declares `id`, so the fold has it. */
  lemma {:induction false} DeclaredIsFolded(docs: seq<Profile>, id: string, j: nat)
    requires j < |docs| && DeclaresRule(docs[j], id)
    ensures Last(FlatMap(RuleItems, docs), id).Some?
  {
    hide Last, DeclaresRule;
    var n := |docs| - 1;
    LastOfConcat(FlatMap(RuleItems, docs[..n]), RuleItems(docs[n]), id);
    if j == n { DeclaresIff(docs[n], id); } else { DeclaredIsFolded(docs[..n], id, j); }
  }

  lemma DeclarationIs(p: Profile, id: string, r: Rule)
    requires IsDeclaration(p, id, r)
    ensures exists q :: q in p.rules && q.id == id && r == q.(enabled := p.enabled && q.enabled)
  {
    var i :| 0 <= i < |p.rules| && p.rules[i].id == id && r == Bake(p, p.rules[i]);
    assert p.rules[i] in p.rules;
  }

  /** In a chain ordered broadest first, the folded rule `id` is the declaration of the last document
      that declares it, on only if that document and that declaration are on, and the provenance
      label names that very document. */
  lemma RuleDecidedByLastDeclarer(docs: seq<Profile>, id: string, j: nat)
    requires SortedBy(RankLe, docs) && DecidesRule(docs, id, j)
    ensures var r := Get(FoldedRules(docs), id); r.Some? && IsDeclaration(docs[j], id, r.value)
    ensures var r := Get(FoldedRules(docs), id).value;
      exists q :: q in docs[j].rules && q.id == id && r == q.(enabled := docs[j].enabled && q.enabled)
    ensures Get(LabelsFor(docs).rules, id) == Some(Label(docs[j].scope))
    ensures var s := docs[j].scope; Get(LabelsFor(docs).rules, id) == Some(s.process + "/" + s.model + "/" + s.eqpId)
  {
    hide Last, Label, DeclaresRule, IsDeclaration;
    SortKeepsSorted(RankLe, docs);
    GetOfPutAll(FlatMap(RuleItems, docs), id);
    GetOfPutAll(FlatMap(RuleLabels, docs), id);
    DeclaredIsFolded(docs, id, j);
    var at := ItemAndLabelTogether(RuleItems, RuleLabels, docs, id);
    DeclaresIff(docs[at], id);
    DeclaresIff(docs[j], id);
    assert at == j;
    DeclarationIs(docs[j], id, Get(FoldedRules(docs), id).value);
    LabelIs(docs[j].scope);
  }

  /** Every rule of the fold is some document's declaration, baked; in particular a rule that is on
      comes from a document that is on and declares it on. */
  lemma ActiveRuleHasActiveSource(docs: seq<Profile>, target: Scope, blank: Governance, r: Rule)
    requires r in Fold(docs, target, blank).rules
    ensures exists p, q :: p in docs && q in p.rules && r == Bake(p, q)
  {
    var d := FoldedRules(docs);
    PutAllUnique([], FlatMap(RuleItems, docs));
    var i :| 0 <= i < |d| && d[i].1 == r;
    assert d[i] in d;
    RuleItemSource(docs, d[i]);
  }

  lemma {:induction false} RuleItemSource(docs: seq<Profile>, x: (string, Rule))
    requires x in FlatMap(RuleItems, docs)
    ensures exists p, q :: p in docs && q in p.rules && x.1 == Bake(p, q)
  {
    var n := |docs| - 1;
    if x in RuleItems(docs[n]) {
      var i :| 0 <= i < |RuleItems(docs[n])| && RuleItems(docs[n])[i] == x;
      assert docs[n].rules[i] in docs[n].rules;
    } else {
      RuleItemSource(docs[..n], x);
    }
  }
}
