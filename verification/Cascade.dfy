/** The profile collection: which scope documents reach a machine, the job cadence read off the
    same documents by a cheaper query, and what makes a folded profile faulty. */
module Cascade {
  import opened Wrappers
  import opened Sorting
  import opened Dicts
  import opened FactCatalog
  import opened Profiles

  // ---------------------------------------------------------------- stored documents

  /** Older documents lack the `enabled` fields; `body.enabled` plays no part in storage. */
  datatype StoredRule = StoredRule(body: Rule, enabled: Option<bool>)

  datatype StoredDoc = StoredDoc(
    scope: Scope, enabled: Option<bool>, governance: Governance,
    measures: seq<Measure>, rules: seq<StoredRule>, notify: Dict<string, Channel>)

  /** Absent means on. */
  predicate On(flag: Option<bool>) {
    flag != Some(false)
  }

  function LoadRule(r: StoredRule): Rule {
    r.body.(enabled := On(r.enabled))
  }

  function Load(d: StoredDoc): Profile {
    Profile(d.scope, On(d.enabled), d.governance, d.measures, Map(LoadRule, d.rules), d.notify)
  }

  function StoreRule(r: Rule): StoredRule {
    StoredRule(r, Some(r.enabled))
  }

  function Store(p: Profile, governance: Governance): StoredDoc {
    StoredDoc(p.scope, Some(p.enabled), governance, p.measures, Map(StoreRule, p.rules), p.notify)
  }

  /** What is written is what is read back, but for the governance record. */
  lemma LoadOfStore(p: Profile, g: Governance)
    ensures Load(Store(p, g)) == p.(governance := g)
  {
    assert Load(Store(p, g)).rules == p.rules;
  }

  /** The unique index on the scope triple. */
  ghost predicate UniqueScopes(docs: seq<StoredDoc>) {
    forall i, j :: 0 <= i < j < |docs| ==> docs[i].scope != docs[j].scope
  }

  // ---------------------------------------------------------------- the chain that reaches a machine

  /** The ancestor triples of a machine, broadest first. */
  function Ancestors(process: string, model: string, eqpId: string): (r: seq<Scope>) {
    var all := [Scope("*", "*", "*"), Scope(process, "*", "*"), Scope(process, model, "*"),
                Scope(process, model, eqpId)];
    if process == "*" then all[..1] else if model == "*" then all[..2] else if eqpId == "*" then all[..3] else all
  }

  method CascadeTriples(process: string, model: string, eqpId: string) returns (deduped: seq<Scope>)
    ensures deduped == Ancestors(process, model, eqpId)
  {
    var triples := [Scope("*", "*", "*")];
    if process != "*" {
      triples := triples + [Scope(process, "*", "*")];
      if model != "*" {
        triples := triples + [Scope(process, model, "*")];
        if eqpId != "*" {
          triples := triples + [Scope(process, model, eqpId)];
        }
      }
    }
    assert triples == Ancestors(process, model, eqpId);
    AncestorsRanked(process, model, eqpId);
    deduped := [];
    for i := 0 to |triples|
      invariant deduped == triples[..i]
    {
      assert triples[i] !in deduped;
      if triples[i] !in deduped {
        deduped := deduped + [triples[i]];
      }
    }
  }

  /** One ancestor per rank, so none occurs twice and the rank tells them apart. */
  lemma AncestorsRanked(process: string, model: string, eqpId: string)
    ensures var a := Ancestors(process, model, eqpId);
      |a| <= 4 && forall i :: 0 <= i < |a| ==> Rank(a[i]) == i
  {
  }

  /** A scope a cascade can reach: nothing specific below a wildcard. */
  predicate Canonical(s: Scope) {
    (s.process == "*" ==> s.model == "*") && (s.model == "*" ==> s.eqpId == "*")
  }

  /** `s` says nothing of the machine, or what is true of it, field by field. */
  predicate Covers(s: Scope, process: string, model: string, eqpId: string) {
    (s.process == "*" || s.process == process) && (s.model == "*" || s.model == model)
    && (s.eqpId == "*" || s.eqpId == eqpId)
  }

  /** `s` is another scope than `t`, and says less: each of its fields is a wildcard or the same. */
  ghost predicate Broader(s: Scope, t: Scope) {
    s != t && Covers(s, t.process, t.model, t.eqpId)
  }

  lemma CoveringIsAncestor(process: string, model: string, eqpId: string, s: Scope)
    requires Canonical(s) && Covers(s, process, model, eqpId)
    ensures s in Ancestors(process, model, eqpId)
  {
    assert Rank(s) < |Ancestors(process, model, eqpId)| && Ancestors(process, model, eqpId)[Rank(s)] == s;
  }

  lemma AncestorCovers(process: string, model: string, eqpId: string, k: nat)
    requires k < |Ancestors(process, model, eqpId)|
    ensures var s := Ancestors(process, model, eqpId)[k]; Canonical(s) && Covers(s, process, model, eqpId)
  {
  }

  lemma AncestorsNarrow(process: string, model: string, eqpId: string, i: nat, j: nat)
    requires i < j < |Ancestors(process, model, eqpId)|
    ensures Broader(Ancestors(process, model, eqpId)[i], Ancestors(process, model, eqpId)[j])
  {
  }

  /** A machine's ancestors are the canonical scopes that cover it, the broader ones first. */
  lemma AncestorsAre(process: string, model: string, eqpId: string)
    ensures var a := Ancestors(process, model, eqpId);
      && (forall s :: s in a <==> Canonical(s) && Covers(s, process, model, eqpId))
      && forall i, j :: 0 <= i < j < |a| ==> Broader(a[i], a[j])
  {
    hide *;
    var a := Ancestors(process, model, eqpId);
    forall s ensures s in a <==> Canonical(s) && Covers(s, process, model, eqpId) {
      if Canonical(s) && Covers(s, process, model, eqpId) { CoveringIsAncestor(process, model, eqpId, s); }
      if k :| 0 <= k < |a| && a[k] == s { AncestorCovers(process, model, eqpId, k); }
    }
    forall i, j | 0 <= i < j < |a| ensures Broader(a[i], a[j]) { AncestorsNarrow(process, model, eqpId, i, j); }
  }

  function AmongScopes(scopes: seq<Scope>): StoredDoc -> bool {
    (d: StoredDoc) => d.scope in scopes
  }

  /** The documents whose scope is one of `scopes`, as the query returns them. */
  function Selected(docs: seq<StoredDoc>, scopes: seq<Scope>): seq<Profile> {
    Map(Load, Filter(AmongScopes(scopes), docs))
  }

  /** `collect_scope_docs` */
  function Chain(docs: seq<StoredDoc>, process: string, model: string, eqpId: string): seq<Profile> {
    Sort(RankLe, Selected(docs, Ancestors(process, model, eqpId)))
  }

  /** `resolve_profile`, folded afresh. */
  function Resolve(docs: seq<StoredDoc>, process: string, model: string, eqpId: string, blank: Governance)
    : Option<Profile>
  {
    var chain := Chain(docs, process, model, eqpId);
    if chain == [] then None else Some(Fold(chain, Scope(process, model, eqpId), blank))
  }

  lemma SelectedSource(docs: seq<StoredDoc>, scopes: seq<Scope>, p: Profile) returns (i: nat)
    requires p in Selected(docs, scopes)
    ensures i < |docs| && docs[i].scope in scopes && p == Load(docs[i])
  {
    hide Load;
    var kept := Filter(AmongScopes(scopes), docs);
    FilterMembers(AmongScopes(scopes), docs);
    var k :| 0 <= k < |Selected(docs, scopes)| && Selected(docs, scopes)[k] == p;
    assert kept[k] in kept && p == Load(kept[k]);
    i :| 0 <= i < |docs| && docs[i] == kept[k];
  }

  lemma SelectedForgetsOrder(a: seq<StoredDoc>, b: seq<StoredDoc>, scopes: seq<Scope>)
    requires multiset(a) == multiset(b)
    ensures multiset(Selected(a, scopes)) == multiset(Selected(b, scopes))
  {
    FilterPermutes(AmongScopes(scopes), a, b);
    MapPermutes(Load, Filter(AmongScopes(scopes), a), Filter(AmongScopes(scopes), b));
  }

  /** On the documents that reach one machine the rank is as good as identity. */
  lemma RankTellsApart(docs: seq<StoredDoc>, process: string, model: string, eqpId: string)
    requires UniqueScopes(docs)
    ensures var s := Selected(docs, Ancestors(process, model, eqpId));
      forall p, q :: p in s && q in s && RankLe(p, q) && RankLe(q, p) ==> p == q
  {
    var scopes := Ancestors(process, model, eqpId);
    var s := Selected(docs, scopes);
    AncestorsRanked(process, model, eqpId);
    forall p, q | p in s && q in s && RankLe(p, q) && RankLe(q, p) ensures p == q {
      var i := SelectedSource(docs, scopes, p);
      var j := SelectedSource(docs, scopes, q);
      assert docs[i].scope == docs[j].scope;
    }
  }

  /** The chain does not depend on the order in which Mongo returns the documents. */
  lemma ChainForgetsOrder(a: seq<StoredDoc>, b: seq<StoredDoc>, process: string, model: string, eqpId: string)
    requires UniqueScopes(a) && multiset(a) == multiset(b)
    ensures Chain(a, process, model, eqpId) == Chain(b, process, model, eqpId)
  {
    var scopes := Ancestors(process, model, eqpId);
    SelectedForgetsOrder(a, b, scopes);
    RankTellsApart(a, process, model, eqpId);
    RankLeIsPreorder();
    SortForgetsOrder(RankLe, Selected(a, scopes), Selected(b, scopes));
  }

  // ---------------------------------------------------------------- overlays override their parents

  /** `d` is a stored document that reaches the machine. */
  ghost predicate Reaches(docs: seq<StoredDoc>, process: string, model: string, eqpId: string, d: StoredDoc) {
    d in docs && Canonical(d.scope) && Covers(d.scope, process, model, eqpId)
  }

  /** The chain has the documents that reach the machine, and no others. */
  lemma ChainMembers(docs: seq<StoredDoc>, process: string, model: string, eqpId: string)
    ensures forall p :: p in Chain(docs, process, model, eqpId) <==>
      exists d :: Reaches(docs, process, model, eqpId, d) && p == Load(d)
  {
    hide Load, Ancestors, Canonical, Covers;
    var scopes := Ancestors(process, model, eqpId);
    AncestorsAre(process, model, eqpId);
    RankLeIsPreorder();
    forall p ensures p in Chain(docs, process, model, eqpId) <==>
      exists d :: Reaches(docs, process, model, eqpId, d) && p == Load(d)
    {
      SortMembers(RankLe, Selected(docs, scopes), p);
      if p in Selected(docs, scopes) {
        var i := SelectedSource(docs, scopes, p);
        assert Reaches(docs, process, model, eqpId, docs[i]);
      }
      if d :| Reaches(docs, process, model, eqpId, d) && p == Load(d) { SelectedHas(docs, scopes, d); }
    }
  }

  lemma SelectedHas(docs: seq<StoredDoc>, scopes: seq<Scope>, d: StoredDoc)
    requires d in docs && d.scope in scopes
    ensures Load(d) in Selected(docs, scopes)
  {
    hide Load;
    var kept := Filter(AmongScopes(scopes), docs);
    FilterMembers(AmongScopes(scopes), docs);
    assert d in kept;
    var k :| 0 <= k < |kept| && kept[k] == d;
    assert Selected(docs, scopes)[k] == Load(d);
  }

  lemma {:induction false} SelectedDiffer(docs: seq<StoredDoc>, scopes: seq<Scope>)
    requires UniqueScopes(docs)
    ensures var s := Selected(docs, scopes); forall i, j :: 0 <= i < j < |s| ==> s[i].scope != s[j].scope
  {
    hide Load;
    if docs != [] {
      SelectedDiffer(docs[1..], scopes);
      var rest := Selected(docs[1..], scopes);
      forall j | 0 <= j < |rest| ensures rest[j].scope != docs[0].scope {
        var i := SelectedSource(docs[1..], scopes, rest[j]);
        LoadKeepsScope(docs[1..][i]);
      }
      LoadKeepsScope(docs[0]);
      assert Selected(docs, scopes) == rest || Selected(docs, scopes) == [Load(docs[0])] + rest;
    }
  }

  lemma ChainDiffers(docs: seq<StoredDoc>, process: string, model: string, eqpId: string)
    requires UniqueScopes(docs)
    ensures NoDups(Chain(docs, process, model, eqpId))
  {
    hide Ancestors, Filter, Load;
    var s := Selected(docs, Ancestors(process, model, eqpId));
    SelectedDiffer(docs, Ancestors(process, model, eqpId));
    RankLeIsPreorder();
    SortSorts(RankLe, s);
    NoDupsPermutes(s, Chain(docs, process, model, eqpId));
  }

  /** The chain runs from the broadest document to the narrowest. */
  lemma ChainNarrows(docs: seq<StoredDoc>, process: string, model: string, eqpId: string, i: nat, j: nat)
    requires UniqueScopes(docs) && i < j < |Chain(docs, process, model, eqpId)|
    ensures var chain := Chain(docs, process, model, eqpId); Broader(chain[i].scope, chain[j].scope)
  {
    hide Ancestors, Filter, Selected, UniqueScopes, Rank, Broader;
    var scopes := Ancestors(process, model, eqpId);
    var chain := Chain(docs, process, model, eqpId);
    AncestorsRanked(process, model, eqpId);
    AncestorsAre(process, model, eqpId);
    RankTellsApart(docs, process, model, eqpId);
    ChainDiffers(docs, process, model, eqpId);
    RankLeIsPreorder();
    SortSorts(RankLe, Selected(docs, scopes));
    var a := ChainPosition(docs, process, model, eqpId, i);
    var b := ChainPosition(docs, process, model, eqpId, j);
  }

  lemma ChainNarrowsAll(docs: seq<StoredDoc>, process: string, model: string, eqpId: string)
    ensures var chain := Chain(docs, process, model, eqpId);
      UniqueScopes(docs) ==> forall i, j :: 0 <= i < j < |chain| ==> Broader(chain[i].scope, chain[j].scope)
  {
    hide Chain, Broader;
    var chain := Chain(docs, process, model, eqpId);
    if UniqueScopes(docs) {
      forall i: nat, j: nat | i < j < |chain| ensures Broader(chain[i].scope, chain[j].scope) {
        ChainNarrows(docs, process, model, eqpId, i, j);
      }
    }
  }

  lemma ChainPosition(docs: seq<StoredDoc>, process: string, model: string, eqpId: string, i: nat) returns (a: nat)
    requires i < |Chain(docs, process, model, eqpId)|
    ensures var scopes := Ancestors(process, model, eqpId); var chain := Chain(docs, process, model, eqpId);
      a < |scopes| && chain[i].scope == scopes[a] && chain[i] in Selected(docs, scopes)
  {
    hide Ancestors, Load;
    var scopes := Ancestors(process, model, eqpId);
    RankLeIsPreorder();
    var p := Chain(docs, process, model, eqpId)[i];
    SortMembers(RankLe, Selected(docs, scopes), p);
    assert p in Chain(docs, process, model, eqpId);
    var k := SelectedSource(docs, scopes, p);
    a :| 0 <= a < |scopes| && scopes[a] == docs[k].scope;
    assert p.scope == docs[k].scope by { LoadKeepsScope(docs[k]); }
  }

  lemma LoadKeepsScope(d: StoredDoc)
    ensures Load(d).scope == d.scope
  {
  }

  /** `p` is a document that reaches the machine, with a narrower scope than `s`. */
  ghost predicate IsNarrower(docs: seq<StoredDoc>, process: string, model: string, eqpId: string, s: Scope,
                             p: Profile) {
    exists e :: Reaches(docs, process, model, eqpId, e) && p == Load(e) && Broader(s, e.scope)
  }

  lemma ChainIndex(docs: seq<StoredDoc>, process: string, model: string, eqpId: string, d: StoredDoc)
    returns (j: nat)
    requires UniqueScopes(docs) && Reaches(docs, process, model, eqpId, d)
    ensures var chain := Chain(docs, process, model, eqpId);
      && j < |chain| && chain[j] == Load(d)
      && forall k :: j < k < |chain| ==> IsNarrower(docs, process, model, eqpId, d.scope, chain[k])
  {
    hide Load, Chain, Reaches, Broader, UniqueScopes, IsNarrower;
    var chain := Chain(docs, process, model, eqpId);
    ChainMembers(docs, process, model, eqpId);
    assert Load(d) in chain;
    j :| 0 <= j < |chain| && chain[j] == Load(d);
    forall k | j < k < |chain| ensures IsNarrower(docs, process, model, eqpId, d.scope, chain[k]) {
      LaterIsNarrower(docs, process, model, eqpId, d, j, k);
    }
  }

  lemma LaterIsNarrower(docs: seq<StoredDoc>, process: string, model: string, eqpId: string, d: StoredDoc,
                        j: nat, k: nat)
    requires UniqueScopes(docs) && j < k < |Chain(docs, process, model, eqpId)|
    requires Chain(docs, process, model, eqpId)[j] == Load(d)
    ensures IsNarrower(docs, process, model, eqpId, d.scope, Chain(docs, process, model, eqpId)[k])
  {
    hide Load, Chain, Reaches, Broader, UniqueScopes;
    var chain := Chain(docs, process, model, eqpId);
    ChainMembers(docs, process, model, eqpId);
    ChainNarrows(docs, process, model, eqpId, j, k);
    LoadKeepsScope(d);
    assert chain[k] in chain;
    var e :| Reaches(docs, process, model, eqpId, e) && chain[k] == Load(e);
    LoadKeepsScope(e);
  }

  /** No narrower document that reaches the machine has a rule `id`. */
  ghost predicate NoNarrowerRule(docs: seq<StoredDoc>, process: string, model: string, eqpId: string, s: Scope,
                                 id: string) {
    forall e, r :: Reaches(docs, process, model, eqpId, e) && Broader(s, e.scope) && r in e.rules ==> r.body.id != id
  }

  /** The rule a machine runs under an id is that of the narrowest document that has it, on only when that
      document and its rule are on, whatever broader documents say. */
  lemma NarrowestRuleWins(docs: seq<StoredDoc>, process: string, model: string, eqpId: string, blank: Governance,
                          d: StoredDoc, q: StoredRule)
    requires UniqueScopes(docs) && Reaches(docs, process, model, eqpId, d) && q in d.rules
    requires forall r :: r in d.rules && r.body.id == q.body.id ==> r == q
    requires NoNarrowerRule(docs, process, model, eqpId, d.scope, q.body.id)
    ensures Resolve(docs, process, model, eqpId, blank).Some?
    ensures forall r :: (r in Resolve(docs, process, model, eqpId, blank).value.rules && r.id == q.body.id)
                        <==> r == q.body.(enabled := On(d.enabled) && On(q.enabled))
  {
    hide Ancestors, Reaches, Broader, UniqueScopes;
    var id, chain := q.body.id, Chain(docs, process, model, eqpId);
    var j := ChainIndex(docs, process, model, eqpId, d);
    LoadDeclares(d, id);
    forall k | j < k < |chain| ensures !DeclaresRule(chain[k], id) {
      var e :| Reaches(docs, process, model, eqpId, e) && chain[k] == Load(e) && Broader(d.scope, e.scope);
      LoadDeclares(e, id);
    }
    hide Load, DeclaresRule, NoNarrowerRule;
    RankLeIsPreorder();
    SortSorts(RankLe, Selected(docs, Ancestors(process, model, eqpId)));
    RuleDecidedByLastDeclarer(chain, id, j);
    var v := Get(FoldedRules(chain), id).value;
    OwnRuleIs(d, q, v);
    FoldedRuleIs(chain, id, v);
  }

  lemma LoadDeclares(d: StoredDoc, id: string)
    ensures DeclaresRule(Load(d), id) <==> exists r :: r in d.rules && r.body.id == id
  {
    var p := Load(d);
    if i :| 0 <= i < |p.rules| && p.rules[i].id == id { assert d.rules[i] in d.rules; }
    if r :| r in d.rules && r.body.id == id {
      var i :| 0 <= i < |d.rules| && d.rules[i] == r;
      assert p.rules[i].id == id;
    }
  }

  lemma OwnRuleIs(d: StoredDoc, q: StoredRule, v: Rule)
    requires q in d.rules && forall r :: r in d.rules && r.body.id == q.body.id ==> r == q
    requires exists r :: r in Load(d).rules && r.id == q.body.id && v == r.(enabled := Load(d).enabled && r.enabled)
    ensures v == q.body.(enabled := On(d.enabled) && On(q.enabled))
  {
    var r :| r in Load(d).rules && r.id == q.body.id && v == r.(enabled := Load(d).enabled && r.enabled);
    var i :| 0 <= i < |d.rules| && r == LoadRule(d.rules[i]);
    assert d.rules[i] in d.rules;
  }

  lemma FoldedRuleIs(chain: seq<Profile>, id: string, v: Rule)
    requires Get(FoldedRules(chain), id) == Some(v)
    ensures forall r :: r in Values(FoldedRules(chain)) && r.id == id <==> r == v
  {
    var d := FoldedRules(chain);
    RuleKeysAreIds(chain);
    PutAllUnique([], FlatMap(RuleItems, chain));
    hide PutAll, FlatMap, Values;
    forall x | x in d ensures x.0 == RuleKey(x.1) { assert x in FlatMap(RuleItems, chain); }
    KeyedValues(d, RuleKey, id, v);
  }

  /** In a dictionary keyed by its values' ids, the value under an id is the only one that has it. */
  lemma KeyedValues<V>(d: Dict<string, V>, key: V -> string, id: string, v: V)
    requires UniqueKeys(d) && (forall x :: x in d ==> x.0 == key(x.1)) && Get(d, id) == Some(v)
    ensures forall r :: r in Values(d) && key(r) == id <==> r == v
  {
    GetIff(d, id);
    var i :| 0 <= i < |d| && d[i] == (id, v);
    forall r ensures r in Values(d) && key(r) == id <==> r == v {
      if r in Values(d) && key(r) == id {
        var j :| 0 <= j < |d| && Values(d)[j] == r;
        assert d[j] in d;
        assert j == i;
      }
      assert d[i] in d && Values(d)[i] == v;
    }
  }

  /** No narrower document that reaches the machine has an item `id`. */
  ghost predicate NoNarrowerItem<V>(items: Profile -> seq<(string, V)>, docs: seq<StoredDoc>, process: string,
                                    model: string, eqpId: string, s: Scope, id: string) {
    forall e :: Reaches(docs, process, model, eqpId, e) && Broader(s, e.scope) ==> !HasKey(items(Load(e)), id)
  }

  /** Of the items along the chain, the one of the narrowest document that has it is kept. */
  lemma NarrowestItemKept<V>(items: Profile -> seq<(string, V)>, docs: seq<StoredDoc>, process: string, model: string,
                             eqpId: string, d: StoredDoc, id: string, v: V)
    requires UniqueScopes(docs) && Reaches(docs, process, model, eqpId, d)
    requires (id, v) in items(Load(d)) && forall w :: (id, w) in items(Load(d)) ==> w == v
    requires NoNarrowerItem(items, docs, process, model, eqpId, d.scope, id)
    ensures Chain(docs, process, model, eqpId) != []
    ensures Get(PutAll([], FlatMap(items, Chain(docs, process, model, eqpId))), id) == Some(v)
  {
    hide Load, Chain, Reaches, Broader, UniqueScopes, Last, FlatMap;
    var chain := Chain(docs, process, model, eqpId);
    var j := ChainIndex(docs, process, model, eqpId, d);
    LastIff(items(Load(d)), id);
    LastHas(items(Load(d)), id, v);
    forall k | j < k < |chain| ensures Last(items(chain[k]), id).None? {
      var e :| Reaches(docs, process, model, eqpId, e) && chain[k] == Load(e) && Broader(d.scope, e.scope);
      LastIff(items(Load(e)), id);
    }
    LastDeclarerGives(items, chain, id, j);
    GetOfPutAll(FlatMap(items, chain), id);
  }

  lemma KeyOfMember<V>(items: seq<(string, V)>, id: string, v: V)
    requires (id, v) in items
    ensures HasKey(items, id)
  {
    var i :| 0 <= i < |items| && items[i] == (id, v);
  }

  lemma LastHas<V>(items: seq<(string, V)>, id: string, v: V)
    requires (id, v) in items && forall w :: (id, w) in items ==> w == v
    ensures Last(items, id) == Some(v)
  {
    LastIff(items, id);
    KeyOfMember(items, id, v);
  }

  /** The same for a measure: the machine runs the one of the narrowest document that has it. */
  lemma NarrowestMeasureWins(docs: seq<StoredDoc>, process: string, model: string, eqpId: string, blank: Governance,
                             d: StoredDoc, m: Measure)
    requires UniqueScopes(docs) && Reaches(docs, process, model, eqpId, d) && m in d.measures
    requires forall n :: n in d.measures && n.id == m.id ==> n == m
    requires forall e, n :: Reaches(docs, process, model, eqpId, e) && Broader(d.scope, e.scope) && n in e.measures ==>
      n.id != m.id
    ensures Resolve(docs, process, model, eqpId, blank).Some?
    ensures forall n :: (n in Resolve(docs, process, model, eqpId, blank).value.measures && n.id == m.id) <==> n == m
  {
    hide Chain, Reaches, Broader, UniqueScopes, FlatMap, PutAll;
    var chain := Chain(docs, process, model, eqpId);
    var i :| 0 <= i < |d.measures| && d.measures[i] == m;
    assert MeasureItems(Load(d))[i] == (m.id, m);
    NarrowestItemKept(MeasureItems, docs, process, model, eqpId, d, m.id, m);
    MeasureKeysAreIds(chain);
    PutAllUnique([], FlatMap(MeasureItems, chain));
    forall x | x in FoldedMeasures(chain) ensures x.0 == MeasureKey(x.1) { assert x in FlatMap(MeasureItems, chain); }
    KeyedValues(FoldedMeasures(chain), MeasureKey, m.id, m);
  }

  /** And for a channel. */
  lemma NarrowestChannelWins(docs: seq<StoredDoc>, process: string, model: string, eqpId: string, blank: Governance,
                             d: StoredDoc, name: string, ch: Channel)
    requires UniqueScopes(docs) && Reaches(docs, process, model, eqpId, d)
    requires (name, ch) in d.notify && forall c :: (name, c) in d.notify ==> c == ch
    requires forall e ::
      Reaches(docs, process, model, eqpId, e) && Broader(d.scope, e.scope) ==> !HasKey(e.notify, name)
    ensures Resolve(docs, process, model, eqpId, blank).Some?
    ensures Get(Resolve(docs, process, model, eqpId, blank).value.notify, name) == Some(ch)
  {
    hide Chain, Reaches, Broader, UniqueScopes, FlatMap, PutAll;
    NarrowestItemKept(NotifyItems, docs, process, model, eqpId, d, name, ch);
  }

  // ---------------------------------------------------------------- cadence

  /** A document the cadence query reads for `process`. */
  predicate InReach(d: StoredDoc, process: string) {
    (d.scope.process == process || d.scope.process == "*") && On(d.enabled)
  }

  /** A rule the cadence query counts for `process`. */
  ghost predicate Counts(docs: seq<StoredDoc>, process: string, d: StoredDoc, r: StoredRule) {
    d in docs && InReach(d, process) && r in d.rules && On(r.enabled)
  }

  ghost predicate IsIntervalOf(docs: seq<StoredDoc>, process: string, interval: int) {
    exists d, r :: Counts(docs, process, d, r) && r.body.interval == interval
  }

  /** An interval is counted when an enabled rule of an enabled document for the process, or for every process,
      has it; what is not said to be off is on. */
  lemma IntervalIs(docs: seq<StoredDoc>, process: string, interval: int)
    ensures IsIntervalOf(docs, process, interval) <==>
      exists d, r ::
        && d in docs && r in d.rules && (d.scope.process == process || d.scope.process == "*")
        && d.enabled != Some(false) && r.enabled != Some(false) && r.body.interval == interval
  {
    if d, r :| d in docs && r in d.rules && (d.scope.process == process || d.scope.process == "*")
               && d.enabled != Some(false) && r.enabled != Some(false) && r.body.interval == interval {
      assert Counts(docs, process, d, r);
    }
  }

  function DueAt(interval: int): Rule -> bool {
    (r: Rule) => r.interval == interval && r.enabled
  }

  /** The rules a tick of `interval` evaluates. */
  function Due(profile: Profile, interval: int): seq<Rule> {
    Filter(DueAt(interval), profile.rules)
  }

  lemma AncestorProcesses(process: string, model: string, eqpId: string, s: Scope)
    requires s in Ancestors(process, model, eqpId)
    ensures s.process == process || s.process == "*"
  {
  }

  /** A rule of a document on the chain, still on after its document's verdict, is counted. */
  lemma ChainRuleCounts(docs: seq<StoredDoc>, process: string, model: string, eqpId: string, p: Profile, q: Rule)
    requires p in Chain(docs, process, model, eqpId) && q in p.rules && Bake(p, q).enabled
    ensures IsIntervalOf(docs, process, q.interval)
  {
    hide Ancestors;
    var scopes := Ancestors(process, model, eqpId);
    RankLeIsPreorder();
    SortMembers(RankLe, Selected(docs, scopes), p);
    var i := SelectedSource(docs, scopes, p);
    AncestorProcesses(process, model, eqpId, docs[i].scope);
    var k :| 0 <= k < |p.rules| && p.rules[k] == q;
    var stored := docs[i].rules[k];
    assert q == LoadRule(stored);
    assert Counts(docs, process, docs[i], stored);
  }

  /** Rule `r` is on for machine `eqpId` of `process`. */
  ghost predicate ActiveFor(docs: seq<StoredDoc>, process: string, model: string, eqpId: string,
                            blank: Governance, r: Rule) {
    var f := Resolve(docs, process, model, eqpId, blank);
    f.Some? && r in f.value.rules && r.enabled
  }

  /** The cheap query never misses a rule some machine of the process has on: its interval is
      collected, the machine is not skipped, and the tick of that interval picks the rule. */
  lemma CadenceCoversActiveRules(docs: seq<StoredDoc>, process: string, model: string, eqpId: string,
                                 blank: Governance, r: Rule)
    ensures ActiveFor(docs, process, model, eqpId, blank, r) ==> IsIntervalOf(docs, process, r.interval)
    ensures ActiveFor(docs, process, model, eqpId, blank, r) ==>
      var f := Resolve(docs, process, model, eqpId, blank).value; f.enabled && r in Due(f, r.interval)
  {
    hide Chain, Ancestors;
    if ActiveFor(docs, process, model, eqpId, blank, r) {
      var chain := Chain(docs, process, model, eqpId);
      ActiveRuleHasActiveSource(chain, Scope(process, model, eqpId), blank, r);
      var p, q :| p in chain && q in p.rules && r == Bake(p, q);
      ChainRuleCounts(docs, process, model, eqpId, p, q);
      var f := Resolve(docs, process, model, eqpId, blank).value;
      var at :| 0 <= at < |f.rules| && f.rules[at] == r;
      FilterMembers(DueAt(r.interval), f.rules);
    }
  }

  /** Strictly ascending. */
  ghost predicate Ascending(s: seq<int>) {
    forall i, j :: 0 <= i < j < |s| ==> s[i] < s[j]
  }

  // ---------------------------------------------------------------- reference integrity

  datatype Problem =
    | MissingChannel(rule: nat)
    | MissingMeasure(rule: nat, cond: nat)
    | MissingFact(rule: nat, cond: nat)
    | OpNotAllowed(rule: nat, cond: nat)
    | IntervalExceedsWindow(rule: nat, measureId: string)
    | MixedProcs(rule: nat)

  function MeasureById(p: Profile, id: string): Option<Measure> {
    Last(MeasureItems(p), id)
  }

  lemma MeasureByIdIs(p: Profile, id: string)
    requires ValidProfile(p)
    ensures var m := MeasureById(p, id); m.Some? ==> m.value in p.measures && m.value.id == id
    ensures MeasureById(p, id).Some? <==> exists m :: m in p.measures && m.id == id
    ensures forall m :: m in p.measures && m.id == id ==> MeasureById(p, id) == Some(m)
  {
    hide ValidMeasure, ValidRule, Last;
    var items := MeasureItems(p);
    LastIff(items, id);
    if MeasureById(p, id).Some? {
      var k :| 0 <= k < |items| && items[k] == (id, MeasureById(p, id).value);
      assert p.measures[k] in p.measures;
    }
    forall m | m in p.measures && m.id == id ensures MeasureById(p, id) == Some(m) {
      var k :| 0 <= k < |p.measures| && p.measures[k] == m;
      assert items[k] == (id, m);
    }
  }

  function FactKinds(m: Measure): (r: seq<(string, FactType)>)
    ensures |r| == |m.facts| && forall i :: 0 <= i < |r| ==> r[i] == (Name(m.facts[i].kind), m.facts[i].kind)
  {
    seq(|m.facts|, i requires 0 <= i < |m.facts| => (Name(m.facts[i].kind), m.facts[i].kind))
  }

  /** The declared fact of `m` called `name`. */
  function FactByName(m: Measure, name: string): Option<FactType> {
    Last(FactKinds(m), name)
  }

  /** Condition `c` refers to measure `m` of `p`. */
  predicate RefersTo(p: Profile, c: Condition, m: Measure) {
    MeasureById(p, MeasureId(c.fact)) == Some(m)
  }

  /** `e` is a fault of `p`. */
  ghost predicate Faulty(p: Profile, e: Problem) {
    e.rule < |p.rules| &&
    var rule := p.rules[e.rule];
    match e
    case MissingChannel(_) => !HasKey(p.notify, rule.notify)
    case MissingMeasure(_, ci) => ci < |rule.conditions| && MeasureById(p, MeasureId(rule.conditions[ci].fact)).None?
    case MissingFact(_, ci) =>
      ci < |rule.conditions| && var c := rule.conditions[ci];
      exists m :: RefersTo(p, c, m) && FactByName(m, FactName(c.fact)).None?
    case OpNotAllowed(_, ci) =>
      ci < |rule.conditions| && var c := rule.conditions[ci];
      exists m :: RefersTo(p, c, m) && var t := FactByName(m, FactName(c.fact)); t.Some? && !OpAllowed(t.value, c.op)
    case IntervalExceedsWindow(_, id) =>
      exists c, m :: c in rule.conditions && MeasureId(c.fact) == id && RefersTo(p, c, m) && rule.interval > m.window
    case MixedProcs(_) =>
      exists c, d, m, n :: c in rule.conditions && d in rule.conditions
        && RefersTo(p, c, m) && RefersTo(p, d, n) && m.proc != n.proc
  }

  ghost predicate WellReferenced(p: Profile) {
    forall e :: !Faulty(p, e)
  }
}
