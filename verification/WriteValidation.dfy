/** Writing an overlay: the profile checked beforehand is the profile that runs afterwards. */
module WriteValidation {
  import opened Sorting
  import opened Dicts
  import opened Profiles
  import opened Cascade
  import opened Repository

  function OtherThan(scope: Scope): Profile -> bool {
    (p: Profile) => p.scope != scope
  }

  /** The documents of other scopes. */
  function Others(chain: seq<Profile>, scope: Scope): seq<Profile> {
    Filter(OtherThan(scope), chain)
  }

  /** The chain `_validate_composed` folds: the stored parents with `overlay` put in its place. */
  function Composed(docs: seq<StoredDoc>, overlay: Profile): seq<Profile> {
    var s := overlay.scope;
    Sort(RankLe, Others(Chain(docs, s.process, s.model, s.eqpId), s) + [overlay])
  }

  /** A scope is on its own chain exactly when it is canonical. */
  lemma OnOwnChainIff(s: Scope)
    ensures s in Ancestors(s.process, s.model, s.eqpId) <==> Canonical(s)
  {
    if Canonical(s) {
      var a := Ancestors(s.process, s.model, s.eqpId);
      assert a[|a| - 1] == s;
    }
  }

  /** A document of any other scope is folded for no machine at all. */
  lemma NonCanonicalNeverFolded(s: Scope, process: string, model: string, eqpId: string)
    requires !Canonical(s)
    ensures s !in Ancestors(process, model, eqpId)
  {
  }

  // ---------------------------------------------------------------- governance plays no part

  /** A profile without its change-tracking record. */
  function Content(p: Profile): Profile {
    p.(governance := Governance(0, ""))
  }

  lemma {:induction false} ContentFoldsAlike(docs: seq<Profile>)
    ensures FoldedMeasures(Map(Content, docs)) == FoldedMeasures(docs)
    ensures FoldedRules(Map(Content, docs)) == FoldedRules(docs)
    ensures FoldedNotify(Map(Content, docs)) == FoldedNotify(docs)
  {
    ContentItems(MeasureItems, docs);
    forall p ensures RuleItems(Content(p)) == RuleItems(p) {}
    ContentItems(RuleItems, docs);
    ContentItems(NotifyItems, docs);
  }

  lemma {:induction false} ContentItems<V>(items: Profile -> seq<(string, V)>, docs: seq<Profile>)
    requires forall p :: items(Content(p)) == items(p)
    ensures FlatMap(items, Map(Content, docs)) == FlatMap(items, docs)
  {
    if docs != [] {
      var n := |docs| - 1;
      ContentItems(items, docs[..n]);
      assert Map(Content, docs)[..n] == Map(Content, docs[..n]);
    }
  }

  lemma SameContentSameFold(a: seq<Profile>, b: seq<Profile>, target: Scope, g0: Governance, g1: Governance)
    requires Map(Content, a) == Map(Content, b)
    ensures Content(Fold(a, target, g0)) == Content(Fold(b, target, g1))
  {
    ContentFoldsAlike(a);
    ContentFoldsAlike(b);
  }

  lemma SameContentSameFaults(p: Profile, q: Profile)
    requires Content(p) == Content(q)
    ensures WellReferenced(p) <==> WellReferenced(q)
  {
    assert MeasureItems(p) == MeasureItems(q);
    hide MeasureItems;
    forall e ensures Faulty(p, e) <==> Faulty(q, e) {
      SameMeasuresSameFault(p, q, e);
    }
  }

  lemma SameMeasuresSameFault(p: Profile, q: Profile, e: Problem)
    requires p.rules == q.rules && p.notify == q.notify && MeasureItems(p) == MeasureItems(q)
    ensures Faulty(p, e) <==> Faulty(q, e)
  {
    assert forall c, m :: RefersTo(p, c, m) <==> RefersTo(q, c, m);
  }

  // ---------------------------------------------------------------- the chain after the write

  /** `after` is `docs` with `overlay` written at its scope: replaced in place, or appended when new. */
  ghost predicate WrittenTo(docs: seq<StoredDoc>, overlay: Profile, g: Governance, after: seq<StoredDoc>) {
    exists front, back :: PlacedBetween(docs, overlay, g, after, front, back)
  }

  ghost predicate PlacedBetween(docs: seq<StoredDoc>, overlay: Profile, g: Governance, after: seq<StoredDoc>,
                                front: seq<StoredDoc>, back: seq<StoredDoc>) {
    && after == front + [Store(overlay, g)] + back
    && (docs == front + back || exists d: StoredDoc :: d.scope == overlay.scope && docs == front + [d] + back)
    && forall d :: d in front + back ==> d.scope != overlay.scope
  }

  lemma SelectedConcat(front: seq<StoredDoc>, back: seq<StoredDoc>, scopes: seq<Scope>)
    ensures Selected(front + back, scopes) == Selected(front, scopes) + Selected(back, scopes)
  {
    hide Load, Filter;
    FilterConcat(AmongScopes(scopes), front, back);
    MapConcat(Load, Filter(AmongScopes(scopes), front), Filter(AmongScopes(scopes), back));
  }

  lemma SelectedOne(d: StoredDoc, scopes: seq<Scope>)
    ensures Selected([d], scopes) == if d.scope in scopes then [Load(d)] else []
  {
    hide Load;
    FilterOne(AmongScopes(scopes), d);
    assert Map(Load, [d]) == [Load(d)];
  }

  lemma SelectedSplit(front: seq<StoredDoc>, d: StoredDoc, back: seq<StoredDoc>, scopes: seq<Scope>)
    ensures Selected(front + [d] + back, scopes)
         == Selected(front, scopes) + (if d.scope in scopes then [Load(d)] else []) + Selected(back, scopes)
  {
    SelectedOne(d, scopes);
    hide Load, Selected;
    SelectedConcat(front + [d], back, scopes);
    SelectedConcat(front, [d], scopes);
  }

  lemma SelectedOfOthers(docs: seq<StoredDoc>, scopes: seq<Scope>, scope: Scope)
    requires forall d :: d in docs ==> d.scope != scope
    ensures Others(Selected(docs, scopes), scope) == Selected(docs, scopes)
  {
    forall p | p in Selected(docs, scopes) ensures OtherThan(scope)(p) {
      var i := SelectedSource(docs, scopes, p);
      assert docs[i] in docs;
    }
    FilterKeepsAll(OtherThan(scope), Selected(docs, scopes));
  }

  lemma SelectedOthers(docs: seq<StoredDoc>, overlay: Profile, g: Governance, after: seq<StoredDoc>,
                       front: seq<StoredDoc>, back: seq<StoredDoc>, scopes: seq<Scope>)
    requires PlacedBetween(docs, overlay, g, after, front, back)
    ensures Others(Selected(docs, scopes), overlay.scope) == Selected(front, scopes) + Selected(back, scopes)
  {
    hide Selected, Filter, Others;
    SelectedOfOthers(front, scopes, overlay.scope);
    SelectedOfOthers(back, scopes, overlay.scope);
    if docs == front + back {
      SelectedConcat(front, back, scopes);
      OthersDropsMiddle(Selected(front, scopes), overlay, false, Selected(back, scopes), overlay.scope);
      assert Selected(front, scopes) + [] + Selected(back, scopes) == Selected(front, scopes) + Selected(back, scopes);
    } else {
      var d: StoredDoc :| d.scope == overlay.scope && docs == front + [d] + back;
      SelectedSplit(front, d, back, scopes);
      OthersDropsMiddle(Selected(front, scopes), Load(d), d.scope in scopes, Selected(back, scopes), overlay.scope);
    }
  }

  lemma OthersDropsMiddle(a: seq<Profile>, p: Profile, there: bool, b: seq<Profile>, scope: Scope)
    requires p.scope == scope && Others(a, scope) == a && Others(b, scope) == b
    ensures Others(a + (if there then [p] else []) + b, scope) == a + b
  {
    var keep := OtherThan(scope);
    var mid := if there then [p] else [];
    FilterOne(keep, p);
    assert Filter(keep, mid) == [];
    FilterConcat(keep, a + mid, b);
    FilterConcat(keep, a, mid);
    assert a + [] == a;
  }

  lemma SelectedAfterWrite(docs: seq<StoredDoc>, overlay: Profile, g: Governance, after: seq<StoredDoc>,
                           scopes: seq<Scope>)
    requires WrittenTo(docs, overlay, g, after) && overlay.scope in scopes
    ensures multiset(Selected(after, scopes))
         == multiset(Others(Selected(docs, scopes), overlay.scope) + [overlay.(governance := g)])
  {
    var front, back :| PlacedBetween(docs, overlay, g, after, front, back);
    SelectedOthers(docs, overlay, g, after, front, back, scopes);
    SelectedSplit(front, Store(overlay, g), back, scopes);
    LoadOfStore(overlay, g);
  }

  /** The same documents but for governance, before sorting. */
  lemma ContentAfterWrite(docs: seq<StoredDoc>, overlay: Profile, g: Governance, after: seq<StoredDoc>,
                          scopes: seq<Scope>)
    requires WrittenTo(docs, overlay, g, after) && overlay.scope in scopes
    ensures multiset(Map(Content, Selected(after, scopes)))
         == multiset(Map(Content, Others(Sort(RankLe, Selected(docs, scopes)), overlay.scope) + [overlay]))
  {
    hide WrittenTo;
    var stored := Selected(docs, scopes);
    var kept, checked := Others(stored, overlay.scope), Others(Sort(RankLe, stored), overlay.scope);
    var written := overlay.(governance := g);
    SelectedAfterWrite(docs, overlay, g, after, scopes);
    MapPermutes(Content, Selected(after, scopes), kept + [written]);
    RankLeIsPreorder();
    SortSorts(RankLe, stored);
    FilterPermutes(OtherThan(overlay.scope), Sort(RankLe, stored), stored);
    MapPermutes(Content, checked, kept);
    MapConcat(Content, kept, [written]);
    MapConcat(Content, checked, [overlay]);
    assert Map(Content, [written]) == Map(Content, [overlay]);
  }

  lemma ContentRankTellsApart(now: seq<Profile>)
    requires forall p, q :: p in now && q in now && RankLe(p, q) && RankLe(q, p) ==> p == q
    ensures forall p, q :: p in Map(Content, now) && q in Map(Content, now) && RankLe(p, q) && RankLe(q, p) ==> p == q
  {
    hide Content, Map, RankLe;
    var c := Map(Content, now);
    forall p, q | p in c && q in c && RankLe(p, q) && RankLe(q, p) ensures p == q {
      var i: nat :| i < |c| && c[i] == p;
      var j: nat :| j < |c| && c[j] == q;
      SameRankSameContent(now, i, j);
    }
  }

  lemma SameRankSameContent(now: seq<Profile>, i: nat, j: nat)
    requires forall p, q :: p in now && q in now && RankLe(p, q) && RankLe(q, p) ==> p == q
    requires i < |now| && j < |now|
    requires RankLe(Content(now[i]), Content(now[j])) && RankLe(Content(now[j]), Content(now[i]))
    ensures Content(now[i]) == Content(now[j])
  {
    hide Rank;
    assert now[i] in now && now[j] in now;
    assert RankLe(now[i], now[j]) && RankLe(now[j], now[i]);
  }

  /** But for governance, the chain collected after the write is the chain validated before it. */
  lemma ChainAfterWrite(docs: seq<StoredDoc>, overlay: Profile, g: Governance, after: seq<StoredDoc>)
    requires WrittenTo(docs, overlay, g, after) && UniqueScopes(after) && Canonical(overlay.scope)
    ensures var s := overlay.scope;
      Map(Content, Chain(after, s.process, s.model, s.eqpId)) == Map(Content, Composed(docs, overlay))
  {
    hide Ancestors, WrittenTo, UniqueScopes;
    var s := overlay.scope;
    RankTellsApart(after, s.process, s.model, s.eqpId);
    var scopes := Ancestors(s.process, s.model, s.eqpId);
    OnOwnChainIff(s);
    var now := Selected(after, scopes);
    var checked := Others(Sort(RankLe, Selected(docs, scopes)), s) + [overlay];
    ContentAfterWrite(docs, overlay, g, after, scopes);
    ContentRankTellsApart(now);
    RankLeIsPreorder();
    SortForgetsOrder(RankLe, Map(Content, now), Map(Content, checked));
    SortMap(RankLe, Content, now);
    SortMap(RankLe, Content, checked);
  }

  /** What was checked for `overlay` against `docs` is, but for governance, what its scope resolves to in
      `after`, and has a reference fault just when that has one. */
  ghost predicate CheckedIsWhatRuns(docs: seq<StoredDoc>, overlay: Profile, after: seq<StoredDoc>,
                                    b0: Governance, b1: Governance) {
    var s := overlay.scope;
    var runs := Resolve(after, s.process, s.model, s.eqpId, b1);
    && runs.Some?
    && Content(runs.value) == Content(Fold(Composed(docs, overlay), s, b0))
    && (WellReferenced(runs.value) <==> WellReferenced(Fold(Composed(docs, overlay), s, b0)))
  }

  /** With unique scopes and no write in between, the profile checked before an overlay is written is,
      but for governance, what its scope resolves to afterwards; so a write that passed the check
      leaves no reference error there. */
  lemma ValidationSeesWhatRuns(docs: seq<StoredDoc>, overlay: Profile, g: Governance, after: seq<StoredDoc>,
                               b0: Governance, b1: Governance)
    requires WrittenTo(docs, overlay, g, after) && UniqueScopes(after) && Canonical(overlay.scope)
    ensures CheckedIsWhatRuns(docs, overlay, after, b0, b1)
  {
    hide Chain, Composed;
    var s := overlay.scope;
    var chain, composed := Chain(after, s.process, s.model, s.eqpId), Composed(docs, overlay);
    ChainAfterWrite(docs, overlay, g, after);
    ComposedNotEmpty(docs, overlay);
    assert |chain| == |Map(Content, chain)| == |composed|;
    SameContentSameFold(chain, composed, s, b1, b0);
    SameContentSameFaults(Fold(chain, s, b1), Fold(composed, s, b0));
  }

  /** Every write at scope `s` runs as it was checked exactly when `s` is canonical. */
  lemma ValidationSeesWhatRunsIff(s: Scope, g: Governance, b0: Governance, b1: Governance)
    ensures Canonical(s) <==>
      forall docs, overlay: Profile, after ::
        overlay.scope == s && WrittenTo(docs, overlay, g, after) && UniqueScopes(after) ==>
          CheckedIsWhatRuns(docs, overlay, after, b0, b1)
  {
    hide WrittenTo, UniqueScopes, Resolve, Composed, Fold, WellReferenced;
    if Canonical(s) {
      forall docs, overlay: Profile, after
        | overlay.scope == s && WrittenTo(docs, overlay, g, after) && UniqueScopes(after)
        ensures CheckedIsWhatRuns(docs, overlay, after, b0, b1)
      {
        ValidationSeesWhatRuns(docs, overlay, g, after, b0, b1);
      }
    } else {
      var overlay := Profile(s, true, g, [], [], []);
      WrittenButNeverRuns(overlay, g, b1);
    }
  }

  /** In the empty store, an overlay written at a scope that is not canonical resolves to nothing there. */
  lemma WrittenButNeverRuns(overlay: Profile, g: Governance, blank: Governance)
    requires !Canonical(overlay.scope)
    ensures WrittenTo([], overlay, g, [Store(overlay, g)]) && UniqueScopes([Store(overlay, g)])
    ensures var s := overlay.scope; Resolve([Store(overlay, g)], s.process, s.model, s.eqpId, blank).None?
  {
    var s := overlay.scope;
    var scopes := Ancestors(s.process, s.model, s.eqpId);
    assert [] + [Store(overlay, g)] == [Store(overlay, g)];
    AppendedIsWritten([], overlay, g);
    OnOwnChainIff(s);
    hide Ancestors, WrittenTo, Selected;
    SelectedOne(Store(overlay, g), scopes);
    assert Chain([Store(overlay, g)], s.process, s.model, s.eqpId) == Sort(RankLe, []);
  }

  lemma ComposedNotEmpty(docs: seq<StoredDoc>, overlay: Profile)
    ensures Composed(docs, overlay) != []
  {
    var s := overlay.scope;
    RankLeIsPreorder();
    SortSorts(RankLe, Others(Chain(docs, s.process, s.model, s.eqpId), s) + [overlay]);
  }

  // ---------------------------------------------------------------- the write itself

  method ValidateComposed(repo: ProfileRepository, overlay: Profile, blank: Governance) returns (errors: seq<Problem>)
    ensures forall e :: e in errors <==> Faulty(Fold(Composed(repo.docs, overlay), overlay.scope, blank), e)
  {
    var docs := repo.CollectScopeDocs(overlay.scope.process, overlay.scope.model, overlay.scope.eqpId);
    var composed := Sort(RankLe, Others(docs, overlay.scope) + [overlay]);
    var effective := FoldProfiles(composed, overlay.scope, blank);
    errors := ValidateEffective(effective);
  }

  lemma ReplacedIsWritten(docs: seq<StoredDoc>, overlay: Profile, g: Governance, i: nat)
    requires UniqueScopes(docs) && i < |docs| && docs[i].scope == overlay.scope
    ensures WrittenTo(docs, overlay, g, docs[i := Store(overlay, g)])
  {
    var front, back := docs[..i], docs[i + 1..];
    assert docs == front + [docs[i]] + back;
    assert docs[i := Store(overlay, g)] == front + [Store(overlay, g)] + back;
    assert PlacedBetween(docs, overlay, g, docs[i := Store(overlay, g)], front, back);
  }

  lemma AppendedIsWritten(docs: seq<StoredDoc>, overlay: Profile, g: Governance)
    requires IndexOf(docs, overlay.scope) == |docs|
    ensures WrittenTo(docs, overlay, g, docs + [Store(overlay, g)])
  {
    assert docs == docs + [];
    assert PlacedBetween(docs, overlay, g, docs + [Store(overlay, g)], docs, []);
  }

  /** `_commit`: check, then the version-locked replace. A canonical overlay that is accepted
      resolves without reference errors; anything else changes nothing. */
  method Commit(repo: ProfileRepository, overlay: Profile, expected: int, blank: Governance) returns (r: WriteResult)
    requires UniqueScopes(repo.docs)
    modifies repo
    ensures UniqueScopes(repo.docs)
    ensures !r.Written? ==> repo.docs == old(repo.docs)
    ensures r.Invalid? <==> !WellReferenced(Fold(Composed(old(repo.docs), overlay), overlay.scope, blank))
    ensures var was := old(repo.docs); var i := IndexOf(was, overlay.scope); !r.Invalid? ==>
      if i == |was| then r == NotFound
      else if was[i].governance.version != expected then r == VersionConflict
      else r == Written(expected + 1) && repo.docs == was[i := Store(overlay, Governance(expected + 1, "api"))]
    ensures r.Written? ==> WrittenTo(old(repo.docs), overlay, Governance(expected + 1, "api"), repo.docs)
    ensures r.Written? && Canonical(overlay.scope) ==>
      var s := overlay.scope; var runs := Resolve(repo.docs, s.process, s.model, s.eqpId, blank);
      runs.Some? && WellReferenced(runs.value)
  {
    var errors := ValidateComposed(repo, overlay, blank);
    if errors != [] {
      assert errors[0] in errors;
      return Invalid(errors);
    }
    var i := IndexOf(repo.docs, overlay.scope);
    if i < |repo.docs| { ReplacedIsWritten(repo.docs, overlay, Governance(expected + 1, "api"), i); }
    r := repo.ReplaceWithVersion(overlay, expected);
    if r.Written? && Canonical(overlay.scope) {
      ValidationSeesWhatRuns(old(repo.docs), overlay, Governance(expected + 1, "api"), repo.docs, blank, blank);
    }
  }

  /** `create_overlay`: the same check before an insert. */
  method CreateOverlay(repo: ProfileRepository, overlay: Profile, blank: Governance) returns (r: WriteResult)
    requires UniqueScopes(repo.docs)
    modifies repo
    ensures UniqueScopes(repo.docs)
    ensures !r.Written? ==> repo.docs == old(repo.docs)
    ensures r.Invalid? <==> !WellReferenced(Fold(Composed(old(repo.docs), overlay), overlay.scope, blank))
    ensures var was := old(repo.docs); !r.Invalid? ==>
      if IndexOf(was, overlay.scope) < |was| then r == AlreadyExists
      else r == Written(overlay.governance.version) && repo.docs == was + [Store(overlay, overlay.governance)]
    ensures r.Written? ==> WrittenTo(old(repo.docs), overlay, overlay.governance, repo.docs)
    ensures r.Written? && Canonical(overlay.scope) ==>
      var s := overlay.scope; var runs := Resolve(repo.docs, s.process, s.model, s.eqpId, blank);
      runs.Some? && WellReferenced(runs.value)
  {
    var errors := ValidateComposed(repo, overlay, blank);
    if errors != [] {
      assert errors[0] in errors;
      return Invalid(errors);
    }
    if IndexOf(repo.docs, overlay.scope) == |repo.docs| {
      AppendedIsWritten(repo.docs, overlay, overlay.governance);
    }
    r := repo.Create(overlay);
    if r.Written? && Canonical(overlay.scope) {
      ValidationSeesWhatRuns(old(repo.docs), overlay, overlay.governance, repo.docs, blank, blank);
    }
  }
}
