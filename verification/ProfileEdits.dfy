/** Item edits of one overlay: read, change, and replace if the version is still the expected one. */
module ProfileEdits {
  import opened Wrappers
  import opened Sorting
  import opened Dicts
  import opened Profiles
  import opened Cascade
  import opened Repository
  import opened WriteValidation

  // ---------------------------------------------------------------- what an edit does

  datatype Edit =
    | AddMeasure(measure: Measure)
    | UpdateMeasure(id: string, measure: Measure)
    | DeleteMeasure(id: string)
    | AddRule(rule: Rule)
    | UpdateRule(id: string, rule: Rule)
    | DeleteRule(id: string)
    | PatchNotify(name: string, channel: Channel)

  datatype Status = Changed | BadRequest | NoSuchItem | ItemExists

  function IndexBy<T>(id: T -> string, items: seq<T>, key: string): (i: nat)
    ensures i <= |items|
    ensures i < |items| ==> id(items[i]) == key
    ensures forall j :: 0 <= j < i ==> id(items[j]) != key
  {
    if items == [] || id(items[0]) == key then 0 else 1 + IndexBy(id, items[1..], key)
  }

  lemma {:induction false} IndexIs<T>(id: T -> string, items: seq<T>, key: string, i: nat)
    requires i <= |items| && (i < |items| ==> id(items[i]) == key)
    requires forall j :: 0 <= j < i ==> id(items[j]) != key
    ensures IndexBy(id, items, key) == i
  {
    if i > 0 { IndexIs(id, items[1..], key, i - 1); }
  }

  function OtherIds<T>(id: T -> string, key: string): T -> bool {
    (x: T) => id(x) != key
  }

  function Without<T>(id: T -> string, items: seq<T>, key: string): seq<T> {
    Filter(OtherIds(id, key), items)
  }

  /** The three list edits, on a list of items with ids. */
  function Added<T>(id: T -> string, items: seq<T>, x: T): (Status, seq<T>) {
    if IndexBy(id, items, id(x)) < |items| then (ItemExists, items) else (Changed, items + [x])
  }

  function Updated<T>(id: T -> string, items: seq<T>, key: string, x: T): (Status, seq<T>) {
    var i := IndexBy(id, items, key);
    if id(x) != key then (BadRequest, items) else if i == |items| then (NoSuchItem, items) else (Changed, items[i := x])
  }

  function Deleted<T>(id: T -> string, items: seq<T>, key: string): (Status, seq<T>) {
    var kept := Without(id, items, key);
    if |kept| == |items| then (NoSuchItem, items) else (Changed, kept)
  }

  function WithMeasures(p: Profile, r: (Status, seq<Measure>)): (Status, Profile) {
    (r.0, p.(measures := r.1))
  }

  function WithRules(p: Profile, r: (Status, seq<Rule>)): (Status, Profile) {
    (r.0, p.(rules := r.1))
  }

  function Apply(e: Edit, p: Profile): (Status, Profile) {
    match e
    case AddMeasure(m) => WithMeasures(p, Added(MeasureKey, p.measures, m))
    case UpdateMeasure(id, m) => WithMeasures(p, Updated(MeasureKey, p.measures, id, m))
    case DeleteMeasure(id) => WithMeasures(p, Deleted(MeasureKey, p.measures, id))
    case AddRule(r) => WithRules(p, Added(RuleKey, p.rules, r))
    case UpdateRule(id, r) => WithRules(p, Updated(RuleKey, p.rules, id, r))
    case DeleteRule(id) => WithRules(p, Deleted(RuleKey, p.rules, id))
    case PatchNotify(name, ch) => (Changed, p.(notify := Put(p.notify, name, ch)))
  }

  /** A loaded overlay, edited in place by the item handlers. */
  class Overlay {
    const loaded: Profile
    var measures: seq<Measure>
    var rules: seq<Rule>
    var notify: Dict<string, Channel>

    constructor (loaded: Profile)
      ensures View() == loaded && this.loaded == loaded
    {
      this.loaded, measures, rules, notify := loaded, loaded.measures, loaded.rules, loaded.notify;
    }

    function View(): Profile
      reads this
    {
      loaded.(measures := measures, rules := rules, notify := notify)
    }

    method Edit(e: Edit) returns (status: Status)
      modifies this
      ensures (status, View()) == Apply(e, old(View()))
      ensures IdsDiffer(MeasureKey, old(measures)) && IdsDiffer(RuleKey, old(rules)) ==>
        Does(e, old(View()), status, View())
    {
      if IdsDiffer(MeasureKey, measures) && IdsDiffer(RuleKey, rules) { EditDoes(e, View()); }
      hide Added, Updated, Deleted, IdsDiffer, Does;
      match e {
        case AddMeasure(m) => status, measures := AddItem(MeasureKey, measures, m);
        case UpdateMeasure(id, m) => status, measures := UpdateItem(MeasureKey, measures, id, m);
        case DeleteMeasure(id) => status, measures := DeleteItem(MeasureKey, measures, id);
        case AddRule(r) => status, rules := AddItem(RuleKey, rules, r);
        case UpdateRule(id, r) => status, rules := UpdateItem(RuleKey, rules, id, r);
        case DeleteRule(id) => status, rules := DeleteItem(RuleKey, rules, id);
        case PatchNotify(name, ch) => status, notify := Changed, Put(notify, name, ch);
      }
    }
  }

  /** An update whose path and body disagree is refused before anything is loaded. */
  predicate Mismatched(e: Edit) {
    (e.UpdateMeasure? && e.measure.id != e.id) || (e.UpdateRule? && e.rule.id != e.id)
  }

  datatype EditResult = Refused(status: Status) | Committed(result: WriteResult)

  /** One item request from load to commit: the stored document changes exactly when the edit applies,
      the composed profile has no fault and the version is the expected one. */
  method EditItem(repo: ProfileRepository, scope: Scope, e: Edit, expected: int,
                  blank: Governance) returns (r: EditResult)
    requires UniqueScopes(repo.docs)
    modifies repo
    ensures UniqueScopes(repo.docs)
    ensures var was := old(repo.docs); var i := IndexOf(was, scope);
      if (e.UpdateMeasure? && e.measure.id != e.id) || (e.UpdateRule? && e.rule.id != e.id) then
        r == Refused(BadRequest) && repo.docs == was
      else if i == |was| then r == Committed(NotFound) && repo.docs == was
      else
        var (status, edited) := Apply(e, Load(was[i]));
        if !status.Changed? then r == Refused(status) && repo.docs == was
        else if !WellReferenced(Fold(Composed(was, edited), scope, blank)) then
          r.Committed? && r.result.Invalid? && repo.docs == was
        else if was[i].governance.version != expected then r == Committed(VersionConflict) && repo.docs == was
        else
          && r == Committed(Written(expected + 1))
          && repo.docs == was[i := Store(edited, Governance(expected + 1, "api"))]
  {
    hide Composed, Fold, Store, UniqueScopes, WrittenTo, Added, Updated, Deleted, WellReferenced, Resolve;
    if Mismatched(e) { return Refused(BadRequest); }
    var i := IndexOf(repo.docs, scope);
    if i == |repo.docs| { return Committed(NotFound); }
    var overlay := new Overlay(Load(repo.docs[i]));
    var status := overlay.Edit(e);
    if !status.Changed? { return Refused(status); }
    var edited := overlay.View();
    assert edited.scope == scope;
    var result := Commit(repo, edited, expected, blank);
    return Committed(result);
  }

  method Find<T>(id: T -> string, items: seq<T>, key: string) returns (i: nat)
    ensures i == IndexBy(id, items, key)
  {
    i := 0;
    while i < |items| && id(items[i]) != key
      invariant i <= |items| && forall j :: 0 <= j < i ==> id(items[j]) != key
    {
      i := i + 1;
    }
    IndexIs(id, items, key, i);
  }

  method AddItem<T>(id: T -> string, items: seq<T>, x: T) returns (status: Status, after: seq<T>)
    ensures (status, after) == Added(id, items, x)
  {
    var i := Find(id, items, id(x));
    if i < |items| { return ItemExists, items; }
    return Changed, items + [x];
  }

  method UpdateItem<T>(id: T -> string, items: seq<T>, key: string, x: T) returns (status: Status, after: seq<T>)
    ensures (status, after) == Updated(id, items, key, x)
  {
    if id(x) != key { return BadRequest, items; }
    var i := Find(id, items, key);
    if i == |items| { return NoSuchItem, items; }
    return Changed, items[i := x];
  }

  method DeleteItem<T>(id: T -> string, items: seq<T>, key: string) returns (status: Status, after: seq<T>)
    ensures (status, after) == Deleted(id, items, key)
  {
    var kept: seq<T> := [];
    for i := 0 to |items|
      invariant kept == Without(id, items[..i], key)
    {
      assert items[..i + 1] == items[..i] + [items[i]];
      FilterConcat(OtherIds(id, key), items[..i], [items[i]]);
      FilterOne(OtherIds(id, key), items[i]);
      if id(items[i]) != key { kept := kept + [items[i]]; }
    }
    assert items[..|items|] == items;
    if |kept| == |items| { return NoSuchItem, items; }
    return Changed, kept;
  }

  // ---------------------------------------------------------------- edits are exact and can be undone

  ghost predicate IdsDiffer<T>(id: T -> string, items: seq<T>) {
    forall i, j :: 0 <= i < j < |items| ==> id(items[i]) != id(items[j])
  }

  lemma WithoutAbsent<T>(id: T -> string, items: seq<T>, key: string)
    requires forall x :: x in items ==> id(x) != key
    ensures Without(id, items, key) == items
  {
    FilterKeepsAll(OtherIds(id, key), items);
  }

  /** Deleting what was just added restores the list, order included. */
  lemma AddThenDelete<T>(id: T -> string, items: seq<T>, x: T)
    requires Added(id, items, x).0.Changed?
    ensures Deleted(id, Added(id, items, x).1, id(x)) == (Changed, items)
  {
    WithoutAbsent(id, items, id(x));
    FilterConcat(OtherIds(id, id(x)), items, [x]);
    FilterOne(OtherIds(id, id(x)), x);
    assert items + [] == items;
  }

  /** Writing the old item back undoes an update. */
  lemma UpdateThenBack<T>(id: T -> string, items: seq<T>, key: string, x: T)
    requires Updated(id, items, key, x).0.Changed?
    ensures var was := items[IndexBy(id, items, key)];
      Updated(id, Updated(id, items, key, x).1, key, was) == (Changed, items)
  {
    var i := IndexBy(id, items, key);
    var after := items[i := x];
    IndexIs(id, after, key, i);
    assert after[i := items[i]] == items;
  }

  /** With unique ids, each edit finds its one item or fails, leaves the ids unique, and leaves every
      other item as it was. */
  lemma EditsAreExact<T>(id: T -> string, items: seq<T>, key: string, x: T)
    requires IdsDiffer(id, items)
    ensures Added(id, items, x).0 == if (exists y :: y in items && id(y) == id(x)) then ItemExists else Changed
    ensures Updated(id, items, key, x).0 ==
      if id(x) != key then BadRequest else if (exists y :: y in items && id(y) == key) then Changed else NoSuchItem
    ensures Deleted(id, items, key).0 == if (exists y :: y in items && id(y) == key) then Changed else NoSuchItem
    ensures IdsDiffer(id, Added(id, items, x).1) && IdsDiffer(id, Updated(id, items, key, x).1)
    ensures IdsDiffer(id, Deleted(id, items, key).1)
    ensures forall y :: y in Deleted(id, items, key).1 <==>
      y in items && (id(y) != key || Deleted(id, items, key).0.NoSuchItem?)
    ensures Updated(id, items, key, x).0.Changed? ==>
      forall y :: y in Updated(id, items, key, x).1 <==> y == x || (y in items && id(y) != key)
  {
    PresentIff(id, items, id(x));
    PresentIff(id, items, key);
    UpdatedMembers(id, items, key, x);
    DeletedMembers(id, items, key);
  }

  lemma PresentIff<T>(id: T -> string, items: seq<T>, key: string)
    ensures IndexBy(id, items, key) < |items| <==> exists y :: y in items && id(y) == key
  {
    var i := IndexBy(id, items, key);
    if i < |items| { assert items[i] in items; }
  }

  lemma UpdatedMembers<T>(id: T -> string, items: seq<T>, key: string, x: T)
    requires IdsDiffer(id, items)
    ensures IdsDiffer(id, Updated(id, items, key, x).1)
    ensures Updated(id, items, key, x).0.Changed? ==>
      forall y :: y in Updated(id, items, key, x).1 <==> y == x || (y in items && id(y) != key)
  {
    var i := IndexBy(id, items, key);
    if Updated(id, items, key, x).0.Changed? {
      var after := items[i := x];
      assert after[i] == x;
      forall y ensures y in after <==> y == x || (y in items && id(y) != key) {
        if y in items && id(y) != key {
          var j :| 0 <= j < |items| && items[j] == y;
          assert after[j] == y;
        }
      }
    }
  }

  lemma {:induction false} DeletedMembers<T>(id: T -> string, items: seq<T>, key: string)
    requires IdsDiffer(id, items)
    ensures Deleted(id, items, key).0 == if (exists y :: y in items && id(y) == key) then Changed else NoSuchItem
    ensures IdsDiffer(id, Deleted(id, items, key).1)
    ensures forall y :: y in Deleted(id, items, key).1 <==>
      y in items && (id(y) != key || Deleted(id, items, key).0.NoSuchItem?)
  {
    FilterMembers(OtherIds(id, key), items);
    WithoutKeepsIds(id, items, key);
    WithoutSize(id, items, key);
  }

  lemma {:induction false} WithoutSize<T>(id: T -> string, items: seq<T>, key: string)
    ensures |Without(id, items, key)| <= |items|
    ensures |Without(id, items, key)| == |items| <==> forall y :: y in items ==> id(y) != key
  {
    if items != [] {
      WithoutSize(id, items[1..], key);
      assert items == [items[0]] + items[1..];
    }
  }

  lemma {:induction false} KeptIsItem<T>(id: T -> string, items: seq<T>, key: string, j: nat)
    requires j < |Without(id, items, key)|
    ensures Without(id, items, key)[j] in items
  {
    if id(items[0]) == key {
      KeptIsItem(id, items[1..], key, j);
    } else if j > 0 {
      KeptIsItem(id, items[1..], key, j - 1);
    }
  }

  lemma {:induction false} WithoutKeepsIds<T>(id: T -> string, items: seq<T>, key: string)
    requires IdsDiffer(id, items)
    ensures IdsDiffer(id, Without(id, items, key))
  {
    if items != [] {
      WithoutKeepsIds(id, items[1..], key);
      var rest := Without(id, items[1..], key);
      forall j | 0 <= j < |rest| ensures id(rest[j]) != id(items[0]) {
        KeptIsItem(id, items[1..], key, j);
      }
      assert Without(id, items, key) == rest || Without(id, items, key) == [items[0]] + rest;
    }
  }

  // ---------------------------------------------------------------- what each request does

  /** `x` is put at the end, unless its id is taken. */
  ghost predicate Appends<T>(id: T -> string, was: seq<T>, x: T, status: Status, now: seq<T>) {
    if exists y :: y in was && id(y) == id(x) then status == ItemExists && now == was
    else status == Changed && now == was + [x]
  }

  /** `x` takes the place of the item with the id `key`, its own. */
  ghost predicate Replaces<T>(id: T -> string, was: seq<T>, key: string, x: T, status: Status, now: seq<T>) {
    if id(x) != key then status == BadRequest && now == was
    else if forall y :: y in was ==> id(y) != key then status == NoSuchItem && now == was
    else status == Changed && exists i :: 0 <= i < |was| && id(was[i]) == key && now == was[i := x]
  }

  /** The item with the id `key` is taken out, the others stay in order. */
  ghost predicate Removes<T>(id: T -> string, was: seq<T>, key: string, status: Status, now: seq<T>) {
    if forall y :: y in was ==> id(y) != key then status == NoSuchItem && now == was
    else status == Changed && exists i :: 0 <= i < |was| && id(was[i]) == key && now == was[..i] + was[i + 1..]
  }

  /** What each request does to the list it is about; everything else in the profile stays. */
  ghost predicate Does(e: Edit, p: Profile, status: Status, q: Profile) {
    match e
    case AddMeasure(m) => Appends(MeasureKey, p.measures, m, status, q.measures) && q == p.(measures := q.measures)
    case UpdateMeasure(id, m) =>
      Replaces(MeasureKey, p.measures, id, m, status, q.measures) && q == p.(measures := q.measures)
    case DeleteMeasure(id) => Removes(MeasureKey, p.measures, id, status, q.measures) && q == p.(measures := q.measures)
    case AddRule(r) => Appends(RuleKey, p.rules, r, status, q.rules) && q == p.(rules := q.rules)
    case UpdateRule(id, r) => Replaces(RuleKey, p.rules, id, r, status, q.rules) && q == p.(rules := q.rules)
    case DeleteRule(id) => Removes(RuleKey, p.rules, id, status, q.rules) && q == p.(rules := q.rules)
    case PatchNotify(name, ch) =>
      && status == Changed && q == p.(notify := q.notify) && Get(q.notify, name) == Some(ch)
      && forall other :: other != name ==> Get(q.notify, other) == Get(p.notify, other)
  }

  lemma AddedAppends<T>(id: T -> string, items: seq<T>, x: T)
    ensures Appends(id, items, x, Added(id, items, x).0, Added(id, items, x).1)
  {
    PresentIff(id, items, id(x));
  }

  lemma UpdatedReplaces<T>(id: T -> string, items: seq<T>, key: string, x: T)
    ensures Replaces(id, items, key, x, Updated(id, items, key, x).0, Updated(id, items, key, x).1)
  {
    PresentIff(id, items, key);
  }

  lemma WithoutOne<T>(id: T -> string, items: seq<T>, key: string, i: nat)
    requires IdsDiffer(id, items) && i < |items| && id(items[i]) == key
    ensures Without(id, items, key) == items[..i] + items[i + 1..]
  {
    var a, x, b := items[..i], items[i], items[i + 1..];
    assert items == a + [x] + b;
    FilterConcat(OtherIds(id, key), a + [x], b);
    FilterConcat(OtherIds(id, key), a, [x]);
    FilterOne(OtherIds(id, key), x);
    WithoutAbsent(id, a, key);
    WithoutAbsent(id, b, key);
    assert a + [] == a;
  }

  lemma DeletedRemoves<T>(id: T -> string, items: seq<T>, key: string)
    requires IdsDiffer(id, items)
    ensures Removes(id, items, key, Deleted(id, items, key).0, Deleted(id, items, key).1)
  {
    WithoutSize(id, items, key);
    if y :| y in items && id(y) == key {
      var i :| 0 <= i < |items| && items[i] == y;
      WithoutOne(id, items, key, i);
    } else {
      WithoutAbsent(id, items, key);
    }
  }

  /** On a profile with unique ids each request does what it says. */
  lemma EditDoes(e: Edit, p: Profile)
    requires IdsDiffer(MeasureKey, p.measures) && IdsDiffer(RuleKey, p.rules)
    ensures Does(e, p, Apply(e, p).0, Apply(e, p).1)
  {
    hide Added, Updated, Deleted, Appends, Replaces, Removes, IdsDiffer;
    match e
    case AddMeasure(m) => AddedAppends(MeasureKey, p.measures, m);
    case UpdateMeasure(id, m) => UpdatedReplaces(MeasureKey, p.measures, id, m);
    case DeleteMeasure(id) => DeletedRemoves(MeasureKey, p.measures, id);
    case AddRule(r) => AddedAppends(RuleKey, p.rules, r);
    case UpdateRule(id, r) => UpdatedReplaces(RuleKey, p.rules, id, r);
    case DeleteRule(id) => DeletedRemoves(RuleKey, p.rules, id);
    case PatchNotify(name, ch) => forall other { GetOfPut(p.notify, name, ch, other); }
  }

  // ---------------------------------------------------------------- many editors at once

  /** The stored overlay: its version and its content (the profile without its governance record). */
  datatype Stored = Stored(version: int, content: Profile)

  /** A request between its load and its commit. */
  datatype Session = Session(base: Stored, edit: Edit, edited: Profile, expected: int)

  /** `accepted` and `history` record the accepted edits and the contents since creation. */
  datatype State = State(stored: Stored, sessions: map<nat, Session>, history: seq<Profile>, accepted: seq<Edit>)

  datatype Step =
    | Loads(id: nat, edit: Edit, expected: int)
    | Commits(id: nat)                        // accepted or refused by the version
    | Fails(id: nat)                          // validation refuses it, or Mongo is gone

  ghost predicate Created(s: State) {
    s.stored.version == 1 && s.sessions == map[] && s.history == [s.stored.content] && s.accepted == []
  }

  predicate Accepts(s: State, id: nat) {
    id in s.sessions && s.stored.version == s.sessions[id].expected
  }

  ghost predicate Next(s: State, a: Step, t: State) {
    match a
    case Loads(id, edit, expected) =>
      && id !in s.sessions
      && var r := Apply(edit, s.stored.content);
         t == if r.0.Changed? then s.(sessions := s.sessions[id := Session(s.stored, edit, r.1, expected)]) else s
    case Commits(id) =>
      && id in s.sessions
      && var w := s.sessions[id]; var u := s.(sessions := s.sessions - {id});
         t == if !Accepts(s, id) then u
              else u.(stored := Stored(w.expected + 1, w.edited), history := s.history + [w.edited],
                      accepted := s.accepted + [w.edit])
    case Fails(id) => id in s.sessions && t == s.(sessions := s.sessions - {id})
  }

  ghost predicate IsRun(run: seq<State>, steps: seq<Step>) {
    && |run| == |steps| + 1 && Created(run[0])
    && forall k :: 0 <= k < |steps| ==> Next(run[k], steps[k], run[k + 1])
  }

  /** Every committed request names the version it loaded. */
  ghost predicate ExpectLoaded(run: seq<State>, steps: seq<Step>) {
    forall k :: 0 <= k < |steps| && k < |run| && steps[k].Loads? ==> steps[k].expected == run[k].stored.version
  }

  ghost predicate VersionsCount(s: State) {
    && s.stored.version == |s.history| && s.history != [] && s.stored.content == s.history[|s.history| - 1]
    && |s.accepted| == |s.history| - 1
    && forall id :: id in s.sessions ==> s.sessions[id].base.version <= s.stored.version
  }

  /** A request's base is the content of the version it loaded, and its edit was applied to that. */
  ghost predicate SessionsSound(s: State) {
    forall id :: id in s.sessions ==>
      var w := s.sessions[id];
      && 1 <= w.base.version <= |s.history| && w.base.content == s.history[w.base.version - 1]
      && Apply(w.edit, w.base.content) == (Changed, w.edited)
  }

  ghost predicate NamesLoaded(s: State) {
    forall id :: id in s.sessions ==> s.sessions[id].expected == s.sessions[id].base.version
  }

  lemma {:induction false} RunsCount(run: seq<State>, steps: seq<Step>, k: nat)
    requires IsRun(run, steps) && k < |run|
    ensures VersionsCount(run[k]) && SessionsSound(run[k])
  {
    hide Apply;
    if k > 0 {
      RunsCount(run, steps, k - 1);
      assert Next(run[k - 1], steps[k - 1], run[k]);
    }
  }

  lemma {:induction false} RunsNameLoaded(run: seq<State>, steps: seq<Step>, k: nat)
    requires IsRun(run, steps) && ExpectLoaded(run, steps) && k < |run|
    ensures NamesLoaded(run[k])
  {
    hide Apply;
    if k > 0 {
      RunsNameLoaded(run, steps, k - 1);
      assert Next(run[k - 1], steps[k - 1], run[k]);
    }
  }

  /** The edits applied one after the other. */
  function Replay(start: Profile, edits: seq<Edit>): Profile {
    if edits == [] then start else Apply(edits[|edits| - 1], Replay(start, edits[..|edits| - 1])).1
  }

  /** When every request names the version it loaded, the stored overlay is the created one with the
      accepted edits applied in order: each accepted write is its edit of the content right before it,
      and the version is one more than the number of accepted writes. */
  lemma {:induction false} NoLostUpdate(run: seq<State>, steps: seq<Step>, k: nat)
    requires IsRun(run, steps) && ExpectLoaded(run, steps) && k < |run|
    ensures run[k].stored.version == 1 + |run[k].accepted|
    ensures run[k].stored.content == Replay(run[0].stored.content, run[k].accepted)
    ensures k > 0 && run[k].accepted != run[k - 1].accepted ==>
      && run[k].accepted == run[k - 1].accepted + [run[k].accepted[|run[k].accepted| - 1]]
      && Apply(run[k].accepted[|run[k].accepted| - 1], run[k - 1].stored.content) == (Changed, run[k].stored.content)
  {
    RunsCount(run, steps, k);
    hide Apply, SessionsSound, NamesLoaded, Next;
    if k > 0 {
      NoLostUpdate(run, steps, k - 1);
      RunsCount(run, steps, k - 1);
      RunsNameLoaded(run, steps, k - 1);
      StepReplays(run[k - 1], steps[k - 1], run[k]);
    }
  }

  /** One step either accepts nothing and keeps the content, or applies its edit to the content. */
  lemma StepReplays(s: State, a: Step, t: State)
    requires VersionsCount(s) && SessionsSound(s) && NamesLoaded(s) && Next(s, a, t)
    ensures (t.accepted == s.accepted && t.stored.content == s.stored.content)
         || (t.accepted != [] && t.accepted == s.accepted + [t.accepted[|t.accepted| - 1]]
              && t.accepted[..|t.accepted| - 1] == s.accepted
              && Apply(t.accepted[|t.accepted| - 1], s.stored.content) == (Changed, t.stored.content))
  {
    hide Apply;
    if a.Commits? && Accepts(s, a.id) {
      var w := s.sessions[a.id];
      assert t.accepted == s.accepted + [w.edit];
    }
  }

  /** Whatever versions the requests name, an accepted one names a version no older than it loaded; so
      only a request that claims a newer version than it read can overwrite an edit unseen. */
  lemma AcceptedNamesLoadedOrNewer(run: seq<State>, steps: seq<Step>, k: nat, id: nat)
    requires IsRun(run, steps) && k < |run| && Accepts(run[k], id)
    ensures run[k].sessions[id].expected >= run[k].sessions[id].base.version
    ensures run[k].sessions[id].expected == run[k].sessions[id].base.version <==>
      run[k].sessions[id].base == run[k].stored
  {
    RunsCount(run, steps, k);
  }

  /** Two requests loaded at version 1; the second commits, then the first, which named version 2. */
  lemma TwoCommits(start: Profile, ea: Edit, eb: Edit, pa: Profile, pb: Profile)
    returns (run: seq<State>, steps: seq<Step>)
    requires Apply(ea, start) == (Changed, pa) && Apply(eb, start) == (Changed, pb)
    ensures IsRun(run, steps) && |run| == 5 && run[0].stored.content == start
    ensures run[4].stored.content == pa && run[4].accepted == [eb, ea]
  {
    hide Apply;
    var v1 := Stored(1, start);
    var wa, wb := Session(v1, ea, pa, 2), Session(v1, eb, pb, 1);
    var s0 := State(v1, map[], [start], []);
    var s1 := s0.(sessions := map[0 := wa]);
    var s2 := s1.(sessions := map[0 := wa, 1 := wb]);
    var s3 := State(Stored(2, pb), map[0 := wa], [start, pb], [eb]);
    var s4 := State(Stored(3, pa), map[], [start, pb, pa], [eb, ea]);
    steps := [Loads(0, ea, 2), Loads(1, eb, 1), Commits(1), Commits(0)];
    run := [s0, s1, s2, s3, s4];
    assert Next(s0, steps[0], s1) && Next(s1, steps[1], s2);
    assert Next(s2, steps[2], s3) by { assert s2.sessions - {1} == map[0 := wa]; }
    assert Next(s3, steps[3], s4) by { assert s3.sessions - {0} == map[]; }
    hide Next;
  }

  lemma ReplayOfTwo(start: Profile, ea: Edit, eb: Edit)
    ensures Replay(start, [eb, ea]) == Apply(ea, Apply(eb, start).1).1
  {
    hide Apply;
    assert [eb][..0] == [] && [eb, ea][..1] == [eb];
    assert Replay(start, [eb]) == Apply(eb, Replay(start, [])).1;
    assert Replay(start, [eb, ea]) == Apply(ea, Replay(start, [eb])).1;
  }

  /** And one that does claim a newer version can: from any created overlay, two channel edits, the
      first naming version 2 before version 2 exists, end with the second edit gone. */
  lemma ClaimingNewerLosesAnUpdate(start: Profile, ch: Channel) returns (run: seq<State>, steps: seq<Step>)
    requires Get(start.notify, "b") == None
    ensures IsRun(run, steps) && run[0].stored.content == start
    ensures run[|run| - 1].accepted == [PatchNotify("b", ch), PatchNotify("a", ch)]
    ensures Get(run[|run| - 1].stored.content.notify, "b") == None
    ensures Get(Replay(start, run[|run| - 1].accepted).notify, "b") == Some(ch)
  {
    var ea, eb := PatchNotify("a", ch), PatchNotify("b", ch);
    var pa, pb := start.(notify := Put(start.notify, "a", ch)), start.(notify := Put(start.notify, "b", ch));
    run, steps := TwoCommits(start, ea, eb, pa, pb);
    hide IsRun, Put, Get, Replay;
    ReplayOfTwo(start, ea, eb);
    GetOfPut(start.notify, "a", ch, "b");
    GetOfPut(start.notify, "b", ch, "b");
    GetOfPut(pb.notify, "a", ch, "b");
  }
}
