/** Signature bucketing: evaluating machines with equal profiles together is evaluating each alone. */
module Ticks {
  import opened Wrappers
  import opened Sorting
  import opened Dicts
  import opened Profiles
  import opened Cascade
  import opened MetricQuery
  import opened Threshold
  import opened Analysis
  import opened Buckets
  import opened AlertMeaning

  /** One active machine of the process, as the equipment collection lists it. */
  datatype Machine = Machine(eqpId: string, model: Option<string>)

  // ---------------------------------------------------------------- signatures

  /** What `effective_signature` hashes: the behaviour of a profile, lists in a canonical order. */
  datatype Signature = Signature(
    enabled: bool, measures: seq<Measure>, rules: seq<Rule>, notify: Dict<string, Channel>)

  predicate MeasureLe(a: Measure, b: Measure) { StrLe(a.id, b.id) }

  predicate RuleLe(a: Rule, b: Rule) { StrLe(a.id, b.id) }

  predicate ChannelLe(a: (string, Channel), b: (string, Channel)) { StrLe(a.0, b.0) }

  function SignatureOf(p: Profile): Signature {
    Signature(p.enabled, Sort(MeasureLe, p.measures), Sort(RuleLe, p.rules), Sort(ChannelLe, p.notify))
  }

  lemma SameSorted<T(!new)>(le: (T, T) -> bool, s: seq<T>, t: seq<T>)
    requires TotalPreorder(le) && Sort(le, s) == Sort(le, t)
    ensures forall x :: x in s <==> x in t
  {
    forall x ensures x in s <==> x in t {
      SortMembers(le, s, x);
      SortMembers(le, t, x);
    }
  }

  /** Profiles that no lookup can tell apart. */
  ghost predicate Alike(a: Profile, b: Profile) {
    && (forall r :: r in a.rules <==> r in b.rules)
    && (forall id :: MeasureById(a, id) == MeasureById(b, id))
    && (forall name :: Get(a.notify, name) == Get(b.notify, name))
  }

  lemma ChannelIs(d: Dict<string, Channel>, name: string, v: Channel)
    requires UniqueKeys(d)
    ensures Get(d, name) == Some(v) <==> (name, v) in d
  {
    GetIff(d, name);
    if (name, v) in d {
      var i :| 0 <= i < |d| && d[i] == (name, v);
      GetByMember(d, i);
    }
  }

  lemma SameChannel(d: Dict<string, Channel>, e: Dict<string, Channel>, name: string)
    requires UniqueKeys(d) && UniqueKeys(e) && forall x :: x in d <==> x in e
    ensures Get(d, name) == Get(e, name)
  {
    hide Get;
    var v, w := Get(d, name), Get(e, name);
    if v.Some? {
      ChannelIs(d, name, v.value);
      ChannelIs(e, name, v.value);
    } else if w.Some? {
      ChannelIs(d, name, w.value);
      ChannelIs(e, name, w.value);
    }
  }

  /** Equal signatures mean equal behaviour, although the lists may be ordered differently. */
  lemma SameSignatureAlike(a: Profile, b: Profile)
    requires SignatureOf(a) == SignatureOf(b) && ValidProfile(a) && ValidProfile(b)
    ensures Alike(a, b)
  {
    hide Sort, MeasureById, ValidMeasure, ValidRule;
    StrLeIsOrder();
    SameSorted(MeasureLe, a.measures, b.measures);
    SameSorted(RuleLe, a.rules, b.rules);
    SameSorted(ChannelLe, a.notify, b.notify);
    forall id ensures MeasureById(a, id) == MeasureById(b, id) {
      MeasureByIdIs(a, id);
      MeasureByIdIs(b, id);
    }
    forall name ensures Get(a.notify, name) == Get(b.notify, name) {
      SameChannel(a.notify, b.notify, name);
    }
  }

  lemma AlikeCategories(a: Profile, b: Profile)
    requires Alike(a, b) && ValidProfile(a) && ValidProfile(b)
    ensures Categories(a) == Categories(b)
  {
    hide MeasureById, ValidProfile, Categories;
    forall id ensures id in Categories(a) <==> id in Categories(b) {
      CategoryKeys(a, id);
      CategoryKeys(b, id);
    }
    forall id | id in Categories(a) ensures Categories(a)[id] == Categories(b)[id] {
      CategoryKeys(a, id);
      CategoryKeys(b, id);
    }
  }

  lemma CategoryKeys(p: Profile, id: string)
    requires ValidProfile(p)
    ensures id in Categories(p) <==> MeasureById(p, id).Some?
    ensures id in Categories(p) ==> Categories(p)[id] == CategoryById(p, id)
  {
    hide MeasureById, ValidMeasure, ValidRule;
    MeasureByIdIs(p, id);
    if m :| m in p.measures && m.id == id {
      var i :| 0 <= i < |p.measures| && p.measures[i] == m;
      assert p.measures[i].id == id;
    }
  }

  lemma AlikeFacts(ctx: Context, a: Profile, b: Profile, ids: seq<string>, rule: Rule, at: Target)
    requires Alike(a, b)
    ensures FactsAt(ctx, a, ids, rule, at) == FactsAt(ctx, b, ids, rule, at)
    ensures Targets(ctx, a, ids, rule) == Targets(ctx, b, ids, rule)
  {
    hide MeasureById, Computed, MeasureId, FactName, Refs;
    assert forall id :: ResultOf(ctx, a, ids, id) == ResultOf(ctx, b, ids, id);
    hide ResultOf;
    assert FactsAt(ctx, a, ids, rule, at) == FactsAt(ctx, b, ids, rule, at);
  }

  lemma AlikePendingAt(ctx: Context, a: Profile, b: Profile, ids: seq<string>, rule: Rule, at: Target)
    requires Alike(a, b) && ValidProfile(a) && ValidProfile(b) && ValidRule(rule)
    ensures PendingAt(ctx, a, ids, rule, at) == PendingAt(ctx, b, ids, rule, at)
    ensures Targets(ctx, a, ids, rule) == Targets(ctx, b, ids, rule)
  {
    AlikeCategories(a, b);
    AlikeFacts(ctx, a, b, ids, rule, at);
    hide MeasureById, Targets, FactsAt, MeasureId, ValidProfile, ValidRule, Verdict, Get, Categories;
  }

  lemma DueIs(p: Profile, interval: int)
    ensures forall r :: r in Due(p, interval) <==> r in p.rules && r.interval == interval && r.enabled
  {
    FilterMembers(DueAt(interval), p.rules);
  }

  lemma {:induction false} IdsStayDistinct(rules: seq<Rule>, interval: int)
    requires forall i, j :: 0 <= i < j < |rules| ==> rules[i].id != rules[j].id
    ensures DistinctIds(Filter(DueAt(interval), rules))
  {
    if rules != [] {
      IdsStayDistinct(rules[1..], interval);
      var r, rest := Filter(DueAt(interval), rules), Filter(DueAt(interval), rules[1..]);
      FilterMembers(DueAt(interval), rules[1..]);
      forall j | 0 <= j < |rest| ensures rest[j].id != rules[0].id { assert rest[j] in rules[1..]; }
      assert r == rest || r == [rules[0]] + rest;
    }
  }

  ghost predicate DistinctIds(rules: seq<Rule>) {
    forall i, j :: 0 <= i < j < |rules| ==> rules[i].id != rules[j].id
  }

  lemma DueIsValid(p: Profile, interval: int)
    requires ValidProfile(p)
    ensures forall r :: r in Due(p, interval) ==> ValidRule(r)
    ensures DistinctIds(Due(p, interval))
  {
    DueIs(p, interval);
    IdsStayDistinct(p.rules, interval);
  }

  /** `x` is pending after a tick over the machines `ids`, all under profile `p`. */
  ghost predicate TickPending(ctx: Context, p: Profile, ids: seq<string>, interval: int, x: Pending) {
    ValidProfile(p) && exists r, at :: TickPendingFrom(ctx, p, ids, interval, x, r, at)
  }

  ghost predicate TickPendingFrom(ctx: Context, p: Profile, ids: seq<string>, interval: int, x: Pending, r: Rule,
                                  at: Target) {
    && r in Due(p, interval) && ValidRule(r)
    && at in Targets(ctx, p, ids, r) && PendingAt(ctx, p, ids, r, at) == Some(x)
  }

  lemma AlikeTicks(ctx: Context, a: Profile, b: Profile, ids: seq<string>, interval: int, x: Pending)
    requires Alike(a, b) && ValidProfile(a) && ValidProfile(b) && TickPending(ctx, a, ids, interval, x)
    ensures TickPending(ctx, b, ids, interval, x)
  {
    hide Due, PendingAt, Targets, MeasureById, ValidProfile;
    var r, at :| TickPendingFrom(ctx, a, ids, interval, x, r, at);
    DueIs(a, interval);
    DueIs(b, interval);
    AlikePendingAt(ctx, a, b, ids, r, at);
    assert TickPendingFrom(ctx, b, ids, interval, x, r, at);
  }

  // ---------------------------------------------------------------- a machine's share of a bucket

  /** No query of a tick over the machines `ids` under `p` leaves machine `e` out. */
  ghost predicate MachineHeard(ctx: Context, p: Profile, ids: seq<string>, e: string) {
    forall m :: m in p.measures ==> MeasureHeard(ctx, m, ids, e)
  }

  lemma ResultIsLocal(ctx: Context, p: Profile, ids: seq<string>, at: Target, id: string)
    requires Sound(ctx.es) && ValidProfile(p) && at.0 in ids && MachineHeard(ctx, p, ids, at.0)
    ensures var shared, own := ResultOf(ctx, p, ids, id), ResultOf(ctx, p, [at.0], id);
      (at in shared <==> at in own) && (at in shared ==> shared[at] == own[at])
  {
    hide Sound, Computed, MeasureById, MeasureHeard;
    MeasureByIdIs(p, id);
    var m := MeasureById(p, id);
    if m.Some? {
      ComputedLocallyIff(ctx, m.value, ids, at.0);
      assert SameValues(ctx, m.value, ids, at.0, at.1);
    }
  }

  lemma PendingIsLocal(ctx: Context, p: Profile, ids: seq<string>, rule: Rule, at: Target)
    requires Sound(ctx.es) && ValidProfile(p) && ValidRule(rule) && at.0 in ids && MachineHeard(ctx, p, ids, at.0)
    ensures at in Targets(ctx, p, ids, rule) <==> at in Targets(ctx, p, [at.0], rule)
    ensures PendingAt(ctx, p, ids, rule, at) == PendingAt(ctx, p, [at.0], rule, at)
  {
    hide Sound, ResultOf, MeasureId, FactName, ValidProfile, ValidRule, Verdict, MeasureById, Categories, MachineHeard;
    forall id { ResultIsLocal(ctx, p, ids, at, id); }
    assert FactsAt(ctx, p, ids, rule, at) == FactsAt(ctx, p, [at.0], rule, at);
  }

  lemma TargetsAreAsked(ctx: Context, p: Profile, ids: seq<string>, rule: Rule, at: Target)
    requires Sound(ctx.es) && ValidProfile(p) && ids != [] && at in Targets(ctx, p, ids, rule)
    ensures at.0 in ids
  {
    hide Sound, Computed, MeasureById, MeasureId;
    var ref :| ref in Refs(rule) && at in ResultOf(ctx, p, ids, MeasureId(ref));
    MeasureByIdIs(p, MeasureId(ref));
    ComputedAreAsked(ctx, MeasureById(p, MeasureId(ref)).value, ids, at.0, at.1);
  }

  /** A tick over `ids` leaves pending only what is theirs. */
  lemma PendingIsTheirs(ctx: Context, p: Profile, ids: seq<string>, interval: int, x: Pending)
    requires Sound(ctx.es) && ids != [] && TickPending(ctx, p, ids, interval, x)
    ensures x.breach.eqpId in ids
  {
    hide Sound, Due, PendingAt, Targets, ValidProfile, ValidRule;
    var r, at :| TickPendingFrom(ctx, p, ids, interval, x, r, at);
    PendingNamesItsSource(ctx, p, ids, r, at);
    TargetsAreAsked(ctx, p, ids, r, at);
  }

  /** What a bucket leaves pending for a machine no query leaves out is what that machine would leave
      pending alone. */
  lemma BucketIsUnion(ctx: Context, p: Profile, ids: seq<string>, interval: int, x: Pending)
    requires Sound(ctx.es) && ValidProfile(p)
    requires x.breach.eqpId in ids && MachineHeard(ctx, p, ids, x.breach.eqpId)
    ensures TickPending(ctx, p, ids, interval, x) <==> TickPending(ctx, p, [x.breach.eqpId], interval, x)
  {
    hide Sound, Due, PendingAt, Targets, ValidProfile, ValidRule, MachineHeard;
    var e := x.breach.eqpId;
    if TickPending(ctx, p, ids, interval, x) {
      var r, at :| TickPendingFrom(ctx, p, ids, interval, x, r, at);
      PendingNamesItsSource(ctx, p, ids, r, at);
      PendingIsLocal(ctx, p, ids, r, at);
      assert TickPendingFrom(ctx, p, [e], interval, x, r, at);
    }
    if TickPending(ctx, p, [e], interval, x) {
      var r, at :| TickPendingFrom(ctx, p, [e], interval, x, r, at);
      PendingNamesItsSource(ctx, p, [e], r, at);
      PendingIsLocal(ctx, p, ids, r, at);
      assert TickPendingFrom(ctx, p, ids, interval, x, r, at);
    }
  }

  // ---------------------------------------------------------------- bucketing

  type Resolver = Machine -> Option<Profile>

  datatype Share = Share(profile: Profile, eqpIds: seq<string>)

  function IdOf(m: Machine): string {
    m.eqpId
  }

  predicate Runs(resolve: Resolver, m: Machine) {
    resolve(m).Some? && resolve(m).value.enabled
  }

  function WithSignature(resolve: Resolver, s: Signature): Machine -> bool {
    (m: Machine) => Runs(resolve, m) && SignatureOf(resolve(m).value) == s
  }

  /** The ids of the machines of one bucket, in the order the machines came. */
  function IdsWith(resolve: Resolver, s: Signature, machines: seq<Machine>): seq<string> {
    Map(IdOf, Filter(WithSignature(resolve, s), machines))
  }

  ghost predicate GoodBucket(resolve: Resolver, machines: seq<Machine>, s: Signature, b: Share) {
    && b.eqpIds == IdsWith(resolve, s, machines) && b.eqpIds != []
    && exists m :: m in machines && Runs(resolve, m) && resolve(m) == Some(b.profile) && SignatureOf(b.profile) == s
  }

  /** `buckets` holds every machine that runs, under its signature, and nothing else. */
  ghost predicate Bucketed(resolve: Resolver, machines: seq<Machine>, buckets: Dict<Signature, Share>) {
    && UniqueKeys(buckets)
    && (forall k :: 0 <= k < |buckets| ==> GoodBucket(resolve, machines, buckets[k].0, buckets[k].1))
    && (forall m :: m in machines && Runs(resolve, m) ==> HasKey(buckets, SignatureOf(resolve(m).value)))
  }

  lemma IdsWithOneMore(resolve: Resolver, s: Signature, machines: seq<Machine>, m: Machine)
    ensures IdsWith(resolve, s, machines + [m]) ==
      IdsWith(resolve, s, machines) + (if Runs(resolve, m) && SignatureOf(resolve(m).value) == s then [m.eqpId] else [])
  {
    hide SignatureOf;
    var keep := WithSignature(resolve, s);
    FilterConcat(keep, machines, [m]);
    FilterOne(keep, m);
    MapConcat(IdOf, Filter(keep, machines), Filter(keep, [m]));
    assert Map(IdOf, [m]) == [m.eqpId];
  }

  lemma IdlesAddNothing(resolve: Resolver, machines: seq<Machine>, m: Machine, buckets: Dict<Signature, Share>)
    requires Bucketed(resolve, machines, buckets) && !Runs(resolve, m)
    ensures Bucketed(resolve, machines + [m], buckets)
  {
    hide SignatureOf, IdsWith, Runs;
    forall k | 0 <= k < |buckets| ensures GoodBucket(resolve, machines + [m], buckets[k].0, buckets[k].1) {
      IdsWithOneMore(resolve, buckets[k].0, machines, m);
      var w :| w in machines && Runs(resolve, w) && resolve(w) == Some(buckets[k].1.profile);
      assert w in machines + [m];
    }
  }

  /** The bucket a machine joins, or founds. */
  function Joined(found: Option<Share>, profile: Profile, eqpId: string): Share {
    if found.Some? then found.value.(eqpIds := found.value.eqpIds + [eqpId]) else Share(profile, [eqpId])
  }

  lemma JoiningKeepsBuckets(resolve: Resolver, machines: seq<Machine>, m: Machine, buckets: Dict<Signature, Share>)
    requires Bucketed(resolve, machines, buckets) && Runs(resolve, m)
    ensures var s := SignatureOf(resolve(m).value);
      Bucketed(resolve, machines + [m], Put(buckets, s, Joined(Get(buckets, s), resolve(m).value, m.eqpId)))
  {
    hide SignatureOf, GoodBucket, Joined, Put, Get;
    var s := SignatureOf(resolve(m).value);
    var b := Joined(Get(buckets, s), resolve(m).value, m.eqpId);
    var after := Put(buckets, s, b);
    PutKeeps(buckets, s, b);
    GetIff(buckets, s);
    JoinedIsGood(resolve, machines, m, buckets);
    forall k | 0 <= k < |after| ensures GoodBucket(resolve, machines + [m], after[k].0, after[k].1) {
      GetByMember(after, k);
      GetOfPut(buckets, s, b, after[k].0);
      if after[k].0 != s {
        GetIff(buckets, after[k].0);
        var i: nat :| i < |buckets| && buckets[i] == after[k];
        OtherBucketStaysGood(resolve, machines, m, after[k].0, after[k].1);
      }
    }
  }

  lemma OtherBucketStaysGood(resolve: Resolver, machines: seq<Machine>, m: Machine, s: Signature, b: Share)
    requires GoodBucket(resolve, machines, s, b) && Runs(resolve, m) && SignatureOf(resolve(m).value) != s
    ensures GoodBucket(resolve, machines + [m], s, b)
  {
    hide SignatureOf, IdsWith;
    IdsWithOneMore(resolve, s, machines, m);
    var w :| w in machines && Runs(resolve, w) && resolve(w) == Some(b.profile);
    assert w in machines + [m];
  }

  lemma JoinedIsGood(resolve: Resolver, machines: seq<Machine>, m: Machine, buckets: Dict<Signature, Share>)
    requires Bucketed(resolve, machines, buckets) && Runs(resolve, m)
    ensures var s := SignatureOf(resolve(m).value);
      GoodBucket(resolve, machines + [m], s, Joined(Get(buckets, s), resolve(m).value, m.eqpId))
  {
    hide SignatureOf;
    var s := SignatureOf(resolve(m).value);
    IdsWithOneMore(resolve, s, machines, m);
    GetIff(buckets, s);
    assert m in machines + [m];
    if Get(buckets, s).Some? {
      var i :| 0 <= i < |buckets| && buckets[i] == (s, Get(buckets, s).value);
      var w :| w in machines && Runs(resolve, w) && resolve(w) == Some(buckets[i].1.profile);
      assert w in machines + [m];
    } else {
      NoneWithSignature(resolve, machines, s);
    }
  }

  lemma NoneWithSignature(resolve: Resolver, machines: seq<Machine>, s: Signature)
    requires forall m :: m in machines && Runs(resolve, m) ==> SignatureOf(resolve(m).value) != s
    ensures IdsWith(resolve, s, machines) == []
  {
    hide SignatureOf;
    FilterCounts(WithSignature(resolve, s), machines);
  }

  method Bucketize(machines: seq<Machine>, resolve: Resolver) returns (buckets: Dict<Signature, Share>)
    ensures Bucketed(resolve, machines, buckets)
  {
    hide SignatureOf, IdsWith, Bucketed;
    buckets := [];
    assert Bucketed(resolve, machines[..0], buckets) by { EmptyIsBucketed(resolve, machines[..0]); }
    for i := 0 to |machines|
      invariant Bucketed(resolve, machines[..i], buckets)
    {
      var m := machines[i];
      assert machines[..i + 1] == machines[..i] + [m];
      var profile := resolve(m);
      if profile.None? || !profile.value.enabled {
        IdlesAddNothing(resolve, machines[..i], m, buckets);
      } else {
        JoiningKeepsBuckets(resolve, machines[..i], m, buckets);
        var signature := SignatureOf(profile.value);
        buckets := Put(buckets, signature, Joined(Get(buckets, signature), profile.value, m.eqpId));
      }
    }
    assert machines[..|machines|] == machines;
  }

  lemma EmptyIsBucketed(resolve: Resolver, machines: seq<Machine>)
    requires machines == []
    ensures Bucketed(resolve, machines, [])
  {
  }

  // ---------------------------------------------------------------- the tick

  ghost predicate AllValid(resolve: Resolver, machines: seq<Machine>) {
    forall m :: m in machines && resolve(m).Some? ==> ValidProfile(resolve(m).value)
  }

  /** The ids of the machines that share `m`'s queries. */
  function Companions(resolve: Resolver, machines: seq<Machine>, m: Machine): seq<string>
    requires resolve(m).Some?
  {
    IdsWith(resolve, SignatureOf(resolve(m).value), machines)
  }

  lemma OwnCompanion(resolve: Resolver, machines: seq<Machine>, m: Machine)
    requires m in machines && Runs(resolve, m)
    ensures m.eqpId in Companions(resolve, machines, m)
  {
    hide SignatureOf, IdsWith;
    var s := SignatureOf(resolve(m).value);
    IdsAre(resolve, s, machines, m.eqpId);
    assert WithSignature(resolve, s)(m);
  }

  /** No query of the tick leaves machine `e` out. */
  ghost predicate HeardInTick(ctx: Context, resolve: Resolver, machines: seq<Machine>, e: string) {
    forall m :: m in machines && m.eqpId == e && Runs(resolve, m) ==>
      MachineHeard(ctx, resolve(m).value, Companions(resolve, machines, m), e)
  }

  /** None does when no more than 30000 distinct machines share a signature. */
  lemma SmallBucketsHeard(ctx: Context, resolve: Resolver, machines: seq<Machine>, e: string)
    requires Sound(ctx.es) && forall s :: |Distinct(IdsWith(resolve, s, machines))| <= 30000
    ensures HeardInTick(ctx, resolve, machines, e)
  {
    hide Sound, SignatureOf, IdsWith, Distinct, MeasureHeard;
    forall m, measure | m in machines && m.eqpId == e && Runs(resolve, m) && measure in resolve(m).value.measures
      ensures MeasureHeard(ctx, measure, Companions(resolve, machines, m), e)
    {
      OwnCompanion(resolve, machines, m);
      FewMachinesHeard(ctx, measure, Companions(resolve, machines, m), e);
    }
  }

  ghost predicate DistinctMachines(machines: seq<Machine>) {
    forall i, j :: 0 <= i < j < |machines| ==> machines[i].eqpId != machines[j].eqpId
  }

  /** What machine `m` would leave pending, evaluated alone under its own profile. */
  ghost predicate OwnPending(ctx: Context, resolve: Resolver, m: Machine, interval: int, x: Pending) {
    Runs(resolve, m) && TickPending(ctx, resolve(m).value, [m.eqpId], interval, x)
  }

  ghost predicate SharePending(ctx: Context, b: Share, interval: int, x: Pending) {
    TickPending(ctx, b.profile, b.eqpIds, interval, x)
  }

  lemma IdsAre(resolve: Resolver, s: Signature, machines: seq<Machine>, e: string)
    ensures e in IdsWith(resolve, s, machines) <==>
      exists m :: m in machines && m.eqpId == e && WithSignature(resolve, s)(m)
  {
    hide SignatureOf;
    var keep := WithSignature(resolve, s);
    var kept, ids := Filter(keep, machines), IdsWith(resolve, s, machines);
    FilterMembers(keep, machines);
    if e in ids {
      var i :| 0 <= i < |ids| && ids[i] == e;
      assert kept[i] in kept && kept[i].eqpId == e;
    }
    if m :| m in machines && m.eqpId == e && keep(m) {
      assert m in kept;
      var i :| 0 <= i < |kept| && kept[i] == m;
      assert ids[i] == e;
    }
  }

  /** What `m`'s profile leaves pending for `m` in the queries it shares. */
  ghost predicate TogetherPending(ctx: Context, resolve: Resolver, machines: seq<Machine>, m: Machine, interval: int,
                                  x: Pending) {
    && Runs(resolve, m) && x.breach.eqpId == m.eqpId
    && TickPending(ctx, resolve(m).value, Companions(resolve, machines, m), interval, x)
  }

  lemma TogetherIsOwn(ctx: Context, resolve: Resolver, machines: seq<Machine>, m: Machine, interval: int, x: Pending)
    requires Sound(ctx.es) && AllValid(resolve, machines) && m in machines
    requires HeardInTick(ctx, resolve, machines, x.breach.eqpId)
    ensures TogetherPending(ctx, resolve, machines, m, interval, x) <==> OwnPending(ctx, resolve, m, interval, x)
  {
    hide Sound, Companions, TickPending, ValidProfile, MachineHeard;
    if !Runs(resolve, m) { return; }
    if OwnPending(ctx, resolve, m, interval, x) {
      PendingIsTheirs(ctx, resolve(m).value, [m.eqpId], interval, x);
    }
    if x.breach.eqpId == m.eqpId {
      OwnCompanion(resolve, machines, m);
      BucketIsUnion(ctx, resolve(m).value, Companions(resolve, machines, m), interval, x);
    }
  }

  lemma MachineOfShare(ctx: Context, machines: seq<Machine>, resolve: Resolver, interval: int,
                       s: Signature, b: Share, x: Pending) returns (m: Machine)
    requires Sound(ctx.es) && AllValid(resolve, machines)
    requires GoodBucket(resolve, machines, s, b) && SharePending(ctx, b, interval, x)
    ensures m in machines && m.eqpId == x.breach.eqpId && WithSignature(resolve, s)(m)
    ensures TogetherPending(ctx, resolve, machines, m, interval, x)
  {
    hide Sound, SignatureOf, IdsWith, TickPending, ValidProfile, Alike;
    PendingIsTheirs(ctx, b.profile, b.eqpIds, interval, x);
    IdsAre(resolve, s, machines, x.breach.eqpId);
    m :| m in machines && m.eqpId == x.breach.eqpId && WithSignature(resolve, s)(m);
    SameSignatureAlike(b.profile, resolve(m).value);
    AlikeTicks(ctx, b.profile, resolve(m).value, b.eqpIds, interval, x);
  }

  lemma ShareOfMachine(ctx: Context, machines: seq<Machine>, resolve: Resolver, interval: int,
                       buckets: Dict<Signature, Share>, m: Machine, x: Pending) returns (k: nat)
    requires AllValid(resolve, machines) && Bucketed(resolve, machines, buckets)
    requires m in machines && TogetherPending(ctx, resolve, machines, m, interval, x)
    ensures k < |buckets| && SharePending(ctx, buckets[k].1, interval, x)
  {
    hide SignatureOf, IdsWith, TickPending, ValidProfile, Alike;
    var s := SignatureOf(resolve(m).value);
    assert HasKey(buckets, s);
    k :| 0 <= k < |buckets| && buckets[k].0 == s;
    var b := buckets[k].1;
    assert GoodBucket(resolve, machines, s, b);
    SameSignatureAlike(resolve(m).value, b.profile);
    AlikeTicks(ctx, resolve(m).value, b.profile, b.eqpIds, interval, x);
  }

  /** Distinct machines are in one bucket each, so no two buckets report the same pending alert. */
  lemma SharesDisjoint(ctx: Context, machines: seq<Machine>, resolve: Resolver, interval: int,
                       buckets: Dict<Signature, Share>, i: nat, j: nat, x: Pending)
    requires Sound(ctx.es) && AllValid(resolve, machines)
    requires Bucketed(resolve, machines, buckets) && DistinctMachines(machines) && i < j < |buckets|
    ensures !(SharePending(ctx, buckets[i].1, interval, x) && SharePending(ctx, buckets[j].1, interval, x))
  {
    hide Sound, SignatureOf, IdsWith, SharePending, ValidProfile, TogetherPending;
    if SharePending(ctx, buckets[i].1, interval, x) && SharePending(ctx, buckets[j].1, interval, x) {
      var m := MachineOfShare(ctx, machines, resolve, interval, buckets[i].0, buckets[i].1, x);
      var n := MachineOfShare(ctx, machines, resolve, interval, buckets[j].0, buckets[j].1, x);
    }
  }

  method EvaluateShare(ctx: Context, b: Share, interval: int) returns (pending: seq<Pending>)
    requires ValidProfile(b.profile)
    ensures NoDups(pending) && forall x :: x in pending <==> SharePending(ctx, b, interval, x)
  {
    hide ValidRule, PendingAt, Targets, Due;
    var rules := Due(b.profile, interval);
    DueIsValid(b.profile, interval);
    if rules == [] { return []; }
    pending := EvaluateBucket(ctx, b.profile, rules, b.eqpIds);
    forall x ensures x in pending <==> SharePending(ctx, b, interval, x) {
      if x in pending {
        var r, at :| PendingFrom(ctx, b.profile, b.eqpIds, rules, x, r, at);
        assert TickPendingFrom(ctx, b.profile, b.eqpIds, interval, x, r, at);
      }
      if SharePending(ctx, b, interval, x) {
        var r, at :| TickPendingFrom(ctx, b.profile, b.eqpIds, interval, x, r, at);
        assert PendingFrom(ctx, b.profile, b.eqpIds, rules, x, r, at);
      }
    }
  }

  /** Some machine leaves `x` pending on its own. */
  ghost predicate SomeOwnPending(ctx: Context, resolve: Resolver, machines: seq<Machine>, interval: int, x: Pending) {
    exists m :: m in machines && OwnPending(ctx, resolve, m, interval, x)
  }

  /** Some machine's profile leaves `x` pending for it in the queries it shares. */
  ghost predicate SomeTogether(ctx: Context, resolve: Resolver, machines: seq<Machine>, interval: int, x: Pending) {
    exists m :: m in machines && TogetherPending(ctx, resolve, machines, m, interval, x)
  }

  ghost predicate IsDue(p: Profile, interval: int, rule: Rule) {
    rule in p.rules && rule.enabled && rule.interval == interval
  }

  /** `x` names rule `rule` at a target. */
  ghost predicate AlertBy(rule: Rule, at: Target, x: Pending) {
    x.breach.ruleId == rule.id && x.breach.eqpId == at.0 && x.breach.proc == at.1
  }

  /** A tick leaves an alert of a rule that is due pending at a target exactly when the rule's channel exists
      and what the rule asks holds of the target's rows. */
  lemma TickAlertsIff(ctx: Context, p: Profile, ids: seq<string>, interval: int, rule: Rule, at: Target)
    requires Sound(ctx.es) && ValidProfile(p) && IsDue(p, interval, rule)
    ensures ValidRule(rule)
    ensures (exists x :: TickPending(ctx, p, ids, interval, x) && AlertBy(rule, at, x))
       <==> Alerts(ctx, p, ids, rule, at)
  {
    hide Sound, Due, PendingAt, Targets, ValidProfile, ValidRule, ValidMeasure, Alerts;
    assert ValidRule(rule) by { RuleIsValid(p, rule); }
    DueIs(p, interval);
    PendingIff(ctx, p, ids, rule, at);
    if Alerts(ctx, p, ids, rule, at) {
      var x := PendingAt(ctx, p, ids, rule, at).value;
      assert TickPendingFrom(ctx, p, ids, interval, x, rule, at);
      PendingNamesItsSource(ctx, p, ids, rule, at);
      assert TickPending(ctx, p, ids, interval, x) && AlertBy(rule, at, x);
    }
    if x :| TickPending(ctx, p, ids, interval, x) && AlertBy(rule, at, x) {
      var r, bt :| TickPendingFrom(ctx, p, ids, interval, x, r, bt);
      PendingNamesItsSource(ctx, p, ids, r, bt);
      SameRule(p, r, rule);
      assert bt == (x.breach.eqpId, x.breach.proc) == at;
    }
  }

  lemma RuleIsValid(p: Profile, rule: Rule)
    requires ValidProfile(p) && rule in p.rules
    ensures ValidRule(rule)
  {
  }

  lemma SameRule(p: Profile, r: Rule, s: Rule)
    requires ValidProfile(p) && r in p.rules && s in p.rules && r.id == s.id
    ensures r == s
  {
    hide ValidMeasure, ValidRule;
    var i :| 0 <= i < |p.rules| && p.rules[i] == r;
    var j :| 0 <= j < |p.rules| && p.rules[j] == s;
    assert i == j;
  }

  /** And whatever it leaves pending reports a rule that is due. */
  lemma TickReports(ctx: Context, p: Profile, ids: seq<string>, interval: int, x: Pending)
    returns (rule: Rule, at: Target, k: nat)
    requires Sound(ctx.es) && TickPending(ctx, p, ids, interval, x)
    ensures IsDue(p, interval, rule) && ValidRule(rule) && Reports(ctx, p, ids, rule, at, x, k)
  {
    hide Sound, Due, PendingAt, Targets, ValidProfile, ValidRule, Reports;
    rule, at :| TickPendingFrom(ctx, p, ids, interval, x, rule, at);
    DueIs(p, interval);
    k := PendingReports(ctx, p, ids, rule, at);
  }

  /** `x` reports a rule that is due in `m`'s profile, for `m`. */
  ghost predicate ReportedFor(ctx: Context, resolve: Resolver, machines: seq<Machine>, m: Machine, interval: int,
                              x: Pending) {
    && m in machines && resolve(m).Some? && resolve(m).value.enabled
    && exists rule, k :: ReportedBy(ctx, resolve(m).value, Companions(resolve, machines, m), interval, m, x, rule, k)
  }

  ghost predicate ReportedBy(ctx: Context, p: Profile, ids: seq<string>, interval: int, m: Machine, x: Pending,
                             rule: Rule, k: nat) {
    IsDue(p, interval, rule) && ValidRule(rule) && Reports(ctx, p, ids, rule, (m.eqpId, x.breach.proc), x, k)
  }

  lemma TogetherIsReported(ctx: Context, resolve: Resolver, machines: seq<Machine>, m: Machine, interval: int,
                           x: Pending)
    requires Sound(ctx.es) && m in machines && TogetherPending(ctx, resolve, machines, m, interval, x)
    ensures ReportedFor(ctx, resolve, machines, m, interval, x)
  {
    hide Sound, TickPending, Companions, ValidRule, IsDue;
    var rule, at, k := TickReports(ctx, resolve(m).value, Companions(resolve, machines, m), interval, x);
    hide Reports;
    ReportsAt(ctx, resolve(m).value, Companions(resolve, machines, m), rule, at, x, k);
    assert ReportedBy(ctx, resolve(m).value, Companions(resolve, machines, m), interval, m, x, rule, k);
  }

  lemma ReportsAt(ctx: Context, p: Profile, ids: seq<string>, rule: Rule, at: Target, x: Pending, k: nat)
    requires ValidRule(rule) && Reports(ctx, p, ids, rule, at, x, k)
    ensures at == (x.breach.eqpId, x.breach.proc)
  {
  }

  /** Every machine's alerts follow from its rows. */
  ghost predicate FollowsRows(ctx: Context, resolve: Resolver, machines: seq<Machine>, interval: int,
                              pending: seq<Pending>)
  {
    forall m, rule, proc ::
      m in machines && resolve(m).Some? && resolve(m).value.enabled && IsDue(resolve(m).value, interval, rule)
      && ValidRule(rule) ==>
        ((exists x :: x in pending && AlertBy(rule, (m.eqpId, proc), x))
          <==> Alerts(ctx, resolve(m).value, Companions(resolve, machines, m), rule, (m.eqpId, proc)))
  }

  lemma TogetherReports(ctx: Context, resolve: Resolver, machines: seq<Machine>, interval: int, x: Pending)
    requires Sound(ctx.es) && SomeTogether(ctx, resolve, machines, interval, x)
    ensures exists m :: ReportedFor(ctx, resolve, machines, m, interval, x)
  {
    hide Sound, TogetherPending, ReportedFor;
    var m :| m in machines && TogetherPending(ctx, resolve, machines, m, interval, x);
    TogetherIsReported(ctx, resolve, machines, m, interval, x);
  }

  lemma TogetherFollowsRows(ctx: Context, resolve: Resolver, machines: seq<Machine>, interval: int,
                            pending: seq<Pending>)
    requires Sound(ctx.es) && AllValid(resolve, machines) && DistinctMachines(machines)
    requires forall x :: x in pending <==> SomeTogether(ctx, resolve, machines, interval, x)
    ensures FollowsRows(ctx, resolve, machines, interval, pending)
  {
    hide Sound, TickPending, Companions, ValidProfile, ValidRule, Alerts, IsDue;
    forall m, rule, proc
      | m in machines && Runs(resolve, m) && IsDue(resolve(m).value, interval, rule) && ValidRule(rule)
      ensures (exists x :: x in pending && AlertBy(rule, (m.eqpId, proc), x))
         <==> Alerts(ctx, resolve(m).value, Companions(resolve, machines, m), rule, (m.eqpId, proc))
    {
      var at := (m.eqpId, proc);
      TickAlertsIff(ctx, resolve(m).value, Companions(resolve, machines, m), interval, rule, at);
      if x :| x in pending && AlertBy(rule, at, x) {
        var n :| n in machines && TogetherPending(ctx, resolve, machines, n, interval, x);
        assert n == m;
      }
      if x :| TickPending(ctx, resolve(m).value, Companions(resolve, machines, m), interval, x)
              && AlertBy(rule, at, x) {
        assert TogetherPending(ctx, resolve, machines, m, interval, x);
      }
    }
  }

  /** For a machine no query leaves out that is what it leaves pending on its own. */
  lemma HeardMeansOwn(ctx: Context, resolve: Resolver, machines: seq<Machine>, interval: int, x: Pending)
    requires Sound(ctx.es) && AllValid(resolve, machines) && HeardInTick(ctx, resolve, machines, x.breach.eqpId)
    ensures SomeTogether(ctx, resolve, machines, interval, x) <==> SomeOwnPending(ctx, resolve, machines, interval, x)
  {
    hide Sound, TogetherPending, OwnPending, HeardInTick, AllValid;
    forall m | m in machines
      ensures TogetherPending(ctx, resolve, machines, m, interval, x) <==> OwnPending(ctx, resolve, m, interval, x)
    {
      TogetherIsOwn(ctx, resolve, machines, m, interval, x);
    }
  }

  /** One of the first `n` buckets leaves `x` pending. */
  ghost predicate SomeSharePending(ctx: Context, buckets: Dict<Signature, Share>, n: nat, interval: int, x: Pending)
    requires n <= |buckets|
  {
    exists j :: 0 <= j < n && SharePending(ctx, buckets[j].1, interval, x)
  }

  lemma SharesAreMachines(ctx: Context, machines: seq<Machine>, resolve: Resolver, interval: int,
                          buckets: Dict<Signature, Share>, x: Pending)
    requires Sound(ctx.es) && AllValid(resolve, machines) && Bucketed(resolve, machines, buckets)
    ensures SomeSharePending(ctx, buckets, |buckets|, interval, x)
       <==> SomeTogether(ctx, resolve, machines, interval, x)
  {
    hide Sound, TogetherPending, SharePending, ValidProfile;
    if SomeSharePending(ctx, buckets, |buckets|, interval, x) {
      var j :| 0 <= j < |buckets| && SharePending(ctx, buckets[j].1, interval, x);
      var m := MachineOfShare(ctx, machines, resolve, interval, buckets[j].0, buckets[j].1, x);
    }
    if SomeTogether(ctx, resolve, machines, interval, x) {
      var m :| m in machines && TogetherPending(ctx, resolve, machines, m, interval, x);
      var k := ShareOfMachine(ctx, machines, resolve, interval, buckets, m, x);
    }
  }

  lemma OneShareMore(ctx: Context, machines: seq<Machine>, resolve: Resolver, interval: int,
                     buckets: Dict<Signature, Share>, k: nat, before: seq<Pending>, more: seq<Pending>)
    requires Sound(ctx.es) && AllValid(resolve, machines)
    requires Bucketed(resolve, machines, buckets) && k < |buckets|
    requires forall x :: x in before <==> SomeSharePending(ctx, buckets, k, interval, x)
    requires NoDups(more) && forall x :: x in more <==> SharePending(ctx, buckets[k].1, interval, x)
    ensures forall x :: x in before + more <==> SomeSharePending(ctx, buckets, k + 1, interval, x)
    ensures DistinctMachines(machines) && NoDups(before) ==> NoDups(before + more)
  {
    hide Sound, SharePending, AllValid, Bucketed, DistinctMachines;
    if DistinctMachines(machines) && NoDups(before) {
      forall x | x in before ensures x !in more {
        var j: nat :| j < k && SharePending(ctx, buckets[j].1, interval, x);
        SharesDisjoint(ctx, machines, resolve, interval, buckets, j, k, x);
      }
      NoDupsConcat(before, more);
    }
  }

  /** The evaluating part of `_do_analysis`: what is pending after the bucketed tick is exactly what each
      machine's profile leaves pending for it in the shared queries; for every machine none of them leaves
      out, what it leaves pending alone under its own profile; and nothing twice. */
  method DoAnalysis(ctx: Context, machines: seq<Machine>, resolve: Resolver, interval: int)
    returns (pending: seq<Pending>)
    requires Sound(ctx.es) && AllValid(resolve, machines)
    ensures forall x :: x in pending <==> SomeTogether(ctx, resolve, machines, interval, x)
    ensures forall x: Pending :: HeardInTick(ctx, resolve, machines, x.breach.eqpId) ==>
      (x in pending <==> SomeOwnPending(ctx, resolve, machines, interval, x))
    ensures DistinctMachines(machines) ==> NoDups(pending) && FollowsRows(ctx, resolve, machines, interval, pending)
    ensures forall x :: x in pending ==> exists m :: ReportedFor(ctx, resolve, machines, m, interval, x)
  {
    forall x | SomeTogether(ctx, resolve, machines, interval, x)
      ensures exists m :: ReportedFor(ctx, resolve, machines, m, interval, x)
    {
      TogetherReports(ctx, resolve, machines, interval, x);
    }
    hide ReportedFor, FollowsRows, Sound, SharePending, ValidProfile, SomeTogether, SomeOwnPending, HeardInTick,
         DistinctMachines;
    forall x: Pending | HeardInTick(ctx, resolve, machines, x.breach.eqpId)
      ensures SomeTogether(ctx, resolve, machines, interval, x) <==> SomeOwnPending(ctx, resolve, machines, interval, x)
    {
      HeardMeansOwn(ctx, resolve, machines, interval, x);
    }
    pending := [];
    if machines == [] {
      NobodyPending(ctx, resolve, machines, interval);
      if DistinctMachines(machines) { TogetherFollowsRows(ctx, resolve, machines, interval, pending); }
      return;
    }
    var buckets := Bucketize(machines, resolve);
    for k := 0 to |buckets|
      invariant forall x :: x in pending <==> SomeSharePending(ctx, buckets, k, interval, x)
      invariant DistinctMachines(machines) ==> NoDups(pending)
    {
      assert GoodBucket(resolve, machines, buckets[k].0, buckets[k].1);
      var more := EvaluateShare(ctx, buckets[k].1, interval);
      OneShareMore(ctx, machines, resolve, interval, buckets, k, pending, more);
      pending := pending + more;
    }
    forall x ensures x in pending <==> SomeTogether(ctx, resolve, machines, interval, x) {
      SharesAreMachines(ctx, machines, resolve, interval, buckets, x);
    }
    if DistinctMachines(machines) { TogetherFollowsRows(ctx, resolve, machines, interval, pending); }
  }

  lemma NobodyPending(ctx: Context, resolve: Resolver, machines: seq<Machine>, interval: int)
    requires machines == []
    ensures forall x :: !SomeTogether(ctx, resolve, machines, interval, x)
  {
    hide TogetherPending;
  }

  // ---------------------------------------------------------------- with profiles from the store

  /** Each machine's profile, freshly folded from the stored documents. */
  function FromStore(docs: seq<StoredDoc>, process: string, blank: Governance): Resolver {
    (m: Machine) => Resolve(docs, process, if m.model.Some? then m.model.value else "*", m.eqpId, blank)
  }

  /** Valid stored documents give every machine a valid profile. */
  lemma StoreGivesValid(docs: seq<StoredDoc>, process: string, blank: Governance, machines: seq<Machine>)
    requires forall d :: d in docs ==> ValidProfile(Load(d))
    ensures AllValid(FromStore(docs, process, blank), machines)
  {
    hide ValidProfile, Fold, Load, Ancestors;
    forall m | m in machines && FromStore(docs, process, blank)(m).Some?
      ensures ValidProfile(FromStore(docs, process, blank)(m).value)
    {
      var model := if m.model.Some? then m.model.value else "*";
      var scopes := Ancestors(process, model, m.eqpId);
      RankLeIsPreorder();
      forall p | p in Chain(docs, process, model, m.eqpId) ensures ValidProfile(p) {
        SortMembers(RankLe, Selected(docs, scopes), p);
        var i := SelectedSource(docs, scopes, p);
        assert docs[i] in docs;
      }
      FoldIsValid(Chain(docs, process, model, m.eqpId), Scope(process, model, m.eqpId), blank);
    }
  }

  /** A machine without a model gets the documents for all processes and for its process, and only those. */
  lemma ModellessMachine(docs: seq<StoredDoc>, process: string, blank: Governance, eqpId: string)
    ensures FromStore(docs, process, blank)(Machine(eqpId, None)).Some? <==>
      exists d :: d in docs && d.scope in {Scope("*", "*", "*"), Scope(process, "*", "*")}
    ensures forall s :: s in Ancestors(process, "*", eqpId) <==> s in {Scope("*", "*", "*"), Scope(process, "*", "*")}
  {
    hide Fold, Chain, Load;
    ChainMembers(docs, process, "*", eqpId);
    AncestorsAre(process, "*", eqpId);
    var chain := Chain(docs, process, "*", eqpId);
    if chain != [] { assert chain[0] in chain; }
    if d :| d in docs && d.scope in {Scope("*", "*", "*"), Scope(process, "*", "*")} {
      assert Reaches(docs, process, "*", eqpId, d);
      assert Load(d) in chain;
    }
  }

  /** A machine with a model gets the documents whose scope covers it. */
  lemma MachineSees(docs: seq<StoredDoc>, process: string, blank: Governance, eqpId: string, model: string)
    ensures FromStore(docs, process, blank)(Machine(eqpId, Some(model))).Some? <==>
      exists d :: Reaches(docs, process, model, eqpId, d)
  {
    hide Fold, Chain, Load, Reaches;
    ChainMembers(docs, process, model, eqpId);
    var chain := Chain(docs, process, model, eqpId);
    if chain != [] { assert chain[0] in chain; }
    if d :| Reaches(docs, process, model, eqpId, d) { assert Load(d) in chain; }
  }
}
