/** Assignments, reloads and reconciles interleaved at their await points on one instance: the two
    job-set mutators queue for one lock and wait for Mongo while holding it. */
module SchedulerRuns {
  import opened Wrappers
  import opened JobIds
  import opened Scheduler
  import opened Ownership

  datatype Call = ReloadCall(processes: seq<string>) | ReconcileCall

  /** Who holds the lock, how many of its processes it has read, and the pairs read so far. */
  datatype Holder =
    | Nobody
    | Reloading(processes: seq<string>, next: nat, got: set<JobKey>)
    | Reconciling(processes: seq<string>, next: nat, got: set<JobKey>)

  /** `accepted` says that an assignment was accepted and no session loss followed. */
  datatype Instance = Instance(
    member: Member, accepted: bool, owned: Option<seq<string>>, jobs: Jobs, stamp: nat,
    waiting: seq<Call>, holder: Holder, paused: bool, running: bool)

  datatype Move =
    | Delivered(p: Payload)                 // accepting and queueing the reload is one stretch
    | ReconcileRequested
    | LockGranted                           // first in, first out
    | MongoAnswers(intervals: seq<int>)
    | MongoFails
    | LockReleased
    | SessionLost
    | Paused
    | Resumed
    | Started

  ghost predicate Initial(s: Instance) {
    s == Instance(FRESH, false, None, map[], 0, [], Nobody, false, false)
  }

  ghost predicate Moves(s: Instance, a: Move, t: Instance) {
    match a
    case Delivered(p) =>
      t == if !Supersedes(p, s.member) then s
           else s.(member := Adopt(p), accepted := true, waiting := s.waiting + [ReloadCall(p.processes)])
    case ReconcileRequested =>
      t == s.(waiting := s.waiting + [ReconcileCall])
    case LockGranted =>
      && s.holder.Nobody? && s.waiting != []
      && var u := s.(waiting := s.waiting[1..], stamp := s.stamp + 1);
         if s.waiting[0].ReloadCall? then
           var ps := s.waiting[0].processes;
           t == u.(jobs := map[], owned := Some(ps), holder := Reloading(ps, 0, {}))
         else if s.paused || !s.running || s.owned.None? || s.owned.value == [] then t == u
         else t == u.(holder := Reconciling(s.owned.value, 0, {}))
    case MongoAnswers(ivs) =>
      && !s.holder.Nobody? && s.holder.next < |s.holder.processes|
      && var keys := KeysFor(s.holder.processes[s.holder.next], ivs);
         && t == s.(jobs := t.jobs, holder := s.holder.(next := s.holder.next + 1, got := s.holder.got + keys))
         && (s.holder.Reloading? ==> Added(s.jobs, keys, s.stamp, t.jobs))
         && (s.holder.Reconciling? ==> t.jobs == s.jobs)
    case MongoFails =>
      !s.holder.Nobody? && s.holder.next < |s.holder.processes| && t == s.(holder := Nobody)
    case LockReleased =>
      && !s.holder.Nobody? && s.holder.next == |s.holder.processes|
      && t == s.(jobs := t.jobs, holder := Nobody)
      && (s.holder.Reloading? ==> t.jobs == s.jobs)
      && (s.holder.Reconciling? ==> Reconciled(s.jobs, s.holder.got, s.stamp, t.jobs))
    case SessionLost => t == s.(member := FRESH, accepted := false, paused := true)
    case Paused => t == s.(paused := true)
    case Resumed => t == s.(paused := false)
    case Started => t == s.(running := true)
  }

  ghost predicate IsRun(run: seq<Instance>, steps: seq<Move>) {
    && |run| == |steps| + 1 && Initial(run[0])
    && forall k :: 0 <= k < |steps| ==> Moves(run[k], steps[k], run[k + 1])
  }

  /** Every registered job belongs to a process this instance owns. */
  ghost predicate JobsOwned(s: Instance) {
    forall id :: id in s.jobs ==> s.owned.Some? && s.jobs[id].process in s.owned.value
  }

  /** The lock holder works for the present owner list, undisturbed by the other mutator. */
  ghost predicate HolderCurrent(s: Instance) {
    !s.holder.Nobody? ==>
      && s.owned == Some(s.holder.processes)
      && (forall k :: k in s.holder.got ==> k.0 in s.holder.processes)
      && (s.holder.Reloading? ==> Built(s.jobs, s.holder.got, s.stamp))
  }

  /** The list of the last reload still waiting, or the owned one when none waits. */
  function LastHandedOver(owned: Option<seq<string>>, waiting: seq<Call>): Option<seq<string>> {
    if waiting == [] then owned
    else
      var n := |waiting| - 1;
      if waiting[n].ReloadCall? then Some(waiting[n].processes) else LastHandedOver(owned, waiting[..n])
  }

  ghost predicate Inv(s: Instance) {
    && ValidTable(s.jobs) && JobsOwned(s) && HolderCurrent(s)
    && (s.accepted ==> LastHandedOver(s.owned, s.waiting) == Some(s.member.processes))
  }

  lemma {:induction false} HandOverPopped(owned: Option<seq<string>>, waiting: seq<Call>)
    requires waiting != []
    ensures LastHandedOver(owned, waiting) ==
      LastHandedOver(if waiting[0].ReloadCall? then Some(waiting[0].processes) else owned, waiting[1..])
  {
    var n := |waiting| - 1;
    if n > 0 && waiting[n].ReconcileCall? {
      HandOverPopped(owned, waiting[..n]);
      assert waiting[1..][..n - 1] == waiting[..n][1..];
    }
  }

  lemma AnswerKeepsInv(s: Instance, ivs: seq<int>, t: Instance)
    requires Inv(s) && Moves(s, MongoAnswers(ivs), t)
    ensures Inv(t)
  {
    hide Print, Parse;
    KeysForMembers(s.holder.processes[s.holder.next], ivs);
  }

  lemma ReleaseKeepsInv(s: Instance, t: Instance)
    requires Inv(s) && Moves(s, LockReleased, t)
    ensures Inv(t)
  {
    hide Print, Parse;
  }

  lemma StepKeepsInv(s: Instance, a: Move, t: Instance)
    requires Inv(s) && Moves(s, a, t)
    ensures Inv(t)
  {
    hide Print, Parse;
    match a
    case Delivered(p) => assert (s.waiting + [ReloadCall(p.processes)])[..|s.waiting|] == s.waiting;
    case ReconcileRequested => assert (s.waiting + [ReconcileCall])[..|s.waiting|] == s.waiting;
    case LockGranted => HandOverPopped(s.owned, s.waiting);
    case MongoAnswers(ivs) => AnswerKeepsInv(s, ivs, t);
    case LockReleased => ReleaseKeepsInv(s, t);
    case _ =>
  }

  lemma {:induction false} RunKeepsInv(run: seq<Instance>, steps: seq<Move>, k: nat)
    requires IsRun(run, steps) && k < |run|
    ensures Inv(run[k])
  {
    if k > 0 {
      RunKeepsInv(run, steps, k - 1);
      StepKeepsInv(run[k - 1], steps[k - 1], run[k]);
    }
  }

  /** In every reachable state no job is registered for a process that is not owned. */
  lemma NoForeignJobs(run: seq<Instance>, steps: seq<Move>, k: nat)
    requires IsRun(run, steps) && k < |run|
    ensures JobsOwned(run[k])
  {
    RunKeepsInv(run, steps, k);
  }

  lemma {:induction false} NoReloadWaiting(owned: Option<seq<string>>, waiting: seq<Call>)
    requires forall k :: 0 <= k < |waiting| ==> waiting[k].ReconcileCall?
    ensures LastHandedOver(owned, waiting) == owned
  {
    if waiting != [] { NoReloadWaiting(owned, waiting[..|waiting| - 1]); }
  }

  /** Once the last accepted assignment's reload has got the lock, and no session loss came since,
      the scheduler works for exactly the processes assigned. */
  lemma OwnershipCatchesUp(run: seq<Instance>, steps: seq<Move>, k: nat)
    requires IsRun(run, steps) && k < |run| && run[k].accepted
    requires forall j :: 0 <= j < |run[k].waiting| ==> run[k].waiting[j].ReconcileCall?
    ensures run[k].owned == Some(run[k].member.processes)
  {
    RunKeepsInv(run, steps, k);
    NoReloadWaiting(run[k].owned, run[k].waiting);
  }

  /** While a reload holds the lock, nothing it registered is lost and nothing else is registered:
      at its release the table is what the reads asked for. */
  lemma ReloadUndisturbed(run: seq<Instance>, steps: seq<Move>, k: nat)
    requires IsRun(run, steps) && k < |run| && run[k].holder.Reloading?
    ensures Built(run[k].jobs, run[k].holder.got, run[k].stamp)
  {
    RunKeepsInv(run, steps, k);
  }

  // ---------------------------------------------------------------- reconciles in reachable states

  /** A job registered before the present reconcile has an older stamp. */
  ghost predicate StampsPast(s: Instance) {
    forall id :: id in s.jobs ==> s.jobs[id].stamp <= s.stamp && (s.holder.Reconciling? ==> s.jobs[id].stamp < s.stamp)
  }

  lemma StepKeepsStamps(s: Instance, a: Move, t: Instance)
    requires StampsPast(s) && Moves(s, a, t)
    ensures StampsPast(t)
  {
    hide Print, Parse;
  }

  lemma {:induction false} RunKeepsStamps(run: seq<Instance>, steps: seq<Move>, k: nat)
    requires IsRun(run, steps) && k < |run|
    ensures StampsPast(run[k])
  {
    hide Moves, StampsPast;
    if k > 0 {
      RunKeepsStamps(run, steps, k - 1);
      StepKeepsStamps(run[k - 1], steps[k - 1], run[k]);
    } else {
      NoStampsYet(run[0]);
    }
  }

  lemma NoStampsYet(s: Instance)
    requires Initial(s)
    ensures StampsPast(s)
  {
  }

  /** Step `k` is a reconcile giving back the lock after all its reads were answered. */
  ghost predicate ReconcileEnds(run: seq<Instance>, steps: seq<Move>, k: nat) {
    IsRun(run, steps) && k < |steps| && steps[k].LockReleased? && run[k].holder.Reconciling?
  }

  /** In every reachable state a reconcile ends with the ids a fresh reload with its answers would
      register exactly when each registered id that does not read back is one a wanted pair prints; and
      a job there before and after is the very same one unless a wanted pair that does not read back
      prints its id. */
  lemma ReachableReconcileMatchesReloadIff(run: seq<Instance>, steps: seq<Move>, k: nat, rebuilt: Jobs, stamp2: nat)
    requires ReconcileEnds(run, steps, k) && Built(rebuilt, run[k].holder.got, stamp2)
    ensures var before, wanted, after := run[k].jobs, run[k].holder.got, run[k + 1].jobs;
      && (after.Keys == rebuilt.Keys <==> forall id :: id in before && Parse(id).None? ==> PrintsOne(wanted, id))
      && forall id :: id in before && id in after ==>
           (after[id] == before[id] <==> forall p :: p in wanted && Print(p) == id ==> Readable(p))
  {
    hide Print, Parse, Readable, Reconciled, Built, PrintsOne;
    RunKeepsInv(run, steps, k);
    RunKeepsStamps(run, steps, k);
    assert Moves(run[k], steps[k], run[k + 1]);
    var before, wanted, after, stamp := run[k].jobs, run[k].holder.got, run[k + 1].jobs, run[k].stamp;
    assert Reconciled(before, wanted, stamp, after);
    ReconcileMatchesReloadIff(before, wanted, stamp, after, rebuilt, stamp2);
    forall id | id in before && id in after
      ensures after[id] == before[id] <==> forall p :: p in wanted && Print(p) == id ==> Readable(p)
    {
      JobKeptIff(before, wanted, stamp, after, id);
    }
  }

  /** An answer of Mongo asks only for pairs that read back. */
  ghost predicate AnswerReadsBack(s: Instance, a: Move) {
    a.MongoAnswers? && !s.holder.Nobody? && s.holder.next < |s.holder.processes| ==>
      AllReadable(KeysFor(s.holder.processes[s.holder.next], a.intervals))
  }

  ghost predicate ReadsReadable(run: seq<Instance>, steps: seq<Move>) {
    forall k :: 0 <= k < |steps| && k < |run| ==> AnswerReadsBack(run[k], steps[k])
  }

  ghost predicate AllReadBack(s: Instance) {
    ReadableTable(s.jobs) && (!s.holder.Nobody? ==> AllReadable(s.holder.got))
  }

  lemma StepReadsBack(s: Instance, a: Move, t: Instance)
    requires AllReadBack(s) && Moves(s, a, t) && AnswerReadsBack(s, a)
    ensures AllReadBack(t)
  {
    hide Print, Parse, Readable, KeysFor;
  }

  lemma {:induction false} RunReadsBack(run: seq<Instance>, steps: seq<Move>, k: nat)
    requires IsRun(run, steps) && ReadsReadable(run, steps) && k < |run|
    ensures AllReadBack(run[k])
  {
    hide AnswerReadsBack, Moves, AllReadBack;
    if k > 0 {
      RunReadsBack(run, steps, k - 1);
      StepReadsBack(run[k - 1], steps[k - 1], run[k]);
    } else {
      NothingToReadBack(run[0]);
    }
  }

  lemma NothingToReadBack(s: Instance)
    requires Initial(s)
    ensures AllReadBack(s)
  {
  }

  /** So while every pair ever read has a one-line process name and no negative interval, each reconcile
      ends with exactly the jobs of a fresh reload, restarts none it keeps, and reports a change exactly
      when the ids change. */
  lemma ReadableRunsReconcile(run: seq<Instance>, steps: seq<Move>, k: nat, rebuilt: Jobs, stamp2: nat)
    requires ReconcileEnds(run, steps, k) && ReadsReadable(run, steps)
    requires Built(rebuilt, run[k].holder.got, stamp2)
    ensures var before, wanted, after := run[k].jobs, run[k].holder.got, run[k + 1].jobs;
      && after.Keys == rebuilt.Keys
      && (forall id :: id in rebuilt ==> KeyOf(after[id]) == KeyOf(rebuilt[id]))
      && (forall id :: id in before && id in after ==> after[id] == before[id])
      && (wanted != CurrentKeys(before) <==> before.Keys != after.Keys)
  {
    hide Print, Parse, Readable, Reconciled, Built, CurrentKeys;
    RunReadsBack(run, steps, k);
    assert Moves(run[k], steps[k], run[k + 1]);
    ReconcileMatchesReload(run[k].jobs, run[k].holder.got, run[k].stamp, run[k + 1].jobs, rebuilt, stamp2);
  }

  // A run where one does not: the empty process name is assigned with an interval of 5 minutes, then the
  // interval goes away.
  const ASSIGNED := Payload(1, 1.0, [""])
  const S0 := Instance(FRESH, false, None, map[], 0, [], Nobody, false, false)
  const S1 := S0.(member := Adopt(ASSIGNED), accepted := true, waiting := [ReloadCall([""])])
  const S2 := S1.(waiting := [], stamp := 1, owned := Some([""]), holder := Reloading([""], 0, {}))
  const S3 := S2.(jobs := map[Print(("", 5)) := Job("", 5, 1)], holder := Reloading([""], 1, {("", 5)}))
  const S4 := S3.(holder := Nobody)
  const S5 := S4.(running := true)
  const S6 := S5.(waiting := [ReconcileCall])
  const S7 := S6.(waiting := [], stamp := 2, holder := Reconciling([""], 0, {}))
  const S8 := S7.(holder := Reconciling([""], 1, {}))
  const S9 := S8.(holder := Nobody)

  lemma EmptyNameReloads()
    ensures Moves(S0, Delivered(ASSIGNED), S1) && Moves(S1, LockGranted, S2) && Moves(S3, LockReleased, S4)
  {
    hide Print, Parse;
    assert [] + [ReloadCall([""])] == [ReloadCall([""])] && [ReloadCall([""])][1..] == [];
  }

  lemma EmptyNameReconciles()
    ensures Moves(S4, Started, S5) && Moves(S5, ReconcileRequested, S6) && Moves(S6, LockGranted, S7)
  {
    hide Print, Parse;
    assert [] + [ReconcileCall] == [ReconcileCall] && [ReconcileCall][1..] == [];
  }

  /** The reconcile wants nothing, a reload would register nothing, and the job stays. */
  lemma EmptyNameStays() returns (run: seq<Instance>, steps: seq<Move>)
    ensures |steps| == 9 && ReconcileEnds(run, steps, 8)
    ensures run[8].holder.got == {} && Print(("", 5)) in run[9].jobs
  {
    hide Print, Parse, Moves;
    EmptyNameReloads();
    EmptyNameAnswers(S2, S3, S7, S8);
    EmptyNameReconciles();
    EmptyNameKept(S8, S9);
    run := [S0, S1, S2, S3, S4, S5, S6, S7, S8, S9];
    steps := [Delivered(ASSIGNED), LockGranted, MongoAnswers([5]), LockReleased, Started, ReconcileRequested,
              LockGranted, MongoAnswers([]), LockReleased];
  }

  lemma EmptyNameAnswers(s2: Instance, s3: Instance, s7: Instance, s8: Instance)
    requires s2.holder == Reloading([""], 0, {}) && s2.jobs == map[] && s2.stamp == 1
    requires s3 == s2.(jobs := map[Print(("", 5)) := Job("", 5, 1)], holder := Reloading([""], 1, {("", 5)}))
    requires s7.holder == Reconciling([""], 0, {}) && s8 == s7.(holder := Reconciling([""], 1, {}))
    ensures Moves(s2, MongoAnswers([5]), s3) && Moves(s7, MongoAnswers([]), s8)
  {
    hide Print, Parse;
    assert [5][..0] == [];
    assert KeysFor("", [5]) == {("", 5)} && KeysFor("", []) == {};
    assert {} + KeysFor("", [5]) == {("", 5)} && {} + KeysFor("", []) == {};
  }

  lemma EmptyNameKept(s8: Instance, s9: Instance)
    requires s8.jobs == map[Print(("", 5)) := Job("", 5, 1)] && s8.holder == Reconciling([""], 1, {})
    requires s8.stamp == 2 && s9 == s8.(holder := Nobody)
    ensures Moves(s8, LockReleased, s9)
  {
    ParseOfPrinted("", Numeral(5));
    hide Print, Parse;
    assert CurrentKeys(s8.jobs) == {};
    NothingToApply(s8.jobs, {}, 2);
  }
}
