/** The analysis scheduler's job table: rebuilt by `reload` when the partition changes, adjusted by
    `reconcile` when a profile's cadence does. Normal (not debug) mode. */
module Scheduler {
  import opened Wrappers
  import opened JobIds

  /** A registered job. `stamp` tells which reload or reconcile registered it: replacing a job
      restarts its timer and shows as a new stamp. */
  datatype Job = Job(process: string, interval: int, stamp: nat)

  type Jobs = map<JobId, Job>

  function KeyOf(j: Job): JobKey {
    (j.process, j.interval)
  }

  /** The answers of `get_scheduling_intervals`, call by call; `None` is a Mongo failure. */
  type Reads = nat -> Option<seq<int>>

  ghost predicate AllAnswered(read: Reads, n: nat) {
    forall k: nat :: k < n ==> read(k).Some?
  }

  function KeysFor(process: string, intervals: seq<int>): set<JobKey> {
    if intervals == [] then {}
    else
      var n := |intervals| - 1;
      KeysFor(process, intervals[..n]) + {(process, intervals[n])}
  }

  lemma {:induction false} KeysForMembers(process: string, intervals: seq<int>)
    ensures forall k :: k in KeysFor(process, intervals) <==> k.0 == process && k.1 in intervals
  {
    if intervals != [] {
      var n := |intervals| - 1;
      KeysForMembers(process, intervals[..n]);
      assert intervals == intervals[..n] + [intervals[n]];
    }
  }

  /** The (process, interval) pairs the first `n` answers ask for. */
  function Wanted(processes: seq<string>, read: Reads, n: nat): set<JobKey>
    requires n <= |processes|
  {
    if n == 0 then {}
    else Wanted(processes, read, n - 1) +
         (if read(n - 1).Some? then KeysFor(processes[n - 1], read(n - 1).value) else {})
  }

  /** The pairs the registered ids read back as. */
  function CurrentKeys(jobs: Jobs): set<JobKey> {
    set id | id in jobs && Parse(id).Some? :: Parse(id).value
  }

  /** Jobs are stored under the id printed for them. */
  ghost predicate ValidTable(jobs: Jobs) {
    forall id :: id in jobs ==> Print(KeyOf(jobs[id])) == id
  }

  /** `jobs` was built from nothing for `keys`. */
  ghost predicate Built(jobs: Jobs, keys: set<JobKey>, stamp: nat) {
    && (forall k :: k in keys ==> Print(k) in jobs)
    && (forall id :: id in jobs ==>
          KeyOf(jobs[id]) in keys && Print(KeyOf(jobs[id])) == id && jobs[id].stamp == stamp)
  }

  /** `id` reads back as a pair nobody wants any more. */
  predicate Stale(wanted: set<JobKey>, id: JobId) {
    Parse(id).Some? && Parse(id).value !in wanted
  }

  /** `id` is printed for one of `keys`. */
  ghost predicate PrintsOne(keys: set<JobKey>, id: JobId) {
    exists k :: k in keys && Print(k) == id
  }

  /** `after` is `before` with the jobs of `keys` put on top. */
  ghost predicate Added(before: Jobs, keys: set<JobKey>, stamp: nat, after: Jobs) {
    && (forall k :: k in keys ==> Print(k) in after)
    && (forall id :: id in before ==> id in after)
    && (forall id :: id in after ==>
          || (id in before && after[id] == before[id] && !PrintsOne(keys, id))
          || (KeyOf(after[id]) in keys && Print(KeyOf(after[id])) == id && after[id].stamp == stamp))
  }

  /** What one pass of `reconcile` makes of `before`: stale ids go, missing pairs come, and whatever
      was not re-registered is the very job it was. */
  ghost predicate Reconciled(before: Jobs, wanted: set<JobKey>, stamp: nat, after: Jobs) {
    Added(map id | id in before && !Stale(wanted, id) :: before[id], wanted - CurrentKeys(before), stamp, after)
  }

  lemma NothingToApply(jobs: Jobs, wanted: set<JobKey>, stamp: nat)
    requires wanted == CurrentKeys(jobs)
    ensures Reconciled(jobs, wanted, stamp, jobs)
  {
    assert forall id :: id in jobs ==> !Stale(wanted, id);
  }

  /** Removing the unwanted pairs' ids removes the stale ids. */
  lemma RemovedAreStale(jobs: Jobs, wanted: set<JobKey>, toRemove: set<JobKey>)
    requires ValidTable(jobs) && toRemove == CurrentKeys(jobs) - wanted
    ensures forall id :: id in jobs ==> (Stale(wanted, id) <==> PrintsOne(toRemove, id))
  {
    forall id | id in jobs ensures Stale(wanted, id) <==> PrintsOne(toRemove, id) {
      PrintOfParsed(KeyOf(jobs[id]));
      if k :| k in toRemove && Print(k) == id {
        var at :| at in jobs && Parse(at).Some? && Parse(at).value == k;
        PrintOfParsed(KeyOf(jobs[at]));
      }
    }
  }

  datatype Outcome = Done(changed: bool) | MongoUnavailable

  class AnalysisScheduler {
    var jobs: Jobs
    var stamp: nat
    var paused: bool
    var running: bool
    var ownedProcesses: Option<seq<string>>

    constructor ()
      ensures jobs == map[] && ownedProcesses == None && !paused && !running
    {
      jobs, stamp, paused, running, ownedProcesses := map[], 0, false, false, None;
    }

    method Start()
      modifies this`running
      ensures running
    {
      running := true;
    }

    method PauseAllJobs()
      modifies this`paused
      ensures paused
    {
      paused := true;
    }

    /** The processes passed along are only logged. */
    method ResumeJobsFor(processes: seq<string>)
      modifies this`paused
      ensures !paused
    {
      paused := false;
    }

    method AddIntervalJob(process: string, interval: int)
      modifies this`jobs
      ensures jobs == old(jobs)[Print((process, interval)) := Job(process, interval, stamp)]
    {
      jobs := jobs[Print((process, interval)) := Job(process, interval, stamp)];
    }

    /** Rebuilds the table. After a failed read the jobs of the processes before it stay. */
    method Reload(processes: Option<seq<string>>, read: Reads) returns (outcome: Outcome)
      modifies this`jobs, this`stamp, this`ownedProcesses
      ensures stamp == old(stamp) + 1
      ensures processes.None? ==> jobs == map[] && ownedProcesses == old(ownedProcesses)
      ensures processes.Some? ==> ownedProcesses == processes
      ensures processes.Some? ==> (outcome.Done? <==> AllAnswered(read, |processes.value|))
      ensures processes.Some? && outcome.Done? ==>
        Built(jobs, Wanted(processes.value, read, |processes.value|), stamp)
      ensures processes.Some? && outcome.MongoUnavailable? ==>
        exists k: nat :: k < |processes.value| && AllAnswered(read, k) && read(k).None?
                      && Built(jobs, Wanted(processes.value, read, k), stamp)
    {
      hide Print, Parse, KeysFor;
      jobs, stamp := map[], stamp + 1;
      if processes.None? { return Done(true); }
      var owned := processes.value;
      ownedProcesses := Some(owned);
      var n := 0;
      while n < |owned|
        invariant n <= |owned| && AllAnswered(read, n)
        invariant stamp == old(stamp) + 1 && ownedProcesses == processes
        invariant Built(jobs, Wanted(owned, read, n), stamp)
      {
        var answer := read(n);
        if answer.None? { return MongoUnavailable; }
        RegisterAll(owned[n], answer.value, Wanted(owned, read, n));
        n := n + 1;
      }
      return Done(true);
    }

    method RegisterAll(process: string, intervals: seq<int>, ghost registered: set<JobKey>)
      requires Built(jobs, registered, stamp)
      modifies this`jobs
      ensures Built(jobs, registered + KeysFor(process, intervals), stamp)
    {
      var i := 0;
      assert KeysFor(process, intervals[..0]) == {};
      while i < |intervals|
        invariant i <= |intervals|
        invariant Built(jobs, registered + KeysFor(process, intervals[..i]), stamp)
      {
        assert intervals[..i + 1][..i] == intervals[..i];
        AddIntervalJob(process, intervals[i]);
        i := i + 1;
      }
      assert intervals[..i] == intervals;
    }

    /** `_current_interval_jobs`: read-back pair to id. */
    method CurrentIntervalJobs() returns (out: map<JobKey, JobId>)
      requires ValidTable(jobs)
      ensures out.Keys == CurrentKeys(jobs)
      ensures forall k :: k in out ==> out[k] in jobs && out[k] == Print(k)
    {
      hide Print, Parse;
      out := map[];
      var rest := jobs.Keys;
      while rest != {}
        invariant rest <= jobs.Keys
        invariant out.Keys == set id | id in jobs.Keys - rest && Parse(id).Some? :: Parse(id).value
        invariant forall k :: k in out ==> out[k] in jobs && out[k] == Print(k)
      {
        var id :| id in rest;
        rest := rest - {id};
        PrintOfParsed(KeyOf(jobs[id]));
        var key := Parse(id);
        if key.Some? { out := out[key.value := id]; }
      }
      assert jobs.Keys - rest == jobs.Keys;
    }

    method Reconcile(read: Reads) returns (outcome: Outcome)
      requires ValidTable(jobs)
      modifies this`jobs, this`stamp
      ensures ValidTable(jobs) && stamp == old(stamp) + 1
      ensures var skipped := paused || !running || ownedProcesses.None? || ownedProcesses.value == [];
        if skipped then outcome == Done(false) && jobs == old(jobs)
        else
          var owned := ownedProcesses.value;
          var wanted := Wanted(owned, read, |owned|);
          if !AllAnswered(read, |owned|) then outcome == MongoUnavailable && jobs == old(jobs)
          else outcome == Done(wanted != CurrentKeys(old(jobs))) && Reconciled(old(jobs), wanted, stamp, jobs)
    {
      hide Print, Parse;
      stamp := stamp + 1;
      if paused || !running { return Done(false); }
      if ownedProcesses.None? || ownedProcesses.value == [] { return Done(false); }
      var owned := ownedProcesses.value;
      var desired: set<JobKey> := {};
      var n := 0;
      while n < |owned|
        invariant n <= |owned| && AllAnswered(read, n)
        invariant desired == Wanted(owned, read, n)
      {
        var answer := read(n);
        if answer.None? { return MongoUnavailable; }
        desired := desired + KeysFor(owned[n], answer.value);
        n := n + 1;
      }
      var current := CurrentIntervalJobs();
      var toAdd, toRemove := desired - current.Keys, current.Keys - desired;
      if toAdd == {} && toRemove == {} {
        NothingToApply(jobs, desired, stamp);
        return Done(false);
      }
      ApplyDelta(current, desired, toAdd, toRemove);
      return Done(true);
    }

    method ApplyDelta(current: map<JobKey, JobId>, ghost wanted: set<JobKey>,
                      toAdd: set<JobKey>, toRemove: set<JobKey>)
      requires ValidTable(jobs)
      requires current.Keys == CurrentKeys(jobs)
      requires forall k :: k in current ==> current[k] in jobs && current[k] == Print(k)
      requires toAdd == wanted - current.Keys && toRemove == current.Keys - wanted
      modifies this`jobs
      ensures Reconciled(old(jobs), wanted, stamp, jobs) && ValidTable(jobs)
    {
      RemoveJobs(current, toRemove);
      RemovedAreStale(old(jobs), wanted, toRemove);
      ghost var kept := jobs;
      assert forall id :: id in kept <==> id in old(jobs) && !Stale(wanted, id);
      AddJobs(toAdd);
    }

    method RemoveJobs(current: map<JobKey, JobId>, toRemove: set<JobKey>)
      requires forall k :: k in toRemove ==> k in current && current[k] == Print(k)
      modifies this`jobs
      ensures jobs == map id | id in old(jobs) && !PrintsOne(toRemove, id) :: old(jobs)[id]
    {
      var rest := toRemove;
      while rest != {}
        invariant rest <= toRemove
        invariant jobs == map id | id in old(jobs) && !PrintsOne(toRemove - rest, id) :: old(jobs)[id]
      {
        var k :| k in rest;
        rest := rest - {k};
        jobs := jobs - {current[k]};
      }
      assert toRemove - rest == toRemove;
    }

    method AddJobs(toAdd: set<JobKey>)
      modifies this`jobs
      ensures Added(old(jobs), toAdd, stamp, jobs)
    {
      var rest := toAdd;
      while rest != {}
        invariant rest <= toAdd
        invariant Added(old(jobs), toAdd - rest, stamp, jobs)
      {
        var k :| k in rest;
        rest := rest - {k};
        AddIntervalJob(k.0, k.1);
      }
      assert toAdd - rest == toAdd;
    }
  }

  // ---------------------------------------------------------------- what the table then holds

  ghost predicate AllReadable(keys: set<JobKey>) {
    forall k :: k in keys ==> Readable(k)
  }

  ghost predicate ReadableTable(jobs: Jobs) {
    ValidTable(jobs) && forall id :: id in jobs ==> Readable(KeyOf(jobs[id]))
  }

  lemma ReadableTableKeys(jobs: Jobs)
    requires ReadableTable(jobs)
    ensures forall id :: id in jobs ==> Parse(id) == Some(KeyOf(jobs[id]))
    ensures forall k :: k in CurrentKeys(jobs) <==> Print(k) in jobs && KeyOf(jobs[Print(k)]) == k
  {
    forall id | id in jobs ensures Parse(id) == Some(KeyOf(jobs[id])) { RoundTripIff(KeyOf(jobs[id])); }
    forall k | Print(k) in jobs && KeyOf(jobs[Print(k)]) == k ensures k in CurrentKeys(jobs) {
      assert Parse(Print(k)) == Some(k);
    }
  }

  lemma ReadableKeysParse(keys: set<JobKey>)
    requires AllReadable(keys)
    ensures forall k :: k in keys ==> Parse(Print(k)) == Some(k)
  {
    forall k | k in keys ensures Parse(Print(k)) == Some(k) { RoundTripIff(k); }
  }

  lemma CurrentKeyIsThere(before: Jobs, k: JobKey)
    requires ValidTable(before) && k in CurrentKeys(before)
    ensures Print(k) in before && Parse(Print(k)) == Some(k) && Readable(k)
  {
    var id :| id in before && Parse(id).Some? && Parse(id).value == k;
    PrintOfParsed(KeyOf(before[id]));
  }

  /** The ids after a reconcile: those that were there and did not go stale, and those of the wanted pairs. */
  lemma ReconciledHas(before: Jobs, wanted: set<JobKey>, stamp: nat, after: Jobs, id: JobId)
    requires ValidTable(before) && Reconciled(before, wanted, stamp, after)
    ensures id in after <==> (id in before && !Stale(wanted, id)) || PrintsOne(wanted, id)
  {
    hide Print, Parse;
    if k :| k in wanted && Print(k) == id {
      if k in CurrentKeys(before) { CurrentKeyIsThere(before, k); }
    }
  }

  lemma BuiltHas(rebuilt: Jobs, wanted: set<JobKey>, stamp: nat, id: JobId)
    requires Built(rebuilt, wanted, stamp)
    ensures id in rebuilt <==> PrintsOne(wanted, id)
  {
    hide Print;
  }

  /** From any table, a reload cut short included, a reconcile that gets all its answers ends with the
      ids a fresh reload would register exactly when every registered id that does not read back is one
      a wanted pair prints: an id that does not read back is never removed. */
  lemma ReconcileMatchesReloadIff(before: Jobs, wanted: set<JobKey>, stamp: nat, after: Jobs,
                                  rebuilt: Jobs, stamp2: nat)
    requires ValidTable(before) && Reconciled(before, wanted, stamp, after) && Built(rebuilt, wanted, stamp2)
    ensures after.Keys == rebuilt.Keys <==> forall id :: id in before && Parse(id).None? ==> PrintsOne(wanted, id)
  {
    hide Print, Parse, Reconciled, Built, PrintsOne;
    forall id ensures id in after <==> id in rebuilt || (id in before && Parse(id).None?) {
      ReconciledHas(before, wanted, stamp, after, id);
      BuiltHas(rebuilt, wanted, stamp2, id);
      if id in before && Parse(id).Some? && Parse(id).value in wanted {
        PrintOfParsed(KeyOf(before[id]));
        PrintsIt(wanted, Parse(id).value, id);
      }
    }
    forall id { BuiltHas(rebuilt, wanted, stamp2, id); }
  }

  lemma PrintsIt(keys: set<JobKey>, k: JobKey, id: JobId)
    requires k in keys && Print(k) == id
    ensures PrintsOne(keys, id)
  {
    hide Print;
  }

  /** For example: a job of the process with the empty name is never removed again. */
  lemma EmptyNameIsNeverRemoved(stamp0: nat, stamp: nat, after: Jobs, rebuilt: Jobs, stamp2: nat)
    requires Reconciled(map[Print(("", 5)) := Job("", 5, stamp0)], {}, stamp, after) && Built(rebuilt, {}, stamp2)
    ensures Print(("", 5)) in after && rebuilt == map[]
  {
    ParseOfPrinted("", Numeral(5));
    hide Print, Parse;
  }

  /** A job there before and after a reconcile is the very same job unless a wanted pair that does not
      read back prints its id: such a pair is registered anew every time. */
  lemma JobKeptIff(before: Jobs, wanted: set<JobKey>, stamp: nat, after: Jobs, id: JobId)
    requires ValidTable(before) && Reconciled(before, wanted, stamp, after)
    ensures id in before && id in after && before[id].stamp < stamp ==>
      (after[id] == before[id] <==> forall k :: k in wanted && Print(k) == id ==> Readable(k))
  {
    hide Print, Parse, Readable;
    forall k | k in wanted && Print(k) == id && id in before ensures k in CurrentKeys(before) <==> Readable(k) {
      RoundTripIff(k);
      if k in CurrentKeys(before) { CurrentKeyIsThere(before, k); }
    }
  }

  /** Ids come and go exactly as the wanted pairs print new ones and leave stale ones behind. */
  lemma IdsChangeIff(before: Jobs, wanted: set<JobKey>, stamp: nat, after: Jobs)
    requires ValidTable(before) && Reconciled(before, wanted, stamp, after)
    ensures before.Keys != after.Keys <==>
      || (exists k :: k in wanted && Print(k) !in before)
      || (exists id :: id in before && Stale(wanted, id) && !PrintsOne(wanted, id))
  {
    hide Print, Parse, Reconciled, Stale;
    forall id { ReconciledHas(before, wanted, stamp, after, id); }
    if before.Keys == after.Keys {
      forall k | k in wanted ensures Print(k) in before { assert PrintsOne(wanted, Print(k)); }
    } else {
      assert exists id :: !(id in before <==> id in after);
    }
  }

  lemma ReadableChange(before: Jobs, wanted: set<JobKey>, stamp: nat, after: Jobs)
    requires ValidTable(before) && AllReadable(wanted) && Reconciled(before, wanted, stamp, after)
    ensures wanted != CurrentKeys(before) <==> before.Keys != after.Keys
  {
    hide Print, Parse, Reconciled, PrintsOne;
    IdsChangeIff(before, wanted, stamp, after);
    ReadableKeysParse(wanted);
    forall k | k in wanted && Print(k) in before ensures k in CurrentKeys(before) {}
    forall k | k in CurrentKeys(before) ensures Print(k) in before && (k in wanted <==> !Stale(wanted, Print(k))) {
      CurrentKeyIsThere(before, k);
    }
    forall id | id in before && Stale(wanted, id)
      ensures Parse(id).value in CurrentKeys(before) && !PrintsOne(wanted, id)
    {
      if PrintsOne(wanted, id) { ReadablePrintsOne(wanted, id); }
    }
  }

  lemma ReadablePrintsOne(wanted: set<JobKey>, id: JobId)
    requires AllReadable(wanted) && PrintsOne(wanted, id)
    ensures !Stale(wanted, id)
  {
    hide Print, Parse;
    ReadableKeysParse(wanted);
  }

  lemma SomeAdded(before: Jobs, keys: set<JobKey>, stamp: nat) returns (after: Jobs)
    ensures Added(before, keys, stamp, after)
    ensures before == map[] ==> Built(after, keys, stamp)
    decreases keys
  {
    hide Print;
    if keys == {} {
      after := before;
    } else {
      var k :| k in keys;
      var less := SomeAdded(before, keys - {k}, stamp);
      after := less[Print(k) := Job(k.0, k.1, stamp)];
    }
  }

  /** Whatever the table, "changed" is reported exactly when the ids change, if and only if all wanted
      pairs read back. A pair that does not makes every reconcile report a change. */
  lemma ChangeReportRightIff(wanted: set<JobKey>)
    ensures AllReadable(wanted) <==>
      forall before, stamp, after :: ValidTable(before) && Reconciled(before, wanted, stamp, after) ==>
        (wanted != CurrentKeys(before) <==> before.Keys != after.Keys)
  {
    hide Print, Parse, Reconciled, Built, AllReadable;
    if AllReadable(wanted) {
      forall before, stamp, after | ValidTable(before) && Reconciled(before, wanted, stamp, after)
        ensures wanted != CurrentKeys(before) <==> before.Keys != after.Keys
      {
        ReadableChange(before, wanted, stamp, after);
      }
    } else {
      var before, after := FalseAlarm(wanted);
    }
  }

  lemma FalseAlarm(wanted: set<JobKey>) returns (before: Jobs, after: Jobs)
    requires !AllReadable(wanted)
    ensures ValidTable(before) && Reconciled(before, wanted, 1, after)
    ensures wanted != CurrentKeys(before) && before.Keys == after.Keys
  {
    hide Print, Parse, AllReadable;
    before := SomeAdded(map[], wanted, 0);
    QuietAfterReloadIff(before, wanted, 0);
    var kept := map id | id in before && !Stale(wanted, id) :: before[id];
    after := SomeAdded(kept, wanted - CurrentKeys(before), 1);
    IdsChangeIff(before, wanted, 1, after);
    assert forall id :: id in before ==> PrintsOne(wanted, id);
  }

  /** When all registered and all wanted pairs read back, then: a reconcile ends with the jobs of a fresh
      reload, a pair wanted before and after keeps its very job, and the ids change exactly when a
      change is reported. */
  lemma ReconcileMatchesReload(before: Jobs, wanted: set<JobKey>, stamp: nat, after: Jobs, rebuilt: Jobs, stamp2: nat)
    requires ReadableTable(before) && AllReadable(wanted)
    requires Reconciled(before, wanted, stamp, after) && Built(rebuilt, wanted, stamp2)
    ensures after.Keys == rebuilt.Keys && ReadableTable(after)
    ensures forall id :: id in rebuilt ==> KeyOf(after[id]) == KeyOf(rebuilt[id])
    ensures forall id :: id in before && id in after ==> after[id] == before[id]
    ensures wanted != CurrentKeys(before) <==> before.Keys != after.Keys
  {
    hide Print, Parse;
    ReadableTableKeys(before);
    ReadableKeysParse(wanted);
    ReconcileMatchesReloadIff(before, wanted, stamp, after, rebuilt, stamp2);
    ReadableChange(before, wanted, stamp, after);
    forall id | id in after ensures Parse(id) == Some(KeyOf(after[id])) && Readable(KeyOf(after[id])) {
      ReconciledHas(before, wanted, stamp, after, id);
    }
    forall id | id in before && id in after ensures after[id] == before[id] {
      assert KeyOf(after[id]) == KeyOf(before[id]) && KeyOf(before[id]) in CurrentKeys(before);
    }
  }

  /** Straight after a reload a reconcile with the same answers has nothing to do exactly when every
      wanted pair can be read back from its id. An empty or multi-line process name, or a negative
      interval, makes every reconcile re-register it. */
  lemma QuietAfterReloadIff(jobs: Jobs, wanted: set<JobKey>, stamp: nat)
    requires Built(jobs, wanted, stamp)
    ensures CurrentKeys(jobs) == wanted <==> AllReadable(wanted)
  {
    hide Print, Parse;
    if AllReadable(wanted) {
      ReadableTableKeys(jobs);
      forall k ensures k in CurrentKeys(jobs) <==> k in wanted {
        if k in wanted {
          RoundTripIff(k);
          RoundTripIff(KeyOf(jobs[Print(k)]));
        }
      }
    }
    if CurrentKeys(jobs) == wanted {
      forall k | k in wanted ensures Readable(k) {
        var id :| id in jobs && Parse(id).Some? && Parse(id).value == k;
        PrintOfParsed(KeyOf(jobs[id]));
      }
    }
  }

  /** Every wanted pair has a job of its own. */
  ghost predicate AllRegistered(jobs: Jobs, wanted: set<JobKey>) {
    forall k :: k in wanted ==> Print(k) in jobs && KeyOf(jobs[Print(k)]) == k
  }

  /** No negative interval among `keys` shares an id with another of them. */
  ghost predicate NoSignTaken(keys: set<JobKey>) {
    forall k, l :: k in keys && l in keys ==> !SignTaken(k, l)
  }

  /** A reload registers every wanted pair exactly when no negative interval shares an id with
      another wanted pair; otherwise one silently replaces the other. */
  lemma ReloadRegistersAllIff(jobs: Jobs, wanted: set<JobKey>, stamp: nat)
    requires Built(jobs, wanted, stamp)
    ensures AllRegistered(jobs, wanted) <==> NoSignTaken(wanted)
  {
    hide Print;
    if NoSignTaken(wanted) {
      forall k | k in wanted ensures KeyOf(jobs[Print(k)]) == k {
        SameIdIff(k, KeyOf(jobs[Print(k)]));
      }
    }
    if AllRegistered(jobs, wanted) {
      forall k, l | k in wanted && l in wanted ensures !SignTaken(k, l) {
        SameIdIff(k, l);
      }
    }
  }

  /** The job under `k`'s id is `k`'s own. */
  ghost predicate Registered(jobs: Jobs, k: JobKey) {
    Print(k) in jobs && KeyOf(jobs[Print(k)]) == k
  }

  /** No pair of `keys` other than `k` has `k`'s id. */
  ghost predicate Unshared(keys: set<JobKey>, k: JobKey) {
    forall l :: l in keys ==> !SignTaken(k, l) && !SignTaken(l, k)
  }

  /** In whatever order the pairs are registered, a reload leaves a wanted pair registered exactly when no
      other wanted pair has its id. */
  lemma RegisteredByReloadIff(wanted: set<JobKey>, k: JobKey, stamp: nat)
    requires k in wanted
    ensures (forall jobs :: Built(jobs, wanted, stamp) ==> Registered(jobs, k)) <==> Unshared(wanted, k)
  {
    hide Print, SignTaken;
    if Unshared(wanted, k) {
      forall jobs | Built(jobs, wanted, stamp) ensures Registered(jobs, k) {
        SameIdIff(k, KeyOf(jobs[Print(k)]));
      }
    } else {
      var l :| l in wanted && (SignTaken(k, l) || SignTaken(l, k));
      SameIdIff(k, l);
      SignedDiffer(k, l);
      var jobs := SomeAdded(map[], wanted, stamp);
      var last := jobs[Print(l) := Job(l.0, l.1, stamp)];
      assert Built(last, wanted, stamp) && !Registered(last, k);
    }
  }

  lemma SignedDiffer(k: JobKey, l: JobKey)
    requires SignTaken(k, l) || SignTaken(l, k)
    ensures k != l
  {
  }

  /** A wanted pair seems registered although the job under its id is another pair's. */
  predicate Mistaken(before: Jobs, wanted: set<JobKey>, k: JobKey) {
    k in wanted && k in CurrentKeys(before) && Print(k) in before && KeyOf(before[Print(k)]) != k
  }

  lemma UnsharedIsRegistered(before: Jobs, wanted: set<JobKey>, k: JobKey, stamp: nat, after: Jobs)
    requires ValidTable(before) && k in wanted && Reconciled(before, wanted, stamp, after)
    requires !Mistaken(before, wanted, k) && Unshared(wanted - CurrentKeys(before), k)
    ensures Registered(after, k)
  {
    hide Print, Parse, SignTaken;
    assert PrintsOne(wanted, Print(k));
    ReconciledHas(before, wanted, stamp, after, Print(k));
    SameIdIff(k, KeyOf(after[Print(k)]));
  }

  lemma SharedCanLose(before: Jobs, wanted: set<JobKey>, k: JobKey, stamp: nat) returns (after: Jobs)
    requires ValidTable(before) && k in wanted
    requires Mistaken(before, wanted, k) || !Unshared(wanted - CurrentKeys(before), k)
    ensures Reconciled(before, wanted, stamp, after) && !Registered(after, k)
  {
    hide Print, Parse, SignTaken;
    var missing := wanted - CurrentKeys(before);
    var kept := map id | id in before && !Stale(wanted, id) :: before[id];
    after := SomeAdded(kept, missing, stamp);
    if !Unshared(missing, k) {
      var l :| l in missing && (SignTaken(k, l) || SignTaken(l, k));
      SameIdIff(k, l);
      SignedDiffer(k, l);
      after := after[Print(l) := Job(l.0, l.1, stamp)];
    }
  }

  /** In whatever order the missing pairs are registered, a reconcile leaves a wanted pair registered exactly
      when it is not mistaken for registered and no missing pair has its id. */
  lemma RegisteredByReconcileIff(before: Jobs, wanted: set<JobKey>, k: JobKey, stamp: nat)
    requires ValidTable(before) && k in wanted
    ensures (forall after :: Reconciled(before, wanted, stamp, after) ==> Registered(after, k)) <==>
      !Mistaken(before, wanted, k) && Unshared(wanted - CurrentKeys(before), k)
  {
    hide *;
    if !Mistaken(before, wanted, k) && Unshared(wanted - CurrentKeys(before), k) {
      forall after | Reconciled(before, wanted, stamp, after) ensures Registered(after, k) {
        UnsharedIsRegistered(before, wanted, k, stamp, after);
      }
    } else {
      var after := SharedCanLose(before, wanted, k, stamp);
    }
  }

  /** A reconcile leaves every wanted pair registered exactly when no two of them share an id and none
      is mistaken for registered because a negative interval's job holds its id. */
  lemma ReconcileRegistersAllIff(before: Jobs, wanted: set<JobKey>, stamp: nat, after: Jobs)
    requires ValidTable(before) && Reconciled(before, wanted, stamp, after)
    ensures AllRegistered(after, wanted) <==> NoSignTaken(wanted) && forall k :: !Mistaken(before, wanted, k)
  {
    hide Print, Parse;
    if NoSignTaken(wanted) && forall k :: !Mistaken(before, wanted, k) {
      forall k | k in wanted ensures Print(k) in after && KeyOf(after[Print(k)]) == k {
        assert PrintsOne(wanted, Print(k));
        ReconciledHas(before, wanted, stamp, after, Print(k));
        SameIdIff(k, KeyOf(after[Print(k)]));
        if k in CurrentKeys(before) { assert !Mistaken(before, wanted, k); }
      }
    }
    if AllRegistered(after, wanted) {
      forall k, l | k in wanted && l in wanted ensures !SignTaken(k, l) {
        SameIdIff(k, l);
      }
    }
  }
}
