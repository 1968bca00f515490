/** From the stored profiles to the job table: a rule some machine has on is never without the job
    that evaluates it. */
module Cadence {
  import opened Sorting
  import opened Profiles
  import opened Cascade
  import opened JobIds
  import opened Scheduler

  /** The scheduler's reads were answered from `docs`. */
  ghost predicate AnswersFrom(docs: seq<StoredDoc>, processes: seq<string>, read: Reads) {
    AllAnswered(read, |processes|) &&
    forall k: nat, i :: k < |processes| ==> (i in read(k).value <==> IsIntervalOf(docs, processes[k], i))
  }

  /** What the reads ask for is exactly what the documents count for the owned processes. */
  lemma {:induction false} WantedIff(docs: seq<StoredDoc>, processes: seq<string>, read: Reads, n: nat)
    requires AnswersFrom(docs, processes, read) && n <= |processes|
    ensures forall k :: k in Wanted(processes, read, n) <==> k.0 in processes[..n] && IsIntervalOf(docs, k.0, k.1)
  {
    if n > 0 {
      WantedIff(docs, processes, read, n - 1);
      KeysForMembers(processes[n - 1], read(n - 1).value);
      assert processes[..n] == processes[..n - 1] + [processes[n - 1]];
    }
  }

  /** Job `j` runs for `process` and, on a tick, its machine is not skipped and `r` is picked. */
  ghost predicate Serves(docs: seq<StoredDoc>, j: Job, process: string, model: string, eqpId: string,
                         blank: Governance, r: Rule) {
    var f := Resolve(docs, process, model, eqpId, blank);
    j.process == process && f.Some? && f.value.enabled && r in Due(f.value, j.interval)
  }

  lemma ActiveRuleWanted(docs: seq<StoredDoc>, processes: seq<string>, read: Reads,
                         process: string, model: string, eqpId: string, blank: Governance, r: Rule)
    requires AnswersFrom(docs, processes, read) && process in processes
    ensures ActiveFor(docs, process, model, eqpId, blank, r) ==>
      && (process, r.interval) in Wanted(processes, read, |processes|)
      && forall j: Job :: KeyOf(j) == (process, r.interval) ==> Serves(docs, j, process, model, eqpId, blank, r)
  {
    hide Resolve, Due, IsIntervalOf, Wanted;
    WantedIff(docs, processes, read, |processes|);
    assert processes[..|processes|] == processes;
    CadenceCoversActiveRules(docs, process, model, eqpId, blank, r);
  }

  /** Some job of `jobs` serves `r`. */
  ghost predicate Served(docs: seq<StoredDoc>, jobs: Jobs, process: string, model: string, eqpId: string,
                         blank: Governance, r: Rule) {
    exists id :: id in jobs && Serves(docs, jobs[id], process, model, eqpId, blank, r)
  }

  /** An active rule is served exactly when the job under its pair's id is its own. */
  lemma ServedIff(docs: seq<StoredDoc>, jobs: Jobs, process: string, model: string, eqpId: string,
                  blank: Governance, r: Rule)
    requires ValidTable(jobs)
    ensures ActiveFor(docs, process, model, eqpId, blank, r) ==>
      (Served(docs, jobs, process, model, eqpId, blank, r) <==> Registered(jobs, (process, r.interval)))
  {
    hide Print, Resolve;
    if ActiveFor(docs, process, model, eqpId, blank, r) {
      var f := Resolve(docs, process, model, eqpId, blank).value;
      CadenceCoversActiveRules(docs, process, model, eqpId, blank, r);
      if id :| id in jobs && Serves(docs, jobs[id], process, model, eqpId, blank, r) {
        FilterMembers(DueAt(jobs[id].interval), f.rules);
      }
    }
  }

  /** A reload that got all its answers, in whatever order it registered them, leaves an active rule of a
      machine of an owned process with a job that serves it exactly when no other wanted pair has the id
      of the rule's own; without negative intervals none has. */
  lemma NoCadenceLostByReloadIff(docs: seq<StoredDoc>, processes: seq<string>, read: Reads, stamp: nat,
                                 process: string, model: string, eqpId: string, blank: Governance, r: Rule)
    requires AnswersFrom(docs, processes, read) && process in processes
    ensures var wanted := Wanted(processes, read, |processes|);
      ActiveFor(docs, process, model, eqpId, blank, r) ==>
        ((forall jobs :: Built(jobs, wanted, stamp) ==> Served(docs, jobs, process, model, eqpId, blank, r))
          <==> Unshared(wanted, (process, r.interval)))
  {
    hide Print, Served, ActiveFor, Wanted, Registered, Unshared;
    var wanted := Wanted(processes, read, |processes|);
    ActiveRuleWanted(docs, processes, read, process, model, eqpId, blank, r);
    if !ActiveFor(docs, process, model, eqpId, blank, r) { return; }
    RegisteredByReloadIff(wanted, (process, r.interval), stamp);
    forall jobs | Built(jobs, wanted, stamp)
      ensures Served(docs, jobs, process, model, eqpId, blank, r) <==> Registered(jobs, (process, r.interval))
    {
      ServedIff(docs, jobs, process, model, eqpId, blank, r);
    }
  }

  /** A reconcile, from whatever table was there before, does so exactly when besides the rule's pair is not
      mistaken for registered; of the other pairs only the missing ones matter. */
  lemma NoCadenceLostByReconcileIff(docs: seq<StoredDoc>, processes: seq<string>, read: Reads,
                                    before: Jobs, stamp: nat,
                                    process: string, model: string, eqpId: string, blank: Governance, r: Rule)
    requires AnswersFrom(docs, processes, read) && process in processes && ValidTable(before)
    ensures var wanted := Wanted(processes, read, |processes|); var k := (process, r.interval);
      ActiveFor(docs, process, model, eqpId, blank, r) ==>
        ((forall after :: Reconciled(before, wanted, stamp, after) ==>
            Served(docs, after, process, model, eqpId, blank, r))
          <==> !Mistaken(before, wanted, k) && Unshared(wanted - CurrentKeys(before), k))
  {
    hide Print, Served, ActiveFor, Wanted, Registered, Unshared, Mistaken, CurrentKeys;
    var wanted := Wanted(processes, read, |processes|);
    ActiveRuleWanted(docs, processes, read, process, model, eqpId, blank, r);
    if !ActiveFor(docs, process, model, eqpId, blank, r) { return; }
    RegisteredByReconcileIff(before, wanted, (process, r.interval), stamp);
    forall after | Reconciled(before, wanted, stamp, after)
      ensures Served(docs, after, process, model, eqpId, blank, r) <==> Registered(after, (process, r.interval))
    {
      ReconciledIsValid(before, wanted, stamp, after);
      ServedIff(docs, after, process, model, eqpId, blank, r);
    }
  }

  lemma ReconciledIsValid(before: Jobs, wanted: set<JobKey>, stamp: nat, after: Jobs)
    requires ValidTable(before) && Reconciled(before, wanted, stamp, after)
    ensures ValidTable(after)
  {
    hide Print, Parse;
  }

  /** And no job runs for nothing: behind every job there is a stored rule, on in a document that is
      on, with that process (or every process) and that interval. */
  lemma NoIdleJobs(docs: seq<StoredDoc>, processes: seq<string>, read: Reads, jobs: Jobs, stamp: nat, id: JobId)
    requires AnswersFrom(docs, processes, read) && Built(jobs, Wanted(processes, read, |processes|), stamp)
    requires id in jobs
    ensures jobs[id].process in processes && IsIntervalOf(docs, jobs[id].process, jobs[id].interval)
  {
    hide Print, IsIntervalOf;
    WantedIff(docs, processes, read, |processes|);
    assert KeyOf(jobs[id]) in Wanted(processes, read, |processes|);
  }
}
