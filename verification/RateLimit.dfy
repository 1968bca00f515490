/** Ticks of many processes on many instances against one Redis: the lock lets one tick per process
    run at a time, and that makes the cooldown a rate limit. Redis is reachable throughout. */
module RateLimit {
  import opened Wrappers
  import opened Cooldown

  /** A tick holding its process's lock: the keys its batch check cleared and that it has not dealt
      with yet, and the mail just sent whose cooldown is still to be set. */
  datatype Tick = Tick(cleared: set<Key>, unset: Option<nat>)

  /** A mail the gateway took, and its cooldown once set. */
  datatype Sent = Sent(key: Key, sentAt: int, setAt: Option<int>, minutes: int)

  datatype State = State(redis: Entries, now: int, running: map<string, Tick>, log: seq<Sent>)

  datatype Step =
    | Check(process: string, keys: set<Key>, at: int)       // lock taken, batch check answered
    | Send(key: Key, minutes: int, at: int)
    | Refused(key: Key)                                     // the gateway did not take the mail
    | SetCooldown(process: string, at: int)
    | Done(process: string)

  /** When mail `s` stops suppressing its key. */
  function FreeAt(s: Sent): int
    requires s.setAt.Some?
  {
    s.setAt.value + 60 * s.minutes
  }

  ghost predicate Next(prefix: string, s: State, a: Step, t: State) {
    match a
    case Check(p, keys, at) =>
      && p !in s.running && s.now <= at && (forall k :: k in keys ==> k.process == p && ColonFree(k))
      && var cleared := set k | k in keys && !Live(s.redis, KeyText(prefix, k), at);
         t == s.(now := at, running := s.running[p := Tick(cleared, None)])
    case Send(key, minutes, at) =>
      && key.process in s.running && s.now <= at && minutes > 0
      && var tick := s.running[key.process];
         && key in tick.cleared && tick.unset.None?
         && t == s.(now := at, log := s.log + [Sent(key, at, None, minutes)],
                    running := s.running[key.process := Tick(tick.cleared - {key}, Some(|s.log|))])
    case Refused(key) =>
      && key.process in s.running
      && var tick := s.running[key.process];
         t == s.(running := s.running[key.process := tick.(cleared := tick.cleared - {key})])
    case SetCooldown(p, at) =>
      && p in s.running && s.running[p].unset.Some? && s.now <= at
      && var i := s.running[p].unset.value;
         && i < |s.log|
         && var mail := s.log[i];
            t == s.(now := at, redis := RedisAfterSet(s.redis, KeyText(prefix, mail.key), mail.minutes, at, true),
                    log := s.log[i := mail.(setAt := Some(at))],
                    running := s.running[p := s.running[p].(unset := None)])
    case Done(p) =>
      p in s.running && s.running[p].unset.None? && t == s.(running := s.running - {p})
  }

  ghost predicate IsRun(prefix: string, run: seq<State>, steps: seq<Step>) {
    && |run| == |steps| + 1 && run[0].redis == map[] && run[0].running == map[] && run[0].log == []
    && forall k :: 0 <= k < |steps| ==> Next(prefix, run[k], steps[k], run[k + 1])
  }

  /** Every mail either has its cooldown in Redis, or is the one its process's tick is about to set. */
  ghost predicate Recorded(prefix: string, s: State) {
    forall i :: 0 <= i < |s.log| ==>
      && s.log[i].minutes > 0 && ColonFree(s.log[i].key) && s.log[i].sentAt <= s.now
      && if s.log[i].setAt.Some? then
           var text := KeyText(prefix, s.log[i].key);
           s.log[i].sentAt <= s.log[i].setAt.value <= s.now && text in s.redis && FreeAt(s.log[i]) <= s.redis[text]
         else
           s.log[i].key.process in s.running && s.running[s.log[i].key.process].unset == Some(i)
  }

  ghost predicate FreeOf(s: State, k: Key) {
    forall i :: 0 <= i < |s.log| && s.log[i].key == k ==> s.log[i].setAt.Some? && FreeAt(s.log[i]) <= s.now
  }

  /** The keys a tick may still mail are free, and its unset mail is its own. */
  ghost predicate TicksSound(s: State) {
    forall p :: p in s.running ==>
      && (forall k :: k in s.running[p].cleared ==> k.process == p && ColonFree(k) && FreeOf(s, k))
      && (s.running[p].unset.Some? ==>
            s.running[p].unset.value < |s.log| && s.log[s.running[p].unset.value].key.process == p
            && s.log[s.running[p].unset.value].setAt.None?
            && s.log[s.running[p].unset.value].key !in s.running[p].cleared)
  }

  /** A later mail for the same key waits out the earlier one's cooldown, counted from its set. */
  ghost predicate Spaced(log: seq<Sent>) {
    forall i, j :: 0 <= i < j < |log| && log[i].key == log[j].key ==>
      log[i].setAt.Some? && FreeAt(log[i]) <= log[j].sentAt
  }

  ghost predicate Inv(prefix: string, s: State) {
    Recorded(prefix, s) && TicksSound(s) && Spaced(s.log)
  }

  lemma CheckKeepsInv(prefix: string, s: State, a: Step, t: State)
    requires Inv(prefix, s) && a.Check? && Next(prefix, s, a, t)
    ensures Inv(prefix, t)
  {
    hide KeyText;
    forall k | k in t.running[a.process].cleared ensures FreeOf(t, k) {
      forall i | 0 <= i < |s.log| && s.log[i].key == k ensures s.log[i].setAt.Some? && FreeAt(s.log[i]) <= a.at {
        assert s.log[i].minutes > 0;
      }
    }
    forall p, k | p in t.running && p != a.process && k in t.running[p].cleared ensures FreeOf(t, k) {
      assert FreeOf(s, k);
    }
  }

  lemma SendKeepsInv(prefix: string, s: State, a: Step, t: State)
    requires Inv(prefix, s) && a.Send? && Next(prefix, s, a, t)
    ensures Inv(prefix, t)
  {
    hide KeyText;
    assert FreeOf(s, a.key);
    forall p, k | p in t.running && k in t.running[p].cleared ensures FreeOf(t, k) {
      assert k in s.running[p].cleared && FreeOf(s, k);
      assert k != a.key;
    }
    forall i | 0 <= i < |t.log| ensures t.log[i].setAt.None? ==>
      t.log[i].key.process in t.running && t.running[t.log[i].key.process].unset == Some(i)
    {
      assert i < |s.log| ==> t.log[i] == s.log[i] && s.log[i].minutes > 0;
    }
  }

  lemma SetKeepsRecords(prefix: string, s: State, a: Step, t: State)
    requires Inv(prefix, s) && a.SetCooldown? && Next(prefix, s, a, t)
    ensures Recorded(prefix, t)
  {
    hide KeyText;
    var at := s.running[a.process].unset.value;
    var mail := s.log[at];
    assert mail.minutes > 0;
    forall i | 0 <= i < |s.log| && i != at && s.log[i].setAt.Some?
      ensures KeyText(prefix, s.log[i].key) in t.redis && FreeAt(s.log[i]) <= t.redis[KeyText(prefix, s.log[i].key)]
    {
      if KeyText(prefix, s.log[i].key) == KeyText(prefix, mail.key) { KeysDiffer(prefix, s.log[i].key, mail.key); }
    }
  }

  lemma SetKeepsTicks(prefix: string, s: State, a: Step, t: State)
    requires Inv(prefix, s) && a.SetCooldown? && Next(prefix, s, a, t)
    ensures TicksSound(t)
  {
    hide KeyText;
    var mail := s.log[s.running[a.process].unset.value];
    forall p, k | p in t.running && k in t.running[p].cleared ensures FreeOf(t, k) {
      assert k in s.running[p].cleared && FreeOf(s, k);
      assert k != mail.key;
    }
  }

  lemma SetKeepsInv(prefix: string, s: State, a: Step, t: State)
    requires Inv(prefix, s) && a.SetCooldown? && Next(prefix, s, a, t)
    ensures Inv(prefix, t)
  {
    SetKeepsRecords(prefix, s, a, t);
    SetKeepsTicks(prefix, s, a, t);
    hide KeyText;
    var at := s.running[a.process].unset.value;
    forall i | 0 <= i < |s.log| && i != at && s.log[i].key == s.log[at].key ensures i < at && s.log[i].setAt.Some? {
      assert s.log[i].minutes > 0;
    }
  }

  lemma RefusedKeepsInv(prefix: string, s: State, a: Step, t: State)
    requires Inv(prefix, s) && a.Refused? && Next(prefix, s, a, t)
    ensures Inv(prefix, t)
  {
    hide KeyText;
    forall p, k | p in t.running && k in t.running[p].cleared ensures FreeOf(t, k) {
      assert FreeOf(s, k);
    }
  }

  lemma DoneKeepsInv(prefix: string, s: State, a: Step, t: State)
    requires Inv(prefix, s) && a.Done? && Next(prefix, s, a, t)
    ensures Inv(prefix, t)
  {
    hide KeyText;
    forall p, k | p in t.running && k in t.running[p].cleared ensures FreeOf(t, k) {
      assert FreeOf(s, k);
    }
  }

  lemma StepKeepsInv(prefix: string, s: State, a: Step, t: State)
    requires Inv(prefix, s) && Next(prefix, s, a, t)
    ensures Inv(prefix, t)
  {
    hide Next, Inv;
    match a
    case Check(_, _, _) => CheckKeepsInv(prefix, s, a, t);
    case Send(_, _, _) => SendKeepsInv(prefix, s, a, t);
    case SetCooldown(_, _) => SetKeepsInv(prefix, s, a, t);
    case Refused(_) => RefusedKeepsInv(prefix, s, a, t);
    case Done(_) => DoneKeepsInv(prefix, s, a, t);
  }

  lemma {:induction false} RunKeepsInv(prefix: string, run: seq<State>, steps: seq<Step>, k: nat)
    requires IsRun(prefix, run, steps) && k < |run|
    ensures Inv(prefix, run[k])
  {
    hide Next, Inv;
    if k > 0 {
      RunKeepsInv(prefix, run, steps, k - 1);
      StepKeepsInv(prefix, run[k - 1], steps[k - 1], run[k]);
    } else {
      InitialInv(prefix, run[0]);
    }
  }

  lemma InitialInv(prefix: string, s: State)
    requires s.running == map[] && s.log == []
    ensures Inv(prefix, s)
  {
  }

  /** Whatever the ticks do, two mails for the same key are a full cooldown apart: the later one leaves
      no sooner than the cooldown after the earlier one's was set. */
  lemma MailsAreSpaced(prefix: string, run: seq<State>, steps: seq<Step>, k: nat, i: nat, j: nat)
    requires IsRun(prefix, run, steps) && k < |run| && i < j < |run[k].log| && run[k].log[i].key == run[k].log[j].key
    ensures run[k].log[i].setAt.Some?
    ensures run[k].log[j].sentAt >= run[k].log[i].setAt.value + 60 * run[k].log[i].minutes
    ensures run[k].log[j].sentAt > run[k].log[i].sentAt
  {
    RunKeepsInv(prefix, run, steps, k);
  }
}
