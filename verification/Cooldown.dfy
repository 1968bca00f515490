/** Alert cooldowns: a Redis key with an expiry, and a local cache of fixed lifetime to fall back on. */
module Cooldown {

  /** The cooldown identity. `group` is a machine id, a model or a process name. */
  datatype Key = Key(process: string, group: string, proc: string, notify: string, severity: string)

  const LOCAL_TTL: int := 3600

  // ---------------------------------------------------------------- key texts

  function Field(part: string, rest: string): string {
    part + ":" + rest
  }

  function Tail(k: Key): string {
    Field(k.process, Field(k.group, Field(k.proc, Field(k.notify, k.severity))))
  }

  function KeyText(prefix: string, k: Key): string {
    prefix + ":cooldown:" + Tail(k)
  }

  /** A colon in the last part would do no harm. */
  predicate ColonFree(k: Key) {
    ':' !in k.process && ':' !in k.group && ':' !in k.proc && ':' !in k.notify
  }

  lemma {:induction false} FieldsSplit(a: string, x: string, b: string, y: string)
    requires ':' !in a && ':' !in b && Field(a, x) == Field(b, y)
    ensures a == b && x == y
  {
    var s, t := Field(a, x), Field(b, y);
    assert |a| < |s| && s[|a|] == ':' && |b| < |t| && t[|b|] == ':';
    NoColonBefore(a, x, |b|);
    NoColonBefore(b, y, |a|);
    assert a == s[..|a|] && b == t[..|a|] && x == s[|a| + 1..] && y == t[|a| + 1..];
  }

  lemma NoColonBefore(a: string, x: string, k: nat)
    requires ':' !in a && k < |Field(a, x)| && Field(a, x)[k] == ':'
    ensures k >= |a|
  {
  }

  lemma SamePrefix(p: string, x: string, y: string)
    requires p + x == p + y
    ensures x == y
  {
    assert x == (p + x)[|p|..] && y == (p + y)[|p|..];
  }

  /** Colon-free identities never share a key. */
  lemma KeysDiffer(prefix: string, k: Key, l: Key)
    requires ColonFree(k) && ColonFree(l) && KeyText(prefix, k) == KeyText(prefix, l)
    ensures k == l
  {
    var k3, l3 := Field(k.notify, k.severity), Field(l.notify, l.severity);
    var k2, l2 := Field(k.proc, k3), Field(l.proc, l3);
    var k1, l1 := Field(k.group, k2), Field(l.group, l2);
    SamePrefix(prefix + ":cooldown:", Field(k.process, k1), Field(l.process, l1));
    FieldsSplit(k.process, k1, l.process, l1);
    FieldsSplit(k.group, k2, l.group, l2);
    FieldsSplit(k.proc, k3, l.proc, l3);
    FieldsSplit(k.notify, k.severity, l.notify, l.severity);
  }

  function Colons(s: string): nat {
    if s == "" then 0 else (if s[0] == ':' then 1 else 0) + Colons(s[1..])
  }

  lemma {:induction false} ColonsOfConcat(s: string, t: string)
    ensures Colons(s + t) == Colons(s) + Colons(t)
  {
    if s == "" {
      assert s + t == t;
    } else {
      ColonsOfConcat(s[1..], t);
      assert (s + t)[1..] == s[1..] + t;
    }
  }

  lemma {:induction false} NoColonsIff(s: string)
    ensures Colons(s) == 0 <==> ':' !in s
  {
    if s != "" {
      NoColonsIff(s[1..]);
      assert s == [s[0]] + s[1..];
    }
  }

  lemma ColonsOfField(part: string, rest: string)
    ensures Colons(Field(part, rest)) == Colons(part) + 1 + Colons(rest)
  {
    ColonsOfConcat(part + ":", rest);
    ColonsOfConcat(part, ":");
  }

  /** A key text has its four separators and the colons of its parts. */
  lemma ColonsOfTail(k: Key)
    ensures Colons(Tail(k)) ==
      4 + Colons(k.process) + Colons(k.group) + Colons(k.proc) + Colons(k.notify) + Colons(k.severity)
  {
    ColonsOfField(k.notify, k.severity);
    ColonsOfField(k.proc, Field(k.notify, k.severity));
    ColonsOfField(k.group, Field(k.proc, Field(k.notify, k.severity)));
    ColonsOfField(k.process, Field(k.group, Field(k.proc, Field(k.notify, k.severity))));
  }

  /** No part, the severity included, has a colon. */
  predicate NoColonAtAll(k: Key) {
    ColonFree(k) && ':' !in k.severity
  }

  lemma NoColonsInKeyIff(k: Key)
    ensures NoColonAtAll(k) <==> Colons(Tail(k)) == 4
  {
    ColonsOfTail(k);
    NoColonsIff(k.process);
    NoColonsIff(k.group);
    NoColonsIff(k.proc);
    NoColonsIff(k.notify);
    NoColonsIff(k.severity);
  }

  lemma SplitAtColon(s: string) returns (a: string, b: string)
    requires ':' in s
    ensures s == a + ":" + b
  {
    var i :| 0 <= i < |s| && s[i] == ':';
    a, b := s[..i], s[i + 1..];
  }

  /** The colon of a part may as well separate it from its neighbour. */
  lemma Regroup(a: string, b: string, c: string, rest: string)
    ensures Field(a + ":" + b, Field(c, rest)) == Field(a, Field(b + ":" + c, rest))
  {
    assert a + ":" + b + ":" + (c + ":" + rest) == a + ":" + (b + ":" + c + ":" + rest);
  }

  lemma RegroupLast(a: string, b: string, c: string)
    ensures Field(a, b + ":" + c) == Field(a + ":" + b, c)
  {
    assert a + ":" + (b + ":" + c) == a + ":" + b + ":" + c;
  }

  /** Another identity with the same key text. */
  lemma Impostor(k: Key) returns (l: Key)
    requires !NoColonAtAll(k)
    ensures l != k && Tail(l) == Tail(k)
  {
    hide Field;
    if ':' in k.process {
      var a, b := SplitAtColon(k.process);
      Regroup(a, b, k.group, Field(k.proc, Field(k.notify, k.severity)));
      assert |a| < |k.process|;
      l := k.(process := a, group := b + ":" + k.group);
    } else if ':' in k.group {
      var a, b := SplitAtColon(k.group);
      Regroup(a, b, k.proc, Field(k.notify, k.severity));
      assert |a| < |k.group|;
      l := k.(group := a, proc := b + ":" + k.proc);
    } else if ':' in k.proc {
      var a, b := SplitAtColon(k.proc);
      Regroup(a, b, k.notify, k.severity);
      assert |a| < |k.proc|;
      l := k.(proc := a, notify := b + ":" + k.notify);
    } else if ':' in k.notify {
      var a, b := SplitAtColon(k.notify);
      RegroupLast(a, b, k.severity);
      assert |a| < |k.notify|;
      l := k.(notify := a, severity := b + ":" + k.severity);
    } else {
      var a, b := SplitAtColon(k.severity);
      RegroupLast(k.notify, a, b);
      assert |b| < |k.severity|;
      l := k.(notify := k.notify + ":" + a, severity := b);
    }
  }

  /** An identity has its key to itself exactly when none of its parts has a colon: the separator is
      not escaped. */
  lemma KeyIsOwnIff(prefix: string, k: Key)
    ensures (forall l :: KeyText(prefix, l) == KeyText(prefix, k) ==> l == k) <==> NoColonAtAll(k)
  {
    hide Tail, ColonFree;
    if NoColonAtAll(k) {
      forall l | KeyText(prefix, l) == KeyText(prefix, k) ensures l == k {
        SameTextSameTail(prefix, l, k);
        NoColonsInKeyIff(k);
        NoColonsInKeyIff(l);
        KeysDiffer(prefix, l, k);
      }
    } else {
      var l := Impostor(k);
      SameTailSameText(prefix, l, k);
    }
  }

  lemma SameTextSameTail(prefix: string, k: Key, l: Key)
    requires KeyText(prefix, k) == KeyText(prefix, l)
    ensures Tail(k) == Tail(l)
  {
    hide Field;
    SamePrefix(prefix + ":cooldown:", Tail(k), Tail(l));
  }

  lemma SameTailSameText(prefix: string, k: Key, l: Key)
    requires Tail(k) == Tail(l)
    ensures KeyText(prefix, k) == KeyText(prefix, l)
  {
    hide Field;
  }

  // ---------------------------------------------------------------- expiring entries

  /** Entry to the second it expires. */
  type Entries = map<string, int>

  predicate Live(entries: Entries, text: string, now: int) {
    text in entries && now < entries[text]
  }

  /** The answer of a check: Redis when it is reachable, the local cache otherwise. */
  predicate Cooling(local: Entries, redis: Entries, text: string, now: int, reachable: bool) {
    if reachable then Live(redis, text, now) else Live(local, text, now)
  }

  function RedisAfterSet(redis: Entries, text: string, minutes: int, now: int, reachable: bool): Entries {
    if reachable && minutes > 0 then redis[text := now + 60 * minutes] else redis
  }

  class Redis {
    var entries: Entries

    constructor ()
      ensures entries == map[]
    {
      entries := map[];
    }
  }

  class AlertCooldownManager {
    const redis: Redis
    const prefix: string
    var local: Entries

    constructor (redis: Redis, prefix: string)
      ensures this.redis == redis && this.prefix == prefix && local == map[]
    {
      this.redis, this.prefix, this.local := redis, prefix, map[];
    }

    method IsCoolingDown(k: Key, now: int, reachable: bool) returns (cooling: bool)
      ensures cooling == Cooling(local, redis.entries, KeyText(prefix, k), now, reachable)
    {
      var text := KeyText(prefix, k);
      if reachable { return Live(redis.entries, text, now); }
      return Live(local, text, now);
    }

    /** Local first. `ok` is false when Redis refuses the expiry, which is not an outage. */
    method SetCooldown(k: Key, minutes: int, now: int, reachable: bool) returns (ok: bool)
      modifies this`local, redis`entries
      ensures ok <==> !reachable || minutes > 0
      ensures local == old(local)[KeyText(prefix, k) := now + LOCAL_TTL]
      ensures redis.entries == RedisAfterSet(old(redis.entries), KeyText(prefix, k), minutes, now, reachable)
    {
      var text := KeyText(prefix, k);
      local := local[text := now + LOCAL_TTL];
      if !reachable { return true; }
      if minutes <= 0 { return false; }
      redis.entries := redis.entries[text := now + 60 * minutes];
      return true;
    }

    method ClearCooldown(k: Key, reachable: bool)
      modifies this`local, redis`entries
      ensures local == old(local) - {KeyText(prefix, k)}
      ensures redis.entries == if reachable then old(redis.entries) - {KeyText(prefix, k)} else old(redis.entries)
    {
      var text := KeyText(prefix, k);
      local := local - {text};
      if reachable { redis.entries := redis.entries - {text}; }
    }

    /** One round trip for all keys; each answer is the one a single check would give. */
    method IsCoolingDownBatch(keys: seq<Key>, now: int, reachable: bool) returns (cooling: map<Key, bool>)
      ensures cooling.Keys == set i | 0 <= i < |keys| :: keys[i]
      ensures forall k :: k in cooling ==>
        cooling[k] == Cooling(local, redis.entries, KeyText(prefix, k), now, reachable)
    {
      hide KeyText;
      cooling := map[];
      for i := 0 to |keys|
        invariant cooling.Keys == set j | 0 <= j < i :: keys[j]
        invariant forall k :: k in cooling ==>
          cooling[k] == Cooling(local, redis.entries, KeyText(prefix, k), now, reachable)
      {
        var text := KeyText(prefix, keys[i]);
        cooling := cooling[keys[i] := if reachable then Live(redis.entries, text, now) else Live(local, text, now)];
      }
    }
  }

  // ---------------------------------------------------------------- outages in every mix

  /** A set of the cooldown on some instance. */
  datatype SetEvent = SetEvent(instance: string, text: string, minutes: int, at: int, reachable: bool)

  datatype World = World(locals: map<string, Entries>, redis: Entries)

  function LocalOf(w: World, instance: string): Entries {
    if instance in w.locals then w.locals[instance] else map[]
  }

  function AfterSet(w: World, e: SetEvent): World {
    World(w.locals[e.instance := LocalOf(w, e.instance)[e.text := e.at + LOCAL_TTL]],
          RedisAfterSet(w.redis, e.text, e.minutes, e.at, e.reachable))
  }

  function AfterSets(w: World, events: seq<SetEvent>): World {
    if events == [] then w else AfterSet(AfterSets(w, events[..|events| - 1]), events[|events| - 1])
  }

  /** Nobody has set anything yet. */
  const START := World(map[], map[])

  /** `events[j]` is the latest set of `text` that instance `i` made. */
  ghost predicate LatestOn(events: seq<SetEvent>, i: string, text: string, j: nat) {
    && j < |events| && events[j].instance == i && events[j].text == text
    && forall k :: j < k < |events| ==> events[k].instance != i || events[k].text != text
  }

  predicate Kept(e: SetEvent) {
    e.reachable && e.minutes > 0
  }

  /** `events[j]` is the latest set of `text` that Redis kept, whoever made it. */
  ghost predicate LatestKept(events: seq<SetEvent>, text: string, j: nat) {
    && j < |events| && Kept(events[j]) && events[j].text == text
    && forall k :: j < k < |events| ==> !Kept(events[k]) || events[k].text != text
  }

  /** Instance `i`'s latest set of `text` is less than an hour old; without one, what it started with. */
  ghost predicate InstanceRemembers(w: World, events: seq<SetEvent>, i: string, text: string, now: int) {
    || (exists j: nat :: LatestOn(events, i, text, j) && now < events[j].at + 3600)
    || ((forall j: nat :: !LatestOn(events, i, text, j)) && Live(LocalOf(w, i), text, now))
  }

  /** The latest set of `text` that Redis kept has not run out; without one, what Redis started with. */
  ghost predicate RedisRemembers(w: World, events: seq<SetEvent>, text: string, now: int) {
    || (exists j: nat :: LatestKept(events, text, j) && now < events[j].at + 60 * events[j].minutes)
    || ((forall j: nat :: !LatestKept(events, text, j)) && Live(w.redis, text, now))
  }

  lemma {:induction false} LocalIs(w: World, events: seq<SetEvent>, i: string, text: string, now: int)
    ensures Live(LocalOf(AfterSets(w, events), i), text, now) <==> InstanceRemembers(w, events, i, text, now)
  {
    if events != [] {
      var n := |events| - 1;
      LocalIs(w, events[..n], i, text, now);
      if events[n].instance == i && events[n].text == text {
        assert LatestOn(events, i, text, n);
      } else {
        forall j: nat ensures LatestOn(events, i, text, j) <==> LatestOn(events[..n], i, text, j) {}
      }
    }
  }

  lemma {:induction false} RedisIs(w: World, events: seq<SetEvent>, text: string, now: int)
    ensures Live(AfterSets(w, events).redis, text, now) <==> RedisRemembers(w, events, text, now)
  {
    if events != [] {
      var n := |events| - 1;
      RedisIs(w, events[..n], text, now);
      if Kept(events[n]) && events[n].text == text {
        assert LatestKept(events, text, n);
      } else {
        forall j: nat ensures LatestKept(events, text, j) <==> LatestKept(events[..n], text, j) {}
      }
    }
  }

  /** What a check on any instance answers after any sets on any instances: with Redis, whether the
      latest set Redis kept has not run out; in an outage, whether this very instance set the key within
      the last hour. */
  lemma CheckAnswers(w: World, events: seq<SetEvent>, i: string, text: string, now: int, reachable: bool)
    ensures var after := AfterSets(w, events);
      Cooling(LocalOf(after, i), after.redis, text, now, reachable) <==>
        if reachable then RedisRemembers(w, events, text, now) else InstanceRemembers(w, events, i, text, now)
  {
    LocalIs(w, events, i, text, now);
    RedisIs(w, events, text, now);
  }

  /** `events[k]` is the latest set of its key on any instance. */
  ghost predicate LatestSet(events: seq<SetEvent>, k: nat) {
    k < |events| && forall j :: k < j < |events| ==> events[j].text != events[k].text
  }

  /** If the latest set missed Redis, Redis remembers what it did before it. */
  lemma KeptAtLatest(w: World, events: seq<SetEvent>, k: nat, now: int)
    requires LatestSet(events, k)
    ensures RedisRemembers(w, events, events[k].text, now) <==>
      if Kept(events[k]) then now < events[k].at + 60 * events[k].minutes
      else RedisRemembers(w, events[..k], events[k].text, now)
  {
    var text := events[k].text;
    if Kept(events[k]) {
      assert LatestKept(events, text, k);
    } else {
      forall j: nat ensures LatestKept(events, text, j) <==> LatestKept(events[..k], text, j) {}
    }
  }

  /** Inside the window of a key's latest set (of 1 to 60 minutes), a check on any instance answers "not
      cooling" exactly in two cases. It reached Redis, which the set had missed and which remembers no
      earlier set; or it did not reach Redis and runs on an instance that remembers no set of its own.
      The instance that made the set always does remember it. */
  lemma NotCoolingInWindowIff(w: World, events: seq<SetEvent>, k: nat, i: string, now: int, reachable: bool)
    requires LatestSet(events, k) && 1 <= events[k].minutes <= 60
    requires events[k].at <= now < events[k].at + 60 * events[k].minutes
    ensures var e := events[k]; var after := AfterSets(w, events);
      !Cooling(LocalOf(after, i), after.redis, e.text, now, reachable) <==>
        if reachable then !e.reachable && !RedisRemembers(w, events[..k], e.text, now)
        else !InstanceRemembers(w, events, i, e.text, now)
    ensures InstanceRemembers(w, events, events[k].instance, events[k].text, now)
  {
    hide AfterSets, Cooling, RedisRemembers;
    CheckAnswers(w, events, i, events[k].text, now, reachable);
    KeptAtLatest(w, events, k, now);
    assert LatestOn(events, events[k].instance, events[k].text, k);
  }

  /** So on the instance that made the set only a set that missed Redis can let a mail through; every
      other mix of outages keeps suppressing. */
  lemma SuppressedUnlessRedisMissedTheSet(w: World, events: seq<SetEvent>, k: nat, now: int, reachable: bool)
    requires LatestSet(events, k) && 1 <= events[k].minutes <= 60
    requires events[k].at <= now < events[k].at + 60 * events[k].minutes
    ensures var e := events[k]; var after := AfterSets(w, events);
      !Cooling(LocalOf(after, e.instance), after.redis, e.text, now, reachable) <==>
        !e.reachable && reachable && !Live(AfterSets(w, events[..k]).redis, e.text, now)
  {
    hide AfterSets, Cooling, InstanceRemembers, RedisRemembers;
    NotCoolingInWindowIff(w, events, k, events[k].instance, now, reachable);
    RedisIs(w, events[..k], events[k].text, now);
  }

  /** Another instance does not know of it: a 30-minute set on "A" that reached Redis does not suppress
      an outage check on "B" ten seconds later. */
  lemma OtherInstanceForgets(text: string)
    ensures var after := AfterSets(START, [SetEvent("A", text, 30, 0, true)]);
      && !Cooling(LocalOf(after, "B"), after.redis, text, 10, false)
      && Cooling(LocalOf(after, "A"), after.redis, text, 10, false)
      && Cooling(LocalOf(after, "B"), after.redis, text, 10, true)
  {
    var events := [SetEvent("A", text, 30, 0, true)];
    NotCoolingInWindowIff(START, events, 0, "A", 10, false);
    NotCoolingInWindowIff(START, events, 0, "B", 10, false);
    NotCoolingInWindowIff(START, events, 0, "B", 10, true);
    hide AfterSets, Cooling, RedisRemembers;
  }

  /** In an outage an instance suppresses for an hour from its own latest set, whatever its cooldown. */
  lemma {:induction false} OutageAnswersForAnHour(w: World, events: seq<SetEvent>, i: string, text: string, j: nat,
                                                  now: int)
    requires LatestOn(events, i, text, j)
    ensures var after := AfterSets(w, events);
      Cooling(LocalOf(after, i), after.redis, text, now, false) <==> now < events[j].at + 3600
  {
    CheckAnswers(w, events, i, text, now, false);
    hide AfterSets, Cooling;
  }

  /** So a cooldown of more than an hour outlives its local copy on the instance that set it, */
  lemma {:induction false} LongCooldownOutlivesLocal(w: World, events: seq<SetEvent>, k: nat, now: int)
    requires LatestSet(events, k) && events[k].at <= now
    ensures var e := events[k]; var after := AfterSets(w, events);
      Cooling(LocalOf(after, e.instance), after.redis, e.text, now, false) <==> now < e.at + 3600
  {
    hide AfterSets, Cooling;
    assert LatestOn(events, events[k].instance, events[k].text, k);
    OutageAnswersForAnHour(w, events, events[k].instance, events[k].text, k, now);
  }

  /** and with sets in order of time an outage check an hour after the latest one answers "not cooling"
      wherever it runs. */
  lemma NobodyRemembersAfterAnHour(events: seq<SetEvent>, k: nat, i: string, now: int)
    requires LatestSet(events, k) && events[k].at + 3600 <= now
    requires forall j :: 0 <= j < k ==> events[j].at <= events[k].at
    ensures var after := AfterSets(START, events);
      !Cooling(LocalOf(after, i), after.redis, events[k].text, now, false)
  {
    CheckAnswers(START, events, i, events[k].text, now, false);
    hide AfterSets, Cooling;
  }
}
