/** The in-process TTL store, internal/store/memory.go, and the map it stands for. Each operation
    happens at one instant `now`, so its clock readings agree. Values are byte strings. */
module Store {
  import opened Common

  datatype Item = Item(val: string, expiresAt: Option<Time>)

  type Items = map<string, Item>

  /** Strictly after the deadline. */
  predicate Expired(item: Item, now: Time) {
    item.expiresAt.Some? && now > item.expiresAt.value
  }

  /** A ttl of zero or less means no expiry. */
  function Expiry(ttl: Time, now: Time): Option<Time> {
    if ttl <= 0 then None else Some(now + ttl)
  }

  predicate Live(m: Items, key: string, now: Time) {
    key in m && !Expired(m[key], now)
  }

  function Prune(m: Items, now: Time): Items {
    map k | k in m && !Expired(m[k], now) :: m[k]
  }

  // ---- the operations as they are coded: entries expire lazily ----

  function Lookup(m: Items, key: string, now: Time): Option<string> {
    if Live(m, key, now) then Some(m[key].val) else None
  }

  function Put(m: Items, key: string, val: string, ttl: Time, now: Time): Items {
    m[key := Item(val, Expiry(ttl, now))]
  }

  function PutNX(m: Items, key: string, val: string, ttl: Time, now: Time): Items {
    if Live(m, key, now) then m else Put(m, key, val, ttl, now)
  }

  function Matching(m: Items, prefix: string, now: Time): Items {
    map k | k in m && !Expired(m[k], now) && prefix <= k :: m[k]
  }

  ghost function Pick(m: Items): (k: string)
    requires m != map[]
    ensures k in m
  {
    var k :| k in m;
    k
  }

  /** The values of a map, with multiplicity. */
  ghost function Values(m: Items): multiset<string> {
    if m == map[] then multiset{} else multiset{m[Pick(m)].val} + Values(m - {Pick(m)})
  }

  /** Any entry may be taken out first. */
  lemma {:induction false} ValuesRemove(m: Items, key: string)
    requires key in m
    ensures Values(m) == multiset{m[key].val} + Values(m - {key})
    decreases |m|
  {
    var k := Pick(m);
    if k != key {
      var a, b := m - {k}, m - {key};
      calc {
        Values(m);
        multiset{m[k].val} + Values(a);
        { ValuesRemove(a, key); }
        multiset{m[k].val} + (multiset{m[key].val} + Values(a - {key}));
        { assert a - {key} == b - {k}; }
        multiset{m[key].val} + (multiset{m[k].val} + Values(b - {k}));
        { ValuesRemove(b, k); }
        multiset{m[key].val} + Values(b);
      }
    }
  }

  lemma {:induction false} MatchingRemove(m: Items, prefix: string, now: Time, k: string)
    requires k in m
    ensures Values(Matching(m, prefix, now)) ==
            (if !Expired(m[k], now) && prefix <= k then multiset{m[k].val} else multiset{}) +
            Values(Matching(m - {k}, prefix, now))
  {
    var all := Matching(m, prefix, now);
    assert Matching(m - {k}, prefix, now) == all - {k};
    if k in all {
      ValuesRemove(all, k);
    } else {
      assert all - {k} == all;
    }
  }

  lemma {:induction false} ListStep(m: Items, prefix: string, now: Time, k: string, out: seq<string>)
    requires k in m
    ensures multiset(out) + Values(Matching(m, prefix, now)) ==
            multiset(if !Expired(m[k], now) && prefix <= k then out + [m[k].val] else out) + Values(Matching(m - {k}, prefix, now))
  {
    MatchingRemove(m, prefix, now, k);
    assert multiset(out + [m[k].val]) == multiset(out) + multiset{m[k].val};
  }

  class Memory {
    var items: Items

    constructor ()
      ensures items == map[]
    {
      items := map[];
    }

    method Get(key: string, now: Time) returns (val: Option<string>)
      ensures val == Lookup(items, key, now)
    {
      if key !in items || Expired(items[key], now) {
        return None;
      }
      return Some(items[key].val);
    }

    method Set(key: string, val: string, ttl: Time, now: Time)
      modifies this
      ensures items == Put(old(items), key, val, ttl, now)
    {
      items := items[key := Item(val, Expiry(ttl, now))];
    }

    method SetNX(key: string, val: string, ttl: Time, now: Time) returns (claimed: bool)
      modifies this
      ensures claimed == !Live(old(items), key, now)
      ensures items == PutNX(old(items), key, val, ttl, now)
    {
      if key in items && !Expired(items[key], now) {
        return false;
      }
      items := items[key := Item(val, Expiry(ttl, now))];
      return true;
    }

    method Delete(key: string)
      modifies this
      ensures items == old(items) - {key}
    {
      items := items - {key};
    }

    /** The order of the result is the map's iteration order, which is unspecified. */
    method ListByPrefix(prefix: string, now: Time) returns (out: seq<string>)
      ensures multiset(out) == Values(Matching(items, prefix, now))
    {
      out := [];
      var rest := items;
      while rest != map[]
        invariant Values(Matching(items, prefix, now)) == multiset(out) + Values(Matching(rest, prefix, now))
        decreases rest.Keys
      {
        var k :| k in rest;
        ListStep(rest, prefix, now, k, out);
        if !Expired(rest[k], now) && prefix <= k {
          out := out + [rest[k].val];
        }
        rest := rest - {k};
      }
      assert Matching(rest, prefix, now) == map[];
    }

    /** One pass of the janitor. */
    method Sweep(now: Time)
      modifies this
      ensures items == Prune(old(items), now)
    {
      var rest := items.Keys;
      while rest != {}
        invariant rest <= old(items).Keys
        invariant items == map k | k in old(items) && (k in rest || !Expired(old(items)[k], now)) :: old(items)[k]
      {
        var k :| k in rest;
        rest := rest - {k};
        if Expired(items[k], now) {
          items := items - {k};
        }
      }
    }
  }

  // ---- whole runs, and the eagerly expiring map they refine ----

  datatype Op =
    | Get(key: string)
    | Set(key: string, val: string, ttl: Time)
    | SetNX(key: string, val: string, ttl: Time)
    | Delete(key: string)
    | List(prefix: string)
    | Sweep

  datatype Call = Call(op: Op, at: Time)

  datatype Reply = Found(val: Option<string>) | Claimed(ok: bool) | Listed(vals: multiset<string>) | Done

  function Effect(m: Items, op: Op, now: Time): Items {
    match op
    case Set(key, val, ttl) => Put(m, key, val, ttl, now)
    case SetNX(key, val, ttl) => PutNX(m, key, val, ttl, now)
    case Delete(key) => m - {key}
    case Sweep => Prune(m, now)
    case _ => m
  }

  ghost function Answer(m: Items, op: Op, now: Time): Reply {
    match op
    case Get(key) => Found(Lookup(m, key, now))
    case SetNX(key, _, _) => Claimed(!Live(m, key, now))
    case List(prefix) => Listed(Values(Matching(m, prefix, now)))
    case _ => Done
  }

  /** The specification: expired entries leave the map the instant they expire, so operations never
      look at deadlines. */
  function EagerEffect(live: Items, op: Op, now: Time): Items {
    match op
    case Set(key, val, ttl) => live[key := Item(val, Expiry(ttl, now))]
    case SetNX(key, val, ttl) => if key in live then live else live[key := Item(val, Expiry(ttl, now))]
    case Delete(key) => live - {key}
    case _ => live
  }

  ghost function EagerAnswer(live: Items, op: Op): Reply {
    match op
    case Get(key) => Found(if key in live then Some(live[key].val) else None)
    case SetNX(key, _, _) => Claimed(key !in live)
    case List(prefix) => Listed(Values(map k | k in live && prefix <= k :: live[k]))
    case _ => Done
  }

  predicate Ordered(calls: seq<Call>, start: Time) {
    calls == [] || (start <= calls[0].at && Ordered(calls[1..], calls[0].at))
  }

  /** Replies of the code, in order; sweeps run but reply to nobody. */
  ghost function Run(m: Items, calls: seq<Call>): seq<Reply>
    decreases |calls|
  {
    if calls == [] then []
    else
      var c := calls[0];
      (if c.op.Sweep? then [] else [Answer(m, c.op, c.at)]) + Run(Effect(m, c.op, c.at), calls[1..])
  }

  ghost function EagerRun(m: Items, calls: seq<Call>): seq<Reply>
    decreases |calls|
  {
    if calls == [] then []
    else
      var c, live := calls[0], Prune(m, calls[0].at);
      [EagerAnswer(live, c.op)] + EagerRun(EagerEffect(live, c.op, c.at), calls[1..])
  }

  function WithoutSweeps(calls: seq<Call>): seq<Call> {
    if calls == [] then []
    else (if calls[0].op.Sweep? then [] else [calls[0]]) + WithoutSweeps(calls[1..])
  }

  lemma PruneLater(m: Items, a: Time, b: Time)
    requires a <= b
    ensures Prune(Prune(m, a), b) == Prune(m, b)
  {
  }

  /** One operation: the same reply, and the maps still agree on what is live. */
  lemma {:induction false} StepAgrees(m: Items, spec: Items, op: Op, now: Time)
    requires Prune(m, now) == Prune(spec, now)
    ensures Answer(m, op, now) == EagerAnswer(Prune(spec, now), op) || op.Sweep?
    ensures Prune(Effect(m, op, now), now) == Prune(EagerEffect(Prune(spec, now), op, now), now)
  {
    var live := Prune(spec, now);
    match op
    case Set(key, val, ttl) => PrunePut(m, live, key, val, ttl, now);
    case SetNX(key, val, ttl) =>
      PrunePut(m, live, key, val, ttl, now);
      PruneLater(m, now, now);
    case Delete(key) => PruneDelete(m, live, key, now);
    case List(prefix) =>
      assert Matching(m, prefix, now) == map k | k in live && prefix <= k :: live[k];
      PruneLater(m, now, now);
    case _ => PruneLater(m, now, now);
  }

  lemma {:induction false} PrunePut(m: Items, live: Items, key: string, val: string, ttl: Time, now: Time)
    requires Prune(m, now) == live
    ensures Prune(Put(m, key, val, ttl, now), now) == Prune(live[key := Item(val, Expiry(ttl, now))], now)
  {
    var m', live' := Put(m, key, val, ttl, now), live[key := Item(val, Expiry(ttl, now))];
    forall k ensures k in Prune(m', now) <==> k in Prune(live', now) {
      assert k in live <==> Live(m, k, now);
    }
  }

  lemma {:induction false} PruneDelete(m: Items, live: Items, key: string, now: Time)
    requires Prune(m, now) == live
    ensures Prune(m - {key}, now) == Prune(live - {key}, now)
  {
    forall k ensures k in Prune(m - {key}, now) <==> k in Prune(live - {key}, now) {
      assert k in live <==> Live(m, k, now);
    }
  }

  /** For any operations at nondecreasing times, with sweeps anywhere among them, the store replies
      what the eagerly expiring map replies to the same operations without sweeps. */
  lemma {:induction false} RefinesTimedMap(m: Items, spec: Items, calls: seq<Call>, start: Time)
    requires Ordered(calls, start) && Prune(m, start) == Prune(spec, start)
    ensures Run(m, calls) == EagerRun(spec, WithoutSweeps(calls))
    decreases |calls|
  {
    if calls != [] {
      var c := calls[0];
      PruneLater(m, start, c.at);
      PruneLater(spec, start, c.at);
      StepAgrees(m, spec, c.op, c.at);
      var m' := Effect(m, c.op, c.at);
      if c.op.Sweep? {
        PruneLater(m, c.at, c.at);
        RefinesTimedMap(m', spec, calls[1..], c.at);
        assert WithoutSweeps(calls) == WithoutSweeps(calls[1..]);
      } else {
        var live := Prune(spec, c.at);
        RefinesTimedMap(m', EagerEffect(live, c.op, c.at), calls[1..], c.at);
        var rest := WithoutSweeps(calls[1..]);
        assert WithoutSweeps(calls) == [c] + rest && ([c] + rest)[1..] == rest;
      }
    }
  }

  // ---- frame facts used by the store's clients ----

  /** The keys an operation may write. Sweeps write none: they only drop what has expired. */
  predicate Touches(op: Op, key: string) {
    (op.Set? || op.SetNX? || op.Delete?) && op.key == key
  }

  /** An operation on other keys leaves an entry alone until its deadline has passed. */
  lemma UntouchedStays(m: Items, op: Op, now: Time, key: string)
    requires !Touches(op, key)
    ensures key in m && !Expired(m[key], now) ==> key in Effect(m, op, now) && Effect(m, op, now)[key] == m[key]
    ensures key !in m ==> key !in Effect(m, op, now)
    ensures key in Effect(m, op, now) ==> key in m && Effect(m, op, now)[key] == m[key]
  {
  }
}
