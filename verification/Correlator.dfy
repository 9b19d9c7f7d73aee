/** The debounce buffer of internal/incident/correlator.go. Add, a timer firing, its callback
    running, and the two halves of Drain are separate atomic steps, so a run is any interleaving of
    them. Timers are told apart by a number. */
module Correlator {
  import opened Common

  function GroupKey(a: Alert): string {
    if a.node.Some? && a.node.value != "" then a.clusterId + "|node|" + a.node.value
    else a.clusterId + "|ns|" + a.namespace
  }

  datatype Bucket = Bucket(timer: nat, alerts: seq<Alert>)

  /** How a group left the buffer: handed to the flush callback, or replaced by Add when full. */
  datatype Removal = Flushed(key: string, alerts: seq<Alert>) | Displaced(key: string, alerts: seq<Alert>)

  /** `armed` and `fired` give the key of each timer that is waiting, or whose callback has started
      and not yet run; `draining` holds the keys a Drain has collected and not yet flushed. `arrived`
      and `removed` are the history. */
  datatype State = State(
    maxGroup: nat,
    buckets: map<string, Bucket>,
    armed: map<nat, string>,
    fired: map<nat, string>,
    draining: multiset<string>,
    nextTimer: nat,
    arrived: seq<Alert>,
    removed: seq<Removal>)

  /** New: a cap that is not positive becomes 25. */
  function Init(maxGroup: int): State {
    State(if maxGroup <= 0 then 25 else maxGroup, map[], map[], map[], multiset{}, 0, [], [])
  }

  // ---- steps ----

  function AddTo(s: State, a: Alert): State {
    var key := GroupKey(a);
    var s := s.(arrived := s.arrived + [a]);
    if key in s.buckets && |s.buckets[key].alerts| < s.maxGroup then
      s.(buckets := s.buckets[key := s.buckets[key].(alerts := s.buckets[key].alerts + [a])])
    else
      s.(buckets := s.buckets[key := Bucket(s.nextTimer, [a])],
         armed := s.armed[s.nextTimer := key],
         nextTimer := s.nextTimer + 1,
         removed := if key in s.buckets then s.removed + [Displaced(key, s.buckets[key].alerts)] else s.removed)
  }

  function FlushKey(s: State, key: string): State {
    if key !in s.buckets then s
    else s.(buckets := s.buckets - {key},
            removed := if s.buckets[key].alerts == [] then s.removed
                       else s.removed + [Flushed(key, s.buckets[key].alerts)])
  }

  /** Timers of the buckets in the map; only these does Drain stop. */
  function TimersOf(buckets: map<string, Bucket>, keys: set<string>): set<nat> {
    set k | k in buckets && k in keys :: buckets[k].timer
  }

  lemma StopOne(buckets: map<string, Bucket>, armed: map<nat, string>, keys: set<string>, k: string)
    requires k in buckets && k !in keys
    ensures armed - TimersOf(buckets, keys) - {buckets[k].timer} == armed - TimersOf(buckets, keys + {k})
    ensures multiset(keys) + multiset{k} == multiset(keys + {k})
  {
    assert TimersOf(buckets, keys + {k}) == TimersOf(buckets, keys) + {buckets[k].timer};
  }

  datatype Step = Add(alert: Alert) | Fire(timer: nat) | Callback(timer: nat) | DrainCollect | DrainFlush(key: string)

  predicate Enabled(s: State, step: Step) {
    match step
    case Fire(t) => t in s.armed
    case Callback(t) => t in s.fired
    case DrainFlush(key) => key in s.draining
    case _ => true
  }

  function Next(s: State, step: Step): State
    requires Enabled(s, step)
  {
    match step
    case Add(a) => AddTo(s, a)
    case Fire(t) => s.(armed := s.armed - {t}, fired := s.fired[t := s.armed[t]])
    case Callback(t) => FlushKey(s.(fired := s.fired - {t}), s.fired[t])
    case DrainCollect => s.(armed := s.armed - TimersOf(s.buckets, s.buckets.Keys), draining := s.draining + multiset(s.buckets.Keys))
    case DrainFlush(key) => FlushKey(s.(draining := s.draining - multiset{key}), key)
  }

  predicate Feasible(s: State, run: seq<Step>)
    decreases |run|
  {
    run == [] || (Enabled(s, run[0]) && Feasible(Next(s, run[0]), run[1..]))
  }

  function End(s: State, run: seq<Step>): State
    requires Feasible(s, run)
    decreases |run|
  {
    if run == [] then s else End(Next(s, run[0]), run[1..])
  }

  // ---- the object ----

  class Correlator {
    const maxGroup: nat
    var buckets: map<string, Bucket>
    var armed: map<nat, string>
    var fired: map<nat, string>
    var draining: multiset<string>
    var nextTimer: nat
    ghost var arrived: seq<Alert>
    ghost var removed: seq<Removal>

    ghost function View(): State
      reads this
    {
      State(maxGroup, buckets, armed, fired, draining, nextTimer, arrived, removed)
    }

    constructor (maxGroup: int)
      ensures View() == Init(maxGroup) && this.maxGroup == if maxGroup > 0 then maxGroup else 25
    {
      this.maxGroup := if maxGroup <= 0 then 25 else maxGroup;
      buckets, armed, fired, draining, nextTimer := map[], map[], map[], multiset{}, 0;
      arrived, removed := [], [];
    }

    method Add(a: Alert)
      modifies this
      ensures View() == AddTo(old(View()), a)
    {
      var key := GroupKey(a);
      var b := Bucket(nextTimer, []);
      if key !in buckets || |buckets[key].alerts| >= maxGroup {
        if key in buckets {
          removed := removed + [Displaced(key, buckets[key].alerts)];
        }
        armed := armed[nextTimer := key];
        nextTimer := nextTimer + 1;
      } else {
        b := buckets[key];
      }
      assert [] + [a] == [a];
      buckets := buckets[key := b.(alerts := b.alerts + [a])];
      arrived := arrived + [a];
    }

    /** The runtime starts an armed timer's callback. */
    method TimerFires(t: nat)
      requires t in armed
      modifies this
      ensures View() == Next(old(View()), Fire(t))
    {
      fired := fired[t := armed[t]];
      armed := armed - {t};
    }

    method RunCallback(t: nat) returns (group: seq<Alert>)
      requires t in fired
      modifies this
      ensures View() == Next(old(View()), Callback(t))
      ensures group == if old(fired)[t] in old(buckets) then old(buckets)[old(fired)[t]].alerts else []
    {
      var key := fired[t];
      fired := fired - {t};
      group := Flush(key);
    }

    /** flushKey: the returned group, when not empty, goes to the flush callback. */
    method Flush(key: string) returns (group: seq<Alert>)
      modifies this
      ensures View() == FlushKey(old(View()), key)
      ensures buckets == old(buckets) - {key} && draining == old(draining)
      ensures group == if key in old(buckets) then old(buckets)[key].alerts else []
    {
      if key !in buckets {
        return [];
      }
      group := buckets[key].alerts;
      buckets := buckets - {key};
      if group != [] {
        removed := removed + [Flushed(key, group)];
      }
    }

    /** The locked half of Drain: stop each bucket's timer and collect the keys. */
    method CollectKeys()
      modifies this
      ensures View() == Next(old(View()), DrainCollect)
      ensures buckets == old(buckets) && draining == old(draining) + multiset(old(buckets).Keys)
    {
      var left, keys := StopTimers(buckets, armed);
      armed, draining := left, draining + keys;
    }

    static method StopTimers(buckets: map<string, Bucket>, armed: map<nat, string>)
      returns (left: map<nat, string>, keys: multiset<string>)
      ensures left == armed - TimersOf(buckets, buckets.Keys)
      ensures keys == multiset(buckets.Keys)
    {
      var rest, done: set<string> := buckets.Keys, {};
      left, keys := armed, multiset{};
      assert TimersOf(buckets, {}) == {};
      assert armed - {} == armed;
      while rest != {}
        invariant rest !! done && rest + done == buckets.Keys
        invariant left == armed - TimersOf(buckets, done) && keys == multiset(done)
      {
        var k :| k in rest;
        StopOne(buckets, armed, done, k);
        left := left - {buckets[k].timer};
        keys := keys + multiset{k};
        rest, done := rest - {k}, done + {k};
      }
      assert done == buckets.Keys;
    }

    /** One iteration of Drain's second loop. */
    method FlushCollected(key: string) returns (group: seq<Alert>)
      requires key in draining
      modifies this
      ensures View() == Next(old(View()), DrainFlush(key))
      ensures buckets == old(buckets) - {key} && draining == old(draining) - multiset{key}
      ensures group == if key in old(buckets) then old(buckets)[key].alerts else []
    {
      draining := draining - multiset{key};
      group := Flush(key);
    }

    /** Drain with nobody else around: it hands every buffered group over and leaves the map empty. */
    method Drain() returns (groups: map<string, seq<Alert>>)
      modifies this
      ensures buckets == map[] && draining == old(draining)
      ensures groups == map k | k in old(buckets) :: old(buckets)[k].alerts
    {
      CollectKeys();
      groups := FlushAll(buckets.Keys, old(draining));
      assert groups.Keys == old(buckets).Keys;
    }

    method FlushNext(rest: set<string>, k: string, ghost others: multiset<string>) returns (group: seq<Alert>)
      requires k in rest && rest == buckets.Keys && draining == others + multiset(rest)
      modifies this
      ensures buckets == old(buckets) - {k} && draining == others + multiset(rest - {k})
      ensures group == old(buckets)[k].alerts
    {
      TakeOne(others, rest, k);
      group := FlushCollected(k);
    }

    /** Drain's second loop over the collected keys. */
    method FlushAll(keys: set<string>, ghost others: multiset<string>) returns (groups: map<string, seq<Alert>>)
      requires keys == buckets.Keys && draining == others + multiset(keys)
      modifies this
      ensures buckets == map[] && draining == others
      ensures groups.Keys == keys && forall k | k in keys :: groups[k] == old(buckets)[k].alerts
    {
      groups := map[];
      var rest := keys;
      while rest != {}
        invariant rest == buckets.Keys && draining == others + multiset(rest)
        invariant Partway(old(buckets), buckets, groups)
      {
        var k :| k in rest;
        PartwayStep(old(buckets), buckets, groups, k);
        var group := FlushNext(rest, k, others);
        groups, rest := groups[k := group], rest - {k};
      }
    }
  }

  /** Of the buckets there were, some are still there and the others have been handed over. */
  predicate Partway(before: map<string, Bucket>, left: map<string, Bucket>, groups: map<string, seq<Alert>>) {
    before.Keys == left.Keys + groups.Keys && left.Keys !! groups.Keys &&
    (forall k | k in left :: k in before && left[k] == before[k]) &&
    (forall k | k in groups :: k in before && groups[k] == before[k].alerts)
  }

  lemma PartwayStep(before: map<string, Bucket>, left: map<string, Bucket>, groups: map<string, seq<Alert>>, k: string)
    requires Partway(before, left, groups) && k in left
    ensures Partway(before, left - {k}, groups[k := left[k].alerts])
  {
  }

  lemma TakeOne(others: multiset<string>, rest: set<string>, k: string)
    requires k in rest
    ensures k in others + multiset(rest) && others + multiset(rest) - multiset{k} == others + multiset(rest - {k})
  {
  }

  // ---- what every run keeps ----

  /** The alerts of one group, in order. */
  function Of(alerts: seq<Alert>, key: string): seq<Alert> {
    if alerts == [] then []
    else Of(alerts[..|alerts| - 1], key) + (if GroupKey(alerts[|alerts| - 1]) == key then [alerts[|alerts| - 1]] else [])
  }

  /** The alerts of one group that have left the buffer, in order. */
  function Out(removed: seq<Removal>, key: string): seq<Alert> {
    if removed == [] then []
    else Out(removed[..|removed| - 1], key) + (if removed[|removed| - 1].key == key then removed[|removed| - 1].alerts else [])
  }

  function Buffered(s: State, key: string): seq<Alert> {
    if key in s.buckets then s.buckets[key].alerts else []
  }

  /** Per group, the groups removed followed by the buffer are the arrivals, in arrival order. */
  ghost predicate InOrder(s: State) {
    forall key :: Of(s.arrived, key) == Out(s.removed, key) + Buffered(s, key)
  }

  predicate OneGroup(alerts: seq<Alert>, key: string, cap: nat) {
    1 <= |alerts| <= cap && forall i | 0 <= i < |alerts| :: GroupKey(alerts[i]) == key
  }

  /** Every group has between one and maxGroup alerts, all of its key; a displaced one is full. */
  ghost predicate Shaped(s: State) {
    s.maxGroup >= 1 &&
    (forall key | key in s.buckets :: OneGroup(s.buckets[key].alerts, key, s.maxGroup)) &&
    (forall i | 0 <= i < |s.removed| ::
       OneGroup(s.removed[i].alerts, s.removed[i].key, s.maxGroup) &&
       (s.removed[i].Displaced? ==> |s.removed[i].alerts| == s.maxGroup))
  }

  /** Something is still going to flush this key. */
  predicate Owed(s: State, key: string)
    requires key in s.buckets
  {
    var t := s.buckets[key].timer;
    (t in s.armed && s.armed[t] == key) || (t in s.fired && s.fired[t] == key) || key in s.draining
  }

  ghost predicate EveryKeyOwed(s: State) {
    (forall key | key in s.buckets :: Owed(s, key) && s.buckets[key].timer < s.nextTimer) &&
    (forall t | t in s.armed :: t < s.nextTimer) &&
    (forall t | t in s.fired :: t < s.nextTimer && t !in s.armed)
  }

  ghost predicate Inv(s: State) { InOrder(s) && Shaped(s) && EveryKeyOwed(s) }

  lemma OfSnoc(alerts: seq<Alert>, a: Alert, key: string)
    ensures Of(alerts + [a], key) == Of(alerts, key) + (if GroupKey(a) == key then [a] else [])
  {
    assert (alerts + [a])[..|alerts|] == alerts;
  }

  lemma OutSnoc(removed: seq<Removal>, r: Removal, key: string)
    ensures Out(removed + [r], key) == Out(removed, key) + (if r.key == key then r.alerts else [])
  {
    assert (removed + [r])[..|removed|] == removed;
  }

  lemma {:induction false} FlushKeepsTrail(s: State, key: string, k: string)
    requires key in s.buckets && s.buckets[key].alerts != []
    ensures var s' := FlushKey(s, key);
            Out(s'.removed, k) + Buffered(s', k) == Out(s.removed, k) + Buffered(s, k)
  {
    OutSnoc(s.removed, Flushed(key, s.buckets[key].alerts), k);
  }

  lemma {:induction false} FlushKeepsOrder(s: State, key: string)
    requires InOrder(s) && Shaped(s)
    ensures InOrder(FlushKey(s, key)) && Shaped(FlushKey(s, key))
  {
    var s' := FlushKey(s, key);
    if key in s.buckets {
      assert OneGroup(s.buckets[key].alerts, key, s.maxGroup);
      forall k ensures Of(s'.arrived, k) == Out(s'.removed, k) + Buffered(s', k) {
        FlushKeepsTrail(s, key, k);
        assert Of(s.arrived, k) == Out(s.removed, k) + Buffered(s, k);
      }
    }
  }

  /** Add meets a full bucket. */
  predicate Overflows(s: State, step: Step) {
    step.Add? && GroupKey(step.alert) in s.buckets && |s.buckets[GroupKey(step.alert)].alerts| >= s.maxGroup
  }

  /** The alerts of a group that have left the buffer and then those still in it. */
  function Trail(s: State, key: string): seq<Alert> { Out(s.removed, key) + Buffered(s, key) }

  /** Another group's trail is not touched by Add. */
  lemma {:induction false} AddSparesOthers(s: State, a: Alert, k: string)
    requires GroupKey(a) != k
    ensures Trail(AddTo(s, a), k) == Trail(s, k)
  {
    var key := GroupKey(a);
    if key in s.buckets {
      OutSnoc(s.removed, Displaced(key, s.buckets[key].alerts), k);
    }
    assert Buffered(AddTo(s, a), k) == Buffered(s, k);
  }

  /** Add joins an open bucket or opens one. */
  lemma {:induction false} AddJoins(s: State, a: Alert)
    requires !Overflows(s, Add(a))
    ensures Trail(AddTo(s, a), GroupKey(a)) == Trail(s, GroupKey(a)) + [a]
  {
    var key := GroupKey(a);
    assert AddTo(s, a).removed == s.removed;
    assert Buffered(AddTo(s, a), key) == Buffered(s, key) + [a];
  }

  /** Add displaces a full bucket. */
  lemma {:induction false} AddDisplaces(s: State, a: Alert)
    requires Overflows(s, Add(a))
    ensures Trail(AddTo(s, a), GroupKey(a)) == Trail(s, GroupKey(a)) + [a]
  {
    var key := GroupKey(a);
    OutSnoc(s.removed, Displaced(key, s.buckets[key].alerts), key);
    assert Buffered(AddTo(s, a), key) == [a];
  }

  /** Whether Add joins a bucket, opens one or displaces one, the group's trail grows by the alert. */
  lemma {:induction false} AddExtendsTrail(s: State, a: Alert, k: string)
    ensures Trail(AddTo(s, a), k) == Trail(s, k) + (if GroupKey(a) == k then [a] else [])
  {
    if GroupKey(a) != k {
      AddSparesOthers(s, a, k);
    } else if Overflows(s, Add(a)) {
      AddDisplaces(s, a);
    } else {
      AddJoins(s, a);
    }
  }

  lemma {:induction false} AddKeepsOrder(s: State, a: Alert)
    requires InOrder(s)
    ensures InOrder(AddTo(s, a))
  {
    forall k ensures var s' := AddTo(s, a); Of(s'.arrived, k) == Out(s'.removed, k) + Buffered(s', k) {
      AddExtendsTrail(s, a, k);
      OfSnoc(s.arrived, a, k);
      assert Of(s.arrived, k) == Out(s.removed, k) + Buffered(s, k);
    }
  }

  lemma {:induction false} AddKeepsShape(s: State, a: Alert)
    requires Shaped(s)
    ensures Shaped(AddTo(s, a))
  {
    var s', key := AddTo(s, a), GroupKey(a);
    assert OneGroup([a], key, s.maxGroup);
    if key in s.buckets {
      assert OneGroup(s.buckets[key].alerts, key, s.maxGroup);
    }
  }

  lemma {:induction false} StepKeepsOrder(s: State, step: Step)
    requires InOrder(s) && Shaped(s) && Enabled(s, step)
    ensures InOrder(Next(s, step)) && Shaped(Next(s, step))
  {
    match step
    case Add(a) => AddKeepsOrder(s, a); AddKeepsShape(s, a);
    case Callback(t) => SameBuffer(s, s.(fired := s.fired - {t})); FlushKeepsOrder(s.(fired := s.fired - {t}), s.fired[t]);
    case DrainFlush(key) =>
      SameBuffer(s, s.(draining := s.draining - multiset{key}));
      FlushKeepsOrder(s.(draining := s.draining - multiset{key}), key);
    case _ => SameBuffer(s, Next(s, step));
  }

  lemma SameBuffer(s: State, s': State)
    requires InOrder(s) && Shaped(s)
    requires s'.buckets == s.buckets && s'.arrived == s.arrived && s'.removed == s.removed && s'.maxGroup == s.maxGroup
    ensures InOrder(s') && Shaped(s')
  {
    forall k ensures Of(s'.arrived, k) == Out(s'.removed, k) + Buffered(s', k) {
      assert Of(s.arrived, k) == Out(s.removed, k) + Buffered(s, k);
    }
  }

  lemma {:induction false} AddKeepsOwed(s: State, a: Alert)
    requires EveryKeyOwed(s)
    ensures EveryKeyOwed(AddTo(s, a))
  {
    var s' := AddTo(s, a);
    forall key | key in s'.buckets ensures Owed(s', key) {
      assert key in s.buckets ==> Owed(s, key);
    }
  }

  lemma {:induction false} CollectKeepsOwed(s: State)
    requires EveryKeyOwed(s)
    ensures EveryKeyOwed(Next(s, DrainCollect))
  {
    var s' := Next(s, DrainCollect);
    forall key | key in s'.buckets ensures Owed(s', key) {
      assert key in s'.draining;
    }
  }

  lemma {:induction false} StepKeepsOwed(s: State, step: Step)
    requires EveryKeyOwed(s) && Enabled(s, step)
    ensures EveryKeyOwed(Next(s, step))
  {
    if step.Add? {
      AddKeepsOwed(s, step.alert);
    } else if step.DrainCollect? {
      CollectKeepsOwed(s);
    } else {
      var s' := Next(s, step);
      forall key | key in s'.buckets ensures Owed(s', key) {
        assert Owed(s, key);
      }
    }
  }

  /** Every interleaving keeps the three invariants. */
  lemma {:induction false} RunKeeps(s: State, run: seq<Step>)
    requires Inv(s) && Feasible(s, run)
    ensures Inv(End(s, run)) && End(s, run).maxGroup == s.maxGroup
    decreases |run|
  {
    if run != [] {
      StepKeepsOrder(s, run[0]);
      StepKeepsOwed(s, run[0]);
      RunKeeps(Next(s, run[0]), run[1..]);
    }
  }

  lemma InitInv(maxGroup: int)
    ensures Inv(Init(maxGroup))
  {
  }

  // ---- conservation ----

  /** All alerts that left one way: through the flush callback, or displaced. */
  function Gone(removed: seq<Removal>, displaced: bool): seq<Alert> {
    if removed == [] then []
    else
      var r := removed[|removed| - 1];
      Gone(removed[..|removed| - 1], displaced) + (if r.Displaced? == displaced then r.alerts else [])
  }

  /** How often an alert occurs. */
  function Count(s: seq<Alert>, a: Alert): nat {
    if s == [] then 0 else Count(s[..|s| - 1], a) + (if s[|s| - 1] == a then 1 else 0)
  }

  lemma {:induction false} CountIsMultiplicity(s: seq<Alert>, a: Alert)
    ensures Count(s, a) == multiset(s)[a]
  {
    if s != [] {
      CountIsMultiplicity(s[..|s| - 1], a);
      assert s == s[..|s| - 1] + [s[|s| - 1]];
    }
  }

  lemma {:induction false} CountConcat(x: seq<Alert>, y: seq<Alert>, a: Alert)
    ensures Count(x + y, a) == Count(x, a) + Count(y, a)
  {
    if y == [] {
      assert x + y == x;
    } else {
      CountConcat(x, y[..|y| - 1], a);
      assert (x + y)[..|x + y| - 1] == x + y[..|y| - 1];
    }
  }

  lemma {:induction false} CountAbsent(s: seq<Alert>, a: Alert)
    requires a !in s
    ensures Count(s, a) == 0
  {
    if s != [] {
      CountAbsent(s[..|s| - 1], a);
    }
  }

  lemma {:induction false} CountOf(alerts: seq<Alert>, a: Alert)
    ensures Count(Of(alerts, GroupKey(a)), a) == Count(alerts, a)
  {
    if alerts != [] {
      var init, last := alerts[..|alerts| - 1], alerts[|alerts| - 1];
      CountOf(init, a);
      CountConcat(Of(init, GroupKey(a)), if GroupKey(last) == GroupKey(a) then [last] else [], a);
      assert [last][..0] == [];
    }
  }

  lemma {:induction false} CountOut(removed: seq<Removal>, a: Alert, cap: nat)
    requires forall i | 0 <= i < |removed| :: OneGroup(removed[i].alerts, removed[i].key, cap)
    ensures Count(Out(removed, GroupKey(a)), a) == Count(Gone(removed, false), a) + Count(Gone(removed, true), a)
  {
    if removed != [] {
      var n := |removed| - 1;
      var init, r := removed[..n], removed[n];
      CountOut(init, a, cap);
      CountConcat(Out(init, GroupKey(a)), if r.key == GroupKey(a) then r.alerts else [], a);
      CountConcat(Gone(init, false), if r.Displaced? then [] else r.alerts, a);
      CountConcat(Gone(init, true), if r.Displaced? then r.alerts else [], a);
      if r.key != GroupKey(a) {
        assert OneGroup(r.alerts, r.key, cap);
        CountAbsent(r.alerts, a);
      }
    }
  }

  /** Added = flushed + displaced + buffered, as multisets, after every interleaving. */
  lemma {:induction false} Conservation(maxGroup: int, run: seq<Step>, a: Alert)
    requires Feasible(Init(maxGroup), run)
    ensures var s := End(Init(maxGroup), run);
            multiset(s.arrived)[a] ==
            multiset(Gone(s.removed, false))[a] + multiset(Gone(s.removed, true))[a] + multiset(Buffered(s, GroupKey(a)))[a]
  {
    InitInv(maxGroup);
    RunKeeps(Init(maxGroup), run);
    var s, key := End(Init(maxGroup), run), GroupKey(a);
    assert Of(s.arrived, key) == Out(s.removed, key) + Buffered(s, key);
    CountOf(s.arrived, a);
    CountOut(s.removed, a, s.maxGroup);
    CountConcat(Out(s.removed, key), Buffered(s, key), a);
    CountIsMultiplicity(s.arrived, a);
    CountIsMultiplicity(Gone(s.removed, false), a);
    CountIsMultiplicity(Gone(s.removed, true), a);
    CountIsMultiplicity(Buffered(s, key), a);
  }

  function OverflowCount(s: State, run: seq<Step>): nat
    requires Feasible(s, run)
    decreases |run|
  {
    if run == [] then 0 else (if Overflows(s, run[0]) then 1 else 0) + OverflowCount(Next(s, run[0]), run[1..])
  }

  lemma {:induction false} GoneSnoc(removed: seq<Removal>, r: Removal)
    ensures Gone(removed + [r], true) == Gone(removed, true) + (if r.Displaced? then r.alerts else [])
    ensures Gone(removed + [r], false) == Gone(removed, false) + (if r.Displaced? then [] else r.alerts)
  {
    assert (removed + [r])[..|removed|] == removed;
  }

  lemma {:induction false} StepDisplaces(s: State, step: Step)
    requires Inv(s) && Enabled(s, step)
    ensures |Gone(Next(s, step).removed, true)| == |Gone(s.removed, true)| + (if Overflows(s, step) then s.maxGroup else 0)
  {
    var removed' := Next(s, step).removed;
    if removed' != s.removed {
      var r := removed'[|s.removed|];
      assert removed' == s.removed + [r];
      GoneSnoc(s.removed, r);
      if Overflows(s, step) {
        assert OneGroup(s.buckets[GroupKey(step.alert)].alerts, GroupKey(step.alert), s.maxGroup);
      }
    }
  }

  lemma Distribute(n: nat, k: nat)
    ensures n * (1 + k) == n + n * k
  {
  }

  lemma NoLoss(n: nat, k: nat)
    requires n > 0
    ensures n * k == 0 <==> k == 0
  {
  }

  lemma {:induction false} DisplacedFrom(s: State, run: seq<Step>)
    requires Inv(s) && Feasible(s, run)
    ensures |Gone(End(s, run).removed, true)| == |Gone(s.removed, true)| + s.maxGroup * OverflowCount(s, run)
    decreases |run|
  {
    if run != [] {
      var s' := Next(s, run[0]);
      StepDisplaces(s, run[0]);
      StepKeepsOrder(s, run[0]);
      StepKeepsOwed(s, run[0]);
      DisplacedFrom(s', run[1..]);
      Distribute(s.maxGroup, OverflowCount(s', run[1..]));
      assert s'.maxGroup == s.maxGroup;
    }
  }

  /** Alerts are lost in exactly one way: each Add that meets a full bucket loses maxGroup of them. So
      a run loses nothing if and only if no Add in it meets a full bucket. */
  lemma {:induction false} LossIsOverflow(maxGroup: int, run: seq<Step>)
    requires Feasible(Init(maxGroup), run)
    ensures var s := End(Init(maxGroup), run);
            |Gone(s.removed, true)| == s.maxGroup * OverflowCount(Init(maxGroup), run) &&
            (Gone(s.removed, true) == [] <==> OverflowCount(Init(maxGroup), run) == 0)
  {
    InitInv(maxGroup);
    DisplacedFrom(Init(maxGroup), run);
    RunKeeps(Init(maxGroup), run);
    NoLoss(Init(maxGroup).maxGroup, OverflowCount(Init(maxGroup), run));
  }

  // ---- every group is flushed in the end ----

  predicate Quiet(step: Step) { step.Fire? || step.Callback? || step.DrainFlush? }

  /** Steps still owed: two for a waiting timer, one for a started callback or a collected key. */
  function Owing(s: State): nat { 2 * |s.armed| + |s.fired| + |s.draining| }

  lemma {:induction false} QuietStepPays(s: State, step: Step)
    requires Inv(s) && Quiet(step) && Enabled(s, step)
    ensures Owing(Next(s, step)) == Owing(s) - 1
    ensures Next(s, step).arrived == s.arrived && Gone(Next(s, step).removed, true) == Gone(s.removed, true)
  {
    match step
    case Fire(t) =>
      SizeRemove(s.armed, t);
      SizeAdd(s.fired, t, s.armed[t]);
    case Callback(t) =>
      SizeRemove(s.fired, t);
      QuietFlush(s.(fired := s.fired - {t}), s.fired[t]);
    case DrainFlush(key) =>
      QuietFlush(s.(draining := s.draining - multiset{key}), key);
  }

  lemma SizeRemove(m: map<nat, string>, t: nat)
    requires t in m
    ensures |m - {t}| == |m| - 1
  {
    assert (m - {t}).Keys == m.Keys - {t};
  }

  lemma SizeAdd(m: map<nat, string>, t: nat, key: string)
    requires t !in m
    ensures |m[t := key]| == |m| + 1
  {
    assert m[t := key].Keys == m.Keys + {t};
  }

  lemma {:induction false} QuietFlush(s: State, key: string)
    ensures Gone(FlushKey(s, key).removed, true) == Gone(s.removed, true)
  {
    if key in s.buckets {
      GoneSnoc(s.removed, Flushed(key, s.buckets[key].alerts));
    }
  }

  /** While anything is owed, some timer, callback or collected key can move. */
  lemma {:induction false} NeverStuck(s: State)
    requires Owing(s) > 0
    ensures exists step :: Quiet(step) && Enabled(s, step)
  {
    if s.armed != map[] {
      var t :| t in s.armed;
      assert Quiet(Fire(t)) && Enabled(s, Fire(t));
    } else if s.fired != map[] {
      var t :| t in s.fired;
      assert Quiet(Callback(t)) && Enabled(s, Callback(t));
    } else {
      var key :| key in s.draining;
      assert Quiet(DrainFlush(key)) && Enabled(s, DrainFlush(key));
    }
  }

  lemma {:induction false} BufferedIsOwing(s: State)
    requires EveryKeyOwed(s)
    ensures s.buckets != map[] ==> Owing(s) > 0
  {
    if s.buckets != map[] {
      var key :| key in s.buckets;
      assert Owed(s, key);
      assert s.armed != map[] || s.fired != map[] || s.draining != multiset{};
    }
  }

  /** Once Adds stop, every schedule of the remaining timers, callbacks and drained keys takes exactly
      the owed number of steps and leaves the map empty, having displaced nothing. */
  lemma {:induction false} EverythingFlushed(s: State, run: seq<Step>)
    requires Inv(s) && Feasible(s, run) && forall i | 0 <= i < |run| :: Quiet(run[i])
    ensures |run| <= Owing(s)
    ensures |run| == Owing(s) ==> End(s, run).buckets == map[]
    ensures End(s, run).arrived == s.arrived && Gone(End(s, run).removed, true) == Gone(s.removed, true)
    decreases |run|
  {
    if run == [] {
      BufferedIsOwing(s);
    } else {
      QuietStepPays(s, run[0]);
      StepKeepsOrder(s, run[0]);
      StepKeepsOwed(s, run[0]);
      EverythingFlushed(Next(s, run[0]), run[1..]);
    }
  }

  // ---- what Drain guarantees by itself ----

  /** The groups that got an alert during a run. */
  function Added(run: seq<Step>): set<string> {
    if run == [] then {} else (if run[0].Add? then {GroupKey(run[0].alert)} else {}) + Added(run[1..])
  }

  /** The collecting half in its own words: exactly the mapped buckets' timers are stopped, and each mapped
      key is collected once. */
  lemma {:induction false} CollectMeaning(s: State)
    ensures var s' := Next(s, DrainCollect);
            s'.buckets == s.buckets && s'.fired == s.fired &&
            (forall t :: t in s'.armed <==> t in s.armed && forall k | k in s.buckets :: s.buckets[k].timer != t) &&
            (forall k :: s'.draining[k] == s.draining[k] + if k in s.buckets then 1 else 0)
  {
  }

  /** Every mapped key is on Drain's list or got an alert late. */
  predicate Covered(s: State, late: set<string>) {
    forall k | k in s.buckets :: k in s.draining || k in late
  }

  lemma {:induction false} CollectCovers(s: State)
    ensures Covered(Next(s, DrainCollect), {})
  {
    var s' := Next(s, DrainCollect);
    forall k | k in s'.buckets ensures k in s'.draining {
      assert k in multiset(s.buckets.Keys);
    }
  }

  lemma {:induction false} StepCovered(s: State, step: Step, late: set<string>)
    requires Enabled(s, step) && Covered(s, late)
    ensures Covered(Next(s, step), if step.Add? then {GroupKey(step.alert)} + late else late)
  {
  }

  lemma {:induction false} RunCovered(s: State, run: seq<Step>, late: set<string>)
    requires Feasible(s, run) && Covered(s, late)
    ensures Covered(End(s, run), Added(run) + late)
    decreases |run|
  {
    if run == [] {
      assert {} + late == late;
    } else {
      var late' := if run[0].Add? then {GroupKey(run[0].alert)} + late else late;
      StepCovered(s, run[0], late);
      RunCovered(Next(s, run[0]), run[1..], late');
      assert Added(run[1..]) + late' == Added(run) + late;
    }
  }

  /** Drain empties the buffer by its own two loops, whatever timers do: once every collected key has been
      flushed, only groups that got an alert after the collecting can still be buffered. */
  lemma {:induction false} DrainEmpties(s: State, run: seq<Step>)
    requires Feasible(Next(s, DrainCollect), run)
    ensures var e := End(Next(s, DrainCollect), run);
            e.draining == multiset{} ==> forall k | k in e.buckets :: k in Added(run)
  {
    CollectCovers(s);
    RunCovered(Next(s, DrainCollect), run, {});
    assert Added(run) + {} == Added(run);
  }

  /** So without such an alert the map is empty when Drain returns. */
  lemma {:induction false} DrainEmptiesAll(s: State, run: seq<Step>)
    requires Feasible(Next(s, DrainCollect), run) && forall i | 0 <= i < |run| :: !run[i].Add?
    ensures var e := End(Next(s, DrainCollect), run); e.draining == multiset{} ==> e.buckets == map[]
  {
    DrainEmpties(s, run);
    NoneAdded(run);
  }

  lemma {:induction false} NoneAdded(run: seq<Step>)
    requires forall i | 0 <= i < |run| :: !run[i].Add?
    ensures Added(run) == {}
  {
    if run != [] {
      NoneAdded(run[1..]);
    }
  }

  lemma {:induction false} TimerStaysStopped(s: State, run: seq<Step>, t: nat)
    requires Feasible(s, run) && t !in s.armed && t < s.nextTimer
    ensures t !in End(s, run).armed
    decreases |run|
  {
    if run != [] {
      TimerStaysStopped(Next(s, run[0]), run[1..], t);
    }
  }

  /** A timer stopped by Drain never fires, in no continuation. */
  lemma {:induction false} StoppedForGood(s: State, key: string, run: seq<Step>)
    requires Inv(s) && key in s.buckets && Feasible(Next(s, DrainCollect), run)
    ensures !Enabled(End(Next(s, DrainCollect), run), Fire(s.buckets[key].timer))
  {
    CollectMeaning(s);
    TimerStaysStopped(Next(s, DrainCollect), run, s.buckets[key].timer);
  }

  // ---- the window ----

  /** The window runs from a group's first alert: joining an open bucket neither arms nor moves a timer. */
  lemma {:induction false} JoiningKeepsTimer(s: State, a: Alert)
    requires GroupKey(a) in s.buckets && !Overflows(s, Add(a))
    ensures var s', key := AddTo(s, a), GroupKey(a);
            s'.armed == s.armed && s'.nextTimer == s.nextTimer && s'.buckets[key].timer == s.buckets[key].timer
  {
  }

  /** The timer of a displaced bucket is still armed, and cuts the window of the replacement short: its
      callback flushes the replacement, long before the replacement's own timer. */
  lemma {:induction false} DisplacedTimerFlushesReplacement(s: State, a: Alert)
    requires Inv(s) && Overflows(s, Add(a)) && s.buckets[GroupKey(a)].timer in s.armed
    requires s.armed[s.buckets[GroupKey(a)].timer] == GroupKey(a)
    ensures var key, t := GroupKey(a), s.buckets[GroupKey(a)].timer;
            var s1 := Next(s, Add(a));
            Enabled(s1, Fire(t)) && s1.buckets[key].timer != t &&
            var s2 := Next(s1, Fire(t));
            Enabled(s2, Callback(t)) &&
            var s3 := Next(s2, Callback(t));
            key !in s3.buckets && s3.removed == s1.removed + [Flushed(key, [a])] && s1.buckets[key].timer in s3.armed
  {
  }

  // ---- groups ----

  /** What an alert is grouped by within its cluster: its node if it has one, else its namespace. */
  datatype Scope = OnNode(node: string) | InNamespace(namespace: string)

  function ScopeOf(a: Alert): Scope {
    match a.node
    case Some(n) => if n != "" then OnNode(n) else InNamespace(a.namespace)
    case None => InNamespace(a.namespace)
  }

  predicate SameScope(a: Alert, b: Alert) { a.clusterId == b.clusterId && ScopeOf(a) == ScopeOf(b) }

  /** The second cluster id goes on like a key of the first. */
  predicate Continues(c: string, c': string) {
    c + "|node|" <= c' + "|" || c + "|ns|" <= c' + "|"
  }

  function Mark(scope: Scope): string { if scope.OnNode? then "|node|" else "|ns|" }

  function Rest(scope: Scope): string { if scope.OnNode? then scope.node else scope.namespace }

  lemma {:induction false} KeyParts(a: Alert)
    ensures GroupKey(a) == a.clusterId + Mark(ScopeOf(a)) + Rest(ScopeOf(a))
  {
  }

  /** A mark cannot begin inside another one, except at its last character. */
  lemma {:induction false} MarksApart(m: string, m': string, d: nat)
    requires m in {"|node|", "|ns|"} && m' in {"|node|", "|ns|"} && 1 <= d < |m| && m[d] == m'[0]
    ensures d == |m| - 1
  {
    assert forall k | 1 <= k < |m| - 1 :: m[k] != '|';
  }

  /** Two different divisions of one text: the shorter cluster id is continued by the longer. */
  lemma {:induction false} Division(c: string, m: string, x: string, c': string, m': string, y: string)
    requires m in {"|node|", "|ns|"} && m' in {"|node|", "|ns|"} && c + m + x == c' + m' + y && |c| < |c'|
    ensures Continues(c, c')
  {
    var t, d := c + m + x, |c'| - |c|;
    assert t == c' + m' + y;
    assert m'[0] == '|' && t[|c'|] == m'[0];
    if d < |m| {
      assert t[|c| + d] == m[d];
      MarksApart(m, m', d);
    }
    assert c' + "|" == t[..|c'| + 1];
    assert c + m == t[..|c| + |m|];
    assert c + m <= c' + "|";
  }

  lemma {:induction false} SameDivision(c: string, m: string, x: string, c': string, m': string, y: string)
    requires m in {"|node|", "|ns|"} && m' in {"|node|", "|ns|"} && c + m + x == c' + m' + y && |c| == |c'|
    ensures c == c' && m == m' && x == y
  {
    var t, t' := c + m + x, c' + m' + y;
    assert t[..|c|] == c && t'[..|c|] == c';
    assert t[|c| + 2] == m[2] && t'[|c| + 2] == m'[2];
    assert t[|c| + |m|..] == x && t'[|c| + |m|..] == y;
  }

  /** Exactly when group keys tell the alerts of two clusters (or of one) apart by cluster and by node or
      namespace: when neither cluster id goes on like a key of the other. */
  lemma {:induction false} GroupKeyIdentifiesIff(c: string, c': string)
    ensures (forall a: Alert, b: Alert | a.clusterId == c && b.clusterId == c' && GroupKey(a) == GroupKey(b) :: SameScope(a, b)) <==>
            !Continues(c, c') && !Continues(c', c)
  {
    if !Continues(c, c') && !Continues(c', c) {
      forall a: Alert, b: Alert | a.clusterId == c && b.clusterId == c' && GroupKey(a) == GroupKey(b) ensures SameScope(a, b) {
        KeyParts(a);
        KeyParts(b);
        Separated(a, b);
      }
    } else if Continues(c, c') {
      var a, b := Confused(c, c');
    } else {
      var b, a := Confused(c', c);
    }
  }

  lemma {:induction false} Separated(a: Alert, b: Alert)
    requires GroupKey(a) == GroupKey(b) && !Continues(a.clusterId, b.clusterId) && !Continues(b.clusterId, a.clusterId)
    ensures SameScope(a, b)
  {
    KeyParts(a);
    KeyParts(b);
    var s, s' := ScopeOf(a), ScopeOf(b);
    if |a.clusterId| < |b.clusterId| {
      Division(a.clusterId, Mark(s), Rest(s), b.clusterId, Mark(s'), Rest(s'));
    } else if |b.clusterId| < |a.clusterId| {
      Division(b.clusterId, Mark(s'), Rest(s'), a.clusterId, Mark(s), Rest(s));
    } else {
      SameDivision(a.clusterId, Mark(s), Rest(s), b.clusterId, Mark(s'), Rest(s'));
    }
  }

  lemma {:induction false} Confused(c: string, c': string) returns (a: Alert, b: Alert)
    requires Continues(c, c')
    ensures a.clusterId == c && b.clusterId == c' && GroupKey(a) == GroupKey(b) && !SameScope(a, b)
  {
    var plain := Alert("", "", "", "", "", "", None, 0);
    b := plain.(clusterId := c');
    var m := if c + "|node|" <= c' + "|" then "|node|" else "|ns|";
    var w := (c' + "|")[|c + m|..];
    assert c' + "|" == c + m + w;
    assert GroupKey(b) == (c' + "|") + "ns|";
    assert (c + m + w) + "ns|" == c + m + (w + "ns|");
    a := if m == "|node|" then plain.(clusterId := c, node := Some(w + "ns|")) else plain.(clusterId := c, namespace := w + "ns|");
    assert |c| < |c'|;
  }

  // ---- representative ----

  function SeverityRank(s: string): nat {
    if s == "critical" then 3 else if s == "warning" then 2 else if s == "info" then 1 else 0
  }

  /** The order of severities: critical, warning, info, anything else. */
  lemma {:induction false} SeverityOrder(other: string)
    requires other != "critical" && other != "warning" && other != "info"
    ensures SeverityRank("critical") > SeverityRank("warning") > SeverityRank("info") > SeverityRank(other)
  {
  }

  /** No alert ranks higher, and none before it ranks as high. */
  predicate IsRepresentative(alerts: seq<Alert>, i: nat) {
    i < |alerts| &&
    (forall j | 0 <= j < |alerts| :: SeverityRank(alerts[j].severity) <= SeverityRank(alerts[i].severity)) &&
    (forall j | 0 <= j < i :: SeverityRank(alerts[j].severity) < SeverityRank(alerts[i].severity))
  }

  /** Representative: the first alert of the highest rank. */
  method Representative(alerts: seq<Alert>) returns (best: Option<Alert>)
    ensures best.None? <==> alerts == []
    ensures best.Some? ==> exists i: nat :: IsRepresentative(alerts, i) && best.value == alerts[i]
  {
    if alerts == [] {
      return None;
    }
    var top := 0;
    for n := 1 to |alerts|
      invariant 0 <= top < n
      invariant forall j | 0 <= j < n :: SeverityRank(alerts[j].severity) <= SeverityRank(alerts[top].severity)
      invariant forall j | 0 <= j < top :: SeverityRank(alerts[j].severity) < SeverityRank(alerts[top].severity)
    {
      if SeverityRank(alerts[n].severity) > SeverityRank(alerts[top].severity) {
        top := n;
      }
    }
    assert IsRepresentative(alerts, top);
    return Some(alerts[top]);
  }
}
