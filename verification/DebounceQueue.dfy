/**
 The bounded, debounced event queue between the filesystem observer and the scanning loop.
 Every critical section of the source is one lock hold, so an execution of its threads is a
 sequence of the steps below in some order. `Queue` is the state the code keeps; `History`
 records what happened to every event and exists only to state properties.
 */
module DebounceQueue {
  import opened Orders
  import opened Paths

  type Time = real

  datatype EventKind = Created | Modified | ClosedAfterWrite | MovedTo | MovedFrom | Deleted

  /** Kinds after which a path is scanned at once. */
  predicate Terminal(kind: EventKind) {
    kind != Created && kind != Modified
  }

  datatype Event = Event(key: Key, kind: EventKind, isDirectory: bool, observedAt: Time)

  datatype Pending = Pending(kinds: set<EventKind>, firstSeenAt: Time, dueAt: Time)

  /** `le` is the order in which the code sorts path keys; nothing depends on which order it is. */
  datatype Config = Config(excluded: seq<Key>, debounce: Time, maxEvents: nat, le: (Key, Key) -> bool) {
    function Coalesce(): Time {
      if debounce < 2.0 then 2.0 else debounce
    }

    predicate Excludes(key: Key) {
      exists e :: e in excluded && Within(key, e)
    }
  }

  datatype Queue = Queue(
    raw: seq<Event>, pending: map<Key, Pending>, overflowed: bool,
    received: nat, excluded: nat, dropped: nat, debounced: nat, highWater: nat)

  const EMPTY := Queue([], map[], false, 0, 0, 0, 0, 0)

  // ---------- the steps ----------

  function Min(a: Time, b: Time): Time { if a <= b then a else b }

  function Absorb(cfg: Config, p: Pending, kind: EventKind, now: Time): Pending {
    p.(kinds := p.kinds + {kind},
       dueAt := if Terminal(kind) then now else Min(now + cfg.debounce, p.firstSeenAt + cfg.Coalesce()))
  }

  predicate Full(cfg: Config, q: Queue) {
    |q.pending| + |q.raw| >= cfg.maxEvents
  }

  /** `put_nowait` on a queue of capacity `maxEvents` raises `queue.Full`. */
  predicate PutFails(cfg: Config, q: Queue) {
    0 < cfg.maxEvents <= |q.raw|
  }

  function Drop(q: Queue): Queue {
    q.(dropped := q.dropped + 1, overflowed := true)
  }

  function Submit(cfg: Config, q: Queue, e: Event): Queue {
    if cfg.Excludes(e.key) then q.(excluded := q.excluded + 1)
    else
      var q := q.(received := q.received + 1);
      if e.key in q.pending then
        q.(debounced := q.debounced + 1,
           pending := q.pending[e.key := Absorb(cfg, q.pending[e.key], e.kind, e.observedAt)])
      else if Full(cfg, q) then Drop(q)
      else if PutFails(cfg, q) then Drop(q)
      else q.(raw := q.raw + [e])
  }

  function IngestOne(cfg: Config, q: Queue): Queue
    requires q.raw != []
  {
    var e := q.raw[0];
    var q := q.(raw := q.raw[1..]);
    if e.key in q.pending then
      q.(debounced := q.debounced + 1,
         pending := q.pending[e.key := Absorb(cfg, q.pending[e.key], e.kind, e.observedAt)])
    else if Full(cfg, q) then Drop(q)
    else
      var pending := q.pending[e.key := Absorb(cfg, Pending({}, e.observedAt, 0.0), e.kind, e.observedAt)];
      q.(pending := pending, highWater := if q.highWater < |pending| then |pending| else q.highWater)
  }

  function DueSet(q: Queue, now: Time): set<Key> {
    set k | k in q.pending && q.pending[k].dueAt <= now
  }

  function Limit(keys: seq<Key>, maximum: Option<nat>): seq<Key> {
    if maximum.Some? && maximum.value < |keys| then keys[..maximum.value] else keys
  }

  ghost function DueKeys(cfg: Config, q: Queue, now: Time, maximum: Option<nat>): seq<Key> {
    Limit(SortSet(cfg.le, DueSet(q, now)), maximum)
  }

  function Remove(q: Queue, keys: seq<Key>): Queue {
    q.(pending := map k | k in q.pending && k !in keys :: q.pending[k])
  }

  function ClearOverflow(q: Queue): Queue {
    q.(dropped := 0, overflowed := false)
  }

  // ---------- what happened to every event ----------

  /** Where an accepted event is: still raw, merged into its pending entry, in a delivery, or lost. */
  datatype Home = InRaw | InPending | InDelivery(index: nat) | Lost

  datatype Delivery = Delivery(key: Key, entry: Pending, at: Time)

  datatype History = History(
    accepted: seq<Event>, homes: seq<Home>, rawIds: seq<nat>, deliveries: seq<Delivery>,
    cleared: nat, clock: Time)

  datatype Machine = Machine(q: Queue, h: History)

  datatype Step =
    | SubmitStep(event: Event)
    | IngestStep
    | PopStep(now: Time, maximum: Option<nat>)
    | ClearStep

  /** The clock is monotone, `due` insists on a positive maximum, and ingesting needs a raw event. */
  predicate Enabled(m: Machine, step: Step) {
    match step
    case SubmitStep(e) => m.h.clock <= e.observedAt
    case IngestStep => m.q.raw != []
    case PopStep(now, maximum) => m.h.clock <= now && (maximum.Some? ==> 1 <= maximum.value)
    case ClearStep => true
  }

  function ObserveSubmit(cfg: Config, m: Machine, e: Event): History {
    if cfg.Excludes(e.key) then m.h
    else if e.key in m.q.pending then
      m.h.(accepted := m.h.accepted + [e], homes := m.h.homes + [InPending], clock := e.observedAt)
    else if Full(cfg, m.q) || PutFails(cfg, m.q) then m.h
    else m.h.(accepted := m.h.accepted + [e], homes := m.h.homes + [InRaw],
              rawIds := m.h.rawIds + [|m.h.accepted|], clock := e.observedAt)
  }

  function ObserveIngest(cfg: Config, m: Machine): History
    requires m.q.raw != []
  {
    if m.h.rawIds == [] || m.h.rawIds[0] >= |m.h.homes| then m.h
    else
      var lost := m.q.raw[0].key !in m.q.pending && Full(cfg, m.q.(raw := m.q.raw[1..]));
      m.h.(homes := m.h.homes[m.h.rawIds[0] := if lost then Lost else InPending], rawIds := m.h.rawIds[1..])
  }

  function Position(keys: seq<Key>, k: Key): (r: nat)
    requires k in keys
    ensures r < |keys| && keys[r] == k
  {
    if keys[0] == k then 0 else 1 + Position(keys[1..], k)
  }

  function Hand(q: Queue, keys: seq<Key>, now: Time): seq<Delivery>
    requires forall k :: k in keys ==> k in q.pending
  {
    seq(|keys|, i requires 0 <= i < |keys| => Delivery(keys[i], q.pending[keys[i]], now))
  }

  function Rehome(h: History, keys: seq<Key>): seq<Home>
    requires |h.homes| == |h.accepted|
  {
    seq(|h.homes|, i requires 0 <= i < |h.homes| =>
      if h.homes[i] == InPending && h.accepted[i].key in keys
      then InDelivery(|h.deliveries| + Position(keys, h.accepted[i].key)) else h.homes[i])
  }

  ghost function ObservePop(cfg: Config, m: Machine, now: Time, maximum: Option<nat>): History {
    var keys := DueKeys(cfg, m.q, now, maximum);
    if (exists k :: k in keys && k !in m.q.pending) || |m.h.homes| != |m.h.accepted| then m.h
    else
      m.h.(homes := Rehome(m.h, keys), deliveries := m.h.deliveries + Hand(m.q, keys, now), clock := now)
  }

  ghost function Pop(cfg: Config, m: Machine, now: Time, maximum: Option<nat>): Machine {
    Machine(Remove(m.q, DueKeys(cfg, m.q, now, maximum)), ObservePop(cfg, m, now, maximum))
  }

  function Clear(m: Machine): Machine {
    Machine(ClearOverflow(m.q), m.h.(cleared := m.h.cleared + m.q.dropped))
  }

  ghost function Next(cfg: Config, m: Machine, step: Step): Machine
    requires Enabled(m, step)
  {
    match step
    case SubmitStep(e) => Machine(Submit(cfg, m.q, e), ObserveSubmit(cfg, m, e))
    case IngestStep => Machine(IngestOne(cfg, m.q), ObserveIngest(cfg, m))
    case PopStep(now, maximum) => Pop(cfg, m, now, maximum)
    case ClearStep => Clear(m)
  }

  ghost predicate Feasible(cfg: Config, m: Machine, steps: seq<Step>)
    decreases |steps|
  {
    steps == [] || (Enabled(m, steps[0]) && Feasible(cfg, Next(cfg, m, steps[0]), steps[1..]))
  }

  ghost function Run(cfg: Config, m: Machine, steps: seq<Step>): Machine
    requires Feasible(cfg, m, steps)
    decreases |steps|
  {
    if steps == [] then m else Run(cfg, Next(cfg, m, steps[0]), steps[1..])
  }

  function Start(clock: Time): Machine {
    Machine(EMPTY, History([], [], [], [], 0, clock))
  }

  // ---------- the invariant ----------

  /** Nothing is lost silently: the bound, the overflow flag and the conservation law. */
  ghost predicate Counts(cfg: Config, m: Machine) {
    && |m.q.raw| + |m.q.pending| <= cfg.maxEvents
    && |m.q.pending| <= m.q.highWater <= cfg.maxEvents
    && (m.q.overflowed <==> m.q.dropped > 0)
    && m.q.received == m.q.debounced + m.q.dropped + m.h.cleared
                       + |m.q.raw| + |m.q.pending| + |m.h.deliveries|
    && m.q.received == |m.h.accepted| + m.q.dropped + m.h.cleared
  }

  predicate NoTerminal(p: Pending) {
    forall t :: t in p.kinds ==> !Terminal(t)
  }

  ghost predicate WellTimed(cfg: Config, p: Pending, clock: Time) {
    && p.kinds != {}
    && p.firstSeenAt <= clock
    && (p.dueAt <= clock || p.dueAt <= p.firstSeenAt + cfg.Coalesce())
    && (NoTerminal(p) ==> p.firstSeenAt + cfg.debounce <= p.dueAt)
  }

  ghost predicate Timing(cfg: Config, m: Machine) {
    && (forall i, j :: 0 <= i <= j < |m.q.raw| ==> m.q.raw[i].observedAt <= m.q.raw[j].observedAt)
    && (forall i :: 0 <= i < |m.q.raw| ==> m.q.raw[i].observedAt <= m.h.clock)
    && (forall k, i :: k in m.q.pending && 0 <= i < |m.q.raw| ==>
          m.q.pending[k].firstSeenAt <= m.q.raw[i].observedAt)
    && (forall k :: k in m.q.pending ==> WellTimed(cfg, m.q.pending[k], m.h.clock))
    && (forall d :: d in m.h.deliveries && NoTerminal(d.entry) ==>
          d.entry.firstSeenAt + cfg.debounce <= d.at)
  }

  /** Event `i` is where its home says, and its kind is recorded there under its own path. */
  ghost predicate Housed(m: Machine, i: nat)
    requires i < |m.h.homes| == |m.h.accepted|
  {
    var e := m.h.accepted[i];
    match m.h.homes[i]
    case InRaw => i in m.h.rawIds
    case InPending => e.key in m.q.pending && e.kind in m.q.pending[e.key].kinds
    case InDelivery(j) =>
      j < |m.h.deliveries| && m.h.deliveries[j].key == e.key && e.kind in m.h.deliveries[j].entry.kinds
    case Lost => false
  }

  ghost predicate Homes(m: Machine) {
    && |m.h.homes| == |m.h.accepted|
    && |m.h.rawIds| == |m.q.raw|
    && (forall i, j :: 0 <= i < j < |m.h.rawIds| ==> m.h.rawIds[i] < m.h.rawIds[j])
    && (forall i :: 0 <= i < |m.h.rawIds| ==>
          m.h.rawIds[i] < |m.h.accepted| && m.h.homes[m.h.rawIds[i]] == InRaw
          && m.h.accepted[m.h.rawIds[i]] == m.q.raw[i])
    && (forall i: nat :: i < |m.h.homes| ==> Housed(m, i))
  }

  /** Some accepted event with this path and kind lives in `home`. */
  ghost predicate Vouched(h: History, key: Key, kind: EventKind, home: Home) {
    exists i :: 0 <= i < |h.homes| == |h.accepted| && h.homes[i] == home
                && h.accepted[i].key == key && h.accepted[i].kind == kind
  }

  /** No record names a kind of event that was not accepted for its path. */
  ghost predicate Honest(m: Machine) {
    && (forall k, t :: k in m.q.pending && t in m.q.pending[k].kinds ==> Vouched(m.h, k, t, InPending))
    && (forall j, t :: 0 <= j < |m.h.deliveries| && t in m.h.deliveries[j].entry.kinds ==>
          Vouched(m.h, m.h.deliveries[j].key, t, InDelivery(j)))
  }

  /** Some accepted event with this path was observed at this time and lives in `home`. */
  ghost predicate Dated(h: History, key: Key, at: Time, home: Home) {
    exists i :: 0 <= i < |h.homes| == |h.accepted| && h.homes[i] == home
                && h.accepted[i].key == key && h.accepted[i].observedAt == at
  }

  /** A pending entry was first seen when the earliest of its events was observed. */
  ghost predicate Seen(m: Machine) {
    && |m.h.homes| == |m.h.accepted|
    && (forall i :: 0 <= i < |m.h.homes| && m.h.homes[i] == InPending ==>
          m.h.accepted[i].key in m.q.pending
          && m.q.pending[m.h.accepted[i].key].firstSeenAt <= m.h.accepted[i].observedAt)
    && (forall k :: k in m.q.pending ==> Dated(m.h, k, m.q.pending[k].firstSeenAt, InPending))
  }

  ghost predicate Inv(cfg: Config, m: Machine) {
    Counts(cfg, m) && Timing(cfg, m) && Homes(m) && Honest(m) && Seen(m)
  }

  // ---------- every step keeps it ----------

  ghost predicate IsDueList(cfg: Config, q: Queue, now: Time, maximum: Option<nat>, keys: seq<Key>) {
    && Sorted(cfg.le, keys) && Distinct(keys)
    && (forall k :: k in keys ==> k in q.pending && q.pending[k].dueAt <= now)
    && (maximum.Some? ==> |keys| <= maximum.value)
    && (forall k :: k in q.pending && q.pending[k].dueAt <= now && k !in keys ==>
          maximum.Some? && |keys| == maximum.value && forall d :: d in keys ==> cfg.le(d, k))
  }

  lemma DueKeysAreDue(cfg: Config, q: Queue, now: Time, maximum: Option<nat>)
    requires TotalOrder(cfg.le)
    ensures IsDueList(cfg, q, now, maximum, DueKeys(cfg, q, now, maximum))
  {
    hide *;
    var due := DueSet(q, now);
    var all := SortSet(cfg.le, due);
    SortSetSorts(cfg.le, due);
    LimitedList(cfg.le, all, maximum);
    DueListMembers(cfg, q, now, maximum, all, Limit(all, maximum));
  }

  lemma DueListMembers(cfg: Config, q: Queue, now: Time, maximum: Option<nat>, all: seq<Key>, keys: seq<Key>)
    requires all == SortSet(cfg.le, DueSet(q, now)) && keys == Limit(all, maximum)
    requires Sorted(cfg.le, keys) && Distinct(keys)
    requires maximum.Some? ==> |keys| <= maximum.value
    requires forall k :: k in all <==> k in DueSet(q, now)
    requires forall k :: k in keys ==> k in all
    requires forall k :: k in all && k !in keys ==>
               maximum.Some? && |keys| == maximum.value && forall d :: d in keys ==> cfg.le(d, k)
    ensures IsDueList(cfg, q, now, maximum, DueKeys(cfg, q, now, maximum))
  {
  }

  lemma LimitedList(le: (Key, Key) -> bool, all: seq<Key>, maximum: Option<nat>)
    requires Sorted(le, all) && Distinct(all)
    ensures Sorted(le, Limit(all, maximum)) && Distinct(Limit(all, maximum))
    ensures maximum.Some? ==> |Limit(all, maximum)| <= maximum.value
    ensures forall k :: k in Limit(all, maximum) ==> k in all
    ensures forall k :: k in all && k !in Limit(all, maximum) ==>
              maximum.Some? && |Limit(all, maximum)| == maximum.value
              && forall d :: d in Limit(all, maximum) ==> le(d, k)
  {
  }

  lemma {:induction false} RemovedSize(q: Queue, keys: seq<Key>)
    requires Distinct(keys) && forall k :: k in keys ==> k in q.pending
    ensures |Remove(q, keys).pending| == |q.pending| - |keys|
    decreases |keys|
  {
    if keys == [] {
      assert Remove(q, keys).pending == q.pending;
    } else {
      var last := keys[|keys| - 1];
      var rest := keys[..|keys| - 1];
      assert keys == rest + [last];
      RemovedSize(q, rest);
      var before, after := Remove(q, rest).pending, Remove(q, keys).pending;
      assert last in before && after == before - {last};
      OneFewer(before, last);
    }
  }

  lemma OneFewer<V>(m: map<Key, V>, k: Key)
    requires k in m
    ensures |m - {k}| == |m| - 1
  {
  }

  lemma OneMore<V>(m: map<Key, V>, k: Key, v: V)
    ensures |m[k := v]| == if k in m then |m| else |m| + 1
  {
  }

  // Submit

  lemma SubmitKeepsCounts(cfg: Config, m: Machine, e: Event)
    requires Counts(cfg, m)
    ensures Counts(cfg, Machine(Submit(cfg, m.q, e), ObserveSubmit(cfg, m, e)))
  {
  }

  lemma AbsorbKeepsWellTimed(cfg: Config, p: Pending, kind: EventKind, now: Time, clock: Time)
    requires p.kinds == {} || WellTimed(cfg, p, clock)
    requires p.firstSeenAt <= now <= clock
    ensures WellTimed(cfg, Absorb(cfg, p, kind, now), clock)
  {
  }

  lemma LaterStaysWellTimed(cfg: Config, p: Pending, clock: Time, now: Time)
    requires WellTimed(cfg, p, clock) && clock <= now
    ensures WellTimed(cfg, p, now)
  {
  }

  lemma SubmitKeepsTiming(cfg: Config, m: Machine, e: Event)
    requires Timing(cfg, m) && m.h.clock <= e.observedAt
    ensures Timing(cfg, Machine(Submit(cfg, m.q, e), ObserveSubmit(cfg, m, e)))
  {
    var n := Machine(Submit(cfg, m.q, e), ObserveSubmit(cfg, m, e));
    SubmitKeepsWellTimed(cfg, m, e);
    hide WellTimed;
    hide Absorb;
    hide NoTerminal;
    assert n.h.deliveries == m.h.deliveries;
    forall k, i | k in n.q.pending && 0 <= i < |n.q.raw|
      ensures n.q.pending[k].firstSeenAt <= n.q.raw[i].observedAt
    {
      assert n.q.pending[k].firstSeenAt == m.q.pending[k].firstSeenAt by { SameFirst(cfg, m.q, e, k); }
      assert m.q.pending[k].firstSeenAt <= m.h.clock by { FirstSeenInPast(cfg, m, k); }
    }
  }

  lemma SubmitKeepsWellTimed(cfg: Config, m: Machine, e: Event)
    requires Timing(cfg, m) && m.h.clock <= e.observedAt
    ensures var n := Machine(Submit(cfg, m.q, e), ObserveSubmit(cfg, m, e));
            m.h.clock <= n.h.clock && forall k :: k in n.q.pending ==> WellTimed(cfg, n.q.pending[k], n.h.clock)
  {
  }

  lemma SameFirst(cfg: Config, q: Queue, e: Event, k: Key)
    ensures k in q.pending <==> k in Submit(cfg, q, e).pending
    ensures k in q.pending ==> Submit(cfg, q, e).pending[k].firstSeenAt == q.pending[k].firstSeenAt
  {
  }

  lemma FirstSeenInPast(cfg: Config, m: Machine, k: Key)
    requires Timing(cfg, m) && k in m.q.pending
    ensures m.q.pending[k].firstSeenAt <= m.h.clock
  {
  }

  lemma SubmitKeepsHomes(cfg: Config, m: Machine, e: Event)
    requires Homes(m)
    ensures Homes(Machine(Submit(cfg, m.q, e), ObserveSubmit(cfg, m, e)))
  {
    var n := Machine(Submit(cfg, m.q, e), ObserveSubmit(cfg, m, e));
    forall i: nat | i < |n.h.homes| ensures Housed(n, i) {
      if i < |m.h.homes| {
        assert Housed(m, i);
        assert n.h.homes[i] == m.h.homes[i] && n.h.accepted[i] == m.h.accepted[i];
        assert i in m.h.rawIds ==> i in n.h.rawIds;
      } else if n.h.homes[i] == InRaw {
        assert n.h.rawIds[|m.h.rawIds|] == i;
      }
    }
    hide Housed;
  }

  lemma SubmitKeepsHonest(cfg: Config, m: Machine, e: Event)
    requires Homes(m) && Honest(m)
    ensures Honest(Machine(Submit(cfg, m.q, e), ObserveSubmit(cfg, m, e)))
  {
    var n := Machine(Submit(cfg, m.q, e), ObserveSubmit(cfg, m, e));
    assert |n.h.homes| == |n.h.accepted|;
    hide Housed;
    forall k, t | k in n.q.pending && t in n.q.pending[k].kinds ensures Vouched(n.h, k, t, InPending) {
      if t in m.q.pending[k].kinds {
        StillVouched(m.h, n.h, k, t, InPending, InPending);
      } else {
        VouchedAt(n.h, |m.h.homes|);
      }
    }
    hide Submit;
    forall j, t | 0 <= j < |n.h.deliveries| && t in n.h.deliveries[j].entry.kinds
      ensures Vouched(n.h, n.h.deliveries[j].key, t, InDelivery(j))
    {
      StillVouched(m.h, n.h, m.h.deliveries[j].key, t, InDelivery(j), InDelivery(j));
    }
  }

  lemma VouchedAt(h: History, i: nat)
    requires i < |h.homes| == |h.accepted|
    ensures Vouched(h, h.accepted[i].key, h.accepted[i].kind, h.homes[i])
  {
  }

  lemma StillVouched(h: History, h': History, key: Key, kind: EventKind, home: Home, home': Home)
    requires Vouched(h, key, kind, home)
    requires |h'.homes| == |h'.accepted| >= |h.accepted|
    requires forall i :: 0 <= i < |h.accepted| ==> h'.accepted[i] == h.accepted[i]
    requires forall i :: 0 <= i < |h.homes| && i < |h.accepted| && h.homes[i] == home && h.accepted[i].key == key ==>
               h'.homes[i] == home'
    ensures Vouched(h', key, kind, home')
  {
  }

  // Ingest

  lemma IngestKeepsCounts(cfg: Config, m: Machine)
    requires Counts(cfg, m) && m.q.raw != []
    ensures Counts(cfg, Machine(IngestOne(cfg, m.q), ObserveIngest(cfg, m)))
  {
  }

  lemma IngestKeepsTiming(cfg: Config, m: Machine)
    requires Timing(cfg, m) && m.q.raw != []
    ensures Timing(cfg, Machine(IngestOne(cfg, m.q), ObserveIngest(cfg, m)))
  {
    var n := Machine(IngestOne(cfg, m.q), ObserveIngest(cfg, m));
    var e := m.q.raw[0];
    forall k | k in n.q.pending
      ensures WellTimed(cfg, n.q.pending[k], n.h.clock)
      ensures n.q.pending[k].firstSeenAt <= e.observedAt
    {
      if k == e.key {
        var p := if k in m.q.pending then m.q.pending[k] else Pending({}, e.observedAt, 0.0);
        if k in m.q.pending { assert WellTimed(cfg, p, m.h.clock); }
        if n.q.pending != m.q.pending {
          AbsorbKeepsWellTimed(cfg, p, e.kind, e.observedAt, m.h.clock);
        }
      } else {
        assert WellTimed(cfg, m.q.pending[k], m.h.clock);
      }
    }
    hide WellTimed;
    hide Absorb;
    assert n.q.raw == m.q.raw[1..] && n.h.deliveries == m.h.deliveries;
    hide IngestOne;
    hide ObserveIngest;
  }

  lemma IngestKeepsHomes(cfg: Config, m: Machine)
    requires Homes(m) && Counts(cfg, m) && m.q.raw != []
    ensures Homes(Machine(IngestOne(cfg, m.q), ObserveIngest(cfg, m)))
  {
    var n := Machine(IngestOne(cfg, m.q), ObserveIngest(cfg, m));
    var first := m.h.rawIds[0];
    assert m.h.rawIds == [first] + n.h.rawIds;
    assert m.h.accepted[first] == m.q.raw[0] && n.h.homes == m.h.homes[first := InPending];
    assert m.q.raw[0].key in n.q.pending && m.q.raw[0].kind in n.q.pending[m.q.raw[0].key].kinds;
    forall i: nat | i < |n.h.homes| ensures Housed(n, i) {
      assert Housed(m, i);
    }
    hide Housed;
    hide IngestOne;
  }

  lemma IngestKeepsHonest(cfg: Config, m: Machine)
    requires Homes(m) && Honest(m) && Counts(cfg, m) && m.q.raw != []
    ensures Honest(Machine(IngestOne(cfg, m.q), ObserveIngest(cfg, m)))
  {
    var n := Machine(IngestOne(cfg, m.q), ObserveIngest(cfg, m));
    var first := m.h.rawIds[0];
    assert m.h.accepted[first] == m.q.raw[0] && m.h.homes[first] == InRaw;
    assert n.h.homes == m.h.homes[first := InPending] && n.h.accepted == m.h.accepted;
    hide Housed;
    forall k, t | k in n.q.pending && t in n.q.pending[k].kinds ensures Vouched(n.h, k, t, InPending) {
      if k in m.q.pending && t in m.q.pending[k].kinds {
        StillVouched(m.h, n.h, k, t, InPending, InPending);
      } else {
        VouchedAt(n.h, first);
      }
    }
    assert n.h.deliveries == m.h.deliveries;
    hide IngestOne;
    hide ObserveIngest;
    forall j, t | 0 <= j < |n.h.deliveries| && t in n.h.deliveries[j].entry.kinds
      ensures Vouched(n.h, n.h.deliveries[j].key, t, InDelivery(j))
    {
      StillVouched(m.h, n.h, m.h.deliveries[j].key, t, InDelivery(j), InDelivery(j));
    }
  }

  // Pop

  lemma PopKeepsCounts(cfg: Config, m: Machine, now: Time, maximum: Option<nat>)
    requires Counts(cfg, m) && Homes(m) && IsDueList(cfg, m.q, now, maximum, DueKeys(cfg, m.q, now, maximum))
    ensures Counts(cfg, Pop(cfg, m, now, maximum))
  {
    hide Housed;
    hide DueKeys;
    RemovedSize(m.q, DueKeys(cfg, m.q, now, maximum));
    hide Remove;
  }

  lemma PopKeepsTiming(cfg: Config, m: Machine, now: Time, maximum: Option<nat>)
    requires Timing(cfg, m) && m.h.clock <= now
    requires IsDueList(cfg, m.q, now, maximum, DueKeys(cfg, m.q, now, maximum))
    ensures Timing(cfg, Pop(cfg, m, now, maximum))
  {
    hide DueKeys;
    var n := Pop(cfg, m, now, maximum);
    var keys := DueKeys(cfg, m.q, now, maximum);
    var hand := Hand(m.q, keys, now);
    forall k | k in n.q.pending ensures WellTimed(cfg, n.q.pending[k], n.h.clock) {
      LaterStaysWellTimed(cfg, m.q.pending[k], m.h.clock, n.h.clock);
    }
    forall d | d in hand && NoTerminal(d.entry) ensures d.entry.firstSeenAt + cfg.debounce <= d.at {
      assert d.key in keys && d.entry == m.q.pending[d.key] && WellTimed(cfg, d.entry, m.h.clock);
    }
    hide WellTimed;
    hide Hand;
    hide Rehome;
    hide IsDueList;
  }

  lemma PopKeepsHomes(cfg: Config, m: Machine, now: Time, maximum: Option<nat>)
    requires Homes(m) && IsDueList(cfg, m.q, now, maximum, DueKeys(cfg, m.q, now, maximum))
    ensures Homes(Pop(cfg, m, now, maximum))
  {
    hide DueKeys;
    var n := Pop(cfg, m, now, maximum);
    var keys := DueKeys(cfg, m.q, now, maximum);
    assert n.h.accepted == m.h.accepted && n.h.rawIds == m.h.rawIds && n.q.raw == m.q.raw;
    assert n.h.homes == Rehome(m.h, keys) && n.h.deliveries == m.h.deliveries + Hand(m.q, keys, now);
    forall i: nat | i < |n.h.homes| ensures Housed(n, i) {
      PopKeepsHoused(cfg, m, now, maximum, i);
    }
    hide Housed;
    hide Pop;
    hide Hand;
  }

  lemma PopKeepsHoused(cfg: Config, m: Machine, now: Time, maximum: Option<nat>, i: nat)
    requires Homes(m) && IsDueList(cfg, m.q, now, maximum, DueKeys(cfg, m.q, now, maximum))
    requires i < |m.h.homes|
    ensures Housed(Pop(cfg, m, now, maximum), i)
  {
    hide DueKeys;
    assert Housed(m, i);
    var keys := DueKeys(cfg, m.q, now, maximum);
    var key := m.h.accepted[i].key;
    if m.h.homes[i] == InPending && key in keys {
      assert Hand(m.q, keys, now)[Position(keys, key)].entry == m.q.pending[key];
    }
  }

  lemma PopKeepsHonest(cfg: Config, m: Machine, now: Time, maximum: Option<nat>)
    requires Homes(m) && Honest(m) && IsDueList(cfg, m.q, now, maximum, DueKeys(cfg, m.q, now, maximum))
    ensures Honest(Pop(cfg, m, now, maximum))
  {
    hide DueKeys;
    hide Housed;
    var n := Pop(cfg, m, now, maximum);
    var keys := DueKeys(cfg, m.q, now, maximum);
    assert n.h.accepted == m.h.accepted && |n.h.homes| == |m.h.homes|;
    assert n.h.homes == Rehome(m.h, keys) && n.h.deliveries == m.h.deliveries + Hand(m.q, keys, now);
    assert forall k :: k in n.q.pending ==> k in m.q.pending && k !in keys && n.q.pending[k] == m.q.pending[k];
    hide Pop;
    forall k, t | k in n.q.pending && t in n.q.pending[k].kinds ensures Vouched(n.h, k, t, InPending) {
      StillVouched(m.h, n.h, k, t, InPending, InPending);
    }
    forall j, t | 0 <= j < |n.h.deliveries| && t in n.h.deliveries[j].entry.kinds
      ensures Vouched(n.h, n.h.deliveries[j].key, t, InDelivery(j))
    {
      if j < |m.h.deliveries| {
        StillVouched(m.h, n.h, m.h.deliveries[j].key, t, InDelivery(j), InDelivery(j));
      } else {
        var p := j - |m.h.deliveries|;
        assert n.h.deliveries[j] == Hand(m.q, keys, now)[p];
        PositionOfDistinct(keys, p);
        StillVouched(m.h, n.h, keys[p], t, InPending, InDelivery(j));
      }
    }
  }

  lemma {:induction false} PositionOfDistinct(keys: seq<Key>, p: nat)
    requires p < |keys| && Distinct(keys)
    ensures Position(keys, keys[p]) == p
  {
  }

  // First observation

  lemma DatedAt(h: History, i: nat)
    requires i < |h.homes| == |h.accepted|
    ensures Dated(h, h.accepted[i].key, h.accepted[i].observedAt, h.homes[i])
  {
  }

  lemma StillDated(h: History, h': History, key: Key, at: Time, home: Home)
    requires Dated(h, key, at, home)
    requires |h'.homes| == |h'.accepted| >= |h.accepted|
    requires forall i :: 0 <= i < |h.accepted| ==> h'.accepted[i] == h.accepted[i]
    requires forall i :: 0 <= i < |h.homes| && i < |h.accepted| && h.homes[i] == home && h.accepted[i].key == key ==>
               h'.homes[i] == home
    ensures Dated(h', key, at, home)
  {
    var i :| 0 <= i < |h.homes| == |h.accepted| && h.homes[i] == home
             && h.accepted[i].key == key && h.accepted[i].observedAt == at;
    assert h'.homes[i] == home;
  }

  lemma SubmitKeepsSeen(cfg: Config, m: Machine, e: Event)
    requires Seen(m) && Timing(cfg, m) && m.h.clock <= e.observedAt
    ensures Seen(Machine(Submit(cfg, m.q, e), ObserveSubmit(cfg, m, e)))
  {
    var n := Machine(Submit(cfg, m.q, e), ObserveSubmit(cfg, m, e));
    assert |m.h.homes| == |m.h.accepted|;
    hide *;
    SubmitExtends(cfg, m, e);
    forall k ensures (k in m.q.pending <==> k in n.q.pending)
                     && (k in m.q.pending ==> n.q.pending[k].firstSeenAt == m.q.pending[k].firstSeenAt)
    {
      SameFirst(cfg, m.q, e, k);
    }
    SeenOnMore(m, n);
  }

  lemma SubmitExtends(cfg: Config, m: Machine, e: Event)
    requires Timing(cfg, m) && m.h.clock <= e.observedAt && |m.h.homes| == |m.h.accepted|
    ensures var h := ObserveSubmit(cfg, m, e);
            |h.homes| == |h.accepted| && m.h.accepted <= h.accepted && m.h.homes <= h.homes
            && forall i :: |m.h.homes| <= i < |h.homes| && h.homes[i] == InPending ==>
                 h.accepted[i].key in m.q.pending
                 && m.q.pending[h.accepted[i].key].firstSeenAt <= h.accepted[i].observedAt
  {
    if e.key in m.q.pending {
      FirstSeenInPast(cfg, m, e.key);
    }
    hide Timing;
  }

  /** Accepting more events without changing what is pending, except by merging later ones. */
  lemma SeenOnMore(m: Machine, n: Machine)
    requires Seen(m) && |n.h.homes| == |n.h.accepted| && m.h.accepted <= n.h.accepted && m.h.homes <= n.h.homes
    requires forall k :: k in m.q.pending <==> k in n.q.pending
    requires forall k :: k in m.q.pending ==> n.q.pending[k].firstSeenAt == m.q.pending[k].firstSeenAt
    requires forall i :: |m.h.homes| <= i < |n.h.homes| && n.h.homes[i] == InPending ==>
               n.h.accepted[i].key in m.q.pending
               && m.q.pending[n.h.accepted[i].key].firstSeenAt <= n.h.accepted[i].observedAt
    ensures Seen(n)
  {
    hide Dated;
    forall k | k in n.q.pending ensures Dated(n.h, k, n.q.pending[k].firstSeenAt, InPending) {
      StillDated(m.h, n.h, k, m.q.pending[k].firstSeenAt, InPending);
    }
  }

  lemma IngestKeepsSeen(cfg: Config, m: Machine)
    requires Seen(m) && Timing(cfg, m) && Homes(m) && Counts(cfg, m) && m.q.raw != []
    ensures Seen(Machine(IngestOne(cfg, m.q), ObserveIngest(cfg, m)))
  {
    hide *;
    IngestMerges(cfg, m);
    RawHeadIsLater(cfg, m);
    SeenOnMerge(m, Machine(IngestOne(cfg, m.q), ObserveIngest(cfg, m)), m.h.rawIds[0]);
  }

  lemma RawHeadIsLater(cfg: Config, m: Machine)
    requires Timing(cfg, m) && m.q.raw != []
    ensures m.q.raw[0].key in m.q.pending ==> m.q.pending[m.q.raw[0].key].firstSeenAt <= m.q.raw[0].observedAt
  {
  }

  function FirstSeen(pending: map<Key, Pending>, k: Key, e: Event): Time {
    if k in pending then pending[k].firstSeenAt else e.observedAt
  }

  lemma IngestMerges(cfg: Config, m: Machine)
    requires Homes(m) && Counts(cfg, m) && m.q.raw != []
    ensures var e, n := m.q.raw[0], Machine(IngestOne(cfg, m.q), ObserveIngest(cfg, m));
            && m.h.rawIds != [] && m.h.rawIds[0] < |m.h.homes| == |m.h.accepted| && m.h.homes[m.h.rawIds[0]] == InRaw
            && m.h.accepted[m.h.rawIds[0]] == e && n.h.accepted == m.h.accepted
            && n.h.homes == m.h.homes[m.h.rawIds[0] := InPending]
            && (forall k :: k in n.q.pending <==> k in m.q.pending || k == e.key)
            && (forall k :: k in n.q.pending ==>
                  n.q.pending[k].firstSeenAt == FirstSeen(m.q.pending, k, e))
  {
    hide Housed;
  }

  /** Merging one more accepted event, no earlier than its pending entry if there is one. */
  lemma SeenOnMerge(m: Machine, n: Machine, first: nat)
    requires Seen(m) && first < |m.h.homes| && m.h.homes[first] == InRaw
    requires n.h.accepted == m.h.accepted && n.h.homes == m.h.homes[first := InPending]
    requires var e := m.h.accepted[first];
             && (forall k :: k in n.q.pending <==> k in m.q.pending || k == e.key)
             && (forall k :: k in n.q.pending ==>
                   n.q.pending[k].firstSeenAt == FirstSeen(m.q.pending, k, e))
             && (e.key in m.q.pending ==> m.q.pending[e.key].firstSeenAt <= e.observedAt)
    ensures Seen(n)
  {
    hide Dated;
    forall k | k in n.q.pending ensures Dated(n.h, k, n.q.pending[k].firstSeenAt, InPending) {
      if k in m.q.pending {
        StillDated(m.h, n.h, k, m.q.pending[k].firstSeenAt, InPending);
      } else {
        DatedAt(n.h, first);
      }
    }
  }

  lemma PopKeepsSeen(cfg: Config, m: Machine, now: Time, maximum: Option<nat>)
    requires Seen(m) && IsDueList(cfg, m.q, now, maximum, DueKeys(cfg, m.q, now, maximum))
    ensures Seen(Pop(cfg, m, now, maximum))
  {
    var n := Pop(cfg, m, now, maximum);
    var keys := DueKeys(cfg, m.q, now, maximum);
    hide DueKeys;
    hide Dated;
    assert n.h.accepted == m.h.accepted && n.h.homes == Rehome(m.h, keys);
    assert n.q == Remove(m.q, keys);
    hide *;
    SeenOnRemove(m, n, keys);
  }

  lemma SeenOnRemove(m: Machine, n: Machine, keys: seq<Key>)
    requires Seen(m) && n.h.accepted == m.h.accepted && n.h.homes == Rehome(m.h, keys) && n.q == Remove(m.q, keys)
    ensures Seen(n)
  {
    hide Dated;
    forall k | k in n.q.pending ensures Dated(n.h, k, n.q.pending[k].firstSeenAt, InPending) {
      StillDated(m.h, n.h, k, m.q.pending[k].firstSeenAt, InPending);
    }
  }

  // Clear

  lemma ClearKeepsRest(cfg: Config, m: Machine)
    requires Counts(cfg, m) && Timing(cfg, m) && Seen(m)
    ensures Counts(cfg, Clear(m)) && Timing(cfg, Clear(m)) && Seen(Clear(m))
  {
    hide WellTimed;
    SeenOnMore(m, Clear(m));
    hide Seen;
  }

  lemma ClearKeepsHomes(m: Machine)
    requires Homes(m)
    ensures Homes(Clear(m))
  {
    forall i: nat | i < |m.h.homes| ensures Housed(Clear(m), i) {
      assert Housed(m, i);
    }
    hide Housed;
  }

  lemma ClearKeepsHonest(m: Machine)
    requires Honest(m) && |m.h.homes| == |m.h.accepted|
    ensures Honest(Clear(m))
  {
    hide Vouched;
    forall k, t | k in m.q.pending && t in m.q.pending[k].kinds ensures Vouched(Clear(m).h, k, t, InPending) {
      StillVouched(m.h, Clear(m).h, k, t, InPending, InPending);
    }
    forall j, t | 0 <= j < |m.h.deliveries| && t in m.h.deliveries[j].entry.kinds
      ensures Vouched(Clear(m).h, m.h.deliveries[j].key, t, InDelivery(j))
    {
      StillVouched(m.h, Clear(m).h, m.h.deliveries[j].key, t, InDelivery(j), InDelivery(j));
    }
  }

  lemma ClearKeepsInv(cfg: Config, m: Machine)
    requires Inv(cfg, m)
    ensures Inv(cfg, Clear(m))
  {
    assert |m.h.homes| == |m.h.accepted| by { hide Housed; }
    hide Counts;
    hide Timing;
    hide Homes;
    hide Honest;
    hide Seen;
    ClearKeepsRest(cfg, m);
    ClearKeepsHomes(m);
    ClearKeepsHonest(m);
  }

  lemma NextKeepsInv(cfg: Config, m: Machine, step: Step)
    requires TotalOrder(cfg.le) && Inv(cfg, m) && Enabled(m, step)
    ensures Inv(cfg, Next(cfg, m, step))
  {
    hide Counts;
    hide Timing;
    hide Homes;
    hide Honest;
    hide Seen;
    hide IsDueList;
    match step
    case SubmitStep(e) =>
      SubmitKeepsCounts(cfg, m, e);
      SubmitKeepsTiming(cfg, m, e);
      SubmitKeepsHomes(cfg, m, e);
      SubmitKeepsHonest(cfg, m, e);
      SubmitKeepsSeen(cfg, m, e);
    case IngestStep =>
      IngestKeepsCounts(cfg, m);
      IngestKeepsTiming(cfg, m);
      IngestKeepsHomes(cfg, m);
      IngestKeepsHonest(cfg, m);
      IngestKeepsSeen(cfg, m);
    case PopStep(now, maximum) =>
      DueKeysAreDue(cfg, m.q, now, maximum);
      PopKeepsCounts(cfg, m, now, maximum);
      PopKeepsTiming(cfg, m, now, maximum);
      PopKeepsHomes(cfg, m, now, maximum);
      PopKeepsHonest(cfg, m, now, maximum);
      PopKeepsSeen(cfg, m, now, maximum);
    case ClearStep =>
      ClearKeepsInv(cfg, m);
  }

  // ---------- main results ----------

  /** Every interleaving of the threads' lock holds keeps the bound, the conservation law,
      the debounce window, and the whereabouts of every accepted event. */
  lemma {:induction false} EveryRunKeepsInv(cfg: Config, m: Machine, steps: seq<Step>)
    requires TotalOrder(cfg.le) && Inv(cfg, m) && Feasible(cfg, m, steps)
    ensures Inv(cfg, Run(cfg, m, steps))
    decreases |steps|
  {
    if steps != [] {
      NextKeepsInv(cfg, m, steps[0]);
      EveryRunKeepsInv(cfg, Next(cfg, m, steps[0]), steps[1..]);
    }
  }

  lemma StartIsSound(cfg: Config, clock: Time)
    ensures Inv(cfg, Start(clock))
  {
  }

  ghost predicate Reachable(cfg: Config, m: Machine) {
    exists clock, steps :: Feasible(cfg, Start(clock), steps) && m == Run(cfg, Start(clock), steps)
  }

  lemma ReachableIsSound(cfg: Config, m: Machine)
    requires TotalOrder(cfg.le) && Reachable(cfg, m)
    ensures Inv(cfg, m)
  {
    var clock, steps :| Feasible(cfg, Start(clock), steps) && m == Run(cfg, Start(clock), steps);
    StartIsSound(cfg, clock);
    EveryRunKeepsInv(cfg, Start(clock), steps);
  }

  /** The second bound check, inside ingest, and `queue.Full` are both dead code. */
  lemma IngestNeverDrops(cfg: Config, m: Machine)
    requires TotalOrder(cfg.le) && Reachable(cfg, m)
    ensures m.q.raw != [] ==> IngestOne(cfg, m.q).dropped == m.q.dropped
                              && IngestOne(cfg, m.q).overflowed == m.q.overflowed
    ensures PutFails(cfg, m.q) ==> Full(cfg, m.q)
  {
    ReachableIsSound(cfg, m);
  }

  /** When an entry first seen at `first` is due after an event of this kind at `at`: at once, or at the
      end of the debounce window, but never later than two seconds or the window after the first event. */
  predicate DueAfter(cfg: Config, first: Time, kind: EventKind, at: Time, due: Time) {
    if kind in {ClosedAfterWrite, MovedTo, MovedFrom, Deleted} then due == at
    else
      && due <= at + cfg.debounce && (due <= first + 2.0 || due <= first + cfg.debounce)
      && (due == at + cfg.debounce || (due == first + 2.0 && cfg.debounce <= 2.0)
          || (due == first + cfg.debounce && cfg.debounce >= 2.0))
  }

  /** `after` differs from `before` in one entry, into which an event has been merged. */
  ghost predicate Merges(cfg: Config, before: map<Key, Pending>, e: Event, after: map<Key, Pending>) {
    && after.Keys == before.Keys + {e.key}
    && (forall k :: k in before && k != e.key ==> after[k] == before[k])
    && var p := after[e.key];
       && p.kinds == (if e.key in before then before[e.key].kinds else {}) + {e.kind}
       && p.firstSeenAt == (if e.key in before then before[e.key].firstSeenAt else e.observedAt)
       && DueAfter(cfg, p.firstSeenAt, e.kind, e.observedAt, p.dueAt)
  }

  /** What becomes of a submitted event, in every case: it is set aside if its path is an excluded one or
      begins with one, merged if its path is pending, dropped if raw events and pending paths together
      are at the bound, and queued otherwise. */
  lemma SubmitIsExact(cfg: Config, m: Machine, e: Event)
    requires TotalOrder(cfg.le) && Reachable(cfg, m) && cfg.maxEvents >= 1
    ensures var q, n := m.q, Submit(cfg, m.q, e);
            if exists x :: x in cfg.excluded && x <= e.key then n == q.(excluded := q.excluded + 1)
            else if e.key in q.pending then
              && n == q.(received := q.received + 1, debounced := q.debounced + 1, pending := n.pending)
              && Merges(cfg, q.pending, e, n.pending)
            else if |q.raw| + |q.pending| == cfg.maxEvents then
              n == q.(received := q.received + 1, dropped := q.dropped + 1, overflowed := true)
            else n == q.(received := q.received + 1, raw := q.raw + [e])
  {
    hide *;
    QueueIsBounded(cfg, m);
    SubmitCases(cfg, m.q, e);
  }

  lemma SubmitCases(cfg: Config, q: Queue, e: Event)
    requires |q.raw| + |q.pending| <= cfg.maxEvents && cfg.maxEvents >= 1
    ensures var n := Submit(cfg, q, e);
            if exists x :: x in cfg.excluded && x <= e.key then n == q.(excluded := q.excluded + 1)
            else if e.key in q.pending then
              && n == q.(received := q.received + 1, debounced := q.debounced + 1, pending := n.pending)
              && Merges(cfg, q.pending, e, n.pending)
            else if |q.raw| + |q.pending| == cfg.maxEvents then
              n == q.(received := q.received + 1, dropped := q.dropped + 1, overflowed := true)
            else n == q.(received := q.received + 1, raw := q.raw + [e])
  {
    ExcludedBegins(cfg, e.key);
    AbsorbMerges(cfg, q.pending, e);
    hide Absorb;
    hide Merges;
    hide Within;
  }

  lemma ExcludedBegins(cfg: Config, key: Key)
    ensures cfg.Excludes(key) <==> exists x :: x in cfg.excluded && x <= key
  {
    forall x ensures Within(key, x) <==> x <= key {}
    hide Within;
  }

  lemma QueueIsBounded(cfg: Config, m: Machine)
    requires TotalOrder(cfg.le) && Reachable(cfg, m)
    ensures |m.q.raw| + |m.q.pending| <= cfg.maxEvents
  {
    hide *;
    ReachableIsSound(cfg, m);
    InvIsBounded(cfg, m);
  }

  lemma InvIsBounded(cfg: Config, m: Machine)
    requires Inv(cfg, m)
    ensures |m.q.raw| + |m.q.pending| <= cfg.maxEvents && |m.q.pending| <= m.q.highWater
  {
    hide Timing;
    hide Homes;
    hide Honest;
    hide Seen;
  }

  lemma AbsorbMerges(cfg: Config, pending: map<Key, Pending>, e: Event)
    ensures var p := if e.key in pending then pending[e.key] else Pending({}, e.observedAt, 0.0);
            Merges(cfg, pending, e, pending[e.key := Absorb(cfg, p, e.kind, e.observedAt)])
  {
  }

  /** Ingesting takes the oldest raw event and merges it, starting a new entry if its path is not pending;
      the high water mark follows the number of entries. */
  lemma IngestIsExact(cfg: Config, m: Machine)
    requires TotalOrder(cfg.le) && Reachable(cfg, m) && m.q.raw != []
    ensures var q, n, e := m.q, IngestOne(cfg, m.q), m.q.raw[0];
            && n.raw == q.raw[1..] && Merges(cfg, q.pending, e, n.pending)
            && n == q.(raw := n.raw, pending := n.pending, highWater := n.highWater,
                       debounced := q.debounced + if e.key in q.pending then 1 else 0)
            && (e.key !in q.pending ==> n.highWater == if |n.pending| > q.highWater then |n.pending| else q.highWater)
            && (e.key in q.pending ==> n.highWater == q.highWater)
  {
    hide *;
    QueueIsBounded(cfg, m);
    IngestCases(cfg, m.q);
  }

  lemma IngestCases(cfg: Config, q: Queue)
    requires |q.raw| + |q.pending| <= cfg.maxEvents && q.raw != []
    ensures var n, e := IngestOne(cfg, q), q.raw[0];
            && n.raw == q.raw[1..] && Merges(cfg, q.pending, e, n.pending)
            && n == q.(raw := n.raw, pending := n.pending, highWater := n.highWater,
                       debounced := q.debounced + if e.key in q.pending then 1 else 0)
            && (e.key !in q.pending ==> n.highWater == if |n.pending| > q.highWater then |n.pending| else q.highWater)
            && (e.key in q.pending ==> n.highWater == q.highWater)
  {
    AbsorbMerges(cfg, q.pending, q.raw[0]);
    IngestIs(cfg, q);
    hide Absorb;
    hide Merges;
    hide IngestOne;
  }

  lemma IngestIs(cfg: Config, q: Queue)
    requires |q.raw| + |q.pending| <= cfg.maxEvents && q.raw != []
    ensures var e, n := q.raw[0], IngestOne(cfg, q);
            var p := if e.key in q.pending then q.pending[e.key] else Pending({}, e.observedAt, 0.0);
            && n.pending == q.pending[e.key := Absorb(cfg, p, e.kind, e.observedAt)]
            && n == q.(raw := q.raw[1..], pending := n.pending, highWater := n.highWater,
                       debounced := q.debounced + if e.key in q.pending then 1 else 0)
            && (e.key !in q.pending ==> n.highWater == if |n.pending| > q.highWater then |n.pending| else q.highWater)
            && (e.key in q.pending ==> n.highWater == q.highWater)
  {
    hide Absorb;
  }

  /** The most paths that were pending at once in a run. */
  ghost function Widest(cfg: Config, m: Machine, steps: seq<Step>): nat
    requires Feasible(cfg, m, steps)
    decreases |steps|
  {
    if steps == [] then |m.q.pending| else Larger(|m.q.pending|, Widest(cfg, Next(cfg, m, steps[0]), steps[1..]))
  }

  function Larger(a: nat, b: nat): nat {
    if a < b then b else a
  }

  /** The high water mark is reached: over any run from the empty queue it is the most paths that were ever
      pending at once. */
  lemma HighWaterIsTheWidest(cfg: Config, clock: Time, steps: seq<Step>)
    requires TotalOrder(cfg.le) && Feasible(cfg, Start(clock), steps)
    ensures Run(cfg, Start(clock), steps).q.highWater == Widest(cfg, Start(clock), steps)
  {
    StartIsSound(cfg, clock);
    HighWaterRises(cfg, Start(clock), steps);
    hide Inv;
    hide Run;
    hide Widest;
  }

  lemma {:induction false} HighWaterRises(cfg: Config, m: Machine, steps: seq<Step>)
    requires TotalOrder(cfg.le) && Inv(cfg, m) && Feasible(cfg, m, steps)
    ensures Run(cfg, m, steps).q.highWater == Larger(m.q.highWater, Widest(cfg, m, steps))
    decreases |steps|
  {
    hide Inv;
    hide TotalOrder;
    hide Next;
    InvIsBounded(cfg, m);
    if steps != [] {
      NextKeepsInv(cfg, m, steps[0]);
      MarkRises(cfg, m, steps[0]);
      InvIsBounded(cfg, Next(cfg, m, steps[0]));
      HighWaterRises(cfg, Next(cfg, m, steps[0]), steps[1..]);
    }
    hide Enabled;
  }

  lemma MarkRises(cfg: Config, m: Machine, step: Step)
    requires TotalOrder(cfg.le) && Inv(cfg, m) && Enabled(m, step)
    ensures Next(cfg, m, step).q.highWater == Larger(m.q.highWater, |Next(cfg, m, step).q.pending|)
  {
    hide *;
    NextKeepsInv(cfg, m, step);
    InvIsBounded(cfg, m);
    InvIsBounded(cfg, Next(cfg, m, step));
    if step.IngestStep? { MarkIngest(cfg, m, step); } else { MarkElse(cfg, m, step); }
    LargerIs(m.q.highWater, |Next(cfg, m, step).q.pending|);
  }

  lemma LargerIs(a: nat, b: nat)
    ensures Larger(a, b) == if a < b then b else a
  {
  }

  lemma MarkIngest(cfg: Config, m: Machine, step: Step)
    requires Enabled(m, step) && step.IngestStep? && |m.q.raw| + |m.q.pending| <= cfg.maxEvents
    requires |m.q.pending| <= m.q.highWater
    ensures Next(cfg, m, step).q.highWater == Larger(m.q.highWater, |Next(cfg, m, step).q.pending|)
  {
    var e, n := m.q.raw[0], IngestOne(cfg, m.q);
    IngestCases(cfg, m.q);
    if e.key in m.q.pending {
      assert n.pending.Keys == m.q.pending.Keys by { hide DueAfter; hide IngestOne; }
      SameKeysSameSize(n.pending, m.q.pending);
    }
    hide IngestOne;
    hide ObserveIngest;
    hide Merges;
  }

  lemma SameKeysSameSize<V>(a: map<Key, V>, b: map<Key, V>)
    requires a.Keys == b.Keys
    ensures |a| == |b|
  {
    assert |a| == |a.Keys| && |b| == |b.Keys|;
  }

  lemma MarkElse(cfg: Config, m: Machine, step: Step)
    requires Enabled(m, step) && !step.IngestStep?
    ensures Next(cfg, m, step).q.highWater == m.q.highWater
  {
    hide DueKeys;
    hide Absorb;
  }

  /** No continued stream of events can keep an entry un-due past its coalescing bound: once the
      clock reaches it, an unlimited pop delivers the path, and a limited one either delivers it
      or delivers its full quota of earlier keys. */
  lemma PathsBecomeDue(cfg: Config, m: Machine, k: Key, now: Time, maximum: Option<nat>)
    requires TotalOrder(cfg.le) && Reachable(cfg, m) && k in m.q.pending
    requires Enabled(m, PopStep(now, maximum))
    requires m.q.pending[k].firstSeenAt + 2.0 <= now && m.q.pending[k].firstSeenAt + cfg.debounce <= now
    ensures var keys := DueKeys(cfg, m.q, now, maximum);
            k in keys || (maximum.Some? && |keys| == maximum.value && forall d :: d in keys ==> cfg.le(d, k))
  {
    hide *;
    ReachableIsSound(cfg, m);
    DueKeysAreDue(cfg, m.q, now, maximum);
    TimedEntry(cfg, m, k);
    DueByThen(cfg, m, k, now, maximum);
  }

  lemma DueByThen(cfg: Config, m: Machine, k: Key, now: Time, maximum: Option<nat>)
    requires k in m.q.pending && Enabled(m, PopStep(now, maximum)) && WellTimed(cfg, m.q.pending[k], m.h.clock)
    requires m.q.pending[k].firstSeenAt + 2.0 <= now && m.q.pending[k].firstSeenAt + cfg.debounce <= now
    requires IsDueList(cfg, m.q, now, maximum, DueKeys(cfg, m.q, now, maximum))
    ensures var keys := DueKeys(cfg, m.q, now, maximum);
            k in keys || (maximum.Some? && |keys| == maximum.value && forall d :: d in keys ==> cfg.le(d, k))
  {
    hide DueKeys;
  }

  /** A terminal event makes its pending path due at once, whether it is coalesced or ingested. */
  lemma TerminalEventsAreDueNow(cfg: Config, m: Machine, e: Event)
    requires TotalOrder(cfg.le) && Reachable(cfg, m) && e.kind in {ClosedAfterWrite, MovedTo, MovedFrom, Deleted}
    ensures e.key in m.q.pending && !cfg.Excludes(e.key) ==> e.key in DueSet(Submit(cfg, m.q, e), e.observedAt)
    ensures m.q.raw != [] && m.q.raw[0] == e ==> e.key in DueSet(IngestOne(cfg, m.q), m.h.clock)
  {
    hide *;
    QueueIsBounded(cfg, m);
    if e.key in m.q.pending && !cfg.Excludes(e.key) {
      SubmitMerges(cfg, m.q, e);
      MergedIsDue(cfg, m.q, e, Submit(cfg, m.q, e), e.observedAt);
    }
    if m.q.raw != [] && m.q.raw[0] == e {
      IngestCases(cfg, m.q);
      ReachableIsSound(cfg, m);
      RawIsPast(cfg, m);
      MergedIsDue(cfg, m.q, e, IngestOne(cfg, m.q), m.h.clock);
    }
  }

  lemma SubmitMerges(cfg: Config, q: Queue, e: Event)
    requires e.key in q.pending && !cfg.Excludes(e.key)
    ensures Merges(cfg, q.pending, e, Submit(cfg, q, e).pending)
  {
    AbsorbMerges(cfg, q.pending, e);
    hide Absorb;
    hide Merges;
  }

  lemma RawIsPast(cfg: Config, m: Machine)
    requires Inv(cfg, m) && m.q.raw != []
    ensures m.q.raw[0].observedAt <= m.h.clock
  {
    hide Counts;
    hide Homes;
    hide Honest;
    hide Seen;
    hide WellTimed;
  }

  lemma MergedIsDue(cfg: Config, q: Queue, e: Event, n: Queue, now: Time)
    requires Merges(cfg, q.pending, e, n.pending) && e.observedAt <= now
    requires e.kind in {ClosedAfterWrite, MovedTo, MovedFrom, Deleted}
    ensures e.key in DueSet(n, now)
  {
  }

  /** The first observation of a pending path is that of the earliest of its events. */
  lemma FirstSeenIsFirstObserved(cfg: Config, m: Machine, k: Key)
    requires TotalOrder(cfg.le) && Reachable(cfg, m) && k in m.q.pending
    ensures Dated(m.h, k, m.q.pending[k].firstSeenAt, InPending)
    ensures forall i :: 0 <= i < |m.h.homes| && m.h.homes[i] == InPending && m.h.accepted[i].key == k ==>
              m.q.pending[k].firstSeenAt <= m.h.accepted[i].observedAt
  {
    ReachableIsSound(cfg, m);
    hide Counts;
    hide Timing;
    hide Homes;
    hide Honest;
    hide Dated;
  }

  /** An entry that holds only non-terminal events is never delivered inside its debounce window. */
  lemma NoEarlyDelivery(cfg: Config, m: Machine, now: Time, maximum: Option<nat>, k: Key)
    requires TotalOrder(cfg.le) && Reachable(cfg, m)
    requires k in DueKeys(cfg, m.q, now, maximum)
    ensures k in m.q.pending
    ensures m.q.pending[k].kinds <= {Created, Modified} ==> m.q.pending[k].firstSeenAt + cfg.debounce <= now
  {
    hide *;
    DueKeysAreDue(cfg, m.q, now, maximum);
    DueAndPending(cfg, m.q, now, maximum, DueKeys(cfg, m.q, now, maximum), k);
    PendingIsTimed(cfg, m, k);
  }

  lemma DueAndPending(cfg: Config, q: Queue, now: Time, maximum: Option<nat>, keys: seq<Key>, k: Key)
    requires IsDueList(cfg, q, now, maximum, keys) && k in keys
    ensures k in q.pending && q.pending[k].dueAt <= now
  {
  }

  lemma PendingIsTimed(cfg: Config, m: Machine, k: Key)
    requires TotalOrder(cfg.le) && Reachable(cfg, m) && k in m.q.pending
    ensures m.q.pending[k].kinds <= {Created, Modified} ==>
              m.q.pending[k].firstSeenAt + cfg.debounce <= m.q.pending[k].dueAt
  {
    hide *;
    ReachableIsSound(cfg, m);
    TimedEntry(cfg, m, k);
    PlainIsNotTerminal(cfg, m.q.pending[k], m.h.clock);
  }

  lemma TimedEntry(cfg: Config, m: Machine, k: Key)
    requires Inv(cfg, m) && k in m.q.pending
    ensures WellTimed(cfg, m.q.pending[k], m.h.clock)
  {
    hide Counts;
    hide Homes;
    hide Honest;
    hide Seen;
    hide WellTimed;
  }

  lemma PlainIsNotTerminal(cfg: Config, p: Pending, clock: Time)
    requires WellTimed(cfg, p, clock)
    ensures p.kinds <= {Created, Modified} ==> p.firstSeenAt + cfg.debounce <= p.dueAt
  {
    assert p.kinds <= {Created, Modified} ==> forall t :: t in p.kinds ==> t in {Created, Modified};
  }

  // ---------- the class ----------

  class DebouncedPathQueue {
    const cfg: Config
    var queue: seq<Event>
    var pending: map<Key, Pending>
    var overflowed: bool
    var eventsReceived: nat
    var eventsExcluded: nat
    var eventsDropped: nat
    var eventsDebounced: nat
    var pendingHighWater: nat
    ghost var history: History

    ghost function View(): Machine
      reads this
    {
      Machine(Queue(queue, pending, overflowed, eventsReceived, eventsExcluded, eventsDropped,
                    eventsDebounced, pendingHighWater), history)
    }

    ghost predicate Valid()
      reads this
    {
      TotalOrder(cfg.le) && Inv(cfg, View())
    }

    constructor (cfg: Config, ghost clock: Time)
      requires TotalOrder(cfg.le)
      ensures Valid() && this.cfg == cfg && View() == Start(clock)
    {
      this.cfg := cfg;
      queue, pending, overflowed := [], map[], false;
      eventsReceived, eventsExcluded, eventsDropped, eventsDebounced, pendingHighWater := 0, 0, 0, 0, 0;
      history := Start(clock).h;
    }

    method Submit(key: Key, kind: EventKind, isDirectory: bool, now: Time)
      requires Valid() && history.clock <= now
      modifies this
      ensures Valid()
      ensures View() == Next(cfg, old(View()), SubmitStep(Event(key, kind, isDirectory, now)))
    {
      hide Inv;
      hide TotalOrder;
      ghost var step := SubmitStep(Event(key, kind, isDirectory, now));
      NextKeepsInv(cfg, View(), step);
      history := ObserveSubmit(cfg, View(), step.event);
      if cfg.Excludes(key) {
        eventsExcluded := eventsExcluded + 1;
        return;
      }
      eventsReceived := eventsReceived + 1;
      if key in pending {
        eventsDebounced := eventsDebounced + 1;
        pending := pending[key := Absorb(cfg, pending[key], kind, now)];
        return;
      }
      if |pending| + |queue| >= cfg.maxEvents {
        eventsDropped := eventsDropped + 1;
        overflowed := true;
        return;
      }
      queue := queue + [Event(key, kind, isDirectory, now)];
    }

    /** One lock hold of the ingest loop. */
    method IngestOne()
      requires Valid() && queue != []
      modifies this
      ensures Valid() && View() == Next(cfg, old(View()), IngestStep)
    {
      hide Inv;
      hide TotalOrder;
      NextKeepsInv(cfg, View(), IngestStep);
      history := ObserveIngest(cfg, View());
      var event := queue[0];
      queue := queue[1..];
      if event.key !in pending {
        if |pending| + |queue| >= cfg.maxEvents {
          eventsDropped := eventsDropped + 1;
          overflowed := true;
          return;
        }
        var entry := Pending({}, event.observedAt, 0.0);
        pending := pending[event.key := entry];
        OneMore(old(pending), event.key, entry);
        OneMore(old(pending), event.key, Absorb(cfg, entry, event.kind, event.observedAt));
        if pendingHighWater < |pending| {
          pendingHighWater := |pending|;
        }
        ReplaceTwice(old(pending), event.key, entry, Absorb(cfg, entry, event.kind, event.observedAt));
      } else {
        eventsDebounced := eventsDebounced + 1;
      }
      pending := pending[event.key := Absorb(cfg, pending[event.key], event.kind, event.observedAt)];
    }

    /** Drains the raw queue; between its lock holds other threads may take their own steps. */
    method Ingest()
      requires Valid()
      modifies this
      ensures Valid() && queue == [] && View() == Drained(cfg, old(View()))
    {
      hide Inv;
      hide TotalOrder;
      while queue != []
        invariant Valid() && Drained(cfg, View()) == Drained(cfg, old(View()))
        decreases |queue|
      {
        IngestOne();
      }
    }

    /** The delivered entries are the due ones in key order, cut at `maximum`. */
    method Due(now: Time, maximum: Option<nat>) returns (delivered: seq<Delivery>)
      requires Valid() && history.clock <= now && (maximum.Some? ==> 1 <= maximum.value)
      modifies this
      ensures Valid()
      ensures View() == Pop(cfg, Drained(cfg, old(View())), now, maximum)
      ensures history.deliveries == old(history.deliveries) + delivered
    {
      hide Inv;
      hide TotalOrder;
      hide SortSet;
      hide IsDueList;
      hide Hand;
      hide Rehome;
      hide Remove;
      Ingest();
      ghost var before := View();
      DrainedKeeps(cfg, old(View()));
      NextKeepsInv(cfg, before, PopStep(now, maximum));
      hide Drained;
      var keys := SortElements(cfg.le, set k | k in pending && pending[k].dueAt <= now);
      keys := Limit(keys, maximum);
      PopsThese(cfg, before, now, maximum, keys);
      var entries := pending;
      delivered := seq(|keys|, i requires 0 <= i < |keys| => Delivery(keys[i], entries[keys[i]], now));
      assert delivered == Hand(before.q, keys, now) by { HandAt(before.q, keys, now, delivered); }
      history := ObservePop(cfg, before, now, maximum);
      pending := map k | k in pending && k !in keys :: pending[k];
      assert pending == Remove(before.q, keys).pending by { RemoveAt(before.q, keys, pending); }
      assert View().q == Remove(before.q, keys) by { RemoveAt(before.q, keys, pending); }
    }

    method ClearOverflow() returns (dropped: nat)
      requires Valid()
      modifies this
      ensures Valid() && View() == Clear(old(View())) && dropped == old(eventsDropped)
    {
      hide Inv;
      hide TotalOrder;
      ClearKeepsInv(cfg, View());
      dropped := eventsDropped;
      history := history.(cleared := history.cleared + eventsDropped);
      eventsDropped := 0;
      overflowed := false;
    }

    /** The snapshot is internally consistent: its counters obey the conservation law. */
    method Telemetry() returns (received: nat, debounced: nat, dropped: nat, rawDepth: nat, pendingPaths: nat)
      requires Valid()
      ensures received == debounced + dropped + history.cleared + rawDepth + pendingPaths + |history.deliveries|
      ensures rawDepth + pendingPaths <= cfg.maxEvents && (rawDepth == 0 <==> queue == [])
      ensures pendingPaths == 0 <==> pending == map[]
      ensures dropped > 0 <==> overflowed
    {
      hide Timing;
      hide Homes;
      hide Honest;
      hide Seen;
      hide TotalOrder;
      received, debounced, dropped, rawDepth, pendingPaths :=
        eventsReceived, eventsDebounced, eventsDropped, |queue|, |pending|;
    }
  }

  lemma ReplaceTwice<V>(m: map<Key, V>, k: Key, v: V, w: V)
    ensures m[k := v][k := w] == m[k := w]
  {
  }

  lemma HandAt(q: Queue, keys: seq<Key>, now: Time, delivered: seq<Delivery>)
    requires forall k :: k in keys ==> k in q.pending
    requires |delivered| == |keys|
    requires forall i :: 0 <= i < |keys| ==> delivered[i] == Delivery(keys[i], q.pending[keys[i]], now)
    ensures delivered == Hand(q, keys, now)
  {
  }

  lemma RemoveAt(q: Queue, keys: seq<Key>, rest: map<Key, Pending>)
    requires rest == map k | k in q.pending && k !in keys :: q.pending[k]
    ensures Remove(q, keys) == q.(pending := rest)
  {
  }

  /** A pop hands over exactly the entries under its keys. */
  lemma PopAtOnce(cfg: Config, m: Machine, now: Time, maximum: Option<nat>, keys: seq<Key>)
    requires TotalOrder(cfg.le) && Inv(cfg, m)
    requires keys == Limit(SortSet(cfg.le, DueSet(m.q, now)), maximum)
    ensures keys == DueKeys(cfg, m.q, now, maximum)
    ensures forall k :: k in keys ==> k in m.q.pending
    ensures Pop(cfg, m, now, maximum).h.deliveries == m.h.deliveries + Hand(m.q, keys, now)
    ensures |Hand(m.q, keys, now)| == |keys|
    ensures forall i :: 0 <= i < |keys| ==> Hand(m.q, keys, now)[i] == Delivery(keys[i], m.q.pending[keys[i]], now)
    ensures var n := Pop(cfg, m, now, maximum).q;
            n == m.q.(pending := n.pending) && n.pending.Keys == m.q.pending.Keys - (set k | k in keys)
            && forall k :: k in n.pending ==> n.pending[k] == m.q.pending[k]
  {
    hide *;
    PopsThese(cfg, m, now, maximum, keys);
    PopHands(cfg, m, now, maximum, keys);
    HandIs(m.q, keys, now);
    RemoveIs(m.q, keys);
  }

  lemma PopsThese(cfg: Config, m: Machine, now: Time, maximum: Option<nat>, keys: seq<Key>)
    requires TotalOrder(cfg.le) && Inv(cfg, m)
    requires keys == Limit(SortSet(cfg.le, DueSet(m.q, now)), maximum)
    ensures keys == DueKeys(cfg, m.q, now, maximum)
    ensures forall k :: k in keys ==> k in m.q.pending
    ensures Pop(cfg, m, now, maximum).h.deliveries == m.h.deliveries + Hand(m.q, keys, now)
  {
    hide *;
    KeysAreDue(cfg, m.q, now, maximum, keys);
    DueKeysAreDue(cfg, m.q, now, maximum);
    DueArePending(cfg, m.q, now, maximum, keys);
    PopHands(cfg, m, now, maximum, keys);
  }

  lemma KeysAreDue(cfg: Config, q: Queue, now: Time, maximum: Option<nat>, keys: seq<Key>)
    requires keys == Limit(SortSet(cfg.le, DueSet(q, now)), maximum)
    ensures keys == DueKeys(cfg, q, now, maximum)
  {
    hide SortSet;
    hide Limit;
    hide DueSet;
  }

  lemma DueArePending(cfg: Config, q: Queue, now: Time, maximum: Option<nat>, keys: seq<Key>)
    requires IsDueList(cfg, q, now, maximum, keys)
    ensures forall k :: k in keys ==> k in q.pending
  {
  }

  lemma PopHands(cfg: Config, m: Machine, now: Time, maximum: Option<nat>, keys: seq<Key>)
    requires Inv(cfg, m) && keys == DueKeys(cfg, m.q, now, maximum) && forall k :: k in keys ==> k in m.q.pending
    ensures Pop(cfg, m, now, maximum).h.deliveries == m.h.deliveries + Hand(m.q, keys, now)
    ensures Pop(cfg, m, now, maximum).q == Remove(m.q, keys)
  {
    assert |m.h.homes| == |m.h.accepted| by {
      hide Counts;
      hide Timing;
      hide Homes;
      hide Honest;
      hide Dated;
    }
    hide Inv;
    hide DueKeys;
    hide Hand;
    hide Rehome;
    hide Remove;
  }

  lemma HandIs(q: Queue, keys: seq<Key>, now: Time)
    requires forall k :: k in keys ==> k in q.pending
    ensures |Hand(q, keys, now)| == |keys|
    ensures forall i :: 0 <= i < |keys| ==> Hand(q, keys, now)[i] == Delivery(keys[i], q.pending[keys[i]], now)
  {
  }

  lemma RemoveIs(q: Queue, keys: seq<Key>)
    ensures var n := Remove(q, keys);
            n == q.(pending := n.pending) && n.pending.Keys == q.pending.Keys - (set k | k in keys)
            && forall k :: k in n.pending ==> n.pending[k] == q.pending[k]
  {
  }

  /** The machine after ingesting every raw event. */
  function Drained(cfg: Config, m: Machine): Machine
    decreases |m.q.raw|
  {
    if m.q.raw == [] then m else Drained(cfg, Machine(IngestOne(cfg, m.q), ObserveIngest(cfg, m)))
  }

  lemma {:induction false} DrainedKeeps(cfg: Config, m: Machine)
    requires TotalOrder(cfg.le) && Inv(cfg, m)
    ensures Inv(cfg, Drained(cfg, m)) && Drained(cfg, m).q.raw == []
    ensures Drained(cfg, m).h.clock == m.h.clock && Drained(cfg, m).h.deliveries == m.h.deliveries
    ensures Drained(cfg, m).h.accepted == m.h.accepted && Drained(cfg, m).h.cleared == m.h.cleared
    ensures Drained(cfg, m).q.dropped == m.q.dropped && Drained(cfg, m).q.received == m.q.received
    decreases |m.q.raw|
  {
    if m.q.raw != [] {
      assert Counts(cfg, m);
      NextKeepsInv(cfg, m, IngestStep);
      hide Inv;
      hide TotalOrder;
      DrainedKeeps(cfg, Machine(IngestOne(cfg, m.q), ObserveIngest(cfg, m)));
    }
  }
}
