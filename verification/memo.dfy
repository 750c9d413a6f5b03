/**
 * The state machine behind one `memoPromise(asyncFn, expiresIn)` instance.
 *
 * The source keeps four tables keyed by the call's key: `memo` (a getter for
 * the memoized result, or nothing), `statusMap`, `resolves` and `rejects`.
 * Here the four are one `Entry` per key. The producer `asyncFn`, promises and
 * `setTimeout` are replaced by discrete events: a producer invocation is
 * outstanding until a `Succeed` or `Fail` event names it, and an armed timer is
 * a key in a multiset until a `TimerFire` event takes it out. Every event runs
 * to completion before the next, as the single JavaScript thread does.
 */
module Memo {
  import opened Keys

  datatype Option<T> = None | Some(value: T)

  /** Every call of the memoized function gets a fresh id; it names the
      caller's own promise, and, when the call invoked the producer, that
      invocation. */
  type CallerId = nat

  /** The value of `statusMap[key]`; `Absent` is `undefined`. */
  datatype Status = Absent | Pending | Success | Error

  /** `expiresIn` as the source inspects it: a number, or any other value. */
  datatype Ttl = Millis(ms: int) | NotANumber

  /** The test guarding `setTimeout` in `get()`. */
  predicate Arms(ttl: Ttl) {
    ttl.Millis? && ttl.ms > 0
  }

  /** What the four tables hold for one key. `memo` is the result the getter
      closes over; `resolves` and `rejects` are the waiters' callbacks, each
      named by the waiting caller. */
  datatype Entry<V> = Entry(status: Status, memo: Option<V>, resolves: seq<CallerId>, rejects: seq<CallerId>)

  /** How a caller's promise settled. `FromPrototype` arises only under the
      as-written lookup of `InheritedKeys`: the promise settled with whatever
      the inherited `Object.prototype` property of that name yields. */
  datatype Settlement<V, E> = Resolved(value: V) | Rejected(error: E) | FromPrototype(name: string)

  datatype State<V, E> = State(
    ttl: Ttl,
    entries: map<Key, Entry<V>>,
    /** outstanding producer invocations, by the call that started them */
    flights: map<CallerId, Key>,
    /** one element per armed expiry timer, holding the key it will clear */
    timers: multiset<Key>,
    /** callers whose promise has settled; a promise settles at most once */
    settled: map<CallerId, Settlement<V, E>>,
    nextCaller: CallerId)

  datatype Event<V, E> =
    | Call(args: seq<string>)
    | Succeed(flight: CallerId, value: V)
    | Fail(flight: CallerId, error: E)
    | TimerFire(key: Key)

  /** What an event did: the three call paths, the broadcast of a settled
      invocation (the callbacks called, in the order called), a timer clearing
      a memo, or nothing for an event that names no outstanding invocation or
      armed timer. */
  datatype Outcome<V, E> =
    | Hit(caller: CallerId, value: V)
    | Joined(caller: CallerId)
    | Invoked(caller: CallerId, args: seq<string>)
    | Broadcast(key: Key, callbacks: seq<CallerId>, settlement: Settlement<V, E>)
    | Expired(key: Key)
    | Disabled

  /** A fresh instance: `memoPromise(asyncFn, expiresIn)` allocates its own
      empty tables, so two instances share nothing. */
  function MemoPromise<V, E>(ttl: Ttl): (s: State<V, E>)
    ensures s.ttl == ttl && s.nextCaller == 0
    ensures forall k :: EntryOf(s, k) == Entry(Absent, None, [], [])
    ensures |s.flights| == 0 && |s.timers| == 0 && |s.settled| == 0
  {
    State(ttl, map[], map[], multiset{}, map[], 0)
  }

  /** The entry of `k`; a key never touched reads as undefined in all four tables. */
  function EntryOf<V, E>(s: State<V, E>, k: Key): (en: Entry<V>)
  {
    if k in s.entries then s.entries[k] else Entry(Absent, None, [], [])
  }

  /** Settles caller `w` with `o` unless it has settled already: a promise's
      resolve and reject functions do nothing once it has settled. */
  function Deliver<V, E>(m: map<CallerId, Settlement<V, E>>, w: CallerId, o: Settlement<V, E>): (r: map<CallerId, Settlement<V, E>>)
    ensures r.Keys == m.Keys + {w}
    ensures forall x :: x in m ==> r[x] == m[x]
    ensures w !in m ==> r[w] == o
  {
    if w in m then m else m[w := o]
  }

  /** `callbacks.forEach(cb => cb(o))`: calls every callback in `ws` in order. */
  function SettleAll<V, E>(m: map<CallerId, Settlement<V, E>>, ws: seq<CallerId>, o: Settlement<V, E>): (r: map<CallerId, Settlement<V, E>>)
    ensures r.Keys == m.Keys + set w | w in ws
    ensures forall x :: x in m ==> r[x] == m[x]
    ensures forall w :: w in ws && w !in m ==> r[w] == o
    decreases |ws|
  {
    if |ws| == 0 then m
    else
      var r := SettleAll(Deliver(m, ws[0], o), ws[1..], o);
      assert forall w :: w in ws ==> w == ws[0] || w in ws[1..];
      r
  }

  /** A read through `get()`: arms one timer for `k` when the TTL is a positive
      number. */
  function Read(ttl: Ttl, timers: multiset<Key>, k: Key): (r: multiset<Key>)
    ensures r[k] == timers[k] + (if Arms(ttl) then 1 else 0)
    ensures forall j :: j != k ==> r[j] == timers[j]
  {
    if Arms(ttl) then timers + multiset{k} else timers
  }

  /** `memoizedFn(...args)` up to its `await`: a cache hit, a join of the
      in-flight invocation, or a miss that marks the key pending and invokes
      the producer. */
  function CallStep<V, E>(s: State<V, E>, args: seq<string>): (r: (State<V, E>, Outcome<V, E>))
    ensures r.0.ttl == s.ttl && r.0.nextCaller == s.nextCaller + 1
    ensures (r.1.Hit? || r.1.Joined? || r.1.Invoked?) && r.1.caller == s.nextCaller
    // the path is chosen by the memo first, then by the status
    ensures r.1.Hit? <==> EntryOf(s, KeyOf(args)).memo.Some?
    ensures r.1.Joined? <==> EntryOf(s, KeyOf(args)).memo.None? && EntryOf(s, KeyOf(args)).status == Pending
    ensures r.1.Invoked? <==> EntryOf(s, KeyOf(args)).memo.None? && EntryOf(s, KeyOf(args)).status != Pending
    // a hit settles the caller with the memoized result at once; no table changes
    // and no invocation starts, but the read arms a timer when the TTL is positive
    ensures r.1.Hit? ==>
              && r.1.value == EntryOf(s, KeyOf(args)).memo.value
              && r.0.entries == s.entries && r.0.flights == s.flights
              && r.0.settled.Keys == s.settled.Keys + {s.nextCaller}
              && (s.nextCaller !in s.settled ==> r.0.settled[s.nextCaller] == Resolved(r.1.value))
              && r.0.timers[KeyOf(args)] == s.timers[KeyOf(args)] + (if Arms(s.ttl) then 1 else 0)
              && forall j :: j != KeyOf(args) ==> r.0.timers[j] == s.timers[j]
    // a join queues the caller's resolve and reject callbacks at the ends of the lists
    ensures r.1.Joined? ==>
              && EntryOf(r.0, KeyOf(args)).resolves == EntryOf(s, KeyOf(args)).resolves + [s.nextCaller]
              && EntryOf(r.0, KeyOf(args)).rejects == EntryOf(s, KeyOf(args)).rejects + [s.nextCaller]
              && EntryOf(r.0, KeyOf(args)).status == Pending
              && EntryOf(r.0, KeyOf(args)).memo.None?
              && r.0.flights == s.flights && r.0.settled == s.settled && r.0.timers == s.timers
    // a miss sets the status to pending and starts exactly one invocation, with the call's arguments
    ensures r.1.Invoked? ==>
              && r.1.args == args
              && EntryOf(r.0, KeyOf(args)) == EntryOf(s, KeyOf(args)).(status := Pending)
              && r.0.flights == s.flights[s.nextCaller := KeyOf(args)]
              && r.0.settled == s.settled && r.0.timers == s.timers
    ensures forall w :: w in s.settled ==> w in r.0.settled && r.0.settled[w] == s.settled[w]
    // no other key's entry changes
    ensures forall j :: j != KeyOf(args) ==> EntryOf(r.0, j) == EntryOf(s, j)
  {
    var k := KeyOf(args);
    var c := s.nextCaller;
    var en := EntryOf(s, k);
    if en.memo.Some? then
      (s.(timers := Read(s.ttl, s.timers, k),
          settled := Deliver(s.settled, c, Resolved(en.memo.value)),
          nextCaller := c + 1),
       Hit(c, en.memo.value))
    else if en.status == Pending then
      (s.(entries := s.entries[k := en.(resolves := en.resolves + [c], rejects := en.rejects + [c])],
          nextCaller := c + 1),
       Joined(c))
    else
      (s.(entries := s.entries[k := en.(status := Pending)],
          flights := s.flights[c := k],
          nextCaller := c + 1),
       Invoked(c, args))
  }

  /** The invocation started by caller `c` resolved with `v`: the key becomes
      `success` with `v` memoized, every queued resolve callback is called with
      `v` in registration order and the resolve list is emptied (the reject list
      is left as it is), and the triggering caller reads `v` through `get()`. */
  function SucceedStep<V, E>(s: State<V, E>, c: CallerId, v: V): (r: (State<V, E>, Outcome<V, E>))
    ensures c !in s.flights ==> r == (s, Disabled)
    ensures c in s.flights ==>
              var k := s.flights[c];
              var en := EntryOf(s, k);
              && r.1 == Broadcast(k, en.resolves, Resolved(v))
              && EntryOf(r.0, k) == Entry(Success, Some(v), [], en.rejects)
              && r.0.flights == s.flights - {c}
              && r.0.timers[k] == s.timers[k] + (if Arms(s.ttl) then 1 else 0)
              && (forall j :: j != k ==> r.0.timers[j] == s.timers[j])
              // every waiter still waiting, and the triggering caller, receive v
              && r.0.settled.Keys == s.settled.Keys + (set w | w in en.resolves) + {c}
              && (forall w :: w in en.resolves && w !in s.settled ==> r.0.settled[w] == Resolved(v))
              && (c !in s.settled ==> r.0.settled[c] == Resolved(v))
              && (forall j :: j != k ==> EntryOf(r.0, j) == EntryOf(s, j))
    ensures r.0.ttl == s.ttl && r.0.nextCaller == s.nextCaller
    ensures forall w :: w in s.settled ==> w in r.0.settled && r.0.settled[w] == s.settled[w]
  {
    if c !in s.flights then (s, Disabled)
    else
      var k := s.flights[c];
      var en := EntryOf(s, k);
      var settled := Deliver(SettleAll(s.settled, en.resolves, Resolved(v)), c, Resolved(v));
      (s.(entries := s.entries[k := Entry(Success, Some(v), [], en.rejects)],
          flights := s.flights - {c},
          timers := Read(s.ttl, s.timers, k),
          settled := settled),
       Broadcast(k, en.resolves, Resolved(v)))
  }

  /** The invocation started by caller `c` rejected with `err`: the key becomes
      `error`, no memo is stored, every queued reject callback is called with
      `err` in registration order and the reject list is emptied (the resolve
      list is left as it is), and the error is rethrown to the triggering caller. */
  function FailStep<V, E>(s: State<V, E>, c: CallerId, err: E): (r: (State<V, E>, Outcome<V, E>))
    ensures c !in s.flights ==> r == (s, Disabled)
    ensures c in s.flights ==>
              var k := s.flights[c];
              var en := EntryOf(s, k);
              && r.1 == Broadcast(k, en.rejects, Rejected(err))
              && EntryOf(r.0, k) == Entry(Error, en.memo, en.resolves, [])
              && r.0.flights == s.flights - {c}
              && r.0.timers == s.timers
              && r.0.settled.Keys == s.settled.Keys + (set w | w in en.rejects) + {c}
              && (forall w :: w in en.rejects && w !in s.settled ==> r.0.settled[w] == Rejected(err))
              && (c !in s.settled ==> r.0.settled[c] == Rejected(err))
              && (forall j :: j != k ==> EntryOf(r.0, j) == EntryOf(s, j))
    ensures r.0.ttl == s.ttl && r.0.nextCaller == s.nextCaller
    ensures forall w :: w in s.settled ==> w in r.0.settled && r.0.settled[w] == s.settled[w]
  {
    if c !in s.flights then (s, Disabled)
    else
      var k := s.flights[c];
      var en := EntryOf(s, k);
      var settled := Deliver(SettleAll(s.settled, en.rejects, Rejected(err)), c, Rejected(err));
      (s.(entries := s.entries[k := Entry(Error, en.memo, en.resolves, [])],
          flights := s.flights - {c},
          settled := settled),
       Broadcast(k, en.rejects, Rejected(err)))
  }

  /** One armed timer for `k` fires and sets `memo[k]` to null, whatever entry
      the key holds by then: the timer closes over the key, not over the result
      it was armed for. */
  function ExpireStep<V, E>(s: State<V, E>, k: Key): (r: (State<V, E>, Outcome<V, E>))
    ensures k !in s.timers ==> r == (s, Disabled)
    ensures k in s.timers ==>
              && r.1 == Expired(k)
              && EntryOf(r.0, k).memo.None?
              && EntryOf(r.0, k) == EntryOf(s, k).(memo := None)
              && r.0.timers[k] == s.timers[k] - 1
              && (forall j :: j != k ==> r.0.timers[j] == s.timers[j])
              && (forall j :: j != k ==> EntryOf(r.0, j) == EntryOf(s, j))
              && r.0.flights == s.flights && r.0.settled == s.settled
    ensures r.0.ttl == s.ttl && r.0.nextCaller == s.nextCaller
  {
    if k !in s.timers then (s, Disabled)
    else
      var en := EntryOf(s, k);
      (s.(entries := s.entries[k := en.(memo := None)],
          timers := s.timers - multiset{k}),
       Expired(k))
  }

  /** One event, run to completion. Whatever the event, a settled promise keeps
      its settlement, and callers are numbered in arrival order. */
  function Step<V, E>(s: State<V, E>, e: Event<V, E>): (r: (State<V, E>, Outcome<V, E>))
    ensures r.0.ttl == s.ttl
    ensures r.0.nextCaller == s.nextCaller + (if e.Call? then 1 else 0)
    ensures forall w :: w in s.settled ==> w in r.0.settled && r.0.settled[w] == s.settled[w]
  {
    match e
    case Call(args) => CallStep(s, args)
    case Succeed(c, v) => SucceedStep(s, c, v)
    case Fail(c, err) => FailStep(s, c, err)
    case TimerFire(k) => ExpireStep(s, k)
  }

  /** The state after a sequence of events, one after another. */
  function Run<V, E>(s: State<V, E>, es: seq<Event<V, E>>): (s': State<V, E>)
    decreases |es|
  {
    if |es| == 0 then s else Run(Step(s, es[0]).0, es[1..])
  }
}
