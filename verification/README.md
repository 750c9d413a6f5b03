# memoPromise, modelled in Dafny

`memoPromise(asyncFn, expiresIn)` wraps a promise-returning function in a
single-flight, time-expiring memo. Each distinct key (derived from the argument
list) has four pieces of state: a status (`pending` / `success` / `error`), an
optional memoized result (a getter), and the FIFO lists of resolve and reject
callbacks of callers waiting on the in-flight invocation. A call does exactly
one of three things. It hits the memo, or it joins the in-flight invocation as
a waiter, or it marks the key `pending` and invokes the producer. A success
memoizes the result and resolves every waiter. A failure rejects every waiter
and memoizes nothing. When the TTL is a positive number, every read of the memo
through `get()` arms a timer that later clears the memo for that key.

The model is a pure state machine over four events, each run to completion as
JavaScript's single thread runs them:

- `Call(args)`: one call of the memoized function.
- `Succeed(c, v)` and `Fail(c, e)`: the producer invocation started by caller
  `c` settles with a value or an error.
- `TimerFire(k)`: one armed expiry timer for key `k` fires.

An event can name an invocation that is not outstanding, or a key with no
armed timer. Such an event cannot happen in the program. In the model it has
the outcome `Disabled` and changes nothing.

Files and modules:

- `keys.dfy` (`Keys`): key derivation. The zero-argument sentinel is a
  constructor of its own. Any other argument list becomes its comma-joined
  string. The file also proves the join/split round trip.
- `memo.dfy` (`Memo`): the state (one `Entry` per key, the outstanding
  invocations, the armed timers, the callers' settlements) and `Step`.
- `single_flight.dfy` (`SingleFlight`): the invariant every reachable state
  keeps. From it follow single flight and independence of keys.
- `scenarios.dfy` (`Scenarios`): properties spanning several events. These
  cover shared outcomes in FIFO order, failures not cached, expiry, the no-TTL
  rule and the stale timer.
- `inherited_keys.dfy` (`InheritedKeys`): the finding below.

Callers are numbered in arrival order, and a caller's promise is its number.
A promise settles at most once (`Memo.Deliver`). This is why callbacks left
behind are harmless. A success empties only `resolves` and a failure empties
only `rejects`, so the other list keeps callbacks of callers that have
already settled. Calling those callbacks later does nothing.

Modelled as the code has it, though its documentation suggests otherwise:

- When the TTL is a positive number (line 40), an expiry timer is armed on
  every read through `get()`: by the triggering caller (line 61) and by each
  cache hit (line 19). Timers are not armed once per success, and with any
  other TTL none is armed.
- A timer clears `memo[key]` for the key, not for the result it was armed
  for. A timer armed by a hit on an earlier result can therefore clear a
  newer result (`Scenarios.StaleTimerClearsNewerMemo`).

Also modelled as the code has it:

- After a fired timer the status stays `success`; a failure sets it to
  `error` (line 53). Neither removes the key, and the next call invokes the
  producer because the memo is empty and the status is not `pending`.

## Model

| member | source | states |
|---|---|---|
| Keys.KeyOf | memo-promise.js:16 | The sentinel key is produced exactly for calls with zero arguments |
| Keys.Join | memo-promise.js:16 | `args.toString()` on string arguments: the key starts with the first argument, and when another argument follows, a comma comes right after the first |
| Keys.JoinCommaFree | memo-promise.js:16 | The key holds a comma exactly when there are two or more arguments or an argument holds one |
| Keys.EmptyStringIsNotNoArgs | memo-promise.js:9-16 | The zero-argument call and the call `("")` get different keys; the latter's key is the empty string |
| Keys.SplitJoin | memo-promise.js:16 | Splitting the key of a non-empty list of comma-free arguments at its commas gives the arguments back |
| Keys.JoinSplit | memo-promise.js:16 | Every string is the key of some argument list: joining the comma-separated pieces of a string gives the string |
| Keys.KeyOfInjective | memo-promise.js:16 | Two lists of comma-free arguments share an entry if and only if they are equal |
| Keys.CommaCollision | memo-promise.js:16 | `("a,b")` and `("a", "b")` share one entry, because the key is `args.toString()` |
| Memo.MemoPromise | memo-promise.js:8-13 | A new instance keeps the `expiresIn` it was given, starts with its own empty tables (every key idle, nothing outstanding, no timers, nobody settled) and numbers its first caller 0 |
| Memo.SettleAll | memo-promise.js:48-51 | Calling the callbacks of a list settles every listed caller not yet settled with the one outcome and leaves earlier settlements alone |
| Memo.Read | memo-promise.js:39-46 | A read through `get()` arms exactly one timer for its key when the TTL is a positive number, none otherwise, and none for any other key |
| Memo.CallStep | memo-promise.js:15-37 | A call hits if and only if a memo exists, joins if and only if there is none and the key is pending, and invokes otherwise. A hit returns the memo, changes no table and starts no invocation; its read arms one timer exactly when the TTL is a positive number. A join appends the caller to the ends of both callback lists. A miss sets `pending` and starts exactly one invocation with the call's arguments. No other key changes |
| Memo.SucceedStep | memo-promise.js:38-51 | The key becomes `success` with the value memoized. The broadcast calls the resolve list in registration order, and every waiting caller on it receives the value. The resolve list is emptied and the reject list kept. The triggering caller also receives the value, and its read (line 61) arms a timer when the TTL is positive. No other key changes |
| Memo.FailStep | memo-promise.js:52-58 | The key becomes `error` with no memo stored. The broadcast calls the reject list in registration order, and every waiting caller on it receives the error. The reject list is emptied and the resolve list kept. The error is rethrown to the triggering caller. No timer is armed and no other key changes |
| Memo.ExpireStep | memo-promise.js:41-43 | A firing timer clears the memo of its key, whatever result the memo holds, and changes nothing else; with no timer armed for the key, nothing happens |
| Memo.Step | memo-promise.js:15-62 | Whatever the event, a caller that has settled keeps its settlement, and only calls issue new caller numbers |
| SingleFlight.FreshInv | memo-promise.js:8-13 | A new instance satisfies the invariant |
| SingleFlight.StepPreservesInv | memo-promise.js:15-62 | Every event preserves the invariant. It says: one outstanding invocation per key, exactly while the key is pending; a memo only on success; triggering callers waiting and not queued; unsettled queued callers on both lists of exactly one pending key; every caller not yet settled waiting on some key, as its triggering caller or queued while it is pending; timers only with a positive TTL |
| SingleFlight.WaitingOnOneKey | memo-promise.js:22-37 | In a state satisfying the invariant, a caller still waiting waits on exactly one key |
| SingleFlight.SucceedReachesEveryWaiter | memo-promise.js:38-51 | In any state satisfying the invariant, a success settles with its value the triggering caller and every unsettled caller queued on its key, and every caller still waiting afterwards waits on another key |
| SingleFlight.FailReachesEveryWaiter | memo-promise.js:52-58 | In any state satisfying the invariant, a failure settles with its error the triggering caller and every unsettled caller queued on its key, and every caller still waiting afterwards waits on another key |
| SingleFlight.ReachableInv | memo-promise.js:8-62 | Every state reachable from a new instance by any events satisfies the invariant |
| SingleFlight.FlightCount | memo-promise.js:22-37 | In a state satisfying the invariant, a key has exactly one outstanding producer invocation while it is pending and none otherwise; a pending key has no memo |
| SingleFlight.ReachableSingleFlight | memo-promise.js:22-37 | Whatever events happen, no key ever has two outstanding producer invocations |
| SingleFlight.OtherKeysUntouched | memo-promise.js:9-16 | An event for one key leaves every other key alone: its status, memo, callback lists, outstanding invocation and armed timers; and none of its waiting callers is settled, neither those queued on it nor the one that started its invocation |
| Scenarios.SettlementLeavesNoWaiter | memo-promise.js:48-57 | When an invocation settles, the triggering caller and every caller queued on either list of its key have settled |
| Scenarios.FailureNotCached | memo-promise.js:52-58 | Right after a failure the key is `error` with no memo, and the next call with the same key invokes the producer again |
| Scenarios.ExpiryForcesRecompute | memo-promise.js:41-43 | After a timer for a key that is not pending fires, its memo is gone and the next call invokes the producer |
| Scenarios.MemoLastsUntilTimer | memo-promise.js:18-20 | A memo is unchanged by any sequence of events that does not fire a timer for its key |
| Scenarios.NoTtlMemoPersists | memo-promise.js:40-44 | With no positive numeric TTL, a memo is unchanged by any sequence of events whatsoever |
| Scenarios.NoTtlHitsForever | memo-promise.js:18-20 | With no positive numeric TTL, once a result is memoized, a call with its key after any events hits that result |
| Scenarios.JoinsQueueInOrder | memo-promise.js:22-33 | `n` calls on a pending key append their ids to both callback lists in arrival order and start no invocation |
| Scenarios.ConcurrentCallsQueue | memo-promise.js:22-37 | `n` calls with the same arguments on a new instance start exactly one invocation, by the first caller; the other `n - 1` queue in arrival order |
| Scenarios.ConcurrentCallsShareSuccess | memo-promise.js:22-51 | After `n` concurrent calls, a success calls the waiters' resolve callbacks in arrival order and resolves all `n` callers to the same value, which is memoized |
| Scenarios.ConcurrentCallsShareFailure | memo-promise.js:22-58 | After `n` concurrent calls, a failure calls the waiters' reject callbacks in arrival order and rejects all `n` callers with the same error, and nothing is memoized |
| Scenarios.StaleTimerClearsNewerMemo | memo-promise.js:39-44 | A timer armed by a hit on one result is still armed after that result expires and is recomputed, and firing it clears the newer result |
| InheritedKeys.CallAsWritten | memo-promise.js:10-20 | As written, a call whose key names an `Object.prototype` property that the instance has never stored hits the inherited property: no invocation and nothing stored, and the caller's promise settles at once from that property |
| InheritedKeys.InheritedNameNeverInvokes | memo-promise.js:18-20 | As written, any number of calls whose one argument names an `Object.prototype` property never invoke the producer, and each of those callers settles at once from the inherited property |
| InheritedKeys.ToStringCounterexample | memo-promise.js:18-19 | On a new instance, the call `("toString")` as written settles its caller from the inherited property, while the intended lookup invokes the producer |
| InheritedKeys.FirstCallInvokes | memo-promise.js:35-37 | In the intended model the first call for any key on a new instance invokes the producer with its arguments |

## Left out

- Real time and `setTimeout`. A timer is an element of a multiset of keys until a
  `TimerFire` event removes it. There is no clock, so "expires TTL
  milliseconds after the read" becomes "stays until a timer for the key fires".
- Which timer fires first. Timers for one key are indistinguishable, as they
  are in the code, where each closes over the key only.
- JavaScript promises and microtask order. A caller's promise is its entry in
  `settled`. Whether the triggering caller settles before or after its waiters
  is not modelled. The order among waiters is modelled: the callbacks appear
  in the `Broadcast` outcome in the order they are called.
- The producer `asyncFn`. It is opaque: an invocation is outstanding until a
  `Succeed` or `Fail` event supplies an arbitrary value or error. A producer
  that calls the memoized function again is a `Call` event while the key is
  pending, so it joins as a waiter.
- Conversion of arbitrary JavaScript values to strings (objects, `undefined`,
  nested arrays). Arguments are strings.
- `Symbol` identity. The sentinel is only a constructor distinct from every
  string key.
- `NaN`, infinite and fractional `expiresIn`, and `setTimeout`'s treatment of
  delays above 2^31 - 1 milliseconds. The TTL is an integer or a non-number.
- InheritedKeys.CallAsWritten: the caller's settlement records only the name of
  the inherited property (`FromPrototype(name)`), not the value or error it
  yields ("[object Object]" for `toString`, a TypeError for `__proto__`),
  because those are JavaScript values outside the model's value and error types.
- Keys naming `Object.prototype` members in `statusMap`, `resolves` and
  `rejects`. The `memo` lookup already stops such calls (see Findings), so
  these tables are never read for them.
- Isolation of instances. It is structural here: an instance is a value, and
  `Step` reads and writes only the state it is given.

## Findings

| source | as written | input that shows it | evidently intended | confidence | as-written member | corrected member |
|---|---|---|---|---|---|---|
| memo-promise.js:10-20 | `memo` is a plain object, so `memo[memoKey]` also finds the properties it inherits from `Object.prototype`, and the hit test is true for them | `memoizedFn("toString")` on a new instance resolves to `"[object Object]"` and never calls the producer; `("__proto__")` rejects with a TypeError | look up own entries only, so the first call for any key invokes the producer | high; not executed | InheritedKeys.CallAsWritten | Memo.CallStep |
