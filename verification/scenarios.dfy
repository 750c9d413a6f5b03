/**
 * Properties of memoPromise that span several events: callers that arrive
 * during one invocation all share its outcome in arrival order, failures are
 * not cached, a memo lasts until a timer for its key fires, and without a
 * positive TTL it lasts for ever.
 */
module Scenarios {
  import opened Keys
  import opened Memo
  import opened SingleFlight

  /** `n` calls with the same arguments. */
  function Calls<V, E>(args: seq<string>, n: nat): (es: seq<Event<V, E>>)
    ensures |es| == n && forall i :: 0 <= i < n ==> es[i] == Call(args)
  {
    seq(n, _ => Call(args))
  }

  /** The caller ids `a`, `a + 1`, ..., `a + n - 1`. */
  function Ids(a: nat, n: nat): (ids: seq<CallerId>)
    ensures |ids| == n && forall i :: 0 <= i < n ==> ids[i] == a + i
  {
    seq(n, i => a + i)
  }

  /** When a settlement arrives, nobody is left waiting on the key: every
      caller queued on either list, and the caller that invoked the producer,
      has settled. */
  lemma {:induction false} SettlementLeavesNoWaiter<V, E>(s: State<V, E>, e: Event<V, E>)
    requires Inv(s)
    requires (e.Succeed? || e.Fail?) && e.flight in s.flights
    ensures var s' := Step(s, e).0;
            var k := s.flights[e.flight];
            && e.flight in s'.settled
            && (forall w :: w in EntryOf(s', k).resolves ==> w in s'.settled)
            && (forall w :: w in EntryOf(s', k).rejects ==> w in s'.settled)
            && (forall w :: w in EntryOf(s, k).resolves ==> w in s'.settled)
            && (forall w :: w in EntryOf(s, k).rejects ==> w in s'.settled)
  {
    var k := s.flights[e.flight];
    var en := EntryOf(s, k);
    var s' := Step(s, e).0;
    if e.Succeed? {
      forall w | w in en.rejects
        ensures w in s'.settled
      {
        if w !in s.settled {
          assert w in en.resolves;
        }
      }
    } else {
      forall w | w in en.resolves
        ensures w in s'.settled
      {
        if w !in s.settled {
          assert w in en.rejects;
        }
      }
    }
  }

  /** Failures are not cached: right after an invocation fails, a call with
      the same key invokes the producer again. */
  lemma FailureNotCached<V, E>(s: State<V, E>, c: CallerId, err: E, args: seq<string>)
    requires Inv(s)
    requires c in s.flights && s.flights[c] == KeyOf(args)
    ensures var s' := Step(s, Fail(c, err)).0;
            && EntryOf(s', KeyOf(args)).status == Error
            && EntryOf(s', KeyOf(args)).memo.None?
            && Step(s', Call(args)).1 == Invoked(s'.nextCaller, args)
  {
    assert KeyOf(args) in s.flights.Values;
  }

  /** Once a timer for the key has fired, a call for a key that is not
      pending invokes the producer again. */
  lemma ExpiryForcesRecompute<V, E>(s: State<V, E>, args: seq<string>)
    requires Inv(s)
    requires KeyOf(args) in s.timers && EntryOf(s, KeyOf(args)).status != Pending
    ensures var s' := Step(s, TimerFire(KeyOf(args))).0;
            && EntryOf(s', KeyOf(args)).memo.None?
            && Step(s', Call(args)).1 == Invoked(s'.nextCaller, args)
  {
  }

  /** A memo stays as it is through any events that do not fire a timer for
      its key: hits, calls and settlements for this or other keys, and timers
      of other keys. */
  lemma {:induction false} MemoLastsUntilTimer<V, E>(s: State<V, E>, es: seq<Event<V, E>>, k: Key)
    requires Inv(s)
    requires EntryOf(s, k).memo.Some?
    requires forall i :: 0 <= i < |es| ==> es[i] != TimerFire(k)
    ensures Inv(Run(s, es))
    ensures EntryOf(Run(s, es), k).memo == EntryOf(s, k).memo
    decreases |es|
  {
    if |es| > 0 {
      var s' := Step(s, es[0]).0;
      StepPreservesInv(s, es[0]);
      assert k !in s.flights.Values;
      if EventKey(s, es[0]) != Some(k) {
        OtherKeysUntouched(s, es[0], k);
      }
      assert EntryOf(s', k).memo == EntryOf(s, k).memo;
      MemoLastsUntilTimer(s', es[1..], k);
    }
  }

  /** With no positive numeric TTL no timer is ever armed, so a memo lasts
      through any events whatsoever. */
  lemma {:induction false} NoTtlMemoPersists<V, E>(s: State<V, E>, es: seq<Event<V, E>>, k: Key)
    requires Inv(s) && !Arms(s.ttl)
    requires EntryOf(s, k).memo.Some?
    ensures Inv(Run(s, es)) && Run(s, es).ttl == s.ttl
    ensures EntryOf(Run(s, es), k).memo == EntryOf(s, k).memo
    decreases |es|
  {
    if |es| > 0 {
      var s' := Step(s, es[0]).0;
      StepPreservesInv(s, es[0]);
      assert k !in s.flights.Values;
      if EventKey(s, es[0]) != Some(k) {
        OtherKeysUntouched(s, es[0], k);
      } else if es[0].TimerFire? {
        assert |s.timers| == 0;
      }
      assert EntryOf(s', k).memo == EntryOf(s, k).memo;
      NoTtlMemoPersists(s', es[1..], k);
    }
  }

  /** With no positive numeric TTL, once a result is memoized every later call
      with the same key hits it, however many events come between. */
  lemma NoTtlHitsForever<V, E>(s: State<V, E>, es: seq<Event<V, E>>, args: seq<string>)
    requires Inv(s) && !Arms(s.ttl)
    requires EntryOf(s, KeyOf(args)).memo.Some?
    ensures var s' := Run(s, es);
            Step(s', Call(args)).1 == Hit(s'.nextCaller, EntryOf(s, KeyOf(args)).memo.value)
  {
    NoTtlMemoPersists(s, es, KeyOf(args));
  }

  /** Calls that arrive while a key is pending queue their callbacks in
      arrival order and start nothing. */
  lemma {:induction false} JoinsQueueInOrder<V, E>(s: State<V, E>, args: seq<string>, n: nat)
    requires EntryOf(s, KeyOf(args)).memo.None? && EntryOf(s, KeyOf(args)).status == Pending
    ensures var s' := Run(s, Calls(args, n));
            var k := KeyOf(args);
            && EntryOf(s', k).resolves == EntryOf(s, k).resolves + Ids(s.nextCaller, n)
            && EntryOf(s', k).rejects == EntryOf(s, k).rejects + Ids(s.nextCaller, n)
            && EntryOf(s', k).status == Pending && EntryOf(s', k).memo.None?
            && s'.flights == s.flights && s'.settled == s.settled && s'.timers == s.timers
            && s'.nextCaller == s.nextCaller + n && s'.ttl == s.ttl
    decreases n
  {
    var k := KeyOf(args);
    if n == 0 {
      assert EntryOf(s, k).resolves + Ids(s.nextCaller, 0) == EntryOf(s, k).resolves;
      assert EntryOf(s, k).rejects + Ids(s.nextCaller, 0) == EntryOf(s, k).rejects;
    } else {
      var es := Calls<V, E>(args, n);
      assert es[1..] == Calls<V, E>(args, n - 1);
      var s1 := Step(s, es[0]).0;
      JoinsQueueInOrder(s1, args, n - 1);
      assert [s.nextCaller] + Ids(s.nextCaller + 1, n - 1) == Ids(s.nextCaller, n);
      assert EntryOf(s, k).resolves + [s.nextCaller] + Ids(s.nextCaller + 1, n - 1)
          == EntryOf(s, k).resolves + Ids(s.nextCaller, n);
      assert EntryOf(s, k).rejects + [s.nextCaller] + Ids(s.nextCaller + 1, n - 1)
          == EntryOf(s, k).rejects + Ids(s.nextCaller, n);
    }
  }

  /** `n` calls with the same arguments on a fresh instance: the first invokes
      the producer, the other `n - 1` queue behind it in arrival order, and
      exactly one invocation is outstanding. */
  lemma ConcurrentCallsQueue<V, E>(ttl: Ttl, args: seq<string>, n: nat)
    requires n > 0
    ensures var s := Run(MemoPromise<V, E>(ttl), Calls(args, n));
            && s.flights == map[0 := KeyOf(args)]
            && EntryOf(s, KeyOf(args)).resolves == Ids(1, n - 1)
            && EntryOf(s, KeyOf(args)).rejects == Ids(1, n - 1)
            && EntryOf(s, KeyOf(args)).memo.None?
            && |s.settled| == 0 && s.nextCaller == n
  {
    var s0 := MemoPromise<V, E>(ttl);
    var es := Calls<V, E>(args, n);
    assert es[1..] == Calls<V, E>(args, n - 1);
    var s1 := Step(s0, es[0]).0;
    assert EntryOf(s1, KeyOf(args)).resolves == [];
    JoinsQueueInOrder(s1, args, n - 1);
  }

  /** The only outstanding invocation, started by caller 0, resolves while
      callers 1 .. n-1 wait on its key and nobody else has settled. */
  lemma SucceedQueued<V, E>(s: State<V, E>, k: Key, n: nat, v: V)
    requires n > 0 && s.flights == map[0 := k] && s.settled == map[]
    requires EntryOf(s, k).resolves == Ids(1, n - 1)
    ensures var (s', o) := Step(s, Succeed(0, v));
            && o == Broadcast(k, Ids(1, n - 1), Resolved(v))
            && EntryOf(s', k).memo == Some(v)
            && s'.flights == map[]
            && forall i :: 0 <= i < n ==> i in s'.settled && s'.settled[i] == Resolved(v)
  {
    var s' := SucceedStep(s, 0, v).0;
    var ws := Ids(1, n - 1);
    assert s.flights - {0} == map[];
    forall i | 0 <= i < n
      ensures i in s'.settled && s'.settled[i] == Resolved(v)
    {
      if i > 0 {
        assert ws[i - 1] == i;
      }
    }
  }

  /** The only outstanding invocation, started by caller 0, rejects while
      callers 1 .. n-1 wait on its key and nobody else has settled. */
  lemma FailQueued<V, E>(s: State<V, E>, k: Key, n: nat, err: E)
    requires n > 0 && s.flights == map[0 := k] && s.settled == map[]
    requires EntryOf(s, k).rejects == Ids(1, n - 1) && EntryOf(s, k).memo.None?
    ensures var (s', o) := Step(s, Fail(0, err));
            && o == Broadcast(k, Ids(1, n - 1), Rejected(err))
            && EntryOf(s', k).memo.None?
            && s'.flights == map[]
            && forall i :: 0 <= i < n ==> i in s'.settled && s'.settled[i] == Rejected(err)
  {
    var s' := FailStep(s, 0, err).0;
    var ws := Ids(1, n - 1);
    assert s.flights - {0} == map[];
    forall i | 0 <= i < n
      ensures i in s'.settled && s'.settled[i] == Rejected(err)
    {
      if i > 0 {
        assert ws[i - 1] == i;
      }
    }
  }

  /** Single flight, success: `n` calls with the same arguments issued before
      the producer settles invoke it once, and all `n` callers resolve to the
      same value; the resolve callbacks run in arrival order. */
  lemma ConcurrentCallsShareSuccess<V, E>(ttl: Ttl, args: seq<string>, n: nat, v: V)
    requires n > 0
    ensures var s := Run(MemoPromise<V, E>(ttl), Calls(args, n));
            var (s', o) := Step(s, Succeed(0, v));
            && s.flights == map[0 := KeyOf(args)]
            && o == Broadcast(KeyOf(args), Ids(1, n - 1), Resolved(v))
            && EntryOf(s', KeyOf(args)).memo == Some(v)
            && s'.flights == map[]
            && forall i :: 0 <= i < n ==> i in s'.settled && s'.settled[i] == Resolved(v)
  {
    var s := Run(MemoPromise<V, E>(ttl), Calls(args, n));
    ConcurrentCallsQueue<V, E>(ttl, args, n);
    assert s.settled == map[];
    SucceedQueued(s, KeyOf(args), n, v);
  }

  /** Single flight, failure: `n` calls with the same arguments issued before
      the producer settles invoke it once, and all `n` callers reject with the
      same error; the reject callbacks run in arrival order, and nothing is
      memoized. */
  lemma ConcurrentCallsShareFailure<V, E>(ttl: Ttl, args: seq<string>, n: nat, err: E)
    requires n > 0
    ensures var s := Run(MemoPromise<V, E>(ttl), Calls(args, n));
            var (s', o) := Step(s, Fail(0, err));
            && s.flights == map[0 := KeyOf(args)]
            && o == Broadcast(KeyOf(args), Ids(1, n - 1), Rejected(err))
            && EntryOf(s', KeyOf(args)).memo.None?
            && s'.flights == map[]
            && forall i :: 0 <= i < n ==> i in s'.settled && s'.settled[i] == Rejected(err)
  {
    var s := Run(MemoPromise<V, E>(ttl), Calls(args, n));
    ConcurrentCallsQueue<V, E>(ttl, args, n);
    assert s.settled == map[];
    FailQueued(s, KeyOf(args), n, err);
  }

  /** A hit on a memo whose triggering read armed a timer arms a second one;
      one of them then clears the memo, and the other stays armed. */
  lemma HitThenExpire<V, E>(s: State<V, E>, args: seq<string>)
    requires Arms(s.ttl) && EntryOf(s, KeyOf(args)).status == Success
    requires EntryOf(s, KeyOf(args)).memo.Some? && KeyOf(args) in s.timers
    ensures var s2 := Step(Step(s, Call(args)).0, TimerFire(KeyOf(args))).0;
            && EntryOf(s2, KeyOf(args)).memo.None? && EntryOf(s2, KeyOf(args)).status == Success
            && s2.timers[KeyOf(args)] == s.timers[KeyOf(args)] && s2.ttl == s.ttl
  {
    var k := KeyOf(args);
    var s1 := CallStep(s, args).0;
    assert s1.timers[k] == s.timers[k] + 1;
  }

  /** Recomputing an expired memo stores the new result, and its triggering
      read arms one more timer for the key. */
  lemma RecomputeArms<V, E>(s: State<V, E>, args: seq<string>, v: V)
    requires Arms(s.ttl) && EntryOf(s, KeyOf(args)).status == Success && EntryOf(s, KeyOf(args)).memo.None?
    ensures var s4 := Step(Step(s, Call(args)).0, Succeed(s.nextCaller, v)).0;
            && EntryOf(s4, KeyOf(args)).memo == Some(v)
            && s4.timers[KeyOf(args)] == s.timers[KeyOf(args)] + 1
  {
    var k := KeyOf(args);
    var s3 := CallStep(s, args).0;
    assert s3.flights == s.flights[s.nextCaller := k];
    assert s3.timers == s.timers;
  }

  /** A timer closes over the key, not over the result it was armed for. Start
      from a memoized result whose triggering read armed a timer; a hit arms a
      second one; the first clears the memo; the next call recomputes and the
      new result is memoized. The hit's timer is still armed, and when it
      fires it clears the new result. */
  lemma StaleTimerClearsNewerMemo<V, E>(s: State<V, E>, args: seq<string>, v2: V)
    requires Arms(s.ttl) && EntryOf(s, KeyOf(args)).status == Success
    requires EntryOf(s, KeyOf(args)).memo.Some? && KeyOf(args) in s.timers
    ensures var k := KeyOf(args);
            var s1 := Step(s, Call(args)).0;              // hit: a second timer
            var s2 := Step(s1, TimerFire(k)).0;           // one timer clears the memo
            var s3 := Step(s2, Call(args)).0;             // the next call invokes the producer
            var s4 := Step(s3, Succeed(s2.nextCaller, v2)).0;
            var s5 := Step(s4, TimerFire(k)).0;
            && EntryOf(s4, k).memo == Some(v2)
            && s4.timers[k] == s.timers[k] + 1
            && EntryOf(s5, k).memo.None?
  {
    var k := KeyOf(args);
    HitThenExpire(s, args);
    var s2 := Step(Step(s, Call(args)).0, TimerFire(k)).0;
    RecomputeArms(s2, args, v2);
  }
}
