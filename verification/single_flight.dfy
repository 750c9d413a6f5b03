/**
 * The invariant every reachable memoPromise state keeps, and what follows
 * from it: at most one producer invocation per key is outstanding, exactly
 * while the key is pending; no memo exists while a key is pending; every caller
 * still waiting either started the one invocation of a pending key or is queued
 * on both callback lists of exactly one pending key, so a settlement reaches
 * everyone waiting on its key.
 */
module SingleFlight {
  import opened Keys
  import opened Memo

  /** Caller ids are handed out in order, so every id the state mentions is
      below `nextCaller`. */
  ghost predicate IdsIssued<V, E>(s: State<V, E>) {
    && (forall c :: c in s.flights ==> c < s.nextCaller)
    && (forall c :: c in s.settled ==> c < s.nextCaller)
    && (forall k, w :: w in EntryOf(s, k).resolves ==> w < s.nextCaller)
    && (forall k, w :: w in EntryOf(s, k).rejects ==> w < s.nextCaller)
  }

  /** No two outstanding invocations share a key, and a key has one exactly
      when its status is pending. */
  ghost predicate OneFlightPerKey<V, E>(s: State<V, E>) {
    && (forall c1, c2 :: c1 in s.flights && c2 in s.flights && s.flights[c1] == s.flights[c2] ==> c1 == c2)
    && (forall k :: EntryOf(s, k).status == Pending <==> k in s.flights.Values)
  }

  /** A memo exists only after a success. */
  ghost predicate MemoOnlyOnSuccess<V, E>(s: State<V, E>) {
    forall k :: EntryOf(s, k).memo.Some? ==> EntryOf(s, k).status == Success
  }

  /** A caller that started an invocation is still waiting for it, and is
      not queued as a waiter anywhere. */
  ghost predicate OwnersWaiting<V, E>(s: State<V, E>) {
    && (forall c :: c in s.flights ==> c !in s.settled)
    && (forall k, w :: w in EntryOf(s, k).resolves ==> w !in s.flights)
    && (forall k, w :: w in EntryOf(s, k).rejects ==> w !in s.flights)
  }

  /** Callbacks of callers that have not settled yet belong to the in-flight
      invocation of their key and sit on both lists of that key only; stale
      callbacks left behind by an earlier settlement belong to settled callers. */
  ghost predicate WaitersCurrent<V, E>(s: State<V, E>) {
    && (forall k, w :: w in EntryOf(s, k).resolves && w !in s.settled ==>
          EntryOf(s, k).status == Pending && w in EntryOf(s, k).rejects)
    && (forall k, w :: w in EntryOf(s, k).rejects && w !in s.settled ==>
          EntryOf(s, k).status == Pending && w in EntryOf(s, k).resolves)
    && (forall k1, k2, w :: w in EntryOf(s, k1).resolves && w in EntryOf(s, k2).resolves && w !in s.settled ==> k1 == k2)
  }

  /** Caller `w` waits on key `k`: it started the invocation for `k`, or its
      callbacks are queued on `k` while `k` is pending. */
  ghost predicate WaitingOn<V, E>(s: State<V, E>, w: CallerId, k: Key) {
    || (w in s.flights && s.flights[w] == k)
    || (EntryOf(s, k).status == Pending && w in EntryOf(s, k).resolves)
  }

  /** Every caller whose promise has not settled yet waits on some key. */
  ghost predicate EveryoneWaitsOnAKey<V, E>(s: State<V, E>) {
    forall w: CallerId :: w < s.nextCaller && w !in s.settled ==> exists k :: WaitingOn(s, w, k)
  }

  /** Timers are armed only when the TTL is a positive number. */
  ghost predicate TimersNeedTtl<V, E>(s: State<V, E>) {
    |s.timers| > 0 ==> Arms(s.ttl)
  }

  /** The invariant without its existential part, kept apart so that the
      proofs about the tables need not see it. */
  ghost predicate Core<V, E>(s: State<V, E>) {
    && IdsIssued(s)
    && OneFlightPerKey(s)
    && MemoOnlyOnSuccess(s)
    && OwnersWaiting(s)
    && WaitersCurrent(s)
    && TimersNeedTtl(s)
  }

  ghost predicate Inv<V, E>(s: State<V, E>) {
    Core(s) && EveryoneWaitsOnAKey(s)
  }

  /** A fresh instance satisfies the invariant. */
  lemma FreshInv<V, E>(ttl: Ttl)
    ensures Inv(MemoPromise<V, E>(ttl))
  {
  }

  lemma CallHitPreservesCore<V, E>(s: State<V, E>, args: seq<string>)
    requires Core(s)
    requires EntryOf(s, KeyOf(args)).memo.Some?
    ensures Core(CallStep(s, args).0)
  {
    var s' := CallStep(s, args).0;
    assert s'.flights == s.flights && s'.entries == s.entries;
    assert IdsIssued(s');
    assert OwnersWaiting(s');
    assert WaitersCurrent(s');
  }

  /** The entry of a key after a join, next to the entry before it. */
  lemma JoinShape<V, E>(s: State<V, E>, args: seq<string>)
    requires EntryOf(s, KeyOf(args)).memo.None? && EntryOf(s, KeyOf(args)).status == Pending
    ensures var s' := CallStep(s, args).0;
            && s'.flights == s.flights && s'.settled == s.settled && s'.timers == s.timers
            && s'.nextCaller == s.nextCaller + 1
            && EntryOf(s', KeyOf(args)) == EntryOf(s, KeyOf(args)).(resolves := EntryOf(s, KeyOf(args)).resolves + [s.nextCaller],
                                                                 rejects := EntryOf(s, KeyOf(args)).rejects + [s.nextCaller])
            && forall j :: j != KeyOf(args) ==> EntryOf(s', j) == EntryOf(s, j)
  {
  }

  lemma JoinKeepsIds<V, E>(s: State<V, E>, args: seq<string>)
    requires IdsIssued(s) && OwnersWaiting(s)
    requires EntryOf(s, KeyOf(args)).memo.None? && EntryOf(s, KeyOf(args)).status == Pending
    ensures IdsIssued(CallStep(s, args).0) && OwnersWaiting(CallStep(s, args).0)
  {
    var s' := CallStep(s, args).0;
    var k := KeyOf(args);
    var c := s.nextCaller;
    JoinShape(s, args);
    forall j, w | w in EntryOf(s', j).resolves
      ensures w < s'.nextCaller && w !in s'.flights
    {
      if j != k || w != c {
        assert w in EntryOf(s, j).resolves;
      }
    }
    forall j, w | w in EntryOf(s', j).rejects
      ensures w < s'.nextCaller && w !in s'.flights
    {
      if j != k || w != c {
        assert w in EntryOf(s, j).rejects;
      }
    }
  }

  lemma JoinKeepsWaitersCurrent<V, E>(s: State<V, E>, args: seq<string>)
    requires IdsIssued(s) && WaitersCurrent(s)
    requires EntryOf(s, KeyOf(args)).memo.None? && EntryOf(s, KeyOf(args)).status == Pending
    ensures WaitersCurrent(CallStep(s, args).0)
  {
    var s' := CallStep(s, args).0;
    var k := KeyOf(args);
    var c := s.nextCaller;
    JoinShape(s, args);
    forall j, w | w in EntryOf(s', j).resolves && w !in s'.settled
      ensures EntryOf(s', j).status == Pending && w in EntryOf(s', j).rejects
    {
      if j != k || w != c {
        assert w in EntryOf(s, j).resolves;
      }
    }
    forall j, w | w in EntryOf(s', j).rejects && w !in s'.settled
      ensures EntryOf(s', j).status == Pending && w in EntryOf(s', j).resolves
    {
      if j != k || w != c {
        assert w in EntryOf(s, j).rejects;
      }
    }
    forall k1, k2, w | w in EntryOf(s', k1).resolves && w in EntryOf(s', k2).resolves && w !in s'.settled
      ensures k1 == k2
    {
      if w == c {
        assert w !in EntryOf(s, k1).resolves && w !in EntryOf(s, k2).resolves;
      } else {
        assert w in EntryOf(s, k1).resolves && w in EntryOf(s, k2).resolves;
      }
    }
  }

  lemma CallJoinPreservesCore<V, E>(s: State<V, E>, args: seq<string>)
    requires Core(s)
    requires EntryOf(s, KeyOf(args)).memo.None? && EntryOf(s, KeyOf(args)).status == Pending
    ensures Core(CallStep(s, args).0)
  {
    var s' := CallStep(s, args).0;
    JoinShape(s, args);
    JoinKeepsIds(s, args);
    JoinKeepsWaitersCurrent(s, args);
    assert forall j :: EntryOf(s', j).status == EntryOf(s, j).status && EntryOf(s', j).memo == EntryOf(s, j).memo;
  }

  lemma MissKeepsOneFlight<V, E>(s: State<V, E>, args: seq<string>)
    requires OneFlightPerKey(s) && IdsIssued(s)
    requires EntryOf(s, KeyOf(args)).memo.None? && EntryOf(s, KeyOf(args)).status != Pending
    ensures OneFlightPerKey(CallStep(s, args).0)
  {
    var s' := CallStep(s, args).0;
    var k := KeyOf(args);
    var c := s.nextCaller;
    assert k !in s.flights.Values;
    forall j | EntryOf(s', j).status == Pending
      ensures j in s'.flights.Values
    {
      if j == k {
        assert s'.flights[c] == k;
      } else {
        assert j in s.flights.Values;
        var c' :| c' in s.flights && s.flights[c'] == j;
        assert s'.flights[c'] == j;
      }
    }
    forall j | j in s'.flights.Values
      ensures EntryOf(s', j).status == Pending
    {
      var c' :| c' in s'.flights && s'.flights[c'] == j;
      if c' != c {
        assert j in s.flights.Values;
      }
    }
    assert forall c' :: c' in s.flights ==> s.flights[c'] != k;
  }

  lemma CallMissPreservesCore<V, E>(s: State<V, E>, args: seq<string>)
    requires Core(s)
    requires EntryOf(s, KeyOf(args)).memo.None? && EntryOf(s, KeyOf(args)).status != Pending
    ensures Core(CallStep(s, args).0)
  {
    var s' := CallStep(s, args).0;
    MissKeepsOneFlight(s, args);
    assert IdsIssued(s');
    assert OwnersWaiting(s');
    assert WaitersCurrent(s');
  }

  lemma HitKeepsEveryoneWaiting<V, E>(s: State<V, E>, args: seq<string>)
    requires EveryoneWaitsOnAKey(s)
    requires EntryOf(s, KeyOf(args)).memo.Some?
    ensures EveryoneWaitsOnAKey(CallStep(s, args).0)
  {
    var s' := CallStep(s, args).0;
    forall w: CallerId | w < s'.nextCaller && w !in s'.settled
      ensures exists j :: WaitingOn(s', w, j)
    {
      var j :| WaitingOn(s, w, j);
      assert WaitingOn(s', w, j);
    }
  }

  lemma JoinKeepsEveryoneWaiting<V, E>(s: State<V, E>, args: seq<string>)
    requires EveryoneWaitsOnAKey(s)
    requires EntryOf(s, KeyOf(args)).memo.None? && EntryOf(s, KeyOf(args)).status == Pending
    ensures EveryoneWaitsOnAKey(CallStep(s, args).0)
  {
    var s' := CallStep(s, args).0;
    var k := KeyOf(args);
    JoinShape(s, args);
    forall w: CallerId | w < s'.nextCaller && w !in s'.settled
      ensures exists j :: WaitingOn(s', w, j)
    {
      if w == s.nextCaller {
        assert WaitingOn(s', w, k);
      } else {
        var j :| WaitingOn(s, w, j);
        assert WaitingOn(s', w, j);
      }
    }
  }

  lemma MissKeepsEveryoneWaiting<V, E>(s: State<V, E>, args: seq<string>)
    requires EveryoneWaitsOnAKey(s)
    requires EntryOf(s, KeyOf(args)).memo.None? && EntryOf(s, KeyOf(args)).status != Pending
    ensures EveryoneWaitsOnAKey(CallStep(s, args).0)
  {
    var s' := CallStep(s, args).0;
    var k := KeyOf(args);
    forall w: CallerId | w < s'.nextCaller && w !in s'.settled
      ensures exists j :: WaitingOn(s', w, j)
    {
      if w == s.nextCaller {
        assert WaitingOn(s', w, k);
      } else {
        var j :| WaitingOn(s, w, j);
        if w in s.flights && s.flights[w] == j {
          assert WaitingOn(s', w, j);
        } else {
          assert j != k;
          assert WaitingOn(s', w, j);
        }
      }
    }
  }

  lemma SucceedKeepsEveryoneWaiting<V, E>(s: State<V, E>, c: CallerId, v: V)
    requires EveryoneWaitsOnAKey(s)
    requires c in s.flights
    ensures EveryoneWaitsOnAKey(SucceedStep(s, c, v).0)
  {
    var s' := SucceedStep(s, c, v).0;
    var k := s.flights[c];
    forall w: CallerId | w < s'.nextCaller && w !in s'.settled
      ensures exists j :: WaitingOn(s', w, j)
    {
      assert w != c && w !in EntryOf(s, k).resolves;
      var j :| WaitingOn(s, w, j);
      if w in s.flights && s.flights[w] == j {
        assert WaitingOn(s', w, j);
      } else {
        assert j != k;
        assert WaitingOn(s', w, j);
      }
    }
  }

  lemma FailKeepsEveryoneWaiting<V, E>(s: State<V, E>, c: CallerId, err: E)
    requires EveryoneWaitsOnAKey(s) && WaitersCurrent(s)
    requires c in s.flights
    ensures EveryoneWaitsOnAKey(FailStep(s, c, err).0)
  {
    var s' := FailStep(s, c, err).0;
    var k := s.flights[c];
    forall w: CallerId | w < s'.nextCaller && w !in s'.settled
      ensures exists j :: WaitingOn(s', w, j)
    {
      assert w != c && w !in EntryOf(s, k).rejects;
      var j :| WaitingOn(s, w, j);
      if w in s.flights && s.flights[w] == j {
        assert WaitingOn(s', w, j);
      } else {
        assert j != k;
        assert WaitingOn(s', w, j);
      }
    }
  }

  lemma ExpireKeepsEveryoneWaiting<V, E>(s: State<V, E>, k: Key)
    requires EveryoneWaitsOnAKey(s)
    ensures EveryoneWaitsOnAKey(ExpireStep(s, k).0)
  {
    var s' := ExpireStep(s, k).0;
    forall w: CallerId | w < s'.nextCaller && w !in s'.settled
      ensures exists j :: WaitingOn(s', w, j)
    {
      var j :| WaitingOn(s, w, j);
      assert WaitingOn(s', w, j);
    }
  }

  lemma CallPreservesCore<V, E>(s: State<V, E>, args: seq<string>)
    requires Core(s)
    ensures Core(CallStep(s, args).0)
  {
    var en := EntryOf(s, KeyOf(args));
    if en.memo.Some? {
      CallHitPreservesCore(s, args);
    } else if en.status == Pending {
      CallJoinPreservesCore(s, args);
    } else {
      CallMissPreservesCore(s, args);
    }
  }

  lemma SucceedKeepsOneFlight<V, E>(s: State<V, E>, c: CallerId, v: V)
    requires OneFlightPerKey(s)
    requires c in s.flights
    ensures OneFlightPerKey(SucceedStep(s, c, v).0)
  {
    var s' := SucceedStep(s, c, v).0;
    var k := s.flights[c];
    forall j | EntryOf(s', j).status == Pending
      ensures j in s'.flights.Values
    {
      assert j != k;
      assert j in s.flights.Values;
      var c' :| c' in s.flights && s.flights[c'] == j;
      assert c' != c && s'.flights[c'] == j;
    }
    forall j | j in s'.flights.Values
      ensures EntryOf(s', j).status == Pending
    {
      var c' :| c' in s'.flights && s'.flights[c'] == j;
      assert c' in s.flights && c' != c;
      assert j in s.flights.Values;
    }
  }

  lemma SucceedKeepsWaiters<V, E>(s: State<V, E>, c: CallerId, v: V)
    requires IdsIssued(s) && OwnersWaiting(s) && WaitersCurrent(s)
    requires c in s.flights
    ensures var s' := SucceedStep(s, c, v).0;
            IdsIssued(s') && OwnersWaiting(s') && WaitersCurrent(s')
  {
    var s' := SucceedStep(s, c, v).0;
    var k := s.flights[c];
    var en := EntryOf(s, k);
    assert forall j :: j != k ==> EntryOf(s', j) == EntryOf(s, j);
    forall w | w in en.resolves && w !in s.settled
      ensures w in s'.settled
    {
    }
    assert IdsIssued(s');
    assert OwnersWaiting(s');
    assert WaitersCurrent(s');
  }

  lemma SucceedPreservesCore<V, E>(s: State<V, E>, c: CallerId, v: V)
    requires Core(s)
    ensures Core(SucceedStep(s, c, v).0)
  {
    if c in s.flights {
      var s' := SucceedStep(s, c, v).0;
      var k := s.flights[c];
      SucceedKeepsOneFlight(s, c, v);
      SucceedKeepsWaiters(s, c, v);
      assert s'.nextCaller == s.nextCaller;
      assert forall j :: j != k ==> EntryOf(s', j) == EntryOf(s, j);
    }
  }

  lemma FailKeepsOneFlight<V, E>(s: State<V, E>, c: CallerId, err: E)
    requires OneFlightPerKey(s)
    requires c in s.flights
    ensures OneFlightPerKey(FailStep(s, c, err).0)
  {
    var s' := FailStep(s, c, err).0;
    var k := s.flights[c];
    forall j | EntryOf(s', j).status == Pending
      ensures j in s'.flights.Values
    {
      assert j != k;
      assert j in s.flights.Values;
      var c' :| c' in s.flights && s.flights[c'] == j;
      assert c' != c && s'.flights[c'] == j;
    }
    forall j | j in s'.flights.Values
      ensures EntryOf(s', j).status == Pending
    {
      var c' :| c' in s'.flights && s'.flights[c'] == j;
      assert c' in s.flights && c' != c;
      assert j in s.flights.Values;
    }
  }

  lemma FailKeepsWaiters<V, E>(s: State<V, E>, c: CallerId, err: E)
    requires IdsIssued(s) && OwnersWaiting(s) && WaitersCurrent(s)
    requires c in s.flights
    ensures var s' := FailStep(s, c, err).0;
            IdsIssued(s') && OwnersWaiting(s') && WaitersCurrent(s')
  {
    var s' := FailStep(s, c, err).0;
    var k := s.flights[c];
    var en := EntryOf(s, k);
    assert forall j :: j != k ==> EntryOf(s', j) == EntryOf(s, j);
    forall w | w in en.rejects && w !in s.settled
      ensures w in s'.settled
    {
    }
    assert IdsIssued(s');
    assert OwnersWaiting(s');
    assert WaitersCurrent(s');
  }

  lemma FailPreservesCore<V, E>(s: State<V, E>, c: CallerId, err: E)
    requires Core(s)
    ensures Core(FailStep(s, c, err).0)
  {
    if c in s.flights {
      var s' := FailStep(s, c, err).0;
      var k := s.flights[c];
      FailKeepsOneFlight(s, c, err);
      FailKeepsWaiters(s, c, err);
      assert s'.nextCaller == s.nextCaller;
      assert forall j :: j != k ==> EntryOf(s', j) == EntryOf(s, j);
    }
  }

  lemma ExpirePreservesCore<V, E>(s: State<V, E>, k: Key)
    requires Core(s)
    ensures Core(ExpireStep(s, k).0)
  {
    var s' := ExpireStep(s, k).0;
    assert s'.flights == s.flights && s'.settled == s.settled && s'.nextCaller == s.nextCaller;
    assert forall j :: EntryOf(s', j) == EntryOf(s, j).(memo := EntryOf(s', j).memo);
    assert forall j :: EntryOf(s', j).memo.Some? ==> EntryOf(s', j).memo == EntryOf(s, j).memo;
  }

  lemma CallPreservesInv<V, E>(s: State<V, E>, args: seq<string>)
    requires Inv(s)
    ensures Inv(CallStep(s, args).0)
  {
    CallPreservesCore(s, args);
    var en := EntryOf(s, KeyOf(args));
    if en.memo.Some? {
      HitKeepsEveryoneWaiting(s, args);
    } else if en.status == Pending {
      JoinKeepsEveryoneWaiting(s, args);
    } else {
      MissKeepsEveryoneWaiting(s, args);
    }
  }

  lemma SucceedPreservesInv<V, E>(s: State<V, E>, c: CallerId, v: V)
    requires Inv(s)
    ensures Inv(SucceedStep(s, c, v).0)
  {
    SucceedPreservesCore(s, c, v);
    if c in s.flights {
      SucceedKeepsEveryoneWaiting(s, c, v);
    }
  }

  lemma FailPreservesInv<V, E>(s: State<V, E>, c: CallerId, err: E)
    requires Inv(s)
    ensures Inv(FailStep(s, c, err).0)
  {
    FailPreservesCore(s, c, err);
    if c in s.flights {
      FailKeepsEveryoneWaiting(s, c, err);
    }
  }

  lemma ExpirePreservesInv<V, E>(s: State<V, E>, k: Key)
    requires Inv(s)
    ensures Inv(ExpireStep(s, k).0)
  {
    ExpirePreservesCore(s, k);
    ExpireKeepsEveryoneWaiting(s, k);
  }

  /** Every event keeps the invariant. */
  lemma StepPreservesInv<V, E>(s: State<V, E>, e: Event<V, E>)
    requires Inv(s)
    ensures Inv(Step(s, e).0)
  {
    match e
    case Call(args) => CallPreservesInv(s, args);
    case Succeed(c, v) => SucceedPreservesInv(s, c, v);
    case Fail(c, err) => FailPreservesInv(s, c, err);
    case TimerFire(k) => ExpirePreservesInv(s, k);
  }

  lemma {:induction false} RunPreservesInv<V, E>(s: State<V, E>, es: seq<Event<V, E>>)
    requires Inv(s)
    ensures Inv(Run(s, es))
    decreases |es|
  {
    if |es| > 0 {
      StepPreservesInv(s, es[0]);
      RunPreservesInv(Step(s, es[0]).0, es[1..]);
    }
  }

  /** Every state an instance can reach keeps the invariant. */
  lemma ReachableInv<V, E>(ttl: Ttl, es: seq<Event<V, E>>)
    ensures Inv(Run(MemoPromise<V, E>(ttl), es))
  {
    FreshInv<V, E>(ttl);
    RunPreservesInv(MemoPromise<V, E>(ttl), es);
  }

  /** A caller still waiting waits on one key only. */
  lemma WaitingOnOneKey<V, E>(s: State<V, E>, w: CallerId, k1: Key, k2: Key)
    requires Inv(s) && w !in s.settled
    requires WaitingOn(s, w, k1) && WaitingOn(s, w, k2)
    ensures k1 == k2
  {
    if w in s.flights {
      assert w !in EntryOf(s, k1).resolves && w !in EntryOf(s, k2).resolves;
    }
  }

  /** A success reaches everyone waiting on its key, in any reachable state:
      the triggering caller and every queued caller not settled yet receive
      the value, and whoever is still waiting afterwards waits on another key. */
  lemma SucceedReachesEveryWaiter<V, E>(s: State<V, E>, c: CallerId, v: V)
    requires Inv(s) && c in s.flights
    ensures var k := s.flights[c];
            var s' := Step(s, Succeed(c, v)).0;
            && (forall w :: WaitingOn(s, w, k) && w !in s.settled ==> w in s'.settled && s'.settled[w] == Resolved(v))
            && (forall w: CallerId :: w < s'.nextCaller && w !in s'.settled ==> exists j :: j != k && WaitingOn(s', w, j))
  {
    var k := s.flights[c];
    var s' := Step(s, Succeed(c, v)).0;
    SucceedPreservesInv(s, c, v);
    forall w | WaitingOn(s, w, k) && w !in s.settled
      ensures w in s'.settled && s'.settled[w] == Resolved(v)
    {
      if w in s.flights && s.flights[w] == k {
        assert w == c;
      }
    }
    forall w: CallerId | w < s'.nextCaller && w !in s'.settled
      ensures exists j :: j != k && WaitingOn(s', w, j)
    {
      var j :| WaitingOn(s', w, j);
      if w in s'.flights {
        assert w in s.flights && w != c;
      }
      assert j != k;
    }
  }

  /** A failure reaches everyone waiting on its key, in any reachable state:
      the triggering caller and every queued caller not settled yet receive
      the error, and whoever is still waiting afterwards waits on another key. */
  lemma FailReachesEveryWaiter<V, E>(s: State<V, E>, c: CallerId, err: E)
    requires Inv(s) && c in s.flights
    ensures var k := s.flights[c];
            var s' := Step(s, Fail(c, err)).0;
            && (forall w :: WaitingOn(s, w, k) && w !in s.settled ==> w in s'.settled && s'.settled[w] == Rejected(err))
            && (forall w: CallerId :: w < s'.nextCaller && w !in s'.settled ==> exists j :: j != k && WaitingOn(s', w, j))
  {
    var k := s.flights[c];
    var s' := Step(s, Fail(c, err)).0;
    FailPreservesInv(s, c, err);
    forall w | WaitingOn(s, w, k) && w !in s.settled
      ensures w in s'.settled && s'.settled[w] == Rejected(err)
    {
      if w in s.flights && s.flights[w] == k {
        assert w == c;
      } else {
        assert w in EntryOf(s, k).rejects;
      }
    }
    forall w: CallerId | w < s'.nextCaller && w !in s'.settled
      ensures exists j :: j != k && WaitingOn(s', w, j)
    {
      var j :| WaitingOn(s', w, j);
      if w in s'.flights {
        assert w in s.flights && w != c;
      }
      assert j != k;
    }
  }

  /** The outstanding producer invocations for key `k`. */
  function FlightsFor<V, E>(s: State<V, E>, k: Key): (cs: set<CallerId>)
  {
    set c | c in s.flights && s.flights[c] == k
  }

  /** Single flight: a key has exactly one outstanding producer invocation
      while it is pending and none otherwise, and no memo while pending. */
  lemma FlightCount<V, E>(s: State<V, E>, k: Key)
    requires Inv(s)
    ensures |FlightsFor(s, k)| == (if EntryOf(s, k).status == Pending then 1 else 0)
    ensures EntryOf(s, k).status == Pending ==> EntryOf(s, k).memo.None?
  {
    if EntryOf(s, k).status == Pending {
      var c :| c in s.flights && s.flights[c] == k;
      assert FlightsFor(s, k) == {c};
    } else {
      assert FlightsFor(s, k) == {};
    }
  }

  /** Whatever events happen, no key of any instance ever has two producer
      invocations outstanding. */
  lemma ReachableSingleFlight<V, E>(ttl: Ttl, es: seq<Event<V, E>>, k: Key)
    ensures |FlightsFor(Run(MemoPromise<V, E>(ttl), es), k)| <= 1
  {
    ReachableInv<V, E>(ttl, es);
    FlightCount(Run(MemoPromise<V, E>(ttl), es), k);
  }

  /** The key an event concerns, if any. */
  function EventKey<V, E>(s: State<V, E>, e: Event<V, E>): (k: Option<Key>)
  {
    match e
    case Call(args) => Some(KeyOf(args))
    case Succeed(c, _) => if c in s.flights then Some(s.flights[c]) else None
    case Fail(c, _) => if c in s.flights then Some(s.flights[c]) else None
    case TimerFire(k) => Some(k)
  }

  lemma CallLeavesOtherKeys<V, E>(s: State<V, E>, args: seq<string>, j: Key)
    requires Inv(s)
    requires j != KeyOf(args)
    ensures EntryOf(CallStep(s, args).0, j) == EntryOf(s, j)
    ensures FlightsFor(CallStep(s, args).0, j) == FlightsFor(s, j)
    ensures CallStep(s, args).0.timers[j] == s.timers[j]
    ensures forall w :: w != s.nextCaller ==> (w in CallStep(s, args).0.settled <==> w in s.settled)
  {
    var s' := CallStep(s, args).0;
    assert s.nextCaller !in s.flights;
    assert FlightsFor(s', j) == FlightsFor(s, j);
  }

  lemma SucceedLeavesOtherKeys<V, E>(s: State<V, E>, c: CallerId, v: V, j: Key)
    requires Inv(s)
    requires c in s.flights ==> s.flights[c] != j
    ensures EntryOf(SucceedStep(s, c, v).0, j) == EntryOf(s, j)
    ensures FlightsFor(SucceedStep(s, c, v).0, j) == FlightsFor(s, j)
    ensures SucceedStep(s, c, v).0.timers[j] == s.timers[j]
    ensures forall w :: w in EntryOf(s, j).resolves && w !in s.settled ==> w !in SucceedStep(s, c, v).0.settled
    ensures forall o :: o in FlightsFor(s, j) ==> o !in SucceedStep(s, c, v).0.settled
  {
    if c in s.flights {
      var s' := SucceedStep(s, c, v).0;
      var k := s.flights[c];
      forall o | o in FlightsFor(s, j)
        ensures o !in s'.settled
      {
        assert o != c && o !in EntryOf(s, k).resolves;
      }
      forall w | w in EntryOf(s, j).resolves && w !in s.settled
        ensures w !in s'.settled
      {
        assert w !in EntryOf(s, k).resolves;
      }
      assert FlightsFor(s', j) == FlightsFor(s, j);
    }
  }

  lemma FailLeavesOtherKeys<V, E>(s: State<V, E>, c: CallerId, err: E, j: Key)
    requires Inv(s)
    requires c in s.flights ==> s.flights[c] != j
    ensures EntryOf(FailStep(s, c, err).0, j) == EntryOf(s, j)
    ensures FlightsFor(FailStep(s, c, err).0, j) == FlightsFor(s, j)
    ensures FailStep(s, c, err).0.timers[j] == s.timers[j]
    ensures forall w :: w in EntryOf(s, j).resolves && w !in s.settled ==> w !in FailStep(s, c, err).0.settled
    ensures forall o :: o in FlightsFor(s, j) ==> o !in FailStep(s, c, err).0.settled
  {
    if c in s.flights {
      var s' := FailStep(s, c, err).0;
      var k := s.flights[c];
      forall o | o in FlightsFor(s, j)
        ensures o !in s'.settled
      {
        assert o != c && o !in EntryOf(s, k).rejects;
      }
      forall w | w in EntryOf(s, j).resolves && w !in s.settled
        ensures w !in s'.settled
      {
        assert w !in EntryOf(s, k).resolves;
        assert w !in EntryOf(s, k).rejects;
      }
      assert FlightsFor(s', j) == FlightsFor(s, j);
    }
  }

  /** Independence: an event for one key leaves every other key's status,
      memo, callback lists, outstanding invocation and armed timers as they
      were, and settles none of its waiting callers: neither those queued on
      it nor the one that started its invocation. */
  lemma OtherKeysUntouched<V, E>(s: State<V, E>, e: Event<V, E>, j: Key)
    requires Inv(s)
    requires EventKey(s, e) != Some(j)
    ensures EntryOf(Step(s, e).0, j) == EntryOf(s, j)
    ensures FlightsFor(Step(s, e).0, j) == FlightsFor(s, j)
    ensures Step(s, e).0.timers[j] == s.timers[j]
    ensures forall w :: w in EntryOf(s, j).resolves && w !in s.settled ==> w !in Step(s, e).0.settled
    ensures forall o :: o in FlightsFor(s, j) ==> o !in Step(s, e).0.settled
  {
    match e
    case Call(args) =>
      CallLeavesOtherKeys(s, args, j);
      assert forall w :: w in EntryOf(s, j).resolves ==> w != s.nextCaller;
      assert forall o :: o in FlightsFor(s, j) ==> o != s.nextCaller;
    case Succeed(c, v) => SucceedLeavesOtherKeys(s, c, v, j);
    case Fail(c, err) => FailLeavesOtherKeys(s, c, err, j);
    case TimerFire(k) =>
  }
}
