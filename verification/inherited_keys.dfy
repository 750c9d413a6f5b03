/**
 * The source keeps its tables in plain objects (`const memo = {}`), so
 * `memo[memoKey]` also finds the properties every object inherits from
 * `Object.prototype`. For a key such as "toString" the cache-hit test
 * `if (memo[memoKey])` sees an inherited function, which is truthy, and the
 * call returns whatever that function returns when called on `memo`
 * ("[object Object]" for "toString"; a TypeError for "__proto__", whose value
 * is not a function) instead of invoking the producer. Since the producer is
 * never reached for such a key, no own `memo` entry is ever assigned for it,
 * and the same happens on every call.
 *
 * `CallAsWritten` models that lookup; `Memo.CallStep` is the evidently
 * intended own-entry lookup the rest of the model uses.
 */
module InheritedKeys {
  import opened Keys
  import opened Memo

  /** Properties of `Object.prototype` (section 20.1.3 of ECMA-262, and the
      legacy accessors of its Annex B.2.2). */
  const ObjectPrototypeNames: set<string> := {
    "constructor", "hasOwnProperty", "isPrototypeOf", "propertyIsEnumerable",
    "toLocaleString", "toString", "valueOf", "__proto__",
    "__defineGetter__", "__defineSetter__", "__lookupGetter__", "__lookupSetter__"
  }

  /** A key whose `memo[key]` lookup falls through to an inherited property:
      it names one, and the instance has never stored anything under it. */
  predicate Inherited<V, E>(s: State<V, E>, k: Key) {
    k.Str? && k.s in ObjectPrototypeNames && k !in s.entries
  }

  /** What a call does as the source is written: the inherited-property hit,
      or one of the three paths of the intended model. */
  datatype AsWrittenOutcome<V, E> =
    | InheritedHit(caller: CallerId, name: string)
    | Modelled(outcome: Outcome<V, E>)

  /** `memoizedFn(...args)` with the plain-object lookup of line 18. On an
      inherited hit line 19 settles the caller's promise at once with what the
      inherited property yields. */
  function CallAsWritten<V, E>(s: State<V, E>, args: seq<string>): (r: (State<V, E>, AsWrittenOutcome<V, E>))
    ensures r.0.nextCaller == s.nextCaller + 1 && r.0.ttl == s.ttl
    ensures r.1.InheritedHit? <==> Inherited(s, KeyOf(args))
    // an inherited hit invokes nothing and stores nothing, but settles the caller
    ensures r.1.InheritedHit? ==>
              && r.1 == InheritedHit(s.nextCaller, KeyOf(args).s)
              && r.0.entries == s.entries && r.0.flights == s.flights && r.0.timers == s.timers
              && r.0.settled.Keys == s.settled.Keys + {s.nextCaller}
              && (s.nextCaller !in s.settled ==> r.0.settled[s.nextCaller] == FromPrototype(KeyOf(args).s))
    ensures !r.1.InheritedHit? ==> r == (CallStep(s, args).0, Modelled(CallStep(s, args).1))
    ensures forall w :: w in s.settled ==> w in r.0.settled && r.0.settled[w] == s.settled[w]
  {
    var k := KeyOf(args);
    var c := s.nextCaller;
    if Inherited(s, k) then
      (s.(settled := Deliver(s.settled, c, FromPrototype(k.s)), nextCaller := c + 1), InheritedHit(c, k.s))
    else
      var (s', o) := CallStep(s, args);
      (s', Modelled(o))
  }

  /** `m` calls in a row with the same arguments, as the source is written. */
  function CallsAsWritten<V, E>(s: State<V, E>, args: seq<string>, m: nat): (s': State<V, E>)
    ensures s'.nextCaller == s.nextCaller + m && s'.ttl == s.ttl
    ensures forall w :: w in s.settled ==> w in s'.settled && s'.settled[w] == s.settled[w]
    decreases m
  {
    if m == 0 then s else CallsAsWritten(CallAsWritten(s, args).0, args, m - 1)
  }

  /** One as-written call whose single argument names an `Object.prototype`
      property the instance has never stored. */
  lemma InheritedStep<V, E>(s: State<V, E>, name: string)
    requires name in ObjectPrototypeNames && Str(name) !in s.entries
    ensures var r := CallAsWritten(s, [name]);
            && r.1 == InheritedHit(s.nextCaller, name)
            && r.0.entries == s.entries && r.0.flights == s.flights
            && r.0.settled.Keys == s.settled.Keys + {s.nextCaller}
            && (s.nextCaller !in s.settled ==> r.0.settled[s.nextCaller] == FromPrototype(name))
  {
    assert KeyOf([name]) == Str(name);
  }

  /** As written, a call whose single argument names an `Object.prototype`
      property never invokes the producer, however often it is repeated; each
      of those callers settles at once from the inherited property. */
  lemma {:induction false} InheritedNameNeverInvokes<V, E>(s: State<V, E>, name: string, m: nat)
    requires name in ObjectPrototypeNames && Str(name) !in s.entries
    ensures CallAsWritten(s, [name]).1 == InheritedHit(s.nextCaller, name)
    ensures CallsAsWritten(s, [name], m).flights == s.flights
    ensures Str(name) !in CallsAsWritten(s, [name], m).entries
    ensures forall w :: s.nextCaller <= w < s.nextCaller + m && w !in s.settled ==>
              w in CallsAsWritten(s, [name], m).settled
              && CallsAsWritten(s, [name], m).settled[w] == FromPrototype(name)
    decreases m
  {
    InheritedStep(s, name);
    if m > 0 {
      var s1 := CallAsWritten(s, [name]).0;
      InheritedNameNeverInvokes(s1, name, m - 1);
      var sm := CallsAsWritten(s, [name], m);
      assert sm == CallsAsWritten(s1, [name], m - 1);
      forall w | s.nextCaller <= w < s.nextCaller + m && w !in s.settled
        ensures w in sm.settled && sm.settled[w] == FromPrototype(name)
      {
        if w != s.nextCaller {
          assert w !in s1.settled;
        }
      }
    }
  }

  /** The discrepancy on a fresh instance: as written, `memoizedFn("toString")`
      returns an inherited value and never runs the producer; the intended
      lookup invokes the producer with ("toString"). */
  lemma ToStringCounterexample<V, E>(ttl: Ttl)
    ensures CallAsWritten(MemoPromise<V, E>(ttl), ["toString"]).1 == InheritedHit(0, "toString")
    ensures CallAsWritten(MemoPromise<V, E>(ttl), ["toString"]).0.settled == map[0 := FromPrototype("toString")]
    ensures Step(MemoPromise<V, E>(ttl), Call(["toString"])).1 == Invoked(0, ["toString"])
  {
    assert KeyOf(["toString"]) == Str("toString");
  }

  /** Intended behaviour: on a fresh instance the first call for any key,
      whatever its name, invokes the producer with its arguments. */
  lemma FirstCallInvokes<V, E>(ttl: Ttl, args: seq<string>)
    ensures Step(MemoPromise<V, E>(ttl), Call(args)).1 == Invoked(0, args)
    ensures Step(MemoPromise<V, E>(ttl), Call(args)).0.flights == map[0 := KeyOf(args)]
  {
  }
}
