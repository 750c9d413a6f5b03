/**
 * Key derivation for memoPromise.
 *
 * A call with no arguments maps to a private sentinel (a `Symbol` in the
 * source); any other call maps to the string `args.toString()`, which for an
 * array of strings is the elements joined with ",". Arguments are modelled as
 * strings; the conversion of other JavaScript values to strings is not modelled.
 */
module Keys {

  /** The key of one memo entry. `NoArgs` plays the part of the sentinel
      symbol: it is a different constructor from every string key. */
  datatype Key = NoArgs | Str(s: string)

  /** A string with no "," in it: such strings are the pieces `Split` produces
      and the arguments whose join can be undone. */
  predicate CommaFree(x: string) {
    ',' !in x
  }

  /** `Array.prototype.toString` on an array of strings. The key starts with
      the first argument, and when another argument follows, a comma comes
      right after it. */
  function Join(args: seq<string>): (s: string)
    ensures |args| > 0 ==> args[0] <= s
    ensures |args| > 1 ==> |args[0]| < |s| && s[|args[0]|] == ','
    decreases |args|
  {
    if |args| == 0 then ""
    else if |args| == 1 then args[0]
    else args[0] + "," + Join(args[1..])
  }

  /** The pieces of a string between its commas (`s.split(",")`). */
  function Split(s: string): (parts: seq<string>)
    ensures |parts| > 0
    ensures forall i :: 0 <= i < |parts| ==> CommaFree(parts[i])
    decreases |s|
  {
    if |s| == 0 then [""]
    else
      var rest := Split(s[1..]);
      if s[0] == ',' then [""] + rest
      else [[s[0]] + rest[0]] + rest[1..]
  }

  /** The key of a call with argument list `args`. */
  function KeyOf(args: seq<string>): (k: Key)
    ensures k == NoArgs <==> |args| == 0
  {
    if |args| == 0 then NoArgs else Str(Join(args))
  }

  /** Splitting then joining gives the string back: every string is the key
      of some argument list. */
  lemma {:induction false} JoinSplit(s: string)
    ensures Join(Split(s)) == s
    decreases |s|
  {
    if |s| == 0 {
    } else {
      var rest := Split(s[1..]);
      JoinSplit(s[1..]);
      if s[0] == ',' {
        assert Split(s) == [""] + rest;
        assert ([""] + rest)[1..] == rest;
        assert s == [','] + s[1..];
      } else {
        var first := [s[0]] + rest[0];
        assert Split(s) == [first] + rest[1..];
        if |rest| == 1 {
          assert Join(rest) == rest[0];
        } else {
          assert ([first] + rest[1..])[1..] == rest[1..];
          assert Join(rest) == rest[0] + "," + Join(rest[1..]);
        }
        assert s == [s[0]] + s[1..];
      }
    }
  }

  /** The key holds a comma exactly when there are two arguments or more, or
      an argument holds one. */
  lemma {:induction false} JoinCommaFree(args: seq<string>)
    ensures CommaFree(Join(args)) <==> |args| <= 1 && forall i :: 0 <= i < |args| ==> CommaFree(args[i])
    decreases |args|
  {
    if |args| > 1 {
      assert Join(args)[|args[0]|] == ',';
    }
  }

  /** Splitting a comma-free prefix glued to the front of `t` glues it to the
      first piece of `t`. */
  lemma {:induction false} SplitPrefix(x: string, t: string)
    requires CommaFree(x)
    ensures Split(x + t) == [x + Split(t)[0]] + Split(t)[1..]
    decreases |x|
  {
    if |x| == 0 {
      var p := Split(t);
      assert x + t == t;
      assert x + p[0] == p[0];
      assert p == [p[0]] + p[1..];
    } else {
      var y := x[1..];
      assert (x + t)[1..] == y + t;
      assert (x + t)[0] == x[0] != ',';
      SplitPrefix(y, t);
      assert [x[0]] + (y + Split(t)[0]) == x + Split(t)[0];
    }
  }

  /** Joining then splitting gives the arguments back, as long as no argument
      contains a comma. */
  lemma {:induction false} SplitJoin(args: seq<string>)
    requires |args| > 0
    requires forall i :: 0 <= i < |args| ==> CommaFree(args[i])
    ensures Split(Join(args)) == args
  {
    if |args| == 1 {
      SplitPrefix(args[0], "");
      assert args[0] + "" == args[0];
    } else {
      var rest := args[1..];
      SplitJoin(rest);
      var j := Join(rest);
      assert Join(args) == args[0] + ("," + j);
      SplitPrefix(args[0], "," + j);
      assert ("," + j)[1..] == j;
      assert Split("," + j) == [""] + rest;
      assert ([""] + rest)[1..] == rest;
      assert args[0] + "" == args[0];
      assert args == [args[0]] + rest;
    }
  }

  /** Two comma-free argument lists share an entry exactly when they are equal;
      in particular the zero-argument call shares with no other call. */
  lemma KeyOfInjective(a: seq<string>, b: seq<string>)
    requires forall i :: 0 <= i < |a| ==> CommaFree(a[i])
    requires forall i :: 0 <= i < |b| ==> CommaFree(b[i])
    ensures KeyOf(a) == KeyOf(b) <==> a == b
  {
    if KeyOf(a) == KeyOf(b) && |a| > 0 {
      SplitJoin(a);
      SplitJoin(b);
    }
  }

  /** The zero-argument sentinel differs from the key of a call whose joined
      arguments are the empty string. */
  lemma EmptyStringIsNotNoArgs()
    ensures KeyOf([""]) != KeyOf([]) && KeyOf([""]) == Str("")
  {
  }

  /** A comma inside an argument is indistinguishable from an argument
      boundary: `("a,b")` and `("a", "b")` share one entry. */
  lemma CommaCollision()
    ensures KeyOf(["a,b"]) == KeyOf(["a", "b"])
  {
    assert Join(["a", "b"]) == "a" + "," + Join(["b"]);
  }
}
