/** Shared vocabulary: optional values, results that may carry an error, and a few facts about sequences. */
module Prelude {

  datatype Option<+T> = None | Some(value: T)

  /** The outcome of an operation that the source may abort with an exception. */
  datatype Result<+T, +E> = Ok(value: T) | Err(error: E) {
    predicate IsFailure() {
      Err?
    }

    function PropagateFailure<U>(): Result<U, E>
      requires Err?
    {
      Err(error)
    }

    function Extract(): T
      requires Ok?
    {
      value
    }
  }

  function Or<T>(given: Option<T>, otherwise: T): T {
    if given.Some? then given.value else otherwise
  }

  function OrElse<T>(given: Option<T>, otherwise: Option<T>): Option<T> {
    if given.Some? then given else otherwise
  }

  /** The last `n` elements, or all of them. */
  function Last<T>(s: seq<T>, n: nat): (r: seq<T>) {
    if |s| <= n then s else s[|s| - n..]
  }

  /** Bounding after each append keeps the same tail as bounding once at the end. */
  lemma LastNext<T>(s: seq<T>, x: T, n: nat)
    ensures Last(Last(s, n) + [x], n) == Last(s + [x], n)
  {
    if |s| > n {
      assert (s + [x])[|s| + 1 - n..] == (s[|s| - n..] + [x])[1..];
    }
  }

  /** A list without the first occurrence of an element. */
  function Drop<T(==)>(s: seq<T>, x: T): seq<T> {
    if s == [] then []
    else if s[0] == x then s[1..]
    else [s[0]] + Drop(s[1..], x)
  }

  lemma {:induction false} DropKeeps<T>(s: seq<T>, x: T, keys: set<T>)
    requires forall i, j :: 0 <= i < j < |s| ==> s[i] != s[j]
    requires forall y :: y in s <==> y in keys
    ensures var d := Drop(s, x);
            && (forall i, j :: 0 <= i < j < |d| ==> d[i] != d[j])
            && (forall y :: y in d <==> y in keys && y != x)
  {
    if s != [] {
      assert s == [s[0]] + s[1..];
      assert forall i :: 0 <= i < |s[1..]| ==> s[1..][i] == s[i + 1];
      if s[0] != x {
        DropKeeps(s[1..], x, keys - {s[0]});
      }
    }
  }

  /** A separator that occurs in neither left part fixes where both texts split. */
  lemma SplitAtSeparator<T>(a: seq<T>, b: seq<T>, c: seq<T>, d: seq<T>, sep: T)
    requires a + [sep] + b == c + [sep] + d
    requires sep !in a && sep !in c
    ensures a == c && b == d
  {
    var t := a + [sep] + b;
    assert t[|a|] == sep && t[|c|] == sep;
    assert forall i :: 0 <= i < |a| ==> t[i] == a[i];
    assert forall i :: 0 <= i < |c| ==> t[i] == c[i];
    assert a == t[..|a|] && c == t[..|c|];
    assert b == t[|a| + 1..] && d == t[|c| + 1..];
  }

  /** A separator that occurs in neither right part fixes where both texts split. */
  lemma SplitAtLastSeparator<T>(a: seq<T>, b: seq<T>, c: seq<T>, d: seq<T>, sep: T)
    requires a + [sep] + b == c + [sep] + d
    requires sep !in b && sep !in d
    ensures a == c && b == d
  {
    var s, t := a + [sep] + b, c + [sep] + d;
    assert s[|a|] == sep && t[|c|] == sep;
    assert forall i :: |a| < i < |s| ==> s[i] in b;
    assert forall i :: |c| < i < |t| ==> t[i] in d;
    assert |a| == |c|;
    assert a == s[..|a|] && c == t[..|c|] && b == s[|a| + 1..] && d == t[|c| + 1..];
  }

  /** Removing an equal tail from equal texts leaves equal texts. */
  lemma CancelTail<T>(p: seq<T>, q: seq<T>, u: seq<T>)
    requires p + u == q + u
    ensures p == q
  {
    assert |p| == |q|;
    assert p == (p + u)[..|p|] && q == (q + u)[..|q|];
  }

  /** Equal texts stay equal when an equal first element is dropped. */
  lemma DropFirst<T>(x: T, a: seq<T>, b: seq<T>, c: seq<T>, d: seq<T>, u: seq<T>, w: seq<T>)
    requires [x] + a + b + u == [x] + c + d + w
    ensures a + b + u == c + d + w
  {
    assert a + b + u == ([x] + a + b + u)[1..];
    assert c + d + w == ([x] + c + d + w)[1..];
  }

  lemma HasMember(s: set<int>)
    ensures s != {} ==> exists x :: x in s
  {
    if forall x :: x !in s {
      assert s == {};
    }
  }

  lemma HasText(s: set<string>)
    ensures s != {} ==> exists x :: x in s
  {
    if forall x :: x !in s {
      assert s == {};
    }
  }
}
