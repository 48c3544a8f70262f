/**
 * A newest-first list of bounded length, as `[x, ...xs].slice(0, n)` keeps it: the toast queue
 * and the console's results panel are both kept this way.
 */
module Feed {
  /** `[x, ...xs].slice(0, n)`. */
  function Prepend<T>(x: T, xs: seq<T>, n: nat): (r: seq<T>)
    ensures |r| == (if |xs| + 1 <= n then |xs| + 1 else n)
    ensures r == ([x] + xs)[..|r|]
  {
    if |xs| + 1 <= n then [x] + xs else ([x] + xs)[..n]
  }

  /** The new entry comes first, followed by the newest of the old ones in their order. */
  lemma PrependShape<T>(x: T, xs: seq<T>, n: nat)
    requires n >= 1
    ensures var r := Prepend(x, xs, n);
      |r| <= n && r[0] == x && r[1..] == xs[..|r| - 1]
  {
    var r := Prepend(x, xs, n);
    assert r[1..] == ([x] + xs)[1..|r|];
    assert ([x] + xs)[1..] == xs;
  }

  /** Truncating after every push is the same as truncating once: the list is always the `n` newest entries. */
  lemma PrependTwice<T>(y: T, x: T, xs: seq<T>, n: nat)
    ensures Prepend(y, Prepend(x, xs, n), n) == Prepend(y, [x] + xs, n)
  {
    var inner := Prepend(x, xs, n);
    var lhs := Prepend(y, inner, n);
    var rhs := Prepend(y, [x] + xs, n);
    assert [y] + inner == ([y] + ([x] + xs))[..|inner| + 1];
    assert |lhs| == |rhs|;
    assert lhs == ([y] + inner)[..|lhs|];
  }

  /** Entries are never invented: every entry is the new one or an old one. */
  lemma PrependMembers<T>(x: T, xs: seq<T>, n: nat, e: T)
    requires e in Prepend(x, xs, n)
    ensures e == x || e in xs
  {
    var r := Prepend(x, xs, n);
    var i :| 0 <= i < |r| && r[i] == e;
    assert r[i] == ([x] + xs)[i];
    if i > 0 {
      assert xs[i - 1] == e;
    }
  }
}
