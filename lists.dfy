/** Operations on the ordered reference lists that the hub and the rooms keep:
    a first-match search, removal of the first occurrence (the `append(s[:i],
    s[i+1:]...)` splice of the Go code), and filtering out every entry equal
    to one value (the `c != client` test of the broadcast loops). Equality on
    a class type is reference equality, which is Go's pointer comparison. */
module Lists {

  /** Index of the first occurrence of `x` in `s`, or `|s|` when there is none. */
  function IndexOf<T(==)>(s: seq<T>, x: T): (i: nat)
    ensures i <= |s|
    ensures i < |s| ==> s[i] == x
    ensures forall j :: 0 <= j < i ==> s[j] != x
  {
    if s == [] then 0
    else if s[0] == x then 0
    else 1 + IndexOf(s[1..], x)
  }

  /** The scan loop the Go code writes out each time it looks for a reference:
      it stops at the first entry equal to `x`. */
  method FirstIndex<T(==)>(s: seq<T>, x: T) returns (i: nat)
    ensures i <= |s|
    ensures i < |s| ==> s[i] == x
    ensures forall j :: 0 <= j < i ==> s[j] != x
    ensures i == IndexOf(s, x)
  {
    i := 0;
    while i < |s|
      invariant i <= |s|
      invariant forall j :: 0 <= j < i ==> s[j] != x
    {
      if s[i] == x {
        return;
      }
      i := i + 1;
    }
  }

  /** `s` with its first occurrence of `x` spliced out; `s` itself when `x`
      does not occur. */
  function RemoveFirst<T(==)>(s: seq<T>, x: T): seq<T> {
    var i := IndexOf(s, x);
    if i == |s| then s else s[..i] + s[i + 1..]
  }

  /** Removal takes out exactly one entry equal to `x` when there is one, keeps
      the entries before it in place and moves the later ones up by one. */
  lemma RemoveFirstSplices<T>(s: seq<T>, x: T)
    ensures x !in s ==> RemoveFirst(s, x) == s
    ensures x in s ==> |RemoveFirst(s, x)| == |s| - 1
    ensures x in s ==> multiset(RemoveFirst(s, x)) == multiset(s) - multiset{x}
    ensures x in s ==> RemoveFirst(s, x)[..IndexOf(s, x)] == s[..IndexOf(s, x)]
    ensures x in s ==> RemoveFirst(s, x)[IndexOf(s, x)..] == s[IndexOf(s, x) + 1..]
  {
    var i := IndexOf(s, x);
    if i < |s| {
      var pre, post := s[..i], s[i + 1..];
      var r := RemoveFirst(s, x);
      assert r == pre + post;
      assert r[..i] == pre && r[i..] == post;
      assert s == pre + [x] + post;
      SpliceCounts(pre, x, post);
    }
  }

  lemma SpliceCounts<T>(pre: seq<T>, x: T, post: seq<T>)
    ensures multiset(pre + post) == multiset(pre + [x] + post) - multiset{x}
  {
    assert pre + [x] + post == pre + ([x] + post);
  }

  /** The entries of `s` that are not equal to `x`, in their original order. */
  function Except<T(==)>(s: seq<T>, x: T): seq<T> {
    if s == [] then []
    else
      var last := s[|s| - 1];
      Except(s[..|s| - 1], x) + (if last == x then [] else [last])
  }

  /** The filter drops every entry equal to `x` and keeps every other entry
      as often as it occurs; it is the identity when `x` does not occur. */
  lemma {:induction false} ExceptCounts<T>(s: seq<T>, x: T)
    ensures |Except(s, x)| <= |s|
    ensures multiset(Except(s, x))[x] == 0
    ensures forall y :: y in Except(s, x) ==> y in s
    ensures forall y :: y in s && y != x ==> multiset(Except(s, x))[y] == multiset(s)[y]
    ensures x !in s ==> Except(s, x) == s
  {
    if s != [] {
      var init, last := s[..|s| - 1], s[|s| - 1];
      assert s == init + [last];
      ExceptCounts(init, x);
    }
  }

  /** One more entry at the end is kept unless it equals `x`. */
  lemma ExceptSnoc<T>(s: seq<T>, y: T, x: T)
    ensures Except(s + [y], x) == Except(s, x) + (if y == x then [] else [y])
  {
    assert (s + [y])[..|s|] == s;
  }

  /** The step a broadcast loop takes from the first `i` entries to the first `i + 1`. */
  lemma ExceptPrefixStep<T>(s: seq<T>, i: nat, x: T)
    requires i < |s|
    ensures Except(s[..i + 1], x) == Except(s[..i], x) + (if s[i] == x then [] else [s[i]])
  {
    assert s[..i + 1] == s[..i] + [s[i]];
    ExceptSnoc(s[..i], s[i], x);
  }

  /** Filtering distributes over concatenation; with the one-element cases this
      determines `Except` completely, order included. */
  lemma {:induction false} ExceptAppend<T>(a: seq<T>, b: seq<T>, x: T)
    ensures Except(a + b, x) == Except(a, x) + Except(b, x)
    decreases |b|
  {
    if b == [] {
      assert a + b == a;
    } else {
      var b' := b[..|b| - 1];
      assert (a + b)[..|a + b| - 1] == a + b';
      ExceptAppend(a, b', x);
    }
  }

  /** Adding `y` at the end does not move an earlier first match. */
  lemma IndexOfAppend<T>(s: seq<T>, y: T, x: T)
    ensures IndexOf(s + [y], x) == if x in s then IndexOf(s, x) else if y == x then |s| else |s| + 1
  {
    var i := IndexOf(s, x);
    if x in s {
      assert (s + [y])[i] == x;
      assert forall j :: 0 <= j < i ==> (s + [y])[j] == s[j];
    } else if y == x {
      assert (s + [y])[|s|] == x;
    } else {
      assert forall j :: 0 <= j < |s| + 1 ==> (s + [y])[j] != x;
    }
  }

  /** Removing the first occurrence of a value that occurs at most once removes
      it altogether: the result then equals the filter. */
  lemma RemoveSoleOccurrence<T>(s: seq<T>, x: T)
    requires multiset(s)[x] <= 1
    ensures RemoveFirst(s, x) == Except(s, x)
    ensures x !in RemoveFirst(s, x)
  {
    if x in s {
      var i := IndexOf(s, x);
      var pre, post := s[..i], s[i + 1..];
      assert s == pre + [x] + post;
      assert RemoveFirst(s, x) == pre + post;
      assert x !in pre;
      assert x !in post by {
        assert multiset(s) == multiset(pre) + multiset{x} + multiset(post);
      }
      ExceptCounts(pre, x);
      ExceptCounts(post, x);
      assert Except([x], x) == [] by {
        assert [x][..0] == [];
      }
      assert Except(pre + [x], x) == pre by {
        ExceptAppend(pre, [x], x);
      }
      assert Except(s, x) == pre + post by {
        ExceptAppend(pre + [x], post, x);
      }
    } else {
      ExceptCounts(s, x);
    }
  }

  /** Appending `x` and then removing its first occurrence gives back the
      original multiset, and the original sequence when `x` was absent. */
  lemma RemoveAppended<T>(s: seq<T>, x: T)
    ensures multiset(RemoveFirst(s + [x], x)) == multiset(s)
    ensures x !in s ==> RemoveFirst(s + [x], x) == s
  {
    assert x in s + [x] by { assert (s + [x])[|s|] == x; }
    IndexOfAppend(s, x, x);
    RemoveFirstSplices(s + [x], x);
    if x !in s {
      assert (s + [x])[..|s|] == s;
    }
  }
}
