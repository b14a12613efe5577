/** Python's filtering list comprehension `[f(x) for x in xs if keep(x)]`
    and the facts about it that do not depend on `keep` or `f`. */
module Lists {

  function Comprehension<T, U>(xs: seq<T>, keep: T -> bool, f: T -> U): seq<U>
  {
    if xs == [] then []
    else (if keep(xs[0]) then [f(xs[0])] else []) + Comprehension(xs[1..], keep, f)
  }

  /** The map of a comprehension that only filters. */
  function Id<T>(x: T): T { x }

  /** How many elements of `xs` satisfy `keep`. */
  function Count<T>(xs: seq<T>, keep: T -> bool): nat
  {
    if xs == [] then 0 else (if keep(xs[0]) then 1 else 0) + Count(xs[1..], keep)
  }

  /** `xs` is `ys` with some elements left out, order kept. */
  predicate IsSubsequence<T(==)>(xs: seq<T>, ys: seq<T>)
    decreases |ys|
  {
    xs == [] ||
    (ys != [] &&
     ((xs[0] == ys[0] && IsSubsequence(xs[1..], ys[1..])) || IsSubsequence(xs, ys[1..])))
  }

  /** A comprehension over two blocks is the two comprehensions joined. */
  lemma {:induction false} ComprehensionAppend<T, U>(xs: seq<T>, ys: seq<T>, keep: T -> bool, f: T -> U)
    ensures Comprehension(xs + ys, keep, f) == Comprehension(xs, keep, f) + Comprehension(ys, keep, f)
  {
    if xs == [] {
      assert xs + ys == ys;
    } else {
      var head := if keep(xs[0]) then [f(xs[0])] else [];
      assert (xs + ys)[0] == xs[0];
      assert (xs + ys)[1..] == xs[1..] + ys;
      calc {
        Comprehension(xs + ys, keep, f);
        head + Comprehension(xs[1..] + ys, keep, f);
        { ComprehensionAppend(xs[1..], ys, keep, f); }
        head + (Comprehension(xs[1..], keep, f) + Comprehension(ys, keep, f));
        (head + Comprehension(xs[1..], keep, f)) + Comprehension(ys, keep, f);
      }
    }
  }

  lemma ComprehensionOne<T, U>(x: T, keep: T -> bool, f: T -> U)
    ensures Comprehension([x], keep, f) == if keep(x) then [f(x)] else []
  {
    assert [x][1..] == [];
  }

  /** Nothing kept, nothing produced. */
  lemma {:induction false} ComprehensionNone<T, U>(xs: seq<T>, keep: T -> bool, f: T -> U)
    requires forall m :: 0 <= m < |xs| ==> !keep(xs[m])
    ensures Comprehension(xs, keep, f) == []
  {
    if xs != [] {
      assert !keep(xs[0]);
      ComprehensionNone(xs[1..], keep, f);
    }
  }

  /** When `xs[i]` is the first kept element, its image opens the result
      and the rest comes from what follows it. */
  lemma {:induction false} ComprehensionFirst<T, U>(xs: seq<T>, keep: T -> bool, f: T -> U, i: nat)
    requires i < |xs| && keep(xs[i])
    requires forall m :: 0 <= m < i ==> !keep(xs[m])
    ensures Comprehension(xs, keep, f) == [f(xs[i])] + Comprehension(xs[i + 1..], keep, f)
  {
    if i > 0 {
      var tail := xs[1..];
      assert !keep(xs[0]);
      assert tail[i - 1] == xs[i] && tail[i..] == xs[i + 1..];
      forall m | 0 <= m < i - 1 ensures !keep(tail[m]) {
        assert tail[m] == xs[m + 1];
      }
      ComprehensionFirst(tail, keep, f, i - 1);
    }
  }

  /** When `xs[i]` is the first kept element, its image heads the result. */
  lemma ComprehensionHead<T, U>(xs: seq<T>, keep: T -> bool, f: T -> U, i: nat)
    requires i < |xs| && keep(xs[i])
    requires forall m :: 0 <= m < i ==> !keep(xs[m])
    ensures |Comprehension(xs, keep, f)| >= 1 && Comprehension(xs, keep, f)[0] == f(xs[i])
  {
    ComprehensionFirst(xs, keep, f, i);
  }

  /** When `xs[i]` and `xs[j]` are the first two kept elements, their images
      open the result, in that order. */
  lemma {:induction false} ComprehensionFirstTwo<T, U>(xs: seq<T>, keep: T -> bool, f: T -> U, i: nat, j: nat)
    requires i < j < |xs| && keep(xs[i]) && keep(xs[j])
    requires forall m :: 0 <= m < j && m != i ==> !keep(xs[m])
    ensures |Comprehension(xs, keep, f)| >= 2
    ensures Comprehension(xs, keep, f)[0] == f(xs[i]) && Comprehension(xs, keep, f)[1] == f(xs[j])
  {
    var tail := xs[1..];
    assert tail[j - 1] == xs[j];
    if i > 0 {
      assert !keep(xs[0]);
      assert tail[i - 1] == xs[i];
      forall m | 0 <= m < j - 1 && m != i - 1 ensures !keep(tail[m]) {
        assert tail[m] == xs[m + 1];
      }
      ComprehensionFirstTwo(tail, keep, f, i - 1, j - 1);
    } else {
      forall m | 0 <= m < j - 1 ensures !keep(tail[m]) {
        assert tail[m] == xs[m + 1];
      }
      ComprehensionHead(tail, keep, f, j - 1);
    }
  }

  /** When `xs[i]` is the only kept element, the result is its image alone. */
  lemma ComprehensionOnlyOne<T, U>(xs: seq<T>, keep: T -> bool, f: T -> U, i: nat)
    requires i < |xs| && keep(xs[i])
    requires forall m :: 0 <= m < |xs| && m != i ==> !keep(xs[m])
    ensures Comprehension(xs, keep, f) == [f(xs[i])]
  {
    var after := xs[i + 1..];
    ComprehensionFirst(xs, keep, f, i);
    forall m | 0 <= m < |after| ensures !keep(after[m]) {
      assert after[m] == xs[i + 1 + m];
    }
    ComprehensionNone(after, keep, f);
    assert [f(xs[i])] + [] == [f(xs[i])];
  }

  /** The comprehension yields one element per kept element. */
  lemma {:induction false} ComprehensionLength<T, U>(xs: seq<T>, keep: T -> bool, f: T -> U)
    ensures |Comprehension(xs, keep, f)| == Count(xs, keep)
  {
    if xs != [] {
      ComprehensionLength(xs[1..], keep, f);
    }
  }

  /** Every produced element is `f` of some kept element. */
  lemma {:induction false} ComprehensionMember<T, U>(xs: seq<T>, keep: T -> bool, f: T -> U, y: U)
    requires y in Comprehension(xs, keep, f)
    ensures exists m :: 0 <= m < |xs| && keep(xs[m]) && f(xs[m]) == y
  {
    if !(keep(xs[0]) && f(xs[0]) == y) {
      assert y in Comprehension(xs[1..], keep, f);
      ComprehensionMember(xs[1..], keep, f, y);
      var m :| 0 <= m < |xs[1..]| && keep(xs[1..][m]) && f(xs[1..][m]) == y;
      assert xs[m + 1] == xs[1..][m];
    }
  }

  /** Two comprehensions in a row are one whose test and map are composed. */
  lemma {:induction false} ComprehensionFuse<T, U, V>(xs: seq<T>, keep1: T -> bool, f1: T -> U,
                                                      keep2: U -> bool, f2: U -> V,
                                                      keep: T -> bool, f: T -> V)
    requires forall m :: 0 <= m < |xs| ==>
               keep(xs[m]) == (keep1(xs[m]) && keep2(f1(xs[m]))) && f(xs[m]) == f2(f1(xs[m]))
    ensures Comprehension(Comprehension(xs, keep1, f1), keep2, f2) == Comprehension(xs, keep, f)
  {
    if xs != [] {
      var x := xs[0];
      var rest := Comprehension(xs[1..], keep1, f1);
      ComprehensionFuse(xs[1..], keep1, f1, keep2, f2, keep, f);
      assert keep(x) == (keep1(x) && keep2(f1(x))) && f(x) == f2(f1(x));
      ComprehensionAppend(if keep1(x) then [f1(x)] else [], rest, keep2, f2);
      if keep1(x) {
        ComprehensionOne(f1(x), keep2, f2);
      }
    }
  }

  /** A filter keeps an order-preserving subsequence. */
  lemma {:induction false} FilterIsSubsequence<T>(xs: seq<T>, keep: T -> bool)
    ensures IsSubsequence(Comprehension(xs, keep, Id), xs)
  {
    if xs != [] {
      var rest := Comprehension(xs[1..], keep, Id);
      FilterIsSubsequence(xs[1..], keep);
      if keep(xs[0]) {
        var kept := [xs[0]] + rest;
        assert Comprehension(xs, keep, Id) == kept;
        assert kept[0] == xs[0] && kept[1..] == rest;
      } else {
        assert Comprehension(xs, keep, Id) == rest;
      }
    }
  }

  /** A prefix of a subsequence is a subsequence. */
  lemma {:induction false} PrefixIsSubsequence<T>(xs: seq<T>, ys: seq<T>, n: nat)
    requires n <= |xs| && IsSubsequence(xs, ys)
    ensures IsSubsequence(xs[..n], ys)
    decreases |ys|
  {
    if n > 0 {
      if xs[0] == ys[0] && IsSubsequence(xs[1..], ys[1..]) {
        PrefixIsSubsequence(xs[1..], ys[1..], n - 1);
        assert xs[..n][1..] == xs[1..][..n - 1];
      } else {
        PrefixIsSubsequence(xs, ys[1..], n);
      }
    }
  }
}
