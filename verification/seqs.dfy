/** Order-preserving filtering of sequences, the model of JavaScript's
    `Array.prototype.filter` (and of a global `replace` that deletes a
    character class). */
module Seqs {

  /** `sub` can be obtained from `s` by deleting elements, keeping order. */
  predicate IsSubsequence<T(==)>(sub: seq<T>, s: seq<T>)
    decreases |s|
  {
    if |sub| == 0 then true
    else if |s| == 0 then false
    else if sub[0] == s[0] then IsSubsequence(sub[1..], s[1..])
    else IsSubsequence(sub, s[1..])
  }

  /** The elements of `s` for which `keep` holds, in their original order. */
  function Filter<T(==)>(s: seq<T>, keep: T -> bool): (r: seq<T>)
    ensures |r| <= |s|
    ensures forall i :: 0 <= i < |r| ==> r[i] in s && keep(r[i])
    ensures forall i :: 0 <= i < |s| && keep(s[i]) ==> s[i] in r
    ensures IsSubsequence(r, s)
    ensures (forall i :: 0 <= i < |s| ==> keep(s[i])) ==> r == s
    ensures (forall i :: 0 <= i < |s| ==> !keep(s[i])) ==> r == []
    decreases |s|
  {
    if |s| == 0 then []
    else if keep(s[0]) then [s[0]] + Filter(s[1..], keep)
    else Filter(s[1..], keep)
  }

  /** Filtering distributes over concatenation. */
  lemma {:induction false} FilterAppend<T>(a: seq<T>, b: seq<T>, keep: T -> bool)
    ensures Filter(a + b, keep) == Filter(a, keep) + Filter(b, keep)
    decreases |a|
  {
    if |a| == 0 {
      assert a + b == b;
    } else {
      assert (a + b)[0] == a[0];
      assert (a + b)[1..] == a[1..] + b;
      FilterAppend(a[1..], b, keep);
    }
  }

  /** Two predicates that agree on every element of `s` select the same elements. */
  lemma {:induction false} FilterCongruent<T>(s: seq<T>, f: T -> bool, g: T -> bool)
    requires forall i :: 0 <= i < |s| ==> f(s[i]) == g(s[i])
    ensures Filter(s, f) == Filter(s, g)
    decreases |s|
  {
    if |s| > 0 {
      FilterCongruent(s[1..], f, g);
    }
  }

  /** When `keep` rejects exactly the element at `k`, filtering cuts that element out. */
  lemma FilterDropsOne<T>(s: seq<T>, k: int, keep: T -> bool)
    requires 0 <= k < |s| && !keep(s[k])
    requires forall i :: 0 <= i < |s| && i != k ==> keep(s[i])
    ensures Filter(s, keep) == s[..k] + s[k + 1..]
  {
    var front, back := s[..k], s[k + 1..];
    assert Filter(s, keep) == Filter(front, keep) + Filter([s[k]] + back, keep) by {
      SplitAt(s, k);
      FilterAppend(front, [s[k]] + back, keep);
    }
    assert Filter(front, keep) == front by {
      forall i | 0 <= i < |front| ensures keep(front[i]) {
        assert front[i] == s[i];
      }
    }
    assert Filter([s[k]] + back, keep) == back by {
      FilterSkipHead(s[k], back, keep);
      forall i | 0 <= i < |back| ensures keep(back[i]) {
        assert back[i] == s[k + 1 + i];
      }
    }
  }

  /** A sequence is the part before `k`, the element at `k` and the part after it. */
  lemma SplitAt<T>(s: seq<T>, k: int)
    requires 0 <= k < |s|
    ensures s == s[..k] + ([s[k]] + s[k + 1..])
  {
  }

  /** A rejected first element is simply dropped. */
  lemma FilterSkipHead<T>(x: T, t: seq<T>, keep: T -> bool)
    requires !keep(x)
    ensures Filter([x] + t, keep) == Filter(t, keep)
  {
    var s := [x] + t;
    assert s[0] == x && s[1..] == t;
  }
}
