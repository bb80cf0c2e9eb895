/** Order-preserving selection from a list. */
module Seqs {
  import opened Wrappers


  /** `r` is `s` with some elements deleted and the rest kept in order. */
  predicate Subseq<T(==)>(r: seq<T>, s: seq<T>)
    decreases |s|
  {
    r == [] || (s != [] && ((r[0] == s[0] && Subseq(r[1..], s[1..])) || Subseq(r, s[1..])))
  }

  lemma {:induction false} SubseqRefl<T>(s: seq<T>)
    ensures Subseq(s, s)
    decreases |s|
  {
    if s != [] {
      SubseqRefl(s[1..]);
    }
  }

  lemma {:induction false} SubseqMembers<T>(r: seq<T>, s: seq<T>)
    requires Subseq(r, s)
    ensures |r| <= |s|
    ensures forall x :: x in r ==> x in s
    decreases |s|
  {
    if r != [] {
      if r[0] == s[0] && Subseq(r[1..], s[1..]) {
        SubseqMembers(r[1..], s[1..]);
        assert r == [r[0]] + r[1..];
        assert s == [s[0]] + s[1..];
      } else {
        SubseqMembers(r, s[1..]);
      }
    }
  }

  /** Appending to the larger list keeps a subsequence. */
  lemma {:induction false} SubseqSnoc<T>(r: seq<T>, s: seq<T>, x: T)
    requires Subseq(r, s)
    ensures Subseq(r, s + [x])
    decreases |s|
  {
    if r != [] {
      assert (s + [x])[1..] == s[1..] + [x];
      if r[0] == s[0] && Subseq(r[1..], s[1..]) {
        SubseqSnoc(r[1..], s[1..], x);
      } else {
        SubseqSnoc(r, s[1..], x);
      }
    }
  }

  /** A single element is a subsequence of any list ending with it. */
  lemma {:induction false} SubseqLast<T>(s: seq<T>, x: T)
    ensures Subseq([x], s + [x])
    decreases |s|
  {
    if s == [] {
      assert [x][1..] == [];
    } else {
      SubseqLast(s[1..], x);
      assert (s + [x])[1..] == s[1..] + [x];
    }
  }

  /** Appending the same element to both lists keeps a subsequence. */
  lemma {:induction false} SubseqSnocBoth<T>(r: seq<T>, s: seq<T>, x: T)
    requires Subseq(r, s)
    ensures Subseq(r + [x], s + [x])
    decreases |s|
  {
    if r == [] {
      SubseqLast(s, x);
      assert r + [x] == [x];
    } else {
      assert (s + [x])[1..] == s[1..] + [x];
      assert (r + [x])[1..] == r[1..] + [x];
      assert (r + [x])[0] == r[0];
      if r[0] == s[0] && Subseq(r[1..], s[1..]) {
        SubseqSnocBoth(r[1..], s[1..], x);
      } else {
        SubseqSnocBoth(r, s[1..], x);
      }
    }
  }

  /** `s.filter(keep)`: the elements satisfying `keep`, in order. */
  function Select<T>(s: seq<T>, keep: T -> bool): (r: seq<T>)
    ensures |r| <= |s|
    ensures forall i :: 0 <= i < |r| ==> keep(r[i]) && r[i] in s
    decreases |s|
  {
    if s == [] then []
    else Select(s[..|s| - 1], keep) + (if keep(s[|s| - 1]) then [s[|s| - 1]] else [])
  }

  /** `Select` only deletes: what it keeps is in the original order. */
  lemma {:induction false} SelectSubseq<T>(s: seq<T>, keep: T -> bool)
    ensures Subseq(Select(s, keep), s)
    decreases |s|
  {
    if s == [] {
      SubseqRefl(s);
    } else {
      var n := |s| - 1;
      SelectSubseq(s[..n], keep);
      assert s == s[..n] + [s[n]];
      if keep(s[n]) {
        assert Select(s, keep) == Select(s[..n], keep) + [s[n]];
        SubseqSnocBoth(Select(s[..n], keep), s[..n], s[n]);
      } else {
        assert Select(s, keep) == Select(s[..n], keep);
        SubseqSnoc(Select(s[..n], keep), s[..n], s[n]);
      }
    }
  }

  /** `Select` keeps every occurrence of a kept element and none of the others. */
  lemma {:induction false} SelectCounts<T>(s: seq<T>, keep: T -> bool, x: T)
    ensures multiset(Select(s, keep))[x] == if keep(x) then multiset(s)[x] else 0
    decreases |s|
  {
    if s != [] {
      var n := |s| - 1;
      var last := if keep(s[n]) then [s[n]] else [];
      SelectCounts(s[..n], keep, x);
      assert s == s[..n] + [s[n]];
      assert multiset(Select(s, keep)) == multiset(Select(s[..n], keep)) + multiset(last);
      assert multiset(s) == multiset(s[..n]) + multiset([s[n]]);
    }
  }

  /** A list whose every element is kept passes `Select` unchanged. */
  lemma {:induction false} SelectAll<T>(s: seq<T>, keep: T -> bool)
    requires forall i :: 0 <= i < |s| ==> keep(s[i])
    ensures Select(s, keep) == s
    decreases |s|
  {
    if s != [] {
      var n := |s| - 1;
      SelectAll(s[..n], keep);
      assert s == s[..n] + [s[n]];
    }
  }

  /** `Select` distributes over concatenation. */
  lemma {:induction false} SelectAppend<T>(a: seq<T>, b: seq<T>, keep: T -> bool)
    ensures Select(a + b, keep) == Select(a, keep) + Select(b, keep)
    decreases |b|
  {
    if b == [] {
      assert a + b == a;
    } else {
      var n := |b| - 1;
      SelectAppend(a, b[..n], keep);
      assert (a + b)[..|a + b| - 1] == a + b[..n];
    }
  }

  /** `Select` gives nothing exactly when it keeps no element. */
  lemma {:induction false} SelectEmpty<T>(s: seq<T>, keep: T -> bool)
    ensures Select(s, keep) == [] <==> forall i :: 0 <= i < |s| ==> !keep(s[i])
    decreases |s|
  {
    if s != [] {
      var n := |s| - 1;
      SelectEmpty(s[..n], keep);
      assert forall i :: 0 <= i < n ==> s[..n][i] == s[i];
    }
  }

  /**
   * `ks.forEach(k => { const x = f(k); if (x) out.push(x); })`: the
   * results of `f`, in the order of `ks`, skipping the keys without one.
   */
  function Collect<K, T>(ks: seq<K>, f: K -> Option<T>): (r: seq<T>)
    ensures |r| <= |ks|
    decreases |ks|
  {
    if ks == [] then []
    else
      var x := f(ks[|ks| - 1]);
      Collect(ks[..|ks| - 1], f) + (if x.Some? then [x.value] else [])
  }

  /** One more key: its result, if any, goes at the end. */
  lemma CollectStep<K, T>(ks: seq<K>, i: nat, f: K -> Option<T>)
    requires i < |ks|
    ensures Collect(ks[..i + 1], f) == Collect(ks[..i], f) + (if f(ks[i]).Some? then [f(ks[i]).value] else [])
  {
    assert ks[..i + 1][..i] == ks[..i];
  }

  /** `Collect` of a concatenation is the concatenation of the `Collect`s. */
  lemma {:induction false} CollectAppend<K, T>(ks1: seq<K>, ks2: seq<K>, f: K -> Option<T>)
    ensures Collect(ks1 + ks2, f) == Collect(ks1, f) + Collect(ks2, f)
    decreases |ks2|
  {
    if ks2 == [] {
      assert ks1 + ks2 == ks1;
    } else {
      var n := |ks2| - 1;
      CollectAppend(ks1, ks2[..n], f);
      assert (ks1 + ks2)[..|ks1 + ks2| - 1] == ks1 + ks2[..n];
    }
  }

  /** `Collect` holds exactly the results some key gives. */
  lemma {:induction false} CollectMembers<K, T>(ks: seq<K>, f: K -> Option<T>, x: T)
    ensures x in Collect(ks, f) <==> exists i :: 0 <= i < |ks| && f(ks[i]) == Some(x)
    decreases |ks|
  {
    if ks != [] {
      var n := |ks| - 1;
      CollectMembers(ks[..n], f, x);
      assert forall i :: 0 <= i < n ==> ks[..n][i] == ks[i];
    }
  }

  /** `s.filter((_, k) => k !== i)`: the list without position `i`, or all of it when `i` is no position. */
  function Without<T>(s: seq<T>, i: int): (r: seq<T>)
    ensures |r| == if 0 <= i < |s| then |s| - 1 else |s|
    ensures forall k :: 0 <= k < |r| ==> r[k] == s[if 0 <= i <= k then k + 1 else k]
  {
    if 0 <= i < |s| then s[..i] + s[i + 1..] else s
  }
}
