/**
 * Dictionaries filled one key/value pair at a time, the way the source's
 * index builders fill plain objects: `map[key] = value` (the last pair with
 * a key wins) and `(map[key] ||= []).push(value)` (every pair is kept, in
 * order).
 */
module KeyedFolds {

  /** `m[key]`, with a missing key read as the empty list. */
  function Lookup<V>(m: map<string, seq<V>>, key: string): seq<V> {
    if key in m then m[key] else []
  }

  /** Assigns every pair in order: `m[e.0] = e.1`. */
  function Put<V>(m: map<string, V>, es: seq<(string, V)>): map<string, V>
    decreases |es|
  {
    if es == [] then m
    else
      var e := es[|es| - 1];
      Put(m, es[..|es| - 1])[e.0 := e.1]
  }

  /** Appends every pair's value to the list under its key, in order. */
  function Push<V>(m: map<string, seq<V>>, es: seq<(string, V)>): map<string, seq<V>>
    decreases |es|
  {
    if es == [] then m
    else
      var e := es[|es| - 1];
      var p := Push(m, es[..|es| - 1]);
      p[e.0 := Lookup(p, e.0) + [e.1]]
  }

  /** The keys the pairs mention. */
  function KeysOf<V>(es: seq<(string, V)>): (ks: set<string>)
    ensures forall k :: k in ks <==> exists i :: 0 <= i < |es| && es[i].0 == k
    decreases |es|
  {
    if es == [] then {}
    else
      var ks := KeysOf(es[..|es| - 1]) + {es[|es| - 1].0};
      assert forall i :: 0 <= i < |es| - 1 ==> es[..|es| - 1][i] == es[i];
      ks
  }

  /** The values of the pairs with key `k`, in order. */
  function ValuesFor<V>(es: seq<(string, V)>, k: string): seq<V>
    decreases |es|
  {
    if es == [] then []
    else
      var e := es[|es| - 1];
      ValuesFor(es[..|es| - 1], k) + (if e.0 == k then [e.1] else [])
  }

  /** The value of the last pair with key `k`, when there is one. */
  function LastFor<V>(es: seq<(string, V)>, k: string): (v: V)
    requires k in KeysOf(es)
    ensures (k, v) in es
    decreases |es|
  {
    var e := es[|es| - 1];
    if e.0 == k then e.1
    else
      var v := LastFor(es[..|es| - 1], k);
      assert es == es[..|es| - 1] + [e];
      v
  }

  /** One more assignment. */
  lemma PutSnoc<V>(m: map<string, V>, es: seq<(string, V)>, k: string, v: V)
    ensures Put(m, es + [(k, v)]) == Put(m, es)[k := v]
  {
    assert (es + [(k, v)])[..|es|] == es;
  }

  /** One more push. */
  lemma PushSnoc<V>(m: map<string, seq<V>>, es: seq<(string, V)>, k: string, v: V)
    ensures Push(m, es + [(k, v)]) == Push(m, es)[k := Lookup(Push(m, es), k) + [v]]
  {
    assert (es + [(k, v)])[..|es|] == es;
  }

  lemma {:induction false} PutAppend<V>(m: map<string, V>, a: seq<(string, V)>, b: seq<(string, V)>)
    ensures Put(m, a + b) == Put(Put(m, a), b)
    decreases |b|
  {
    if b != [] {
      assert (a + b)[..|a + b| - 1] == a + b[..|b| - 1];
      assert (a + b)[|a + b| - 1] == b[|b| - 1];
      PutAppend(m, a, b[..|b| - 1]);
    } else {
      assert a + b == a;
    }
  }

  lemma {:induction false} PushAppend<V>(m: map<string, seq<V>>, a: seq<(string, V)>, b: seq<(string, V)>)
    ensures Push(m, a + b) == Push(Push(m, a), b)
    decreases |b|
  {
    if b != [] {
      assert (a + b)[..|a + b| - 1] == a + b[..|b| - 1];
      assert (a + b)[|a + b| - 1] == b[|b| - 1];
      PushAppend(m, a, b[..|b| - 1]);
    } else {
      assert a + b == a;
    }
  }

  lemma {:induction false} ValuesForAppend<V>(a: seq<(string, V)>, b: seq<(string, V)>, k: string)
    ensures ValuesFor(a + b, k) == ValuesFor(a, k) + ValuesFor(b, k)
    decreases |b|
  {
    if b != [] {
      assert (a + b)[..|a + b| - 1] == a + b[..|b| - 1];
      assert (a + b)[|a + b| - 1] == b[|b| - 1];
      ValuesForAppend(a, b[..|b| - 1], k);
    } else {
      assert a + b == a;
    }
  }

  /**
   * After assigning the pairs, a key is present iff it was present before
   * or some pair names it; its value is that of the last pair naming it,
   * and a key no pair names keeps its old value.
   */
  lemma {:induction false} PutLookup<V>(m: map<string, V>, es: seq<(string, V)>, k: string)
    ensures k in Put(m, es) <==> k in m || k in KeysOf(es)
    ensures k in KeysOf(es) ==> Put(m, es)[k] == LastFor(es, k)
    ensures k !in KeysOf(es) && k in m ==> Put(m, es)[k] == m[k]
    decreases |es|
  {
    if es != [] {
      PutLookup(m, es[..|es| - 1], k);
    }
  }

  /**
   * After pushing the pairs, the list under a key is its old list followed
   * by the values of the pairs naming it, in order: one element per pair.
   */
  lemma {:induction false} PushLookup<V>(m: map<string, seq<V>>, es: seq<(string, V)>, k: string)
    ensures k in Push(m, es) <==> k in m || k in KeysOf(es)
    ensures Lookup(Push(m, es), k) == Lookup(m, k) + ValuesFor(es, k)
    decreases |es|
  {
    if es != [] {
      PushLookup(m, es[..|es| - 1], k);
    }
  }

  /** A value is listed under `k` iff some pair carries it with key `k`. */
  lemma {:induction false} ValuesForMember<V>(es: seq<(string, V)>, k: string, v: V)
    ensures v in ValuesFor(es, k) <==> (k, v) in es
    decreases |es|
  {
    if es != [] {
      ValuesForMember(es[..|es| - 1], k, v);
      assert es == es[..|es| - 1] + [es[|es| - 1]];
    }
  }

  /** Assigning pairs to an empty dictionary: a key is present iff some pair names it, with a value some pair gives it. */
  lemma PutFromEmpty<V>(es: seq<(string, V)>, k: string)
    ensures k in Put(map[], es) <==> exists v :: (k, v) in es
    ensures k in Put(map[], es) ==> (k, Put(map[], es)[k]) in es
  {
    PutLookup(map[], es, k);
    if exists v :: (k, v) in es {
      var v :| (k, v) in es;
      var i :| 0 <= i < |es| && es[i] == (k, v);
      assert es[i].0 == k;
    }
  }
}
