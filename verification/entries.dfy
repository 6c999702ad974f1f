/**
 * Go maps keyed by strings, modelled as sequences of (key, value) pairs with
 * unique keys. A lookup does not depend on the order of the pairs; the order
 * only fixes one of the iteration orders a Go `range` may produce.
 */
module Entries {
  import opened Optional

  /** No key occurs twice: the shape every Go map has. */
  predicate UniqueKeys<V>(es: seq<(string, V)>)
  {
    forall i, j :: 0 <= i < j < |es| ==> es[i].0 != es[j].0
  }

  /** `m[k]` with its `exists` result: the value stored under k, if any. */
  function Find<V>(es: seq<(string, V)>, k: string): Option<V>
  {
    if es == [] then None
    else if es[0].0 == k then Some(es[0].1)
    else Find(es[1..], k)
  }

  /** A lookup misses exactly when no pair holds the key. */
  lemma {:induction false} FindNone<V>(es: seq<(string, V)>, k: string)
    ensures Find(es, k).None? <==> forall i :: 0 <= i < |es| ==> es[i].0 != k
  {
    if es != [] && es[0].0 != k {
      FindNone(es[1..], k);
      assert forall i :: 1 <= i < |es| ==> es[i] == es[1..][i - 1];
    }
  }

  /** A lookup that hits returns a value stored under the key. */
  lemma {:induction false} FindSome<V>(es: seq<(string, V)>, k: string)
    requires Find(es, k).Some?
    ensures exists i :: 0 <= i < |es| && es[i] == (k, Find(es, k).value)
  {
    if es[0].0 != k {
      FindSome(es[1..], k);
      var i :| 0 <= i < |es[1..]| && es[1..][i] == (k, Find(es, k).value);
      assert es[i + 1] == es[1..][i];
    }
  }

  /** `m[k] = v`: replaces the value under k in place, or adds the pair at the end. */
  function Put<V>(es: seq<(string, V)>, k: string, v: V): (r: seq<(string, V)>)
    ensures Find(r, k) == Some(v)
  {
    if es == [] then [(k, v)]
    else if es[0].0 == k then [(k, v)] + es[1..]
    else
      var rest := Put(es[1..], k, v);
      assert ([es[0]] + rest)[1..] == rest;
      [es[0]] + rest
  }

  /** Put leaves every other key as it was. */
  lemma {:induction false} PutOther<V>(es: seq<(string, V)>, k: string, v: V, k': string)
    requires k' != k
    ensures Find(Put(es, k, v), k') == Find(es, k')
  {
    if es != [] && es[0].0 != k {
      PutOther(es[1..], k, v, k');
    }
  }

  /** Put keeps a Go map a map: it never introduces a second pair for a key. */
  lemma {:induction false} PutUnique<V>(es: seq<(string, V)>, k: string, v: V)
    requires UniqueKeys(es)
    ensures UniqueKeys(Put(es, k, v))
    ensures |Put(es, k, v)| == if Find(es, k).Some? then |es| else |es| + 1
  {
    if es == [] {
      return;
    }
    assert UniqueKeys(es[1..]) && forall i :: 0 <= i < |es[1..]| ==> es[1..][i].0 != es[0].0 by {
      assert forall i :: 0 <= i < |es[1..]| ==> es[1..][i] == es[i + 1];
    }
    if es[0].0 == k {
      FindNone(es[1..], k);
      ConsUnique((k, v), es[1..]);
    } else {
      PutUnique(es[1..], k, v);
      FindNone(es[1..], es[0].0);
      PutOther(es[1..], k, v, es[0].0);
      ConsUnique(es[0], Put(es[1..], k, v));
    }
  }

  /** A pair whose key the rest lacks can go in front of a map. */
  lemma ConsUnique<V>(e: (string, V), rest: seq<(string, V)>)
    requires UniqueKeys(rest) && Find(rest, e.0).None?
    ensures UniqueKeys([e] + rest)
  {
    var r := [e] + rest;
    FindNone(rest, e.0);
    forall i, j | 0 <= i < j < |r| ensures r[i].0 != r[j].0 {
      assert r[j] == rest[j - 1];
      if i > 0 {
        assert r[i] == rest[i - 1];
      }
    }
  }

  /** Writing a key twice leaves only the second value (Go's last-write-wins). */
  lemma {:induction false} PutPut<V>(es: seq<(string, V)>, k: string, a: V, b: V)
    ensures Put(Put(es, k, a), k, b) == Put(es, k, b)
  {
    if es != [] && es[0].0 != k {
      PutPut(es[1..], k, a, b);
      assert Put(es, k, a)[1..] == Put(es[1..], k, a);
    }
  }

  /** Putting a key that is absent appends it. */
  lemma {:induction false} PutNew<V>(es: seq<(string, V)>, k: string, v: V)
    requires Find(es, k).None?
    ensures Put(es, k, v) == es + [(k, v)]
  {
    if es != [] {
      assert es[0].0 != k && Find(es[1..], k).None?;
      PutNew(es[1..], k, v);
      assert [es[0]] + (es[1..] + [(k, v)]) == es + [(k, v)];
    }
  }

  /** Put holds the new pair and otherwise only pairs it was given. */
  lemma {:induction false} PutMembers<V>(es: seq<(string, V)>, k: string, v: V)
    ensures forall e :: e in Put(es, k, v) ==> e == (k, v) || e in es
  {
    if es != [] && es[0].0 != k {
      PutMembers(es[1..], k, v);
    }
  }

  /** A lookup finds the first pair holding its key. */
  lemma {:induction false} FindFirst<V>(es: seq<(string, V)>, i: int)
    requires 0 <= i < |es| && forall j :: 0 <= j < i ==> es[j].0 != es[i].0
    ensures Find(es, es[i].0) == Some(es[i].1)
  {
    if i > 0 {
      FindFirst(es[1..], i - 1);
    }
  }

  /** In a map every stored pair is found by its key. */
  lemma FindUnique<V>(es: seq<(string, V)>, i: int)
    requires UniqueKeys(es) && 0 <= i < |es|
    ensures Find(es, es[i].0) == Some(es[i].1)
  {
    FindFirst(es, i);
  }
}
