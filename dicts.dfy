/** Python dicts as the program uses them: key/value pairs kept in insertion
    order, where assigning to a key that is already present keeps its
    position and replaces its value, and assigning to a new key appends it.
    Records (documents, chunks, search results) are dicts from strings to
    `Value`s. */
module Dicts {
  import opened Common

  type Dict<K, V> = seq<(K, V)>

  /** A JSON-like Python value stored in a record. */
  datatype Value =
    | Str(s: string)
    | Int(i: int)
    | Real(r: real)
    | Null
    | Obj(fields: seq<(string, Value)>)

  type Doc = Dict<string, Value>

  /** list(d.keys()) */
  function Keys<K, V>(d: Dict<K, V>): (ks: seq<K>)
    ensures |ks| == |d|
    ensures forall i :: 0 <= i < |d| ==> ks[i] == d[i].0
  {
    seq(|d|, i requires 0 <= i < |d| => d[i].0)
  }

  /** list(d.values()) */
  function Values<K, V>(d: Dict<K, V>): (vs: seq<V>)
    ensures |vs| == |d|
    ensures forall i :: 0 <= i < |d| ==> vs[i] == d[i].1
  {
    seq(|d|, i requires 0 <= i < |d| => d[i].1)
  }

  predicate Distinct<K(==)>(ks: seq<K>)
  {
    forall i, j :: 0 <= i < j < |ks| ==> ks[i] != ks[j]
  }

  /** No key occurs twice. */
  predicate Valid<K(==), V>(d: Dict<K, V>)
  {
    Distinct(Keys(d))
  }

  /** d.get(k) */
  function Get<K(==), V>(d: Dict<K, V>, k: K): (r: Option<V>)
    ensures r.None? <==> k !in Keys(d)
    ensures r.Some? ==> exists i :: 0 <= i < |d| && d[i] == (k, r.value)
  {
    if d == [] then None
    else if d[0].0 == k then Some(d[0].1)
    else
      var r := Get(d[1..], k);
      assert Keys(d) == [d[0].0] + Keys(d[1..]);
      if r.Some? then
        ghost var i :| 0 <= i < |d[1..]| && d[1..][i] == (k, r.value);
        assert d[i + 1] == (k, r.value);
        r
      else r
  }

  /** d[k] = v */
  function Put<K(==), V>(d: Dict<K, V>, k: K, v: V): Dict<K, V>
  {
    if d == [] then [(k, v)]
    else if d[0].0 == k then [(k, v)] + d[1..]
    else [d[0]] + Put(d[1..], k, v)
  }

  /** The dict without the entry for k: `del d[k]` when k is present, and the
      comprehension {kk: vv for kk, vv in d.items() if kk != k}. */
  function Remove<K(==), V>(d: Dict<K, V>, k: K): Dict<K, V>
  {
    if d == [] then []
    else if d[0].0 == k then Remove(d[1..], k)
    else [d[0]] + Remove(d[1..], k)
  }

  /** Assigning to a new key appends the entry at the end. */
  lemma {:induction false} PutNew<K, V>(d: Dict<K, V>, k: K, v: V)
    requires k !in Keys(d)
    ensures Put(d, k, v) == d + [(k, v)]
  {
    if d != [] {
      assert Keys(d) == [d[0].0] + Keys(d[1..]);
      PutNew(d[1..], k, v);
      assert [d[0]] + (d[1..] + [(k, v)]) == d + [(k, v)];
    }
  }

  /** Assigning to a present key replaces its value where it stands. */
  lemma {:induction false} PutPresent<K, V>(d: Dict<K, V>, i: nat, v: V)
    requires Valid(d) && i < |d|
    ensures Put(d, d[i].0, v) == d[i := (d[i].0, v)]
  {
    var k := d[i].0;
    if i == 0 {
      assert [(k, v)] + d[1..] == d[0 := (k, v)];
    } else {
      assert d[0].0 != k by {
        assert Keys(d)[0] != Keys(d)[i];
      }
      TailValid(d);
      PutPresent(d[1..], i - 1, v);
      assert d[1..][i - 1] == d[i];
      assert [d[0]] + d[1..][i - 1 := (k, v)] == d[i := (k, v)];
    }
  }

  /** After d[k] = v the dict is still valid, has the same keys in the same
      order (plus k at the end if it was new), maps k to v and every other
      key to what it mapped to before. */
  lemma PutSpec<K, V>(d: Dict<K, V>, k: K, v: V)
    requires Valid(d)
    ensures Valid(Put(d, k, v))
    ensures Keys(Put(d, k, v)) == if k in Keys(d) then Keys(d) else Keys(d) + [k]
    ensures Get(Put(d, k, v), k) == Some(v)
    ensures forall k' :: k' != k ==> Get(Put(d, k, v), k') == Get(d, k')
  {
    if k in Keys(d) {
      var i :| 0 <= i < |d| && Keys(d)[i] == k;
      PutPresent(d, i, v);
      var r := d[i := (k, v)];
      assert Keys(r) == Keys(d);
      GetAt(r, i);
      forall k' | k' != k
        ensures Get(r, k') == Get(d, k')
      {
        GetUnchanged(d, i, (k, v), k');
      }
    } else {
      PutNew(d, k, v);
      var r := d + [(k, v)];
      assert Keys(r) == Keys(d) + [k];
      GetAt(r, |d|);
      forall k' | k' != k
        ensures Get(r, k') == Get(d, k')
      {
        GetSnoc(d, (k, v), k');
      }
    }
  }

  /** In a valid dict, the entry at position i is the one Get finds. */
  lemma {:induction false} GetAt<K, V>(d: Dict<K, V>, i: nat)
    requires Valid(d) && i < |d|
    ensures Get(d, d[i].0) == Some(d[i].1)
  {
    if i > 0 {
      assert Keys(d)[0] != Keys(d)[i];
      TailValid(d);
      GetAt(d[1..], i - 1);
      assert d[1..][i - 1] == d[i];
    }
  }

  lemma {:induction false} GetUnchanged<K, V>(d: Dict<K, V>, i: nat, e: (K, V), k: K)
    requires i < |d| && d[i].0 == e.0 && k != e.0
    ensures Get(d[i := e], k) == Get(d, k)
  {
    if i > 0 {
      assert d[i := e][1..] == d[1..][i - 1 := e];
      GetUnchanged(d[1..], i - 1, e, k);
    }
  }

  lemma {:induction false} GetSnoc<K, V>(d: Dict<K, V>, e: (K, V), k: K)
    requires k != e.0
    ensures Get(d + [e], k) == Get(d, k)
  {
    if d != [] {
      assert (d + [e])[1..] == d[1..] + [e];
      GetSnoc(d[1..], e, k);
    }
  }

  /** Removing a key that is absent changes nothing. */
  lemma {:induction false} RemoveAbsent<K, V>(d: Dict<K, V>, k: K)
    requires k !in Keys(d)
    ensures Remove(d, k) == d
  {
    if d != [] {
      assert Keys(d) == [d[0].0] + Keys(d[1..]);
      RemoveAbsent(d[1..], k);
    }
  }

  /** Removing a present key of a valid dict takes out exactly its entry. */
  lemma {:induction false} RemovePresent<K, V>(d: Dict<K, V>, i: nat)
    requires Valid(d) && i < |d|
    ensures Remove(d, d[i].0) == d[..i] + d[i + 1..]
  {
    var k := d[i].0;
    TailValid(d);
    if i == 0 {
      RemoveAbsent(d[1..], k);
    } else {
      assert Keys(d)[0] != Keys(d)[i];
      RemovePresent(d[1..], i - 1);
      assert d[1..][i - 1] == d[i];
      assert [d[0]] + (d[1..][..i - 1] + d[1..][i..]) == d[..i] + d[i + 1..];
    }
  }

  /** After removing k, k is absent and every other key maps to what it
      mapped to before. */
  lemma {:induction false} RemoveGet<K, V>(d: Dict<K, V>, k: K, k': K)
    ensures Get(Remove(d, k), k') == if k' == k then None else Get(d, k')
  {
    if d != [] {
      RemoveGet(d[1..], k, k');
      if d[0].0 != k {
        assert ([d[0]] + Remove(d[1..], k))[1..] == Remove(d[1..], k);
      }
    }
  }

  /** Removing a key keeps a valid dict valid. */
  lemma {:induction false} RemoveValid<K, V>(d: Dict<K, V>, k: K)
    requires Valid(d)
    ensures Valid(Remove(d, k))
  {
    if d != [] {
      TailValid(d);
      RemoveValid(d[1..], k);
      if d[0].0 != k {
        var r := Remove(d[1..], k);
        assert d[0].0 !in Keys(r) by {
          RemoveGet(d[1..], k, d[0].0);
        }
        ConsValid(d[0], r);
      }
    }
  }

  /** The entries after the first of a valid dict form a valid dict without
      the first key. */
  lemma TailValid<K, V>(d: Dict<K, V>)
    requires Valid(d) && d != []
    ensures Valid(d[1..]) && d[0].0 !in Keys(d[1..])
  {
    forall a, b | 0 <= a < b < |d[1..]|
      ensures Keys(d[1..])[a] != Keys(d[1..])[b]
    {
      assert Keys(d)[a + 1] != Keys(d)[b + 1];
    }
    forall j | 0 <= j < |d[1..]|
      ensures Keys(d[1..])[j] != d[0].0
    {
      assert Keys(d)[j + 1] != Keys(d)[0];
    }
  }

  /** An entry with a new key in front of a valid dict makes a valid dict. */
  lemma ConsValid<K, V>(e: (K, V), r: Dict<K, V>)
    requires Valid(r) && e.0 !in Keys(r)
    ensures Valid([e] + r)
  {
    assert Keys([e] + r) == [e.0] + Keys(r);
  }

  /** {**d, **e}: the entries of e assigned into d in order. */
  function Update<K(==), V>(d: Dict<K, V>, e: Dict<K, V>): Dict<K, V>
    decreases |e|
  {
    if e == [] then d else Put(Update(d, e[..|e| - 1]), e[|e| - 1].0, e[|e| - 1].1)
  }

  /** The keys of d keep their places at the front; a key of e maps to its
      value in e, any other key to its value in d. */
  lemma {:induction false} UpdateSpec<K, V>(d: Dict<K, V>, e: Dict<K, V>)
    requires Valid(d) && Valid(e)
    ensures Valid(Update(d, e))
    ensures |Keys(d)| <= |Keys(Update(d, e))| && Keys(Update(d, e))[..|Keys(d)|] == Keys(d)
    ensures forall k :: Get(Update(d, e), k) == if k in Keys(e) then Get(e, k) else Get(d, k)
    decreases |e|
  {
    if e != [] {
      var m := |e| - 1;
      var front, last := e[..m], e[m];
      assert e == front + [last];
      FrontValid(e);
      UpdateSpec(d, front);
      var u := Update(d, front);
      assert Update(d, e) == Put(u, last.0, last.1);
      PutSpec(u, last.0, last.1);
      var n := |Keys(d)|;
      assert Keys(Update(d, e))[..n] == Keys(u)[..n];
      forall k
        ensures Get(Update(d, e), k) == if k in Keys(e) then Get(e, k) else Get(d, k)
      {
        if k == last.0 {
          GetAt(e, m);
        } else {
          GetSnoc(front, last, k);
          assert k in Keys(e) <==> k in Keys(front);
        }
      }
    }
  }

  /** The entries before the last of a valid dict form a valid dict. */
  lemma FrontValid<K, V>(e: Dict<K, V>)
    requires Valid(e) && e != []
    ensures Valid(e[..|e| - 1])
  {
    var front := e[..|e| - 1];
    forall a, b | 0 <= a < b < |front|
      ensures Keys(front)[a] != Keys(front)[b]
    {
      assert Keys(e)[a] != Keys(e)[b];
    }
  }
}
