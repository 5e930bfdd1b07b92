/**
 * A JavaScript plain object with string keys, as its list of entries in insertion
 * order (the order `Object.keys`, `Object.values` and `Object.entries` report for
 * keys that are not array indices). Keys are distinct in every object the
 * application builds; `Get` reads the first entry for a key and `Put` updates it
 * in place, so both agree with JavaScript on such objects.
 */
module JsObject {
  import opened Wrappers
  import opened JsSet

  type Obj<V> = seq<(string, V)>

  /** `Object.keys(o)`. */
  function Keys<V>(o: Obj<V>): (ks: seq<string>)
    ensures |ks| == |o| && forall i :: 0 <= i < |o| ==> ks[i] == o[i].0
  {
    seq(|o|, i requires 0 <= i < |o| => o[i].0)
  }

  /** `Object.values(o)`. */
  function Values<V>(o: Obj<V>): (vs: seq<V>)
    ensures |vs| == |o| && forall i :: 0 <= i < |o| ==> vs[i] == o[i].1
  {
    seq(|o|, i requires 0 <= i < |o| => o[i].1)
  }

  predicate DistinctKeys<V>(o: Obj<V>) {
    NoDup(Keys(o))
  }

  /** `o[k]`, with `None` for a missing key. */
  function Get<V>(o: Obj<V>, k: string): (r: Option<V>)
    ensures r.Some? <==> k in Keys(o)
    ensures r.Some? ==> (k, r.value) in o
  {
    if o == [] then None
    else if o[0].0 == k then Some(o[0].1)
    else
      assert Keys(o) == [o[0].0] + Keys(o[1..]);
      Get(o[1..], k)
  }

  /** In an object with distinct keys, `Get` finds the value of any entry. */
  lemma GetEntry<V>(o: Obj<V>, i: nat)
    requires DistinctKeys(o) && i < |o|
    ensures Get(o, o[i].0) == Some(o[i].1)
  {
    if i > 0 {
      assert Keys(o)[0] != Keys(o)[i];
      assert Keys(o[1..]) == Keys(o)[1..];
      GetEntry(o[1..], i - 1);
    }
  }

  /** `o[k] = v`: an existing key keeps its place, a new key goes to the end. */
  function Put<V>(o: Obj<V>, k: string, v: V): (r: Obj<V>)
    ensures forall e :: e in r ==> e in o || e == (k, v)
  {
    if o == [] then [(k, v)]
    else if o[0].0 == k then [(k, v)] + o[1..]
    else [o[0]] + Put(o[1..], k, v)
  }

  lemma KeysCons<V>(e: (string, V), o: Obj<V>)
    ensures Keys([e] + o) == [e.0] + Keys(o)
  {
  }

  /** The keys after `o[k] = v` are those of a `Set` after `add(k)`. */
  lemma {:induction false} PutKeys<V>(o: Obj<V>, k: string, v: V)
    ensures Keys(Put(o, k, v)) == Add(Keys(o), k)
  {
    if o != [] {
      var rest := o[1..];
      assert o == [o[0]] + rest;
      KeysCons(o[0], rest);
      if o[0].0 == k {
        KeysCons((k, v), rest);
      } else {
        PutKeys(rest, k, v);
        KeysCons(o[0], Put(rest, k, v));
        AddBehindOther(o[0].0, Keys(rest), k);
      }
    }
  }

  lemma AddBehindOther(x: string, s: seq<string>, k: string)
    requires x != k
    ensures Add([x] + s, k) == [x] + Add(s, k)
  {
    if k !in s {
      assert k !in [x] + s;
    }
  }

  /** After `o[k] = v`, reading `k` gives `v` and every other key reads as before. */
  lemma {:induction false} PutGet<V>(o: Obj<V>, k: string, v: V, j: string)
    ensures Get(Put(o, k, v), j) == if j == k then Some(v) else Get(o, j)
  {
    if o != [] && o[0].0 != k {
      PutGet(o[1..], k, v, j);
    }
  }

  /** `Object.values(o).reduce((a, b) => a + b, 0)`. */
  function Sum(o: Obj<int>): int {
    if o == [] then 0 else o[0].1 + Sum(o[1..])
  }

  predicate NonNegative(o: Obj<int>) {
    forall i :: 0 <= i < |o| ==> o[i].1 >= 0
  }

  /** The sum of the values whose keys lie in `s`. */
  function SumWhere(o: Obj<int>, s: set<string>): int {
    if o == [] then 0
    else (if o[0].0 in s then o[0].1 else 0) + SumWhere(o[1..], s)
  }

  /** The sum of `o[g] || 0` over the elements `g` of `sel`, duplicates included. */
  function SumLookup(sel: seq<string>, o: Obj<int>): int {
    if sel == [] then 0
    else SumLookup(sel[..|sel| - 1], o) + Get(o, sel[|sel| - 1]).GetOr(0)
  }

  lemma {:induction false} SumWhereIgnoresAbsentKey(o: Obj<int>, s: set<string>, g: string)
    requires g !in Keys(o)
    ensures SumWhere(o, s + {g}) == SumWhere(o, s)
  {
    if o != [] {
      assert Keys(o) == [o[0].0] + Keys(o[1..]);
      SumWhereIgnoresAbsentKey(o[1..], s, g);
    }
  }

  lemma {:induction false} SumWhereInsert(o: Obj<int>, s: set<string>, g: string)
    requires DistinctKeys(o) && g !in s
    ensures SumWhere(o, s + {g}) == SumWhere(o, s) + Get(o, g).GetOr(0)
  {
    if o != [] {
      assert Keys(o) == [o[0].0] + Keys(o[1..]);
      if o[0].0 == g {
        SumWhereIgnoresAbsentKey(o[1..], s, g);
      } else {
        SumWhereInsert(o[1..], s, g);
      }
    }
  }

  /**
   * For a duplicate-free selection, looking up every selected key and adding the
   * values gives the sum of the object's values over the selected keys.
   */
  lemma {:induction false} SumLookupIsSumWhere(sel: seq<string>, o: Obj<int>)
    requires NoDup(sel) && DistinctKeys(o)
    ensures SumLookup(sel, o) == SumWhere(o, Members(sel))
  {
    if sel == [] {
      assert Members(sel) == {};
      SumWhereEmpty(o);
    } else {
      var init, last := sel[..|sel| - 1], sel[|sel| - 1];
      assert sel == init + [last];
      NoDupSnoc(init, last);
      SumLookupIsSumWhere(init, o);
      assert Members(sel) == Members(init) + {last};
      SumWhereInsert(o, Members(init), last);
    }
  }

  lemma {:induction false} SumWhereEmpty(o: Obj<int>)
    ensures SumWhere(o, {}) == 0
  {
    if o != [] {
      SumWhereEmpty(o[1..]);
    }
  }

  /** Over non-negative values, a partial sum lies between 0 and the full sum. */
  lemma {:induction false} SumWhereBounded(o: Obj<int>, s: set<string>)
    requires NonNegative(o)
    ensures 0 <= SumWhere(o, s) <= Sum(o)
  {
    if o != [] {
      SumWhereBounded(o[1..], s);
    }
  }

  /** A partial sum over a set covering every key is the full sum. */
  lemma {:induction false} SumWhereCovering(o: Obj<int>, s: set<string>)
    requires forall k :: k in Keys(o) ==> k in s
    ensures SumWhere(o, s) == Sum(o)
  {
    if o != [] {
      assert Keys(o) == [o[0].0] + Keys(o[1..]);
      SumWhereCovering(o[1..], s);
    }
  }

  /** Lookups of keys the object lacks add nothing, so filtering them out first changes no sum. */
  lemma {:induction false} SumLookupKeepIn(sel: seq<string>, o: Obj<int>)
    ensures SumLookup(KeepIn(sel, Keys(o)), o) == SumLookup(sel, o)
  {
    if sel != [] {
      var init, last := sel[..|sel| - 1], sel[|sel| - 1];
      SumLookupKeepIn(init, o);
      if last in Keys(o) {
        var k := KeepIn(init, Keys(o)) + [last];
        assert k[..|k| - 1] == KeepIn(init, Keys(o));
      }
    }
  }

  lemma {:induction false} SumSnoc(o: Obj<int>, k: string, v: int)
    ensures Sum(o + [(k, v)]) == Sum(o) + v
  {
    if o == [] {
      assert o + [(k, v)] == [(k, v)];
    } else {
      assert (o + [(k, v)])[1..] == o[1..] + [(k, v)];
      SumSnoc(o[1..], k, v);
    }
  }

  /** Writing a key the object lacks appends one entry. */
  lemma PutNewKey<V>(o: Obj<V>, k: string, v: V)
    requires k !in Keys(o)
    ensures Put(o, k, v) == o + [(k, v)]
  {
    if o != [] {
      assert Keys(o) == [o[0].0] + Keys(o[1..]);
      PutNewKey(o[1..], k, v);
      assert [o[0]] + (o[1..] + [(k, v)]) == o + [(k, v)];
    }
  }

  /** Overwriting an existing key changes the sum by the difference of the two values. */
  lemma {:induction false} PutReplaceSum(o: Obj<int>, k: string, v: int)
    requires k in Keys(o)
    ensures Sum(Put(o, k, v)) == Sum(o) - Get(o, k).value + v
  {
    assert Keys(o) == [o[0].0] + Keys(o[1..]);
    if o[0].0 != k {
      PutReplaceSum(o[1..], k, v);
    }
  }
}
