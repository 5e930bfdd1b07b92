/**
 * A JavaScript `Set` of strings, as the sequence of its members in insertion order,
 * together with the array operations the application applies to such sequences.
 */
module JsSet {

  /** No member occurs twice: what every `Set` guarantees. */
  predicate NoDup(s: seq<string>) {
    forall i, j :: 0 <= i < j < |s| ==> s[i] != s[j]
  }

  /** Appending keeps a sequence duplicate-free exactly when the new element is fresh. */
  lemma NoDupSnoc(s: seq<string>, x: string)
    ensures NoDup(s + [x]) <==> NoDup(s) && x !in s
  {
    if NoDup(s + [x]) {
      assert forall i :: 0 <= i < |s| ==> (s + [x])[i] == s[i];
      forall i | 0 <= i < |s|
        ensures s[i] != x
      {
        assert (s + [x])[i] == s[i] && (s + [x])[|s|] == x;
      }
    }
  }

  /** The members of a sequence, forgetting order and multiplicity. */
  function Members(s: seq<string>): set<string> {
    set x | x in s
  }

  /** `set.add(x)`: a new member goes to the end; an existing one stays where it is. */
  function Add(s: seq<string>, x: string): (r: seq<string>)
    ensures forall y :: y in r <==> y in s || y == x
    ensures NoDup(s) ==> NoDup(r)
    ensures |s| <= |r| && r[..|s|] == s
  {
    if x in s then s else NoDupSnoc(s, x); s + [x]
  }

  /** `set.delete(x)`: the other members keep their order. */
  function Delete(s: seq<string>, x: string): (r: seq<string>)
    ensures forall y :: y in r <==> y in s && y != x
    ensures NoDup(s) ==> NoDup(r)
    ensures |r| <= |s|
  {
    if s == [] then []
    else
      var init, last := s[..|s| - 1], s[|s| - 1];
      assert s == init + [last];
      NoDupSnoc(init, last);
      var rest := Delete(init, x);
      if last == x then rest
      else NoDupSnoc(rest, last); rest + [last]
  }

  /** Deleting keeps the order of the other members: it distributes over concatenation. */
  lemma {:induction false} DeleteAppend(a: seq<string>, b: seq<string>, x: string)
    ensures Delete(a + b, x) == Delete(a, x) + Delete(b, x)
  {
    if b == [] {
      assert a + b == a;
    } else {
      var init, last := b[..|b| - 1], b[|b| - 1];
      assert a + b == (a + init) + [last];
      DeleteAppend(a, init, x);
    }
  }

  /** `new Set(array)`: the first occurrence of every element, in array order. */
  function FromArray(a: seq<string>): (r: seq<string>)
    ensures NoDup(r)
    ensures forall y :: y in r <==> y in a
    ensures NoDup(a) ==> r == a
  {
    if a == [] then []
    else
      var init, last := a[..|a| - 1], a[|a| - 1];
      assert a == init + [last];
      NoDupSnoc(init, last);
      Add(FromArray(init), last)
  }

  /** `array.filter(g => keys.includes(g))`. */
  function KeepIn(s: seq<string>, keys: seq<string>): (r: seq<string>)
    ensures forall y :: y in r <==> y in s && y in keys
    ensures NoDup(s) ==> NoDup(r)
  {
    if s == [] then []
    else
      var init, last := s[..|s| - 1], s[|s| - 1];
      assert s == init + [last];
      NoDupSnoc(init, last);
      var rest := KeepIn(init, keys);
      if last in keys then NoDupSnoc(rest, last); rest + [last]
      else rest
  }

  /** Filtering keeps the order of the kept elements: it distributes over concatenation. */
  lemma {:induction false} KeepInAppend(a: seq<string>, b: seq<string>, keys: seq<string>)
    ensures KeepIn(a + b, keys) == KeepIn(a, keys) + KeepIn(b, keys)
  {
    if b == [] {
      assert a + b == a;
    } else {
      var init, last := b[..|b| - 1], b[|b| - 1];
      assert a + b == (a + init) + [last];
      KeepInAppend(a, init, keys);
    }
  }

  /** Filtering by keys none of the elements has leaves nothing. */
  lemma {:induction false} KeepInDisjoint(s: seq<string>, keys: seq<string>)
    requires forall g :: g in s ==> g !in keys
    ensures KeepIn(s, keys) == []
  {
    if s != [] {
      KeepInDisjoint(s[..|s| - 1], keys);
    }
  }

  /** Building a `Set` from a longer array adds the extra element last. */
  lemma FromArraySnoc(a: seq<string>, x: string)
    ensures FromArray(a + [x]) == Add(FromArray(a), x)
  {
    assert (a + [x])[..|a|] == a;
  }
}
