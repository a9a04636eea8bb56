/** A JavaScript `Set` of strings, as the dashboard uses it: a collection that
    ignores repeated insertions and iterates in first-insertion order. It is
    represented by the sequence `Array.from(set)` would return. */
module InsertionSet {

  /** No element occurs twice. */
  predicate NoDup(s: seq<string>) {
    forall i, j :: 0 <= i < j < |s| ==> s[i] != s[j]
  }

  /** `set.add(x)`: appends `x` unless it is already present. */
  function Add(s: seq<string>, x: string): (r: seq<string>)
    ensures x in r
    ensures forall y :: y in r <==> y in s || y == x
    ensures x in s ==> r == s
    ensures s <= r
    ensures NoDup(s) ==> NoDup(r)
  {
    assert s <= s + [x] by { assert (s + [x])[..|s|] == s; }
    if x in s then s else s + [x]
  }

  /** `Array.from(new Set(s))`: the elements of `s`, each once, inserted left to right. */
  function FromArray(s: seq<string>): (r: seq<string>)
    ensures NoDup(r)
    ensures forall x :: x in r <==> x in s
    ensures |r| <= |s|
  {
    if s == [] then [] else Add(FromArray(s[..|s| - 1]), s[|s| - 1])
  }

  /** Index of the first occurrence of `x` in `s`. */
  function FirstIndex(s: seq<string>, x: string): (k: nat)
    requires x in s
    ensures k < |s| && s[k] == x
    ensures forall j :: 0 <= j < k ==> s[j] != x
  {
    if s[0] == x then 0 else 1 + FirstIndex(s[1..], x)
  }

  /** Inserting one more element is one `add`. */
  lemma FromArraySnoc(s: seq<string>, x: string)
    ensures FromArray(s + [x]) == Add(FromArray(s), x)
  {
    assert (s + [x])[..|s|] == s;
  }

  /** A sequence that already has no duplicates passes through unchanged. */
  lemma {:induction false} FromArrayOfNoDup(s: seq<string>)
    requires NoDup(s)
    ensures FromArray(s) == s
  {
    if s != [] {
      var init := s[..|s| - 1];
      assert NoDup(init);
      FromArrayOfNoDup(init);
      assert s[|s| - 1] !in init;
      assert init + [s[|s| - 1]] == s;
    }
  }

  /** Deduplicating twice is deduplicating once. */
  lemma FromArrayIdempotent(s: seq<string>)
    ensures FromArray(FromArray(s)) == FromArray(s)
  {
    FromArrayOfNoDup(FromArray(s));
  }

  /** `set.add` for each element of `xs`, in order. */
  function AddAll(s: seq<string>, xs: seq<string>): (r: seq<string>)
    ensures s <= r
    ensures forall y :: y in r <==> y in s || y in xs
    ensures NoDup(s) ==> NoDup(r)
    decreases |xs|
  {
    if xs == [] then s
    else
      var r := AddAll(Add(s, xs[0]), xs[1..]);
      assert r[..|s|] == r[..|Add(s, xs[0])|][..|s|];
      assert forall y :: y in xs <==> y == xs[0] || y in xs[1..];
      r
  }

  /** Inserting `s` then `xs` is inserting `s`, then adding each of `xs`. */
  lemma {:induction false} FromArrayAppendAll(s: seq<string>, xs: seq<string>)
    ensures FromArray(s + xs) == AddAll(FromArray(s), xs)
    decreases |xs|
  {
    if xs == [] {
      assert s + xs == s;
    } else {
      FromArraySnoc(s, xs[0]);
      assert s + xs == (s + [xs[0]]) + xs[1..];
      FromArrayAppendAll(s + [xs[0]], xs[1..]);
    }
  }

  /** Adding elements that are all already present changes nothing. */
  lemma {:induction false} AddAllCovered(s: seq<string>, xs: seq<string>)
    requires forall x :: x in xs ==> x in s
    ensures AddAll(s, xs) == s
    decreases |xs|
  {
    if xs != [] {
      assert xs[0] in xs;
      assert forall x :: x in xs[1..] ==> x in xs;
      AddAllCovered(s, xs[1..]);
    }
  }

  /** Appending elements that are all already present changes nothing. */
  lemma FromArrayAppendCovered(s: seq<string>, t: seq<string>)
    requires forall x :: x in t ==> x in s
    ensures FromArray(s + t) == FromArray(s)
  {
    FromArrayAppendAll(s, t);
    AddAllCovered(FromArray(s), t);
  }

  /** Inserting the same sequence twice is inserting it once. */
  lemma FromArrayDoubled(s: seq<string>)
    ensures FromArray(s + s) == FromArray(s)
  {
    FromArrayAppendCovered(s, s);
  }

  /** Inserting more elements never reorders or drops what is already in the set. */
  lemma {:induction false} FromArrayPrefix(s: seq<string>, t: seq<string>)
    ensures FromArray(s) <= FromArray(s + t)
  {
    if t == [] {
      assert s + t == s;
    } else {
      var init := t[..|t| - 1];
      FromArrayPrefix(s, init);
      assert s + t == (s + init) + [t[|t| - 1]];
      FromArraySnoc(s + init, t[|t| - 1]);
    }
  }

  /** The first occurrence of an element of `s` is unaffected by what follows `s`. */
  lemma {:induction false} FirstIndexPrefix(s: seq<string>, t: seq<string>, x: string)
    requires x in s
    ensures FirstIndex(s + t, x) == FirstIndex(s, x)
  {
    if s[0] != x {
      assert (s + t)[1..] == s[1..] + t;
      FirstIndexPrefix(s[1..], t, x);
    }
  }

  /** First-occurrence order: the elements of `Array.from(new Set(s))` appear in
      the order in which they first occur in `s`. */
  lemma {:induction false} FromArrayFirstOccurrenceOrder(s: seq<string>, i: nat, j: nat)
    requires i < j < |FromArray(s)|
    ensures FirstIndex(s, FromArray(s)[i]) < FirstIndex(s, FromArray(s)[j])
  {
    var init := s[..|s| - 1];
    var last := s[|s| - 1];
    assert s == init + [last];
    var d := FromArray(init);
    if last in d {
      assert FromArray(s) == d;
      FromArrayFirstOccurrenceOrder(init, i, j);
      FirstIndexPrefix(init, [last], d[i]);
      FirstIndexPrefix(init, [last], d[j]);
    } else {
      assert FromArray(s) == d + [last];
      FirstIndexPrefix(init, [last], d[i]);
      if j < |d| {
        FromArrayFirstOccurrenceOrder(init, i, j);
        FirstIndexPrefix(init, [last], d[j]);
      } else {
        assert FromArray(s)[j] == last;
        assert last !in init;
        assert FirstIndex(s, last) == |s| - 1;
      }
    }
  }
}
