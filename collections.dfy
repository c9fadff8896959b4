/**
 * Sequence helpers shared by the generator: an optional value, the
 * "drop empty strings" filter, first-occurrence search and the
 * order-keeping de-duplication that spreading a JavaScript `Set` performs.
 */
module Collections {

  /** An optional value: `None` stands for a lookup that found nothing. */
  datatype Option<T> = None | Some(value: T)

  /** No element occurs twice. */
  predicate Distinct<T(==,!new)>(s: seq<T>) {
    forall i, j :: 0 <= i < j < |s| ==> s[i] != s[j]
  }

  /** Keeps the strings of `s` whose length is positive, in their order. */
  function NonEmpty(s: seq<string>): (r: seq<string>)
    ensures "" !in r
    ensures forall x :: x in r <==> x in s && x != ""
    ensures |r| <= |s|
  {
    if s == [] then []
    else (if |s[0]| > 0 then [s[0]] else []) + NonEmpty(s[1..])
  }

  /** The position of the first occurrence of `x` in `s`. */
  function IndexOf<T(==)>(s: seq<T>, x: T): (k: nat)
    requires x in s
    ensures k < |s| && s[k] == x && x !in s[..k]
  {
    if s[0] == x then 0
    else
      assert s[1..][..IndexOf(s[1..], x)] == s[1..1 + IndexOf(s[1..], x)];
      1 + IndexOf(s[1..], x)
  }

  /** A first occurrence is the only one `IndexOf` can return. */
  lemma IndexOfUnique<T>(s: seq<T>, x: T, k: nat)
    requires k < |s| && s[k] == x && x !in s[..k]
    ensures IndexOf(s, x) == k
  {
  }

  /**
   * Removes repeated elements, keeping the first occurrence of each:
   * the value of `[...new Set(s)]`.
   */
  function Dedup<T(==,!new)>(s: seq<T>): (r: seq<T>)
    ensures Distinct(r)
    ensures forall x :: x in r <==> x in s
    ensures |r| <= |s|
  {
    if s == [] then []
    else
      var init, last := s[..|s| - 1], s[|s| - 1];
      assert s == init + [last];
      var d := Dedup(init);
      if last in d then d else d + [last]
  }

  /** Extending the sequence does not move an element's first occurrence. */
  lemma IndexOfExtend<T>(s: seq<T>, y: T, x: T)
    requires x in s
    ensures IndexOf(s + [y], x) == IndexOf(s, x)
  {
    var k := IndexOf(s, x);
    assert (s + [y])[..k] == s[..k];
    IndexOfUnique(s + [y], x, k);
  }

  /**
   * The de-duplicated sequence lists the elements in the order of their
   * first occurrence in the input.
   */
  lemma {:induction false} DedupFirstSeenOrder<T(!new)>(s: seq<T>)
    ensures forall i, j :: 0 <= i < j < |Dedup(s)| ==>
      IndexOf(s, Dedup(s)[i]) < IndexOf(s, Dedup(s)[j])
  {
    if s != [] {
      var init, last := s[..|s| - 1], s[|s| - 1];
      assert s == init + [last];
      DedupFirstSeenOrder(init);
      var d := Dedup(init);
      forall x | x in d ensures IndexOf(s, x) == IndexOf(init, x) {
        IndexOfExtend(init, last, x);
      }
      if last !in d {
        assert s[..|init|] == init;
        IndexOfUnique(s, last, |init|);
      }
    }
  }

  /** Every element of `r` occurs in `s`, and `r` lists them in the order of their first occurrence in `s`. */
  predicate FirstSeenOrder<T(==)>(r: seq<T>, s: seq<T>) {
    forall i, j :: 0 <= i < j < |r| ==> r[i] in s && r[j] in s && IndexOf(s, r[i]) < IndexOf(s, r[j])
  }

  /** Dropping the empty strings keeps the order of first occurrences of the others. */
  lemma {:induction false} IndexOfNonEmpty(s: seq<string>, x: string, y: string)
    requires x in s && y in s && x != "" && y != ""
    ensures x in NonEmpty(s) && y in NonEmpty(s)
    ensures IndexOf(NonEmpty(s), x) < IndexOf(NonEmpty(s), y) <==> IndexOf(s, x) < IndexOf(s, y)
  {
    var t := NonEmpty(s[1..]);
    if s[0] != x && s[0] != y {
      IndexOfNonEmpty(s[1..], x, y);
      var head := if |s[0]| > 0 then [s[0]] else [];
      assert NonEmpty(s) == head + t;
      IndexOfAfter(head, t, x);
      IndexOfAfter(head, t, y);
    }
  }

  /** Searching past a prefix that does not hold `x`. */
  lemma IndexOfAfter<T>(head: seq<T>, t: seq<T>, x: T)
    requires x !in head && x in t
    ensures IndexOf(head + t, x) == |head| + IndexOf(t, x)
  {
    var k := IndexOf(t, x);
    assert (head + t)[..|head| + k] == head + t[..k];
    IndexOfUnique(head + t, x, |head| + k);
  }

  /**
   * The distinct non-empty strings of `s`, in the order of their first
   * occurrence: the value of `[...new Set(s.filter(x => x.length > 0))]`.
   */
  function DistinctNonEmpty(s: seq<string>): (r: seq<string>)
    ensures "" !in r && Distinct(r)
    ensures forall x :: x in r <==> x in s && x != ""
    ensures FirstSeenOrder(r, s)
  {
    var t := NonEmpty(s);
    DedupFirstSeenOrder(t);
    var r := Dedup(t);
    assert forall i :: 0 <= i < |r| ==> r[i] in t;
    forall i, j | 0 <= i < j < |r|
      ensures r[i] in s && r[j] in s && IndexOf(s, r[i]) < IndexOf(s, r[j])
    {
      IndexOfNonEmpty(s, r[i], r[j]);
    }
    r
  }

  /** Concatenation is associative. */
  lemma AppendAssoc<T>(a: seq<T>, b: seq<T>, c: seq<T>)
    ensures (a + b) + c == a + (b + c)
  {
  }

  /** Appending a new element keeps a sequence free of repeats. */
  lemma DistinctAppend<T(!new)>(s: seq<T>, x: T)
    requires Distinct(s) && x !in s
    ensures Distinct(s + [x])
  {
    var r := s + [x];
    forall i, j | 0 <= i < j < |r| ensures r[i] != r[j] {
      if j == |s| {
        assert r[i] == s[i];
      }
    }
  }
}
