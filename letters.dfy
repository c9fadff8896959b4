/**
 * The letter extractors: every distinct non-empty character string that a
 * component record can contribute, in the order it first appears in the
 * record's slots.
 */
module Letters {
  import opened Collections
  import opened Catalog

  /** The slots of a standard record in the order they are concatenated: Reversible, L2R, R2L. */
  function StandardPool(c: StandardComponent): seq<string> {
    c.reversible + c.l2r + c.r2l
  }

  /** The letters of a standard record: `getAllLettersFromStandardEmoticonObject`. */
  function StandardLetters(c: StandardComponent): (r: seq<string>)
    ensures "" !in r && Distinct(r)
    ensures forall x :: x in r <==> x != "" && (x in c.reversible || x in c.l2r || x in c.r2l)
    ensures FirstSeenOrder(r, StandardPool(c))
  {
    DistinctNonEmpty(StandardPool(c))
  }

  /** Both members of each declared pair, pair by pair, left before right. */
  function PairMembers(pairs: seq<Pair>): (r: seq<string>)
    ensures |r| == 2 * |pairs|
    ensures forall x :: x in r <==> exists p :: p in pairs && (x == p.left || x == p.right)
  {
    if pairs == [] then []
    else
      var init, last := pairs[..|pairs| - 1], pairs[|pairs| - 1];
      assert pairs == init + [last];
      PairMembers(init) + [last.left, last.right]
  }

  /** The list the Eastern extractor builds before filtering: Reversible, Left, Right, then the pair members. */
  function EasternPool(c: EasternComponent): seq<string>
    requires c.Sided?
  {
    c.reversible + c.left + c.right + PairMembers(c.paired)
  }

  /**
   * What `getAllLettersFromEasternEmoticonObject` returns: no empty string,
   * no repeat, first-seen order, and exactly the non-empty members of the
   * slots, both members of every declared pair included.
   */
  function EasternLetterList(c: EasternComponent): (r: seq<string>)
    requires c.Sided?
    ensures "" !in r && Distinct(r)
    ensures forall x :: x in r <==> x != "" && (x in c.reversible || x in c.left || x in c.right
                                              || exists p :: p in c.paired && (x == p.left || x == p.right))
    ensures FirstSeenOrder(r, EasternPool(c))
  {
    DistinctNonEmpty(EasternPool(c))
  }

  /** The Eastern letter extractor: the three slots, then each pair's members pushed one by one. */
  method EasternLetters(c: EasternComponent) returns (letters: seq<string>)
    requires c.Sided?
    ensures letters == EasternLetterList(c)
  {
    var letterList := c.reversible + c.left + c.right;
    for p := 0 to |c.paired|
      invariant letterList == c.reversible + c.left + c.right + PairMembers(c.paired[..p])
    {
      assert c.paired[..p + 1][..p] == c.paired[..p];
      letterList := letterList + [c.paired[p].left];
      letterList := letterList + [c.paired[p].right];
    }
    assert c.paired[..|c.paired|] == c.paired;
    letters := DistinctNonEmpty(letterList);
  }
}
