/**
 * The aggregator: the exceptional emoticons, the standard ones read left
 * to right, the standard ones read right to left and the Eastern ones,
 * concatenated and sorted.  Nothing is de-duplicated.
 */
module Aggregate {
  import opened Collections
  import opened Catalog
  import opened StringOrder
  import Standard
  import Eastern

  lemma StandardRecordsAreKnown()
    ensures StandardObject("brows").Some? && StandardObject("eyes").Some?
    ensures StandardObject("nose").Some? && StandardObject("mouth").Some?
  {
    KeyOfLowerCaseName("brows");
    KeyOfLowerCaseName("eyes");
    KeyOfLowerCaseName("nose");
    KeyOfLowerCaseName("mouth");
  }

  /** The shipped side record has no loose side characters, so the side-pairing loop never runs. */
  lemma EasternRecordsAreKnown()
    ensures EasternObject("sides").Some? && EasternObject("sides").value.Sided?
    ensures EasternObject("eyes").Some? && EasternObject("eyes").value.Sided?
    ensures EasternObject("mouth").Some?
    ensures !Eastern.SideExpansionFails(EasternObject("sides").value)
  {
    KeyOfLowerCaseName("sides");
    KeyOfLowerCaseName("eyes");
    KeyOfLowerCaseName("mouth");
  }

  /** The standard emoticons of the shipped catalog in one orientation. */
  function ShippedStandard(isL2R: bool): seq<string> {
    StandardRecordsAreKnown();
    Standard.StandardEmoticons(StandardObject("brows").value, StandardObject("eyes").value,
                               StandardObject("nose").value, StandardObject("mouth").value, isL2R)
  }

  /** The Eastern emoticons of the shipped catalog. */
  function ShippedEastern(): seq<string> {
    EasternRecordsAreKnown();
    Eastern.EasternEmoticons(EasternObject("sides").value, EasternObject("eyes").value,
                             EasternObject("mouth").value).value
  }

  /** The four lists in the order `generateAllEmoticons` concatenates them. */
  function Unsorted(): seq<string> {
    EmoticonExceptions() + ShippedStandard(true) + ShippedStandard(false) + ShippedEastern()
  }

  /**
   * What `generateAllEmoticons` returns: sorted ascending, a rearrangement
   * of the four lists (so every emoticon is kept, repeats included, and the
   * length is the sum of theirs), "<3" among them.
   */
  function AllEmoticons(): (r: seq<string>)
    ensures Sorted(r)
    ensures multiset(r) == multiset(Unsorted())
    ensures |r| == |EmoticonExceptions()| + |ShippedStandard(true)| + |ShippedStandard(false)| + |ShippedEastern()|
    ensures "<3" in r
  {
    var all := Unsorted();
    assert "<3" in multiset(all);
    Sort(all)
  }

  /** Builds the complete emoticon list from the catalog. */
  method GenerateAllEmoticons() returns (r: seq<string>)
    ensures r == AllEmoticons()
  {
    StandardRecordsAreKnown();
    EasternRecordsAreKnown();
    var brows, eyes := StandardObject("brows").value, StandardObject("eyes").value;
    var nose, mouth := StandardObject("nose").value, StandardObject("mouth").value;
    var l2r := Standard.GenerateStandard(brows, eyes, nose, mouth, true);
    var r2l := Standard.GenerateStandard(brows, eyes, nose, mouth, false);
    var eastern := Eastern.GenerateEastern(EasternObject("sides").value, EasternObject("eyes").value,
                                           EasternObject("mouth").value);
    r := Sort(EmoticonExceptions() + l2r + r2l + eastern.value);
  }
}
