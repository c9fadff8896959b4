/**
 * The Eastern (horizontal) emoticon generator: side, left eye, mouth,
 * right eye, side, as in "(^_^)".
 *
 * For every declared side pair the generator makes two passes.  The
 * independent pass takes every left eye, every right eye and every mouth;
 * the paired pass takes the declared eye pairs, each with every mouth.
 * Before that, a loop meant to pair up the loose side characters fails
 * as soon as it would add a pair, so the generator as written only ever
 * works when one of the two side lists is empty.
 */
module Eastern {
  import opened Collections
  import opened Catalog

  /** Eye characters usable on the left: the reversible ones, then the left-only ones. */
  function EyesL(eyes: EasternComponent): seq<string>
    requires eyes.Sided?
  {
    eyes.reversible + eyes.left
  }

  /** Eye characters usable on the right: the reversible ones, then the right-only ones. */
  function EyesR(eyes: EasternComponent): seq<string>
    requires eyes.Sided?
  {
    eyes.reversible + eyes.right
  }

  /**
   * The side-pairing loop runs over every left side character and, inside,
   * every right side character; its body adds to a slot that a list does not
   * have, so the first time the body runs the generator fails.  The body
   * runs exactly when both lists are non-empty.
   */
  predicate SideExpansionFails(sides: EasternComponent)
    requires sides.Sided?
  {
    |sides.reversible + sides.left| > 0 && |sides.reversible + sides.right| > 0
  }

  /** One Eastern emoticon: side, left eye, mouth, right eye, side. */
  function Face(side: Pair, eyeL: string, mouth: string, eyeR: string): string {
    side.left + eyeL + mouth + eyeR + side.right
  }

  /**
   * The right-eye test as written: it looks at position `j` of the LEFT eye
   * list, and passes when `j` is past the end of that list (an absent element
   * differs from every mouth).
   */
  predicate RightEyeProbe(eyesL: seq<string>, j: nat, mouth: string) {
    j < |eyesL| ==> eyesL[j] != mouth
  }

  // ---------------------------------------------------------------------
  // The independent pass, loop by loop.
  // ---------------------------------------------------------------------

  /** What one mouth contributes for a fixed side, left eye and right-eye position `j`. */
  function IndependentEmitted(side: Pair, eyeL: string, eyesL: seq<string>, eyesR: seq<string>, j: nat, mouth: string)
    : seq<string>
    requires j < |eyesR|
  {
    if eyeL != mouth && RightEyeProbe(eyesL, j, mouth) then [Face(side, eyeL, mouth, eyesR[j])] else []
  }

  /** The innermost loop: the mouths in order. */
  function MouthRun(side: Pair, eyeL: string, eyesL: seq<string>, eyesR: seq<string>, j: nat, mouths: seq<string>)
    : seq<string>
    requires j < |eyesR|
  {
    if mouths == [] then []
    else MouthRun(side, eyeL, eyesL, eyesR, j, mouths[..|mouths| - 1])
         + IndependentEmitted(side, eyeL, eyesL, eyesR, j, mouths[|mouths| - 1])
  }

  /** The right-eye loop over the first `k` positions of the right eye list. */
  function RightRun(side: Pair, eyeL: string, eyesL: seq<string>, eyesR: seq<string>, k: nat, mouths: seq<string>)
    : seq<string>
    requires k <= |eyesR|
  {
    if k == 0 then []
    else RightRun(side, eyeL, eyesL, eyesR, k - 1, mouths) + MouthRun(side, eyeL, eyesL, eyesR, k - 1, mouths)
  }

  /** The left-eye loop over the left eyes `lefts` (a prefix of `eyesL`). */
  function LeftRun(side: Pair, lefts: seq<string>, eyesL: seq<string>, eyesR: seq<string>, mouths: seq<string>)
    : seq<string>
  {
    if lefts == [] then []
    else LeftRun(side, lefts[..|lefts| - 1], eyesL, eyesR, mouths)
         + RightRun(side, lefts[|lefts| - 1], eyesL, eyesR, |eyesR|, mouths)
  }

  // ---------------------------------------------------------------------
  // The paired pass, loop by loop.
  // ---------------------------------------------------------------------

  /** What one mouth contributes for a fixed side and declared eye pair. */
  function PairedEmitted(side: Pair, eyes: Pair, mouth: string): seq<string> {
    if eyes.left != mouth && eyes.right != mouth then [Face(side, eyes.left, mouth, eyes.right)] else []
  }

  function PairMouthRun(side: Pair, eyes: Pair, mouths: seq<string>): seq<string> {
    if mouths == [] then []
    else PairMouthRun(side, eyes, mouths[..|mouths| - 1]) + PairedEmitted(side, eyes, mouths[|mouths| - 1])
  }

  function PairRun(side: Pair, pairs: seq<Pair>, mouths: seq<string>): seq<string> {
    if pairs == [] then []
    else PairRun(side, pairs[..|pairs| - 1], mouths) + PairMouthRun(side, pairs[|pairs| - 1], mouths)
  }

  /** Everything one side pair contributes: the independent pass, then the paired pass. */
  function SideBlock(side: Pair, eyesL: seq<string>, eyesR: seq<string>, pairs: seq<Pair>, mouths: seq<string>)
    : seq<string>
  {
    LeftRun(side, eyesL, eyesL, eyesR, mouths) + PairRun(side, pairs, mouths)
  }

  /** The side loop over the side pairs `sides`. */
  function SideRun(sides: seq<Pair>, eyesL: seq<string>, eyesR: seq<string>, pairs: seq<Pair>, mouths: seq<string>)
    : seq<string>
  {
    if sides == [] then []
    else SideRun(sides[..|sides| - 1], eyesL, eyesR, pairs, mouths)
         + SideBlock(sides[|sides| - 1], eyesL, eyesR, pairs, mouths)
  }

  /**
   * What `generateEasternEmoticons` produces for the three records: nothing
   * (it fails) when the side-pairing loop would run, the side-by-side passes
   * otherwise.
   */
  function EasternEmoticons(sidesObj: EasternComponent, eyesObj: EasternComponent, mouthObj: EasternComponent)
    : Option<seq<string>>
    requires sidesObj.Sided? && eyesObj.Sided?
  {
    if SideExpansionFails(sidesObj) then None
    else Some(SideRun(sidesObj.paired, EyesL(eyesObj), EyesR(eyesObj), eyesObj.paired, mouthObj.reversible))
  }

  // ---------------------------------------------------------------------
  // What the passes produce.
  // ---------------------------------------------------------------------

  /**
   * `x` is the face the independent pass writes for left eye `eyeL`,
   * right-eye position `j` and `mouth`, both tests passed.
   */
  predicate IndependentHit(side: Pair, eyeL: string, eyesL: seq<string>, eyesR: seq<string>, j: nat, mouth: string,
                           x: string) {
    j < |eyesR| && eyeL != mouth && RightEyeProbe(eyesL, j, mouth) && x == Face(side, eyeL, mouth, eyesR[j])
  }

  /** A face of the independent pass: any left eye, any right-eye position, any mouth, both tests passed. */
  ghost predicate IndependentFace(side: Pair, eyesL: seq<string>, eyesR: seq<string>, mouths: seq<string>, x: string) {
    exists eyeL, j: nat, mouth :: eyeL in eyesL && mouth in mouths && IndependentHit(side, eyeL, eyesL, eyesR, j, mouth, x)
  }

  /** A face of the paired pass: both eyes from the same declared pair, neither equal to the mouth. */
  ghost predicate PairedFace(side: Pair, pairs: seq<Pair>, mouths: seq<string>, x: string) {
    exists eyes, mouth :: eyes in pairs && mouth in mouths
      && eyes.left != mouth && eyes.right != mouth && x == Face(side, eyes.left, mouth, eyes.right)
  }

  lemma {:induction false} MouthRunMember(side: Pair, eyeL: string, eyesL: seq<string>, eyesR: seq<string>, j: nat,
                                          mouths: seq<string>, x: string)
    requires j < |eyesR|
    ensures x in MouthRun(side, eyeL, eyesL, eyesR, j, mouths) <==>
      exists mouth :: mouth in mouths && IndependentHit(side, eyeL, eyesL, eyesR, j, mouth, x)
  {
    if mouths != [] {
      var init, last := mouths[..|mouths| - 1], mouths[|mouths| - 1];
      MouthRunMember(side, eyeL, eyesL, eyesR, j, init, x);
      assert mouths == init + [last];
      assert x in IndependentEmitted(side, eyeL, eyesL, eyesR, j, last) <==> IndependentHit(side, eyeL, eyesL, eyesR, j, last, x);
    }
  }

  /** A face of the right-eye loop comes from some position before `k` and some mouth. */
  lemma {:induction false} RightRunWitness(side: Pair, eyeL: string, eyesL: seq<string>, eyesR: seq<string>, k: nat,
                                           mouths: seq<string>, x: string)
    returns (j: nat, mouth: string)
    requires k <= |eyesR| && x in RightRun(side, eyeL, eyesL, eyesR, k, mouths)
    ensures j < k && mouth in mouths && IndependentHit(side, eyeL, eyesL, eyesR, j, mouth, x)
  {
    if x in RightRun(side, eyeL, eyesL, eyesR, k - 1, mouths) {
      j, mouth := RightRunWitness(side, eyeL, eyesL, eyesR, k - 1, mouths, x);
    } else {
      MouthRunMember(side, eyeL, eyesL, eyesR, k - 1, mouths, x);
      j := k - 1;
      mouth :| mouth in mouths && IndependentHit(side, eyeL, eyesL, eyesR, j, mouth, x);
    }
  }

  /** Every face from a position before `k` and a mouth is written by the right-eye loop. */
  lemma {:induction false} RightRunHas(side: Pair, eyeL: string, eyesL: seq<string>, eyesR: seq<string>, k: nat,
                                       mouths: seq<string>, x: string, j: nat, mouth: string)
    requires k <= |eyesR| && j < k && mouth in mouths && IndependentHit(side, eyeL, eyesL, eyesR, j, mouth, x)
    ensures x in RightRun(side, eyeL, eyesL, eyesR, k, mouths)
  {
    assert RightRun(side, eyeL, eyesL, eyesR, k, mouths)
      == RightRun(side, eyeL, eyesL, eyesR, k - 1, mouths) + MouthRun(side, eyeL, eyesL, eyesR, k - 1, mouths);
    if j < k - 1 {
      RightRunHas(side, eyeL, eyesL, eyesR, k - 1, mouths, x, j, mouth);
    } else {
      MouthRunMember(side, eyeL, eyesL, eyesR, j, mouths, x);
    }
  }

  lemma RightRunMember(side: Pair, eyeL: string, eyesL: seq<string>, eyesR: seq<string>, k: nat,
                       mouths: seq<string>, x: string)
    requires k <= |eyesR|
    ensures x in RightRun(side, eyeL, eyesL, eyesR, k, mouths) <==>
      exists j: nat, mouth :: j < k && mouth in mouths && IndependentHit(side, eyeL, eyesL, eyesR, j, mouth, x)
  {
    if x in RightRun(side, eyeL, eyesL, eyesR, k, mouths) {
      var j, mouth := RightRunWitness(side, eyeL, eyesL, eyesR, k, mouths, x);
    }
    if exists j: nat, mouth :: j < k && mouth in mouths && IndependentHit(side, eyeL, eyesL, eyesR, j, mouth, x) {
      var j: nat, mouth :| j < k && mouth in mouths && IndependentHit(side, eyeL, eyesL, eyesR, j, mouth, x);
      RightRunHas(side, eyeL, eyesL, eyesR, k, mouths, x, j, mouth);
    }
  }

  /** A face of the left-eye loop comes from some left eye of `lefts`, position and mouth. */
  lemma {:induction false} LeftRunWitness(side: Pair, lefts: seq<string>, eyesL: seq<string>, eyesR: seq<string>,
                                          mouths: seq<string>, x: string)
    returns (eyeL: string, j: nat, mouth: string)
    requires x in LeftRun(side, lefts, eyesL, eyesR, mouths)
    ensures eyeL in lefts && mouth in mouths && IndependentHit(side, eyeL, eyesL, eyesR, j, mouth, x)
  {
    var init, last := lefts[..|lefts| - 1], lefts[|lefts| - 1];
    assert lefts == init + [last];
    if x in LeftRun(side, init, eyesL, eyesR, mouths) {
      eyeL, j, mouth := LeftRunWitness(side, init, eyesL, eyesR, mouths, x);
    } else {
      eyeL := last;
      j, mouth := RightRunWitness(side, last, eyesL, eyesR, |eyesR|, mouths, x);
    }
  }

  /** Every face from a left eye of `lefts`, a position and a mouth is written by the left-eye loop. */
  lemma {:induction false} LeftRunHas(side: Pair, lefts: seq<string>, eyesL: seq<string>, eyesR: seq<string>,
                                      mouths: seq<string>, x: string, eyeL: string, j: nat, mouth: string)
    requires eyeL in lefts && mouth in mouths && IndependentHit(side, eyeL, eyesL, eyesR, j, mouth, x)
    ensures x in LeftRun(side, lefts, eyesL, eyesR, mouths)
  {
    var init, last := lefts[..|lefts| - 1], lefts[|lefts| - 1];
    assert lefts == init + [last];
    if eyeL in init {
      LeftRunHas(side, init, eyesL, eyesR, mouths, x, eyeL, j, mouth);
    } else {
      RightRunHas(side, last, eyesL, eyesR, |eyesR|, mouths, x, j, mouth);
    }
  }

  lemma LeftRunMember(side: Pair, lefts: seq<string>, eyesL: seq<string>, eyesR: seq<string>,
                      mouths: seq<string>, x: string)
    ensures x in LeftRun(side, lefts, eyesL, eyesR, mouths) <==>
      exists eyeL, j: nat, mouth :: eyeL in lefts && mouth in mouths && IndependentHit(side, eyeL, eyesL, eyesR, j, mouth, x)
  {
    if x in LeftRun(side, lefts, eyesL, eyesR, mouths) {
      var eyeL, j, mouth := LeftRunWitness(side, lefts, eyesL, eyesR, mouths, x);
    }
    if exists eyeL, j: nat, mouth :: eyeL in lefts && mouth in mouths && IndependentHit(side, eyeL, eyesL, eyesR, j, mouth, x) {
      var eyeL, j: nat, mouth :| eyeL in lefts && mouth in mouths && IndependentHit(side, eyeL, eyesL, eyesR, j, mouth, x);
      LeftRunHas(side, lefts, eyesL, eyesR, mouths, x, eyeL, j, mouth);
    }
  }

  lemma {:induction false} PairMouthRunMember(side: Pair, eyes: Pair, mouths: seq<string>, x: string)
    ensures x in PairMouthRun(side, eyes, mouths) <==>
      exists mouth :: mouth in mouths && eyes.left != mouth && eyes.right != mouth
        && x == Face(side, eyes.left, mouth, eyes.right)
  {
    if mouths != [] {
      var init := mouths[..|mouths| - 1];
      PairMouthRunMember(side, eyes, init, x);
      assert mouths == init + [mouths[|mouths| - 1]];
    }
  }

  lemma {:induction false} PairRunMember(side: Pair, pairs: seq<Pair>, mouths: seq<string>, x: string)
    ensures x in PairRun(side, pairs, mouths) <==> PairedFace(side, pairs, mouths, x)
  {
    if pairs != [] {
      var init, last := pairs[..|pairs| - 1], pairs[|pairs| - 1];
      PairRunMember(side, init, mouths, x);
      PairMouthRunMember(side, last, mouths, x);
      assert pairs == init + [last];
    }
  }

  /**
   * Shape and filter of the whole output: a string is produced exactly when,
   * for some declared side pair, it is a face of the independent pass or a
   * face of the paired pass.  Eye pairs are never crossed: a paired face
   * takes both eyes from one declared pair.
   */
  lemma {:induction false} SideRunMember(sides: seq<Pair>, eyesL: seq<string>, eyesR: seq<string>, pairs: seq<Pair>,
                                         mouths: seq<string>, x: string)
    ensures x in SideRun(sides, eyesL, eyesR, pairs, mouths) <==>
      exists side :: side in sides
        && (IndependentFace(side, eyesL, eyesR, mouths, x) || PairedFace(side, pairs, mouths, x))
  {
    if sides != [] {
      var init, last := sides[..|sides| - 1], sides[|sides| - 1];
      SideRunMember(init, eyesL, eyesR, pairs, mouths, x);
      LeftRunMember(last, eyesL, eyesL, eyesR, mouths, x);
      PairRunMember(last, pairs, mouths, x);
      assert sides == init + [last];
    }
  }

  // ---------------------------------------------------------------------
  // The right-eye test as written and the one the comment describes.
  // ---------------------------------------------------------------------

  /**
   * With the shipped eye and mouth records the test as written agrees with
   * comparing the right eye itself: the two eye lists share their reversible
   * prefix and the one-sided eyes ">" and "<" are not mouths.
   */
  lemma ShippedProbeIsRightEyeTest(j: nat, mouth: string)
    ensures EasternObject("eyes").Some? && EasternObject("eyes").value.Sided? && EasternObject("mouth").Some?
    ensures var eyes := EasternObject("eyes").value;
      j < |EyesR(eyes)| && mouth in EasternObject("mouth").value.reversible ==>
        (RightEyeProbe(EyesL(eyes), j, mouth) <==> EyesR(eyes)[j] != mouth)
  {
    KeyOfLowerCaseName("eyes");
    KeyOfLowerCaseName("mouth");
  }

  /**
   * For other records the two tests differ: with the shared eye "a", the
   * right-only eye "b" and the mouth "b", the test as written lets the face
   * "abb" through although its right eye equals the mouth.
   */
  lemma ProbeDiffersFromRightEyeTest()
    ensures var eyes := Sided(["a"], [], ["b"], []);
      RightEyeProbe(EyesL(eyes), 1, "b") && EyesR(eyes)[1] == "b"
      && EasternEmoticons(Sided([], [], [], [Pair("", "")]), eyes, ReversibleOnly(["b"])) == Some(["aba", "abb"])
  {
    var side, eyesL, eyesR, mouths := Pair("", ""), ["a"], ["a", "b"], ["b"];
    assert mouths[..0] == [];
    assert Face(side, "a", "b", "a") == "aba" && Face(side, "a", "b", "b") == "abb";
    assert MouthRun(side, "a", eyesL, eyesR, 0, mouths) == ["aba"];
    assert MouthRun(side, "a", eyesL, eyesR, 1, mouths) == ["abb"];
    assert RightRun(side, "a", eyesL, eyesR, 2, mouths) == ["aba", "abb"];
    assert eyesL[..0] == [];
    assert LeftRun(side, eyesL, eyesL, eyesR, mouths) == ["aba", "abb"];
    assert [side][..0] == [];
    assert SideRun([side], eyesL, eyesR, [], mouths) == ["aba", "abb"];
  }

  // ---------------------------------------------------------------------
  // One step of each loop.
  // ---------------------------------------------------------------------

  lemma MouthStep(side: Pair, eyeL: string, eyesL: seq<string>, eyesR: seq<string>, j: nat, mouths: seq<string>, m: nat,
                  outer: seq<string>, generated: seq<string>)
    requires j < |eyesR| && m < |mouths|
    requires generated == outer + MouthRun(side, eyeL, eyesL, eyesR, j, mouths[..m])
    ensures generated + IndependentEmitted(side, eyeL, eyesL, eyesR, j, mouths[m])
      == outer + MouthRun(side, eyeL, eyesL, eyesR, j, mouths[..m + 1])
  {
    assert mouths[..m + 1][..m] == mouths[..m];
  }

  lemma RightStep(side: Pair, eyeL: string, eyesL: seq<string>, eyesR: seq<string>, j: nat, mouths: seq<string>,
                  outer: seq<string>, inner: seq<string>, generated: seq<string>)
    requires j < |eyesR|
    requires inner == outer + RightRun(side, eyeL, eyesL, eyesR, j, mouths)
    requires generated == inner + MouthRun(side, eyeL, eyesL, eyesR, j, mouths)
    ensures generated == outer + RightRun(side, eyeL, eyesL, eyesR, j + 1, mouths)
  {
    AppendAssoc(outer, RightRun(side, eyeL, eyesL, eyesR, j, mouths), MouthRun(side, eyeL, eyesL, eyesR, j, mouths));
  }

  lemma LeftStep(side: Pair, eyesL: seq<string>, eyesR: seq<string>, i: nat, mouths: seq<string>,
                 outer: seq<string>, inner: seq<string>, generated: seq<string>)
    requires i < |eyesL|
    requires inner == outer + LeftRun(side, eyesL[..i], eyesL, eyesR, mouths)
    requires generated == inner + RightRun(side, eyesL[i], eyesL, eyesR, |eyesR|, mouths)
    ensures generated == outer + LeftRun(side, eyesL[..i + 1], eyesL, eyesR, mouths)
  {
    assert eyesL[..i + 1][..i] == eyesL[..i];
  }

  lemma PairMouthStep(side: Pair, eyes: Pair, mouths: seq<string>, m: nat, outer: seq<string>, generated: seq<string>)
    requires m < |mouths|
    requires generated == outer + PairMouthRun(side, eyes, mouths[..m])
    ensures generated + PairedEmitted(side, eyes, mouths[m]) == outer + PairMouthRun(side, eyes, mouths[..m + 1])
  {
    assert mouths[..m + 1][..m] == mouths[..m];
  }

  lemma PairStep(side: Pair, pairs: seq<Pair>, p: nat, mouths: seq<string>,
                 outer: seq<string>, inner: seq<string>, generated: seq<string>)
    requires p < |pairs|
    requires inner == outer + PairRun(side, pairs[..p], mouths)
    requires generated == inner + PairMouthRun(side, pairs[p], mouths[..|mouths|])
    ensures generated == outer + PairRun(side, pairs[..p + 1], mouths)
  {
    assert pairs[..p + 1][..p] == pairs[..p];
    assert mouths[..|mouths|] == mouths;
  }

  lemma SideStep(sides: seq<Pair>, s: nat, eyesL: seq<string>, eyesR: seq<string>, pairs: seq<Pair>, mouths: seq<string>,
                 before: seq<string>, middle: seq<string>, generated: seq<string>)
    requires s < |sides|
    requires before == SideRun(sides[..s], eyesL, eyesR, pairs, mouths)
    requires middle == before + LeftRun(sides[s], eyesL, eyesL, eyesR, mouths)
    requires generated == middle + PairRun(sides[s], pairs, mouths)
    ensures generated == SideRun(sides[..s + 1], eyesL, eyesR, pairs, mouths)
  {
    SideRunStep(sides, s, eyesL, eyesR, pairs, mouths);
    AppendAssoc(before, LeftRun(sides[s], eyesL, eyesL, eyesR, mouths), PairRun(sides[s], pairs, mouths));
  }

  lemma SideRunStep(sides: seq<Pair>, s: nat, eyesL: seq<string>, eyesR: seq<string>, pairs: seq<Pair>,
                    mouths: seq<string>)
    requires s < |sides|
    ensures SideRun(sides[..s + 1], eyesL, eyesR, pairs, mouths)
      == SideRun(sides[..s], eyesL, eyesR, pairs, mouths) + SideBlock(sides[s], eyesL, eyesR, pairs, mouths)
  {
    assert sides[..s + 1][..s] == sides[..s];
  }

  // ---------------------------------------------------------------------
  // The generator itself.
  // ---------------------------------------------------------------------

  /**
   * The innermost loop of the independent pass: each mouth for a fixed side,
   * left eye and right-eye position `eRight`.
   */
  method AppendMouths(side: Pair, eyeL: string, eyesL: seq<string>, eyesR: seq<string>, eRight: nat,
                      mouths: seq<string>, generated0: seq<string>)
    returns (generated: seq<string>)
    requires eRight < |eyesR|
    ensures generated == generated0 + MouthRun(side, eyeL, eyesL, eyesR, eRight, mouths)
  {
    generated := generated0;
    for m := 0 to |mouths|
      invariant generated == generated0 + MouthRun(side, eyeL, eyesL, eyesR, eRight, mouths[..m])
    {
      MouthStep(side, eyeL, eyesL, eyesR, eRight, mouths, m, generated0, generated);
      // The second test reads the left eye list at the right eye's
      // position; past its end the element is absent and the test passes.
      if eyeL != mouths[m] && (eRight >= |eyesL| || eyesL[eRight] != mouths[m]) {
        generated := generated + [side.left + eyeL + mouths[m] + eyesR[eRight] + side.right];
      }
    }
    assert mouths[..|mouths|] == mouths;
  }

  /** The independent pass for one side pair: every left eye, every right eye, every mouth. */
  method AppendIndependent(side: Pair, eyesL: seq<string>, eyesR: seq<string>, mouths: seq<string>,
                           generated0: seq<string>)
    returns (generated: seq<string>)
    ensures generated == generated0 + LeftRun(side, eyesL, eyesL, eyesR, mouths)
  {
    generated := generated0;
    for eLeft := 0 to |eyesL|
      invariant generated == generated0 + LeftRun(side, eyesL[..eLeft], eyesL, eyesR, mouths)
    {
      ghost var outerL := generated;
      for eRight := 0 to |eyesR|
        invariant generated == outerL + RightRun(side, eyesL[eLeft], eyesL, eyesR, eRight, mouths)
      {
        ghost var outerR := generated;
        generated := AppendMouths(side, eyesL[eLeft], eyesL, eyesR, eRight, mouths, generated);
        RightStep(side, eyesL[eLeft], eyesL, eyesR, eRight, mouths, outerL, outerR, generated);
      }
      LeftStep(side, eyesL, eyesR, eLeft, mouths, generated0, outerL, generated);
    }
    assert eyesL[..|eyesL|] == eyesL;
  }

  /** The paired pass for one side pair: every declared eye pair, every mouth. */
  method AppendPaired(side: Pair, pairs: seq<Pair>, mouths: seq<string>, generated0: seq<string>)
    returns (generated: seq<string>)
    ensures generated == generated0 + PairRun(side, pairs, mouths)
  {
    generated := generated0;
    for ePair := 0 to |pairs|
      invariant generated == generated0 + PairRun(side, pairs[..ePair], mouths)
    {
      ghost var outerP := generated;
      for m := 0 to |mouths|
        invariant generated == outerP + PairMouthRun(side, pairs[ePair], mouths[..m])
      {
        PairMouthStep(side, pairs[ePair], mouths, m, outerP, generated);
        if pairs[ePair].left != mouths[m] && pairs[ePair].right != mouths[m] {
          generated := generated + [side.left + pairs[ePair].left + mouths[m] + pairs[ePair].right + side.right];
        }
      }
      PairStep(side, pairs, ePair, mouths, generated0, outerP, generated);
    }
    assert pairs[..|pairs|] == pairs;
  }

  /**
   * Generates all Eastern emoticons from the sides, eyes and mouth records,
   * or fails (`None`) where the side-pairing loop fails.
   */
  method GenerateEastern(sidesObj: EasternComponent, eyesObj: EasternComponent, mouthObj: EasternComponent)
    returns (r: Option<seq<string>>)
    requires sidesObj.Sided? && eyesObj.Sided?
    ensures r == EasternEmoticons(sidesObj, eyesObj, mouthObj)
  {
    var generated := [];
    var eyesL := eyesObj.reversible + eyesObj.left;
    var eyesR := eyesObj.reversible + eyesObj.right;
    var sidesLAll := sidesObj.reversible + sidesObj.left;
    var sidesRAll := sidesObj.reversible + sidesObj.right;
    var sidesPaired := sidesObj.paired;

    for l := 0 to |sidesLAll|
      invariant l > 0 ==> |sidesRAll| == 0
    {
      for rr := 0 to |sidesRAll| {
        // Adding a side pair writes to a slot the side list does not have.
        return None;
      }
    }

    var mouths := mouthObj.reversible;
    for s := 0 to |sidesPaired|
      invariant generated == SideRun(sidesPaired[..s], eyesL, eyesR, eyesObj.paired, mouths)
    {
      ghost var before := generated;
      generated := AppendIndependent(sidesPaired[s], eyesL, eyesR, mouths, generated);
      ghost var middle := generated;
      generated := AppendPaired(sidesPaired[s], eyesObj.paired, mouths, generated);
      SideStep(sidesPaired, s, eyesL, eyesR, eyesObj.paired, mouths, before, middle, generated);
    }
    assert sidesPaired[..|sidesPaired|] == sidesPaired;
    r := Some(generated);
  }
}
