/**
 * The standard (Western) emoticon generator: every brow, eye, nose and
 * mouth choice for one reading orientation, minus the combinations the
 * exclusion rule rejects, concatenated in reading order.
 */
module Standard {
  import opened Catalog

  /** The characters usable in one orientation: reversible ones first, then the one-way ones. */
  function Components(c: StandardComponent, isL2R: bool): seq<string> {
    if isL2R then c.reversible + c.l2r else c.reversible + c.r2l
  }

  /** An orientation uses the reversible characters and its own one-way ones, and no others. */
  lemma ComponentsMember(c: StandardComponent, isL2R: bool, x: string)
    ensures |Components(c, isL2R)| == |c.reversible| + |if isL2R then c.l2r else c.r2l|
    ensures x in Components(c, isL2R) <==> x in c.reversible || x in (if isL2R then c.l2r else c.r2l)
  {
  }

  /** One choice of character per component. */
  datatype Candidate = Candidate(brow: string, eye: string, nose: string, mouth: string)

  /**
   * The exclusion test: the nose equals the mouth, or the eyes equal the
   * mouth with no nose between them, or a "v" nose meets a "V" mouth.
   */
  predicate Excluded(c: Candidate) {
    c.nose == c.mouth || (c.eye == c.mouth && |c.nose| <= 0) || (c.nose == "v" && c.mouth == "V")
  }

  /** Left to right reads brow, eyes, nose, mouth; right to left reads them backwards. */
  function Assemble(c: Candidate, isL2R: bool): string {
    if isL2R then c.brow + c.eye + c.nose + c.mouth
    else c.mouth + c.nose + c.eye + c.brow
  }

  // ---------------------------------------------------------------------
  // The candidates in nested-loop order.
  // ---------------------------------------------------------------------

  function Flatten<T>(blocks: seq<seq<T>>): (r: seq<T>) {
    if blocks == [] then [] else Flatten(blocks[..|blocks| - 1]) + blocks[|blocks| - 1]
  }

  lemma {:induction false} FlattenMember<T>(blocks: seq<seq<T>>, x: T)
    ensures x in Flatten(blocks) <==> exists i :: 0 <= i < |blocks| && x in blocks[i]
  {
    if blocks != [] {
      var init := blocks[..|blocks| - 1];
      FlattenMember(init, x);
      assert forall i :: 0 <= i < |init| ==> init[i] == blocks[i];
    }
  }

  /**
   * Multiplication by repeated addition.  Keeping the products used as
   * positions behind a recursive definition keeps the solver on linear
   * arithmetic; `TimesIsProduct` ties it to `*`.
   */
  function Times(a: nat, b: nat): nat {
    if a == 0 then 0 else Times(a - 1, b) + b
  }

  lemma {:induction false} TimesIsProduct(a: nat, b: nat)
    ensures Times(a, b) == a * b
  {
    if a > 0 {
      TimesIsProduct(a - 1, b);
      assert (a - 1) * b + b == a * b;
    }
  }

  /** Element `j` of block `i` when every block holds `size` elements. */
  function Offset(i: nat, size: nat, j: nat): nat {
    Times(i, size) + j
  }

  /** Element m of block j comes before block n when j < n. */
  lemma {:induction false} BlockIndexBound(j: nat, m: nat, n: nat, size: nat)
    requires j < n && m < size
    ensures Offset(j, size, m) < Times(n, size)
  {
    if j + 1 < n {
      BlockIndexBound(j, m, n - 1, size);
    }
  }

  /** Blocks of equal size: element j of block i sits at Offset(i, size, j). */
  lemma {:induction false} FlattenUniform<T>(blocks: seq<seq<T>>, size: nat)
    requires forall i :: 0 <= i < |blocks| ==> |blocks[i]| == size
    ensures |Flatten(blocks)| == Times(|blocks|, size)
    ensures forall i, j :: 0 <= i < |blocks| && 0 <= j < size ==>
      Offset(i, size, j) < Times(|blocks|, size) && Flatten(blocks)[Offset(i, size, j)] == blocks[i][j]
  {
    if blocks != [] {
      var n := |blocks| - 1;
      var init, last := blocks[..n], blocks[n];
      FlattenUniform(init, size);
      var front := Flatten(init);
      assert Flatten(blocks) == front + last;
      forall i, j | 0 <= i < |blocks| && 0 <= j < size
        ensures Offset(i, size, j) < Times(|blocks|, size) && Flatten(blocks)[Offset(i, size, j)] == blocks[i][j]
      {
        BlockIndexBound(i, j, |blocks|, size);
        var p := Offset(i, size, j);
        if i < n {
          BlockIndexBound(i, j, n, size);
          assert init[i] == blocks[i];
          assert (front + last)[p] == front[p];
        } else {
          assert (front + last)[p] == last[j];
        }
      }
    }
  }

  /** The candidates of one brow, eye and nose: one per mouth. */
  function MouthBlock(brow: string, eye: string, nose: string, mouths: seq<string>): seq<Candidate> {
    seq(|mouths|, l requires 0 <= l < |mouths| => Candidate(brow, eye, nose, mouths[l]))
  }

  /** The mouth blocks of one brow and eye, one per nose. */
  function NoseBlocks(brow: string, eye: string, noses: seq<string>, mouths: seq<string>): seq<seq<Candidate>> {
    seq(|noses|, k requires 0 <= k < |noses| => MouthBlock(brow, eye, noses[k], mouths))
  }

  function NoseBlock(brow: string, eye: string, noses: seq<string>, mouths: seq<string>): seq<Candidate> {
    Flatten(NoseBlocks(brow, eye, noses, mouths))
  }

  /** The nose blocks of one brow, one per eye. */
  function EyeBlocks(brow: string, eyes: seq<string>, noses: seq<string>, mouths: seq<string>): seq<seq<Candidate>> {
    seq(|eyes|, j requires 0 <= j < |eyes| => NoseBlock(brow, eyes[j], noses, mouths))
  }

  function EyeBlock(brow: string, eyes: seq<string>, noses: seq<string>, mouths: seq<string>): seq<Candidate> {
    Flatten(EyeBlocks(brow, eyes, noses, mouths))
  }

  /** The eye blocks, one per brow. */
  function BrowBlocks(brows: seq<string>, eyes: seq<string>, noses: seq<string>, mouths: seq<string>): seq<seq<Candidate>> {
    seq(|brows|, i requires 0 <= i < |brows| => EyeBlock(brows[i], eyes, noses, mouths))
  }

  /** Every candidate, brows outermost and mouths innermost, as the four nested loops visit them. */
  function Candidates(brows: seq<string>, eyes: seq<string>, noses: seq<string>, mouths: seq<string>): seq<Candidate> {
    Flatten(BrowBlocks(brows, eyes, noses, mouths))
  }

  /**
   * The position at which the loops visit brow `i`, eye `j`, nose `k` and
   * mouth `l` of lists with `ne` eyes, `nn` noses and `nm` mouths:
   * i*(ne*nn*nm) + j*(nn*nm) + k*nm + l.
   */
  function Position(i: nat, j: nat, k: nat, l: nat, ne: nat, nn: nat, nm: nat): nat {
    Offset(i, Times(ne, Times(nn, nm)), Offset(j, Times(nn, nm), Offset(k, nm, l)))
  }

  lemma NoseBlockAt(brow: string, eye: string, noses: seq<string>, mouths: seq<string>, k: nat, l: nat)
    requires k < |noses| && l < |mouths|
    ensures |NoseBlock(brow, eye, noses, mouths)| == Times(|noses|, |mouths|)
    ensures Offset(k, |mouths|, l) < Times(|noses|, |mouths|)
    ensures NoseBlock(brow, eye, noses, mouths)[Offset(k, |mouths|, l)] == Candidate(brow, eye, noses[k], mouths[l])
  {
    var blocks := NoseBlocks(brow, eye, noses, mouths);
    FlattenUniform(blocks, |mouths|);
    assert blocks[k][l] == Candidate(brow, eye, noses[k], mouths[l]);
  }

  lemma NoseBlockLength(brow: string, eye: string, noses: seq<string>, mouths: seq<string>)
    ensures |NoseBlock(brow, eye, noses, mouths)| == Times(|noses|, |mouths|)
  {
    var blocks := NoseBlocks(brow, eye, noses, mouths);
    FlattenUniform(blocks, |mouths|);
  }

  lemma EyeBlockAt(brow: string, eyes: seq<string>, noses: seq<string>, mouths: seq<string>, j: nat, k: nat, l: nat)
    requires j < |eyes| && k < |noses| && l < |mouths|
    ensures |EyeBlock(brow, eyes, noses, mouths)| == Times(|eyes|, Times(|noses|, |mouths|))
    ensures Offset(j, Times(|noses|, |mouths|), Offset(k, |mouths|, l)) < Times(|eyes|, Times(|noses|, |mouths|))
    ensures EyeBlock(brow, eyes, noses, mouths)[Offset(j, Times(|noses|, |mouths|), Offset(k, |mouths|, l))]
      == Candidate(brow, eyes[j], noses[k], mouths[l])
  {
    var size := Times(|noses|, |mouths|);
    var blocks := EyeBlocks(brow, eyes, noses, mouths);
    forall j | 0 <= j < |eyes| ensures |blocks[j]| == size {
      NoseBlockLength(brow, eyes[j], noses, mouths);
    }
    FlattenUniform(blocks, size);
    NoseBlockAt(brow, eyes[j], noses, mouths, k, l);
    assert blocks[j][Offset(k, |mouths|, l)] == Candidate(brow, eyes[j], noses[k], mouths[l]);
  }

  lemma EyeBlockLength(brow: string, eyes: seq<string>, noses: seq<string>, mouths: seq<string>)
    ensures |EyeBlock(brow, eyes, noses, mouths)| == Times(|eyes|, Times(|noses|, |mouths|))
  {
    var blocks := EyeBlocks(brow, eyes, noses, mouths);
    forall j | 0 <= j < |eyes| ensures |blocks[j]| == Times(|noses|, |mouths|) {
      NoseBlockLength(brow, eyes[j], noses, mouths);
    }
    FlattenUniform(blocks, Times(|noses|, |mouths|));
  }

  /**
   * Nested-loop order and completeness: the candidate list has one entry per
   * choice of list positions (so a character listed twice is visited twice),
   * and the choice (i, j, k, l) sits at its `Position`.
   */
  lemma CandidatesAt(brows: seq<string>, eyes: seq<string>, noses: seq<string>, mouths: seq<string>)
    ensures |Candidates(brows, eyes, noses, mouths)| == Times(|brows|, Times(|eyes|, Times(|noses|, |mouths|)))
    ensures forall i, j, k, l :: 0 <= i < |brows| && 0 <= j < |eyes| && 0 <= k < |noses| && 0 <= l < |mouths| ==>
      Position(i, j, k, l, |eyes|, |noses|, |mouths|) < |Candidates(brows, eyes, noses, mouths)|
      && Candidates(brows, eyes, noses, mouths)[Position(i, j, k, l, |eyes|, |noses|, |mouths|)]
        == Candidate(brows[i], eyes[j], noses[k], mouths[l])
  {
    var size := Times(|eyes|, Times(|noses|, |mouths|));
    var blocks := BrowBlocks(brows, eyes, noses, mouths);
    forall i | 0 <= i < |brows| ensures |blocks[i]| == size {
      EyeBlockLength(brows[i], eyes, noses, mouths);
    }
    FlattenUniform(blocks, size);
    forall i, j, k, l | 0 <= i < |brows| && 0 <= j < |eyes| && 0 <= k < |noses| && 0 <= l < |mouths|
      ensures Position(i, j, k, l, |eyes|, |noses|, |mouths|) < |Candidates(brows, eyes, noses, mouths)|
        && Candidates(brows, eyes, noses, mouths)[Position(i, j, k, l, |eyes|, |noses|, |mouths|)]
          == Candidate(brows[i], eyes[j], noses[k], mouths[l])
    {
      EyeBlockAt(brows[i], eyes, noses, mouths, j, k, l);
      var inner := Offset(j, Times(|noses|, |mouths|), Offset(k, |mouths|, l));
      assert blocks[i][inner] == Candidate(brows[i], eyes[j], noses[k], mouths[l]);
    }
  }

  /** A candidate is in the list exactly when each of its characters is in its component's list. */
  lemma CandidatesMember(brows: seq<string>, eyes: seq<string>, noses: seq<string>, mouths: seq<string>, c: Candidate)
    ensures c in Candidates(brows, eyes, noses, mouths) <==>
      c.brow in brows && c.eye in eyes && c.nose in noses && c.mouth in mouths
  {
    var blocks := BrowBlocks(brows, eyes, noses, mouths);
    FlattenMember(blocks, c);
    forall i | 0 <= i < |brows|
      ensures c in blocks[i] <==> c.brow == brows[i] && c.eye in eyes && c.nose in noses && c.mouth in mouths
    {
      var eyeBlocks := EyeBlocks(brows[i], eyes, noses, mouths);
      assert blocks[i] == Flatten(eyeBlocks);
      FlattenMember(eyeBlocks, c);
      forall j | 0 <= j < |eyes|
        ensures c in eyeBlocks[j] <==> c.brow == brows[i] && c.eye == eyes[j] && c.nose in noses && c.mouth in mouths
      {
        var noseBlocks := NoseBlocks(brows[i], eyes[j], noses, mouths);
        assert eyeBlocks[j] == Flatten(noseBlocks);
        FlattenMember(noseBlocks, c);
        forall k | 0 <= k < |noses|
          ensures c in noseBlocks[k] <==> c == Candidate(brows[i], eyes[j], noses[k], c.mouth) && c.mouth in mouths
        {
          if c == Candidate(brows[i], eyes[j], noses[k], c.mouth) && c.mouth in mouths {
            var l :| 0 <= l < |mouths| && mouths[l] == c.mouth;
            assert noseBlocks[k][l] == c;
          }
        }
      }
    }
  }

  // ---------------------------------------------------------------------
  // Filtering and assembling.
  // ---------------------------------------------------------------------

  /** The strings assembled from the candidates that pass the exclusion test, in order. */
  function Emit(cs: seq<Candidate>, isL2R: bool): seq<string> {
    if cs == [] then [] else Emit(cs[..|cs| - 1], isL2R) + Emitted(cs[|cs| - 1], isL2R)
  }

  /** What one candidate contributes: its string, or nothing when it is excluded. */
  function Emitted(c: Candidate, isL2R: bool): seq<string> {
    if Excluded(c) then [] else [Assemble(c, isL2R)]
  }

  lemma {:induction false} EmitMember(cs: seq<Candidate>, isL2R: bool, x: string)
    ensures x in Emit(cs, isL2R) <==> exists c :: c in cs && !Excluded(c) && x == Assemble(c, isL2R)
  {
    if cs != [] {
      var init := cs[..|cs| - 1];
      EmitMember(init, isL2R, x);
      assert cs == init + [cs[|cs| - 1]];
    }
  }

  /** Filtering only drops candidates; when none is excluded it keeps them all, in order. */
  lemma {:induction false} EmitKeepsOrder(cs: seq<Candidate>, isL2R: bool)
    ensures |Emit(cs, isL2R)| <= |cs|
    ensures (forall c :: c in cs ==> !Excluded(c)) ==>
      |Emit(cs, isL2R)| == |cs| && forall p :: 0 <= p < |cs| ==> Emit(cs, isL2R)[p] == Assemble(cs[p], isL2R)
  {
    if cs != [] {
      var init := cs[..|cs| - 1];
      EmitKeepsOrder(init, isL2R);
      assert forall c :: c in init ==> c in cs;
    }
  }

  /** What `generateStandardEmoticons` returns for the four records and the orientation. */
  function StandardEmoticons(browsObj: StandardComponent, eyesObj: StandardComponent,
                             noseObj: StandardComponent, mouthObj: StandardComponent, isL2R: bool): seq<string>
  {
    Emit(Candidates(Components(browsObj, isL2R), Components(eyesObj, isL2R),
                    Components(noseObj, isL2R), Components(mouthObj, isL2R)), isL2R)
  }

  /**
   * Shape and filter of the output: a string is produced exactly when it is
   * brow+eyes+nose+mouth (or mouth+nose+eyes+brow right to left) for characters
   * drawn from the orientation's lists that pass the exclusion test.
   */
  lemma StandardShape(browsObj: StandardComponent, eyesObj: StandardComponent,
                      noseObj: StandardComponent, mouthObj: StandardComponent, isL2R: bool, x: string)
    ensures x in StandardEmoticons(browsObj, eyesObj, noseObj, mouthObj, isL2R) <==>
      exists c: Candidate ::
        c.brow in Components(browsObj, isL2R) && c.eye in Components(eyesObj, isL2R)
        && c.nose in Components(noseObj, isL2R) && c.mouth in Components(mouthObj, isL2R)
        && !Excluded(c) && x == Assemble(c, isL2R)
  {
    var bs, es, ns, ms := Components(browsObj, isL2R), Components(eyesObj, isL2R),
                          Components(noseObj, isL2R), Components(mouthObj, isL2R);
    EmitMember(Candidates(bs, es, ns, ms), isL2R, x);
    forall c: Candidate ensures c in Candidates(bs, es, ns, ms) <==> c.brow in bs && c.eye in es && c.nose in ns && c.mouth in ms {
      CandidatesMember(bs, es, ns, ms, c);
    }
  }

  lemma CountIsProduct(nb: nat, ne: nat, nn: nat, nm: nat)
    ensures Times(nb, Times(ne, Times(nn, nm))) == nb * (ne * (nn * nm))
  {
    TimesIsProduct(nn, nm);
    TimesIsProduct(ne, nn * nm);
    TimesIsProduct(nb, ne * (nn * nm));
  }

  /**
   * Size: at most one string per choice of list positions, and exactly one,
   * at its nested-loop position, when the exclusion test rejects nothing.
   */
  lemma StandardCount(browsObj: StandardComponent, eyesObj: StandardComponent,
                      noseObj: StandardComponent, mouthObj: StandardComponent, isL2R: bool)
    ensures var bs, es, ns, ms := Components(browsObj, isL2R), Components(eyesObj, isL2R),
                                  Components(noseObj, isL2R), Components(mouthObj, isL2R);
      var r := StandardEmoticons(browsObj, eyesObj, noseObj, mouthObj, isL2R);
      |r| <= |bs| * (|es| * (|ns| * |ms|))
      && ((forall c :: c in Candidates(bs, es, ns, ms) ==> !Excluded(c)) ==>
            |r| == |bs| * (|es| * (|ns| * |ms|))
            && forall i, j, k, l :: 0 <= i < |bs| && 0 <= j < |es| && 0 <= k < |ns| && 0 <= l < |ms| ==>
                 Position(i, j, k, l, |es|, |ns|, |ms|) < |r|
                 && r[Position(i, j, k, l, |es|, |ns|, |ms|)] == Assemble(Candidate(bs[i], es[j], ns[k], ms[l]), isL2R))
  {
    var bs, es, ns, ms := Components(browsObj, isL2R), Components(eyesObj, isL2R),
                          Components(noseObj, isL2R), Components(mouthObj, isL2R);
    CandidatesAt(bs, es, ns, ms);
    EmitKeepsOrder(Candidates(bs, es, ns, ms), isL2R);
    CountIsProduct(|bs|, |es|, |ns|, |ms|);
  }

  /** Filtering distributes over concatenation. */
  lemma {:induction false} EmitAppend(a: seq<Candidate>, b: seq<Candidate>, isL2R: bool)
    ensures Emit(a + b, isL2R) == Emit(a, isL2R) + Emit(b, isL2R)
  {
    if b != [] {
      var k := |b| - 1;
      EmitAppend(a, b[..k], isL2R);
      assert (a + b)[..|a + b| - 1] == a + b[..k];
      calc {
        Emit(a + b, isL2R);
        Emit(a + b[..k], isL2R) + Emitted(b[k], isL2R);
        (Emit(a, isL2R) + Emit(b[..k], isL2R)) + Emitted(b[k], isL2R);
        Emit(a, isL2R) + (Emit(b[..k], isL2R) + Emitted(b[k], isL2R));
        Emit(a, isL2R) + Emit(b, isL2R);
      }
    } else {
      assert a + b == a;
    }
  }

  // ---------------------------------------------------------------------
  // The output loop by loop: what the innermost loop emits for a prefix of
  // the mouths, the next one for a prefix of the noses, and so on.
  // ---------------------------------------------------------------------

  function MouthRun(brow: string, eye: string, nose: string, mouths: seq<string>, isL2R: bool): seq<string> {
    if mouths == [] then []
    else MouthRun(brow, eye, nose, mouths[..|mouths| - 1], isL2R)
         + Emitted(Candidate(brow, eye, nose, mouths[|mouths| - 1]), isL2R)
  }

  function NoseRun(brow: string, eye: string, noses: seq<string>, mouths: seq<string>, isL2R: bool): seq<string> {
    if noses == [] then []
    else NoseRun(brow, eye, noses[..|noses| - 1], mouths, isL2R) + MouthRun(brow, eye, noses[|noses| - 1], mouths, isL2R)
  }

  function EyeRun(brow: string, eyes: seq<string>, noses: seq<string>, mouths: seq<string>, isL2R: bool): seq<string> {
    if eyes == [] then []
    else EyeRun(brow, eyes[..|eyes| - 1], noses, mouths, isL2R) + NoseRun(brow, eyes[|eyes| - 1], noses, mouths, isL2R)
  }

  function BrowRun(brows: seq<string>, eyes: seq<string>, noses: seq<string>, mouths: seq<string>, isL2R: bool): seq<string> {
    if brows == [] then []
    else BrowRun(brows[..|brows| - 1], eyes, noses, mouths, isL2R) + EyeRun(brows[|brows| - 1], eyes, noses, mouths, isL2R)
  }

  lemma {:induction false} MouthRunIsEmit(brow: string, eye: string, nose: string, mouths: seq<string>, isL2R: bool)
    ensures MouthRun(brow, eye, nose, mouths, isL2R) == Emit(MouthBlock(brow, eye, nose, mouths), isL2R)
  {
    if mouths != [] {
      var k := |mouths| - 1;
      MouthRunIsEmit(brow, eye, nose, mouths[..k], isL2R);
      var block := MouthBlock(brow, eye, nose, mouths);
      assert block[..k] == MouthBlock(brow, eye, nose, mouths[..k]);
    }
  }

  lemma {:induction false} NoseRunIsEmit(brow: string, eye: string, noses: seq<string>, mouths: seq<string>, isL2R: bool)
    ensures NoseRun(brow, eye, noses, mouths, isL2R) == Emit(NoseBlock(brow, eye, noses, mouths), isL2R)
  {
    if noses != [] {
      var k := |noses| - 1;
      NoseRunIsEmit(brow, eye, noses[..k], mouths, isL2R);
      MouthRunIsEmit(brow, eye, noses[k], mouths, isL2R);
      var blocks := NoseBlocks(brow, eye, noses, mouths);
      assert blocks[..k] == NoseBlocks(brow, eye, noses[..k], mouths);
      EmitAppend(Flatten(blocks[..k]), blocks[k], isL2R);
    }
  }

  lemma {:induction false} EyeRunIsEmit(brow: string, eyes: seq<string>, noses: seq<string>, mouths: seq<string>, isL2R: bool)
    ensures EyeRun(brow, eyes, noses, mouths, isL2R) == Emit(EyeBlock(brow, eyes, noses, mouths), isL2R)
  {
    if eyes != [] {
      var k := |eyes| - 1;
      EyeRunIsEmit(brow, eyes[..k], noses, mouths, isL2R);
      NoseRunIsEmit(brow, eyes[k], noses, mouths, isL2R);
      var blocks := EyeBlocks(brow, eyes, noses, mouths);
      assert blocks[..k] == EyeBlocks(brow, eyes[..k], noses, mouths);
      EmitAppend(Flatten(blocks[..k]), blocks[k], isL2R);
    }
  }

  /** The loops' output is the filtered candidate list. */
  lemma {:induction false} BrowRunIsEmit(brows: seq<string>, eyes: seq<string>, noses: seq<string>, mouths: seq<string>, isL2R: bool)
    ensures BrowRun(brows, eyes, noses, mouths, isL2R) == Emit(Candidates(brows, eyes, noses, mouths), isL2R)
  {
    if brows != [] {
      var k := |brows| - 1;
      BrowRunIsEmit(brows[..k], eyes, noses, mouths, isL2R);
      EyeRunIsEmit(brows[k], eyes, noses, mouths, isL2R);
      var blocks := BrowBlocks(brows, eyes, noses, mouths);
      assert blocks[..k] == BrowBlocks(brows[..k], eyes, noses, mouths);
      EmitAppend(Flatten(blocks[..k]), blocks[k], isL2R);
    }
  }

  // One lemma per loop level: finishing the loop one level down extends
  // this level's run by one element of its list.

  lemma MouthStep(brow: string, eye: string, nose: string, mouths: seq<string>, m: nat, isL2R: bool)
    requires m < |mouths|
    ensures MouthRun(brow, eye, nose, mouths[..m + 1], isL2R)
      == MouthRun(brow, eye, nose, mouths[..m], isL2R) + Emitted(Candidate(brow, eye, nose, mouths[m]), isL2R)
  {
    assert mouths[..m + 1][..m] == mouths[..m];
  }

  /** A candidate extends the run by its string when it passes the exclusion test, and by nothing otherwise. */
  lemma EmittedStep(outer: seq<string>, run: seq<string>, generated: seq<string>, c: Candidate, isL2R: bool)
    requires generated == outer + run
    ensures Excluded(c) ==> generated == outer + (run + Emitted(c, isL2R))
    ensures !Excluded(c) ==> generated + [Assemble(c, isL2R)] == outer + (run + Emitted(c, isL2R))
  {
  }

  lemma NoseStep(brow: string, eye: string, noses: seq<string>, mouths: seq<string>, n: nat, isL2R: bool,
                 outer: seq<string>, inner: seq<string>, generated: seq<string>)
    requires n < |noses|
    requires inner == outer + NoseRun(brow, eye, noses[..n], mouths, isL2R)
    requires generated == inner + MouthRun(brow, eye, noses[n], mouths[..|mouths|], isL2R)
    ensures generated == outer + NoseRun(brow, eye, noses[..n + 1], mouths, isL2R)
  {
    assert noses[..n + 1][..n] == noses[..n];
    assert mouths[..|mouths|] == mouths;
  }

  lemma EyeStep(brow: string, eyes: seq<string>, noses: seq<string>, mouths: seq<string>, e: nat, isL2R: bool,
                outer: seq<string>, inner: seq<string>, generated: seq<string>)
    requires e < |eyes|
    requires inner == outer + EyeRun(brow, eyes[..e], noses, mouths, isL2R)
    requires generated == inner + NoseRun(brow, eyes[e], noses, mouths, isL2R)
    ensures generated == outer + EyeRun(brow, eyes[..e + 1], noses, mouths, isL2R)
  {
    assert eyes[..e + 1][..e] == eyes[..e];
  }

  lemma BrowStep(brows: seq<string>, eyes: seq<string>, noses: seq<string>, mouths: seq<string>, b: nat, isL2R: bool,
                 inner: seq<string>, generated: seq<string>)
    requires b < |brows|
    requires inner == BrowRun(brows[..b], eyes, noses, mouths, isL2R)
    requires generated == inner + EyeRun(brows[b], eyes[..|eyes|], noses, mouths, isL2R)
    ensures generated == BrowRun(brows[..b + 1], eyes, noses, mouths, isL2R)
  {
    assert brows[..b + 1][..b] == brows[..b];
    assert eyes[..|eyes|] == eyes;
  }

  // ---------------------------------------------------------------------
  // The generator itself.
  // ---------------------------------------------------------------------

  /**
   * The two inner loops of the generator for one brow and one eye: every
   * nose, and for each every mouth, appending the emoticon of each
   * candidate that passes the exclusion test.
   */
  method AppendNosesAndMouths(brow: string, eye: string, nose: seq<string>, mouth: seq<string>, isL2R: bool,
                              generated0: seq<string>)
    returns (generated: seq<string>)
    ensures generated == generated0 + NoseRun(brow, eye, nose, mouth, isL2R)
  {
    generated := generated0;
    for n := 0 to |nose|
      invariant generated == generated0 + NoseRun(brow, eye, nose[..n], mouth, isL2R)
    {
      ghost var outerN := generated;
      for m := 0 to |mouth|
        invariant generated == outerN + MouthRun(brow, eye, nose[n], mouth[..m], isL2R)
      {
        var c := Candidate(brow, eye, nose[n], mouth[m]);
        MouthStep(brow, eye, nose[n], mouth, m, isL2R);
        EmittedStep(outerN, MouthRun(brow, eye, nose[n], mouth[..m], isL2R), generated, c, isL2R);
        if Excluded(c) {
          continue;
        }
        if isL2R {
          generated := generated + [brow + eye + nose[n] + mouth[m]];
        } else {
          generated := generated + [mouth[m] + nose[n] + eye + brow];
        }
      }
      NoseStep(brow, eye, nose, mouth, n, isL2R, generated0, outerN, generated);
    }
    assert nose[..|nose|] == nose;
  }

  /** Generates all standard emoticons of one orientation from the four component records. */
  method GenerateStandard(browsObj: StandardComponent, eyesObj: StandardComponent,
                          noseObj: StandardComponent, mouthObj: StandardComponent, isL2R: bool)
    returns (generated: seq<string>)
    ensures generated == StandardEmoticons(browsObj, eyesObj, noseObj, mouthObj, isL2R)
  {
    generated := [];
    var brows := Components(browsObj, isL2R);
    var eyes := Components(eyesObj, isL2R);
    var nose := Components(noseObj, isL2R);
    var mouth := Components(mouthObj, isL2R);

    for b := 0 to |brows|
      invariant generated == BrowRun(brows[..b], eyes, nose, mouth, isL2R)
    {
      ghost var outerB := generated;
      for e := 0 to |eyes|
        invariant generated == outerB + EyeRun(brows[b], eyes[..e], nose, mouth, isL2R)
      {
        ghost var outerE := generated;
        generated := AppendNosesAndMouths(brows[b], eyes[e], nose, mouth, isL2R, generated);
        EyeStep(brows[b], eyes, nose, mouth, e, isL2R, outerB, outerE, generated);
      }
      BrowStep(brows, eyes, nose, mouth, b, isL2R, outerB, generated);
    }
    assert brows[..|brows|] == brows;
    BrowRunIsEmit(brows, eyes, nose, mouth, isL2R);
  }
}
