/**
 * The Scrabble tile distribution: the component letters in five tiers of
 * rising score, each distinct letter given one tile row and one score row
 * by the first tier it appears in.  Tier 4 (the Eastern sides) gets no
 * tiles, so its letters have no row.
 *
 * A row reads `{ 'x' , n } ,` and a newline.  The quote and the backslash are
 * written with a backslash before them (a C# character literal) and the
 * backslash is removed again before the letter is recorded.
 */
module Tiles {
  import opened Collections
  import opened Catalog
  import opened StringOrder
  import Letters
  import Aggregate

  // ---------------------------------------------------------------------
  // Escaping.
  // ---------------------------------------------------------------------

  /** Puts a backslash before the quote and the backslash. */
  function Escape(t: string): string {
    if t == "'" || t == "\\" then "\\" + t else t
  }

  /** Removes the first backslash from a string that starts with one. */
  function Unescape(t: string): string {
    if |t| > 0 && t[0] == '\\' then t[1..] else t
  }

  /**
   * The recorded letter is the letter itself exactly when the letter does not
   * start with a backslash or is the backslash alone.
   */
  lemma EscapeRoundTrip(t: string)
    ensures Unescape(Escape(t)) == t <==> !(|t| > 0 && t[0] == '\\') || t == "\\"
  {
    if |t| > 0 && t[0] == '\\' && t != "\\" {
      assert |Unescape(Escape(t))| < |t|;
    }
  }

  // ---------------------------------------------------------------------
  // Tiers and rows.
  // ---------------------------------------------------------------------

  /** The tile count and the score written for a tier, as the digits of the row. */
  datatype TierDigits = TierDigits(tiles: char, score: char)

  /**
   * The tiers with a row: 0 has five tiles worth 1, 1 two worth 2, 2 three
   * worth 6 and 3 two worth 9; any other tier has none.
   */
  function Digits(tier: nat): (r: Option<TierDigits>)
    ensures r.Some? <==> tier < 4
  {
    if tier == 0 then Some(TierDigits('5', '1'))
    else if tier == 1 then Some(TierDigits('2', '2'))
    else if tier == 2 then Some(TierDigits('3', '6'))
    else if tier == 3 then Some(TierDigits('2', '9'))
    else None
  }

  /**
   * A later tier scores more, and the first tier has the most tiles.  Below
   * it abundance does not fall steadily: tier 2 has three tiles to tier 1's two.
   */
  lemma TierScoresRise(t1: nat, t2: nat)
    requires t1 < t2 < 4
    ensures Digits(t1).value.score < Digits(t2).value.score
    ensures Digits(t2).value.tiles < Digits(0).value.tiles
    ensures Digits(1).value.tiles < Digits(2).value.tiles
  {
  }

  /** One row of the C# initialiser: `{ '<letter>' , <digit> } ,` and a newline. */
  function Row(escaped: string, digit: char): string {
    "{ '" + escaped + "' , " + [digit] + " } ,\n"
  }

  /** A letter given a tile, with the tier that gave it. */
  datatype Entry = Entry(letter: string, tier: nat)

  function TileRow(e: Entry): string {
    match Digits(e.tier)
    case Some(d) => Row(Escape(e.letter), d.tiles)
    case None => ""
  }

  function ScoreRow(e: Entry): string {
    match Digits(e.tier)
    case Some(d) => Row(Escape(e.letter), d.score)
    case None => ""
  }

  function TileRows(entries: seq<Entry>): string {
    if entries == [] then "" else TileRows(entries[..|entries| - 1]) + TileRow(entries[|entries| - 1])
  }

  function ScoreRows(entries: seq<Entry>): string {
    if entries == [] then "" else ScoreRows(entries[..|entries| - 1]) + ScoreRow(entries[|entries| - 1])
  }

  /** The letters as the builder records them, escaped and unescaped again. */
  function Recorded(entries: seq<Entry>): (r: seq<string>)
    ensures |r| == |entries|
  {
    if entries == [] then [] else Recorded(entries[..|entries| - 1]) + [Unescape(Escape(entries[|entries| - 1].letter))]
  }

  function LettersOf(entries: seq<Entry>): (r: seq<string>)
    ensures |r| == |entries|
    ensures forall k :: 0 <= k < |entries| ==> r[k] == entries[k].letter
  {
    if entries == [] then [] else LettersOf(entries[..|entries| - 1]) + [entries[|entries| - 1].letter]
  }

  // ---------------------------------------------------------------------
  // The loops as functions.
  // ---------------------------------------------------------------------

  /** Letter `t` of tier `tier`: skipped when already recorded or when the tier has no row. */
  function Visit(entries: seq<Entry>, tier: nat, t: string): seq<Entry> {
    if t in Recorded(entries) || Digits(tier).None? then entries else entries + [Entry(t, tier)]
  }

  /** The inner loop over the letters `letters` of tier `tier`. */
  function LetterRun(entries: seq<Entry>, tier: nat, letters: seq<string>): seq<Entry> {
    if letters == [] then entries
    else Visit(LetterRun(entries, tier, letters[..|letters| - 1]), tier, letters[|letters| - 1])
  }

  /** The outer loop over the tiers. */
  function Entries(tiers: seq<seq<string>>): seq<Entry> {
    if tiers == [] then []
    else LetterRun(Entries(tiers[..|tiers| - 1]), |tiers| - 1, tiers[|tiers| - 1])
  }

  // ---------------------------------------------------------------------
  // What the entries are.
  // ---------------------------------------------------------------------

  /** Every letter of the tiers survives escaping and unescaping unchanged. */
  predicate AllRoundTrip(tiers: seq<seq<string>>) {
    forall i, x :: 0 <= i < |tiers| && x in tiers[i] ==> Unescape(Escape(x)) == x
  }

  /**
   * Each entry comes from a tier below `bound` that has a row, holds a letter
   * of that tier and a letter of no earlier tier.
   */
  ghost predicate Attributed(entries: seq<Entry>, tiers: seq<seq<string>>, bound: nat) {
    forall k :: 0 <= k < |entries| ==>
      entries[k].tier < 4 && entries[k].tier < bound && entries[k].tier < |tiers|
      && entries[k].letter in tiers[entries[k].tier]
      && forall j :: 0 <= j < entries[k].tier ==> entries[k].letter !in tiers[j]
  }

  /** Every letter of the first `n` tiers that have a row is among the entries. */
  ghost predicate Complete(entries: seq<Entry>, tiers: seq<seq<string>>, n: nat) {
    forall j, x :: 0 <= j < n && j < 4 && j < |tiers| && x in tiers[j] ==> x in LettersOf(entries)
  }

  /** No letter twice, and each recorded as itself. */
  ghost predicate Faithful(entries: seq<Entry>) {
    Distinct(LettersOf(entries)) && Recorded(entries) == LettersOf(entries)
  }

  /** Appending a letter of tier `n` not yet recorded keeps all three. */
  lemma AppendKeeps(entries: seq<Entry>, tiers: seq<seq<string>>, n: nat, t: string)
    requires n < |tiers| && n < 4 && t in tiers[n] && Unescape(Escape(t)) == t
    requires Attributed(entries, tiers, n + 1) && Complete(entries, tiers, n) && Faithful(entries)
    requires t !in LettersOf(entries)
    ensures var r := entries + [Entry(t, n)];
      Attributed(r, tiers, n + 1) && Complete(r, tiers, n) && Faithful(r) && t in LettersOf(r)
  {
    var r := entries + [Entry(t, n)];
    assert r[..|r| - 1] == entries;
    assert LettersOf(r) == LettersOf(entries) + [t];
    assert Recorded(r) == Recorded(entries) + [t];
    DistinctAppend(LettersOf(entries), t);
    assert Attributed(r, tiers, n + 1) by {
      assert r[|r| - 1] == Entry(t, n);
    }
  }

  /** One visit of a letter of tier `n` keeps all three. */
  lemma VisitKeeps(entries: seq<Entry>, tiers: seq<seq<string>>, n: nat, t: string)
    requires n < |tiers| && t in tiers[n] && Unescape(Escape(t)) == t
    requires Attributed(entries, tiers, n + 1) && Complete(entries, tiers, n) && Faithful(entries)
    ensures var r := Visit(entries, n, t);
      Attributed(r, tiers, n + 1) && Complete(r, tiers, n) && Faithful(r)
      && (n < 4 ==> t in LettersOf(r))
  {
    if !(t in Recorded(entries) || Digits(n).None?) {
      AppendKeeps(entries, tiers, n, t);
    }
  }

  lemma {:induction false} LetterRunSummary(entries: seq<Entry>, tiers: seq<seq<string>>, n: nat, letters: seq<string>)
    requires n < |tiers| && AllRoundTrip(tiers)
    requires Attributed(entries, tiers, n) && Complete(entries, tiers, n) && Faithful(entries)
    requires |letters| <= |tiers[n]| && letters == tiers[n][..|letters|]
    ensures var r := LetterRun(entries, n, letters);
      Attributed(r, tiers, n + 1) && Complete(r, tiers, n) && Faithful(r)
      && (n < 4 ==> forall x :: x in letters ==> x in LettersOf(r))
  {
    if letters != [] {
      var init, t := letters[..|letters| - 1], letters[|letters| - 1];
      assert init == tiers[n][..|init|];
      LetterRunSummary(entries, tiers, n, init);
      assert t in tiers[n] && letters == init + [t];
      VisitKeeps(LetterRun(entries, n, init), tiers, n, t);
    } else {
      assert Attributed(entries, tiers, n + 1);
    }
  }

  /** Completeness for `n` tiers and every letter of tier `n` give completeness for `n + 1`. */
  lemma CompleteExtend(entries: seq<Entry>, tiers: seq<seq<string>>, n: nat)
    requires n < |tiers| && Complete(entries, tiers, n)
    requires n < 4 ==> forall x :: x in tiers[n] ==> x in LettersOf(entries)
    ensures Complete(entries, tiers, n + 1)
  {
  }

  lemma {:induction false} EntriesSummary(tiers: seq<seq<string>>, n: nat)
    requires n <= |tiers| && AllRoundTrip(tiers)
    ensures var es := Entries(tiers[..n]);
      Attributed(es, tiers, n) && Complete(es, tiers, n) && Faithful(es)
  {
    if n > 0 {
      EntriesSummary(tiers, n - 1);
      var before := Entries(tiers[..n - 1]);
      var es := LetterRun(before, n - 1, tiers[n - 1]);
      assert Entries(tiers[..n]) == es by {
        var prefix := tiers[..n];
        assert prefix[..n - 1] == tiers[..n - 1] && prefix[n - 1] == tiers[n - 1];
      }
      assert tiers[n - 1][..|tiers[n - 1]|] == tiers[n - 1];
      LetterRunSummary(before, tiers, n - 1, tiers[n - 1]);
      CompleteExtend(es, tiers, n - 1);
    }
  }

  /**
   * When every letter survives escaping, the builder records each letter of
   * tiers 0 to 3 exactly once, attributes it to the first tier that holds it,
   * and records nothing else; tier 4 and later tiers add no entry.
   */
  lemma EntriesFirstTier(tiers: seq<seq<string>>)
    requires AllRoundTrip(tiers)
    ensures var es := Entries(tiers);
      Distinct(LettersOf(es)) && Recorded(es) == LettersOf(es)
      && (forall k :: 0 <= k < |es| ==>
            es[k].tier < 4 && es[k].tier < |tiers| && es[k].letter in tiers[es[k].tier]
            && forall j :: 0 <= j < es[k].tier ==> es[k].letter !in tiers[j])
      && (forall j, x :: 0 <= j < |tiers| && j < 4 && x in tiers[j] ==> x in LettersOf(es))
  {
    EntriesSummary(tiers, |tiers|);
    assert tiers[..|tiers|] == tiers;
  }

  /** One visit of the inner loop, spelled out for the builder. */
  lemma VisitStep(entries: seq<Entry>, tier: nat, t: string)
    ensures t in Recorded(entries) || tier >= 4 ==> Visit(entries, tier, t) == entries
    ensures !(t in Recorded(entries) || tier >= 4) ==>
      var r := Visit(entries, tier, t);
      var d := Digits(tier).value;
      r == entries + [Entry(t, tier)]
      && Recorded(r) == Recorded(entries) + [Unescape(Escape(t))]
      && TileRows(r) == TileRows(entries) + Row(Escape(t), d.tiles)
      && ScoreRows(r) == ScoreRows(entries) + Row(Escape(t), d.score)
  {
    if !(t in Recorded(entries) || tier >= 4) {
      var r := entries + [Entry(t, tier)];
      assert r[..|r| - 1] == entries;
    }
  }

  /** The rows of the builder are the rows of `Row`. */
  lemma RowDigits(e: string)
    ensures Row(e, '5') == "{ '" + e + "' , 5 } ,\n" && Row(e, '1') == "{ '" + e + "' , 1 } ,\n"
    ensures Row(e, '2') == "{ '" + e + "' , 2 } ,\n" && Row(e, '3') == "{ '" + e + "' , 3 } ,\n"
    ensures Row(e, '6') == "{ '" + e + "' , 6 } ,\n" && Row(e, '9') == "{ '" + e + "' , 9 } ,\n"
  {
  }

  // ---------------------------------------------------------------------
  // The builder.
  // ---------------------------------------------------------------------

  /**
   * The inner loop over the letters of tier `i`: each letter not yet recorded
   * gets its rows when the tier has any, and is then recorded.
   */
  method AppendTier(tier: seq<string>, i: nat, tileString0: string, scoreString0: string,
                    tileChars0: seq<string>, ghost entries0: seq<Entry>)
    returns (tileString: string, scoreString: string, tileChars: seq<string>)
    requires tileChars0 == Recorded(entries0)
    requires tileString0 == TileRows(entries0) && scoreString0 == ScoreRows(entries0)
    ensures tileChars == Recorded(LetterRun(entries0, i, tier))
    ensures tileString == TileRows(LetterRun(entries0, i, tier))
    ensures scoreString == ScoreRows(LetterRun(entries0, i, tier))
  {
    tileString, scoreString, tileChars := tileString0, scoreString0, tileChars0;
    ghost var entries := entries0;
    for l := 0 to |tier|
      invariant entries == LetterRun(entries0, i, tier[..l])
      invariant tileChars == Recorded(entries)
      invariant tileString == TileRows(entries) && scoreString == ScoreRows(entries)
    {
      assert tier[..l + 1][..l] == tier[..l];
      var t := tier[l];
      VisitStep(entries, i, t);
      RowDigits(Escape(t));
      if t in tileChars {
        continue;
      }
      ghost var letter := t;
      if t == "'" || t == "\\" {
        t := "\\" + t;
      }
      var tileRow, scoreRow;
      if i == 0 {
        tileRow, scoreRow := "{ '" + t + "' , 5 } ,\n", "{ '" + t + "' , 1 } ,\n";
      } else if i == 1 {
        tileRow, scoreRow := "{ '" + t + "' , 2 } ,\n", "{ '" + t + "' , 2 } ,\n";
      } else if i == 2 {
        tileRow, scoreRow := "{ '" + t + "' , 3 } ,\n", "{ '" + t + "' , 6 } ,\n";
      } else if i == 3 {
        tileRow, scoreRow := "{ '" + t + "' , 2 } ,\n", "{ '" + t + "' , 9 } ,\n";
      } else {
        continue;
      }
      assert tileRow == Row(Escape(letter), Digits(i).value.tiles);
      assert scoreRow == Row(Escape(letter), Digits(i).value.score);
      tileString := tileString + tileRow;
      scoreString := scoreString + scoreRow;
      if |t| > 0 && t[0] == '\\' {
        t := t[1..];
      }
      tileChars := tileChars + [t];
      entries := entries + [Entry(letter, i)];
    }
    assert tier[..|tier|] == tier;
  }

  /**
   * The tier loop of `getScrabbleLetterDistributions`: the tile rows, the
   * score rows and the recorded letters sorted and joined, in place of the
   * three page elements it fills.
   */
  method BuildTileDistribution(tiers: seq<seq<string>>) returns (tileString: string, scoreString: string, allChars: string)
    ensures tileString == TileRows(Entries(tiers))
    ensures scoreString == ScoreRows(Entries(tiers))
    ensures allChars == Join(Sort(Recorded(Entries(tiers))))
  {
    tileString, scoreString := "", "";
    var tileChars: seq<string> := [];
    for i := 0 to |tiers|
      invariant tileChars == Recorded(Entries(tiers[..i]))
      invariant tileString == TileRows(Entries(tiers[..i])) && scoreString == ScoreRows(Entries(tiers[..i]))
    {
      assert tiers[..i + 1][..i] == tiers[..i];
      tileString, scoreString, tileChars := AppendTier(tiers[i], i, tileString, scoreString, tileChars, Entries(tiers[..i]));
    }
    assert tiers[..|tiers|] == tiers;
    allChars := Join(Sort(tileChars));
  }

  // ---------------------------------------------------------------------
  // The shipped catalog.
  // ---------------------------------------------------------------------

  /**
   * The five tiers of the shipped catalog: standard eyes; standard mouths;
   * standard noses then brows; Eastern eyes then Eastern mouths; Eastern sides.
   */
  function ShippedTiers(): (r: seq<seq<string>>)
    ensures |r| == 5
  {
    Aggregate.StandardRecordsAreKnown();
    Aggregate.EasternRecordsAreKnown();
    [Letters.StandardLetters(StandardObject("eyes").value),
     Letters.StandardLetters(StandardObject("mouth").value),
     Letters.StandardLetters(StandardObject("nose").value) + Letters.StandardLetters(StandardObject("brows").value),
     Letters.EasternLetterList(EasternObject("eyes").value) + EasternObject("mouth").value.reversible,
     Letters.EasternLetterList(EasternObject("sides").value)]
  }

  /** `getScrabbleLetterDistributions` without the page writes: the three strings it shows. */
  method ScrabbleLetterDistributions() returns (tileString: string, scoreString: string, allChars: string)
    ensures tileString == TileRows(Entries(ShippedTiers()))
    ensures scoreString == ScoreRows(Entries(ShippedTiers()))
    ensures allChars == Join(Sort(Recorded(Entries(ShippedTiers()))))
  {
    Aggregate.StandardRecordsAreKnown();
    Aggregate.EasternRecordsAreKnown();
    var easternEyes := Letters.EasternLetters(EasternObject("eyes").value);
    var easternSides := Letters.EasternLetters(EasternObject("sides").value);
    var tiers := [
      Letters.StandardLetters(StandardObject("eyes").value),
      Letters.StandardLetters(StandardObject("mouth").value),
      Letters.StandardLetters(StandardObject("nose").value) + Letters.StandardLetters(StandardObject("brows").value),
      easternEyes + EasternObject("mouth").value.reversible,
      easternSides];
    tileString, scoreString, allChars := BuildTileDistribution(tiers);
  }
}
