# Emoticon generator

A model of the emoticon generator in `EmoticonGenerator.js`. It covers the following parts:

- **The component catalog.** These are fixed records of characters for each part of an emoticon.
  - Standard emoticons have brows, eyes, nose and mouth. Each record has the slots `Reversible`, `L2R` and `R2L`.
  - Eastern emoticons have sides, eyes and mouth. Sides and eyes have `Reversible`, `Left`, `Right` and `Paired`; the mouth has `Reversible` only.
  - A record is looked up by name, ignoring case and surrounding white space. The catalog also holds the list of exceptional emoticons (`"<3"`).
- **The standard generator.** For one orientation it takes every brow × eye × nose × mouth combination in nested-loop order and drops the excluded ones:
  - the nose equals the mouth;
  - the eye equals the mouth and there is no nose;
  - the nose is `v` and the mouth is `V`.
  Left to right it writes brow, eye, nose, mouth; right to left it writes mouth, nose, eye, brow.
- **The Eastern generator.** For every side pair it runs an independent-eye pass and then a paired-eye pass. Each pass writes `left side + left eye + mouth + right eye + right side`. The paired pass drops a face when either eye of the pair is the mouth. The independent pass drops it when the left eye is the mouth, or when the left-eye list at the right eye's index is the mouth (line 291); a right eye equal to the mouth can therefore get through.
- **The letter extractors.** They return the distinct non-empty characters of a record, in first-seen order.
- **The aggregator.** It returns the exceptions, both standard orientations and the Eastern emoticons, concatenated and sorted.
- **The Scrabble tile builder.** It takes letters in five tiers. A letter not yet recorded that sits in tiers 0 to 3 gets one tile row and one score row with the digits of that tier, and is recorded. A letter found only in tier 4 gets no row and is not recorded (lines 417-418). The recorded string is the escaped letter with its leading backslash removed (lines 392-394 and 422-424). That is the letter itself, except that a letter that starts with a backslash and is more than the backslash alone loses that backslash (`Tiles.EscapeRoundTrip`). The builder also returns the recorded letters, sorted and joined.

Modules, one per file:

- `Collections`: helpers on sequences. These are `Option`, de-duplication in first-seen order and filtering out empty strings.
- `Catalog`: the records, name normalisation and the exceptions.
- `StringOrder`: the character-by-character order of strings, a sort specified by that order, and `join("")`. The order compares Unicode scalar values. It agrees with the UTF-16 code-unit order of the default `Array.prototype.sort` for strings inside the Basic Multilingual Plane, which holds every catalog character.
- `Standard`: the standard generator. It has a specification function that follows the loop structure, membership and count lemmas, and the loop method proved against it.
- `Eastern`: the Eastern generator, structured the same way.
- `Letters`: both letter extractors.
- `Aggregate`: `generateAllEmoticons`.
- `Tiles`: the tile builder.

At these points the model follows the code as written:

- **Line 291.** The comment at line 290 says a face is rejected when the mouth and an eye are the same character. The test itself reads `easternEyesL[eRight]`, the left-eye list at the right eye's index.
  - `Eastern.ShippedProbeIsRightEyeTest` proves this makes no difference for the shipped eye lists.
  - `Eastern.ProbeDiffersFromRightEyeTest` exhibits eye lists where it does.
- **Lines 277-284.** The comment at line 276 says all side pairs are calculated from the reversible and side-exclusive characters. The loop pushes onto `easternSidesPaired.Paired`, which is undefined on an array, so the first run of the inner loop's body throws.
  - The model returns `None` exactly when both `Reversible + Left` and `Reversible + Right` are non-empty.
  - Otherwise only the declared side pairs are used. `Aggregate.EasternRecordsAreKnown` shows the shipped side record is in the second case.
- **Line 380, tier 3.** The tier is the Eastern eye letters followed by the Eastern mouth list as stored. A mouth character already recorded is skipped by the first-occurrence check.
- **Lines 118 and 213.** An unknown component name gives the empty object `{}`. The lookups return `None` for it. The generators take records, so a caller must supply a known record.

## Model

| member | source | states |
|---|---|---|
| Catalog.StandardObject | EmoticonGenerator.js:26-120 | A record is found exactly when the normalised name is brows, nose, mouth or eyes; any other name gives no record. |
| Catalog.EasternObject | EmoticonGenerator.js:123-215 | A record is found exactly when the normalised name is sides, eyes or mouth. It has the four sided slots exactly when the name is not mouth. |
| Catalog.EmoticonExceptions | EmoticonGenerator.js:218-220 | The exception list contains the heart `<3`. |
| Catalog.KeyIgnoresSurroundingWhite | EmoticonGenerator.js:27 | White space before or after a name (the characters `trim` removes) does not change its lookup key. |
| Catalog.KeyIgnoresCase | EmoticonGenerator.js:27 | Upper-casing the Latin letters of a name does not change its lookup key. |
| Catalog.LookupIgnoresCaseAndWhiteSpace | EmoticonGenerator.js:124 | Both lookups give the same record for a name, whatever its case and surrounding white space. |
| Standard.ComponentsMember | EmoticonGenerator.js:226-232 | The component list has `Reversible` plus the one-way slot of the chosen orientation. Its length is the sum, and a string is in it exactly when it is in one of those two slots. |
| Standard.CandidatesAt | EmoticonGenerator.js:243-246 | The candidate at index ((b·E + e)·N + n)·M + m is (brow b, eye e, nose n, mouth m): the order of the four nested loops. |
| Standard.CandidatesMember | EmoticonGenerator.js:243-246 | A tuple is a candidate exactly when each of its parts is in its component list. |
| Standard.EmitMember | EmoticonGenerator.js:249-256 | A string is emitted exactly when some candidate that is not excluded assembles to it in the chosen orientation. |
| Standard.EmitKeepsOrder | EmoticonGenerator.js:249-251 | Filtering never lengthens the list. When no candidate is excluded, position p of the output is candidate p assembled. |
| Standard.StandardShape | EmoticonGenerator.js:249-256 | A face is generated exactly when its brow, eye, nose and mouth come from the component lists, the exclusion rule does not hold, and the parts are concatenated in the orientation's order. |
| Standard.StandardCount | EmoticonGenerator.js:243-260 | At most brows × eyes × noses × mouths faces are generated, and exactly that many when no candidate is excluded. |
| Standard.BrowRunIsEmit | EmoticonGenerator.js:243-260 | What the four loops push, in order, is the filtered candidate list in nested-loop order. |
| Standard.AppendNosesAndMouths | EmoticonGenerator.js:245-258 | The two inner loops append to the list exactly the faces of one brow and eye, in loop order. |
| Standard.GenerateStandard | EmoticonGenerator.js:236-263 | The generator returns exactly the filtered, assembled candidate list. |
| Eastern.MouthRunMember | EmoticonGenerator.js:289-295 | The mouth loop emits a face exactly for a mouth that differs from the left eye and passes the test of line 291. |
| Eastern.RightRunMember | EmoticonGenerator.js:288-296 | The right-eye loop emits a face exactly for some right eye and mouth meeting both eye tests. |
| Eastern.LeftRunMember | EmoticonGenerator.js:287-297 | The independent pass emits a face exactly for some left eye, right eye and mouth meeting both eye tests. |
| Eastern.PairMouthRunMember | EmoticonGenerator.js:300-305 | For one eye pair, a face is emitted exactly for each mouth that equals neither paired eye. |
| Eastern.PairRunMember | EmoticonGenerator.js:299-306 | The paired pass emits a face exactly for some declared eye pair and mouth that equals neither eye of the pair. |
| Eastern.SideRunMember | EmoticonGenerator.js:286-307 | A face is generated exactly when some side pair frames an independent-pass face or a paired-pass face. |
| Eastern.ShippedProbeIsRightEyeTest | EmoticonGenerator.js:291 | For the shipped eye lists, testing the left-eye list at the right-eye index is the same as testing the right eye. |
| Eastern.ProbeDiffersFromRightEyeTest | EmoticonGenerator.js:291 | With shared eye `a`, right-only eye `b` and mouth `b`, the test at line 291 passes although the right eye is the mouth, so the generator emits `abb`. |
| Eastern.AppendMouths | EmoticonGenerator.js:289-295 | The mouth loop appends exactly the faces of one side pair, left eye and right eye. |
| Eastern.AppendIndependent | EmoticonGenerator.js:287-297 | The independent-eye loops append exactly the independent-pass faces of one side pair, in loop order. |
| Eastern.AppendPaired | EmoticonGenerator.js:299-306 | The paired-eye loops append exactly the paired-pass faces of one side pair, in loop order. |
| Eastern.GenerateEastern | EmoticonGenerator.js:266-310 | The generator fails exactly when the side-pairing loop would run (both loose side lists non-empty). Otherwise it returns every side pair's independent faces and then its paired faces. |
| Collections.DistinctNonEmpty | EmoticonGenerator.js:314-322 | The filtered, de-duplicated list has no empty string and no repeat. It holds exactly the non-empty members of the input, in first-seen order. |
| Letters.StandardLetters | EmoticonGenerator.js:313-323 | The letters are exactly the distinct non-empty strings of the three slots, in first-seen order. |
| Letters.PairMembers | EmoticonGenerator.js:330-333 | Two strings per pair, and exactly the left and right members of the declared pairs. |
| Letters.EasternLetterList | EmoticonGenerator.js:326-344 | The letters are exactly the distinct non-empty strings of the three slots and of both sides of every declared pair, in first-seen order. |
| Letters.EasternLetters | EmoticonGenerator.js:326-344 | The push loop builds the list `EasternLetterList` describes. |
| Aggregate.StandardRecordsAreKnown | EmoticonGenerator.js:350 | All four standard lookups made by the aggregator find a record. |
| Aggregate.EasternRecordsAreKnown | EmoticonGenerator.js:129-131 | All three Eastern lookups find a record; sides and eyes have the sided slots; the shipped sides have no loose characters, so the Eastern generator does not fail. |
| StringOrder.LeTotal | EmoticonGenerator.js:353 | Any two strings are comparable in the default sort order. |
| StringOrder.LeTransitive | EmoticonGenerator.js:353 | The default sort order is transitive. |
| StringOrder.LeAntisymmetric | EmoticonGenerator.js:353 | Two strings ordered both ways are equal. |
| StringOrder.Sort | EmoticonGenerator.js:353 | The result is sorted in character order (the code-unit order for strings inside the Basic Multilingual Plane) and is a permutation of the input. |
| StringOrder.SortedPermutationUnique | EmoticonGenerator.js:353 | Two sorted permutations of the same strings are equal, so the sorted output does not depend on the sort algorithm. |
| StringOrder.Join | EmoticonGenerator.js:431 | Joining one-character strings gives a string of the same length whose characters are those strings, in order. |
| Aggregate.AllEmoticons | EmoticonGenerator.js:347-354 | The result is sorted and is a permutation of exceptions + standard left-to-right + standard right-to-left + Eastern. Its length is the sum of theirs and it contains `<3`. |
| Aggregate.GenerateAllEmoticons | EmoticonGenerator.js:347-354 | The aggregator returns the list `AllEmoticons` describes. |
| Tiles.EscapeRoundTrip | EmoticonGenerator.js:392-424 | Escaping a letter and then removing its first backslash gives the letter back exactly when the letter does not start with a backslash or is the backslash itself. |
| Tiles.Digits | EmoticonGenerator.js:396-419 | A tier has tile and score digits exactly when it is below 4; tiers 4 and later fall to the `default` branch and get no row. |
| Tiles.TierScoresRise | EmoticonGenerator.js:375 | A later tier always scores more, as the comment on the tiers says. Tier 0 has more tiles than any later tier, but tier 2 has more tiles than tier 1, so abundance does not fall at every step. |
| Tiles.EntriesFirstTier | EmoticonGenerator.js:385-427 | Each letter of tiers 0 to 3 is recorded exactly once, under the first tier that holds it. Nothing else is recorded, and tier 4 adds nothing. |
| Tiles.AppendTier | EmoticonGenerator.js:386-426 | The inner loop over one tier appends the rows and recorded letters of the tier's letters not recorded before. The rows written by the literal switch carry the digits `Digits` gives the tier. |
| Tiles.BuildTileDistribution | EmoticonGenerator.js:385-431 | The tile text, score text and letter text are the rows of the first-tier entries and the recorded letters sorted and joined. |
| Tiles.ShippedTiers | EmoticonGenerator.js:376-382 | There are five tiers: standard eyes, standard mouths, standard noses then brows, Eastern eyes then Eastern mouths, and Eastern sides. |
| Tiles.ScrabbleLetterDistributions | EmoticonGenerator.js:370-434 | The three strings are those `BuildTileDistribution` gives for the shipped tiers. |

## Left out

- `displayAllEmoticons` (lines 358-367) and the page writes of the tile builder (lines 429-431) are presentation. The builder returns the three strings it would write instead. Its `return 0` (line 433) carries no information.
- The internals of `Set` and `Array.prototype.sort` are not modelled. The results are specified instead: first-seen de-duplication, and a sorted permutation in character order.
- The sort order is modelled on Unicode scalar values, not UTF-16 code units. The two differ for strings with characters outside the Basic Multilingual Plane; the catalog has none.
- `toLowerCase` is modelled on the Latin letters A to Z only. The catalog names are ASCII, so no other letter can form a key.
- The tile builder writes the escaped letter back into `tiers[i][l]` (line 393). Nothing reads that slot again, so the model keeps the escaped letter in a local instead.
- The second `case 1` of the switch (line 405) can never be reached and has no counterpart.
- Tiles.EntriesFirstTier: requires every letter to survive escaping (`AllRoundTrip`). Without that, a letter that starts with a backslash and is more than the backslash alone is recorded without that backslash, and the first-occurrence check then compares against the altered letter. That the shipped tiers satisfy `AllRoundTrip` is not proved; they are single characters by inspection of the catalog.
- Eastern.GenerateEastern: the `TypeError` thrown by the side-pairing loop is modelled as a `None` result, not as an exception.
- Eastern.GenerateEastern: requires both the sides and the eyes record to have the sided slots. With the mouth-shaped record the source would concatenate `undefined` and produce garbage strings or throw.
- Letters.EasternLetterList: takes found records, and so do `Letters.EasternLetters` and `Letters.StandardLetters`. The Eastern ones also require sided records. The source throws otherwise: at line 330 on the mouth-shaped record, and at line 314 or 327 on the `{}` of an unknown name. Lines 377-381 never call them that way.
- Standard.GenerateStandard: takes found records only. With the empty object of an unknown name the source throws at line 228.
