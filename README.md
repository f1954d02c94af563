# LILACS number words, text normalisation and segmentation colours in Dafny

This project models two groups of helpers from the LILACS assistant. The first is its English formatting engine (`lilacs/util/format.py`):

- `pronounce_number` speaks a number in words. It splits the number into base-1000 groups, uses the short or the long scale, prefixes "negative", and speaks a bounded number of decimal digits.
- `convert_to_mixed_fraction` searches for the first denominator under which the fractional part is within 0.01 of a whole count.
- `nice_number` phrases that mixed fraction for display or for speech.
- `normalize` splits text on whitespace, drops articles, expands contractions, optionally singularises words and resolves coreferences, then replaces spoken numbers by their digits and strips the result.
- `singularize` rewrites the nouns found by a tagger.

The second group is the integer code inside `LILACSVisualReasoner.image_segmentation` (`lilacs/processing/vision/__init__.py`):

- the loop that collects the distinct positive labels of a segmentation map, and their class names;
- the PASCAL VOC colour map built by bit interleaving;
- `label_to_color_image`, which validates a label map and looks it up in that colour map.

The modules are:

- `Wrappers`: `Option` and `Result`.
- `Reals`: `abs`, `int()` (truncation toward zero) and `round` on exact reals.
- `Tables`: the numeral tables. These are the names of 0..19 and of the tens, the short and long scales as ordered (value, name) lists with twelve entries each, and the fraction names 1/2 .. 1/20.
- `Text`: the Python string operations the code relies on. These are `split()`, `" ".join`, `replace`, `strip()` and `str`/`int` of an integer.
- `Pronounce`: `pronounce_number` and its nested helpers.
- `MixedFraction`: `convert_to_mixed_fraction` and `nice_number`.
- `ContractionLists`: the article list and the 93 contractions of `normalize` with their expansions. Both lists are written in parts of ten. Each expansion is given by its words, and its text is those words joined by single spaces.
- `Normalize`: `normalize` and `singularize`.
- `Segmentation`: the segmentation helpers.

The code that loops or mutates is written as methods with loop invariants. Each of these methods is proved equal to a specification function, and the lemmas state the properties of that function. These are the methods:

- `SplitByThousands`
- `SpeakLongScale`
- `FractionPart`
- `PronounceNumber`
- `ConvertToMixedFraction`
- `Singularize`
- `Normalize`, `JoinWords` and `ReplaceExtracted`
- `CollectLabels` and `CollectRow`
- `CreatePascalLabelColormap`, `OrChannels`, `OrColumn` and `ShiftRight`

The colour map is a 256 x 3 `array2<bv8>` updated in place, as the source updates its NumPy array.

Some behaviours of the source are reproduced and proved as they are:

- 2000 is spoken "two thousand, ". The zero low group keeps its separator.
- In the long scale, 10^9 is spoken "one thousand". The group at index 3 takes " thousand" without the million it stands for.
- An input between -1 and 0 loses its sign in the mixed fraction.
- 4.995 becomes the mixed fraction 4 1/1. It is displayed "4 1/1" and has no spoken fraction name.

## Model

| member | source | states |
|---|---|---|
| Pronounce.SplitByThousands | lilacs/util/format.py:126-140 | the `while n:` divmod loop returns exactly the base-1000 digits `Groups(n)`, least significant first; `_split_by_millions` has the same body and is the same method |
| Pronounce.Groups | lilacs/util/format.py:126-132 | every group is below 1000 |
| Pronounce.GroupsSpec | lilacs/util/format.py:126-132 | every group is below 1000, the weighted sum of the groups is n, there are no groups exactly for n = 0, and the most significant group is non-zero |
| Pronounce.GroupsCount | lilacs/util/format.py:121-124 | n has at most k groups exactly when n < 1000^k; this decides whether the short scale has a name for every group |
| Pronounce.SubThousand | lilacs/util/format.py:106-116 | every number 0..999 has a non-empty text |
| Pronounce.SubThousandTensUnits | lilacs/util/format.py:110-112 | 21..99 that is not a multiple of ten is the name of its tens, a space and the name of its units |
| Pronounce.SubThousandHundreds | lilacs/util/format.py:113-116 | a whole number of hundreds is its digit's name and " hundred", with no " and " |
| Pronounce.ShortParts | lilacs/util/format.py:121-124 | there is one part per group (the comprehension over `enumerate`), and a part is empty exactly when its group is zero |
| Pronounce.ShortScaleJoin | lilacs/util/format.py:118-124 | no groups give ""; otherwise the text starts with the part of the most significant group and ends with the part of the least significant one (`reversed`, then `", ".join`) |
| Pronounce.ShortScaleText | lilacs/util/format.py:118-124 | zero gives ""; a number 1..999 is exactly its `_sub_thousand` text |
| Pronounce.PronouncedGroup | lilacs/util/format.py:101-116 | every number 1..999 is spoken as `_sub_thousand` speaks it, both when it is a key of the name table and when it is decomposed |
| Pronounce.DirectGroupText | lilacs/util/format.py:101-116 | for a group that is a table key, the direct-match text ("one " before keys above 90) equals the `_sub_thousand` text |
| Pronounce.SmallName | lilacs/util/format.py:106-112 | for 1..99 in the number-name table, `_sub_thousand` gives the table word (the tens add no digit) |
| Pronounce.SmallNotScaleKey | lilacs/util/format.py:78-92 | below 1000 only 100 is a scale-table key |
| Pronounce.ShortGroupAlone | lilacs/util/format.py:118-124 | a single non-zero group alone is its own `_sub_thousand` text, with no separator and no scale name |
| Pronounce.ShortTwoGroups | lilacs/util/format.py:118-124 | a number 1000..999999 that is not a key is its thousands group, " thousand, " and its low group; a zero low group still leaves the ", " |
| Pronounce.TwoGroups | lilacs/util/format.py:126-132 | a number 1000..999999 splits into the groups [n % 1000, n / 1000] |
| Pronounce.TwoShortParts | lilacs/util/format.py:121-124 | group 0 gets no scale name, group 1 gets " thousand", and a zero group contributes "" |
| Pronounce.PronouncedShortScale | lilacs/util/format.py:100-105 | a whole number that is not a key and fits the short scale is spoken as its `_short_scale` decomposition |
| Pronounce.PronouncedTwoThousand | lilacs/util/format.py:118-124 | 2000 is spoken "two thousand, ", with the empty low group keeping its separator |
| Pronounce.TwoThousandNotKey | lilacs/util/format.py:78-83 | 2000 is not a key of the merged short-scale name table |
| Pronounce.PronouncedDirect | lilacs/util/format.py:100-104 | a key of the merged name table is spoken as that single word, with "one " before keys above 90 |
| Pronounce.PronouncedHundred | lilacs/util/format.py:100-104 | 100 is a key and is spoken "one hundred" |
| Pronounce.PronouncedThousand | lilacs/util/format.py:100-104 | 1000 is a key and is spoken "one thousand" |
| Pronounce.ThousandName | lilacs/util/format.py:78-83 | 1000 is named "thousand" in the merged short-scale table |
| Pronounce.HundredName | lilacs/util/format.py:78-83 | 100 is named "hundred" in the merged short-scale table, and `_sub_thousand(100)` gives the same words as the direct match |
| Pronounce.PronouncedNegative | lilacs/util/format.py:94-98 | a negative number is "negative " followed by the words of its absolute value |
| Pronounce.NegationPronounceable | lilacs/util/format.py:94-98 | a number and its negation can be spoken alike, because only the absolute value is looked up |
| Pronounce.SpeakLongScale | lilacs/util/format.py:142-159 | the `_long_scale` loop returns `LongScaleText`: "infinity" from 10^154 on; otherwise the texts of the non-zero groups, each with its index-dependent suffix, most significant first, joined by " " |
| Pronounce.PronouncedLongScale | lilacs/util/format.py:142-164 | a whole number below 10^154 that is not a key and whose groups all have suffixes is spoken as its long-scale decomposition |
| Pronounce.LongInfinity | lilacs/util/format.py:143-144 | every number from 10^154 on is spoken "infinity" in the long scale, followed only by the fractional part |
| Pronounce.InfinityNotKey | lilacs/util/format.py:82-83 | no number from 10^154 on is a key of the long-scale name table |
| Pronounce.LongThousandMillion | lilacs/util/format.py:148-159 | in the long scale, 10^9 is spoken "one thousand" |
| Pronounce.BillionLongParts | lilacs/util/format.py:148-158 | the groups [0, 0, 0, 1] have suffixes, and the only part they give is "one thousand" (index 3 takes " thousand") |
| Pronounce.BillionGroups | lilacs/util/format.py:134-140 | 10^9 splits into the groups [0, 0, 0, 1] |
| Pronounce.BillionNotLongKey | lilacs/util/format.py:82-83 | 10^9 is not a key of the merged long-scale name table |
| Pronounce.SpokenDigits | lilacs/util/format.py:170-173 | every spoken digit is 1..9 |
| Pronounce.SpokenDigitsBound | lilacs/util/format.py:170-173 | at most `places` digits are spoken (none when places <= 0) |
| Pronounce.SpokenDigitAt | lilacs/util/format.py:170-171 | the i-th spoken digit is `int(num * 10^(k+i)) % 10`, the decimal digit at its own position, and it is non-zero |
| Pronounce.SpokenDigitsEndAtZero | lilacs/util/format.py:170 | when fewer than `places` digits are spoken, the digit after the last spoken one is zero |
| Pronounce.PointWithoutDigits | lilacs/util/format.py:167-170 | a non-integral number whose first decimal digit is zero gets " point" and no digit words |
| Pronounce.FractionPart | lilacs/util/format.py:166-173 | the decimal loop returns `FractionText`: " point" only for a non-integral number with places > 0, then the words of the spoken digits |
| Pronounce.PronounceNumber | lilacs/util/format.py:78-174 | `pronounce_number` outside scientific notation equals `Pronounced`: the sign word, the direct match or the short/long decomposition of the absolute value, then the fractional part |
| Tables.ScaleNames | lilacs/util/format.py:89-92 | `hundreds` has one name per scale entry, in key order, and the short and the long scale give the same twelve names, "hundred" to "decillion" |
| Tables.ScaleTablesShaped | lilacs/util/format.py:89-92 | both scale tables have twelve entries in ascending order: 100, then 1000^k (short scale) or 1000, then 10^(6(k-1)) (long scale) |
| Tables.ScaleKeyAtLeastThousand | lilacs/util/format.py:89-92 | every scale key after "hundred" is at least 1000 |
| Tables.NumStringsDomain | lilacs/util/format.py:85-87 | the number names cover exactly 0..19 and the tens 20..90 below 100 |
| Tables.ScaleLookup | lilacs/util/format.py:78-83 | a lookup succeeds exactly when some scale entry has the key, and it returns that entry's name |
| MixedFraction.Denominators | lilacs/util/format.py:196-197 | an empty denominator list becomes the twenty denominators 1, 2, .., 20 in that order; a non-empty one is kept |
| MixedFraction.FracPart | lilacs/util/format.py:195 | the fractional part `abs(number - int(number))` is non-negative |
| MixedFraction.ConvertToMixedFraction | lilacs/util/format.py:191-206 | the `for`/`else` search returns `MixedFractionOf(x, ds)` |
| MixedFraction.MixedOfFit | lilacs/util/format.py:199-206 | for a non-integral input, the result is read off the first-fit search: None when nothing fits, else (int(x), numerator, denominator) |
| MixedFraction.FirstFitSpec | lilacs/util/format.py:199-204 | the search fails exactly when no denominator fits, and otherwise returns the rounded numerator of the first one that fits, in list order |
| MixedFraction.MixedIntegral | lilacs/util/format.py:191-193 | an integral input gives (n, 0, 1) |
| MixedFraction.MixedFirstFit | lilacs/util/format.py:191-206 | for a non-integral input, the result is None exactly when no denominator fits; otherwise it holds `int(x)`, the first fitting denominator (1..20 by default) and the rounded numerator |
| MixedFraction.MixedApproximates | lilacs/util/format.py:195-206 | the numerator is never negative, and whole + num/den is within 0.01/den of the magnitude of the input |
| MixedFraction.MixedFits | lilacs/util/format.py:199-206 | a non-integral result holds `int(x)`, a fitting denominator and its rounded numerator |
| MixedFraction.NumeratorNonNegative | lilacs/util/format.py:200-206 | `round(abs(frac) * d)` is non-negative for d >= 0 |
| MixedFraction.FitsClose | lilacs/util/format.py:200-201 | a denominator that passes the 0.01 test puts num/den within 0.01/den of the fractional part |
| MixedFraction.MixedSignLostNearZero | lilacs/util/format.py:191-206 | an input between -1 and 0 gives the same mixed fraction as its absolute value, with whole part 0 |
| MixedFraction.Phrase | lilacs/util/format.py:31-52 | the phrasing fails (a missing `FRACTION_STRING_EN` key) exactly in speech mode with a non-zero numerator whose denominator has no name, and the error is that denominator |
| MixedFraction.DisplayReadsBack | lilacs/util/format.py:31-36 | the display form reads back: `str(whole)` when num = 0, otherwise `"{whole} {num}/{den}"` parses back into the same mixed fraction |
| MixedFraction.ReadMixedOf | lilacs/util/format.py:36 | `"{whole} {num}/{den}"` splits back into its three numerals |
| MixedFraction.IndexOf | lilacs/util/format.py:36 | (reader of the display form) the index found is the first occurrence, or the length when there is none |
| MixedFraction.NiceNumber | lilacs/util/format.py:10-52 | without a mixed fraction the result is the rounded text; display never fails; a failure happens only in speech, for a denominator without a name; a display with a non-zero numerator reads back as the mixed fraction; a zero numerator gives `str(whole)` |
| MixedFraction.SpokenFraction | lilacs/util/format.py:41-51 | a numerator of one ends in "a X", a larger one in " Xs" and any other in " X"; a non-zero whole number starts the phrase followed by " and ", and without one the phrase starts with "a " or the numerator |
| MixedFraction.SpokenFractionShape | lilacs/util/format.py:41-52 | for a fraction name that does not end in "s", the speech phrase ends in "s" exactly when num > 1 |
| MixedFraction.FractionNamesSingular | lilacs/util/format.py:40-51 | no fraction name ends in "s", so the final "s" appears only by pluralisation |
| MixedFraction.NiceNumberWholeFraction | lilacs/util/format.py:24-40 | 4.995 becomes 4 1/1 under the default denominators; it is displayed "4 1/1", and in speech the denominator 1 has no name |
| Normalize.SingularWords | lilacs/util/format.py:214-221 | one word per token, in order: a noun outside the ignore list is singularised, "are" becomes "is", any other token is kept |
| Normalize.Singularize | lilacs/util/format.py:209-222 | the token loop returns the words of `SingularWords` joined by " " |
| Normalize.SingularWordCases | lilacs/util/format.py:212-221 | "are" that is not a noun becomes "is", an ignored word is never singularised, and any other noun goes through the singulariser |
| Normalize.SingularizePlain | lilacs/util/format.py:215-221 | tokens that are neither nouns nor "are" are kept verbatim |
| Normalize.Position | lilacs/util/format.py:283 | `list.index`: None exactly when the word is absent; otherwise the first position holding it |
| Normalize.TablesAligned | lilacs/util/format.py:237-282 | the contraction and expansion lists both have 93 entries |
| Normalize.ExpandSpec | lilacs/util/format.py:257-283 | a word that is not a contraction is kept; a contraction becomes the expansion at the index of its first occurrence |
| Normalize.FirstOccurrenceUnique | lilacs/util/format.py:283 | there is only one first occurrence |
| Normalize.JoinWords | lilacs/util/format.py:232-288 | the word loop returns `WordStage`: " " + word for every word that is kept, after expansion and optional singularisation |
| Normalize.WordStageJoin | lilacs/util/format.py:288 | the accumulated text is the kept words joined by single spaces after one leading space, or "" when nothing is kept |
| Normalize.KeptCount | lilacs/util/format.py:233-234 | without article removal every word is kept; with it, exactly the articles "the", "a" and "an" are dropped |
| Normalize.KeptOrigin | lilacs/util/format.py:233-283 | without singularisation, every kept word is an expansion, or an input word that is neither a contraction nor a removed article |
| Normalize.KeptUnchanged | lilacs/util/format.py:233-288 | words that are neither contractions nor removed articles pass through unchanged |
| Normalize.ReplaceExtracted | lilacs/util/format.py:295-307 | the number loop replaces each number's spoken text by its digits in turn, then strips; it fails at the first number `pronounce_number` cannot speak |
| Normalize.ReplaceNumbersFails | lilacs/util/format.py:297-298 | the replacement fails exactly when some extracted number cannot be spoken |
| Normalize.ReplaceNumbersFirstFailure | lilacs/util/format.py:297-298 | the error is the first extracted number that cannot be spoken |
| Normalize.DropPointZeroIntegral | lilacs/util/format.py:299-301 | `str` of an integral float loses its ".0", and an integer's text is kept: both become the integer's digits |
| Normalize.Normalize | lilacs/util/format.py:225-307 | `normalize` equals `Normalized`: the word loop, the optional coreference step on the text without its first character, the number replacement and the final strip |
| Normalize.NormalizePlain | lilacs/util/format.py:228-307 | text with no contractions, removed articles or numbers normalises to its words joined by single spaces, and normalising that again changes nothing |
| Normalize.NormalizeIdempotent | lilacs/util/format.py:228-307 | for any text, without singularisation, coreference resolution or numbers, `normalize` succeeds and normalising its output again gives the same output |
| ContractionLists.ContractionsMarked | lilacs/util/format.py:237-256 | every contraction holds an apostrophe or is "gonna", "gotta" or "whats" |
| ContractionLists.PlainWordNotKey | lilacs/util/format.py:233-257 | a word of letters only, other than "gonna", "gotta", "whats" and the articles, is a word of `split()`, not a contraction and not an article |
| ContractionLists.ExpansionSplits | lilacs/util/format.py:258-283 | each expansion splits into its own words, rejoins to itself, and none of its words is a contraction or an article |
| Text.Split | lilacs/util/format.py:229 | `split()` yields non-empty words without whitespace |
| Text.WordPrefix | lilacs/util/format.py:229 | the first word is the longest whitespace-free prefix |
| Text.SplitJoinRoundTrip | lilacs/util/format.py:229-288 | splitting the single-space join of words gives the words back |
| Text.JoinSnoc | lilacs/util/format.py:288 | appending one more part to a join adds one separator |
| Text.JoinWordsStrip | lilacs/util/format.py:288-307 | stripping the leading space off " " + the join of words gives the join |
| Text.ReplaceAllFirst | lilacs/util/format.py:302 | `replace` is global: the leftmost occurrence is replaced, and the replacement goes on after it |
| Text.ReplaceAllAbsent | lilacs/util/format.py:302 | a text without the pattern is left unchanged |
| Text.StripSpec | lilacs/util/format.py:307 | `strip()` leaves a slice of the input that neither starts nor ends with whitespace, with only whitespace around it |
| Text.TrimStart | lilacs/util/format.py:307 | the result is a suffix of the input that does not start with whitespace, and everything removed is whitespace |
| Text.TrimEnd | lilacs/util/format.py:307 | the result is a prefix of the input that does not end with whitespace, and everything removed is whitespace |
| Text.IntToStringRoundTrip | lilacs/util/format.py:34-39 | `str` of an integer reads back as that integer |
| Text.ParseNatToString | lilacs/util/format.py:34-39 | the decimal digits of a natural number read back as that number |
| Text.IntToStringHasNoSeparator | lilacs/util/format.py:36 | the text of an integer contains no whitespace and no '/' |
| Text.Reverse | lilacs/util/format.py:121-124 | `reversed`: element i is element len - 1 - i of the input |
| Segmentation.CollectLabels | lilacs/processing/vision/__init__.py:221-225 | the nested loops return `Collected` of the row-by-row scan |
| Segmentation.CollectRow | lilacs/processing/vision/__init__.py:223-225 | the inner loop extends the labels collected so far by those of one row |
| Segmentation.CollectedAppend | lilacs/processing/vision/__init__.py:224-225 | one more cell is appended exactly when it is positive and not yet collected |
| Segmentation.CollectedSpec | lilacs/processing/vision/__init__.py:221-225 | the collected labels are positive and pairwise distinct, and they are exactly the positive values of the map |
| Segmentation.CollectedOrder | lilacs/processing/vision/__init__.py:221-225 | the collected labels stand in the order of their first occurrence in the row-by-row scan |
| Segmentation.FirstIndex | lilacs/processing/vision/__init__.py:224 | the position found holds the label and has no earlier occurrence |
| Segmentation.NameLabels | lilacs/processing/vision/__init__.py:226 | the names exist exactly when every label indexes `LABEL_NAMES`; each name is that of the label at the same position |
| Segmentation.CollectedNames | lilacs/processing/vision/__init__.py:214-228 | the collected labels all have names exactly when no cell holds a label above 20, and each is then named by its own entry in the 21 class names |
| Segmentation.CreatePascalLabelColormap | lilacs/processing/vision/__init__.py:230-243 | the in-place construction yields a fresh 256 x 3 array whose entry (r, ch) is `Colormap(r, ch)`, the result of the eight OR-and-shift passes |
| Segmentation.OrChannels | lilacs/processing/vision/__init__.py:239-240 | one pass over the three channels advances every entry by one shift step |
| Segmentation.OrColumn | lilacs/processing/vision/__init__.py:240 | `colormap[:, channel] \|= ((ind >> channel) & 1) << shift` changes that column only |
| Segmentation.ShiftRight | lilacs/processing/vision/__init__.py:241 | `ind >>= 3` shifts every entry |
| Segmentation.ChannelStep | lilacs/processing/vision/__init__.py:238-241 | each pass ORs the channel bit of the current index into bit 7 - j |
| Segmentation.ColormapInterleaves | lilacs/processing/vision/__init__.py:235-243 | bit 3k + ch of the row index becomes bit 7 - k of channel ch, and nothing else is set |
| Segmentation.IndexAfterVanishes | lilacs/processing/vision/__init__.py:241 | after three shifts by 3 an 8-bit index is zero |
| Segmentation.ColormapRowsDistinct | lilacs/processing/vision/__init__.py:235-243 | the row index can be read back from its colour, so distinct labels get distinct colours |
| Segmentation.ColormapFirstRows | lilacs/processing/vision/__init__.py:235-241 | row 0 is (0, 0, 0) and row 1 is (128, 0, 0) |
| Segmentation.MaxOf | lilacs/processing/vision/__init__.py:262 | `np.max`: the maximum is an element and bounds every element |
| Segmentation.LabelToColorImage | lilacs/processing/vision/__init__.py:245-265 | the lookup succeeds exactly for a non-empty rank-2 map whose maximum is below 256 and whose labels are at least -256; it then has the same shape and gives each cell its colour-map row |
| Segmentation.FlattenCells | lilacs/processing/vision/__init__.py:222-223 | the row-by-row scan visits exactly the cells of the map |

## Left out

- The scientific-notation branch of `pronounce_number` (lilacs/util/format.py:70-77) is not modelled. It depends on Python's `'%E'` formatting of floats.
- Numbers are exact reals. IEEE rounding of `num * place`, of `abs(frac) * d` and of the 0.01 test is not modelled. `round` rounds halves up, because the 0.01 test never accepts a half, so banker's rounding would give the same results.
- `str(round(number, 3))`, the fallback of `nice_number`, is the parameter `rounded` of `MixedFraction.NiceNumber`. `str` of an extracted number in `normalize` is the collaborator `show`.
- The spaCy tagger, `inflect.singularize`, `replace_coreferences` and `extract_numbers` are function parameters (`Collaborators`). The default-loading of `get_nlp()` is not modelled.
- `lilacs/util/__init__.py`, which defines the numeral tables, is not part of this model. The tables are reconstructed from their uses: the names of 0..19 and the tens, twelve short-scale and twelve long-scale entries in key order, and fraction names for 2..20.
- Where `pronounce_number` would index past the end of `hundreds` (an IndexError), `PronounceNumber` has the precondition `Pronounceable`. `normalize` turns such a number into `Failure(n)`.
- The `assert` statements inside the nested helpers are preconditions (`n <= 999`) or hold by construction.
- `Normalize.TablesAligned`: the 93 contraction keys are distinct in the source, but this is not proved. Comparing that many string literals is beyond the solver's budget. `Expand` uses the first occurrence, as `list.index` does, so the behaviour does not depend on it.
- Colour-map entries are `bv8`. The source's `int` entries are always below 256, and `.astype(np.uint8)` keeps them unchanged.
- `Segmentation.LabelToColorImage` is over a `seq<seq<int>>`. A ragged map stands for an array whose rank is not 2. An empty map is rejected as `np.max` rejects it. A label below -256 is the IndexError of `colormap[label]`.
- `Segmentation.NameLabels` follows Python's negative indexing into `LABEL_NAMES`. The collected labels are positive, so that case never arises.
- The HTTP wrappers, file I/O, PIL resizing, blending and saving, and the remaining methods of `LILACSVisualReasoner` are not modelled. Neither is `LILACSReactor` in `lilacs/__init__.py`. These are I/O and orchestration around remote services.
