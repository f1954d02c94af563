/** English text normalisation: whitespace splitting, article removal,
    contraction expansion, optional singularisation and coreference
    resolution, and the replacement of spoken numbers by their digits.
    The part-of-speech tagger, the singulariser, the coreference resolver,
    the number extractor and the host language's `str` of a number are
    collaborators, passed in as functions. */
module Normalize {
  import opened Wrappers
  import opened Text
  import opened Pronounce
  import opened ContractionLists

  // -----------------------------------------------------------------------
  // Singularisation (format.py, `singularize`)

  /** A token of the tagger: its text and whether it is tagged as a noun. */
  datatype Token = Token(text: string, noun: bool)

  /** Words that are never singularised even when tagged as nouns. */
  const Ignores: seq<string> := ["this", "data", "my", "was"]

  /** The fixed rewrites of words that are not singularised. */
  const Replaces: map<string, string> := map["are" := "is"]

  /** The text one token contributes: a noun outside `Ignores` goes through
      the singulariser, a key of `Replaces` is rewritten, anything else is
      kept. */
  function SingularWord(t: Token, singular: string -> string): string {
    if t.noun && t.text !in Ignores then singular(t.text)
    else if t.text in Replaces then Replaces[t.text]
    else t.text
  }

  /** The words of the tokens, in order. */
  function SingularWords(ts: seq<Token>, singular: string -> string): (ws: seq<string>)
    ensures |ws| == |ts|
    ensures forall i :: 0 <= i < |ts| ==> ws[i] == SingularWord(ts[i], singular)
    decreases |ts|
  {
    if ts == [] then []
    else SingularWords(ts[..|ts| - 1], singular) + [SingularWord(ts[|ts| - 1], singular)]
  }

  /** `singularize(text, nlp)`, the tagger being `tagger`. */
  function SingularizeText(text: string, tagger: string -> seq<Token>, singular: string -> string): string {
    Join(" ", SingularWords(tagger(text), singular))
  }

  /** `singularize`: the loop that appends one word per token. */
  method Singularize(text: string, tagger: string -> seq<Token>, singular: string -> string)
    returns (r: string)
    ensures r == SingularizeText(text, tagger, singular)
  {
    var doc := tagger(text);
    var words: seq<string> := [];
    for i := 0 to |doc|
      invariant words == SingularWords(doc[..i], singular)
    {
      var tok := doc[i];
      var w: string;
      if tok.noun && tok.text !in Ignores {
        w := singular(tok.text);
      } else if tok.text in Replaces {
        w := Replaces[tok.text];
      } else {
        w := tok.text;
      }
      assert doc[..i + 1][..i] == doc[..i];
      words := words + [w];
    }
    assert doc[..|doc|] == doc;
    r := Join(" ", words);
  }


  // -----------------------------------------------------------------------
  // Contractions

  /** A contraction list and its expansion list. */
  datatype Table = Table(keys: seq<string>, values: seq<string>)

  /** Every key has an expansion at its index. */
  predicate Aligned(t: Table) {
    |t.keys| == |t.values|
  }

  /** The table `normalize` uses. */
  const ContractionTable: Table := Table(Contractions, Expansions)

  /** `list.index`: the first position of w in s, or None when w is not in s. */
  function Position(s: seq<string>, w: string): (r: Option<nat>)
    ensures r.None? <==> w !in s
    ensures r.Some? ==> r.value < |s| && s[r.value] == w && w !in s[..r.value]
    decreases |s|
  {
    if s == [] then None
    else if s[0] == w then Some(0)
    else
      match Position(s[1..], w)
      case None => None
      case Some(k) =>
        assert s[..k + 1] == [s[0]] + s[1..][..k];
        Some(k + 1)
  }

  /** A word that is a key becomes the value at the position of its first
      occurrence among the keys; any other word stays. */
  function Expand(t: Table, w: string): string
    requires Aligned(t)
  {
    match Position(t.keys, w)
    case None => w
    case Some(k) => t.values[k]
  }

  // -----------------------------------------------------------------------
  // The word loop of `normalize`

  /** The boolean switches of `normalize`. */
  datatype Flags = Flags(removeArticles: bool, solveCorefs: bool, makeSingular: bool)

  /** The collaborators of `normalize`: the tagger and singulariser of
      `singularize`, `replace_coreferences`, `extract_numbers`, and `str` of
      an extracted number. */
  datatype Collaborators = Collaborators(
    tagger: string -> seq<Token>,
    singular: string -> string,
    coref: string -> string,
    extract: string -> seq<real>,
    show: real -> string)

  /** The input word is a removed article. */
  predicate Dropped(w: string, flags: Flags) {
    flags.removeArticles && w in Articles
  }

  /** What a word that is not dropped becomes: its expansion, singularised
      when asked. */
  function Rewritten(t: Table, w: string, flags: Flags, co: Collaborators): string
    requires Aligned(t)
  {
    var e := Expand(t, w);
    if flags.makeSingular then SingularizeText(e, co.tagger, co.singular) else e
  }

  /** The rewritten words that are kept, in order. */
  function Kept(t: Table, ws: seq<string>, flags: Flags, co: Collaborators): seq<string>
    requires Aligned(t)
    decreases |ws|
  {
    if ws == [] then []
    else
      var w := ws[|ws| - 1];
      Kept(t, ws[..|ws| - 1], flags, co) + if Dropped(w, flags) then [] else [Rewritten(t, w, flags, co)]
  }

  /** The text the word loop accumulates: " " before every kept word. */
  function WordStage(t: Table, ws: seq<string>, flags: Flags, co: Collaborators): string
    requires Aligned(t)
    decreases |ws|
  {
    if ws == [] then ""
    else
      var w := ws[|ws| - 1];
      WordStage(t, ws[..|ws| - 1], flags, co) + if Dropped(w, flags) then "" else " " + Rewritten(t, w, flags, co)
  }

  /** The number of articles among the words. */
  function ArticleCount(ws: seq<string>): nat
    decreases |ws|
  {
    if ws == [] then 0
    else ArticleCount(ws[..|ws| - 1]) + if ws[|ws| - 1] in Articles then 1 else 0
  }

  // -----------------------------------------------------------------------
  // Number replacement

  /** `str(n)` with a trailing ".0" removed. */
  function DropPointZero(s: string): string {
    if |s| >= 2 && s[|s| - 2..] == ".0" then s[..|s| - 2] else s
  }

  /** Each number's spoken text (two places, short scale) replaced in turn,
      everywhere, by its digits; `Failure(n)` for the first number that
      `pronounce_number` cannot speak. */
  function ReplaceNumbers(s: string, ns: seq<real>, show: real -> string): Result<string, real>
    decreases |ns|
  {
    if ns == [] then Success(s)
    else if !Pronounceable(ns[0], true) then Failure(ns[0])
    else ReplaceNumbers(ReplaceAll(s, Pronounced(ns[0], 2, true), DropPointZero(show(ns[0]))), ns[1..], show)
  }

  /** The text without its first character, as a slice `[1:]` gives it. */
  function DropFirst(s: string): string {
    if s == [] then s else s[1..]
  }

  /** `normalize(text, remove_articles, solve_corefs, make_singular)` with
      the contraction table t. */
  function NormalizedWith(t: Table, text: string, flags: Flags, co: Collaborators): Result<string, real>
    requires Aligned(t)
  {
    var s := WordStage(t, Split(text), flags, co);
    var u := if flags.solveCorefs then co.coref(DropFirst(s)) else s;
    match ReplaceNumbers(u, co.extract(u), co.show)
    case Failure(n) => Failure(n)
    case Success(v) => Success(Strip(v))
  }

  /** `normalize(text, remove_articles, solve_corefs, make_singular)`. */
  function Normalized(text: string, flags: Flags, co: Collaborators): Result<string, real> {
    TablesAligned();
    NormalizedWith(ContractionTable, text, flags, co)
  }

  /** `normalize`: the word loop, the coreference step and the number
      replacement loop. */
  method Normalize(text: string, flags: Flags, co: Collaborators) returns (r: Result<string, real>)
    ensures r == Normalized(text, flags, co)
  {
    TablesAligned();
    var words := Split(text);
    var normalized := JoinWords(ContractionTable, words, flags, co);
    if flags.solveCorefs {
      normalized := co.coref(DropFirst(normalized));
    }
    var numbers := co.extract(normalized);
    r := ReplaceExtracted(normalized, numbers, co.show);
  }

  /** The word loop of `normalize`: each kept word is appended after a
      space. */
  method JoinWords(t: Table, words: seq<string>, flags: Flags, co: Collaborators) returns (normalized: string)
    requires Aligned(t)
    ensures normalized == WordStage(t, words, flags, co)
  {
    normalized := "";
    for i := 0 to |words|
      invariant normalized == WordStage(t, words[..i], flags, co)
    {
      assert words[..i + 1][..i] == words[..i];
      var word := words[i];
      if !(flags.removeArticles && word in Articles) {
        var k := Position(t.keys, word);
        if k.Some? {
          word := t.values[k.value];
        }
        if flags.makeSingular {
          word := Singularize(word, co.tagger, co.singular);
        }
        normalized := normalized + (" " + word);
      }
    }
    assert words[..|words|] == words;
  }

  /** The number loop of `normalize` followed by the final strip. */
  method ReplaceExtracted(normalized: string, numbers: seq<real>, show: real -> string)
    returns (r: Result<string, real>)
    ensures r == match ReplaceNumbers(normalized, numbers, show)
      case Failure(n) => Failure(n) case Success(u) => Success(Strip(u))
  {
    var text := normalized;
    var j := 0;
    assert numbers[0..] == numbers;
    while j < |numbers|
      invariant 0 <= j <= |numbers|
      invariant ReplaceNumbers(text, numbers[j..], show) == ReplaceNumbers(normalized, numbers, show)
      decreases |numbers| - j
    {
      var n := numbers[j];
      assert numbers[j..][1..] == numbers[j + 1..];
      if !Pronounceable(n, true) {
        return Failure(n);
      }
      var txt := PronounceNumber(n, 2, true);
      var shown := show(n);
      if |shown| >= 2 && shown[|shown| - 2..] == ".0" {
        shown := shown[..|shown| - 2];
      }
      text := ReplaceAll(text, txt, shown);
      j := j + 1;
    }
    return Success(Strip(text));
  }

  // -----------------------------------------------------------------------
  // Properties

  /** The two lists of `normalize` are aligned entry for entry. */
  lemma TablesAligned()
    ensures Aligned(ContractionTable) && |Contractions| == 93
  {
  }

  /** Two first occurrences are the same occurrence. */
  lemma FirstOccurrenceUnique(s: seq<string>, w: string, i: nat, j: nat)
    requires i < |s| && s[i] == w && w !in s[..i]
    requires j < |s| && s[j] == w && w !in s[..j]
    ensures i == j
  {
  }

  /** A word outside the keys is kept; a key becomes the value at the index
      of its first occurrence, as `list.index` finds it. */
  lemma ExpandSpec(t: Table, w: string)
    requires Aligned(t)
    ensures w !in t.keys ==> Expand(t, w) == w
    ensures forall k :: 0 <= k < |t.keys| && t.keys[k] == w && w !in t.keys[..k] ==>
      k < |t.values| && Expand(t, w) == t.values[k]
  {
    forall k | 0 <= k < |t.keys| && t.keys[k] == w && w !in t.keys[..k]
      ensures k < |t.values| && Expand(t, w) == t.values[k]
    {
      var p := Position(t.keys, w);
      FirstOccurrenceUnique(t.keys, w, p.value, k);
    }
  }

  /** The accumulated text is the kept words joined by single spaces, with
      one leading space, or empty when no word is kept. */
  lemma {:induction false} WordStageJoin(t: Table, ws: seq<string>, flags: Flags, co: Collaborators)
    requires Aligned(t)
    ensures WordStage(t, ws, flags, co) ==
      if Kept(t, ws, flags, co) == [] then "" else " " + Join(" ", Kept(t, ws, flags, co))
    decreases |ws|
  {
    if ws != [] {
      var init, w := ws[..|ws| - 1], ws[|ws| - 1];
      WordStageJoin(t, init, flags, co);
      if !Dropped(w, flags) {
        var ks, x := Kept(t, init, flags, co), Rewritten(t, w, flags, co);
        JoinSnoc(" ", ks, x);
        assert Kept(t, ws, flags, co) == ks + [x];
        assert WordStage(t, ws, flags, co) == WordStage(t, init, flags, co) + (" " + x);
      } else {
        assert Kept(t, ws, flags, co) == Kept(t, init, flags, co) + [];
        assert Kept(t, ws, flags, co) == Kept(t, init, flags, co);
        assert WordStage(t, ws, flags, co) == WordStage(t, init, flags, co) + "";
        assert WordStage(t, ws, flags, co) == WordStage(t, init, flags, co);
      }
    }
  }

  /** Without article removal every word is kept; with it, exactly the
      articles are dropped. */
  lemma {:induction false} KeptCount(t: Table, ws: seq<string>, flags: Flags, co: Collaborators)
    requires Aligned(t)
    ensures |Kept(t, ws, flags, co)| == if flags.removeArticles then |ws| - ArticleCount(ws) else |ws|
    decreases |ws|
  {
    if ws != [] {
      KeptCount(t, ws[..|ws| - 1], flags, co);
    }
  }

  /** Without singularisation, every kept word is a value of the table, or
      an input word that is neither a key nor a removed article. */
  lemma {:induction false} KeptOrigin(t: Table, ws: seq<string>, flags: Flags, co: Collaborators)
    requires Aligned(t) && !flags.makeSingular
    ensures forall x :: x in Kept(t, ws, flags, co) ==>
      x in t.values || (x in ws && x !in t.keys && !Dropped(x, flags))
    decreases |ws|
  {
    if ws != [] {
      var init, w := ws[..|ws| - 1], ws[|ws| - 1];
      KeptOrigin(t, init, flags, co);
      assert Kept(t, ws, flags, co) == Kept(t, init, flags, co) + if Dropped(w, flags) then [] else [Expand(t, w)];
      forall x | x in Kept(t, ws, flags, co)
        ensures x in t.values || (x in ws && x !in t.keys && !Dropped(x, flags))
      {
        if x in Kept(t, init, flags, co) {
          if x !in t.values {
            var k :| 0 <= k < |init| && init[k] == x;
            assert ws[k] == x;
          }
        } else {
          var p := Position(t.keys, w);
          if p.Some? {
            assert x == t.values[p.value];
          } else {
            assert x == w;
          }
        }
      }
    }
  }

  /** Words that are neither keys nor removed articles pass through the
      word loop unchanged. */
  lemma {:induction false} KeptUnchanged(t: Table, ws: seq<string>, flags: Flags, co: Collaborators)
    requires Aligned(t) && !flags.makeSingular
    requires forall w :: w in ws ==> w !in t.keys && !Dropped(w, flags)
    ensures Kept(t, ws, flags, co) == ws
    decreases |ws|
  {
    if ws != [] {
      var init, w := ws[..|ws| - 1], ws[|ws| - 1];
      assert forall v :: v in init ==> v in ws;
      KeptUnchanged(t, init, flags, co);
      assert w in ws;
      assert Expand(t, w) == w;
      assert init + [w] == ws;
    }
  }

  /** The replacement fails exactly when some extracted number cannot be
      spoken by `pronounce_number`. */
  lemma {:induction false} ReplaceNumbersFails(s: string, ns: seq<real>, show: real -> string)
    ensures ReplaceNumbers(s, ns, show).Failure? <==> exists i :: 0 <= i < |ns| && !Pronounceable(ns[i], true)
    decreases |ns|
  {
    if ns != [] && Pronounceable(ns[0], true) {
      var tail := ns[1..];
      ReplaceNumbersFails(ReplaceAll(s, Pronounced(ns[0], 2, true), DropPointZero(show(ns[0]))), tail, show);
      if exists i :: 0 <= i < |ns| && !Pronounceable(ns[i], true) {
        var i :| 0 <= i < |ns| && !Pronounceable(ns[i], true);
        assert tail[i - 1] == ns[i];
      }
      if exists i :: 0 <= i < |tail| && !Pronounceable(tail[i], true) {
        var i :| 0 <= i < |tail| && !Pronounceable(tail[i], true);
        assert tail[i] == ns[i + 1];
      }
    }
  }

  /** The error is the first number that cannot be spoken. */
  lemma {:induction false} ReplaceNumbersFirstFailure(s: string, ns: seq<real>, show: real -> string)
    requires ReplaceNumbers(s, ns, show).Failure?
    ensures exists i :: (0 <= i < |ns| && ReplaceNumbers(s, ns, show).error == ns[i]
      && !Pronounceable(ns[i], true) && forall j :: 0 <= j < i ==> Pronounceable(ns[j], true))
    decreases |ns|
  {
    if Pronounceable(ns[0], true) {
      var tail := ns[1..];
      var s' := ReplaceAll(s, Pronounced(ns[0], 2, true), DropPointZero(show(ns[0])));
      assert ReplaceNumbers(s, ns, show) == ReplaceNumbers(s', tail, show);
      ReplaceNumbersFirstFailure(s', tail, show);
      var i :| 0 <= i < |tail| && ReplaceNumbers(s', tail, show).error == tail[i]
        && !Pronounceable(tail[i], true) && forall j :: 0 <= j < i ==> Pronounceable(tail[j], true);
      forall j | 0 <= j < i + 1
        ensures Pronounceable(ns[j], true)
      {
        if j > 0 {
          assert ns[j] == tail[j - 1];
        }
      }
      assert ns[i + 1] == tail[i];
    } else {
      assert ns[0] == ReplaceNumbers(s, ns, show).error;
    }
  }

  /** `str` of an integral float loses its ".0", and the text of an integer
      is left as it is: both become the integer's digits. */
  lemma DropPointZeroIntegral(i: int)
    ensures DropPointZero(IntToString(i) + ".0") == IntToString(i)
    ensures DropPointZero(IntToString(i)) == IntToString(i)
  {
    var s := IntToString(i);
    assert (s + ".0")[|s + ".0"| - 2..] == ".0";
    assert (s + ".0")[..|s + ".0"| - 2] == s;
    if |s| >= 2 {
      var d := if i < 0 then NatToString(-i) else NatToString(i);
      assert s == (if i < 0 then "-" else "") + d;
      assert s[|s| - 2] == '-' || s[|s| - 2] == d[|d| - 2];
      assert s[|s| - 2..][0] == s[|s| - 2];
    }
  }

  /** Text without contractions, removed articles or numbers, normalised
      with neither singularisation nor coreference resolution, comes out
      as its words joined by single spaces; normalising that again changes
      nothing. */
  lemma NormalizePlain(text: string, flags: Flags, co: Collaborators)
    requires !flags.solveCorefs && !flags.makeSingular
    requires forall w :: w in Split(text) ==> w !in Contractions && !Dropped(w, flags)
    requires forall s :: co.extract(s) == []
    ensures Normalized(text, flags, co) == Success(Join(" ", Split(text)))
    ensures Normalized(Join(" ", Split(text)), flags, co) == Normalized(text, flags, co)
  {
    TablesAligned();
    var ws := Split(text);
    var s := WordStage(ContractionTable, ws, flags, co);
    KeptUnchanged(ContractionTable, ws, flags, co);
    WordStageJoin(ContractionTable, ws, flags, co);
    assert s == if ws == [] then "" else " " + Join(" ", ws);
    JoinWordsStrip(ws);
    assert co.extract(s) == [];
    assert ReplaceNumbers(s, [], co.show) == Success(s);
    assert Normalized(text, flags, co) == Success(Strip(s));
    SplitJoinRoundTrip(ws);
  }

  /** Every word the word loop keeps, without singularisation, is its own
      words joined by single spaces, and none of those words is a
      contraction or a removed article. */
  lemma KeptPhrase(x: string, ws: seq<string>, flags: Flags)
    requires forall i :: 0 <= i < |ws| ==> IsWord(ws[i])
    requires x in Expansions || (x in ws && x !in Contractions && !Dropped(x, flags))
    ensures Split(x) != [] && Join(" ", Split(x)) == x
    ensures forall w :: w in Split(x) ==> w !in Contractions && !Dropped(w, flags)
  {
    if x in Expansions {
      var k :| 0 <= k < |Expansions| && Expansions[k] == x;
      ExpansionSplits(k);
    } else {
      SplitOneWord(x);
      JoinSingle(" ", x);
    }
  }

  /** Normalising the output of `normalize` again, with neither
      singularisation nor coreference resolution and with no numbers to
      replace, gives the same text: the expansions hold no contraction and
      no article, and the output is already split on single spaces. */
  lemma NormalizeIdempotent(text: string, flags: Flags, co: Collaborators)
    requires !flags.solveCorefs && !flags.makeSingular
    requires forall s :: co.extract(s) == []
    ensures Normalized(text, flags, co).Success?
    ensures Normalized(Normalized(text, flags, co).value, flags, co) == Normalized(text, flags, co)
  {
    TablesAligned();
    var t := ContractionTable;
    var ws := Split(text);
    var ks := Kept(t, ws, flags, co);
    KeptOrigin(t, ws, flags, co);
    forall i | 0 <= i < |ks|
      ensures Split(ks[i]) != [] && Join(" ", Split(ks[i])) == ks[i]
      ensures forall w :: w in Split(ks[i]) ==> w !in Contractions && !Dropped(w, flags)
    {
      assert ks[i] in ks;
      KeptPhrase(ks[i], ws, flags);
    }
    var fs := SplitAll(ks);
    JoinSplitAll(ks);
    forall w | w in fs
      ensures w !in Contractions && !Dropped(w, flags)
    {
      SplitAllFrom(ks, w);
    }
    WordStageJoin(t, ws, flags, co);
    JoinWordsStrip(fs);
    var s := WordStage(t, ws, flags, co);
    assert s == if fs == [] then "" else " " + Join(" ", fs);
    assert ReplaceNumbers(s, co.extract(s), co.show) == Success(s);
    assert Normalized(text, flags, co) == Success(Join(" ", fs));
    SplitJoinRoundTrip(fs);
    NormalizePlain(Join(" ", fs), flags, co);
  }

  /** Tokens that are not nouns, other than "are", are kept verbatim. */
  lemma {:induction false} SingularizePlain(ts: seq<Token>, singular: string -> string)
    requires forall i :: 0 <= i < |ts| ==> !ts[i].noun && ts[i].text != "are"
    ensures SingularWords(ts, singular) == seq(|ts|, i requires 0 <= i < |ts| => ts[i].text)
  {
  }

  /** "are" becomes "is" unless it is singularised as a noun, and an
      ignored word is never singularised. */
  lemma SingularWordCases(t: Token, singular: string -> string)
    ensures t.text == "are" && !t.noun ==> SingularWord(t, singular) == "is"
    ensures t.text in Ignores ==> SingularWord(t, singular) == t.text
    ensures t.noun && t.text !in Ignores ==> SingularWord(t, singular) == singular(t.text)
  {
  }
}
