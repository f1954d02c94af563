/** The contraction and expansion lists of the normaliser and its article
    list, with the facts about their words that make normalisation
    idempotent: every contraction holds an apostrophe or is one of three
    spoken forms, and every expansion is a phrase of plain words. */
module ContractionLists {
  import opened Text

  /** The words dropped when articles are removed. */
  const Articles: seq<string> := ["the", "a", "an"]


  /** The contractions `normalize` recognises, in its order. The list is
      written in parts of ten so that facts about its entries can be
      checked one part at a time. */
  const Contractions: seq<string> :=
    Contractions0 + Contractions1 + Contractions2 + Contractions3 + Contractions4 +
    Contractions5 + Contractions6 + Contractions7 + Contractions8 + Contractions9

  const Contractions0: seq<string> := [
    "ain't", "aren't", "can't", "could've", "couldn't", "didn't", "doesn't", "don't",
    "gonna", "gotta"]

  const Contractions1: seq<string> := [
    "hadn't", "hasn't", "haven't", "he'd", "he'll", "he's", "how'd", "how'll", "how's",
    "I'd"]

  const Contractions2: seq<string> := [
    "I'll", "I'm", "I've", "isn't", "it'd", "it'll", "it's", "mightn't", "might've",
    "mustn't"]

  const Contractions3: seq<string> := [
    "must've", "needn't", "oughtn't", "shan't", "she'd", "she'll", "she's", "shouldn't",
    "should've", "somebody's"]

  const Contractions4: seq<string> := [
    "someone'd", "someone'll", "someone's", "that'll", "that's", "that'd", "there'd",
    "there're", "there's", "they'd"]

  const Contractions5: seq<string> := [
    "they'll", "they're", "they've", "wasn't", "we'd", "we'll", "we're", "we've",
    "weren't", "what'd"]

  const Contractions6: seq<string> := [
    "what'll", "what're", "what's", "whats", "what've", "when's", "when'd", "where'd",
    "where's", "where've"]

  const Contractions7: seq<string> := [
    "who'd", "who'd've", "who'll", "who're", "who's", "who've", "why'd", "why're",
    "why's", "won't"]

  const Contractions8: seq<string> := [
    "won't've", "would've", "wouldn't", "wouldn't've", "y'all", "ya'll", "you'd",
    "you'd've", "you'll", "y'aint"]

  const Contractions9: seq<string> := [
    "y'ain't", "you're", "you've"]

  /** The expansion of each contraction, at the same index, given by its
      words, in parts of ten like the contractions. */
  const ExpansionWords: seq<seq<string>> :=
    ExpansionWords0 + ExpansionWords1 + ExpansionWords2 + ExpansionWords3 + ExpansionWords4 +
    ExpansionWords5 + ExpansionWords6 + ExpansionWords7 + ExpansionWords8 + ExpansionWords9

  const ExpansionWords0: seq<seq<string>> := [
    ["is", "not"], ["are", "not"], ["can", "not"], ["could", "have"], ["could", "not"],
    ["did", "not"], ["does", "not"], ["do", "not"], ["going", "to"], ["got", "to"]]

  const ExpansionWords1: seq<seq<string>> := [
    ["had", "not"], ["has", "not"], ["have", "not"], ["he", "would"], ["he", "will"],
    ["he", "is"], ["how", "did"], ["how", "will"], ["how", "is"], ["I", "would"]]

  const ExpansionWords2: seq<seq<string>> := [
    ["I", "will"], ["I", "am"], ["I", "have"], ["is", "not"], ["it", "would"],
    ["it", "will"], ["it", "is"], ["might", "not"], ["might", "have"], ["must", "not"]]

  const ExpansionWords3: seq<seq<string>> := [
    ["must", "have"], ["need", "not"], ["ought", "not"], ["shall", "not"],
    ["she", "would"], ["she", "will"], ["she", "is"], ["should", "not"],
    ["should", "have"], ["somebody", "is"]]

  const ExpansionWords4: seq<seq<string>> := [
    ["someone", "would"], ["someone", "will"], ["someone", "is"], ["that", "will"],
    ["that", "is"], ["that", "would"], ["there", "would"], ["there", "are"],
    ["there", "is"], ["they", "would"]]

  const ExpansionWords5: seq<seq<string>> := [
    ["they", "will"], ["they", "are"], ["they", "have"], ["was", "not"],
    ["we", "would"], ["we", "will"], ["we", "are"], ["we", "have"], ["were", "not"],
    ["what", "did"]]

  const ExpansionWords6: seq<seq<string>> := [
    ["what", "will"], ["what", "are"], ["what", "is"], ["what", "is"], ["what", "have"],
    ["when", "is"], ["when", "did"], ["where", "did"], ["where", "is"],
    ["where", "have"]]

  const ExpansionWords7: seq<seq<string>> := [
    ["who", "would"], ["who", "would", "have"], ["who", "will"], ["who", "are"],
    ["who", "is"], ["who", "have"], ["why", "did"], ["why", "are"], ["why", "is"],
    ["will", "not"]]

  const ExpansionWords8: seq<seq<string>> := [
    ["will", "not", "have"], ["would", "have"], ["would", "not"],
    ["would", "not", "have"], ["you", "all"], ["you", "all"], ["you", "would"],
    ["you", "would", "have"], ["you", "will"], ["you", "are", "not"]]

  const ExpansionWords9: seq<seq<string>> := [
    ["you", "are", "not"], ["you", "are"], ["you", "have"]]

  /** The expansion texts: the words of each expansion joined by single
      spaces. */
  const Expansions: seq<string> := JoinEach(ExpansionWords)

  /** Each list of words joined by single spaces. */
  function JoinEach(wss: seq<seq<string>>): (r: seq<string>)
    ensures |r| == |wss|
    ensures forall i :: 0 <= i < |wss| ==> r[i] == Join(" ", wss[i])
    decreases |wss|
  {
    if wss == [] then [] else [Join(" ", wss[0])] + JoinEach(wss[1..])
  }

  // -----------------------------------------------------------------------
  // The words of the tables

  /** A contraction holds an apostrophe, or is "gonna", "gotta" or "whats". */
  predicate Marked(c: string) {
    '\'' in c || c == "gonna" || c == "gotta" || c == "whats"
  }

  predicate IsLetter(c: char) {
    ('a' <= c <= 'z') || ('A' <= c <= 'Z')
  }

  /** A word made of letters only that is neither an apostrophe-free
      contraction nor an article. */
  predicate PlainWord(w: string) {
    |w| > 0 && (forall i :: 0 <= i < |w| ==> IsLetter(w[i]))
    && w != "gonna" && w != "gotta" && w != "whats" && w !in Articles
  }

  /** An expansion: at least one word, every word plain. */
  predicate PlainPhrase(ws: seq<string>) {
    |ws| > 0 && forall j :: 0 <= j < |ws| ==> PlainWord(ws[j])
  }

  /** Every contraction is marked. */
  lemma ContractionsMarked()
    ensures forall c :: c in Contractions ==> Marked(c)
  {
    ContractionsMarked0();
    ContractionsMarked1();
    ContractionsMarked2();
    ContractionsMarked3();
    ContractionsMarked4();
    ContractionsMarked5();
    ContractionsMarked6();
    ContractionsMarked7();
    ContractionsMarked8();
    ContractionsMarked9();
  }

  /** Every expansion is a plain phrase. */
  lemma ExpansionWordsPlain()
    ensures forall p :: p in ExpansionWords ==> PlainPhrase(p)
  {
    ExpansionWordsPlain0();
    ExpansionWordsPlain1();
    ExpansionWordsPlain2();
    ExpansionWordsPlain3();
    ExpansionWordsPlain4();
    ExpansionWordsPlain5();
    ExpansionWordsPlain6();
    ExpansionWordsPlain7();
    ExpansionWordsPlain8();
    ExpansionWordsPlain9();
  }

  lemma ContractionsMarked0()
    ensures forall c :: c in Contractions0 ==> Marked(c)
  {
    forall k | 0 <= k < |Contractions0|
      ensures Marked(Contractions0[k])
    {
      if k == 0 { assert Contractions0[0][3] == '\''; }
      else if k == 1 { assert Contractions0[1][4] == '\''; }
      else if k == 2 { assert Contractions0[2][3] == '\''; }
      else if k == 3 { assert Contractions0[3][5] == '\''; }
      else if k == 4 { assert Contractions0[4][6] == '\''; }
      else if k == 5 { assert Contractions0[5][4] == '\''; }
      else if k == 6 { assert Contractions0[6][5] == '\''; }
      else if k == 7 { assert Contractions0[7][3] == '\''; }
      else if k == 8 { assert Contractions0[8] == "gonna"; }
      else if k == 9 { assert Contractions0[9] == "gotta"; }
    }
  }

  lemma ContractionsMarked1()
    ensures forall c :: c in Contractions1 ==> Marked(c)
  {
    forall k | 0 <= k < |Contractions1|
      ensures Marked(Contractions1[k])
    {
      if k == 0 { assert Contractions1[0][4] == '\''; }
      else if k == 1 { assert Contractions1[1][4] == '\''; }
      else if k == 2 { assert Contractions1[2][5] == '\''; }
      else if k == 3 { assert Contractions1[3][2] == '\''; }
      else if k == 4 { assert Contractions1[4][2] == '\''; }
      else if k == 5 { assert Contractions1[5][2] == '\''; }
      else if k == 6 { assert Contractions1[6][3] == '\''; }
      else if k == 7 { assert Contractions1[7][3] == '\''; }
      else if k == 8 { assert Contractions1[8][3] == '\''; }
      else if k == 9 { assert Contractions1[9][1] == '\''; }
    }
  }

  lemma ContractionsMarked2()
    ensures forall c :: c in Contractions2 ==> Marked(c)
  {
    forall k | 0 <= k < |Contractions2|
      ensures Marked(Contractions2[k])
    {
      if k == 0 { assert Contractions2[0][1] == '\''; }
      else if k == 1 { assert Contractions2[1][1] == '\''; }
      else if k == 2 { assert Contractions2[2][1] == '\''; }
      else if k == 3 { assert Contractions2[3][3] == '\''; }
      else if k == 4 { assert Contractions2[4][2] == '\''; }
      else if k == 5 { assert Contractions2[5][2] == '\''; }
      else if k == 6 { assert Contractions2[6][2] == '\''; }
      else if k == 7 { assert Contractions2[7][6] == '\''; }
      else if k == 8 { assert Contractions2[8][5] == '\''; }
      else if k == 9 { assert Contractions2[9][5] == '\''; }
    }
  }

  lemma ContractionsMarked3()
    ensures forall c :: c in Contractions3 ==> Marked(c)
  {
    forall k | 0 <= k < |Contractions3|
      ensures Marked(Contractions3[k])
    {
      if k == 0 { assert Contractions3[0][4] == '\''; }
      else if k == 1 { assert Contractions3[1][5] == '\''; }
      else if k == 2 { assert Contractions3[2][6] == '\''; }
      else if k == 3 { assert Contractions3[3][4] == '\''; }
      else if k == 4 { assert Contractions3[4][3] == '\''; }
      else if k == 5 { assert Contractions3[5][3] == '\''; }
      else if k == 6 { assert Contractions3[6][3] == '\''; }
      else if k == 7 { assert Contractions3[7][7] == '\''; }
      else if k == 8 { assert Contractions3[8][6] == '\''; }
      else if k == 9 { assert Contractions3[9][8] == '\''; }
    }
  }

  lemma ContractionsMarked4()
    ensures forall c :: c in Contractions4 ==> Marked(c)
  {
    forall k | 0 <= k < |Contractions4|
      ensures Marked(Contractions4[k])
    {
      if k == 0 { assert Contractions4[0][7] == '\''; }
      else if k == 1 { assert Contractions4[1][7] == '\''; }
      else if k == 2 { assert Contractions4[2][7] == '\''; }
      else if k == 3 { assert Contractions4[3][4] == '\''; }
      else if k == 4 { assert Contractions4[4][4] == '\''; }
      else if k == 5 { assert Contractions4[5][4] == '\''; }
      else if k == 6 { assert Contractions4[6][5] == '\''; }
      else if k == 7 { assert Contractions4[7][5] == '\''; }
      else if k == 8 { assert Contractions4[8][5] == '\''; }
      else if k == 9 { assert Contractions4[9][4] == '\''; }
    }
  }

  lemma ContractionsMarked5()
    ensures forall c :: c in Contractions5 ==> Marked(c)
  {
    forall k | 0 <= k < |Contractions5|
      ensures Marked(Contractions5[k])
    {
      if k == 0 { assert Contractions5[0][4] == '\''; }
      else if k == 1 { assert Contractions5[1][4] == '\''; }
      else if k == 2 { assert Contractions5[2][4] == '\''; }
      else if k == 3 { assert Contractions5[3][4] == '\''; }
      else if k == 4 { assert Contractions5[4][2] == '\''; }
      else if k == 5 { assert Contractions5[5][2] == '\''; }
      else if k == 6 { assert Contractions5[6][2] == '\''; }
      else if k == 7 { assert Contractions5[7][2] == '\''; }
      else if k == 8 { assert Contractions5[8][5] == '\''; }
      else if k == 9 { assert Contractions5[9][4] == '\''; }
    }
  }

  lemma ContractionsMarked6()
    ensures forall c :: c in Contractions6 ==> Marked(c)
  {
    forall k | 0 <= k < |Contractions6|
      ensures Marked(Contractions6[k])
    {
      if k == 0 { assert Contractions6[0][4] == '\''; }
      else if k == 1 { assert Contractions6[1][4] == '\''; }
      else if k == 2 { assert Contractions6[2][4] == '\''; }
      else if k == 3 { assert Contractions6[3] == "whats"; }
      else if k == 4 { assert Contractions6[4][4] == '\''; }
      else if k == 5 { assert Contractions6[5][4] == '\''; }
      else if k == 6 { assert Contractions6[6][4] == '\''; }
      else if k == 7 { assert Contractions6[7][5] == '\''; }
      else if k == 8 { assert Contractions6[8][5] == '\''; }
      else if k == 9 { assert Contractions6[9][5] == '\''; }
    }
  }

  lemma ContractionsMarked7()
    ensures forall c :: c in Contractions7 ==> Marked(c)
  {
    forall k | 0 <= k < |Contractions7|
      ensures Marked(Contractions7[k])
    {
      if k == 0 { assert Contractions7[0][3] == '\''; }
      else if k == 1 { assert Contractions7[1][3] == '\''; }
      else if k == 2 { assert Contractions7[2][3] == '\''; }
      else if k == 3 { assert Contractions7[3][3] == '\''; }
      else if k == 4 { assert Contractions7[4][3] == '\''; }
      else if k == 5 { assert Contractions7[5][3] == '\''; }
      else if k == 6 { assert Contractions7[6][3] == '\''; }
      else if k == 7 { assert Contractions7[7][3] == '\''; }
      else if k == 8 { assert Contractions7[8][3] == '\''; }
      else if k == 9 { assert Contractions7[9][3] == '\''; }
    }
  }

  lemma ContractionsMarked8()
    ensures forall c :: c in Contractions8 ==> Marked(c)
  {
    forall k | 0 <= k < |Contractions8|
      ensures Marked(Contractions8[k])
    {
      if k == 0 { assert Contractions8[0][3] == '\''; }
      else if k == 1 { assert Contractions8[1][5] == '\''; }
      else if k == 2 { assert Contractions8[2][6] == '\''; }
      else if k == 3 { assert Contractions8[3][6] == '\''; }
      else if k == 4 { assert Contractions8[4][1] == '\''; }
      else if k == 5 { assert Contractions8[5][2] == '\''; }
      else if k == 6 { assert Contractions8[6][3] == '\''; }
      else if k == 7 { assert Contractions8[7][3] == '\''; }
      else if k == 8 { assert Contractions8[8][3] == '\''; }
      else if k == 9 { assert Contractions8[9][1] == '\''; }
    }
  }

  lemma ContractionsMarked9()
    ensures forall c :: c in Contractions9 ==> Marked(c)
  {
    forall k | 0 <= k < |Contractions9|
      ensures Marked(Contractions9[k])
    {
      if k == 0 { assert Contractions9[0][1] == '\''; }
      else if k == 1 { assert Contractions9[1][3] == '\''; }
      else if k == 2 { assert Contractions9[2][3] == '\''; }
    }
  }

  lemma ExpansionWordsPlain0()
    ensures forall p :: p in ExpansionWords0 ==> PlainPhrase(p)
  {
    PlainVocabulary();
  }

  lemma ExpansionWordsPlain1()
    ensures forall p :: p in ExpansionWords1 ==> PlainPhrase(p)
  {
    PlainVocabulary();
  }

  lemma ExpansionWordsPlain2()
    ensures forall p :: p in ExpansionWords2 ==> PlainPhrase(p)
  {
    PlainVocabulary();
  }

  lemma ExpansionWordsPlain3()
    ensures forall p :: p in ExpansionWords3 ==> PlainPhrase(p)
  {
    PlainVocabulary();
  }

  lemma ExpansionWordsPlain4()
    ensures forall p :: p in ExpansionWords4 ==> PlainPhrase(p)
  {
    PlainVocabulary();
  }

  lemma ExpansionWordsPlain5()
    ensures forall p :: p in ExpansionWords5 ==> PlainPhrase(p)
  {
    PlainVocabulary();
  }

  lemma ExpansionWordsPlain6()
    ensures forall p :: p in ExpansionWords6 ==> PlainPhrase(p)
  {
    PlainVocabulary();
  }

  lemma ExpansionWordsPlain7()
    ensures forall p :: p in ExpansionWords7 ==> PlainPhrase(p)
  {
    PlainVocabulary();
  }

  lemma ExpansionWordsPlain8()
    ensures forall p :: p in ExpansionWords8 ==> PlainPhrase(p)
  {
    PlainVocabulary();
  }

  lemma ExpansionWordsPlain9()
    ensures forall p :: p in ExpansionWords9 ==> PlainPhrase(p)
  {
    PlainVocabulary();
  }

  /** The words the expansions are made of are plain. */
  lemma PlainVocabulary()
    ensures PlainWord("I") && PlainWord("all") && PlainWord("am") && PlainWord("are") && PlainWord("can")
      && PlainWord("could") && PlainWord("did") && PlainWord("do") && PlainWord("does") && PlainWord("going")
      && PlainWord("got") && PlainWord("had") && PlainWord("has") && PlainWord("have") && PlainWord("he")
      && PlainWord("how") && PlainWord("is") && PlainWord("it") && PlainWord("might") && PlainWord("must")
      && PlainWord("need") && PlainWord("not") && PlainWord("ought") && PlainWord("shall") && PlainWord("she")
      && PlainWord("should") && PlainWord("somebody") && PlainWord("someone") && PlainWord("that") && PlainWord("there")
      && PlainWord("they") && PlainWord("to") && PlainWord("was") && PlainWord("we") && PlainWord("were")
      && PlainWord("what") && PlainWord("when") && PlainWord("where") && PlainWord("who") && PlainWord("why")
      && PlainWord("will") && PlainWord("would") && PlainWord("you")
  {
    PlainWords0();
    PlainWords1();
    PlainWords2();
    PlainWords3();
    PlainWords4();
    PlainWords5();
    PlainWords6();
    PlainWords7();
    PlainWords8();
  }

  lemma PlainWords0()
    ensures PlainWord("I") && PlainWord("all") && PlainWord("am") && PlainWord("are") && PlainWord("can")
  {
  }

  lemma PlainWords1()
    ensures PlainWord("could") && PlainWord("did") && PlainWord("do") && PlainWord("does") && PlainWord("going")
  {
  }

  lemma PlainWords2()
    ensures PlainWord("got") && PlainWord("had") && PlainWord("has") && PlainWord("have") && PlainWord("he")
  {
  }

  lemma PlainWords3()
    ensures PlainWord("how") && PlainWord("is") && PlainWord("it") && PlainWord("might") && PlainWord("must")
  {
  }

  lemma PlainWords4()
    ensures PlainWord("need") && PlainWord("not") && PlainWord("ought") && PlainWord("shall") && PlainWord("she")
  {
  }

  lemma PlainWords5()
    ensures PlainWord("should") && PlainWord("somebody") && PlainWord("someone") && PlainWord("that") && PlainWord("there")
  {
  }

  lemma PlainWords6()
    ensures PlainWord("they") && PlainWord("to") && PlainWord("was") && PlainWord("we") && PlainWord("were")
  {
  }

  lemma PlainWords7()
    ensures PlainWord("what") && PlainWord("when") && PlainWord("where") && PlainWord("who") && PlainWord("why")
  {
  }

  lemma PlainWords8()
    ensures PlainWord("will") && PlainWord("would") && PlainWord("you")
  {
  }
  /** A plain word is a word of the splitter, and neither a contraction
      nor an article. */
  lemma PlainWordNotKey(w: string)
    requires PlainWord(w)
    ensures IsWord(w) && w !in Contractions && w !in Articles
  {
    ContractionsMarked();
  }

  /** An expansion is its own words joined by single spaces, and none of
      those words is a contraction or an article. */
  lemma ExpansionSplits(k: nat)
    requires k < |Expansions|
    ensures Split(Expansions[k]) == ExpansionWords[k]
    ensures Split(Expansions[k]) != [] && Join(" ", Split(Expansions[k])) == Expansions[k]
    ensures forall w :: w in Split(Expansions[k]) ==> w !in Contractions && w !in Articles
  {
    var ws := ExpansionWords[k];
    ExpansionWordsPlain();
    assert ws in ExpansionWords;
    forall j | 0 <= j < |ws|
      ensures IsWord(ws[j]) && ws[j] !in Contractions && ws[j] !in Articles
    {
      PlainWordNotKey(ws[j]);
    }
    SplitJoinRoundTrip(ws);
  }
}
