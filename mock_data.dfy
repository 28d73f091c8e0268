/**
 * Three questions of the built-in bank (constants.ts:15-111) and what the
 * local check makes of them: question 1 accepts a contracted answer, question
 * 21 ignores extra spoken words, and question 602 loses its last word to the
 * filler list.
 */
module MockData {
  import opened Wrappers
  import opened JsString
  import opened WordTables
  import opened Normalizer
  import opened EditDistance
  import opened Questions
  import opened Matcher

  const Q1 := Question(
    1, Some("Giao tiếp"), Some(Easy), "Bạn tên là gì?", "What is your name?",
    ["What's your name", "Can I have your name"],
    Some(Hint(Some("Wh-word + to be + Possessive Adj + N?"), Some("What, Name"))),
    Some("Dùng 'May I...' sẽ lịch sự hơn."))

  const Q21 := Question(
    21, Some("Nhà hàng"), Some(Medium), "Tính tiền cho tôi nhé.", "Check, please.",
    ["Could I have the bill, please", "Can I pay now"],
    Some(Hint(Some("Phrase + please"), Some("Check, Bill"))),
    Some(""))

  const Q602 := Question(
    602, Some("Hàng ngày"), Some(Easy), "Bạn ngủ có ngon không?", "Did you sleep well?",
    ["How did you sleep", "Did you have a good sleep"],
    Some(Hint(Some("Did + S + V + Adv?"), Some("Sleep, Well"))),
    Some(""))

  // General steps

  /** A text whose lowered, stripped form is the clean words `ws` has as
      normalised words whatever those words join into after filtering and
      expansion. */
  lemma NormalizesTo(text: string, ws: seq<string>, words: seq<string>)
    requires |ws| >= 1 && CleanWords(ws) && StripPunctuation(ToLower(text)) == Join(ws)
    requires |words| >= 1 && PlainWords(words) && Join(ExpandAll(RemoveFillers(ws))) == Join(words)
    ensures NormalizedWords(text) == words
  {
    NormalizeVia(text, ws);
    WordsOfJoin(words);
  }

  /** A word of lower-case letters and apostrophes is its own lowered,
      stripped form. */
  lemma LowerWord(w: string)
    requires WellFormedKey(w)
    ensures StripPunctuation(ToLower(w)) == w
  {
    KeyIsClean(w);
    ToLowerKeeps(w);
    StripKeepsClean(w);
  }

  /** A word that lowers letter by letter to `v`. */
  lemma LowerTo(w: string, v: string)
    requires |w| == |v| && WellFormedKey(v)
    requires forall i :: 0 <= i < |w| ==> LowerChar(w[i]) == v[i]
    ensures StripPunctuation(ToLower(w)) == v
  {
    assert ToLower(w) == v;
    LowerWord(v);
    ToLowerKeeps(v);
  }

  /** The same word followed by a punctuation mark the normaliser deletes. */
  lemma LowerToMarked(w: string, c: char, v: string)
    requires |w| == |v| && WellFormedKey(v) && IsStripped(c)
    requires forall i :: 0 <= i < |w| ==> LowerChar(w[i]) == v[i]
    ensures StripPunctuation(ToLower(w + [c])) == v
  {
    LowerStripConcat(w, [c]);
    LowerTo(w, v);
    assert StripPunctuation(ToLower([c])) == [];
  }

  /** Words of lower-case letters and apostrophes are clean words. */
  lemma LowerWords(ws: seq<string>)
    requires forall i :: 0 <= i < |ws| ==> WellFormedKey(ws[i])
    ensures CleanWords(ws)
  {
    forall i | 0 <= i < |ws| ensures ws[i] != "" && NoSpace(ws[i]) && AllChars(ws[i], Clean) {
      KeyIsClean(ws[i]);
    }
  }

  lemma {:induction false} NoFillers(ws: seq<string>)
    requires forall i :: 0 <= i < |ws| ==> !IsFiller(ws[i])
    ensures RemoveFillers(ws) == ws
  {
    if ws != [] {
      NoFillers(ws[1..]);
    }
  }

  lemma Join3(a: string, b: string, c: string)
    ensures Join([a, b, c]) == a + " " + b + " " + c
  {
    assert [a, b, c][1..] == [b, c];
    assert [b, c][1..] == [c];
    assert Join([b, c]) == b + " " + c;
    assert Join([a, b, c]) == a + " " + (b + " " + c);
  }

  lemma Join4(a: string, b: string, c: string, d: string)
    ensures Join([a, b, c, d]) == a + " " + b + " " + c + " " + d
  {
    Join3(b, c, d);
  }

  lemma LowerStrip3(a: string, b: string, c: string, x: string, y: string, z: string)
    requires StripPunctuation(ToLower(a)) == x && StripPunctuation(ToLower(b)) == y
    requires StripPunctuation(ToLower(c)) == z
    ensures StripPunctuation(ToLower(Join([a, b, c]))) == Join([x, y, z])
  {
    LowerStripJoin([a, b, c], [x, y, z]);
  }

  lemma LowerStrip4(a: string, b: string, c: string, d: string, x: string, y: string, z: string, t: string)
    requires StripPunctuation(ToLower(a)) == x && StripPunctuation(ToLower(b)) == y
    requires StripPunctuation(ToLower(c)) == z && StripPunctuation(ToLower(d)) == t
    ensures StripPunctuation(ToLower(Join([a, b, c, d]))) == Join([x, y, z, t])
  {
    LowerStripJoin([a, b, c, d], [x, y, z, t]);
  }

  lemma Expand3(a: string, b: string, c: string, x: string, y: string, z: string)
    requires Expand(a) == x && Expand(b) == y && Expand(c) == z
    ensures ExpandAll([a, b, c]) == [x, y, z]
  {
  }

  lemma ExpandsTo(ws: seq<string>, out: seq<string>)
    requires |ws| == |out| && forall i :: 0 <= i < |ws| ==> Expand(ws[i]) == out[i]
    ensures ExpandAll(ws) == out
  {
  }

  lemma NoContractions(ws: seq<string>)
    requires forall i :: 0 <= i < |ws| ==> '\'' !in ws[i] && ws[i] !in ["gonna", "wanna", "gotta", "lemme"]
    ensures ExpandAll(ws) == ws
  {
    forall i | 0 <= i < |ws| ensures Expand(ws[i]) == ws[i] {
      NotAKey(ws[i]);
    }
    ExpandsTo(ws, ws);
  }

  /** Words that match themselves are accepted by an answer with those
      words. */
  lemma SameWordsAccepted(inputWords: seq<string>, answer: string)
    requires inputWords != [] && NormalizedWords(answer) == inputWords
    ensures AnswerAccepted(inputWords, answer)
  {
    GreedySelf(WordMatch, inputWords);
  }

  /** A target word longer than five letters never matches a spoken word so
      much shorter that the length difference alone breaks the 0.8
      similarity. */
  lemma TooShort(source: string, target: string)
    requires |target| > 5 && 5 * (|target| - |source|) > |target|
    ensures !WordMatch(source, target)
  {
    LevBounds(source, target);
    WordMatchTiers(source, target);
  }

  /** A word of lower-case letters that the normaliser keeps as it is: no
      apostrophe, none of the four slang contractions, not a filler word. */
  ghost predicate PlainWord(w: string) {
    WellFormedKey(w) && '\'' !in w && w !in ["gonna", "wanna", "gotta", "lemme"] && !IsFiller(w)
  }

  /** A text that lowers and strips to clean words which the filter and the
      expansion leave alone normalises to exactly those words. */
  lemma KeptSentence(text: string, ws: seq<string>)
    requires |ws| >= 1 && CleanWords(ws) && RemoveFillers(ws) == ws && ExpandAll(ws) == ws
    requires StripPunctuation(ToLower(text)) == Join(ws)
    ensures NormalizedWords(text) == ws
  {
    NormalizesTo(text, ws, ws);
  }

  /** Plain words are clean and the filter leaves them alone. */
  lemma PlainFiltered(ws: seq<string>)
    requires forall i :: 0 <= i < |ws| ==> PlainWord(ws[i])
    ensures CleanWords(ws) && RemoveFillers(ws) == ws
  {
    PlainParts(ws);
    LowerWords(ws);
    NoFillers(ws);
  }

  /** The expansion leaves plain words alone. */
  lemma PlainExpanded(ws: seq<string>)
    requires forall i :: 0 <= i < |ws| ==> PlainWord(ws[i])
    ensures ExpandAll(ws) == ws
  {
    PlainParts(ws);
    NoContractions(ws);
  }

  lemma PlainParts(ws: seq<string>)
    requires forall i :: 0 <= i < |ws| ==> PlainWord(ws[i])
    ensures forall i :: 0 <= i < |ws| ==> WellFormedKey(ws[i]) && !IsFiller(ws[i])
    ensures forall i :: 0 <= i < |ws| ==> '\'' !in ws[i] && ws[i] !in ["gonna", "wanna", "gotta", "lemme"]
  {
  }

  lemma Sentence3(text: string, a: string, b: string, c: string)
    requires PlainWord(a) && PlainWord(b) && PlainWord(c)
    requires StripPunctuation(ToLower(text)) == Join([a, b, c])
    ensures NormalizedWords(text) == [a, b, c]
  {
    PlainFiltered([a, b, c]);
    PlainExpanded([a, b, c]);
    KeptSentence(text, [a, b, c]);
  }

  lemma Sentence2(text: string, a: string, b: string)
    requires PlainWord(a) && PlainWord(b)
    requires StripPunctuation(ToLower(text)) == Join([a, b])
    ensures NormalizedWords(text) == [a, b]
  {
    PlainFiltered([a, b]);
    PlainExpanded([a, b]);
    KeptSentence(text, [a, b]);
  }

  lemma Sentence4(text: string, a: string, b: string, c: string, d: string)
    requires PlainWord(a) && PlainWord(b) && PlainWord(c) && PlainWord(d)
    requires StripPunctuation(ToLower(text)) == Join([a, b, c, d])
    ensures NormalizedWords(text) == [a, b, c, d]
  {
    PlainFiltered([a, b, c, d]);
    PlainExpanded([a, b, c, d]);
    KeptSentence(text, [a, b, c, d]);
  }

  /** A three-word text whose first word is a contraction of two words
      normalises to four words. */
  lemma ContractedSentence(text: string, a: string, b: string, c: string, e1: string, e2: string)
    requires WellFormedKey(a) && !IsFiller(a) && Expand(a) == e1 + " " + e2
    requires PlainWord(b) && PlainWord(c) && WellFormedKey(e1) && WellFormedKey(e2)
    requires StripPunctuation(ToLower(text)) == Join([a, b, c])
    ensures NormalizedWords(text) == [e1, e2, b, c]
  {
    var ws := [a, b, c];
    LowerWords(ws);
    NoFillers(ws);
    NotAKey(b);
    NotAKey(c);
    Expand3(a, b, c, e1 + " " + e2, b, c);
    Join3(e1 + " " + e2, b, c);
    Join4(e1, e2, b, c);
    LowerWords([e1, e2, b, c]);
    NormalizesTo(text, ws, [e1, e2, b, c]);
  }

  /** A four-word text whose last word is a filler normalises to its first
      three words. */
  lemma FillerLast(text: string, a: string, b: string, c: string, d: string)
    requires PlainWord(a) && PlainWord(b) && PlainWord(c) && WellFormedKey(d) && IsFiller(d)
    requires StripPunctuation(ToLower(text)) == Join([a, b, c, d])
    ensures Normalize(text) == Join([a, b, c])
    ensures NormalizedWords(text) == [a, b, c]
  {
    LowerWords([a, b, c, d]);
    FillerDropped(a, b, c, d);
    NoContractions([a, b, c]);
    NormalizeVia(text, [a, b, c, d]);
    LowerWords([a, b, c]);
    WordsOfJoin([a, b, c]);
  }

  lemma FillerDropped(a: string, b: string, c: string, d: string)
    requires !IsFiller(a) && !IsFiller(b) && !IsFiller(c) && IsFiller(d)
    ensures RemoveFillers([a, b, c, d]) == [a, b, c]
  {
    RemoveFillersConcat([a, b, c], [d]);
    assert [a, b, c] + [d] == [a, b, c, d];
    NoFillers([a, b, c]);
  }

  // Question 1

  lemma Q1AnswerText()
    ensures StripPunctuation(ToLower(Q1.mainAnswer)) == Join(["what", "is", "your", "name"])
  {
    Q1AnswerSplit();
    LowerTo("What", "what");
    LowerWord("is");
    LowerWord("your");
    LowerToMarked("name", '?', "name");
    LowerStrip4("What", "is", "your", "name" + ['?'], "what", "is", "your", "name");
  }

  lemma Q1AnswerSplit()
    ensures Q1.mainAnswer == Join(["What", "is", "your", "name" + ['?']])
  {
    Join4("What", "is", "your", "name" + ['?']);
  }

  lemma Q1Plain()
    ensures PlainWord("what") && PlainWord("is") && PlainWord("your") && PlainWord("name")
  {
  }

  /** Question 1's main answer has the words "what is your name". */
  lemma Q1AnswerWords()
    ensures NormalizedWords(Q1.mainAnswer) == ["what", "is", "your", "name"]
  {
    Q1AnswerText();
    Q1Plain();
    Sentence4(Q1.mainAnswer, "what", "is", "your", "name");
  }

  lemma Q1SpokenText()
    ensures StripPunctuation(ToLower("what's your name")) == Join(["what's", "your", "name"])
  {
    Q1SpokenSplit();
    LowerWord("what's");
    LowerWord("your");
    LowerWord("name");
    LowerStrip3("what's", "your", "name", "what's", "your", "name");
  }

  lemma Q1SpokenSplit()
    ensures "what's your name" == Join(["what's", "your", "name"])
  {
    Join3("what's", "your", "name");
  }

  lemma ExpandWhats()
    ensures Expand("what's") == "what" + " " + "is"
  {
  }

  lemma Q1SpokenShape()
    ensures WellFormedKey("what's") && !IsFiller("what's")
    ensures WellFormedKey("what") && WellFormedKey("is")
  {
  }

  /** "what's your name" reaches the words "what is your name" through the
      expansion of "what's". */
  lemma Q1SpokenWords()
    ensures NormalizedWords("what's your name") == ["what", "is", "your", "name"]
  {
    Q1SpokenText();
    ExpandWhats();
    Q1SpokenShape();
    Q1Plain();
    ContractedSentence("what's your name", "what's", "your", "name", "what", "is");
  }

  /** Question 1 accepts "what's your name" against its main answer, through
      the expansion of "what's". */
  lemma Q1ContractionAccepted()
    ensures AnswerAccepted(NormalizedWords("what's your name"), Q1.mainAnswer)
    ensures LocallyAccepted("what's your name", Q1)
  {
    Q1AnswerWords();
    Q1SpokenWords();
    SameWordsAccepted(["what", "is", "your", "name"], Q1.mainAnswer);
  }

  // Question 21

  lemma Q21AnswerText()
    ensures StripPunctuation(ToLower(Q21.mainAnswer)) == Join(["check", "please"])
  {
    Q21AnswerSplit();
    LowerToMarked("Check", ',', "check");
    LowerToMarked("please", '.', "please");
    LowerStripJoin(["Check" + [','], "please" + ['.']], ["check", "please"]);
  }

  lemma Q21AnswerSplit()
    ensures Q21.mainAnswer == Join(["Check" + [','], "please" + ['.']])
  {
  }

  lemma Q21Plain()
    ensures PlainWord("check") && PlainWord("my") && PlainWord("pill") && PlainWord("please")
  {
  }

  /** Question 21's main answer has the words "check please". */
  lemma Q21AnswerWords()
    ensures NormalizedWords(Q21.mainAnswer) == ["check", "please"]
  {
    Q21AnswerText();
    Q21Plain();
    Sentence2(Q21.mainAnswer, "check", "please");
  }

  lemma Q21SpokenText()
    ensures StripPunctuation(ToLower("check my pill please")) == Join(["check", "my", "pill", "please"])
  {
    Q21SpokenSplit();
    LowerWord("check");
    LowerWord("my");
    LowerWord("pill");
    LowerWord("please");
    LowerStrip4("check", "my", "pill", "please", "check", "my", "pill", "please");
  }

  lemma Q21SpokenSplit()
    ensures "check my pill please" == Join(["check", "my", "pill", "please"])
  {
    Join4("check", "my", "pill", "please");
  }

  lemma Q21SpokenWords()
    ensures NormalizedWords("check my pill please") == ["check", "my", "pill", "please"]
  {
    Q21SpokenText();
    Q21Plain();
    Sentence4("check my pill please", "check", "my", "pill", "please");
  }

  /** "check" takes the first spoken word; "please" skips "my" and "pill",
      which are too short to pass for it, and takes the last one. */
  lemma Q21Count()
    ensures Greedy(WordMatch, ["check", "please"], ["check", "my", "pill", "please"]) == 2
  {
    var spoken := ["check", "my", "pill", "please"];
    FirstMatchAt(WordMatch, spoken, "check", 0);
    assert Remove(spoken, 0) == ["my", "pill", "please"];
    TooShort("my", "please");
    TooShort("pill", "please");
    FirstMatchAt(WordMatch, ["my", "pill", "please"], "please", 2);
    assert Remove(["my", "pill", "please"], 2) == ["my", "pill"];
  }

  /** Question 21 accepts "check my pill please": coverage counts only the
      answer's words, so the extra spoken words cost nothing. */
  lemma Q21ExtraWordsAccepted()
    ensures AnswerAccepted(NormalizedWords("check my pill please"), Q21.mainAnswer)
    ensures LocallyAccepted("check my pill please", Q21)
  {
    Q21AnswerWords();
    Q21SpokenWords();
    Q21Count();
  }

  // Question 602

  lemma Q602AnswerText()
    ensures StripPunctuation(ToLower(Q602.mainAnswer)) == Join(["did", "you", "sleep", "well"])
  {
    Q602AnswerSplit();
    LowerTo("Did", "did");
    LowerWord("you");
    LowerWord("sleep");
    LowerToMarked("well", '?', "well");
    LowerStrip4("Did", "you", "sleep", "well" + ['?'], "did", "you", "sleep", "well");
  }

  lemma Q602AnswerSplit()
    ensures Q602.mainAnswer == Join(["Did", "you", "sleep", "well" + ['?']])
  {
    Join4("Did", "you", "sleep", "well" + ['?']);
  }

  lemma Q602Plain()
    ensures PlainWord("did") && PlainWord("you") && PlainWord("sleep")
    ensures WellFormedKey("well") && IsFiller("well")
  {
  }

  lemma Q602Join()
    ensures Join(["did", "you", "sleep"]) == "did you sleep"
  {
    Join3("did", "you", "sleep");
  }

  /** Question 602's main answer normalises to "did you sleep": "well" is a
      filler word. */
  lemma Q602Normalized()
    ensures Normalize(Q602.mainAnswer) == "did you sleep"
    ensures NormalizedWords(Q602.mainAnswer) == ["did", "you", "sleep"]
  {
    Q602AnswerText();
    Q602Plain();
    FillerLast(Q602.mainAnswer, "did", "you", "sleep", "well");
    Q602Join();
  }

  lemma Q602SpokenWords()
    ensures NormalizedWords("did you sleep") == ["did", "you", "sleep"]
  {
    Q602Join();
    LowerWord("did");
    LowerWord("you");
    LowerWord("sleep");
    LowerStrip3("did", "you", "sleep", "did", "you", "sleep");
    Q602Plain();
    Sentence3("did you sleep", "did", "you", "sleep");
  }

  /** Saying "did you sleep" is enough for question 602. */
  lemma Q602ShortAccepted()
    ensures AnswerAccepted(NormalizedWords("did you sleep"), Q602.mainAnswer)
    ensures LocallyAccepted("did you sleep", Q602)
  {
    Q602Normalized();
    Q602SpokenWords();
    SameWordsAccepted(["did", "you", "sleep"], Q602.mainAnswer);
  }
}
