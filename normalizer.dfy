/**
 * `normalizeText` of services/textUtils.ts:5-16: lower-case the text, delete
 * a fixed set of punctuation characters, split on whitespace, drop filler
 * words, replace each contraction by its expansion, and join the words back
 * with single spaces.
 */
module Normalizer {
  import opened JsString
  import opened WordTables

  /** The characters of the pattern `[.,\/#!$%\^&\*;:{}=\-_`~()?]` that the
      normaliser deletes. The apostrophe is not among them. */
  predicate IsStripped(c: char) {
    c == '.' || c == ',' || c == '/' || c == '#' || c == '!' || c == '$' || c == '%' || c == '^'
    || c == '&' || c == '*' || c == ';' || c == ':' || c == '{' || c == '}' || c == '=' || c == '-'
    || c == '_' || c == '`' || c == '~' || c == '(' || c == ')' || c == '?'
  }

  /** A character that can appear in normalised text. */
  predicate Clean(c: char) {
    !IsUpper(c) && !IsStripped(c)
  }

  /** Deletes exactly the stripped characters: none of them survives, and
      every other character of `s` is kept. */
  function StripPunctuation(s: string): (r: string)
    ensures |r| <= |s|
    ensures forall i :: 0 <= i < |r| ==> !IsStripped(r[i])
    ensures |s| == 1 ==> r == if IsStripped(s[0]) then "" else s
    decreases |s|
  {
    if s == [] then []
    else (if IsStripped(s[0]) then [] else [s[0]]) + StripPunctuation(s[1..])
  }

  predicate IsFiller(w: string) {
    w in FILLER_WORDS
  }

  function RemoveFillers(ws: seq<string>): (r: seq<string>)
    ensures |r| <= |ws|
  {
    if ws == [] then []
    else (if IsFiller(ws[0]) then [] else [ws[0]]) + RemoveFillers(ws[1..])
  }

  /** The kept words are exactly the words that are not fillers. */
  lemma {:induction false} RemoveFillersKeeps(ws: seq<string>)
    ensures forall w :: w in RemoveFillers(ws) <==> w in ws && !IsFiller(w)
  {
    if ws != [] {
      RemoveFillersKeeps(ws[1..]);
      assert ws == [ws[0]] + ws[1..];
    }
  }

  /** Filler removal works word by word. */
  lemma {:induction false} RemoveFillersConcat(a: seq<string>, b: seq<string>)
    ensures RemoveFillers(a + b) == RemoveFillers(a) + RemoveFillers(b)
    decreases |a|
  {
    if a == [] {
      assert a + b == b;
    } else {
      RemoveFillersConcat(a[1..], b);
      assert (a + b)[1..] == a[1..] + b;
    }
  }

  /** Stripping works character by character. */
  lemma {:induction false} StripConcat(a: string, b: string)
    ensures StripPunctuation(a + b) == StripPunctuation(a) + StripPunctuation(b)
    decreases |a|
  {
    if a == [] {
      assert a + b == b;
    } else {
      StripConcat(a[1..], b);
      assert (a + b)[1..] == a[1..] + b;
    }
  }

  /** Lowering and stripping works word by word: words joined by single
      spaces lower and strip to the lowered, stripped words joined by single
      spaces. */
  lemma {:induction false} LowerStripJoin(raw: seq<string>, ws: seq<string>)
    requires |raw| == |ws| >= 1
    requires forall i :: 0 <= i < |raw| ==> StripPunctuation(ToLower(raw[i])) == ws[i]
    ensures StripPunctuation(ToLower(Join(raw))) == Join(ws)
    decreases |raw|
  {
    if |raw| > 1 {
      LowerStripJoin(raw[1..], ws[1..]);
      LowerStripConcat(raw[0] + " ", Join(raw[1..]));
      LowerStripConcat(raw[0], " ");
      assert StripPunctuation(ToLower(" ")) == " ";
    }
  }

  lemma LowerStripConcat(a: string, b: string)
    ensures StripPunctuation(ToLower(a + b)) == StripPunctuation(ToLower(a)) + StripPunctuation(ToLower(b))
  {
    ToLowerConcat(a, b);
    StripConcat(ToLower(a), ToLower(b));
  }

  /** `CONTRACTIONS[word] || word`: every expansion in the table is a
      non-empty string, so a listed word is always replaced. */
  function Expand(w: string): string {
    Lookup(CONTRACTIONS, w).GetOr(w)
  }

  function ExpandAll(ws: seq<string>): (r: seq<string>)
    ensures |r| == |ws|
    ensures forall i :: 0 <= i < |ws| ==> r[i] == Expand(ws[i])
  {
    seq(|ws|, i requires 0 <= i < |ws| => Expand(ws[i]))
  }

  /** The whole pipeline. The result holds no upper-case letter and no
      deleted punctuation, and neither starts nor ends with whitespace. */
  function Normalize(text: string): (r: string)
    ensures IsTrimmed(r)
    ensures forall i :: 0 <= i < |r| ==> !IsUpper(r[i]) && !IsStripped(r[i])
  {
    var words := Split(StripPunctuation(ToLower(text)));
    var expanded := ExpandAll(RemoveFillers(words));
    PipelineIsClean(text, words, expanded);
    Trim(Join(expanded))
  }

  lemma PipelineIsClean(text: string, words: seq<string>, expanded: seq<string>)
    requires words == Split(StripPunctuation(ToLower(text)))
    requires expanded == ExpandAll(RemoveFillers(words))
    ensures AllChars(Trim(Join(expanded)), Clean)
  {
    WordsAreClean(text);
    RemoveFillersKeeps(words);
    ExpandedIsClean(RemoveFillers(words));
    var j := Join(expanded);
    AllCharsSlice(j, Clean, SpaceSpan(j), SpaceSpan(j) + |Trim(j)|);
  }

  lemma WordsAreClean(text: string)
    ensures forall w :: w in Split(StripPunctuation(ToLower(text))) ==> AllChars(w, Clean)
  {
    StrippedIsClean(text);
    SplitPieces(StripPunctuation(ToLower(text)), Clean);
  }

  lemma StrippedIsClean(text: string)
    ensures AllChars(StripPunctuation(ToLower(text)), Clean)
  {
    var lower := ToLower(text);
    assert AllChars(lower, c => !IsUpper(c));
    StripKeeps(lower, c => !IsUpper(c));
    var stripped := StripPunctuation(lower);
    forall i | 0 <= i < |stripped| ensures Clean(stripped[i]) {
      assert (c => !IsUpper(c))(stripped[i]);
    }
  }

  lemma ExpandedIsClean(kept: seq<string>)
    requires forall w :: w in kept ==> AllChars(w, Clean)
    ensures AllChars(Join(ExpandAll(kept)), Clean)
  {
    var expanded := ExpandAll(kept);
    forall w | w in expanded ensures AllChars(w, Clean) {
      var i :| 0 <= i < |expanded| && expanded[i] == w;
      assert kept[i] in kept;
      ExpandIsClean(kept[i]);
    }
    JoinChars(expanded, Clean);
  }

  /** Deleting characters keeps any property the remaining characters had. */
  lemma {:induction false} StripKeeps(s: string, P: char -> bool)
    requires AllChars(s, P)
    ensures AllChars(StripPunctuation(s), P)
    decreases |s|
  {
    if s != [] {
      AllCharsSlice(s, P, 1, |s|);
      StripKeeps(s[1..], P);
    }
  }

  /** A well-formed contraction key is one word of characters the
      normaliser keeps. */
  lemma KeyIsClean(k: string)
    requires WellFormedKey(k)
    ensures k != "" && NoSpace(k) && AllChars(k, Clean)
  {
    forall i | 0 <= i < |k| ensures Clean(k[i]) && !IsSpace(k[i]) {
      assert IsKeyChar(k[i]);
    }
  }

  /** A well-formed expansion is made of characters the normaliser keeps and
      neither starts nor ends with whitespace. */
  lemma ExpansionIsClean(v: string)
    requires WellFormedExpansion(v)
    ensures v != "" && AllChars(v, Clean) && !IsSpace(v[0]) && !IsSpace(v[|v| - 1])
  {
    forall i | 0 <= i < |v| ensures Clean(v[i]) {
      assert IsExpansionChar(v[i]);
    }
  }

  /** Every contraction key is one clean word, so a spoken contraction
      reaches the table lookup intact (constants.ts:6-13). */
  lemma ContractionKeysSurvive(i: int)
    requires 0 <= i < |CONTRACTIONS|
    ensures var k := CONTRACTIONS[i].0;
      k != "" && NoSpace(k) && AllChars(k, Clean) && StripPunctuation(ToLower(k)) == k
  {
    var k := CONTRACTIONS[i].0;
    ContractionEntryShape(i);
    KeyIsClean(k);
    ToLowerKeeps(k);
    StripKeepsClean(k);
  }

  lemma ToLowerKeeps(s: string)
    requires forall i :: 0 <= i < |s| ==> !IsUpper(s[i])
    ensures ToLower(s) == s
  {
  }

  lemma {:induction false} StripKeepsClean(s: string)
    requires forall i :: 0 <= i < |s| ==> !IsStripped(s[i])
    ensures StripPunctuation(s) == s
    decreases |s|
  {
    if s != [] {
      StripKeepsClean(s[1..]);
      assert s == [s[0]] + s[1..];
    }
  }

  /** Expanding a clean word gives a clean, non-empty text when the word is
      non-empty. */
  lemma ExpandIsClean(w: string)
    requires AllChars(w, Clean)
    ensures AllChars(Expand(w), Clean)
    ensures w != "" && !IsSpace(w[0]) && !IsSpace(w[|w| - 1]) ==>
      Expand(w) != "" && !IsSpace(Expand(w)[0]) && !IsSpace(Expand(w)[|Expand(w)| - 1])
  {
    var r := Lookup(CONTRACTIONS, w);
    if r.Some? {
      LookupFound(CONTRACTIONS, w);
      var i :| 0 <= i < |CONTRACTIONS| && CONTRACTIONS[i] == (w, r.value);
      ContractionEntryShape(i);
      ExpansionIsClean(r.value);
    }
  }

  /** No filler word is empty or a contraction key (constants.ts:4-13). */
  lemma FillersAreNotContractions()
    ensures forall w :: w in FILLER_WORDS ==> w != "" && Lookup(CONTRACTIONS, w).None?
  {
    forall w | w in FILLER_WORDS ensures w != "" && Lookup(CONTRACTIONS, w).None? {
      forall i | 0 <= i < |CONTRACTIONS| ensures CONTRACTIONS[i].0 != w {
        ContractionKeys(i);
      }
      LookupMissing(CONTRACTIONS, w);
    }
  }

  /** Clean words: non-empty, free of whitespace, upper-case letters and
      deleted punctuation. This is what an utterance looks like once lowered
      and stripped. */
  ghost predicate CleanWords(ws: seq<string>) {
    PlainWords(ws) && forall i :: 0 <= i < |ws| ==> AllChars(ws[i], Clean)
  }

  /** For clean words joined by single spaces, normalising removes the
      filler words first and then expands each remaining contraction once:
      an expansion is neither filtered nor expanded again. */
  lemma NormalizeCleanWords(ws: seq<string>)
    requires |ws| >= 1 && CleanWords(ws)
    ensures Normalize(Join(ws)) == Join(ExpandAll(RemoveFillers(ws)))
  {
    var text := Join(ws);
    JoinedCleanWords(ws);
    ToLowerKeeps(text);
    StripKeepsClean(text);
    NormalizeVia(text, ws);
  }

  /** Any text that lowers and strips to clean words joined by single
      spaces normalises as those words do. */
  lemma NormalizeVia(text: string, ws: seq<string>)
    requires |ws| >= 1 && CleanWords(ws) && StripPunctuation(ToLower(text)) == Join(ws)
    ensures Normalize(text) == Join(ExpandAll(RemoveFillers(ws)))
  {
    SplitJoin(ws);
    RemoveFillersClean(ws);
    TrimExpanded(RemoveFillers(ws));
  }

  /** A word without an apostrophe is left alone unless it is one of the
      four spoken forms the table lists. */
  lemma NotAKey(w: string)
    requires '\'' !in w && w !in ["gonna", "wanna", "gotta", "lemme"]
    ensures Expand(w) == w
  {
    forall i | 0 <= i < |CONTRACTIONS| ensures CONTRACTIONS[i].0 != w {
      ContractionKeys(i);
    }
    LookupMissing(CONTRACTIONS, w);
  }

  lemma JoinedCleanWords(ws: seq<string>)
    requires CleanWords(ws)
    ensures forall i :: 0 <= i < |Join(ws)| ==> Clean(Join(ws)[i])
  {
    forall w | w in ws ensures AllChars(w, Clean) {
      var i :| 0 <= i < |ws| && ws[i] == w;
    }
    JoinChars(ws, Clean);
  }

  lemma RemoveFillersClean(ws: seq<string>)
    requires CleanWords(ws)
    ensures CleanWords(RemoveFillers(ws))
  {
    var kept := RemoveFillers(ws);
    RemoveFillersKeeps(ws);
    forall i | 0 <= i < |kept| ensures kept[i] != "" && NoSpace(kept[i]) && AllChars(kept[i], Clean) {
      assert kept[i] in kept;
      var j :| 0 <= j < |ws| && ws[j] == kept[i];
    }
  }

  /** Expanding clean words and joining them gives a text that is already
      trimmed. */
  lemma TrimExpanded(kept: seq<string>)
    requires CleanWords(kept)
    ensures Trim(Join(ExpandAll(kept))) == Join(ExpandAll(kept))
  {
    var expanded := ExpandAll(kept);
    if |kept| == 0 {
      assert Join(expanded) == "";
    } else {
      ExpandedNonEmpty(kept);
      var first := kept[0];
      var last := kept[|kept| - 1];
      ExpandedWordShape(first);
      ExpandedWordShape(last);
      assert expanded[0] == Expand(first);
      assert expanded[|expanded| - 1] == Expand(last);
      TrimJoined(expanded);
    }
  }

  /** Every expanded clean word is non-empty. */
  lemma ExpandedNonEmpty(kept: seq<string>)
    requires CleanWords(kept)
    ensures forall i :: 0 <= i < |kept| ==> ExpandAll(kept)[i] != ""
  {
    forall i | 0 <= i < |kept| ensures ExpandAll(kept)[i] != "" {
      ExpandedWordShape(kept[i]);
    }
  }

  /** An expanded clean word is non-empty and neither starts nor ends with
      whitespace. */
  lemma ExpandedWordShape(w: string)
    requires w != "" && NoSpace(w) && AllChars(w, Clean)
    ensures var e := Expand(w); e != "" && !IsSpace(e[0]) && !IsSpace(e[|e| - 1])
  {
    ExpandIsClean(w);
  }

  /** A single spoken word normalises to nothing when it is a filler word,
      to its expansion when it is a contraction, and to itself otherwise. */
  lemma NormalizeWord(w: string)
    requires CleanWords([w])
    ensures Normalize(w) == if IsFiller(w) then "" else Expand(w)
  {
    NormalizeCleanWords([w]);
    assert Join([w]) == w;
    if IsFiller(w) {
      assert RemoveFillers([w]) == [];
    } else {
      assert RemoveFillers([w]) == [w];
      assert ExpandAll([w]) == [Expand(w)];
    }
  }

  /** The empty text normalises to the empty text: its one empty piece is
      neither a filler word nor a contraction. */
  lemma NormalizeEmpty(text: string)
    requires |text| == 0
    ensures Normalize(text) == text
  {
    var words := Split(StripPunctuation(ToLower(text)));
    assert words == [text];
    assert !IsFiller(text);
    assert RemoveFillers(words) == [text];
    forall i | 0 <= i < |CONTRACTIONS| ensures CONTRACTIONS[i].0 != text {
      ContractionKeyShape(i);
    }
    LookupMissing(CONTRACTIONS, text);
    assert ExpandAll([text]) == [text];
  }
}
