/**
 * The JavaScript string primitives that services/textUtils.ts and
 * components/Game.tsx rely on, written out as sequence functions:
 * `toLowerCase` (restricted to ASCII), `trim`, `split(/\s+/)` and
 * `join(" ")`.
 */
module JsString {

  /** The characters matched by the JavaScript class `\s`; `trim` removes
      the same characters. */
  predicate IsSpace(c: char) {
    c == ' ' || c == '\t' || c == '\n' || c == '\U{000B}' || c == '\U{000C}' || c == '\r'
    || c == '\U{00A0}' || c == '\U{1680}' || ('\U{2000}' <= c <= '\U{200A}')
    || c == '\U{2028}' || c == '\U{2029}' || c == '\U{202F}' || c == '\U{205F}'
    || c == '\U{3000}' || c == '\U{FEFF}'
  }

  predicate NoSpace(s: string) {
    forall i :: 0 <= i < |s| ==> !IsSpace(s[i])
  }

  /** A string with no leading and no trailing whitespace. */
  predicate IsTrimmed(s: string) {
    s == [] || (!IsSpace(s[0]) && !IsSpace(s[|s| - 1]))
  }

  predicate IsUpper(c: char) {
    'A' <= c <= 'Z'
  }

  function LowerChar(c: char): (r: char)
    ensures !IsUpper(r)
    ensures !IsUpper(c) ==> r == c
  {
    if IsUpper(c) then (c as int + 32) as char else c
  }

  /** `toLowerCase`, for the ASCII letters only. */
  function ToLower(s: string): (r: string)
    ensures |r| == |s|
    ensures forall i :: 0 <= i < |s| ==> !IsUpper(r[i])
    ensures forall i :: 0 <= i < |s| ==> r[i] == LowerChar(s[i])
  {
    seq(|s|, i requires 0 <= i < |s| => LowerChar(s[i]))
  }

  /** Lowering works character by character. */
  lemma ToLowerConcat(a: string, b: string)
    ensures ToLower(a + b) == ToLower(a) + ToLower(b)
  {
  }

  /** Length of the longest prefix of `s` holding no whitespace. */
  function NonSpaceSpan(s: string): (n: nat)
    ensures n <= |s|
    ensures forall k :: 0 <= k < n ==> !IsSpace(s[k])
    ensures n < |s| ==> IsSpace(s[n])
  {
    if s == [] || IsSpace(s[0]) then 0 else 1 + NonSpaceSpan(s[1..])
  }

  /** Length of the longest prefix of `s` made only of whitespace. */
  function SpaceSpan(s: string): (n: nat)
    ensures n <= |s|
    ensures forall k :: 0 <= k < n ==> IsSpace(s[k])
    ensures n < |s| ==> !IsSpace(s[n])
  {
    if s == [] || !IsSpace(s[0]) then 0 else 1 + SpaceSpan(s[1..])
  }

  /** `s.split(/\s+/)`: the pieces between maximal runs of whitespace. A
      leading or trailing run yields an empty first or last piece, and the
      empty string splits into `[""]`. */
  function Split(s: string): (r: seq<string>)
    ensures |r| >= 1
    decreases |s|
  {
    var n := NonSpaceSpan(s);
    if n == |s| then [s]
    else
      var rest := s[n..];
      [s[..n]] + Split(rest[SpaceSpan(rest)..])
  }

  /** `words.join(" ")`. */
  function Join(ws: seq<string>): string {
    if |ws| == 0 then ""
    else if |ws| == 1 then ws[0]
    else ws[0] + " " + Join(ws[1..])
  }

  function TrimEnd(s: string): (r: string)
    ensures |r| <= |s| && r == s[..|r|]
    ensures r == [] || !IsSpace(r[|r| - 1])
    ensures forall k :: |r| <= k < |s| ==> IsSpace(s[k])
  {
    if s != [] && IsSpace(s[|s| - 1]) then TrimEnd(s[..|s| - 1]) else s
  }

  /** `s.trim()`: the result is the slice of `s` that starts after its
      leading whitespace, it neither starts nor ends with whitespace, and
      everything cut off at the end is whitespace too. */
  function Trim(s: string): (r: string)
    ensures IsTrimmed(r)
    ensures SpaceSpan(s) + |r| <= |s| && r == s[SpaceSpan(s)..SpaceSpan(s) + |r|]
    ensures forall k :: SpaceSpan(s) + |r| <= k < |s| ==> IsSpace(s[k])
  {
    var t := s[SpaceSpan(s)..];
    assert t != [] ==> !IsSpace(t[0]);
    TrimEnd(t)
  }

  /** The pieces of a split that are not empty:
      `s.split(/\s+/).filter(w => w.length > 0)`. */
  function NonEmpty(ws: seq<string>): (r: seq<string>)
    ensures |r| <= |ws|
    ensures forall w :: w in r ==> w in ws && w != ""
  {
    if ws == [] then []
    else (if ws[0] == "" then [] else [ws[0]]) + NonEmpty(ws[1..])
  }

  function Words(s: string): seq<string> {
    NonEmpty(Split(s))
  }

  /** Every character of `s` satisfies `P`. */
  ghost predicate AllChars(s: string, P: char -> bool) {
    forall i :: 0 <= i < |s| ==> P(s[i])
  }

  lemma AllCharsSlice(s: string, P: char -> bool, i: nat, j: nat)
    requires i <= j <= |s| && AllChars(s, P)
    ensures AllChars(s[i..j], P)
  {
    forall k | 0 <= k < j - i ensures P(s[i..j][k]) {
      assert s[i..j][k] == s[i + k];
    }
  }

  /** The pieces of a split hold no whitespace, and any property of the
      characters of the split string holds of the characters of each piece. */
  lemma {:induction false} SplitPieces(s: string, P: char -> bool)
    requires AllChars(s, P)
    ensures forall w :: w in Split(s) ==> NoSpace(w) && AllChars(w, P)
    decreases |s|
  {
    var n := NonSpaceSpan(s);
    if n < |s| {
      var rest := s[n..];
      var tail := rest[SpaceSpan(rest)..];
      AllCharsSlice(s, P, 0, n);
      assert tail == s[n + SpaceSpan(rest)..];
      AllCharsSlice(s, P, n + SpaceSpan(rest), |s|);
      SplitPieces(tail, P);
      assert Split(s) == [s[..n]] + Split(tail);
    }
  }

  /** Joining with single spaces keeps any property of the characters that
      the space itself has. */
  lemma {:induction false} JoinChars(ws: seq<string>, P: char -> bool)
    requires P(' ')
    requires forall w :: w in ws ==> AllChars(w, P)
    ensures AllChars(Join(ws), P)
  {
    if |ws| > 1 {
      JoinChars(ws[1..], P);
      assert ws[0] in ws;
      var j := ws[0] + " " + Join(ws[1..]);
      forall k | 0 <= k < |j| ensures P(j[k]) {
        if k < |ws[0]| {
          assert j[k] == ws[0][k];
        } else if k > |ws[0]| {
          assert j[k] == Join(ws[1..])[k - |ws[0]| - 1];
        } else {
          assert j[k] == ' ';
        }
      }
    }
  }

  /** A word list whose words are non-empty and free of whitespace. */
  predicate PlainWords(ws: seq<string>) {
    forall i :: 0 <= i < |ws| ==> ws[i] != "" && NoSpace(ws[i])
  }

  lemma NonSpaceSpanPrefix(a: string, b: string)
    requires NoSpace(a) && (b == [] || IsSpace(b[0]))
    ensures NonSpaceSpan(a + b) == |a|
  {
    if a != [] {
      assert (a + b)[1..] == a[1..] + b;
      NonSpaceSpanPrefix(a[1..], b);
    }
  }

  lemma SpaceSpanSingle(b: string)
    requires b != [] && !IsSpace(b[0])
    ensures SpaceSpan(" " + b) == 1
  {
    assert (" " + b)[1..] == b;
  }

  /** A word, one space and a text that starts with a non-space split into
      the word followed by the pieces of that text. */
  lemma SplitCons(w: string, rest: string)
    requires NoSpace(w) && rest != [] && !IsSpace(rest[0])
    ensures Split(w + " " + rest) == [w] + Split(rest)
  {
    var s := w + (" " + rest);
    assert w + " " + rest == s;
    NonSpaceSpanPrefix(w, " " + rest);
    assert s[|w|..] == " " + rest;
    SpaceSpanSingle(rest);
    assert (" " + rest)[1..] == rest;
    assert s[..|w|] == w;
  }

  /** Splitting words joined by single spaces gives the words back. */
  lemma {:induction false} SplitJoin(ws: seq<string>)
    requires |ws| >= 1 && PlainWords(ws)
    ensures Split(Join(ws)) == ws
  {
    if |ws| == 1 {
      NonSpaceSpanPrefix(ws[0], "");
      assert ws[0] + "" == ws[0];
    } else {
      assert PlainWords(ws[1..]);
      SplitJoin(ws[1..]);
      JoinStartsWithWord(ws[1..]);
      SplitCons(ws[0], Join(ws[1..]));
      assert ws == [ws[0]] + ws[1..];
    }
  }

  lemma {:induction false} JoinStartsWithWord(ws: seq<string>)
    requires |ws| >= 1 && PlainWords(ws)
    ensures Join(ws) != [] && Join(ws)[0] == ws[0][0]
  {
    if |ws| > 1 {
      assert Join(ws) == ws[0] + " " + Join(ws[1..]);
    }
  }

  /** Dropping empty pieces leaves a list without empty pieces unchanged. */
  lemma {:induction false} NonEmptyKeeps(ws: seq<string>)
    requires forall i :: 0 <= i < |ws| ==> ws[i] != ""
    ensures NonEmpty(ws) == ws
  {
    if ws != [] {
      NonEmptyKeeps(ws[1..]);
      assert ws == [ws[0]] + ws[1..];
    }
  }

  /** The word list of a text made of plain words joined by single spaces is
      that list. */
  lemma WordsOfJoin(ws: seq<string>)
    requires |ws| >= 1 && PlainWords(ws)
    ensures Words(Join(ws)) == ws
  {
    SplitJoin(ws);
    NonEmptyKeeps(ws);
  }

  /** A text that is already trimmed is its own trim. */
  lemma TrimTrimmed(s: string)
    requires IsTrimmed(s)
    ensures Trim(s) == s
  {
    assert SpaceSpan(s) == 0;
    assert s[0..] == s;
  }

  /** Words that neither start nor end the text with whitespace join into
      a trimmed text. */
  lemma TrimJoined(ws: seq<string>)
    requires |ws| >= 1 && forall i :: 0 <= i < |ws| ==> ws[i] != ""
    requires !IsSpace(ws[0][0]) && !IsSpace(ws[|ws| - 1][|ws[|ws| - 1]| - 1])
    ensures Trim(Join(ws)) == Join(ws)
  {
    JoinEnds(ws);
    TrimTrimmed(Join(ws));
  }

  /** Joining non-empty texts starts with the first text's first character
      and ends with the last text's last character. */
  lemma {:induction false} JoinEnds(ws: seq<string>)
    requires |ws| >= 1 && forall i :: 0 <= i < |ws| ==> ws[i] != ""
    ensures Join(ws) != ""
    ensures Join(ws)[0] == ws[0][0]
    ensures Join(ws)[|Join(ws)| - 1] == ws[|ws| - 1][|ws[|ws| - 1]| - 1]
  {
    if |ws| > 1 {
      JoinEnds(ws[1..]);
      var j := ws[0] + " " + Join(ws[1..]);
      assert j[|j| - 1] == Join(ws[1..])[|Join(ws[1..])| - 1];
    }
  }
}
