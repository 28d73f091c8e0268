/**
 * The word tables of constants.ts that the answer normaliser consults, and
 * the category list the menu offers.
 */
module WordTables {
  import opened Wrappers

  /** Words dropped from an utterance before it is compared (constants.ts:4). */
  const FILLER_WORDS: seq<string> :=
    ["um", "uh", "ah", "well", "so", "like", "actually", "basically", "literally", "hmm"]

  /** Spoken contractions and their expansions (constants.ts:6-13), as the
      entries of the object literal in order. Only the listed keys are
      present: the names JavaScript would also find on the object prototype
      are not part of the table. */
  const CONTRACTIONS: seq<(string, string)> := [
    ("what's", "what is"), ("where's", "where is"), ("it's", "it is"), ("i'm", "i am"),
    ("you're", "you are"), ("he's", "he is"), ("she's", "she is"), ("we're", "we are"),
    ("they're", "they are"), ("isn't", "is not"), ("aren't", "are not"), ("don't", "do not"),
    ("doesn't", "does not"), ("didn't", "did not"), ("can't", "cannot"), ("couldn't", "could not"),
    ("won't", "will not"), ("wouldn't", "would not"), ("haven't", "have not"), ("hasn't", "has not"),
    ("gonna", "going to"), ("wanna", "want to"), ("gotta", "got to"), ("lemme", "let me"),
    ("'cause", "because")
  ]

  /** `table[key]`: the value of the first entry with that key, if any. */
  function Lookup(table: seq<(string, string)>, key: string): Option<string> {
    if table == [] then None
    else if table[0].0 == key then Some(table[0].1)
    else Lookup(table[1..], key)
  }

  /** A key that is found comes with the value of its first entry. */
  lemma {:induction false} LookupFound(table: seq<(string, string)>, key: string)
    requires Lookup(table, key).Some?
    ensures exists i :: 0 <= i < |table| && table[i] == (key, Lookup(table, key).value) &&
                        (forall l :: 0 <= l < i ==> table[l].0 != key)
  {
    if table[0].0 != key {
      LookupFound(table[1..], key);
      var i :| 0 <= i < |table[1..]| && table[1..][i] == (key, Lookup(table, key).value) &&
               (forall l :: 0 <= l < i ==> table[1..][l].0 != key);
      assert table[i + 1] == table[1..][i];
      forall l | 0 <= l < i + 1 ensures table[l].0 != key {
        if l > 0 {
          assert table[l] == table[1..][l - 1];
        }
      }
    }
  }

  /** A key is missing exactly when no entry has it. */
  lemma {:induction false} LookupMissing(table: seq<(string, string)>, key: string)
    ensures Lookup(table, key).None? <==> forall i :: 0 <= i < |table| ==> table[i].0 != key
  {
    if table != [] && table[0].0 != key {
      LookupMissing(table[1..], key);
      assert forall i :: 1 <= i < |table| ==> table[i] == table[1..][i - 1];
    }
  }

  /** The first entry of the category list (constants.ts:113-123), the
      filter value that selects every question. */
  const ALL_CATEGORIES := "All"

  /** The characters the keys are written with: lower-case letters and the
      apostrophe. */
  predicate IsKeyChar(c: char) {
    'a' <= c <= 'z' || c == '\''
  }

  /** The characters the expansions are written with. */
  predicate IsExpansionChar(c: char) {
    'a' <= c <= 'z' || c == ' '
  }

  predicate WellFormedKey(k: string) {
    k != [] && forall i :: 0 <= i < |k| ==> IsKeyChar(k[i])
  }

  predicate WellFormedExpansion(v: string) {
    v != [] && v[0] != ' ' && v[|v| - 1] != ' '
    && (forall i :: 0 <= i < |v| ==> IsExpansionChar(v[i]))
    && forall i :: 0 <= i < |v| - 1 ==> !(v[i] == ' ' && v[i + 1] == ' ')
  }

  predicate WellFormedEntry(e: (string, string)) {
    WellFormedKey(e.0) && WellFormedExpansion(e.1)
  }

  /** Every key is a non-empty lower-case word (an apostrophe allowed), and
      every expansion is non-empty lower-case words separated by single
      spaces. */
  lemma ContractionTableShape()
    ensures forall i :: 0 <= i < |CONTRACTIONS| ==> WellFormedEntry(CONTRACTIONS[i])
  {
    forall i | 0 <= i < |CONTRACTIONS| ensures WellFormedEntry(CONTRACTIONS[i]) {
      ContractionEntryShape(i);
    }
  }

  lemma ContractionEntryShape(i: int)
    requires 0 <= i < |CONTRACTIONS|
    ensures WellFormedEntry(CONTRACTIONS[i])
  {
    ContractionKeyShape(i);
    if i < 13 { LowerExpansionShape(i); } else { UpperExpansionShape(i); }
  }

  lemma ContractionKeyShape(i: int)
    requires 0 <= i < |CONTRACTIONS|
    ensures WellFormedKey(CONTRACTIONS[i].0)
  {
  }

  lemma LowerExpansionShape(i: int)
    requires 0 <= i < 13
    ensures WellFormedExpansion(CONTRACTIONS[i].1)
  {
  }

  lemma UpperExpansionShape(i: int)
    requires 13 <= i < |CONTRACTIONS|
    ensures WellFormedExpansion(CONTRACTIONS[i].1)
  {
  }

  /** A key holds an apostrophe or is one of four slang forms, so it is
      never one of the plain filler words. */
  lemma ContractionKeys(i: int)
    requires 0 <= i < |CONTRACTIONS|
    ensures '\'' in CONTRACTIONS[i].0 || CONTRACTIONS[i].0 in ["gonna", "wanna", "gotta", "lemme"]
  {
    if i < 12 { } else { }
  }
}
