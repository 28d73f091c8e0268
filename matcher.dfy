/**
 * `isWordMatch` and `checkAnswerLocally` of services/textUtils.ts:40-94: a
 * word-level fuzzy match whose tolerance depends on the target word's
 * length, and a greedy assignment of spoken words to answer words.
 */
module Matcher {
  import opened JsString
  import opened Normalizer
  import opened EditDistance
  import opened Questions

  /** Whether the spoken word `source` is close enough to the answer word
      `target`. Up to three letters the words must be equal, four or five
      letters allow one edit, and longer words need a similarity
      `1 - dist / len` of at least 0.8, which for whole numbers is
      `5 * dist <= len`. */
  predicate WordMatch(source: string, target: string) {
    source == target ||
    var dist := Lev(source, target);
    if |target| <= 3 then dist == 0
    else if |target| <= 5 then dist <= 1
    else 5 * dist <= Max(|source|, |target|)
  }

  method IsWordMatch(source: string, target: string) returns (r: bool)
    ensures r == WordMatch(source, target)
  {
    if source == target {
      return true;
    }
    var len := Max(|source|, |target|);
    var dist := LevenshteinDistance(source, target);
    if |target| <= 3 {
      return dist == 0;
    }
    if |target| <= 5 {
      return dist <= 1;
    }
    return 5 * dist <= len;
  }

  /** Each tier in terms of the distance alone: the equality shortcut adds
      nothing, and which tier applies depends only on the target's length. */
  lemma WordMatchTiers(source: string, target: string)
    ensures |target| <= 3 ==> (WordMatch(source, target) <==> source == target)
    ensures 3 < |target| <= 5 ==> (WordMatch(source, target) <==> Lev(source, target) <= 1)
    ensures 5 < |target| ==>
      (WordMatch(source, target) <==> 5 * Lev(source, target) <= Max(|source|, |target|))
  {
    LevZero(source, target);
  }

  /** A matching word is at most a quarter longer than the target, so a
      long spoken word never matches a short answer word. */
  lemma MatchLength(source: string, target: string)
    requires WordMatch(source, target)
    ensures 4 * |source| <= 5 * |target|
  {
    LevBounds(source, target);
  }

  /** `findIndex`: the lowest index whose word matches the target under
      `matches`, or -1. */
  function FirstMatch(matches: (string, string) -> bool, avail: seq<string>, target: string): (r: int)
    ensures -1 <= r < |avail|
    ensures r >= 0 ==> matches(avail[r], target)
  {
    if avail == [] then -1
    else if matches(avail[0], target) then 0
    else
      var r := FirstMatch(matches, avail[1..], target);
      if r == -1 then -1 else r + 1
  }

  /** The index found is the first matching one, and -1 means that no word
      matches. */
  lemma {:induction false} FirstMatchIsFirst(matches: (string, string) -> bool, avail: seq<string>, target: string)
    ensures var r := FirstMatch(matches, avail, target);
      (r >= 0 ==> forall k :: 0 <= k < r ==> !matches(avail[k], target)) &&
      (r == -1 <==> forall k :: 0 <= k < |avail| ==> !matches(avail[k], target))
  {
    if avail != [] && !matches(avail[0], target) {
      FirstMatchIsFirst(matches, avail[1..], target);
      forall k | 1 <= k < |avail| ensures avail[k] == avail[1..][k - 1] { }
    }
  }

  /** Any matching index bounds the first one from above. */
  lemma FirstMatchAt(matches: (string, string) -> bool, avail: seq<string>, target: string, k: int)
    requires 0 <= k < |avail| && matches(avail[k], target)
    requires forall l :: 0 <= l < k ==> !matches(avail[l], target)
    ensures FirstMatch(matches, avail, target) == k
  {
    FirstMatchIsFirst(matches, avail, target);
  }

  method FindMatch(avail: seq<string>, target: string) returns (idx: int)
    ensures idx == FirstMatch(WordMatch, avail, target)
  {
    var k := 0;
    while k < |avail|
      invariant 0 <= k <= |avail|
      invariant forall l :: 0 <= l < k ==> !WordMatch(avail[l], target)
    {
      var m := IsWordMatch(avail[k], target);
      if m {
        FirstMatchAt(WordMatch, avail, target, k);
        return k;
      }
      k := k + 1;
    }
    FirstMatchIsFirst(WordMatch, avail, target);
    return -1;
  }

  /** `splice(k, 1)`: the list without its element at `k`. */
  function Remove(s: seq<string>, k: int): (r: seq<string>)
    requires 0 <= k < |s|
    ensures |r| == |s| - 1
  {
    if k == 0 then s[1..] else [s[0]] + Remove(s[1..], k - 1)
  }

  /** The words before `k` keep their places and the words after it move
      down by one. */
  lemma {:induction false} RemoveAt(s: seq<string>, k: int, l: int)
    requires 0 <= k < |s| && 0 <= l < |s| - 1
    ensures Remove(s, k)[l] == if l < k then s[l] else s[l + 1]
  {
    if k > 0 && l > 0 {
      RemoveAt(s[1..], k - 1, l - 1);
    }
  }

  /** The list without element `k` is the slices around it. */
  lemma {:induction false} RemoveIsSplice(s: seq<string>, k: int)
    requires 0 <= k < |s|
    ensures Remove(s, k) == s[..k] + s[k + 1..]
  {
    forall l | 0 <= l < |s| - 1 ensures Remove(s, k)[l] == (s[..k] + s[k + 1..])[l] {
      RemoveAt(s, k, l);
    }
  }

  /** The number of target words matched when each target word, in order,
      consumes the lowest-index spoken word still available that matches
      it. Every spoken word is consumed at most once, so the count is
      bounded by both lists. The properties below hold for any match
      relation; the check uses `WordMatch`. */
  function Greedy(matches: (string, string) -> bool, targets: seq<string>, avail: seq<string>): (n: nat)
    ensures n <= |targets| && n <= |avail|
    decreases |targets|
  {
    if targets == [] then 0
    else
      var k := FirstMatch(matches, avail, targets[0]);
      if k == -1 then Greedy(matches, targets[1..], avail)
      else 1 + Greedy(matches, targets[1..], Remove(avail, k))
  }

  /** The counting loop of one answer. */
  method CountMatches(targetWords: seq<string>, inputWords: seq<string>) returns (matched: nat)
    ensures matched == Greedy(WordMatch, targetWords, inputWords)
  {
    matched := 0;
    var available := inputWords;
    var t := 0;
    while t < |targetWords|
      invariant 0 <= t <= |targetWords|
      invariant matched + Greedy(WordMatch, targetWords[t..], available) == Greedy(WordMatch, targetWords, inputWords)
    {
      assert targetWords[t..][1..] == targetWords[t + 1..];
      var idx := FindMatch(available, targetWords[t]);
      if idx != -1 {
        matched := matched + 1;
        RemoveIsSplice(available, idx);
        available := available[..idx] + available[idx + 1..];
      }
      t := t + 1;
    }
  }

  /** The words of a normalised text: `split(/\s+/)` without the empty
      pieces. */
  function NormalizedWords(text: string): seq<string> {
    Words(Normalize(text))
  }

  /** One answer accepts the spoken words when it has at least one word and
      at least 90% of its words are matched. */
  predicate AnswerAccepted(inputWords: seq<string>, answer: string) {
    var targetWords := NormalizedWords(answer);
    |targetWords| > 0 && 10 * Greedy(WordMatch, targetWords, inputWords) >= 9 * |targetWords|
  }

  /** The acceptance test of one answer against fixed spoken words. */
  function AcceptsFor(inputWords: seq<string>): string -> bool {
    answer => AnswerAccepted(inputWords, answer)
  }

  /** Whether some answer in the list, tried in order, passes `accepts`. */
  predicate AnyAccepts(accepts: string -> bool, answers: seq<string>) {
    answers != [] && (accepts(answers[0]) || AnyAccepts(accepts, answers[1..]))
  }

  /** The local check on the words of the normalised input. */
  predicate LocallyAccepted(userInput: string, q: Question) {
    AnyAccepts(AcceptsFor(NormalizedWords(userInput)), q.Answers())
  }

  method CheckAnswerLocally(userInput: string, q: Question) returns (ok: bool)
    ensures ok == LocallyAccepted(userInput, q)
  {
    var inputWords := NormalizedWords(userInput);
    ok := CheckAnswers(inputWords, q.Answers());
  }

  /** The loop over `[main_answer, ...variations]`: the first answer that
      accepts ends it. */
  method CheckAnswers(inputWords: seq<string>, answers: seq<string>) returns (ok: bool)
    ensures ok == AnyAccepts(AcceptsFor(inputWords), answers)
  {
    var a := 0;
    while a < |answers|
      invariant 0 <= a <= |answers|
      invariant AnyAccepts(AcceptsFor(inputWords), answers) == AnyAccepts(AcceptsFor(inputWords), answers[a..])
    {
      var accepted := CheckOneAnswer(inputWords, answers[a]);
      assert answers[a..][1..] == answers[a + 1..];
      if accepted {
        return true;
      }
      a := a + 1;
    }
    return false;
  }

  /** The check accepts exactly when some answer, the main one or a
      variation, passes. */
  lemma {:induction false} AnyAcceptsIff(accepts: string -> bool, answers: seq<string>)
    ensures AnyAccepts(accepts, answers) <==> exists k :: 0 <= k < |answers| && accepts(answers[k])
  {
    if answers != [] {
      AnyAcceptsIff(accepts, answers[1..]);
      if AnyAccepts(accepts, answers[1..]) {
        var k :| 0 <= k < |answers[1..]| && accepts(answers[1..][k]);
        assert answers[k + 1] == answers[1..][k];
      }
      if exists k :: 0 <= k < |answers| && accepts(answers[k]) {
        var k :| 0 <= k < |answers| && accepts(answers[k]);
        if k > 0 {
          assert answers[1..][k - 1] == answers[k];
        }
      }
    }
  }

  /** The body of the loop over answers. */
  method CheckOneAnswer(inputWords: seq<string>, answer: string) returns (accepted: bool)
    ensures accepted == AnswerAccepted(inputWords, answer)
  {
    var targetWords := NormalizedWords(answer);
    if |targetWords| == 0 {
      return false;
    }
    var matched := CountMatches(targetWords, inputWords);
    return 10 * matched >= 9 * |targetWords|;
  }

  /** Saying exactly the words of an answer matches all of them: target
      word `i` consumes spoken word `i`. */
  lemma {:induction false} GreedySelf(matches: (string, string) -> bool, ws: seq<string>)
    requires forall w :: matches(w, w)
    ensures Greedy(matches, ws, ws) == |ws|
  {
    if ws != [] {
      assert FirstMatch(matches, ws, ws[0]) == 0;
      assert Remove(ws, 0) == ws[1..];
      GreedySelf(matches, ws[1..]);
    }
  }

  /** Reading out any answer of a question that has words is accepted. */
  lemma SelfAccepted(q: Question, k: int)
    requires 0 <= k < |q.Answers()| && NormalizedWords(q.Answers()[k]) != []
    ensures LocallyAccepted(q.Answers()[k], q)
  {
    GreedySelf(WordMatch, NormalizedWords(q.Answers()[k]));
    AnyAcceptsIff(AcceptsFor(NormalizedWords(q.Answers()[k])), q.Answers());
  }

  /** Removing a spoken word never raises the count. */
  lemma {:induction false} GreedyRemove(matches: (string, string) -> bool, targets: seq<string>, avail: seq<string>, k: int)
    requires 0 <= k < |avail|
    ensures Greedy(matches, targets, Remove(avail, k)) <= Greedy(matches, targets, avail)
    decreases |targets|, 1
  {
    if targets != [] {
      var j := FirstMatch(matches, avail, targets[0]);
      if j == -1 {
        NoMatchAfterRemove(matches, avail, k, targets[0]);
        GreedyRemove(matches, targets[1..], avail, k);
      } else if j == k {
        var fewer := Remove(avail, k);
        var i := FirstMatch(matches, fewer, targets[0]);
        if i != -1 {
          GreedyRemove(matches, targets[1..], fewer, i);
        }
      } else if j < k {
        GreedyRemoveBefore(matches, targets, avail, k);
      } else {
        GreedyRemoveAfter(matches, targets, avail, k);
      }
    }
  }

  lemma NoMatchAfterRemove(matches: (string, string) -> bool, avail: seq<string>, k: int, t: string)
    requires 0 <= k < |avail| && FirstMatch(matches, avail, t) == -1
    ensures FirstMatch(matches, Remove(avail, k), t) == -1
  {
    var fewer := Remove(avail, k);
    FirstMatchIsFirst(matches, avail, t);
    forall l | 0 <= l < |fewer| ensures !matches(fewer[l], t) {
      RemoveAt(avail, k, l);
    }
    FirstMatchIsFirst(matches, fewer, t);
  }

  /** Removing two positions in either order gives the same list. */
  lemma RemoveCommute(s: seq<string>, a: int, b: int)
    requires 0 <= a < b < |s|
    ensures Remove(Remove(s, b), a) == Remove(Remove(s, a), b - 1)
  {
    forall l | 0 <= l < |s| - 2 ensures Remove(Remove(s, b), a)[l] == Remove(Remove(s, a), b - 1)[l] {
      RemoveAt(s, a, l);
      RemoveAt(s, b, l);
      RemoveAt(s, a, l + 1);
      RemoveAt(s, b, l + 1);
      RemoveAt(Remove(s, b), a, l);
      RemoveAt(Remove(s, a), b - 1, l);
    }
  }

  /** The removed word lies after the first target word's match: the match
      is consumed in both lists and the two removals commute. */
  lemma {:induction false} GreedyRemoveBefore(matches: (string, string) -> bool, targets: seq<string>, avail: seq<string>, k: int)
    requires targets != [] && 0 <= k < |avail| && 0 <= FirstMatch(matches, avail, targets[0]) < k
    ensures Greedy(matches, targets, Remove(avail, k)) <= Greedy(matches, targets, avail)
    decreases |targets|, 0
  {
    var j := FirstMatch(matches, avail, targets[0]);
    FirstMatchBefore(matches, avail, k, targets[0]);
    RemoveCommute(avail, j, k);
    GreedyRemove(matches, targets[1..], Remove(avail, j), k - 1);
    GreedyBothMatch(matches, targets, Remove(avail, k), avail);
  }

  /** When the first target word matches in both lists, comparing the counts
      comes down to comparing them on what is left. */
  lemma GreedyBothMatch(matches: (string, string) -> bool, targets: seq<string>, p: seq<string>, q: seq<string>)
    requires targets != [] && FirstMatch(matches, p, targets[0]) >= 0 && FirstMatch(matches, q, targets[0]) >= 0
    requires Greedy(matches, targets[1..], Remove(p, FirstMatch(matches, p, targets[0])))
      <= Greedy(matches, targets[1..], Remove(q, FirstMatch(matches, q, targets[0])))
    ensures Greedy(matches, targets, p) <= Greedy(matches, targets, q)
  {
  }

  lemma FirstMatchBefore(matches: (string, string) -> bool, avail: seq<string>, k: int, t: string)
    requires 0 <= k < |avail| && 0 <= FirstMatch(matches, avail, t) < k
    ensures FirstMatch(matches, Remove(avail, k), t) == FirstMatch(matches, avail, t)
  {
    var j := FirstMatch(matches, avail, t);
    var fewer := Remove(avail, k);
    FirstMatchIsFirst(matches, avail, t);
    RemoveAt(avail, k, j);
    forall l | 0 <= l < j ensures !matches(fewer[l], t) {
      RemoveAt(avail, k, l);
    }
    FirstMatchAt(matches, fewer, t, j);
  }

  /** The removed word lies before the first target word's match: the match
      moves down by one, is consumed in both lists, and the two removals
      commute. */
  lemma {:induction false} GreedyRemoveAfter(matches: (string, string) -> bool, targets: seq<string>, avail: seq<string>, k: int)
    requires targets != [] && 0 <= k < FirstMatch(matches, avail, targets[0])
    ensures Greedy(matches, targets, Remove(avail, k)) <= Greedy(matches, targets, avail)
    decreases |targets|, 0
  {
    var j := FirstMatch(matches, avail, targets[0]);
    FirstMatchAfter(matches, avail, k, targets[0]);
    RemoveCommute(avail, k, j);
    GreedyRemove(matches, targets[1..], Remove(avail, j), k);
    GreedyBothMatch(matches, targets, Remove(avail, k), avail);
  }

  lemma FirstMatchAfter(matches: (string, string) -> bool, avail: seq<string>, k: int, t: string)
    requires 0 <= k < FirstMatch(matches, avail, t)
    ensures FirstMatch(matches, Remove(avail, k), t) == FirstMatch(matches, avail, t) - 1
  {
    var j := FirstMatch(matches, avail, t);
    var fewer := Remove(avail, k);
    FirstMatchIsFirst(matches, avail, t);
    RemoveAt(avail, k, j - 1);
    forall l | 0 <= l < j - 1 ensures !matches(fewer[l], t) {
      RemoveAt(avail, k, l);
    }
    FirstMatchAt(matches, fewer, t, j - 1);
  }

  /** Inserting a spoken word anywhere never lowers the count: extra words
      in the middle of an utterance do not hurt. */
  lemma GreedyInsert(matches: (string, string) -> bool, targets: seq<string>, avail: seq<string>, k: int, w: string)
    requires 0 <= k <= |avail|
    ensures Greedy(matches, targets, avail) <= Greedy(matches, targets, avail[..k] + [w] + avail[k..])
  {
    var more := avail[..k] + [w] + avail[k..];
    RemoveIsSplice(more, k);
    assert more[..k] + more[k + 1..] == avail;
    GreedyRemove(matches, targets, more, k);
  }

  /** Appending spoken words at the end never lowers the count. */
  lemma {:induction false} GreedyAppend(matches: (string, string) -> bool, targets: seq<string>, avail: seq<string>, extra: seq<string>)
    ensures Greedy(matches, targets, avail) <= Greedy(matches, targets, avail + extra)
    decreases |extra|
  {
    if extra == [] {
      assert avail + extra == avail;
    } else {
      GreedyAppend(matches, targets, avail, extra[..|extra| - 1]);
      AppendInit(avail, extra);
      GreedyDropLastAfter(matches, targets, avail, avail + extra[..|extra| - 1], avail + extra);
    }
  }

  lemma AppendInit(avail: seq<string>, extra: seq<string>)
    requires extra != []
    ensures (avail + extra)[..|avail + extra| - 1] == avail + extra[..|extra| - 1]
  {
  }

  lemma GreedyDropLastAfter(matches: (string, string) -> bool, targets: seq<string>, a: seq<string>, b: seq<string>, c: seq<string>)
    requires c != [] && c[..|c| - 1] == b
    requires Greedy(matches, targets, a) <= Greedy(matches, targets, b)
    ensures Greedy(matches, targets, a) <= Greedy(matches, targets, c)
  {
    GreedyDropLast(matches, targets, c);
  }

  /** Dropping the last spoken word never raises the count. */
  lemma GreedyDropLast(matches: (string, string) -> bool, targets: seq<string>, avail: seq<string>)
    requires avail != []
    ensures Greedy(matches, targets, avail[..|avail| - 1]) <= Greedy(matches, targets, avail)
  {
    RemoveIsSplice(avail, |avail| - 1);
    assert avail[..|avail| - 1] + avail[|avail|..] == avail[..|avail| - 1];
    GreedyRemove(matches, targets, avail, |avail| - 1);
  }

  /** An accepted utterance stays accepted when more words follow it. */
  lemma AcceptedWhenExtended(inputWords: seq<string>, extra: seq<string>, answer: string)
    requires AnswerAccepted(inputWords, answer)
    ensures AnswerAccepted(inputWords + extra, answer)
  {
    GreedyAppend(WordMatch, NormalizedWords(answer), inputWords, extra);
  }
}
