/**
 * The practice session of components/Game.tsx: question selection and the
 * event handlers that move one question through thinking, listening and
 * reviewing. React state and refs become the fields of `GameSession`; each
 * handler becomes a method that changes them in one step.
 */
module Game {
  import opened Wrappers
  import opened JsString
  import opened Questions
  import opened Matcher
  import WordTables

  // Question selection (components/Game.tsx:18-24)

  /** `MOCK_DATA.filter(q => q.category === selectedCategory)`. */
  function Filter(bank: seq<Question>, category: string): (r: seq<Question>)
    ensures |r| <= |bank|
  {
    if bank == [] then []
    else (if bank[0].category == Some(category) then [bank[0]] else []) + Filter(bank[1..], category)
  }

  function Filtered(bank: seq<Question>, category: string): seq<Question> {
    if category == WordTables.ALL_CATEGORIES then bank else Filter(bank, category)
  }

  /** The selected questions: `shuffled` is the filtered bank in an
      arbitrary order, cut to `count` questions unless `count` is at
      least 999. */
  function SelectQuestions(bank: seq<Question>, category: string, count: nat, shuffled: seq<Question>): (r: seq<Question>)
    requires multiset(shuffled) == multiset(Filtered(bank, category))
    ensures count >= 999 ==> multiset(r) == multiset(Filtered(bank, category))
    ensures count < 999 ==> |r| == if count <= |shuffled| then count else |shuffled|
  {
    if count >= 999 then shuffled
    else if count <= |shuffled| then shuffled[..count]
    else shuffled
  }

  /** The filter keeps exactly the questions of the category. */
  lemma {:induction false} FilterMembers(bank: seq<Question>, category: string)
    ensures forall q :: q in Filter(bank, category) <==> q in bank && q.category == Some(category)
  {
    if bank != [] {
      FilterMembers(bank[1..], category);
      assert bank == [bank[0]] + bank[1..];
    }
  }

  /** Every selected question comes from the bank, belongs to the chosen
      category unless that is 'All', and no question is selected more
      often than the filtered bank holds it. */
  lemma SelectionSound(bank: seq<Question>, category: string, count: nat, shuffled: seq<Question>)
    requires multiset(shuffled) == multiset(Filtered(bank, category))
    ensures multiset(SelectQuestions(bank, category, count, shuffled)) <= multiset(Filtered(bank, category))
    ensures forall q :: q in SelectQuestions(bank, category, count, shuffled) ==>
      q in bank && (category != WordTables.ALL_CATEGORIES ==> q.category == Some(category))
  {
    var r := SelectQuestions(bank, category, count, shuffled);
    var f := Filtered(bank, category);
    if count < 999 && count <= |shuffled| {
      PrefixSubMultiset(shuffled, count);
    }
    assert multiset(r) <= multiset(f);
    FilterMembers(bank, category);
    forall q | q in r ensures q in f {
      assert q in multiset(r);
    }
  }

  lemma PrefixSubMultiset<T>(s: seq<T>, n: nat)
    requires n <= |s|
    ensures multiset(s[..n]) <= multiset(s)
  {
    assert s == s[..n] + s[n..];
  }

  // Session state

  datatype Phase = Thinking | Listening | Reviewing

  /** What the session has told the application: nothing yet, `onEnd(score,
      total)` after the last question, or `onExit()` on Escape, which
      carries no score. */
  datatype Report = Playing | Ended(score: nat, total: nat) | Exited

  /** One entry of a speech recognition result list: its best transcript
      and whether the recogniser has finalised it. */
  datatype Segment = Segment(isFinal: bool, text: string)

  const CORRECT_MSG := "Chính xác! Phát âm rất tốt."
  const TIMEOUT_MSG := "Hết thời gian suy nghĩ!"
  const MIC_DENIED := "Vui lòng cho phép truy cập Micro."
  const NO_SPEECH := "Trình duyệt không hỗ trợ (Dùng Chrome/Edge)."

  /** Ticks of 100 ms in a question of `seconds` seconds. The countdown
      starts at 100 and loses `100 / (seconds * 10)` per tick. */
  function FullTicks(seconds: nat): nat {
    10 * seconds
  }

  /** The hint toggle: hidden, structure, vocabulary, then back and forth
      between the two. */
  function NextHint(h: nat): (r: nat)
    ensures r == 1 || r == 2
    ensures h == 1 <==> r == 2
  {
    if h == 0 then 1 else if h == 1 then 2 else 1
  }

  /** Once shown, the hint alternates between its two panels. */
  lemma HintAlternates(h: nat)
    requires h == 1 || h == 2
    ensures NextHint(NextHint(h)) == h && NextHint(h) != h
  {
  }

  /** The final segments of a result list, each followed by a space. */
  function FinalText(segments: seq<Segment>): string {
    if segments == [] then ""
    else
      var last := segments[|segments| - 1];
      FinalText(segments[..|segments| - 1]) + (if last.isFinal then last.text + " " else "")
  }

  /** The interim segments of a result list, run together. */
  function InterimText(segments: seq<Segment>): string {
    if segments == [] then ""
    else
      var last := segments[|segments| - 1];
      InterimText(segments[..|segments| - 1]) + (if last.isFinal then "" else last.text)
  }

  function Finals(segments: seq<Segment>): seq<Segment> {
    if segments == [] then []
    else
      var last := segments[|segments| - 1];
      Finals(segments[..|segments| - 1]) + (if last.isFinal then [last] else [])
  }

  /** Interim segments add nothing to the final text. */
  lemma {:induction false} FinalTextOfFinals(segments: seq<Segment>)
    ensures FinalText(segments) == FinalText(Finals(segments))
    ensures forall k :: 0 <= k < |Finals(segments)| ==> Finals(segments)[k].isFinal
    decreases |segments|
  {
    if segments != [] {
      var init := segments[..|segments| - 1];
      var last := segments[|segments| - 1];
      FinalTextOfFinals(init);
      if last.isFinal {
        var fs := Finals(init) + [last];
        assert Finals(segments) == fs;
        assert fs[..|fs| - 1] == Finals(init) && fs[|fs| - 1] == last;
      } else {
        assert Finals(segments) == Finals(init);
      }
    }
  }

  /** The whole changeable state of a session, field for field. */
  datatype Snapshot = Snapshot(
    qIndex: nat, score: nat, phase: Phase, transcript: string, sessionFinals: string,
    latest: string, ticksLeft: nat, showHint: nat, feedback: Option<Feedback>,
    aiEvaluating: bool, micError: Option<string>, spacePressed: bool, mounted: bool,
    processing: bool, pendingRemote: nat, report: Report)

  /** The loop of `onresult` over the entries from `resultIndex` on: the
      final ones, each followed by a space, and the interim ones, run
      together. */
  method ScanResults(resultIndex: nat, results: seq<Segment>) returns (newFinals: string, interim: string)
    ensures var heard := if resultIndex <= |results| then results[resultIndex..] else [];
      newFinals == FinalText(heard) && interim == InterimText(heard)
  {
    interim := "";
    newFinals := "";
    var i := resultIndex;
    while i < |results|
      invariant resultIndex <= |results| ==> resultIndex <= i <= |results|
      invariant resultIndex > |results| ==> i == resultIndex
      invariant var seen := if resultIndex <= |results| then results[resultIndex..i] else [];
        newFinals == FinalText(seen) && interim == InterimText(seen)
    {
      assert results[resultIndex..i + 1][..i - resultIndex] == results[resultIndex..i];
      if results[i].isFinal {
        newFinals := newFinals + results[i].text + " ";
      } else {
        interim := interim + results[i].text;
      }
      i := i + 1;
    }
    if resultIndex <= |results| {
      assert results[resultIndex..i] == results[resultIndex..];
    }
  }

  class GameSession {
    const questions: seq<Question>
    /** Seconds per question; 0 means unlimited. */
    const timePerQuestion: nat
    /** Whether the browser offers speech recognition at all. */
    const speechAvailable: bool

    var qIndex: nat
    var score: nat
    var phase: Phase
    /** The transcript on screen. */
    var transcript: string
    /** Final segments heard since listening started. */
    var sessionFinals: string
    /** The transcript a released Space key evaluates. */
    var latest: string
    var ticksLeft: nat
    var showHint: nat
    var feedback: Option<Feedback>
    var aiEvaluating: bool
    var micError: Option<string>
    var spacePressed: bool
    var mounted: bool
    /** Set once an evaluation or a timeout has claimed the question. */
    var processing: bool
    /** Remote evaluations started and not yet answered. */
    var pendingRemote: nat
    var report: Report

    /** Every field the handlers may change, so that a handler's effect
        can be stated as the fields it sets, with all others kept. */
    function State(): Snapshot
      reads this
    {
      Snapshot(qIndex, score, phase, transcript, sessionFinals, latest, ticksLeft, showHint,
               feedback, aiEvaluating, micError, spacePressed, mounted, processing,
               pendingRemote, report)
    }

    /** Each question is claimed by at most one evaluation, and each
        evaluation adds at most one point, so the score plus the verdicts
        still to come never exceeds the questions claimed so far. */
    ghost predicate Valid()
      reads this
    {
      && |questions| >= 1 && qIndex < |questions|
      && showHint <= 2
      && ticksLeft <= FullTicks(timePerQuestion)
      && score + pendingRemote <= qIndex + (if processing || !mounted then 1 else 0)
      && (report != Playing ==> !mounted)
      && (report.Ended? ==> report.score <= report.total == |questions|)
    }

    /** The reported score never exceeds the number of questions. */
    lemma ScoreBound()
      requires Valid()
      ensures score <= |questions|
      ensures report.Ended? ==> report.score <= report.total
    {
    }

    constructor(questions: seq<Question>, timePerQuestion: nat, speechAvailable: bool)
      requires |questions| >= 1
      ensures Valid() && mounted && report == Playing
      ensures this.questions == questions && this.timePerQuestion == timePerQuestion
      ensures this.speechAvailable == speechAvailable
      ensures qIndex == 0 && score == 0 && phase == Thinking && transcript == ""
      ensures sessionFinals == "" && latest == "" && ticksLeft == FullTicks(timePerQuestion)
      ensures showHint == 0 && feedback == None && !aiEvaluating && !spacePressed
      ensures !processing && pendingRemote == 0
      ensures micError == if speechAvailable then None else Some(NO_SPEECH)
    {
      this.questions := questions;
      this.timePerQuestion := timePerQuestion;
      this.speechAvailable := speechAvailable;
      qIndex := 0;
      score := 0;
      phase := Thinking;
      transcript := "";
      sessionFinals := "";
      latest := "";
      ticksLeft := FullTicks(timePerQuestion);
      showHint := 0;
      feedback := None;
      aiEvaluating := false;
      micError := if speechAvailable then None else Some(NO_SPEECH);
      spacePressed := false;
      mounted := true;
      processing := false;
      pendingRemote := 0;
      report := Playing;
    }

    /** The effect of `processAnswer(text)`: nothing for an empty text, after
        unmounting, or once the question is claimed; otherwise the question
        is judged by the local check. */
    twostate predicate Evaluated(text: string)
      reads this
    {
      if text == "" || !old(mounted) || old(processing) then unchanged(this)
      else Judged(text, old(qIndex) < |questions| && LocallyAccepted(text, questions[old(qIndex)]))
    }

    /** The question is claimed and reviewed: a local pass scores a point
        at once; a local failure starts a remote evaluation instead. */
    twostate predicate Judged(text: string, passed: bool)
      reads this
    {
      && processing && transcript == text && phase == Reviewing
      && (if passed then
            && score == old(score) + 1 && pendingRemote == old(pendingRemote)
            && feedback == Some(Feedback(true, CORRECT_MSG, None))
            && aiEvaluating == old(aiEvaluating)
          else
            && score == old(score) && pendingRemote == old(pendingRemote) + 1
            && feedback == old(feedback) && aiEvaluating)
      && qIndex == old(qIndex) && showHint == old(showHint) && ticksLeft == old(ticksLeft)
      && sessionFinals == old(sessionFinals) && latest == old(latest)
      && micError == old(micError) && spacePressed == old(spacePressed)
      && mounted == old(mounted) && report == old(report)
    }

    /** `processAnswer(text)`: at most one evaluation per question, until
        `NextQuestion` releases it. */
    method ProcessAnswer(text: string)
      requires Valid()
      modifies this
      ensures Valid() && Evaluated(text)
    {
      if text == "" || !mounted || processing {
        return;
      }
      var passed := CheckAnswerLocally(text, questions[qIndex]);
      Judge(text, passed);
    }

    /** Records the verdict of the local check; a failure starts a remote
        evaluation whose verdict arrives through `CompleteRemote`. */
    method Judge(text: string, passed: bool)
      requires Valid() && mounted && !processing
      modifies this
      ensures Valid() && Judged(text, passed)
    {
      processing := true;
      transcript := text;
      if passed {
        score := score + 1;
        feedback := Some(Feedback(true, CORRECT_MSG, None));
        phase := Reviewing;
      } else {
        phase := Reviewing;
        aiEvaluating := true;
        pendingRemote := pendingRemote + 1;
      }
    }

    /** The remote verdict arrives. After unmounting it changes nothing. */
    method CompleteRemote(isCorrect: bool, msg: string)
      requires Valid() && pendingRemote > 0
      modifies this
      ensures Valid() && pendingRemote == old(pendingRemote) - 1
      ensures !old(mounted) ==> score == old(score) && feedback == old(feedback) && aiEvaluating == old(aiEvaluating)
      ensures old(mounted) ==> && !aiEvaluating && feedback == Some(Feedback(isCorrect, msg, None))
                               && score == old(score) + (if isCorrect then 1 else 0)
      ensures qIndex == old(qIndex) && phase == old(phase) && transcript == old(transcript)
      ensures sessionFinals == old(sessionFinals) && latest == old(latest) && ticksLeft == old(ticksLeft)
      ensures showHint == old(showHint) && micError == old(micError) && spacePressed == old(spacePressed)
      ensures mounted == old(mounted) && processing == old(processing)
      ensures report == old(report)
    {
      pendingRemote := pendingRemote - 1;
      if !mounted {
        return;
      }
      aiEvaluating := false;
      if isCorrect {
        score := score + 1;
      }
      feedback := Some(Feedback(isCorrect, msg, None));
    }

    /** The effect of `startListening()` on everything but the Space flag;
        `started` says whether the recogniser's `start()` returned instead
        of throwing. While an evaluation holds the question, during the
        review, or without speech recognition, nothing happens. */
    twostate predicate ListeningStarted(started: bool)
      reads this
    {
      var acts := !old(processing) && old(phase) != Reviewing && speechAvailable;
      && sessionFinals == (if acts then "" else old(sessionFinals))
      && latest == (if acts then "" else old(latest))
      && transcript == (if acts then "" else old(transcript))
      && phase == (if acts && started then Listening else old(phase))
      && micError == (if acts && started then None else old(micError))
      && qIndex == old(qIndex) && score == old(score) && ticksLeft == old(ticksLeft)
      && showHint == old(showHint) && feedback == old(feedback) && aiEvaluating == old(aiEvaluating)
      && mounted == old(mounted) && processing == old(processing)
      && pendingRemote == old(pendingRemote) && report == old(report)
    }

    method StartListening(started: bool)
      requires Valid() && mounted
      modifies this
      ensures Valid() && ListeningStarted(started) && spacePressed == old(spacePressed)
    {
      if processing || phase == Reviewing || !speechAvailable {
        return;
      }
      sessionFinals := "";
      latest := "";
      transcript := "";
      if started {
        phase := Listening;
        micError := None;
      }
    }

    /** The effect of `nextQuestion()`: the flags, feedback, transcript and
        hint are cleared; then either the next question starts with a full
        countdown, or the last one reports `onEnd(score, total)` and the
        application leaves the session. */
    twostate predicate Advanced()
      reads this
    {
      && !processing && feedback == None && transcript == "" && showHint == 0
      && micError == None && !spacePressed
      && score == old(score) && aiEvaluating == old(aiEvaluating)
      && pendingRemote == old(pendingRemote)
      && sessionFinals == old(sessionFinals) && latest == old(latest)
      && (old(qIndex) < |questions| - 1 ==>
           && qIndex == old(qIndex) + 1 && phase == Thinking
           && ticksLeft == FullTicks(timePerQuestion) && mounted && report == old(report))
      && (old(qIndex) >= |questions| - 1 ==>
           && qIndex == old(qIndex) && phase == old(phase) && ticksLeft == old(ticksLeft)
           && report == Ended(old(score), |questions|) && !mounted)
    }

    method NextQuestion()
      requires Valid() && mounted
      modifies this
      ensures Valid() && Advanced()
    {
      if qIndex < |questions| - 1 {
        MoveOn();
      } else {
        Finish();
      }
    }

    /** `nextQuestion()` before the last question. */
    method MoveOn()
      requires Valid() && mounted && qIndex < |questions| - 1
      modifies this
      ensures Valid() && Advanced()
    {
      processing, feedback, transcript, showHint, micError, spacePressed := false, None, "", 0, None, false;
      qIndex, ticksLeft, phase := qIndex + 1, FullTicks(timePerQuestion), Thinking;
    }

    /** `nextQuestion()` on the last question. */
    method Finish()
      requires Valid() && mounted && qIndex >= |questions| - 1
      modifies this
      ensures Valid() && Advanced()
    {
      processing, feedback, transcript, showHint, micError, spacePressed := false, None, "", 0, None, false;
      report, mounted := Ended(score, |questions|), false;
    }

    /** The hint toggle; nothing else changes. */
    method ToggleHints()
      requires Valid() && mounted
      modifies this
      ensures Valid() && State() == old(State()).(showHint := NextHint(old(showHint)))
    {
      showHint := NextHint(showHint);
    }

    /** Escape calls `onExit()`: the application goes back to the menu
        without a score, and the session leaves the screen. A remote
        evaluation still pending stays pending. */
    method EscapeDown(repeat: bool)
      requires Valid() && mounted
      modifies this
      ensures Valid()
      ensures State() == if repeat then old(State()) else old(State()).(report := Exited, mounted := false)
    {
      if repeat {
        return;
      }
      report := Exited;
      mounted := false;
    }

    /** Tab advances only from the review with no remote verdict pending. */
    method TabDown(repeat: bool)
      requires Valid() && mounted
      modifies this
      ensures Valid()
      ensures if !repeat && old(phase) == Reviewing && !old(aiEvaluating) then Advanced() else unchanged(this)
    {
      if repeat {
        return;
      }
      if phase == Reviewing && !aiEvaluating {
        NextQuestion();
      }
    }

    /** The "press Tab to continue" footer, shown only in review, advances
        on a click without looking at a pending remote verdict. */
    method FooterClick()
      requires Valid() && mounted
      modifies this
      ensures Valid()
      ensures if old(phase) == Reviewing then Advanced() else unchanged(this)
    {
      if phase == Reviewing {
        NextQuestion();
      }
    }

    /** Q toggles the hint outside the review. */
    method QDown(repeat: bool)
      requires Valid() && mounted
      modifies this
      ensures Valid()
      ensures State() == if !repeat && old(phase) != Reviewing
                         then old(State()).(showHint := NextHint(old(showHint)))
                         else old(State())
    {
      if repeat {
        return;
      }
      if phase != Reviewing {
        ToggleHints();
      }
    }

    /** Space starts listening while no evaluation holds the question. */
    method SpaceDown(repeat: bool, started: bool)
      requires Valid() && mounted
      modifies this
      ensures Valid()
      ensures if !repeat && old(phase) != Reviewing && !old(processing) then
                spacePressed && ListeningStarted(started)
              else unchanged(this)
    {
      if repeat {
        return;
      }
      if phase != Reviewing && !processing {
        spacePressed := true;
        StartListening(started);
      }
    }

    /** Releasing Space while listening stops the recogniser and schedules
        the 200 ms callback `ReleaseTimeout`; only the pressed flag
        changes. */
    method SpaceUp()
      requires Valid() && mounted
      modifies this
      ensures Valid()
      ensures State() == if old(phase) == Listening then old(State()).(spacePressed := false) else old(State())
    {
      if phase == Listening {
        spacePressed := false;
      }
    }

    /** The callback a Space release schedules: it evaluates the latest
        transcript, trimmed, when that is not empty, and otherwise goes
        back to thinking. It may fire after the session is gone, when it
        changes nothing. */
    method ReleaseTimeout()
      requires Valid()
      modifies this
      ensures Valid()
      ensures Trim(old(latest)) != "" ==> Evaluated(Trim(old(latest)))
      ensures Trim(old(latest)) == "" ==>
        State() == if old(mounted) then old(State()).(phase := Thinking) else old(State())
    {
      var fullText := Trim(latest);
      if |fullText| > 0 {
        ProcessAnswer(fullText);
      } else if mounted {
        phase := Thinking;
      }
    }

    /** Losing focus while listening stops listening without evaluating. */
    method Blur()
      requires Valid() && mounted
      modifies this
      ensures Valid()
      ensures State() == if old(phase) == Listening
                         then old(State()).(spacePressed := false, phase := Thinking)
                         else old(State())
    {
      if phase == Listening {
        spacePressed := false;
        phase := Thinking;
      }
    }

    /** One 100 ms tick of the countdown. No timer runs in unlimited mode or
        during the review; when the countdown is spent the question is
        claimed, marked wrong and reviewed, without touching the score. */
    method Tick()
      requires Valid() && mounted
      modifies this
      ensures Valid()
      ensures timePerQuestion == 0 || old(phase) == Reviewing ==> unchanged(this)
      ensures timePerQuestion != 0 && old(phase) != Reviewing && old(ticksLeft) > 0 ==>
        State() == old(State()).(ticksLeft := old(ticksLeft) - 1)
      ensures timePerQuestion != 0 && old(phase) != Reviewing && old(ticksLeft) == 0 ==>
        State() == old(State()).(processing := true, phase := Reviewing,
                                 feedback := Some(Feedback(false, TIMEOUT_MSG, None)))
    {
      if timePerQuestion == 0 || phase == Reviewing {
        return;
      }
      if ticksLeft == 0 {
        processing := true;
        feedback := Some(Feedback(false, TIMEOUT_MSG, None));
        phase := Reviewing;
      } else {
        ticksLeft := ticksLeft - 1;
      }
    }

    /** A recognition result: the final segments from `resultIndex` on are
        added, each with a trailing space, to the session's final text;
        the interim segments are shown after it but never kept. */
    method OnResult(resultIndex: nat, results: seq<Segment>)
      requires Valid() && mounted
      modifies this
      ensures Valid()
      ensures var heard := if resultIndex <= |results| then results[resultIndex..] else [];
        var finals := old(sessionFinals) + FinalText(heard);
        var shown := Trim(finals + InterimText(heard));
        State() == old(State()).(sessionFinals := finals, transcript := shown, latest := shown)
    {
      var newFinals, interim := ScanResults(resultIndex, results);
      if newFinals != "" {
        sessionFinals := sessionFinals + newFinals;
      } else {
        assert sessionFinals + newFinals == sessionFinals;
      }
      var display := Trim(sessionFinals + interim);
      transcript, latest := display, display;
    }

    /** A recognition error: only a refused microphone is reported. */
    method OnError(error: string)
      requires Valid() && mounted
      modifies this
      ensures Valid()
      ensures State() == if error == "not-allowed" then old(State()).(micError := Some(MIC_DENIED)) else old(State())
    {
      if error == "not-allowed" {
        micError := Some(MIC_DENIED);
      }
    }

    /** The session leaves the screen. */
    method Unmount()
      requires Valid()
      modifies this
      ensures Valid() && State() == old(State()).(mounted := false)
    {
      mounted := false;
    }
  }

  /** A spent countdown claims the question: an answer that arrives
      afterwards is ignored and the question scores nothing. */
  method TimeoutThenAnswer(g: GameSession, text: string)
    requires g.Valid() && g.mounted && g.timePerQuestion != 0
    requires g.phase != Reviewing && g.ticksLeft == 0
    modifies g
    ensures g.Valid() && g.phase == Reviewing && g.processing
    ensures g.score == old(g.score) && g.qIndex == old(g.qIndex)
    ensures g.feedback == Some(Feedback(false, TIMEOUT_MSG, None))
  {
    g.Tick();
    g.ProcessAnswer(text);
  }

  /** A footer click during a remote evaluation moves on at once; the
      verdict that arrives afterwards is shown, and counted, on the next
      question. */
  method FooterThenVerdict(g: GameSession, isCorrect: bool, msg: string)
    requires g.Valid() && g.mounted && g.phase == Reviewing && g.pendingRemote > 0
    requires g.qIndex < |g.questions| - 1
    modifies g
    ensures g.Valid() && g.phase == Thinking && g.qIndex == old(g.qIndex) + 1
    ensures !g.processing && !g.aiEvaluating
    ensures g.score == old(g.score) + (if isCorrect then 1 else 0)
    ensures g.feedback == Some(Feedback(isCorrect, msg, None))
  {
    g.FooterClick();
    g.CompleteRemote(isCorrect, msg);
  }

  /** Two answers to one question: only the first is judged. */
  method AnswerTwice(g: GameSession, first: string, second: string)
    requires g.Valid() && g.mounted && !g.processing && first != ""
    modifies g
    ensures g.Valid() && g.processing && g.transcript == first && g.qIndex == old(g.qIndex)
    ensures g.score + g.pendingRemote == old(g.score) + old(g.pendingRemote) + 1
  {
    g.ProcessAnswer(first);
    g.ProcessAnswer(second);
  }
}
