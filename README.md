# English Reflex Gym — a Dafny model

English Reflex Gym is a browser trainer for spoken English. It shows a
Vietnamese sentence, the learner says the English sentence aloud, and the
answer is judged. This project models the logic behind that loop and proves
properties of it:

- **Text normalisation** (`Normalizer`, on top of the string primitives in
  `JsString` and the word tables in `WordTables`). The text is lower-cased,
  a fixed set of punctuation characters is deleted, and the text is split
  on whitespace. Filler words are then dropped, contractions are expanded,
  and the words are joined again.
- **Word matching** (`EditDistance`, `Matcher`).
  - `levenshteinDistance` is modelled as the matrix algorithm, proved equal
    to a recursive definition.
  - The tiered word match: exact for short targets, one edit for targets of
    four or five letters, 80 % similarity above that.
  - The greedy matcher pairs each target word with the first unused spoken
    word that matches it.
  - `checkAnswerLocally` accepts an answer once 90 % of some accepted
    phrasing's words are matched.
- **The built-in fixtures** (`MockData`). Questions 1, 21 and 602 of the
  built-in bank, with three concrete utterances that the local check
  accepts.
- **The practice session** (`Game`). It covers question selection, plus
  the state machine of one session as a class whose fields are the
  component's state and refs. That state machine moves each question
  through thinking, listening and reviewing, in response to:
  - answers;
  - remote verdicts;
  - keys, focus loss and timer ticks;
  - speech results and speech errors.
- **Deck import and deletion** (`DataManager`). It validates a pasted JSON
  array, fills in defaults and prepends a new deck. Deletion is a filter
  by id.
- **The result screen** (`ResultScreen`). The score is rounded to a
  percentage, and the percentage chooses one of three bands.

The following become parameters:
- the outcome of `JSON.parse`;
- the clock;
- fresh UUIDs;
- the answer to `confirm()`;
- the shuffle;
- the speech recogniser's results;
- the remote AI verdict.

## Model

| member | source | states |
|---|---|---|
| JsString.ToLower | services/textUtils.ts:6 | the result has the input's length and no upper-case letter, and maps each character on its own |
| JsString.ToLowerConcat | services/textUtils.ts:6 | lower-casing distributes over concatenation |
| JsString.Trim | services/textUtils.ts:15 | the result neither starts nor ends with whitespace, is the slice after the leading whitespace, and everything cut from the end is whitespace |
| JsString.TrimTrimmed | services/textUtils.ts:15 | trimming a trimmed string changes nothing |
| JsString.SplitJoin | services/textUtils.ts:10 | splitting words that were joined by single spaces gives back the words |
| JsString.WordsOfJoin | services/textUtils.ts:59 | splitting and dropping empty pieces gives back the joined non-empty words |
| JsString.NonEmptyKeeps | services/textUtils.ts:59 | dropping empty pieces keeps a list without empty pieces unchanged |
| JsString.JoinEnds | services/textUtils.ts:15 | joined non-empty words start with the first word's first character and end with the last word's last character |
| WordTables.LookupFound | services/textUtils.ts:14 | a key that is found maps to the value of its first entry in the table |
| WordTables.LookupMissing | services/textUtils.ts:14 | a key is missing exactly when no entry has it |
| WordTables.ContractionTableShape | constants.ts:6-13 | every contraction key is a non-empty lower-case word, and every expansion is non-empty lower-case words separated by single spaces |
| WordTables.ContractionKeys | constants.ts:6-13 | every key holds an apostrophe or is one of gonna, wanna, gotta, lemme |
| Normalizer.StripPunctuation | services/textUtils.ts:8 | no deleted punctuation character survives, the text never grows, and a single character is deleted exactly when it is one of the pattern's characters (with StripConcat this fixes the result for every text) |
| Normalizer.StripConcat | services/textUtils.ts:8 | deleting punctuation distributes over concatenation |
| Normalizer.RemoveFillersKeeps | services/textUtils.ts:12 | the kept words are exactly the words that are not filler words |
| Normalizer.RemoveFillersConcat | services/textUtils.ts:12 | filler removal distributes over concatenation |
| Normalizer.Normalize | services/textUtils.ts:5-16 | normalised text is trimmed and holds no upper-case letter and no deleted punctuation |
| Normalizer.NormalizeCleanWords | services/textUtils.ts:10-15 | for clean words joined by spaces, the result is the words with fillers removed first, then each contraction expanded once; expansions are not filtered or expanded again |
| Normalizer.NormalizeVia | services/textUtils.ts:5-16 | any text that lowers and strips to clean words normalises as those words do |
| Normalizer.FillersAreNotContractions | constants.ts:4-13 | no filler word is a contraction key, so the order of the two steps cannot drop an expansion |
| Normalizer.NotAKey | constants.ts:6-13 | a word without an apostrophe, and other than the four slang forms, is not expanded |
| Normalizer.NormalizeWord | services/textUtils.ts:5-16 | a single word normalises to "" if it is a filler word, and to its expansion otherwise |
| Normalizer.ContractionKeysSurvive | constants.ts:6-13 | every contraction key is one non-empty clean word that lower-casing and punctuation removal leave as it is, so a spoken key reaches the lookup intact |
| Normalizer.NormalizeEmpty | services/textUtils.ts:5-16 | the empty text normalises to the empty text |
| EditDistance.LevenshteinDistance | services/textUtils.ts:19-37 | the matrix computation returns the recursive edit distance |
| EditDistance.FillRow | services/textUtils.ts:24-35 | one pass of the inner loop fills a row with the distances of the prefixes |
| EditDistance.LevStep | services/textUtils.ts:26-33 | each cell follows from its three neighbours as the loop body computes it |
| EditDistance.LevFromEmpty | services/textUtils.ts:21-22 | against the empty word the distance is the other word's length |
| EditDistance.LevSelf | services/textUtils.ts:19-37 | a word is at distance 0 from itself |
| EditDistance.LevZero | services/textUtils.ts:19-37 | the distance is 0 exactly when the words are equal |
| EditDistance.LevSymmetric | services/textUtils.ts:19-37 | the distance is symmetric |
| EditDistance.LevBounds | services/textUtils.ts:19-37 | the distance lies between the difference of the lengths and the longer length |
| EditDistance.LevLastChar | services/textUtils.ts:19-37 | adding or removing a last character changes the distance by at most one |
| EditDistance.LevIsWagnerFischer | services/textUtils.ts:26-33 | taking the diagonal outright for equal characters gives the textbook distance |
| Questions.Question.Answers | services/textUtils.ts:61 | the answers are the main answer followed by the variations, in order |
| Matcher.IsWordMatch | services/textUtils.ts:40-55 | computes the tiered word match |
| Matcher.WordMatchTiers | services/textUtils.ts:46-54 | targets of up to 3 letters match only themselves; 4-5 letters accept distance ≤ 1; longer targets accept 5·distance ≤ the longer length |
| Matcher.MatchLength | services/textUtils.ts:43-54 | a matching spoken word is at most 5/4 as long as the target |
| Matcher.FindMatch | services/textUtils.ts:74 | `findIndex` returns the first matching index, or -1 |
| Matcher.FirstMatchIsFirst | services/textUtils.ts:74 | the index found matches and no earlier word does; -1 means no word matches |
| Matcher.RemoveIsSplice | services/textUtils.ts:77 | `splice(k, 1)` leaves the words before and after `k` |
| Matcher.CountMatches | services/textUtils.ts:69-79 | the loop counts the greedy one-to-one matches |
| Matcher.CheckOneAnswer | services/textUtils.ts:64-90 | a non-empty answer is accepted when 10·matched ≥ 9·(its word count) |
| Matcher.CheckAnswers | services/textUtils.ts:63-91 | the loop accepts exactly when some answer accepts |
| Matcher.AnyAcceptsIff | services/textUtils.ts:63-93 | accepting by the loop is the same as some accepted phrasing accepting |
| Matcher.CheckAnswerLocally | services/textUtils.ts:57-94 | the method computes the local verdict |
| Matcher.GreedySelf | services/textUtils.ts:69-79 | words matched against themselves are all matched |
| Matcher.SelfAccepted | services/textUtils.ts:57-94 | saying any accepted phrasing that has words is accepted |
| Matcher.GreedyRemove | services/textUtils.ts:69-79 | removing a spoken word never raises the greedy count |
| Matcher.GreedyInsert | services/textUtils.ts:69-79 | inserting a spoken word at any position never lowers the greedy count |
| Matcher.GreedyAppend | services/textUtils.ts:69-79 | extra spoken words at the end never lower the greedy count |
| Matcher.AcceptedWhenExtended | services/textUtils.ts:57-94 | an accepted utterance stays accepted with words added at the end |
| MockData.TooShort | services/textUtils.ts:50-54 | a spoken word much shorter than a long target cannot match it |
| MockData.SameWordsAccepted | services/textUtils.ts:83-90 | input with exactly an answer's words is accepted |
| MockData.ContractedSentence | services/textUtils.ts:12-15 | a sentence whose first word is a contraction normalises to the expansion's words followed by the rest |
| MockData.FillerLast | services/textUtils.ts:12-15 | a trailing filler word disappears from the normalised sentence |
| MockData.Q1ContractionAccepted | constants.ts:17 | "what's your name" is accepted for question 1, whose answer is "What is your name?" |
| MockData.Q21Count | constants.ts:67 | in "check my pill please" both words of "Check, please." are matched |
| MockData.Q21ExtraWordsAccepted | constants.ts:67 | "check my pill please" is accepted for question 21 |
| MockData.Q602Normalized | constants.ts:83 | "Did you sleep well?" normalises to "did you sleep", because "well" is a filler word |
| MockData.Q602ShortAccepted | constants.ts:83 | "did you sleep" is accepted for question 602 |
| Game.FilterMembers | components/Game.tsx:19-21 | the filter keeps exactly the bank's questions of the category |
| Game.SelectQuestions | components/Game.tsx:18-24 | from 999 on, every question of the filtered bank is selected; below that, min(count, available) questions are |
| Game.SelectionSound | components/Game.tsx:18-24 | selected questions come from the bank, in the chosen category unless that is 'All', and none is selected more often than the bank holds it |
| Game.NextHint | components/Game.tsx:122-128 | the toggle always shows a panel, and shows vocabulary exactly after structure |
| Game.HintAlternates | components/Game.tsx:122-128 | once shown, the hint alternates between its two panels |
| Game.FinalTextOfFinals | components/Game.tsx:145-151 | interim segments contribute nothing to the kept final text |
| Game.GameSession.constructor | components/Game.tsx:26-46 | a session starts on question 0 with score 0, thinking, the full countdown, no hint, and the no-speech error when speech is unavailable |
| Game.GameSession.ScoreBound | components/Game.tsx:48-78 | the score never exceeds the number of questions, nor does a reported score exceed the total |
| Game.GameSession.ProcessAnswer | components/Game.tsx:48-78 | an empty text, an unmounted session or a claimed question changes nothing; otherwise the question is claimed and judged by the local check, and the score bound is kept |
| Game.GameSession.Judge | components/Game.tsx:51-65 | a local pass scores one point with the fixed message; a failure starts a remote evaluation; either way the session is in review |
| Game.GameSession.CompleteRemote | components/Game.tsx:66-76 | the verdict adds a point when correct and shows its message; after unmounting it changes nothing |
| Game.GameSession.StartListening | components/Game.tsx:86-103 | nothing happens while a question is claimed, in review, or without speech; otherwise the transcripts are cleared and a successful start listens with no error |
| Game.GameSession.NextQuestion | components/Game.tsx:105-120 | flags, feedback, transcript, hint and error are cleared; the next question starts with a full countdown, or the last reports its score and total and ends the session |
| Game.GameSession.ToggleHints | components/Game.tsx:122-128 | the hint advances by the toggle, and every other field of the session is kept |
| Game.GameSession.EscapeDown | components/Game.tsx:183-184 | Escape exits without a score and unmounts the session, keeping every other field, so a pending remote verdict stays pending; a repeated key does nothing |
| Game.GameSession.TabDown | components/Game.tsx:185-189 | Tab advances only in review with no remote verdict pending |
| Game.GameSession.FooterClick | components/Game.tsx:459-463 | the footer advances from review, even while a remote verdict is pending |
| Game.GameSession.QDown | components/Game.tsx:190-193 | Q outside review changes the hint by the toggle and nothing else; in review, or on a repeated key, nothing changes |
| Game.GameSession.SpaceDown | components/Game.tsx:194-200 | Space starts listening outside review while no evaluation holds the question |
| Game.GameSession.SpaceUp | components/Game.tsx:203-207 | releasing Space while listening clears the pressed flag, and every other field is kept; outside listening nothing changes |
| Game.GameSession.ReleaseTimeout | components/Game.tsx:208-215 | the delayed callback evaluates the trimmed latest transcript when it is not empty; otherwise a mounted session returns to thinking with every other field kept, and an unmounted one is unchanged |
| Game.GameSession.Blur | components/Game.tsx:219-225 | losing focus while listening returns to thinking and clears the pressed flag, with every other field kept and nothing evaluated; otherwise nothing changes |
| Game.GameSession.Tick | components/Game.tsx:238-256 | no countdown when untimed or in review; a tick spends one step and changes nothing else; a spent countdown claims the question as wrong and reviews it, with every other field, the score included, kept |
| Game.ScanResults | components/Game.tsx:142-151 | the loop collects the final segments from `resultIndex` on, each followed by a space, and the interim ones run together |
| Game.GameSession.OnResult | components/Game.tsx:141-159 | the final segments from `resultIndex` on are appended, each followed by a space; the transcript shown and the latest transcript are the kept final text and the interim text, concatenated and then trimmed; every other field is kept |
| Game.GameSession.OnError | components/Game.tsx:162-166 | a refused microphone sets the error message and changes nothing else; any other error changes nothing |
| Game.GameSession.Unmount | components/Game.tsx:173-174 | leaving the screen marks the session unmounted and keeps every other field |
| Game.TimeoutThenAnswer | components/Game.tsx:49 | after the countdown is spent, a later answer changes neither the score nor the timeout verdict |
| Game.FooterThenVerdict | components/Game.tsx:66-76 | a verdict arriving after a footer click is shown and counted on the next question |
| Game.AnswerTwice | components/Game.tsx:49-51 | of two answers to one question, only the first is judged |
| DataManager.ItemsError | components/DataManagerModal.tsx:56-57 | the check passes exactly when every element is an object with truthy `vietnamese` and `main_answer`; otherwise the first failing element decides the message: the `TypeError` text when it is `null`, the missing-field message when it is not |
| DataManager.Validate | components/DataManagerModal.tsx:53-57 | the elements come back exactly for an array whose every element passes; a non-array gives the array error |
| DataManager.DeckManager.constructor | components/DataManagerModal.tsx:36-39 | the modal opens on the list with an empty form and no error |
| DataManager.DeckManager.Import | components/DataManagerModal.tsx:48-82 | an ignored import changes nothing; a rejection sets the error and saves nothing; a success prepends the deck, returns to the list and clears the form |
| DataManager.DeckManager.Delete | components/DataManagerModal.tsx:84-89 | a confirmed delete saves the filtered list; a declined one changes nothing |
| DataManager.BlankInputIgnored | components/DataManagerModal.tsx:50 | the import is ignored exactly when the input is whitespace only |
| DataManager.RejectionMessages | components/DataManagerModal.tsx:51-80 | with input present, a blank name gives the name error, and every other rejection starts with "Lỗi JSON: " |
| DataManager.ImportSavesValidArrays | components/DataManagerModal.tsx:53-74 | the import saves exactly valid arrays, with one question per element, in order, under the typed name, the fresh id and the clock; syntax and non-array errors are reported with the prefix |
| DataManager.NormalizeKeepsFields | components/DataManagerModal.tsx:59-65 | truthy id, variations, hint and note are kept and falsy ones replaced by their defaults; every other field is kept, and none is lost |
| DataManager.NormalizedComplete | components/DataManagerModal.tsx:56-65 | an imported question still passes the check and has variations and a hint |
| DataManager.NormalizeIdempotent | components/DataManagerModal.tsx:59-65 | filling in defaults twice is filling them in once |
| DataManager.WithoutDeckMembers | components/DataManagerModal.tsx:86 | the decks kept are exactly those with another id |
| DataManager.WithoutDeckAppend | components/DataManagerModal.tsx:86 | the filter distributes over concatenation, so order is kept |
| DataManager.WithoutAbsentDeck | components/DataManagerModal.tsx:86 | a list without that id is left as it is |
| DataManager.WithoutDeckIdempotent | components/DataManagerModal.tsx:84-89 | deleting twice is deleting once |
| DataManager.DeleteUndoesImport | components/DataManagerModal.tsx:74-86 | deleting a freshly imported deck restores the list from before the import |
| ResultScreen.PercentageOf | components/Result.tsx:13 | no questions give NaN; otherwise the result is the nearest integer to 100·score/total, halves rounded up |
| ResultScreen.PercentageRange | components/Result.tsx:13 | a score within the total gives 0 to 100 |
| ResultScreen.BandOf | components/Result.tsx:15-30 | ≥ 90 is the best band, 60-89 the middle one, anything else (NaN included) the default |
| ResultScreen.TitlesDistinct | components/Result.tsx:15-30 | the three bands have three different titles |
| ResultScreen.BandMonotone | components/Result.tsx:20-30 | a higher percentage never gives a lower band |
| ResultScreen.BandThresholds | components/Result.tsx:13-30 | the best band needs 200·score ≥ 179·total, and the middle one 119·total ≤ 200·score < 179·total |
| ResultScreen.BandMonotoneInScore | components/Result.tsx:13-30 | one more correct answer never gives a lower band |
| ResultScreen.EmptySessionCompleted | components/Result.tsx:13-20 | with no questions the default band is shown |

## Left out

- Rendering, styling and icons are not modelled. Neither are the spoken
  playback of answers, the clipboard prompt and its GEMINI_PROMPT text, or
  the AI service. The remote verdict is a parameter of `CompleteRemote`.
- The Web Speech API is not modelled: the recogniser's construction,
  `start`, `stop` and `abort`. `StartListening` takes whether `start()`
  returned as a parameter. Results and errors arrive as `OnResult` and
  `OnError` events.
- Game.GameSession.Tick: the countdown is an integer count of 100 ms ticks.
  It spends `10·t` ticks for `t` seconds and expires on the tick after
  reaching zero. The rounding of the floating-point decrement
  `100 / (t·10)` is not modelled.
- Matcher.WordMatchTiers and Matcher.CheckOneAnswer: the floating-point
  comparisons `1 - dist/len >= 0.8` and `coverage >= 0.9` are modelled as
  the exact rational comparisons `5·dist ≤ len` and `10·matched ≥ 9·n`.
  The code compares against 0.9; the comment beside it says 95 %, and the
  model follows the code.
- Normalizer.Expand: JavaScript's `CONTRACTIONS[word]` also finds the
  names of `Object.prototype` (a spoken "constructor" would be replaced by
  the text of a function). The model looks up only the table's own
  entries.
- JsString.ToLower lower-cases ASCII letters only. Lengths count Dafny
  characters, not UTF-16 code units.
- MockData covers questions 1, 21 and 602 only. Properties of the whole
  bank are not stated, such as distinct ids and the count per category.
  Of the category list only its first entry, 'All', is modelled, as
  WordTables.ALL_CATEGORIES; the other categories are plain strings.
- Game.SelectQuestions: the random `sort` shuffle is a parameter, any
  permutation of the filtered bank.
- Game.GameSession.ReleaseTimeout: the 200 ms callback is an event that
  may fire at any time, including more than once or with no release
  before it. The model does not count pending callbacks. Each firing
  reads the session's current state. The handlers' stale captures of
  React state from an earlier render are not modelled.
- Game.GameSession.NextQuestion: on the last question the model marks the
  session unmounted together with reporting `onEnd`, which is when the
  application leaves the screen. Escape does the same with `onExit`.
- The clicks on the hint panels (components/Game.tsx:367-385) set the hint
  directly and are not modelled separately. `ToggleHints` covers the
  keyboard path.
- DataManager: `JSON.parse` is a parameter. JSON numbers are integers.
  The `TypeError` message for a `null` element is written as V8 phrases
  it. One clock value serves every imported id and the deck's
  `createdAt`, whereas the code reads `Date.now()` once per element.
- ResultScreen.PercentageOf: `Math.round((score / total) * 100)` is
  modelled as exact rounding of the rational value, halves up. Floating
  point can give a lower result when the exact percentage ends in .5, for
  example 23/40, where 57.49999… rounds to 57.
