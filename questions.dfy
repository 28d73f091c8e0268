/**
 * The question record of types.ts:16-28 and the feedback record of
 * types.ts:47-51.
 */
module Questions {
  import opened Wrappers

  datatype Level = Easy | Medium | Hard

  /** The optional sentence-structure and vocabulary hints. */
  datatype Hint = Hint(structure: Option<string>, vocab: Option<string>)

  /** One practice question: a Vietnamese prompt, the main English answer
      and the other accepted phrasings. The numeric id is a JavaScript
      number; every id the program creates is an integer. */
  datatype Question = Question(
    id: int,
    category: Option<string>,
    level: Option<Level>,
    vietnamese: string,
    mainAnswer: string,
    variations: seq<string>,
    hint: Option<Hint>,
    note: Option<string>)
  {
    /** `[main_answer, ...variations]`, the answers tried in order. */
    function Answers(): (r: seq<string>)
      ensures |r| == 1 + |variations| && r[0] == mainAnswer
      ensures forall k :: 0 <= k < |variations| ==> r[k + 1] == variations[k]
    {
      [mainAnswer] + variations
    }
  }

  /** The verdict shown after an answer. */
  datatype Feedback = Feedback(isCorrect: bool, msg: string, aiCommentary: Option<string>)
}
