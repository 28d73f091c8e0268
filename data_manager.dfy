/**
 * The custom-deck manager of components/DataManagerModal.tsx:48-89: the
 * import of a pasted JSON array of questions as a new deck, and the
 * deletion of a deck. `JSON.parse`, `Date.now()`, `crypto.randomUUID()` and
 * `confirm()` are outside the model: their results are parameters.
 */
module DataManager {
  import opened Wrappers
  import opened JsString

  /** A value produced by `JSON.parse`. */
  datatype Json =
    | JNull
    | JBool(b: bool)
    | JNum(n: int)
    | JStr(s: string)
    | JArr(items: seq<Json>)
    | JObj(fields: map<string, Json>)

  /** JavaScript truthiness of a JSON value. */
  predicate Truthy(j: Json) {
    match j
    case JNull => false
    case JBool(b) => b
    case JNum(n) => n != 0
    case JStr(s) => s != ""
    case _ => true
  }

  /** `obj[key]` is truthy; a missing key reads as `undefined`, which is
      falsy. */
  predicate Has(fields: map<string, Json>, key: string) {
    key in fields && Truthy(fields[key])
  }

  /** What `JSON.parse(jsonInput)` did: return a value, or throw a
      `SyntaxError` with the engine's message. */
  datatype Parse = Parsed(value: Json) | SyntaxError(message: string)

  const NAME_MISSING := "Vui lòng đặt tên cho bộ bài."
  const JSON_ERROR := "Lỗi JSON: "
  const NOT_ARRAY := "Dữ liệu phải là một Mảng (Array) JSON."
  const FIELD_MISSING := "JSON thiếu trường 'vietnamese' hoặc 'main_answer'."
  /** The `TypeError` a browser's engine (V8) throws when the check reads
      `vietnamese` from a `null` element. */
  const NULL_READ := "Cannot read properties of null (reading 'vietnamese')"

  /** The check `q.vietnamese && q.main_answer` holds of one element. A
      string, number, boolean or array has neither property. */
  predicate ItemOk(q: Json) {
    q.JObj? && Has(q.fields, "vietnamese") && Has(q.fields, "main_answer")
  }

  /** `parsed.every(...)`: it stops at the first element that is `null`,
      which throws, or that fails the check, and that element decides the
      message. */
  function ItemsError(items: seq<Json>): (r: Option<string>)
    ensures r == None <==> forall k :: 0 <= k < |items| ==> ItemOk(items[k])
    ensures r == None || r == Some(NULL_READ) || r == Some(FIELD_MISSING)
    ensures r != None ==>
      exists k :: && 0 <= k < |items| && !ItemOk(items[k])
                  && (forall l :: 0 <= l < k ==> ItemOk(items[l]))
                  && r == Some(if items[k] == JNull then NULL_READ else FIELD_MISSING)
  {
    if items == [] then None
    else if items[0] == JNull then Some(NULL_READ)
    else if !ItemOk(items[0]) then Some(FIELD_MISSING)
    else ItemsError(items[1..])
  }

  datatype Checked = Items(items: seq<Json>) | Thrown(message: string)

  /** The parse and the two checks, in order: the message of the first
      error thrown, or the elements of an array whose every element
      passed. */
  function Validate(p: Parse): (r: Checked)
    ensures r.Items? <==> p.Parsed? && p.value.JArr? && forall k :: 0 <= k < |p.value.items| ==> ItemOk(p.value.items[k])
    ensures r.Items? ==> r.items == p.value.items
    ensures p.Parsed? && !p.value.JArr? ==> r == Thrown(NOT_ARRAY)
  {
    match p
    case SyntaxError(m) => Thrown(m)
    case Parsed(v) =>
      if !v.JArr? then Thrown(NOT_ARRAY)
      else match ItemsError(v.items)
        case Some(m) => Thrown(m)
        case None => Items(v.items)
  }

  const DEFAULT_HINT := JObj(map["structure" := JStr("..."), "vocab" := JStr("...")])

  /** `obj[key] || fallback`. */
  function Or(fields: map<string, Json>, key: string, fallback: Json): Json {
    if Has(fields, key) then fields[key] else fallback
  }

  /** One imported question: its own fields, with a falsy id, variations,
      hint or note replaced by a default. */
  function NormalizeQuestion(fields: map<string, Json>, id: int): map<string, Json> {
    fields["id" := Or(fields, "id", JNum(id))]
          ["variations" := Or(fields, "variations", JArr([]))]
          ["hint" := Or(fields, "hint", DEFAULT_HINT)]
          ["note" := Or(fields, "note", JStr(""))]
  }

  function FieldsOf(q: Json): map<string, Json> {
    if q.JObj? then q.fields else map[]
  }

  /** The questions of the new deck; the element at index `k` gets the id
      `now + k` when its own is falsy. */
  function NormalizeItems(items: seq<Json>, now: int): (r: seq<map<string, Json>>)
    ensures |r| == |items|
  {
    seq(|items|, k requires 0 <= k < |items| => NormalizeQuestion(FieldsOf(items[k]), now + k))
  }

  datatype Deck = Deck(id: string, name: string, questions: seq<map<string, Json>>, createdAt: int)

  /** What one press of the import button leads to. */
  datatype Outcome = Ignored | Rejected(message: string) | Saved(deck: Deck)

  /** `handleImport` without its state updates: a blank input is ignored, a
      blank deck name is refused, and any error thrown by the parse or the
      checks is reported after the "Lỗi JSON: " prefix. The deck keeps its
      name as typed, untrimmed. */
  function ImportOutcome(jsonInput: string, deckName: string, p: Parse, now: int, deckId: string): Outcome {
    if Trim(jsonInput) == "" then Ignored
    else if Trim(deckName) == "" then Rejected(NAME_MISSING)
    else match Validate(p)
      case Thrown(m) => Rejected(JSON_ERROR + m)
      case Items(items) => Saved(Deck(deckId, deckName, NormalizeItems(items, now), now))
  }

  /** `customDecks.filter(d => d.id !== id)`. */
  function WithoutDeck(decks: seq<Deck>, id: string): (r: seq<Deck>)
    ensures |r| <= |decks|
  {
    if decks == [] then []
    else (if decks[0].id != id then [decks[0]] else []) + WithoutDeck(decks[1..], id)
  }

  datatype View = List | Add

  /** The modal's state together with the deck list `onSaveDecks` stores. */
  class DeckManager {
    var decks: seq<Deck>
    var view: View
    var jsonInput: string
    var deckName: string
    var importError: Option<string>

    constructor(decks: seq<Deck>)
      ensures this.decks == decks && view == List && jsonInput == "" && deckName == ""
      ensures importError == None
    {
      this.decks := decks;
      view := List;
      jsonInput := "";
      deckName := "";
      importError := None;
    }

    /** The import button. `p` is what `JSON.parse` made of the input, `now`
        the clock and `deckId` the fresh UUID. A failure saves nothing and
        leaves the form as it is; a success prepends the deck, returns to
        the list and clears the form. */
    method Import(p: Parse, now: int, deckId: string)
      modifies this
      ensures var o := ImportOutcome(old(jsonInput), old(deckName), p, now, deckId);
        && (o.Ignored? ==> unchanged(this))
        && (o.Rejected? ==>
              && importError == Some(o.message) && decks == old(decks) && view == old(view)
              && jsonInput == old(jsonInput) && deckName == old(deckName))
        && (o.Saved? ==>
              && decks == [o.deck] + old(decks) && view == List
              && jsonInput == "" && deckName == "" && importError == None)
    {
      var o := ImportOutcome(jsonInput, deckName, p, now, deckId);
      match o {
        case Ignored =>
        case Rejected(m) =>
          importError := Some(m);
        case Saved(deck) =>
          decks := [deck] + decks;
          view := List;
          jsonInput := "";
          deckName := "";
          importError := None;
      }
    }

    /** The delete button; `confirmed` is the answer to `confirm()`. */
    method Delete(id: string, confirmed: bool)
      modifies this
      ensures decks == if confirmed then WithoutDeck(old(decks), id) else old(decks)
      ensures view == old(view) && jsonInput == old(jsonInput) && deckName == old(deckName)
      ensures importError == old(importError)
    {
      if confirmed {
        decks := WithoutDeck(decks, id);
      }
    }
  }

  // Properties of the import

  /** The input is ignored exactly when it is whitespace only, whatever
      the deck name. */
  lemma BlankInputIgnored(jsonInput: string, deckName: string, p: Parse, now: int, deckId: string)
    ensures ImportOutcome(jsonInput, deckName, p, now, deckId) == Ignored <==>
      forall k :: 0 <= k < |jsonInput| ==> IsSpace(jsonInput[k])
  {
  }

  /** With input present, a blank deck name is refused before the input is
      looked at; any other refusal carries the JSON prefix. */
  lemma RejectionMessages(jsonInput: string, deckName: string, p: Parse, now: int, deckId: string)
    requires Trim(jsonInput) != ""
    ensures var o := ImportOutcome(jsonInput, deckName, p, now, deckId);
      && (Trim(deckName) == "" ==> o == Rejected(NAME_MISSING))
      && (Trim(deckName) != "" && o.Rejected? ==> o.message[..|JSON_ERROR|] == JSON_ERROR)
  {
  }

  /** With input and a name present, the import saves exactly when the parse
      gave an array whose every element has a truthy `vietnamese` and
      `main_answer`; the saved deck then has one question per element, in
      order, built from that element. */
  lemma ImportSavesValidArrays(jsonInput: string, deckName: string, p: Parse, now: int, deckId: string)
    requires Trim(jsonInput) != "" && Trim(deckName) != ""
    ensures var o := ImportOutcome(jsonInput, deckName, p, now, deckId);
      && (o.Saved? <==> p.Parsed? && p.value.JArr? && forall k :: 0 <= k < |p.value.items| ==> ItemOk(p.value.items[k]))
      && (o.Saved? ==>
            && o.deck.id == deckId && o.deck.name == deckName && o.deck.createdAt == now
            && |o.deck.questions| == |p.value.items|
            && forall k :: 0 <= k < |p.value.items| ==>
                 o.deck.questions[k] == NormalizeQuestion(p.value.items[k].fields, now + k))
      && (p.SyntaxError? ==> o == Rejected(JSON_ERROR + p.message))
      && (p.Parsed? && !p.value.JArr? ==> o == Rejected(JSON_ERROR + NOT_ARRAY))
  {
  }

  /** The defaults: the four defaulted fields are kept when truthy and
      replaced otherwise, every other field is kept as it is, and no field
      is lost. */
  lemma NormalizeKeepsFields(fields: map<string, Json>, id: int)
    ensures var r := NormalizeQuestion(fields, id);
      && r.Keys == fields.Keys + {"id", "variations", "hint", "note"}
      && (forall key :: key in fields && key !in {"id", "variations", "hint", "note"} ==> r[key] == fields[key])
      && r["id"] == (if Has(fields, "id") then fields["id"] else JNum(id))
      && r["variations"] == (if Has(fields, "variations") then fields["variations"] else JArr([]))
      && r["hint"] == (if Has(fields, "hint") then fields["hint"] else DEFAULT_HINT)
      && r["note"] == (if Has(fields, "note") then fields["note"] else JStr(""))
  {
  }

  /** An imported question still passes the check, and has variations and
      a hint; its id is truthy unless the fallback id is 0. */
  lemma NormalizedComplete(fields: map<string, Json>, id: int)
    requires Has(fields, "vietnamese") && Has(fields, "main_answer")
    ensures var r := NormalizeQuestion(fields, id);
      && ItemOk(JObj(r)) && r["vietnamese"] == fields["vietnamese"] && r["main_answer"] == fields["main_answer"]
      && Has(r, "variations") && Has(r, "hint") && "note" in r
      && (id != 0 ==> Has(r, "id"))
  {
  }

  /** Importing an imported question again changes nothing. */
  lemma NormalizeIdempotent(fields: map<string, Json>, id: int)
    ensures NormalizeQuestion(NormalizeQuestion(fields, id), id) == NormalizeQuestion(fields, id)
  {
    var r := NormalizeQuestion(fields, id);
    var rr := NormalizeQuestion(r, id);
    assert rr.Keys == r.Keys;
    forall key | key in r ensures rr[key] == r[key] {
    }
  }

  // Properties of the delete

  /** The decks kept are exactly those with a different id. */
  lemma {:induction false} WithoutDeckMembers(decks: seq<Deck>, id: string)
    ensures forall d :: d in WithoutDeck(decks, id) <==> d in decks && d.id != id
  {
    if decks != [] {
      WithoutDeckMembers(decks[1..], id);
      assert decks == [decks[0]] + decks[1..];
    }
  }

  /** The filter keeps order: it distributes over concatenation. */
  lemma {:induction false} WithoutDeckAppend(a: seq<Deck>, b: seq<Deck>, id: string)
    ensures WithoutDeck(a + b, id) == WithoutDeck(a, id) + WithoutDeck(b, id)
  {
    if a != [] {
      WithoutDeckAppend(a[1..], b, id);
      assert (a + b)[1..] == a[1..] + b;
    } else {
      assert a + b == b;
    }
  }

  /** A list with no deck of that id is left as it is. */
  lemma {:induction false} WithoutAbsentDeck(decks: seq<Deck>, id: string)
    requires forall k :: 0 <= k < |decks| ==> decks[k].id != id
    ensures WithoutDeck(decks, id) == decks
  {
    if decks != [] {
      WithoutAbsentDeck(decks[1..], id);
      assert decks == [decks[0]] + decks[1..];
    }
  }

  /** Deleting twice is deleting once. */
  lemma WithoutDeckIdempotent(decks: seq<Deck>, id: string)
    ensures WithoutDeck(WithoutDeck(decks, id), id) == WithoutDeck(decks, id)
  {
    var r := WithoutDeck(decks, id);
    WithoutDeckMembers(decks, id);
    forall k | 0 <= k < |r| ensures r[k].id != id {
      assert r[k] in r;
    }
    WithoutAbsentDeck(r, id);
  }

  /** Deleting a freshly imported deck, whose UUID no other deck has,
      restores the list from before the import. */
  lemma DeleteUndoesImport(decks: seq<Deck>, deck: Deck)
    requires forall k :: 0 <= k < |decks| ==> decks[k].id != deck.id
    ensures WithoutDeck([deck] + decks, deck.id) == decks
  {
    WithoutDeckAppend([deck], decks, deck.id);
    WithoutAbsentDeck(decks, deck.id);
  }
}
