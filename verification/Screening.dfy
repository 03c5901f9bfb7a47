/**
 * The `/api/screening` handler (server.js): the exclusion test on the screening
 * answer, the write of the answer and of the baseline use, and the random
 * assignment to a condition. The draw `Math.random() < 0.5` is the parameter
 * `heads`; the writes are updates of the row whose id is the participant id, and
 * an update that matches no row changes nothing.
 */
module Screening {
  import opened Wrappers
  import opened JsValues
  import opened JsStrings
  import opened Participants

  /** `(screening_text || "").trim().toLowerCase() === "no"` (a missing text is ""). */
  predicate IsExcluded(screeningText: string) {
    ToLower(Trim(screeningText)) == "no"
  }

  /**
   * A participant is excluded exactly when the answer is one of the spellings of
   * "no" with nothing but whitespace around it.
   */
  lemma ExcludedIff(s: string)
    ensures IsExcluded(s) <==>
      exists i, j :: 0 <= i <= j <= |s| && AllWhitespace(s[..i]) && AllWhitespace(s[j..]) && s[i..j] in NO_SPELLINGS
  {
    if IsExcluded(s) {
      ExcludedIsPadded(s);
    }
    if exists i, j :: 0 <= i <= j <= |s| && AllWhitespace(s[..i]) && AllWhitespace(s[j..]) && s[i..j] in NO_SPELLINGS {
      var i, j :| 0 <= i <= j <= |s| && AllWhitespace(s[..i]) && AllWhitespace(s[j..]) && s[i..j] in NO_SPELLINGS;
      PaddedIsExcluded(s, i, j);
    }
  }

  lemma ExcludedIsPadded(s: string)
    requires IsExcluded(s)
    ensures exists i, j :: 0 <= i <= j <= |s| && AllWhitespace(s[..i]) && AllWhitespace(s[j..]) && s[i..j] in NO_SPELLINGS
  {
    LowerIsNo(Trim(s));
    TrimSpec(s);
    var i, j :| 0 <= i <= j <= |s| && Trim(s) == s[i..j] && AllWhitespace(s[..i]) && AllWhitespace(s[j..]);
    assert s[i..j] in NO_SPELLINGS;
  }

  lemma PaddedIsExcluded(s: string, i: nat, j: nat)
    requires i <= j <= |s| && AllWhitespace(s[..i]) && AllWhitespace(s[j..]) && s[i..j] in NO_SPELLINGS
    ensures IsExcluded(s)
  {
    assert |s[i..j]| == 2 && s[i] == s[i..j][0] && s[j - 1] == s[i..j][1];
    TrimOfPadded(s, i, j);
    LowerIsNo(s[i..j]);
  }

  /** An answer with a trailing space is excluded; an ordinary sentence is not. */
  lemma ScreeningExamples()
    ensures IsExcluded("No ")
    ensures !IsExcluded("I have some concerns")
  {
    var padded := "No ";
    assert padded[2] == ' ' && ' ' in JS_WHITESPACE;
    assert AllWhitespace(padded[2..]) by {
      assert padded[2..] == [' '];
    }
    assert padded[0] == 'N' && 'N' !in JS_WHITESPACE;
    assert padded[1] == 'o' && 'o' !in JS_WHITESPACE;
    TrimOfPadded(padded, 0, 2);
    assert padded[0..2] == "No";
    assert ToLower("No") == "no";

    var answer := "I have some concerns";
    assert answer[0] == 'I' && 'I' !in JS_WHITESPACE;
    assert answer[|answer| - 1] == 's' && 's' !in JS_WHITESPACE;
    assert answer[|answer|..] == [] && answer[..0] == [];
    TrimOfPadded(answer, 0, |answer|);
    assert |ToLower(Trim(answer))| == |answer| != 2;
  }

  datatype ScreeningReply = Excluded | Assigned(condition: string)

  /** `Math.random() < 0.5 ? "control" : "experimental"`, with `heads` standing for a draw below 0.5. */
  function DrawCondition(heads: bool): string {
    if heads then CONTROL else EXPERIMENTAL
  }

  /** `screening_text || ""`: the answer a request carries, "" when it has none. */
  function RequestAnswer(screeningText: Option<string>): string {
    if screeningText.Some? then screeningText.value else ""
  }

  /**
   * `update({ screening_text, baseline_use }).eq("id", participantId)`. The update
   * travels as JSON, which drops a key whose value is `undefined`: a request without
   * `screening_text` (None) or without `baseline_use` (Undefined) leaves that column
   * as it was.
   */
  function WriteScreening(db: Store, participantId: string, screeningText: Option<string>, baselineUse: Value): Store {
    if participantId in db then
      var stored := db[participantId];
      db[participantId := stored.(
        screeningText := if screeningText.Some? then screeningText.value else stored.screeningText,
        baselineUse := if baselineUse.Undefined? then stored.baselineUse else baselineUse)]
    else db
  }

  /** `update({ condition }).eq("id", participantId)`. */
  function WriteCondition(db: Store, participantId: string, condition: string): Store {
    if participantId in db then db[participantId := db[participantId].(condition := condition)] else db
  }

  /**
   * The screening handler. The answer and the baseline use the request carries are
   * written whether or not the participant is excluded, and a field the request
   * omits keeps its stored value; an excluded participant gets the reply
   * `{excluded: true}` and no condition is written (an earlier one stays); anyone
   * else is assigned "control" or "experimental" by the draw. No other participant
   * and no other field changes, and an unknown id changes nothing.
   */
  function Screen(db: Store, participantId: string, screeningText: Option<string>, baselineUse: Value, heads: bool)
    : (r: (Store, ScreeningReply))
    ensures r.1.Excluded? <==> IsExcluded(RequestAnswer(screeningText))
    ensures r.1.Assigned? ==> r.1.condition in {CONTROL, EXPERIMENTAL}
    ensures r.1.Assigned? ==> (r.1.condition == CONTROL <==> heads)
    ensures r.0.Keys == db.Keys
    ensures participantId !in db ==> r.0 == db
    ensures forall q :: q in db && q != participantId ==> r.0[q] == db[q]
    ensures participantId in db ==>
      r.0[participantId] == db[participantId].(
        screeningText := if screeningText.Some? then screeningText.value else db[participantId].screeningText,
        baselineUse := if baselineUse.Undefined? then db[participantId].baselineUse else baselineUse,
        condition := if r.1.Excluded? then db[participantId].condition else r.1.condition)
  {
    var written := WriteScreening(db, participantId, screeningText, baselineUse);
    if IsExcluded(RequestAnswer(screeningText)) then (written, Excluded)
    else
      var condition := DrawCondition(heads);
      (WriteCondition(written, participantId, condition), Assigned(condition))
  }

  /**
   * A request that omits `baseline_use` keeps the stored baseline use; one that omits
   * `screening_text` keeps the stored answer and, reading as "", is never excluded.
   */
  lemma OmittedFieldsKept(db: Store, participantId: string, screeningText: Option<string>, baselineUse: Value, heads: bool)
    requires participantId in db
    ensures Screen(db, participantId, screeningText, Undefined, heads).0[participantId].baselineUse == db[participantId].baselineUse
    ensures var r := Screen(db, participantId, None, baselineUse, heads);
      && r.0[participantId].screeningText == db[participantId].screeningText
      && r.1 == Assigned(DrawCondition(heads))
  {
  }

  /**
   * Nothing guards against a second submission: screening again with a non-"no"
   * answer replaces the condition by the new draw, whatever was assigned before.
   */
  lemma ResubmissionRedraws(db: Store, participantId: string, first: string, second: string, baselineUse: Value, heads1: bool, heads2: bool)
    requires participantId in db && !IsExcluded(first) && !IsExcluded(second)
    ensures var once := Screen(db, participantId, Some(first), baselineUse, heads1).0;
      && once[participantId].condition == DrawCondition(heads1)
      && Screen(once, participantId, Some(second), baselineUse, heads2).0[participantId].condition == DrawCondition(heads2)
  {
  }
}
