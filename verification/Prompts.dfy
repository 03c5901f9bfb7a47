/**
 * The condition-specific texts sent to the language model: the system prompt of
 * each arm (prompts.js), the substitution of the participant's screening answer
 * into the experimental one (server.js), and the opening instruction of each
 * round of the greeting. The prose of the two system prompts is shortened here to
 * stand-ins that keep what the logic depends on: the control prompt does not hold
 * the placeholder, the experimental prompt holds it twice, first in its guidelines
 * and then in the description of round 1.
 */
module Prompts {
  import opened JsStrings
  import opened Participants

  const CONCERNS_TOKEN := "PARTICIPANT_CONCERNS"

  const CONTROL_PROMPT :=
    "Role & Goal: You are a friendly, neutral conversation partner for general career topics. "
    + "No mention of AI; exactly 3 rounds."

  // The lead is written in short pieces, so that where the placeholder's first two
  // characters could start can be checked piece by piece; only "Pr" begins with its "P".
  const LEAD_1 := "You are a businesslike, friendly "
  const LEAD_2 := "assistant showing how AI can "
  const LEAD_3 := "support the recognition of skills "
  const LEAD_4 := "without replacing humans. "
  const LEAD_5 := "Pr"
  const LEAD_6 := "imary goal: Make concerns "
  const LEAD_7 := "addressable.\n\n"
  const LEAD_8 := "Guidelines:\n- Use "
  const EXPERIMENTAL_LEAD := LEAD_1 + LEAD_2 + LEAD_3 + LEAD_4 + LEAD_5 + LEAD_6 + LEAD_7 + LEAD_8

  const EXPERIMENTAL_MIDDLE :=
    " only for easy contextualization.\n\nStructure (3 rounds):\n- Round 1: Briefly reflect the most important points from "
  const EXPERIMENTAL_TAIL :=
    " and explain at a high level how the assistance works."

  const EXPERIMENTAL_PROMPT := EXPERIMENTAL_LEAD + CONCERNS_TOKEN + EXPERIMENTAL_MIDDLE + CONCERNS_TOKEN + EXPERIMENTAL_TAIL

  /** `data.condition || "control"`: a participant without a condition is treated as control. */
  function EffectiveCondition(stored: string): (c: string)
    ensures c != ""
    ensures stored != "" ==> c == stored
    ensures stored == "" ==> c == CONTROL
  {
    if stored == "" then CONTROL else stored
  }

  /**
   * The system prompt of a request (`let systemPrompt = …` and its replacement):
   * the control template for "control", the experimental one for anything else,
   * with the screening answer put in place of the first placeholder only when the
   * condition is "experimental" and the answer is not empty.
   */
  function SystemPrompt(condition: string, screeningText: string): string {
    var template := if condition == CONTROL then CONTROL_PROMPT else EXPERIMENTAL_PROMPT;
    if condition == EXPERIMENTAL && screeningText != "" then ReplaceFirst(template, CONCERNS_TOKEN, screeningText)
    else template
  }

  /** The placeholder does not begin anywhere in the lead, although "Primary goal" holds its first letter. */
  lemma ExperimentalLeadNoEarlyStart()
    ensures |CONCERNS_TOKEN| >= 2 && NoEarlyStart(EXPERIMENTAL_LEAD, CONCERNS_TOKEN)
  {
    LeadStartHasNoP();
    LeadMiddleHasNoP();
    LeadEndHasNoP();
    var t := CONCERNS_TOKEN;
    assert t[0] == 'P' && t[1] == 'A';
    NoEarlyStartWithout(LEAD_1, t);
    NoEarlyStartWithout(LEAD_2, t);
    NoEarlyStartWithout(LEAD_3, t);
    NoEarlyStartWithout(LEAD_4, t);
    assert NoEarlyStart(LEAD_5, t) by {
      assert LEAD_5[0] == 'P' && LEAD_5[1] == 'r' && |LEAD_5| == 2;
    }
    NoEarlyStartWithout(LEAD_6, t);
    NoEarlyStartWithout(LEAD_7, t);
    NoEarlyStartWithout(LEAD_8, t);
    NoEarlyStartConcat(LEAD_1, LEAD_2, t);
    NoEarlyStartConcat(LEAD_1 + LEAD_2, LEAD_3, t);
    NoEarlyStartConcat(LEAD_1 + LEAD_2 + LEAD_3, LEAD_4, t);
    NoEarlyStartConcat(LEAD_1 + LEAD_2 + LEAD_3 + LEAD_4, LEAD_5, t);
    NoEarlyStartConcat(LEAD_1 + LEAD_2 + LEAD_3 + LEAD_4 + LEAD_5, LEAD_6, t);
    NoEarlyStartConcat(LEAD_1 + LEAD_2 + LEAD_3 + LEAD_4 + LEAD_5 + LEAD_6, LEAD_7, t);
    NoEarlyStartConcat(LEAD_1 + LEAD_2 + LEAD_3 + LEAD_4 + LEAD_5 + LEAD_6 + LEAD_7, LEAD_8, t);
  }

  lemma LeadStartHasNoP()
    ensures 'P' !in LEAD_1 && 'P' !in LEAD_2
  {
  }

  lemma LeadMiddleHasNoP()
    ensures 'P' !in LEAD_3 && 'P' !in LEAD_4
  {
  }

  lemma LeadEndHasNoP()
    ensures 'P' !in LEAD_6 && 'P' !in LEAD_7 && 'P' !in LEAD_8
  {
  }

  /** The text after the first placeholder of the experimental prompt. */
  const EXPERIMENTAL_AFTER := EXPERIMENTAL_MIDDLE + CONCERNS_TOKEN + EXPERIMENTAL_TAIL

  /**
   * Replacing the placeholder in the experimental prompt puts the screening answer
   * (after JavaScript's `$` patterns, so literally when it has no `$`) in place of the
   * first placeholder and keeps everything after it, the second placeholder included.
   */
  lemma ExperimentalSubstituted(screeningText: string)
    ensures ReplaceFirst(EXPERIMENTAL_PROMPT, CONCERNS_TOKEN, screeningText) ==
      EXPERIMENTAL_LEAD + Substitution(screeningText, CONCERNS_TOKEN, EXPERIMENTAL_LEAD, EXPERIMENTAL_AFTER) + EXPERIMENTAL_AFTER
    ensures '$' !in screeningText ==>
      ReplaceFirst(EXPERIMENTAL_PROMPT, CONCERNS_TOKEN, screeningText) == EXPERIMENTAL_LEAD + screeningText + EXPERIMENTAL_AFTER
  {
    ExperimentalLeadNoEarlyStart();
    NoEarlyStartNoOccurrence(EXPERIMENTAL_LEAD, CONCERNS_TOKEN, EXPERIMENTAL_AFTER);
    ExperimentalPromptSplit();
    ReplaceAfterPrefix(EXPERIMENTAL_LEAD, CONCERNS_TOKEN, EXPERIMENTAL_AFTER, screeningText);
  }

  /**
   * What the system prompt is in each case: control's template; the experimental
   * template unchanged for any other condition, or for "experimental" with no
   * screening answer; otherwise the experimental template with the answer
   * substituted for the first placeholder.
   */
  lemma SystemPromptCases(condition: string, screeningText: string)
    ensures condition == CONTROL ==> SystemPrompt(condition, screeningText) == CONTROL_PROMPT
    ensures condition != CONTROL && (condition != EXPERIMENTAL || screeningText == "") ==>
      SystemPrompt(condition, screeningText) == EXPERIMENTAL_PROMPT
    ensures condition == EXPERIMENTAL && screeningText != "" ==>
      SystemPrompt(condition, screeningText) ==
        EXPERIMENTAL_LEAD + Substitution(screeningText, CONCERNS_TOKEN, EXPERIMENTAL_LEAD, EXPERIMENTAL_AFTER) + EXPERIMENTAL_AFTER
    ensures condition == EXPERIMENTAL && screeningText != "" && '$' !in screeningText ==>
      SystemPrompt(condition, screeningText) == EXPERIMENTAL_LEAD + screeningText + EXPERIMENTAL_AFTER
  {
    ExperimentalSubstituted(screeningText);
  }

  /** `p` ends with `token` followed by `tail`: the token occurs at |p| - |token| - |tail|, and `tail` is all that follows it. */
  predicate EndsWithToken(p: string, token: string, tail: string) {
    var k := |p| - |token| - |tail|;
    0 <= k && OccursAt(p, token, k) && p[k + |token|..] == tail
  }

  /**
   * Only the first placeholder is replaced: whatever the screening answer, every
   * non-control prompt still ends with the second placeholder and the text after it.
   */
  lemma SecondPlaceholderSurvives(condition: string, screeningText: string)
    requires condition != CONTROL
    ensures EndsWithToken(SystemPrompt(condition, screeningText), CONCERNS_TOKEN, EXPERIMENTAL_TAIL)
  {
    var p := SystemPrompt(condition, screeningText);
    var first := CONCERNS_TOKEN;
    if condition == EXPERIMENTAL && screeningText != "" {
      ExperimentalSubstituted(screeningText);
      first := Substitution(screeningText, CONCERNS_TOKEN, EXPERIMENTAL_LEAD, EXPERIMENTAL_AFTER);
    } else {
      ExperimentalPromptSplit();
    }
    EndsWithPlaceholder(p, EXPERIMENTAL_LEAD, first, EXPERIMENTAL_AFTER, EXPERIMENTAL_MIDDLE, CONCERNS_TOKEN, EXPERIMENTAL_TAIL);
  }

  /** The experimental prompt is its lead, the first placeholder and the text after it. */
  lemma ExperimentalPromptSplit()
    ensures EXPERIMENTAL_PROMPT == EXPERIMENTAL_LEAD + CONCERNS_TOKEN + EXPERIMENTAL_AFTER
  {
    Reassociated(EXPERIMENTAL_LEAD + CONCERNS_TOKEN, EXPERIMENTAL_MIDDLE, CONCERNS_TOKEN, EXPERIMENTAL_TAIL);
  }

  lemma Reassociated(a: string, b: string, c: string, d: string)
    ensures a + b + c + d == a + (b + c + d)
  {
  }

  /** A text made of a lead, a first part and `after` ends with the token followed by the tail that `after` ends with. */
  lemma EndsWithPlaceholder(p: string, lead: string, first: string, after: string, middle: string, token: string, tail: string)
    requires p == lead + first + after && after == middle + token + tail
    ensures EndsWithToken(p, token, tail)
  {
    assert p == (lead + first + middle) + token + tail;
  }

  // Each text is split after its opening words, which are what tell the five apart.
  const ROUND1_CONTROL :=
    "Start Round 1 with" + " a short, neutral introductory question about professional goals or current working life."
  const ROUND1_EXPERIMENTAL :=
    "Start Round 1 by" + " briefly reflecting the participant's concerns and explaining at a high level how AI assistance works in recruitment. End with an open question."
  const ROUND2_CONTROL :=
    "Start Round 2 with" + " a light deepening question about strengths or areas of learning. Keep it neutral."
  const ROUND2_EXPERIMENTAL :=
    "Start Round 2 by" + " naming specific mechanisms and protective measures. Ask about missing protective measures."
  const ROUND3 :=
    "Start Round 3 with" + " a summary (control: summarize previous points and offer two neutral practical ideas; experimental: summarize the setup and ask final acceptance question)."

  /** The greeting instruction: rounds 1 and 2 by condition (anything but "control" reads as experimental); every other round gets the round-3 text. */
  function GreetingInstruction(round: int, condition: string): string {
    if round == 1 then (if condition == CONTROL then ROUND1_CONTROL else ROUND1_EXPERIMENTAL)
    else if round == 2 then (if condition == CONTROL then ROUND2_CONTROL else ROUND2_EXPERIMENTAL)
    else ROUND3
  }

  /** The round the greeting opens, as the server reads it: 1, 2, or 3 for any other value. */
  function GreetingRound(round: int): int {
    if round == 1 || round == 2 then round else 3
  }

  /**
   * The greeting instruction tells apart exactly what it should: two requests get the
   * same text if and only if they open the same round (as GreetingRound reads it)
   * and, in rounds 1 and 2, agree on whether the condition is control.
   */
  lemma GreetingDistinguishes(r1: int, c1: string, r2: int, c2: string)
    ensures GreetingInstruction(r1, c1) == GreetingInstruction(r2, c2) <==>
      GreetingRound(r1) == GreetingRound(r2) && (GreetingRound(r1) == 3 || ((c1 == CONTROL) <==> (c2 == CONTROL)))
  {
    assert ROUND1_CONTROL[12] == '1' && ROUND1_EXPERIMENTAL[12] == '1';
    assert ROUND2_CONTROL[12] == '2' && ROUND2_EXPERIMENTAL[12] == '2';
    assert ROUND3[12] == '3';
    assert ROUND1_CONTROL[14] == 'w' && ROUND1_EXPERIMENTAL[14] == 'b';
    assert ROUND2_CONTROL[14] == 'w' && ROUND2_EXPERIMENTAL[14] == 'b';
  }

  /** Rounds other than 1 and 2, including 0 and 4, fall through to the round-3 text, whatever the condition. */
  lemma GreetingFallsThrough(round: int, condition: string)
    requires round != 1 && round != 2
    ensures GreetingInstruction(round, condition) == ROUND3
    ensures GreetingInstruction(round, condition) == GreetingInstruction(3, CONTROL)
  {
  }
}
