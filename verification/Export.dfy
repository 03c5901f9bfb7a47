/**
 * `rowsToCsv` (utils.js): the admin export of the participants table as one CSV
 * text, a fixed header of 40 columns and then one line per participant. The
 * locale-dependent rendering of the consent time (`new Date(x).toLocaleString()`)
 * is the parameter `renderDate`.
 */
module Export {
  import opened Wrappers
  import opened JsValues
  import opened JsStrings
  import opened CsvReader
  import opened CsvWriter
  import opened Demographics
  import opened Participants

  /** One questionnaire item: the key of the answer in the participant's map and the question text. */
  datatype Question = Question(id: string, text: string)

  /** The attitude-towards-AI scale, in declaration order (which is the order of `Object.keys`). */
  const ATTARI_QUESTIONS: seq<Question> := [
    Question("attari_1", "AI will make this world a better place."),
    Question("attari_2", "I have strong negative emotions about AI."),
    Question("attari_3", "I want to use technologies that rely on AI."),
    Question("attari_4", "AI has more disadvantages than advantages."),
    Question("attari_5", "I look forward to future AI developments."),
    Question("attari_6", "AI offers solutions to many world problems."),
    Question("attari_7", "I prefer technologies that do not feature AI."),
    Question("attari_8", "I am afraid of AI."),
    Question("attari_9", "I would rather choose a technology with AI than one without."),
    Question("attari_10", "AI creates problems rather than solving them."),
    Question("attari_11", "When I think about AI, I have mostly positive feelings."),
    Question("attari_12", "I would rather avoid technologies that are based on AI.")
  ]

  /** The AI-in-recruiting task scale, in declaration order. */
  const TAI_QUESTIONS: seq<Question> := [
    Question("RCG1", "Detect suitability of applicants."),
    Question("RCG2", "Record suitability of applicants."),
    Question("RCG3", "Identify suitability of applicants."),
    Question("PDC1", "Forecast the development of suitability of applicants."),
    Question("PDC2", "Predict the development of suitability of applicants."),
    Question("PDC3", "Calculate the development of suitability of applicants."),
    Question("RCM1", "Recommend hiring of applicants."),
    Question("RCM2", "Propose hiring of applicants."),
    Question("RCM3", "Suggest hiring of applicants."),
    Question("DSM1", "Decide on hiring of applicants."),
    Question("DSM2", "Define hiring of applicants."),
    Question("DSM3", "Preset hiring of applicants.")
  ]

  const BASE_COLUMNS: seq<string> := [
    "Participant ID", "Consent Date", "Age Category", "Gender", "Nationality",
    "Education", "Occupation", "Recruitment Experience", "Recruitment Role"
  ]

  const OTHER_COLUMNS: seq<string> := [
    "Screening Text", "Baseline AI Use", "Condition", "Post-Test AI Use",
    "Post-Test Change Explanation", "Completed", "Total Chat Messages"
  ]

  function QuestionColumns(prefix: string, questions: seq<Question>): seq<string> {
    seq(|questions|, i requires 0 <= i < |questions| => prefix + questions[i].text)
  }

  const HEADERS: seq<string> :=
    BASE_COLUMNS + QuestionColumns("ATTARI: ", ATTARI_QUESTIONS)
    + QuestionColumns("TAI: ", TAI_QUESTIONS) + OTHER_COLUMNS

  function YesNo(b: bool): string {
    if b then "Yes" else "No"
  }

  /** `answers[id] !== undefined ? answers[id] : ""`. */
  function Answer(answers: map<string, Value>, id: string): Value {
    if id in answers && !answers[id].Undefined? then answers[id] else Str("")
  }

  function Answers(answers: map<string, Value>, questions: seq<Question>): seq<Value> {
    seq(|questions|, i requires 0 <= i < |questions| => Answer(answers, questions[i].id))
  }

  /** `x !== undefined ? x : ""`. */
  function DefinedOr(v: Value): Value {
    if v.Undefined? then Str("") else v
  }

  function ConsentCell(consentAt: string, renderDate: string -> string): string {
    if consentAt != "" then renderDate(consentAt) else ""
  }

  function BaseCells(row: Participant, renderDate: string -> string): seq<Value> {
    [ Str(row.id),
      Str(ConsentCell(row.consentAt, renderDate)),
      Str(FormatDemographicValue("age_category", row.ageCategory)),
      Str(FormatDemographicValue("gender", row.gender)),
      Str(FormatDemographicValue("nationality", row.nationality)),
      Str(FormatDemographicValue("education", row.education)),
      Str(FormatDemographicValue("occupation", row.occupation)),
      Str(YesNo(Truthy(row.recruitmentExperience))),
      Str(row.recruitmentRole) ]
  }

  function OtherCells(row: Participant): seq<Value> {
    [ Str(row.screeningText),
      DefinedOr(row.baselineUse),
      Str(row.condition),
      DefinedOr(row.postUse),
      Str(row.postChange),
      Str(YesNo(row.completed)),
      Num(|row.chat|) ]
  }

  /** The values of one participant's line, column by column. */
  function RowCells(row: Participant, renderDate: string -> string): seq<Value> {
    BaseCells(row, renderDate) + Answers(row.attari, ATTARI_QUESTIONS)
    + Answers(row.tai, TAI_QUESTIONS) + OtherCells(row)
  }

  function StrCells(texts: seq<string>): seq<Value> {
    seq(|texts|, i requires 0 <= i < |texts| => Str(texts[i]))
  }

  function HeaderCells(): seq<Value> {
    StrCells(HEADERS)
  }

  /** `values.map(escapeCSV).join(",")`. */
  function CsvLine(values: seq<Value>): string {
    Join(",", seq(|values|, i requires 0 <= i < |values| => EscapeCsv(values[i])))
  }

  /** The line of each row, in input order. */
  function RowLines(rows: seq<Participant>, renderDate: string -> string): (lines: seq<string>)
    ensures |lines| == |rows|
  {
    seq(|rows|, i requires 0 <= i < |rows| => CsvLine(RowCells(rows[i], renderDate)))
  }

  /** The `lines` array: the header line, then one line per row in input order. */
  function CsvLines(rows: seq<Participant>, renderDate: string -> string): (lines: seq<string>)
    ensures |lines| == |rows| + 1
  {
    [CsvLine(HeaderCells())] + RowLines(rows, renderDate)
  }

  /** The export text: empty for a missing or empty table, otherwise the lines joined by line feeds. */
  function CsvText(rows: Option<seq<Participant>>, renderDate: string -> string): string {
    if rows.None? || |rows.value| == 0 then "" else Join("\n", CsvLines(rows.value, renderDate))
  }

  /** The inner loops of the export: one value per question, in question order, appended to `values`. */
  method PushAnswers(values: seq<Value>, answers: map<string, Value>, questions: seq<Question>)
    returns (pushed: seq<Value>)
    ensures pushed == values + Answers(answers, questions)
  {
    pushed := values;
    for k := 0 to |questions|
      invariant pushed == values + Answers(answers, questions[..k])
    {
      var id := questions[k].id;
      pushed := pushed + [if id in answers && !answers[id].Undefined? then answers[id] else Str("")];
      assert Answers(answers, questions[..k + 1]) == Answers(answers, questions[..k]) + [Answer(answers, id)];
    }
    assert questions[..|questions|] == questions;
  }

  /** The nine base columns, pushed one by one. */
  method PushBaseValues(row: Participant, renderDate: string -> string) returns (values: seq<Value>)
    ensures values == BaseCells(row, renderDate)
  {
    values := [];
    values := values + [Str(row.id)];
    values := values + [Str(if row.consentAt != "" then renderDate(row.consentAt) else "")];
    var age := FormatDemographicValue("age_category", row.ageCategory);
    values := values + [Str(age)];
    var gender := FormatDemographicValue("gender", row.gender);
    values := values + [Str(gender)];
    var nationality := FormatDemographicValue("nationality", row.nationality);
    values := values + [Str(nationality)];
    assert values == [Str(row.id), Str(ConsentCell(row.consentAt, renderDate)), Str(age), Str(gender), Str(nationality)];
    var education := FormatDemographicValue("education", row.education);
    values := values + [Str(education)];
    var occupation := FormatDemographicValue("occupation", row.occupation);
    values := values + [Str(occupation)];
    values := values + [Str(if Truthy(row.recruitmentExperience) then "Yes" else "No")];
    values := values + [Str(row.recruitmentRole)];
    assert values == [Str(row.id), Str(ConsentCell(row.consentAt, renderDate)), Str(age), Str(gender),
      Str(nationality), Str(education), Str(occupation), Str(YesNo(Truthy(row.recruitmentExperience))),
      Str(row.recruitmentRole)];
  }

  /** The seven trailing columns, appended one by one to `values`. */
  method PushOtherValues(values: seq<Value>, row: Participant) returns (pushed: seq<Value>)
    ensures pushed == values + OtherCells(row)
  {
    pushed := values;
    pushed := pushed + [Str(row.screeningText)];
    pushed := pushed + [if row.baselineUse.Undefined? then Str("") else row.baselineUse];
    pushed := pushed + [Str(row.condition)];
    pushed := pushed + [if row.postUse.Undefined? then Str("") else row.postUse];
    pushed := pushed + [Str(row.postChange)];
    pushed := pushed + [Str(if row.completed then "Yes" else "No")];
    pushed := pushed + [Num(|row.chat|)];
  }

  /** The values pushed for one row (the body of the `for (const row of rows)` loop). */
  method RowValues(row: Participant, renderDate: string -> string) returns (values: seq<Value>)
    ensures values == RowCells(row, renderDate)
  {
    values := PushBaseValues(row, renderDate);
    values := PushAnswers(values, row.attari, ATTARI_QUESTIONS);
    values := PushAnswers(values, row.tai, TAI_QUESTIONS);
    values := PushOtherValues(values, row);
  }

  /** The `for (const row of rows)` loop: the line of each row appended to `lines`, in input order. */
  method PushRowLines(lines: seq<string>, rows: seq<Participant>, renderDate: string -> string)
    returns (pushed: seq<string>)
    ensures pushed == lines + RowLines(rows, renderDate)
  {
    pushed := lines;
    for i := 0 to |rows|
      invariant pushed == lines + RowLines(rows[..i], renderDate)
    {
      var values := RowValues(rows[i], renderDate);
      pushed := pushed + [CsvLine(values)];
      RowLinesStep(rows, i, renderDate);
      assert pushed == lines + (RowLines(rows[..i], renderDate) + [CsvLine(values)]);
    }
    assert rows[..|rows|] == rows;
  }

  lemma RowLinesStep(rows: seq<Participant>, i: nat, renderDate: string -> string)
    requires i < |rows|
    ensures RowLines(rows[..i + 1], renderDate) == RowLines(rows[..i], renderDate) + [CsvLine(RowCells(rows[i], renderDate))]
  {
  }

  /** `rowsToCsv(rows)`: the export text, built line by line. */
  method RowsToCsv(rows: Option<seq<Participant>>, renderDate: string -> string) returns (csv: string)
    ensures csv == CsvText(rows, renderDate)
  {
    if rows.None? || |rows.value| == 0 {
      return "";
    }
    var lines := [CsvLine(HeaderCells())];
    lines := PushRowLines(lines, rows.value, renderDate);
    csv := Join("\n", lines);
  }

  // ---------------------------------------------------------------- properties of the export

  /** Every line has one value per header: 9 base columns, 12 + 12 answers and 7 others, 40 in all. */
  lemma RowWidth(row: Participant, renderDate: string -> string)
    ensures |BASE_COLUMNS| == 9 && |OTHER_COLUMNS| == 7 && |ATTARI_QUESTIONS| == 12 && |TAI_QUESTIONS| == 12
    ensures |HEADERS| == 40 && |RowCells(row, renderDate)| == |HEADERS|
  {
  }

  /** Where each part of a line sits: base columns, ATTARI answers, TAI answers, other columns. */
  lemma RowSections(row: Participant, renderDate: string -> string)
    ensures var cells := RowCells(row, renderDate);
      && |cells| == 40
      && cells[..9] == BaseCells(row, renderDate)
      && cells[9..21] == Answers(row.attari, ATTARI_QUESTIONS)
      && cells[21..33] == Answers(row.tai, TAI_QUESTIONS)
      && cells[33..] == OtherCells(row)
  {
    var base := BaseCells(row, renderDate);
    var a := Answers(row.attari, ATTARI_QUESTIONS);
    var t := Answers(row.tai, TAI_QUESTIONS);
    var cells := base + a + t + OtherCells(row);
    assert |a| == 12 && |t| == 12;
    assert cells[..9] == base;
    assert cells[9..21] == a;
    assert cells[21..33] == t;
  }

  /**
   * The Yes/No columns hold exactly "Yes" or "No" according to the field's truth,
   * and the last column is the number of stored chat turns.
   */
  lemma RowFlagCells(row: Participant, renderDate: string -> string)
    ensures var cells := RowCells(row, renderDate);
      && |cells| == 40
      && (cells[7] == Str("Yes") || cells[7] == Str("No"))
      && (cells[7] == Str("Yes") <==> Truthy(row.recruitmentExperience))
      && (cells[38] == Str("Yes") || cells[38] == Str("No"))
      && (cells[38] == Str("Yes") <==> row.completed)
      && cells[39] == Num(|row.chat|)
  {
    RowSections(row, renderDate);
    var cells := RowCells(row, renderDate);
    assert cells[7] == cells[..9][7];
    assert cells[38] == cells[33..][5] && cells[39] == cells[33..][6];
  }

  /** A questionnaire column holds the stored answer when there is one, and "" when the question is unanswered. */
  lemma RowAnswerCells(row: Participant, renderDate: string -> string, k: nat)
    requires k < 12
    ensures var cells := RowCells(row, renderDate);
      && |cells| == 40
      && cells[9 + k] == Answer(row.attari, ATTARI_QUESTIONS[k].id)
      && cells[21 + k] == Answer(row.tai, TAI_QUESTIONS[k].id)
      && (ATTARI_QUESTIONS[k].id !in row.attari ==> cells[9 + k] == Str(""))
      && (TAI_QUESTIONS[k].id !in row.tai ==> cells[21 + k] == Str(""))
  {
    RowSections(row, renderDate);
    var cells := RowCells(row, renderDate);
    assert cells[9 + k] == cells[9..21][k];
    assert cells[21 + k] == cells[21..33][k];
  }

  /** The text each value of a line reads back as. */
  function CellTexts(values: seq<Value>): (texts: seq<string>)
    ensures |texts| == |values|
  {
    seq(|values|, i requires 0 <= i < |values| => CellText(values[i]))
  }

  function RowTexts(row: Participant, renderDate: string -> string): seq<string> {
    CellTexts(RowCells(row, renderDate))
  }

  /** The texts of each row, in input order. */
  function RowRecords(rows: seq<Participant>, renderDate: string -> string): (records: seq<seq<string>>)
    ensures |records| == |rows|
  {
    seq(|rows|, i requires 0 <= i < |rows| => RowTexts(rows[i], renderDate))
  }

  /** What the export is meant to hold: the header, then the texts of each row, in input order. */
  function ExportRecords(rows: seq<Participant>, renderDate: string -> string): seq<seq<string>> {
    [HEADERS] + RowRecords(rows, renderDate)
  }

  lemma LineOfCells(values: seq<Value>)
    ensures CsvLine(values) == Line(CellTexts(values))
  {
    var escaped := seq(|values|, i requires 0 <= i < |values| => EscapeCsv(values[i]));
    assert escaped == EscapeAll(CellTexts(values));
  }

  /** A join of at least two parts holds the separator, so it is not empty. */
  lemma JoinNotEmpty(sep: string, parts: seq<string>)
    requires |sep| >= 1 && |parts| >= 2
    ensures Join(sep, parts) != ""
  {
    assert Join(sep, parts) == parts[0] + sep + Join(sep, parts[1..]);
  }

  lemma StrCellsTexts(texts: seq<string>)
    ensures CellTexts(StrCells(texts)) == texts
  {
  }

  /** Prepending a line to lines written from records gives the lines of the extended records. */
  lemma LinesCons(first: string, head: seq<string>, rest: seq<string>, records: seq<seq<string>>)
    requires first == Line(head) && rest == Lines(records)
    ensures [first] + rest == Lines([head] + records)
  {
    assert ([head] + records)[1..] == records;
  }

  /** The header line is the CSV line of the header texts. */
  lemma HeaderLine()
    ensures CsvLine(HeaderCells()) == Line(HEADERS)
  {
    StrCellsTexts(HEADERS);
    LineOfCells(HeaderCells());
  }

  /** Each row's line is the CSV line of that row's texts. */
  lemma RowLinesAreLines(rows: seq<Participant>, renderDate: string -> string)
    ensures RowLines(rows, renderDate) == Lines(RowRecords(rows, renderDate))
  {
    var lines := RowLines(rows, renderDate);
    var records := RowRecords(rows, renderDate);
    forall i | 0 <= i < |rows| ensures lines[i] == Line(records[i]) {
      LineOfCells(RowCells(rows[i], renderDate));
    }
  }

  /** The export's lines are the CSV lines of the records it is meant to hold. */
  lemma ExportLines(rows: seq<Participant>, renderDate: string -> string)
    ensures CsvLines(rows, renderDate) == Lines(ExportRecords(rows, renderDate))
  {
    HeaderLine();
    RowLinesAreLines(rows, renderDate);
    LinesCons(CsvLine(HeaderCells()), HEADERS, RowLines(rows, renderDate), RowRecords(rows, renderDate));
  }

  lemma ExportRecordsWidth(rows: seq<Participant>, renderDate: string -> string)
    ensures NoEmptyRecord(ExportRecords(rows, renderDate))
  {
    var records := ExportRecords(rows, renderDate);
    forall i | 0 <= i < |records| ensures |records[i]| >= 1 {
      if i > 0 {
        RowWidth(rows[i - 1], renderDate);
      }
    }
  }

  /**
   * Round trip of the export: for a non-empty table the CSV text reads back, under
   * RFC 4180 with LF line breaks, as exactly `rows.length + 1` records, the header
   * first and then each participant's cell texts in input order.
   */
  lemma ExportRoundTrip(rows: seq<Participant>, renderDate: string -> string)
    requires |rows| >= 1
    ensures ReadDocument(CsvText(Some(rows), renderDate)) == Some(ExportRecords(rows, renderDate))
    ensures |ExportRecords(rows, renderDate)| == |rows| + 1
  {
    ExportLines(rows, renderDate);
    ExportRecordsWidth(rows, renderDate);
    DocumentRoundTrip(ExportRecords(rows, renderDate));
  }

  /** The export is empty exactly when there is no table or the table has no rows. */
  lemma ExportEmptyIff(rows: Option<seq<Participant>>, renderDate: string -> string)
    ensures CsvText(rows, renderDate) == "" <==> rows.None? || |rows.value| == 0
  {
    if rows.Some? && |rows.value| > 0 {
      JoinNotEmpty("\n", CsvLines(rows.value, renderDate));
    }
  }

  /** The chat-count column of each exported row reads back, as a decimal number, as the length of that row's chat. */
  lemma ExportedChatCount(rows: seq<Participant>, renderDate: string -> string, i: nat)
    requires i < |rows|
    ensures var text := ExportRecords(rows, renderDate)[i + 1][39];
      && (forall j :: 0 <= j < |text| ==> IsDigit(text[j]))
      && DecimalValue(text) == |rows[i].chat|
  {
    assert ExportRecords(rows, renderDate)[i + 1] == RowTexts(rows[i], renderDate);
    RowChatText(rows[i], renderDate);
    DecimalRoundTrip(|rows[i].chat|);
  }

  /** The last text of a row is the decimal count of its chat turns. */
  lemma RowChatText(row: Participant, renderDate: string -> string)
    ensures |RowTexts(row, renderDate)| == 40
    ensures RowTexts(row, renderDate)[39] == NatToDecimal(|row.chat|)
  {
    RowFlagCells(row, renderDate);
  }
}
