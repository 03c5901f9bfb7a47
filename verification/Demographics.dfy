/**
 * `formatDemographicValue` (utils.js): how the export renders the demographic
 * codes a participant chose. Three fields map codes to labels, two are title-cased
 * word by word, every other field is passed through.
 */
module Demographics {
  import opened JsStrings

  const AGE_LABELS: map<string, string> := map[
    "under-25" := "Under 25 years",
    "25-34" := "25\U{2013}34 years",
    "35-44" := "35\U{2013}44 years",
    "45-54" := "45\U{2013}54 years",
    "55-64" := "55\U{2013}64 years",
    "65-plus" := "65 years or older"
  ]

  const GENDER_LABELS: map<string, string> := map[
    "female" := "Female",
    "male" := "Male",
    "miscellaneous" := "Miscellaneous",
    "prefer-not-to-say" := "Prefer not to say"
  ]

  const EDUCATION_LABELS: map<string, string> := map[
    "secondary-1" := "Secondary level I",
    "secondary-2" := "Secondary level II",
    "vocational" := "Vocational training/apprenticeship",
    "bachelor" := "Bachelor",
    "master" := "Masters degree",
    "doctorate" := "Doctorate",
    "other" := "Other degree"
  ]

  predicate NonEmptyLabels(labels: map<string, string>) {
    forall code :: code in labels ==> labels[code] != ""
  }

  /** `LABELS[value] || value`: the label of a known code, otherwise the code itself. */
  function Label(labels: map<string, string>, value: string): string {
    if value in labels then labels[value] else value
  }

  /** `word.charAt(0).toUpperCase() + word.slice(1)`. */
  function Capitalize(word: string): string {
    if word == [] then [] else [UpperChar(word[0])] + word[1..]
  }

  function CapitalizeAll(words: seq<string>): (r: seq<string>)
    ensures |r| == |words|
  {
    if words == [] then [] else [Capitalize(words[0])] + CapitalizeAll(words[1..])
  }

  /** `value.split("-").map(capitalize).join(" ")`. */
  function TitleCase(value: string): string {
    Join(" ", CapitalizeAll(Split(value, '-')))
  }

  /** The character-by-character reading of TitleCase: each hyphen becomes a space and each word's first character is upper-cased. */
  function TitleChars(s: string, atWordStart: bool): (r: string)
    ensures |r| == |s|
  {
    if s == [] then []
    else if s[0] == '-' then [' '] + TitleChars(s[1..], true)
    else [if atWordStart then UpperChar(s[0]) else s[0]] + TitleChars(s[1..], false)
  }

  /** TitleCase agrees with its character-by-character reading (with the first part of the split not capitalised when not at a word start). */
  lemma {:induction false} TitleCaseIsCharwise(s: string)
    ensures Join(" ", CapitalizeAll(Split(s, '-'))) == TitleChars(s, true)
    ensures Join(" ", [Split(s, '-')[0]] + CapitalizeAll(Split(s, '-')[1..])) == TitleChars(s, false)
  {
    if s != [] {
      TitleCaseIsCharwise(s[1..]);
      var rest := Split(s[1..], '-');
      var parts := Split(s, '-');
      if s[0] == '-' {
        assert parts == [""] + rest;
        var caps := CapitalizeAll(parts);
        assert caps == [""] + CapitalizeAll(rest);
        assert caps[1..] == CapitalizeAll(rest);
        assert Join(" ", caps) == "" + " " + Join(" ", CapitalizeAll(rest));
        var plain := [parts[0]] + CapitalizeAll(parts[1..]);
        assert parts[1..] == rest;
        assert plain[1..] == CapitalizeAll(rest);
        assert Join(" ", plain) == "" + " " + Join(" ", CapitalizeAll(rest));
      } else {
        var c := s[0];
        assert parts == [[c] + rest[0]] + rest[1..];
        assert parts[1..] == rest[1..];
        var caps := CapitalizeAll(parts);
        assert caps == [[UpperChar(c)] + rest[0]] + CapitalizeAll(rest[1..]);
        JoinConsFirst([UpperChar(c)], rest[0], CapitalizeAll(rest[1..]));
        var plain := [parts[0]] + CapitalizeAll(parts[1..]);
        JoinConsFirst([c], rest[0], CapitalizeAll(rest[1..]));
      }
    }
  }

  /** Joining is unaffected by where the first part is cut. */
  lemma JoinConsFirst(a: string, b: string, more: seq<string>)
    ensures Join(" ", [a + b] + more) == a + Join(" ", [b] + more)
  {
    if |more| > 0 {
      assert ([a + b] + more)[1..] == more;
      assert ([b] + more)[1..] == more;
    }
  }

  /** Position by position: a hyphen becomes a space; the first character of each word is upper-cased; all else is kept. */
  lemma {:induction false} TitleCharsAt(s: string, atWordStart: bool, i: nat)
    requires i < |s|
    ensures TitleChars(s, atWordStart)[i] ==
      if s[i] == '-' then ' '
      else if (if i == 0 then atWordStart else s[i - 1] == '-') then UpperChar(s[i])
      else s[i]
  {
    if i > 0 {
      TitleCharsAt(s[1..], s[0] == '-', i - 1);
    }
  }

  /** What title-casing puts at position `i`: a space for a hyphen, the upper-cased character at a word start, else the character. */
  function TitleCharAt(value: string, i: nat): char
    requires i < |value|
  {
    if value[i] == '-' then ' '
    else if i == 0 || value[i - 1] == '-' then UpperChar(value[i])
    else value[i]
  }

  /**
   * Title-casing of nationality and occupation: the output has the input's length,
   * holds no hyphen, and has one word per hyphen-separated part (hyphens + 1).
   */
  lemma TitleCaseShape(value: string)
    ensures |TitleCase(value)| == |value|
    ensures '-' !in TitleCase(value)
    ensures |Split(value, '-')| == Occurrences(value, '-') + 1
    ensures forall i :: 0 <= i < |value| ==> TitleCase(value)[i] == TitleCharAt(value, i)
  {
    TitleCaseIsCharwise(value);
    SplitJoin(value, '-');
    forall i | 0 <= i < |value| ensures TitleCase(value)[i] == TitleCharAt(value, i) {
      TitleCharsAt(value, true, i);
    }
  }

  /**
   * `formatDemographicValue(field, value)`: the empty (falsy) value gives "" and
   * only it does; a code of age, gender or education gives its label when known and
   * itself otherwise; nationality and occupation are title-cased; other fields pass
   * the value through.
   */
  function FormatDemographicValue(field: string, value: string): (r: string)
    ensures r == "" <==> value == ""
    ensures value != "" && field == "age_category" ==> r == Label(AGE_LABELS, value)
    ensures value != "" && field == "gender" ==> r == Label(GENDER_LABELS, value)
    ensures value != "" && field == "education" ==> r == Label(EDUCATION_LABELS, value)
    ensures field == "nationality" || field == "occupation" ==> r == TitleCase(value)
    ensures field !in {"age_category", "gender", "education", "nationality", "occupation"} ==> r == value
  {
    assert NonEmptyLabels(AGE_LABELS) && NonEmptyLabels(GENDER_LABELS) && NonEmptyLabels(EDUCATION_LABELS);
    if value == "" then ""
    else if field == "age_category" then Label(AGE_LABELS, value)
    else if field == "gender" then Label(GENDER_LABELS, value)
    else if field == "education" then Label(EDUCATION_LABELS, value)
    else if field == "nationality" || field == "occupation" then
      TitleCaseShape(value);
      TitleCase(value)
    else value
  }
}
