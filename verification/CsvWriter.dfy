/**
 * The cell quoting of the export (`escapeCSV`, utils.js) and the guarantee it
 * gives: every line the export writes reads back, through CsvReader, as exactly the
 * texts of the cells that were written, and a document of such lines reads back as
 * exactly its records.
 */
module CsvWriter {
  import opened Wrappers
  import opened JsValues
  import opened JsStrings
  import opened CsvReader

  /** A text must be quoted when it holds a comma, a double quote or a line feed (a carriage return does not count). */
  predicate NeedsQuotes(s: string) {
    ',' in s || '"' in s || '\n' in s
  }

  /** `str.replace(/"/g, '""')`: every double quote doubled, everything else kept. */
  function DoubleQuotes(s: string): string {
    if s == [] then [] else (if s[0] == '"' then "\"\"" else [s[0]]) + DoubleQuotes(s[1..])
  }

  /** The body of a quoted field, read up to the closing quote, gives back the undoubled text. */
  lemma {:induction false} ReadDoubled(s: string, rest: string)
    requires AtFieldEnd(rest)
    ensures ReadQuoted(DoubleQuotes(s) + "\"" + rest) == Some((s, rest))
  {
    if s == [] {
      assert DoubleQuotes(s) + "\"" + rest == ['"'] + rest;
    } else {
      ReadDoubled(s[1..], rest);
      if s[0] == '"' {
        ReadDoubledQuote(s, rest);
      } else {
        ReadDoubledPlain(s, rest);
      }
    }
  }

  lemma ReadDoubledQuote(s: string, rest: string)
    requires s != [] && s[0] == '"'
    requires ReadQuoted(DoubleQuotes(s[1..]) + "\"" + rest) == Some((s[1..], rest))
    ensures ReadQuoted(DoubleQuotes(s) + "\"" + rest) == Some((s, rest))
  {
    var tail := DoubleQuotes(s[1..]) + "\"" + rest;
    assert DoubleQuotes(s) + "\"" + rest == ['"', '"'] + tail;
    ReadEscapedQuote(tail, s[1..], rest);
    assert [s[0]] + s[1..] == s;
  }

  lemma ReadDoubledPlain(s: string, rest: string)
    requires s != [] && s[0] != '"'
    requires ReadQuoted(DoubleQuotes(s[1..]) + "\"" + rest) == Some((s[1..], rest))
    ensures ReadQuoted(DoubleQuotes(s) + "\"" + rest) == Some((s, rest))
  {
    var tail := DoubleQuotes(s[1..]) + "\"" + rest;
    assert DoubleQuotes(s) + "\"" + rest == [s[0]] + tail;
    ReadPlainChar(s[0], tail, s[1..], rest);
    assert [s[0]] + s[1..] == s;
  }

  /** A doubled quote inside a quoted field reads as one quote. */
  lemma ReadEscapedQuote(tail: string, field: string, rest: string)
    requires ReadQuoted(tail) == Some((field, rest))
    ensures ReadQuoted(['"', '"'] + tail) == Some((['"'] + field, rest))
  {
    assert (['"', '"'] + tail)[2..] == tail;
  }

  /** Any other character inside a quoted field reads as itself. */
  lemma ReadPlainChar(c: char, tail: string, field: string, rest: string)
    requires c != '"' && ReadQuoted(tail) == Some((field, rest))
    ensures ReadQuoted([c] + tail) == Some(([c] + field, rest))
  {
    assert ([c] + tail)[1..] == tail;
  }

  /** The text of a value in a cell: `String(value)`, or empty for `null` and `undefined`. */
  function CellText(v: Value): string {
    if IsNullish(v) then "" else ToJsString(v)
  }

  /** Quoting of one text: unchanged when it needs no quotes, otherwise wrapped in double quotes. */
  function EscapeText(s: string): (r: string)
    ensures !NeedsQuotes(s) ==> r == s
    ensures NeedsQuotes(s) ==> |r| >= 2 && r[0] == '"' && r[|r| - 1] == '"'
  {
    if NeedsQuotes(s) then "\"" + DoubleQuotes(s) + "\"" else s
  }

  /** The part of a quoted text after its opening quote reads back as the text, with nothing left over. */
  lemma EscapedReadsBack(s: string)
    requires NeedsQuotes(s)
    ensures ReadQuoted(EscapeText(s)[1..]) == Some((s, ""))
  {
    var q := DoubleQuotes(s) + "\"" + "";
    ReadDoubled(s, "");
    QuotedPrefix(s, "");
    assert EscapeText(s) == "\"" + q;
    assert ("\"" + q)[1..] == q;
  }

  /** `escapeCSV(value)`: the quoted text of the value, and the empty string for `null` and `undefined`. */
  function EscapeCsv(v: Value): (r: string)
    ensures IsNullish(v) ==> r == ""
    ensures r == EscapeText(CellText(v))
  {
    if IsNullish(v) then "" else EscapeText(ToJsString(v))
  }

  lemma {:induction false} ReadBareClean(s: string, rest: string)
    requires !NeedsQuotes(s) && AtFieldEnd(rest)
    ensures ReadBare(s + rest) == Some((s, rest))
  {
    if s == [] {
      assert s + rest == rest;
    } else {
      assert s[0] in s;
      assert !NeedsQuotes(s[1..]) by {
        forall c | c in s[1..] ensures c in s { }
      }
      ReadBareClean(s[1..], rest);
      var whole := s + rest;
      assert whole[0] == s[0] && whole[1..] == s[1..] + rest;
      assert !AtFieldEnd(whole) && whole[0] != '"';
      assert [s[0]] + s[1..] == s;
    }
  }

  /** An escaped text followed by a separator reads back as the text, leaving the separator. */
  lemma ReadEscaped(s: string, rest: string)
    requires AtFieldEnd(rest)
    ensures ReadField(EscapeText(s) + rest) == Some((s, rest))
  {
    if NeedsQuotes(s) {
      var q := DoubleQuotes(s) + "\"" + rest;
      ReadDoubled(s, rest);
      QuotedPrefix(s, rest);
      ReadQuotedField(q, s, rest);
    } else {
      ReadBareField(s, rest);
    }
  }

  lemma QuotedPrefix(s: string, rest: string)
    requires NeedsQuotes(s)
    ensures EscapeText(s) + rest == "\"" + (DoubleQuotes(s) + "\"" + rest)
  {
    assert EscapeText(s) == "\"" + DoubleQuotes(s) + "\"";
  }

  /** A text that needs no quotes, followed by a separator, reads back as a bare field. */
  lemma ReadBareField(s: string, rest: string)
    requires !NeedsQuotes(s) && AtFieldEnd(rest)
    ensures ReadField(s + rest) == Some((s, rest))
  {
    ReadBareClean(s, rest);
    if s != [] {
      assert s[0] in s;
      assert (s + rest)[0] == s[0];
    }
  }

  /** The escaped texts of a record, in order. */
  function EscapeAll(texts: seq<string>): (r: seq<string>)
    ensures |r| == |texts|
    ensures forall i :: 0 <= i < |texts| ==> r[i] == EscapeText(texts[i])
  {
    if texts == [] then [] else [EscapeText(texts[0])] + EscapeAll(texts[1..])
  }

  /** One line of the export: the escaped texts joined by commas. */
  function Line(texts: seq<string>): string {
    Join(",", EscapeAll(texts))
  }

  /** A line reads back as exactly the texts it was written from. */
  lemma {:induction false} ReadLine(texts: seq<string>, rest: string)
    requires |texts| >= 1 && AtRecordEnd(rest)
    ensures ReadRecord(Line(texts) + rest) == Some((texts, rest))
  {
    if |texts| == 1 {
      LineSingle(texts);
      ReadEscaped(texts[0], rest);
      assert [texts[0]] == texts;
    } else {
      var tail := Line(texts[1..]) + rest;
      LineCons(texts, rest);
      ReadEscaped(texts[0], "," + tail);
      ReadLine(texts[1..], rest);
      ReadRecordStep(EscapeText(texts[0]), tail, texts[0], texts[1..], rest);
      assert [texts[0]] + texts[1..] == texts;
    }
  }

  lemma LineSingle(texts: seq<string>)
    requires |texts| == 1
    ensures Line(texts) == EscapeText(texts[0])
  {
  }

  /** A line of two or more texts, followed by `rest`, is the first escaped text, a comma and the line of the others. */
  lemma LineCons(texts: seq<string>, rest: string)
    requires |texts| >= 2
    ensures Line(texts) + rest == EscapeText(texts[0]) + ("," + (Line(texts[1..]) + rest))
  {
    var es := EscapeAll(texts);
    assert es[1..] == EscapeAll(texts[1..]);
    assert Line(texts) == es[0] + "," + Line(texts[1..]);
  }

  /** The lines of a document, one per record. */
  function Lines(records: seq<seq<string>>): (r: seq<string>)
    ensures |r| == |records|
    ensures forall i :: 0 <= i < |records| ==> r[i] == Line(records[i])
  {
    if records == [] then [] else [Line(records[0])] + Lines(records[1..])
  }

  /** A document: its lines joined by line feeds. */
  function Document(records: seq<seq<string>>): string {
    Join("\n", Lines(records))
  }

  predicate NoEmptyRecord(records: seq<seq<string>>) {
    forall i :: 0 <= i < |records| ==> |records[i]| >= 1
  }

  /** A document of non-empty records reads back record by record. */
  lemma {:induction false} ReadLines(records: seq<seq<string>>)
    requires |records| >= 1 && NoEmptyRecord(records)
    ensures ReadRecords(Document(records)) == Some(records)
  {
    if |records| == 1 {
      ReadLine(records[0], "");
      DocumentSingle(records);
      assert [records[0]] == records;
    } else {
      var tail := Document(records[1..]);
      DocumentCons(records);
      ReadLine(records[0], "\n" + tail);
      NoEmptyRest(records);
      ReadLines(records[1..]);
      ReadRecordsStep(Line(records[0]), tail, records[0], records[1..]);
      assert [records[0]] + records[1..] == records;
    }
  }

  lemma DocumentSingle(records: seq<seq<string>>)
    requires |records| == 1
    ensures Document(records) == Line(records[0]) + ""
  {
  }

  /** A document of two or more records is its first line, a line feed and the document of the rest. */
  lemma DocumentCons(records: seq<seq<string>>)
    requires |records| >= 2
    ensures Document(records) == Line(records[0]) + ("\n" + Document(records[1..]))
  {
    var ls := Lines(records);
    assert ls[1..] == Lines(records[1..]);
    assert Document(records) == ls[0] + "\n" + Document(records[1..]);
  }

  lemma NoEmptyRest(records: seq<seq<string>>)
    requires |records| >= 1 && NoEmptyRecord(records)
    ensures NoEmptyRecord(records[1..])
  {
    forall i | 0 <= i < |records[1..]| ensures |records[1..][i]| >= 1 {
      assert records[1..][i] == records[i + 1];
    }
  }

  /** A quote followed by a quoted body that ends at a separator reads as the body's text. */
  lemma ReadQuotedField(q: string, field: string, rest: string)
    requires ReadQuoted(q) == Some((field, rest)) && AtFieldEnd(rest)
    ensures ReadField("\"" + q) == Some((field, rest))
  {
    assert ("\"" + q)[1..] == q;
  }

  /** A field followed by a comma and a further record reads as that field and the record's fields. */
  lemma ReadRecordStep(text: string, tail: string, field: string, fields: seq<string>, rest: string)
    requires ReadField(text + ("," + tail)) == Some((field, "," + tail))
    requires ReadRecord(tail) == Some((fields, rest))
    ensures ReadRecord(text + ("," + tail)) == Some(([field] + fields, rest))
  {
    assert ("," + tail)[1..] == tail;
  }

  /** A record followed by a line feed and further records reads as that record and the rest. */
  lemma ReadRecordsStep(line: string, tail: string, fields: seq<string>, records: seq<seq<string>>)
    requires ReadRecord(line + ("\n" + tail)) == Some((fields, "\n" + tail))
    requires ReadRecords(tail) == Some(records)
    ensures ReadRecords(line + ("\n" + tail)) == Some([fields] + records)
  {
    assert ("\n" + tail)[1..] == tail;
  }

  /**
   * Round trip of the whole format: a document of at least two non-empty records
   * (a header and one row, say) reads back as exactly those records, in order.
   */
  lemma DocumentRoundTrip(records: seq<seq<string>>)
    requires |records| >= 2 && NoEmptyRecord(records)
    ensures ReadDocument(Document(records)) == Some(records)
  {
    ReadLines(records);
    var ls := Lines(records);
    assert Document(records) == ls[0] + "\n" + Join("\n", ls[1..]);
  }
}
