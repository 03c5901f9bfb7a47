/**
 * A reader for the CSV format of RFC 4180, section 2, as the export writes it:
 * fields are separated by commas, records by a line feed (the export joins lines
 * with LF rather than CRLF, so a carriage return is ordinary field text), and a
 * field that starts with a double quote runs to the next lone double quote, with
 * `""` standing for one quote inside it (rule 7). The reader is strict: a bare
 * field may not contain a quote, and a quoted field must be followed by a comma,
 * a line feed or the end of the input. It exists to state what the serialiser's
 * output means.
 */
module CsvReader {
  import opened Wrappers

  /** The text after a field: empty, or starting with a field or record separator. */
  predicate AtFieldEnd(s: string) {
    s == [] || s[0] == ',' || s[0] == '\n'
  }

  /** The text after a record: empty, or starting with a record separator. */
  predicate AtRecordEnd(s: string) {
    s == [] || s[0] == '\n'
  }

  /** Reads the body of a quoted field (the opening quote already consumed) up to its closing quote. */
  function ReadQuoted(s: string): (r: Option<(string, string)>)
    ensures r.Some? ==> |r.value.1| < |s|
    decreases |s|
  {
    if s == [] then None
    else if s[0] == '"' then
      if |s| >= 2 && s[1] == '"' then
        match ReadQuoted(s[2..])
        case None => None
        case Some((f, rest)) => Some((['"'] + f, rest))
      else Some(([], s[1..]))
    else
      match ReadQuoted(s[1..])
      case None => None
      case Some((f, rest)) => Some(([s[0]] + f, rest))
  }

  /** Reads an unquoted field up to the next separator. */
  function ReadBare(s: string): (r: Option<(string, string)>)
    ensures r.Some? ==> r.value.0 + r.value.1 == s && AtFieldEnd(r.value.1)
  {
    if AtFieldEnd(s) then Some(([], s))
    else if s[0] == '"' then None
    else
      match ReadBare(s[1..])
      case None => None
      case Some((f, rest)) => Some(([s[0]] + f, rest))
  }

  /** Reads one field; the rest of the input starts at the separator that ended it. */
  function ReadField(s: string): (r: Option<(string, string)>)
    ensures r.Some? ==> |r.value.1| <= |s| && AtFieldEnd(r.value.1)
  {
    if s != [] && s[0] == '"' then
      match ReadQuoted(s[1..])
      case None => None
      case Some((f, rest)) => if AtFieldEnd(rest) then Some((f, rest)) else None
    else ReadBare(s)
  }

  /** Reads the comma-separated fields of one record; the rest starts at its line feed. */
  function ReadRecord(s: string): (r: Option<(seq<string>, string)>)
    ensures r.Some? ==> |r.value.0| >= 1 && |r.value.1| <= |s| && AtRecordEnd(r.value.1)
    decreases |s|
  {
    match ReadField(s)
    case None => None
    case Some((f, rest)) =>
      if rest != [] && rest[0] == ',' then
        match ReadRecord(rest[1..])
        case None => None
        case Some((fs, rest')) => Some(([f] + fs, rest'))
      else Some(([f], rest))
  }

  /** Reads records separated by line feeds up to the end of the input. */
  function ReadRecords(s: string): Option<seq<seq<string>>>
    decreases |s|
  {
    match ReadRecord(s)
    case None => None
    case Some((fs, rest)) =>
      if rest == [] then Some([fs])
      else
        match ReadRecords(rest[1..])
        case None => None
        case Some(rs) => Some([fs] + rs)
  }

  /** A whole document: the empty text holds no records. */
  function ReadDocument(s: string): Option<seq<seq<string>>> {
    if s == [] then Some([]) else ReadRecords(s)
  }
}
