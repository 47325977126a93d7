/** The reader of comma separated files. */
module Csv {
  import opened Wrappers

  datatype Format = Format(separator: char, quote: char)

  /** What the reader relies on: the two characters differ and neither ends a record. */
  predicate Usable(f: Format) {
    f.separator != f.quote
    && f.separator != '\r' && f.separator != '\n' && f.quote != '\r' && f.quote != '\n'
  }

  datatype Error =
    | LineEnding
    | UnexpectedQuote
    | UnexpectedEnd
    | ExpectedSeparator(got: char)
    | WrongNumberOfFields

  /** Errors in the header carry no record number; data records are counted from one. */
  datatype Failure = InHeader(error: Error) | InRecord(error: Error, number: nat)

  /** What was read from a position, and the position after it. */
  datatype Outcome<T> = Got(value: T, next: nat) | Bad(error: Error)

  type Row = seq<string>

  // ---------- what is read from a position ----------

  predicate EndOfRecord(s: string, p: nat) {
    p >= |s| || s[p] == '\r' || s[p] == '\n'
  }

  function Newline(s: string, p: nat): Outcome<()> {
    if p >= |s| then Got((), p)
    else if s[p] == '\r' then if p + 1 < |s| && s[p + 1] == '\n' then Got((), p + 2) else Bad(LineEnding)
    else if s[p] == '\n' then Got((), p + 1)
    else Bad(LineEnding)
  }

  function Plain(f: Format, s: string, p: nat, acc: string): (r: Outcome<string>)
    requires p <= |s|
    ensures r.Got? ==> p <= r.next <= |s|
    decreases |s| - p
  {
    if EndOfRecord(s, p) || s[p] == f.separator then Got(acc, p)
    else if s[p] == f.quote then Bad(UnexpectedQuote)
    else Plain(f, s, p + 1, acc + [s[p]])
  }

  /** From the character after the opening quote. */
  function Quoted(f: Format, s: string, p: nat, acc: string): (r: Outcome<string>)
    requires p <= |s|
    ensures r.Got? ==> p < r.next <= |s|
    decreases |s| - p
  {
    if p == |s| then Bad(UnexpectedEnd)
    else if s[p] != f.quote then Quoted(f, s, p + 1, acc + [s[p]])
    else if p + 1 < |s| && s[p + 1] == f.quote then Quoted(f, s, p + 2, acc + [f.quote])
    else Got(acc, p + 1)
  }

  function Field(f: Format, s: string, p: nat): (r: Outcome<string>)
    requires p <= |s|
    ensures r.Got? ==> p <= r.next <= |s|
  {
    if EndOfRecord(s, p) then Got("", p)
    else if s[p] == f.quote then Quoted(f, s, p + 1, "")
    else Plain(f, s, p, "")
  }

  /** The rest of a record of which `acc` has been read. */
  function Fields(f: Format, s: string, p: nat, acc: Row): (r: Outcome<Row>)
    requires p <= |s|
    ensures r.Got? ==> p <= r.next <= |s| && (p < |s| ==> p < r.next)
    decreases |s| - p
  {
    if EndOfRecord(s, p) then
      match Newline(s, p)
      case Got(_, next) => Got(acc, next)
      case Bad(e) => Bad(e)
    else if s[p] != f.separator then Bad(ExpectedSeparator(s[p]))
    else
      match Field(f, s, p + 1)
      case Got(value, next) => Fields(f, s, next, acc + [value])
      case Bad(e) => Bad(e)
  }

  function Record(f: Format, s: string, p: nat): (r: Outcome<Row>)
    requires p <= |s|
    ensures r.Got? ==> p <= r.next <= |s| && (p < |s| ==> p < r.next)
  {
    match Field(f, s, p)
    case Got(value, next) => Fields(f, s, next, [value])
    case Bad(e) => Bad(e)
  }

  function Records(f: Format, s: string, p: nat, width: nat, acc: seq<Row>): Result<seq<Row>, Failure>
    requires p <= |s|
    decreases |s| - p
  {
    if p == |s| then Ok(acc)
    else
      match Record(f, s, p)
      case Got(row, next) =>
        if |row| != width then Err(InRecord(WrongNumberOfFields, |acc| + 1))
        else Records(f, s, next, width, acc + [row])
      case Bad(e) => Err(InRecord(e, |acc| + 1))
  }

  /** The three bytes of a UTF-8 byte order mark. */
  const BOM: string := ['\U{EF}', '\U{BB}', '\U{BF}']

  function StripBom(s: string): string {
    if |s| >= 3 && s[..3] == BOM then s[3..] else s
  }

  function StripFirst(row: Row): Row {
    if row == [] then [] else [StripBom(row[0])] + row[1..]
  }

  datatype Table = Table(header: Row, data: seq<Row>)

  function Loaded(f: Format, s: string): Result<Table, Failure> {
    match Record(f, s, 0)
    case Bad(e) => Err(InHeader(e))
    case Got(header, next) =>
      match Records(f, s, next, |header|, [])
      case Ok(rows) => Ok(Table(StripFirst(header), rows))
      case Err(e) => Err(e)
  }

  // ---------- the reader ----------

  /** An input stream over some text. */
  class Stream {
    const text: string
    var pos: nat

    ghost predicate Valid()
      reads this
    {
      pos <= |text|
    }

    constructor (text: string)
      ensures Valid() && this.text == text && pos == 0
    {
      this.text := text;
      pos := 0;
    }

    function Peek(): Option<char>
      requires Valid()
      reads this
    {
      if pos < |text| then Some(text[pos]) else None
    }

    method Get() returns (c: Option<char>)
      requires Valid()
      modifies this
      ensures Valid()
      ensures c == old(Peek())
      ensures pos == old(pos) + if c.Some? then 1 else 0
    {
      c := Peek();
      if c.Some? { pos := pos + 1; }
    }

    predicate AtEndOfRecord()
      requires Valid()
      reads this
    {
      EndOfRecord(text, pos)
    }

    method EatNewline() returns (bad: bool)
      requires Valid()
      modifies this
      ensures Valid()
      ensures bad == Newline(text, old(pos)).Bad?
      ensures !bad ==> pos == Newline(text, old(pos)).next
    {
      bad := false;
      var ch := Get();
      if ch == Some('\r') {
        ch := Get();
        if ch != Some('\n') { bad := true; }
      } else if ch != None && ch != Some('\n') {
        bad := true;
      }
    }

    method ParseNonEscapedField(f: Format) returns (r: Result<string, Error>)
      requires Valid()
      modifies this
      ensures Valid()
      ensures Agrees(r, Plain(f, text, old(pos), ""), pos)
    {
      var field := "";
      while !AtEndOfRecord() && Peek() != Some(f.separator)
        invariant Valid()
        invariant Plain(f, text, pos, field) == Plain(f, text, old(pos), "")
        decreases |text| - pos
      {
        if Peek() == Some(f.quote) { return Err(UnexpectedQuote); }
        var ch := Get();
        field := field + [ch.value];
      }
      return Ok(field);
    }

    method ParseEscapedField(f: Format) returns (r: Result<string, Error>)
      requires Valid() && Peek() == Some(f.quote)
      modifies this
      ensures Valid()
      ensures Agrees(r, Quoted(f, text, old(pos) + 1, ""), pos)
    {
      var ch := Get();
      var field := "";
      while ch != None
        invariant Valid() && (ch != None || pos == |text|)
        invariant Quoted(f, text, pos, field) == Quoted(f, text, old(pos) + 1, "")
        decreases |text| - pos, ch != None
      {
        ch := Get();
        if ch == Some(f.quote) {
          if Peek() == Some(f.quote) {
            var _ := Get();
            field := field + [ch.value];
          } else {
            return Ok(field);
          }
        } else if ch != None {
          field := field + [ch.value];
        }
      }
      return Err(UnexpectedEnd);
    }

    method ParseField(f: Format) returns (r: Result<string, Error>)
      requires Valid()
      modifies this
      ensures Valid()
      ensures Agrees(r, Field(f, text, old(pos)), pos)
    {
      if AtEndOfRecord() { return Ok(""); }
      if Peek() == Some(f.quote) {
        r := ParseEscapedField(f);
      } else {
        r := ParseNonEscapedField(f);
      }
    }

    method ParseRecord(f: Format) returns (r: Result<Row, Error>)
      requires Valid()
      modifies this
      ensures Valid()
      ensures Agrees(r, Record(f, text, old(pos)), pos)
    {
      hide Field;
      var field := ParseField(f);
      if field.Err? { return Err(field.error); }
      var row := [field.value];
      while !AtEndOfRecord()
        invariant Valid()
        invariant Fields(f, text, pos, row) == Record(f, text, old(pos))
        decreases |text| - pos
      {
        var ch := Get();
        if ch != Some(f.separator) { return Err(ExpectedSeparator(ch.value)); }
        field := ParseField(f);
        if field.Err? { return Err(field.error); }
        row := row + [field.value];
      }
      var bad := EatNewline();
      if bad { return Err(LineEnding); }
      return Ok(row);
    }
  }

  /** A reading method did what the function says, and stands where it says. */
  ghost predicate Agrees<T>(r: Result<T, Error>, o: Outcome<T>, pos: nat) {
    match o
    case Got(value, next) => r == Ok(value) && pos == next
    case Bad(e) => r == Err(e)
  }

  class CsvFile {
    const format: Format
    var header: Row
    var data: seq<Row>

    constructor (format: Format)
      ensures this.format == format && header == [] && data == []
    {
      this.format := format;
      header, data := [], [];
    }

    method Load(stream: Stream) returns (failure: Option<Failure>)
      requires stream.Valid() && stream.pos == 0 && data == []
      modifies this, stream
      ensures match Loaded(format, stream.text)
              case Ok(table) => failure == None && table == Table(header, data)
              case Err(e) => failure == Some(e)
    {
      hide Record;
      var first := stream.ParseRecord(format);
      if first.Err? { return Some(InHeader(first.error)); }
      header := first.value;
      if header != [] { header := header[0 := StripBom(header[0])]; }
      assert header == StripFirst(first.value);
      ghost var all := Records(format, stream.text, stream.pos, |header|, []);
      while stream.Peek() != None
        invariant stream.Valid() && header == StripFirst(first.value)
        invariant Records(format, stream.text, stream.pos, |header|, data) == all
        decreases |stream.text| - stream.pos
      {
        var number := |data| + 1;
        var row := stream.ParseRecord(format);
        if row.Err? { return Some(InRecord(row.error, number)); }
        data := data + [row.value];
        if |data[|data| - 1]| != |header| { return Some(InRecord(WrongNumberOfFields, number)); }
      }
      return None;
    }
  }
}
