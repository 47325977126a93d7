/** The parser of configuration files. */
module Config {
  import opened Wrappers

  /** A place in the input, and what the parser calls its line and column. */
  datatype Where = Where(cur: nat, line: nat, col: nat)

  datatype Fault =
    | UnexpectedEnd
    | ExpectedEquals(found: char)
    | ExpectedEndOfLine(found: char)

  datatype Entry = Entry(name: string, value: string)

  // ---------- characters ----------

  predicate IsVarid(c: char) {
    c == '-' || c == '_' || '0' <= c <= '9' || 'A' <= c <= 'Z' || 'a' <= c <= 'z'
  }

  predicate IsBlank(c: char) {
    c == ' ' || c == '\t'
  }

  predicate IsNewline(c: char) {
    c == '\n' || c == '\r'
  }

  predicate OnLine(c: char) {
    !IsNewline(c)
  }

  predicate InSingleValue(c: char) {
    !IsNewline(c) && c != '#'
  }

  /** The end of the longest stretch from `p` of characters to keep. */
  function Span(s: string, p: nat, keep: char -> bool): (e: nat)
    requires p <= |s|
    ensures p <= e <= |s| && (e < |s| ==> !keep(s[e]))
    decreases |s| - p
  {
    if p < |s| && keep(s[p]) then Span(s, p + 1, keep) else p
  }

  /** Without trailing white space. */
  function Trimmed(s: string): (r: string)
    ensures |r| <= |s| && r == s[..|r|]
  {
    if s != "" && (IsBlank(s[|s| - 1]) || IsNewline(s[|s| - 1])) then Trimmed(s[..|s| - 1]) else s
  }

  // ---------- the rules ----------

  /** Advanced along a line. */
  function To(w: Where, p: nat): Where
    requires w.cur <= p
  {
    Where(p, w.line, w.col + (p - w.cur))
  }

  function SkipWs(s: string, w: Where): (r: Where)
    requires w.cur <= |s|
    ensures w.cur <= r.cur <= |s|
  {
    To(w, Span(s, w.cur, IsBlank))
  }

  function AfterNewline(s: string, w: Where): (r: Where)
    requires w.cur < |s|
    ensures w.cur < r.cur <= |s|
  {
    var crLf := s[w.cur] == '\r' && w.cur + 1 < |s| && s[w.cur + 1] == '\n';
    Where(w.cur + if crLf then 2 else 1, w.line + 1, 1)
  }

  /** Where the first `?>` is; or the end of the input, or a question mark just before it. */
  function Closing(s: string, w: Where): (r: Result<Where, Where>)
    requires w.cur <= |s|
    ensures r.Ok? ==> w.cur <= r.value.cur && r.value.cur + 2 <= |s|
    ensures r.Err? ==> w.cur <= r.error.cur <= |s|
    decreases |s| - w.cur
  {
    if w.cur == |s| || (s[w.cur] == '?' && w.cur + 1 == |s|) then Err(w)
    else if s[w.cur] == '?' && s[w.cur + 1] == '>' then Ok(w)
    else Closing(s, if s[w.cur] == '\n' then Where(w.cur + 1, w.line + 1, 1) else To(w, w.cur + 1))
  }

  /** What a rule did: where it ended, what it inserted, and what was wrong there. */
  datatype Turn = Turn(where: Where, entry: Option<Entry>, fault: Option<Fault>)

  predicate IsMulti(s: string, p: nat) {
    p + 1 < |s| && s[p] == '<' && s[p + 1] == '?'
  }

  function Value(s: string, w: Where, name: string): (r: Turn)
    requires w.cur < |s|
    ensures w.cur <= r.where.cur <= |s|
  {
    if IsMulti(s, w.cur) then
      match Closing(s, To(w, w.cur + 2))
      case Ok(end) => Turn(SkipWs(s, To(end, end.cur + 2)), Some(Entry(name, s[w.cur + 2..end.cur])), None)
      case Err(at) => Turn(at, None, Some(UnexpectedEnd))
    else
      var end := To(w, Span(s, w.cur, InSingleValue));
      Turn(end, Some(Entry(name, Trimmed(s[w.cur..end.cur]))), None)
  }

  function Assign(s: string, w: Where): (r: Turn)
    requires w.cur < |s|
    ensures w.cur <= r.where.cur <= |s|
  {
    var w1 := To(w, Span(s, w.cur, IsVarid));
    var name := s[w.cur..w1.cur];
    var w2 := SkipWs(s, w1);
    if w2.cur == |s| then Turn(w2, None, Some(UnexpectedEnd))
    else if s[w2.cur] != '=' then Turn(w2, None, Some(ExpectedEquals(s[w2.cur])))
    else
      var w3 := SkipWs(s, To(w2, w2.cur + 1));
      if w3.cur == |s| then Turn(w3, Some(Entry(name, "")), None) else Value(s, w3, name)
  }

  /** What may follow an assignment: a comment, and the end of the line. */
  function Tail(s: string, w: Where): (r: Turn)
    requires w.cur < |s|
    ensures w.cur <= r.where.cur <= |s| && (r.fault == None ==> w.cur < r.where.cur)
  {
    var w1 := if s[w.cur] == '#' then To(w, Span(s, w.cur, OnLine)) else w;
    if w1.cur == |s| then Turn(w1, None, None)
    else if !IsNewline(s[w1.cur]) then Turn(w1, None, Some(ExpectedEndOfLine(s[w1.cur])))
    else Turn(AfterNewline(s, w1), None, None)
  }

  function Line(s: string, w: Where): (r: Turn)
    requires w.cur < |s|
    ensures w.cur <= r.where.cur <= |s| && (r.fault == None ==> w.cur < r.where.cur)
  {
    var w1 := SkipWs(s, w);
    var a := if w1.cur < |s| && IsVarid(s[w1.cur]) then Assign(s, w1) else Turn(w1, None, None);
    if a.fault != None || a.where.cur == |s| then a else Tail(s, a.where).(entry := a.entry)
  }

  /** All insertions made, and the fault that ended it, if any, with its place. */
  datatype Outcome = Outcome(entries: seq<Entry>, where: Where, fault: Option<Fault>)

  function Inserted(entries: seq<Entry>, entry: Option<Entry>): seq<Entry> {
    if entry.Some? then entries + [entry.value] else entries
  }

  function Lines(s: string, w: Where, entries: seq<Entry>): Outcome
    requires w.cur <= |s|
    decreases |s| - w.cur
  {
    if w.cur == |s| then Outcome(entries, w, None)
    else
      var t := Line(s, w);
      if t.fault != None then Outcome(Inserted(entries, t.entry), t.where, t.fault)
      else Lines(s, t.where, Inserted(entries, t.entry))
  }

  /** The parser counts lines, and the columns of the first line, from zero. */
  const BEGIN := Where(0, 0, 0)

  function Parsed(s: string): Outcome {
    Lines(s, BEGIN, [])
  }

  // ---------- the parser ----------

  /** What is thrown. */
  datatype ParseError = ParseError(fault: Fault, line: nat, col: nat)

  function Thrown(o: Outcome): Option<ParseError> {
    if o.fault == None then None else Some(ParseError(o.fault.value, o.where.line, o.where.col))
  }

  class ConfigParser {
    const text: string
    var cur: nat
    var line: nat
    var col: nat
    /** What the inserter has been called with. */
    var inserted: seq<Entry>

    ghost predicate Valid()
      reads this
    {
      cur <= |text|
    }

    ghost function Here(): Where
      reads this
    {
      Where(cur, line, col)
    }

    constructor (text: string)
      ensures Valid() && this.text == text && Here() == BEGIN && inserted == []
    {
      this.text := text;
      cur, line, col := 0, 0, 0;
      inserted := [];
    }

    /** A rule method did what the rule function says. */
    ghost predicate Did(t: Turn, before: seq<Entry>, error: Option<ParseError>)
      reads this
    {
      inserted == Inserted(before, t.entry)
      && match t.fault
         case None => error == None && Here() == t.where
         case Some(fault) => error == Some(ParseError(fault, t.where.line, t.where.col))
    }

    method Advance(distance: nat)
      requires Valid() && cur + distance <= |text|
      modifies this`cur, this`col
      ensures Valid() && Here() == To(old(Here()), old(cur) + distance)
    {
      cur := cur + distance;
      col := col + distance;
    }

    method RuleSkipWs()
      requires Valid()
      modifies this`cur, this`col
      ensures Valid() && Here() == SkipWs(text, old(Here()))
    {
      while cur != |text| && IsBlank(text[cur])
        invariant Valid() && old(cur) <= cur && col == old(col) + (cur - old(cur))
        invariant Span(text, cur, IsBlank) == Span(text, old(cur), IsBlank)
        decreases |text| - cur
      {
        Advance(1);
      }
    }

    method NextLine()
      requires Valid() && cur != |text| && IsNewline(text[cur])
      modifies this`cur, this`line, this`col
      ensures Valid() && Here() == AfterNewline(text, old(Here()))
    {
      if text[cur] == '\r' {
        cur := cur + 1;
        if cur != |text| && text[cur] == '\n' { cur := cur + 1; }
      } else {
        cur := cur + 1;
      }
      line := line + 1;
      col := 1;
    }

    method RuleComment()
      requires Valid() && cur != |text| && text[cur] == '#'
      modifies this`cur, this`col
      ensures Valid() && Here() == To(old(Here()), Span(text, old(cur), OnLine))
    {
      while cur != |text| && !IsNewline(text[cur])
        invariant Valid() && old(cur) <= cur && col == old(col) + (cur - old(cur))
        invariant Span(text, cur, OnLine) == Span(text, old(cur), OnLine)
        decreases |text| - cur
      {
        Advance(1);
      }
    }

    method RuleVarid() returns (name: string)
      requires Valid() && cur != |text| && IsVarid(text[cur])
      modifies this`cur, this`col
      ensures Valid() && Here() == To(old(Here()), Span(text, old(cur), IsVarid))
      ensures name == text[old(cur)..cur]
    {
      var len := 0;
      while cur + len < |text| && IsVarid(text[cur + len])
        invariant cur + len <= |text|
        invariant Span(text, cur + len, IsVarid) == Span(text, cur, IsVarid)
        decreases |text| - len
      {
        len := len + 1;
      }
      name := text[cur..cur + len];
      Advance(len);
    }

    /** The length of a multi line value, and the line and column where it ends; or, when the input ends
        first, of what there is. */
    method MultiLength() returns (len: nat, endLine: nat, endCol: nat, closed: bool)
      requires Valid()
      ensures cur + len <= |text|
      ensures Closing(text, Here())
           == if closed then Ok(Where(cur + len, endLine, endCol)) else Err(Where(cur + len, endLine, endCol))
    {
      len, endLine, endCol := 0, line, col;
      while true
        invariant cur + len <= |text|
        invariant Closing(text, Where(cur + len, endLine, endCol)) == Closing(text, Here())
        decreases |text| - len
      {
        if cur + len == |text| { return len, endLine, endCol, false; }
        if text[cur + len] == '?' {
          if cur + len + 1 == |text| {
            return len, endLine, endCol, false;
          } else if text[cur + len + 1] == '>' {
            return len, endLine, endCol, true;
          }
        }
        if text[cur + len] == '\n' {
          len, endLine, endCol := len + 1, endLine + 1, 1;
        } else {
          len, endCol := len + 1, endCol + 1;
        }
      }
    }

    /** The length of a single line value. */
    method SingleLength() returns (len: nat)
      requires Valid()
      ensures cur + len == Span(text, cur, InSingleValue)
    {
      len := 0;
      while cur + len != |text| && InSingleValue(text[cur + len])
        invariant cur + len <= |text|
        invariant Span(text, cur + len, InSingleValue) == Span(text, cur, InSingleValue)
        decreases |text| - len
      {
        len := len + 1;
      }
    }

    method RuleValue(ghost name: string) returns (value: string, error: Option<ParseError>)
      requires Valid() && cur != |text|
      modifies this`cur, this`line, this`col
      ensures Valid()
      ensures var t := Value(text, old(Here()), name);
        match t.fault
        case None => error == None && t.entry == Some(Entry(name, value)) && Here() == t.where
        case Some(fault) => error == Some(ParseError(fault, t.where.line, t.where.col)) && t.entry == None
    {
      hide SkipWs, Closing, Span, Trimmed;
      if text[cur] == '<' && cur + 1 != |text| && text[cur + 1] == '?' {
        Advance(2);
        var len, endLine, endCol, closed := MultiLength();
        if !closed {
          line, col := endLine, endCol;
          return "", Some(ParseError(UnexpectedEnd, line, col));
        }
        value, error := text[cur..cur + len], None;
        cur := cur + len + 2;
        line, col := endLine, endCol + 2;
        RuleSkipWs();
      } else {
        var len := SingleLength();
        value, error := Trimmed(text[cur..cur + len]), None;
        Advance(len);
      }
    }

    method RuleAssign() returns (error: Option<ParseError>)
      requires Valid() && cur != |text| && IsVarid(text[cur])
      modifies this
      ensures Valid()
      ensures Did(Assign(text, old(Here())), old(inserted), error)
    {
      hide Value, SkipWs;
      var name := RuleVarid();
      RuleSkipWs();
      if cur == |text| { return Some(ParseError(UnexpectedEnd, line, col)); }
      if text[cur] != '=' { return Some(ParseError(ExpectedEquals(text[cur]), line, col)); }
      Advance(1);
      RuleSkipWs();
      var value := "";
      if cur != |text| {
        value, error := RuleValue(name);
        if error.Some? { return; }
      }
      inserted := inserted + [Entry(name, value)];
      return None;
    }

    /** One turn of the loop over the lines. */
    method ParseLine() returns (error: Option<ParseError>)
      requires Valid() && cur != |text|
      modifies this
      ensures Valid()
      ensures Did(Line(text, old(Here())), old(inserted), error)
    {
      hide Assign, SkipWs, AfterNewline, Span;
      RuleSkipWs();
      if cur == |text| { return None; }
      if IsVarid(text[cur]) {
        error := RuleAssign();
        if error.Some? { return; }
      }
      if cur == |text| { return None; }
      if text[cur] == '#' { RuleComment(); }
      if cur == |text| { return None; }
      if !IsNewline(text[cur]) { return Some(ParseError(ExpectedEndOfLine(text[cur]), line, col)); }
      NextLine();
      return None;
    }

    method Parse() returns (error: Option<ParseError>)
      requires Valid() && Here() == BEGIN && inserted == []
      modifies this
      ensures inserted == Parsed(text).entries && error == Thrown(Parsed(text))
      ensures error == None ==> cur == |text| && Here() == Parsed(text).where
    {
      hide Line;
      while cur != |text|
        invariant Valid()
        invariant Lines(text, Here(), inserted) == Parsed(text)
        decreases |text| - cur
      {
        error := ParseLine();
        if error.Some? { return; }
      }
      return None;
    }
  }
}
