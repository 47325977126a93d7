/** Escaping of values for JSON strings, and the removal of trailing commas. */
module JsonText {
  import opened Wrappers

  // ---------- escaping ----------

  function HexDigit(n: nat): char
    requires n < 16
  {
    if n < 10 then '0' + n as char else 'a' + (n - 10) as char
  }

  function EscapeChar(c: char): string {
    if c == '"' then ['\\', '"']
    else if c == '\\' then ['\\', '\\']
    else if c == 0x08 as char then ['\\', 'b']
    else if c == 0x0c as char then ['\\', 'f']
    else if c == '\n' then ['\\', 'n']
    else if c == '\r' then ['\\', 'r']
    else if c == '\t' then ['\\', 't']
    else if c <= 0x1f as char then ['\\', 'u', '0', '0', HexDigit(c as int / 16), HexDigit(c as int % 16)]
    else [c]
  }

  function Escape(s: string): string {
    if s == "" then "" else EscapeChar(s[0]) + Escape(s[1..])
  }

  method JsonStringEscape(s: string) returns (o: string)
    ensures o == Escape(s)
  {
    o := "";
    for i := 0 to |s|
      invariant o + Escape(s[i..]) == Escape(s)
    {
      assert s[i..][0] == s[i] && s[i..][1..] == s[i + 1..];
      EscapeFrom(s, i);
      o := o + EscapeChar(s[i]);
    }
    assert s[|s|..] == "" && o + "" == o;
  }

  lemma EscapeFrom(s: string, i: nat)
    requires i < |s|
    ensures Escape(s[i..]) == EscapeChar(s[i]) + Escape(s[i + 1..])
  {
    assert s[i..][0] == s[i] && s[i..][1..] == s[i + 1..];
  }

  // ---------- the contents of a JSON string, section 7 of RFC 8259 ----------

  function HexValue(c: char): Option<nat> {
    if '0' <= c <= '9' then Some(c as int - '0' as int)
    else if 'a' <= c <= 'f' then Some(c as int - 'a' as int + 10)
    else if 'A' <= c <= 'F' then Some(c as int - 'A' as int + 10)
    else None
  }

  function FourHex(s: string): Option<nat> {
    if |s| < 4 then None
    else
      match (HexValue(s[0]), HexValue(s[1]), HexValue(s[2]), HexValue(s[3]))
      case (Some(a), Some(b), Some(c), Some(d)) => Some(((a * 16 + b) * 16 + c) * 16 + d)
      case _ => None
  }

  function ShortEscape(c: char): Option<char> {
    if c == '"' || c == '\\' || c == '/' then Some(c)
    else if c == 'b' then Some(0x08 as char)
    else if c == 'f' then Some(0x0c as char)
    else if c == 'n' then Some('\n')
    else if c == 'r' then Some('\r')
    else if c == 't' then Some('\t')
    else None
  }

  predicate HighSurrogate(n: nat) { 0xD800 <= n < 0xDC00 }

  predicate LowSurrogate(n: nat) { 0xDC00 <= n < 0xE000 }

  /** The first character of the string contents, and how much of the text stands for it. */
  function FirstUnescaped(s: string): (r: Option<(char, nat)>)
    requires s != ""
    ensures r.Some? ==> 0 < r.value.1 <= |s|
  {
    if s[0] == '"' || s[0] < ' ' then None
    else if s[0] != '\\' then Some((s[0], 1))
    else if |s| < 2 then None
    else if s[1] != 'u' then
      match ShortEscape(s[1])
      case None => None
      case Some(c) => Some((c, 2))
    else
      match FourHex(s[2..])
      case None => None
      case Some(n) =>
        if HighSurrogate(n) then
          if |s| >= 12 && s[6] == '\\' && s[7] == 'u' && FourHex(s[8..]).Some?
              && LowSurrogate(FourHex(s[8..]).value) then
            Some(((0x10000 + (n - 0xD800) * 0x400 + (FourHex(s[8..]).value - 0xDC00)) as char, 12))
          else None
        else if n < 0x10000 && !LowSurrogate(n) then Some((n as char, 6))
        else None
  }

  function Unescape(s: string): Option<string> {
    if s == "" then Some("")
    else
      match FirstUnescaped(s)
      case None => None
      case Some((c, n)) =>
        match Unescape(s[n..])
        case None => None
        case Some(rest) => Some([c] + rest)
  }

  lemma FirstOfEscaped(c: char, rest: string)
    ensures FirstUnescaped(EscapeChar(c) + rest) == Some((c, |EscapeChar(c)|))
  {
    var s := EscapeChar(c) + rest;
    if |EscapeChar(c)| == 6 {
      assert s[2..][0] == '0' && s[2..][1] == '0' && s[2..][2] == HexDigit(c as int / 16)
          && s[2..][3] == HexDigit(c as int % 16);
      assert FourHex(s[2..]) == Some(c as int);
    }
  }

  /** A JSON reader gets back exactly the value that was escaped. */
  lemma {:induction false} EscapeRoundTrip(s: string)
    ensures Unescape(Escape(s)) == Some(s)
  {
    hide FirstUnescaped, EscapeChar;
    if s != "" {
      var e, rest := EscapeChar(s[0]), Escape(s[1..]);
      FirstOfEscaped(s[0], rest);
      EscapeRoundTrip(s[1..]);
      EscapedNotEmpty(s[0]);
      assert (e + rest)[|e|..] == rest;
      assert s == [s[0]] + s[1..];
    }
  }

  lemma EscapedNotEmpty(c: char)
    ensures EscapeChar(c) != ""
  {
  }

  lemma NoShorterSpelling(s: string)
    requires s != "" && FirstUnescaped(s).Some?
    ensures |EscapeChar(FirstUnescaped(s).value.0)| <= FirstUnescaped(s).value.1
  {
  }

  /** Nothing is escaped that need not be, nor at more length: no JSON text for a value is shorter. */
  lemma {:induction false} EscapeIsShortest(s: string)
    requires Unescape(s).Some?
    ensures |Escape(Unescape(s).value)| <= |s|
    decreases |s|
  {
    hide FirstUnescaped, EscapeChar;
    if s != "" {
      var (c, n) := FirstUnescaped(s).value;
      NoShorterSpelling(s);
      EscapeIsShortest(s[n..]);
      assert ([c] + Unescape(s[n..]).value)[1..] == Unescape(s[n..]).value;
    }
  }

  // ---------- where string literals are ----------

  datatype Mode = Outside | Inside | Escaping

  function Next(m: Mode, c: char): Mode {
    match m
    case Outside => if c == '"' then Inside else Outside
    case Inside => if c == '"' then Outside else if c == '\\' then Escaping else Inside
    case Escaping => Inside
  }

  /** The mode in which the character at position `i` is met. */
  function ModeAt(s: string, i: nat): Mode
    requires i <= |s|
  {
    if i == 0 then Outside else Next(ModeAt(s, i - 1), s[i - 1])
  }

  /** The mode after some text, when it is entered in mode `m`. */
  function ModeAfter(m: Mode, s: string): Mode
    decreases |s|
  {
    if s == "" then m else ModeAfter(Next(m, s[0]), s[1..])
  }

  lemma {:induction false} ModeAtAppend(a: string, b: string, i: nat)
    requires i <= |b|
    ensures ModeAt(a + b, |a| + i) == ModeAfter(ModeAt(a + b, |a|), b[..i])
  {
    if i > 0 {
      ModeAtAppend(a, b, i - 1);
      ModeAfterSnoc(ModeAt(a + b, |a|), b[..i - 1], b[i - 1]);
      assert b[..i] == b[..i - 1] + [b[i - 1]];
    }
  }

  lemma {:induction false} ModeAfterSnoc(m: Mode, s: string, c: char)
    ensures ModeAfter(m, s + [c]) == Next(ModeAfter(m, s), c)
    decreases |s|
  {
    if s != "" {
      assert (s + [c])[1..] == s[1..] + [c];
      ModeAfterSnoc(Next(m, s[0]), s[1..], c);
    }
  }

  lemma {:induction false} ModeAfterAppend(m: Mode, a: string, b: string)
    ensures ModeAfter(m, a + b) == ModeAfter(ModeAfter(m, a), b)
    decreases |a|
  {
    if a == "" {
      assert a + b == b;
    } else {
      assert (a + b)[1..] == a[1..] + b;
      ModeAfterAppend(Next(m, a[0]), a[1..], b);
    }
  }

  /** Inside a literal an escaped character ends inside it again, and never passes the outside. */
  lemma EscapedCharInside(c: char, i: nat)
    requires i <= |EscapeChar(c)|
    ensures ModeAfter(Inside, EscapeChar(c)[..i]) != Outside
    ensures ModeAfter(Inside, EscapeChar(c)) == Inside
  {
    var e := EscapeChar(c);
    assert e[..0] == "" && e[..|e|] == e;
    if |e| == 2 {
      assert e[0] == '\\';
      PairInside(e[1]);
      assert e == ['\\', e[1]] && e[..1] == ['\\'];
    } else if |e| == 6 {
      SixInside(e, i);
    } else {
      assert e == [c];
    }
  }

  lemma PairInside(c: char)
    ensures ModeAfter(Inside, ['\\']) == Escaping
    ensures ModeAfter(Inside, ['\\', c]) == Inside
  {
    var pair, one := ['\\', c], ['\\'];
    assert one[1..] == "" && pair[1..] == [c] && [c][1..] == "";
    assert ModeAfter(Escaping, "") == Escaping && ModeAfter(Inside, "") == Inside;
    assert ModeAfter(Escaping, [c]) == ModeAfter(Inside, "");
  }

  lemma SixInside(e: string, i: nat)
    requires |e| == 6 && e[0] == '\\' && (forall k | 1 <= k < 6 :: e[k] != '"' && e[k] != '\\') && i <= 6
    ensures ModeAfter(Inside, e[..i]) != Outside && ModeAfter(Inside, e) == Inside
  {
    hide ModeAfter;
    PairInside(e[1]);
    assert e == ['\\', e[1]] + e[2..];
    ModeAfterAppend(Inside, ['\\', e[1]], e[2..]);
    PlainInside(e[2..]);
    if i >= 2 {
      var w := e[2..i];
      assert e[..i] == ['\\', e[1]] + w;
      assert forall k | 0 <= k < |w| :: w[k] == e[2 + k];
      ModeAfterAppend(Inside, ['\\', e[1]], w);
      PlainInside(w);
    } else if i == 1 {
      assert e[..1] == ['\\'];
    } else {
      PlainInside(e[..0]);
    }
  }

  lemma {:induction false} PlainInside(s: string)
    requires forall k | 0 <= k < |s| :: s[k] != '"' && s[k] != '\\'
    ensures ModeAfter(Inside, s) == Inside
  {
    if s != "" { PlainInside(s[1..]); }
  }

  lemma {:induction false} EscapedInside(v: string, i: nat)
    requires i <= |Escape(v)|
    ensures ModeAfter(Inside, Escape(v)[..i]) != Outside
    ensures ModeAfter(Inside, Escape(v)) == Inside
  {
    hide EscapeChar;
    if v == "" {
      assert Escape(v)[..i] == "";
    } else {
      var e, rest := EscapeChar(v[0]), Escape(v[1..]);
      EscapedCharInside(v[0], |e|);
      ModeAfterAppend(Inside, e, rest);
      if i < |e| {
        EscapedCharInside(v[0], i);
        EscapedInside(v[1..], 0);
        assert (e + rest)[..i] == e[..i];
      } else {
        EscapedInside(v[1..], i - |e|);
        ModeAfterAppend(Inside, e, rest[..i - |e|]);
        assert (e + rest)[..i] == e + rest[..i - |e|];
      }
    }
  }

  // ---------- removing trailing commas ----------

  predicate IsSpace(c: char) {
    c == ' ' || 0x09 as char <= c <= 0x0d as char
  }

  /** The first position from `i` on that does not hold white space. */
  function NextSolid(s: string, i: nat): (j: nat)
    requires i <= |s|
    ensures i <= j <= |s|
    ensures j < |s| ==> !IsSpace(s[j])
    ensures forall k | i <= k < j :: IsSpace(s[k])
    decreases |s| - i
  {
    if i < |s| && IsSpace(s[i]) then NextSolid(s, i + 1) else i
  }

  /** A comma outside every string literal with nothing but white space before the next ']' or '}'. */
  predicate Trailing(s: string, i: nat)
    requires i < |s|
  {
    s[i] == ',' && ModeAt(s, i) == Outside
    && var j := NextSolid(s, i + 1);
       j < |s| && (s[j] == ']' || s[j] == '}')
  }

  function Blanked(s: string): (r: string)
    ensures |r| == |s|
    ensures forall i | 0 <= i < |s| :: r[i] == if Trailing(s, i) then ' ' else s[i]
  {
    seq(|s|, i requires 0 <= i < |s| => if Trailing(s, i) then ' ' else s[i])
  }

  /** A space, or one of the five control characters from tab on. */
  predicate Blank(c: char) {
    c == ' ' || 9 <= c as int <= 13
  }

  lemma {:induction false} BlanksPassed(s: string, i: nat, j: nat)
    requires i <= j <= |s| && (forall k | i <= k < j :: Blank(s[k])) && (j < |s| ==> !Blank(s[j]))
    ensures NextSolid(s, i) == j
    decreases j - i
  {
    if i < j { BlanksPassed(s, i + 1, j); }
  }

  /** A comma at `i`, outside strings and followed by white space up to `j`, is blanked if and only if a closing
      bracket or brace stands there; every other character stays. */
  lemma CommaLaw(s: string, i: nat, j: nat)
    requires i < j <= |s| && (forall k | i < k < j :: Blank(s[k])) && (j < |s| ==> !Blank(s[j]))
    ensures s[i] == ',' && ModeAt(s, i) == Outside ==>
      Blanked(s)[i] == if j < |s| && (s[j] == ']' || s[j] == '}') then ' ' else ','
    ensures s[i] != ',' || ModeAt(s, i) != Outside ==> Blanked(s)[i] == s[i]
  {
    hide ModeAt, NextSolid;
    BlanksPassed(s, i + 1, j);
  }

  lemma ModeStep(s: string, i: nat)
    requires i < |s|
    ensures ModeAt(s, i + 1) == Next(ModeAt(s, i), s[i])
  {
  }

  /** Edits the text in place. */
  method RemoveTrailingCommas(a: array<char>)
    modifies a
    ensures a[..] == Blanked(old(a[..]))
  {
    hide Trailing, Blanked, ModeAt;
    ghost var s := a[..];
    assert ModeAt(s, 0) == Outside by { StartsOutside(s); }
    var i, end := 0, a.Length;
    while i < end
      invariant 0 <= i <= end && ModeAt(s, i) == Outside
      invariant forall k | 0 <= k < i :: a[k] == Blanked(s)[k]
      invariant forall k | i <= k < end :: a[k] == s[k]
      decreases end - i
    {
      if a[i] == '"' {
        QuoteStays(s, i);
        ModeStep(s, i);
        i := i + 1;
        while i < end
          invariant 0 < i <= end && ModeAt(s, i) == Inside
          invariant forall k | 0 <= k < i :: a[k] == Blanked(s)[k]
          invariant forall k | i <= k < end :: a[k] == s[k]
          decreases end - i
        {
          InsideStays(s, i);
          ModeStep(s, i);
          if a[i] == '\\' {
            i := i + 1;
            if i == end { break; }
            InsideStays(s, i);
            ModeStep(s, i);
            i := i + 1;
            continue;
          }
          if a[i] == '"' {
            break;
          }
          i := i + 1;
        }
        if i == end {
          return;
        }
      } else if a[i] == ',' {
        var walker := i + 1;
        while walker < end && IsSpace(a[walker])
          invariant i < walker <= end && NextSolid(s, walker) == NextSolid(s, i + 1)
          decreases end - walker
        {
          walker := walker + 1;
        }
        CommaStays(s, i);
        if walker != end && (a[walker] == ']' || a[walker] == '}') {
          a[i] := ' ';
        }
      } else {
        OtherStays(s, i);
      }
      ModeStep(s, i);
      i := i + 1;
    }
  }

  lemma StartsOutside(s: string)
    ensures ModeAt(s, 0) == Outside
  {
  }

  lemma QuoteStays(s: string, i: nat)
    requires i < |s| && s[i] == '"'
    ensures Blanked(s)[i] == s[i]
  {
  }

  lemma InsideStays(s: string, i: nat)
    requires i < |s| && ModeAt(s, i) != Outside
    ensures Blanked(s)[i] == s[i]
  {
  }

  lemma OtherStays(s: string, i: nat)
    requires i < |s| && s[i] != ','
    ensures Blanked(s)[i] == s[i]
  {
  }

  lemma CommaStays(s: string, i: nat)
    requires i < |s| && s[i] == ',' && ModeAt(s, i) == Outside
    ensures var j := NextSolid(s, i + 1);
            Blanked(s)[i] == if j < |s| && (s[j] == ']' || s[j] == '}') then ' ' else ','
  {
  }

  /** An escaped value expanded inside a string literal comes through the whole pipeline unchanged. */
  lemma ExpansionUntouched(before: string, v: string, after: string)
    requires ModeAt(before + Escape(v) + after, |before|) == Inside
    ensures Blanked(before + Escape(v) + after)[|before|..|before| + |Escape(v)|] == Escape(v)
    ensures ModeAt(before + Escape(v) + after, |before| + |Escape(v)|) == Inside
    ensures Unescape(Blanked(before + Escape(v) + after)[|before|..|before| + |Escape(v)|]) == Some(v)
  {
    hide Trailing, Escape, Unescape;
    var e := Escape(v);
    var s := before + e + after;
    forall i | 0 <= i < |e| ensures Blanked(s)[|before| + i] == e[i] {
      ExpansionInside(before, v, after, i);
      InsideStays(s, |before| + i);
    }
    ExpansionInside(before, v, after, |e|);
    assert Blanked(s)[|before|..|before| + |e|] == e;
    EscapeRoundTrip(v);
  }

  lemma ExpansionInside(before: string, v: string, after: string, i: nat)
    requires ModeAt(before + Escape(v) + after, |before|) == Inside && i <= |Escape(v)|
    ensures ModeAt(before + Escape(v) + after, |before| + i) != Outside
    ensures i == |Escape(v)| ==> ModeAt(before + Escape(v) + after, |before| + i) == Inside
  {
    hide Escape;
    var e := Escape(v);
    assert before + e + after == before + (e + after);
    ModeAtAppend(before, e + after, i);
    assert (e + after)[..i] == e[..i];
    EscapedInside(v, i);
    assert e[..|e|] == e;
  }

  // ---------- what a second pass would do ----------

  /** A comma outside every literal whose next visible character is itself a trailing comma. */
  predicate Stacked(s: string, i: nat)
    requires i < |s|
  {
    s[i] == ',' && ModeAt(s, i) == Outside && NextSolid(s, i + 1) < |s| && Trailing(s, NextSolid(s, i + 1))
  }

  lemma {:induction false} BlankedModes(s: string, i: nat)
    requires i <= |s|
    ensures ModeAt(Blanked(s), i) == ModeAt(s, i)
  {
    if i > 0 { BlankedModes(s, i - 1); }
  }

  lemma {:induction false} NextSolidThrough(s: string, i: nat, j: nat)
    requires i <= j <= |s| && forall k | i <= k < j :: IsSpace(s[k])
    ensures NextSolid(s, i) == NextSolid(s, j)
    decreases j - i
  {
    if i < j { NextSolidThrough(s, i + 1, j); }
  }

  /** In the edited text the next visible character is the same, unless that was a trailing comma. */
  lemma NextSolidBlanked(s: string, i: nat)
    requires i <= |s|
    ensures var n := NextSolid(s, i);
            NextSolid(Blanked(s), i) == if n < |s| && Trailing(s, n) then NextSolid(s, n + 1) else n
  {
    hide Trailing, ModeAt;
    var b, n := Blanked(s), NextSolid(s, i);
    forall k | i <= k < n ensures IsSpace(b[k]) { assert IsSpace(s[k]); }
    NextSolidThrough(b, i, n);
    if n < |s| && Trailing(s, n) {
      var m := NextSolid(s, n + 1);
      forall k | n <= k < m ensures IsSpace(b[k]) { assert k > n ==> IsSpace(s[k]); }
      NextSolidThrough(b, n, m);
      TrailingBracket(s, n);
    }
  }

  lemma TrailingBracket(s: string, n: nat)
    requires n < |s| && Trailing(s, n)
    ensures var m := NextSolid(s, n + 1); m < |s| && (s[m] == ']' || s[m] == '}') && Blanked(s)[m] == s[m]
  {
    hide ModeAt;
  }

  /** Exactly the commas that stood before a trailing comma are left over. */
  lemma LeftOver(s: string, i: nat)
    requires i < |s|
    ensures Trailing(Blanked(s), i) <==> Stacked(s, i)
  {
    hide ModeAt, NextSolid;
    BlankedModes(s, i);
    NextSolidBlanked(s, i + 1);
    var n := NextSolid(s, i + 1);
    if n < |s| && Trailing(s, n) { TrailingBracket(s, n); }
  }

  /** The pass leaves no trailing comma, and a second pass changes nothing, exactly when no comma stands
      directly before a trailing one. */
  lemma OnePassIsEnoughIff(s: string)
    ensures (forall i | 0 <= i < |s| :: !Trailing(Blanked(s), i)) <==> (forall i | 0 <= i < |s| :: !Stacked(s, i))
    ensures Blanked(Blanked(s)) == Blanked(s) <==> (forall i | 0 <= i < |s| :: !Stacked(s, i))
  {
    hide Trailing, Stacked;
    forall i | 0 <= i < |s| ensures Trailing(Blanked(s), i) <==> Stacked(s, i) {
      LeftOver(s, i);
    }
    forall i | 0 <= i < |s| && Trailing(Blanked(s), i) ensures Blanked(Blanked(s))[i] != Blanked(s)[i] {
      TrailingIsComma(Blanked(s), i);
    }
  }

  lemma TrailingIsComma(s: string, i: nat)
    requires i < |s| && Trailing(s, i)
    ensures s[i] == ',' && Blanked(s)[i] == ' '
  {
  }
}
