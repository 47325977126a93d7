/** Reading back the pieces of a template: each construct, printed, is taken by the interpreter
    in a single step, whatever comes before and after it. */
module TemplateReading {
  import opened JsonText
  import opened Template
  import opened TemplateMeaning
  import opened Text
  import opened Wrappers

  // ---------- names ----------

  lemma {:induction false} IdEndStops(s: string, i: nat, j: nat)
    requires i <= j <= |s| && !IsIdChar(CharAt(s, j))
    requires forall k | i <= k < j :: IsIdChar(s[k])
    ensures IdEnd(s, i) == j
    decreases j - i
  {
    hide IsIdChar;
    if i < j { IdEndStops(s, i + 1, j); }
  }

  lemma NameRead(s: string, p: nat, w: string)
    requires IsName(w) && At(s, p, w) && !IsIdChar(CharAt(s, p + |w|))
    ensures FindId(s, p) == (w, p + |w|)
  {
    forall k | 0 <= k < |w| ensures s[p + k] == w[k] { AtChar(s, p, w, k); }
    AtChar(s, p, w, 0);
    if w[0] == '$' {
      assert IsId(w[1..]);
      forall k | p + 1 <= k < p + |w| ensures IsIdChar(s[k]) {
        assert w[1..][k - p - 1] == w[k - p] == s[k];
      }
      IdEndStops(s, p + 1, p + |w|);
    } else {
      assert IsId(w);
      forall k | p <= k < p + |w| ensures IsIdChar(s[k]) {
        assert w[k - p] == s[k];
      }
      IdEndStops(s, p, p + |w|);
    }
  }

  // ---------- strings and regular expressions ----------

  lemma {:induction false} ClosingStops(s: string, i: nat, j: nat, q: char)
    requires i <= j < |s| && s[j] == q
    requires forall k | i <= k < j :: s[k] != q && s[k] != 0 as char
    ensures Closing(s, i, q) == j
    decreases j - i
  {
    if i < j { ClosingStops(s, i + 1, j, q); }
  }

  lemma Delimited(s: string, p: nat, w: string, q: char)
    requires At(s, p, [q] + w + [q]) && q != 0 as char
    requires forall k | 0 <= k < |w| :: w[k] != q && w[k] != 0 as char
    ensures CharAt(s, p) == q && Closing(s, p + 1, q) == p + 1 + |w| && CharAt(s, p + 1 + |w|) == q
    ensures s[p + 1..p + 1 + |w|] == w
  {
    var all := [q] + w + [q];
    AtChar(s, p, all, 0);
    AtChar(s, p, all, |w| + 1);
    forall k | p + 1 <= k < p + 1 + |w| ensures s[k] == w[k - p - 1] {
      AtChar(s, p, all, k - p);
    }
    ClosingStops(s, p + 1, p + 1 + |w|, q);
  }

  lemma QuotedRead(s: string, p: nat, q: Quoted)
    requires GoodQuoted(q) && At(s, p, PrintQuoted(q))
    ensures ParseString(s, p) == (q.text, p + |PrintQuoted(q)|) && CharAt(s, p) == q.quote
  {
    hide Closing;
    Delimited(s, p, q.text, q.quote);
  }

  lemma RegexRead(regexes: Regexes, s: string, p: nat, w: string)
    requires At(s, p, "/" + w + "/") && regexes.compiles(w)
    requires forall k | 0 <= k < |w| :: w[k] != '/' && w[k] != 0 as char
    ensures CharAt(s, p) == '/' && ParseRegex(regexes, s, p) == (Some(w), p + |w| + 2)
  {
    hide Closing;
    assert ['/'] + w + ['/'] == "/" + w + "/";
    Delimited(s, p, w, '/');
  }

  // ---------- words and white space ----------

  lemma {:induction false} SkipWhite(s: string, p: nat, w: string)
    requires At(s, p, w) && AllWhite(w) && !IsSpace(CharAt(s, p + |w|))
    ensures SkipWs(s, p) == p + |w|
    decreases |w|
  {
    hide IsSpace;
    if w != "" {
      AtChar(s, p, w, 0);
      AtSlice(s, p, w, 1, |w|);
      SkipWhite(s, p + 1, w[1..]);
    }
  }

  /** Something solid that is no part of a word, or has white space before it. */
  predicate Apart(gap: string, rest: string) {
    AllWhite(gap) && rest != "" && !IsSpace(rest[0]) && (gap == "" ==> !IsIdChar(rest[0]))
  }

  lemma GapRead(s: string, p: nat, gap: string, rest: string)
    requires At(s, p, gap + rest) && AllWhite(gap) && rest != "" && !IsSpace(rest[0])
    ensures SkipWs(s, p) == p + |gap| && At(s, p + |gap|, rest) && CharAt(s, p + |gap|) == rest[0]
    ensures Apart(gap, rest) ==> !IsIdChar(CharAt(s, p))
  {
    hide SkipWs, IsSpace, At;
    AtAppend(s, p, gap, rest);
    AtChar(s, p + |gap|, rest, 0);
    SkipWhite(s, p, gap);
    if gap != "" {
      AtChar(s, p, gap, 0);
      WhiteIsNoId(gap[0]);
    }
  }

  lemma WhiteIsNoId(c: char)
    ensures IsSpace(c) ==> !IsIdChar(c)
  {
  }

  /** A word, the white space after it, and what comes then. */
  lemma WordRead(s: string, p: nat, w: string, gap: string, rest: string)
    requires IsName(w) && Apart(gap, rest) && At(s, p, w + gap + rest)
    ensures FindId(s, p) == (w, p + |w|) && SkipWs(s, p + |w|) == p + |w| + |gap|
    ensures At(s, p + |w| + |gap|, rest) && CharAt(s, p + |w| + |gap|) == rest[0] && p + |w| <= |s|
    ensures CharAt(s, p) == w[0]
  {
    hide IsName, FindId, SkipWs, At, Apart;
    assert w + gap + rest == w + (gap + rest);
    AtAppend(s, p, w, gap + rest);
    ApartIsWhite(gap, rest);
    GapRead(s, p + |w|, gap, rest);
    NameRead(s, p, w);
    NameStart(w);
    AtChar(s, p, w, 0);
    AtFits(s, p, w);
  }

  lemma ApartIsWhite(gap: string, rest: string)
    requires Apart(gap, rest)
    ensures AllWhite(gap) && rest != "" && !IsSpace(rest[0])
  {
  }

  lemma NameStart(w: string)
    requires IsName(w)
    ensures w != "" && !IsSpace(w[0]) && w[0] != '|' && w[0] != '}' && w[0] != '{'
  {
    if !IsId(w) { assert w[0] == '$'; }
  }

  lemma KeywordsAreNames()
    ensures IsName("switch") && IsName("for") && IsName("end") && IsName("in") && IsName("case") && IsName("default")
  {
    assert IsId("switch") && IsId("for") && IsId("end") && IsId("in") && IsId("case") && IsId("default");
  }

  // ---------- switch ----------

  lemma ColonRead(s: string, p: nat, c: Colon, rest: string)
    requires GoodColon(c) && rest != "" && !IsSpace(rest[0]) && At(s, p, PrintColon(c) + rest)
    ensures var q := p + |c.before|;
      SkipWs(s, p) == q && CharAt(s, q) == ':' && SkipWs(s, q + 1) == p + |PrintColon(c)|
      && At(s, p + |PrintColon(c)|, rest)
  {
    hide SkipWs, At, AllWhite;
    assert PrintColon(c) + rest == c.before + (":" + (c.after + rest));
    var q := p + |c.before|;
    GapRead(s, p, c.before, ":" + (c.after + rest));
    AtAppend(s, q, ":", c.after + rest);
    GapRead(s, q + 1, c.after, rest);
  }

  lemma QuoteIsSolid(q: Quoted)
    requires GoodQuoted(q)
    ensures q.quote != '/' && !IsSpace(q.quote) && !IsIdChar(q.quote) && PrintQuoted(q)[0] == q.quote
  {
  }

  lemma ValueRead(s: string, p: nat, c: Colon, v: Quoted, hit: bool, m: Matching)
    requires GoodColon(c) && GoodQuoted(v) && At(s, p, PrintColon(c) + PrintQuoted(v))
    ensures var end := p + |PrintColon(c)| + |PrintQuoted(v)|;
      CaseValue(s, p, hit, m)
      == if !m.matched && hit then Matching(end, true, m.out + v.text) else m.(pos := end)
  {
    hide ParseString, SkipWs, CharAt, GoodQuoted, GoodColon, PrintColon, PrintQuoted;
    QuoteIsSolid(v);
    QuotedNotEmpty(v);
    ColonRead(s, p, c, PrintQuoted(v));
    QuotedRead(s, p + |PrintColon(c)|, v);
  }

  lemma QuotedNotEmpty(q: Quoted)
    ensures PrintQuoted(q) != ""
  {
  }

  function AfterCase(regexes: Regexes, c: Case, val: string, end: nat, m: Matching): Matching {
    if !m.matched && Matches(regexes, c.pattern, val) then Matching(end, true, m.out + c.value.text) else m.(pos := end)
  }

  lemma PatternStart(regexes: Regexes, l: Pattern)
    requires GoodPattern(regexes, l)
    ensures var w := PrintPattern(l); w != "" && !IsSpace(w[0]) && !IsIdChar(w[0])
  {
  }

  lemma CaseParts(regexes: Regexes, s: string, p: nat, c: Case, rest: string)
    requires GoodCase(regexes, c) && At(s, p, PrintCase(c) + rest) && rest != "" && !IsSpace(rest[0])
    ensures var q := p + 4 + |c.lead|;
            var r := q + |PrintPattern(c.pattern)|;
            var e := r + |PrintColon(c.colon)| + |PrintQuoted(c.value)|;
            && p + |PrintCase(c)| == e + |c.trail|
            && FindId(s, p) == ("case", p + 4) && p + 4 <= |s| && SkipWs(s, p + 4) == q
            && At(s, q, PrintPattern(c.pattern)) && At(s, r, PrintColon(c.colon) + PrintQuoted(c.value))
            && SkipWs(s, e) == e + |c.trail| && At(s, e + |c.trail|, rest)
  {
    hide PrintQuoted, FindId, At, PrintPattern, PrintColon, IsName, SkipWs, AllWhite, GoodPattern, GoodColon,
        GoodQuoted;
    var pattern, value := PrintPattern(c.pattern), PrintColon(c.colon) + PrintQuoted(c.value);
    var more := pattern + (value + (c.trail + rest));
    assert PrintCase(c) + rest == "case" + c.lead + more;
    KeywordsAreNames();
    PatternStart(regexes, c.pattern);
    WordRead(s, p, "case", c.lead, more);
    var q := p + 4 + |c.lead|;
    AtAppend(s, q, pattern, value + (c.trail + rest));
    AtAppend(s, q + |pattern|, value, c.trail + rest);
    GapRead(s, q + |pattern| + |value|, c.trail, rest);
  }

  lemma CaseRead(env: Env, p: nat, c: Case, val: string, m: Matching, rest: string)
    requires GoodCase(env.regexes, c) && At(env.text, p, PrintCase(c) + rest) && rest != "" && !IsSpace(rest[0])
    ensures FindId(env.text, p) == ("case", p + 4) && p + 4 <= |env.text|
    ensures At(env.text, p + |PrintCase(c)|, rest)
    ensures var m' := ParseCase(env, val, m.(pos := p + 4));
            m'.(pos := SkipWs(env.text, m'.pos)) == AfterCase(env.regexes, c, val, p + |PrintCase(c)|, m)
  {
    hide ParseString, ParseRegex, CaseValue, SkipWs, FindId, PrintCase, PrintColon, PrintQuoted, CharAt, GoodQuoted,
         NoOpening, At, AllWhite, GoodColon;
    var s := env.text;
    CaseParts(env.regexes, s, p, c, rest);
    var q := p + 4 + |c.lead|;
    match c.pattern
    case Literal(pt) =>
      QuotedRead(s, q, pt);
      QuoteIsSolid(pt);
      ValueRead(s, q + |PrintPattern(c.pattern)|, c.colon, c.value, pt.text == val, m.(pos := p + 4));
    case Regex(pt) =>
      RegexRead(env.regexes, s, q, pt);
      ValueRead(s, q + |PrintPattern(c.pattern)|, c.colon, c.value, env.regexes.matches(pt, val), m.(pos := p + 4));
  }

  lemma DefaultRead(env: Env, p: nat, d: Default, val: string, m: Matching)
    requires GoodDefault(d) && At(env.text, p, PrintDefault(d) + "}") && m.pos == p
    ensures var end := p + |PrintDefault(d)| - |d.trail|;
      end >= 0 && SkipWs(env.text, end) == p + |PrintDefault(d)| && CharAt(env.text, p + |PrintDefault(d)|) == '}'
      && ParseCases(env, val, m) == Some(m.(pos := end, out := m.out + if m.matched then "" else d.value.text))
  {
    hide ParseString, SkipWs, FindId, PrintQuoted, PrintColon, GoodQuoted, GoodColon, CharAt, At, AllWhite;
    var s := env.text;
    DefaultParts(s, p, d);
    QuotedRead(s, p + 7 + |PrintColon(d.colon)|, d.value);
    assert m.out + "" == m.out;
  }

  lemma DefaultParts(s: string, p: nat, d: Default)
    requires GoodDefault(d) && At(s, p, PrintDefault(d) + "}")
    ensures var q := p + 7 + |d.colon.before|;
            var v := p + 7 + |PrintColon(d.colon)|;
            var end := v + |PrintQuoted(d.value)|;
            && FindId(s, p) == ("default", p + 7) && p + 7 <= |s|
            && SkipWs(s, p + 7) == q && CharAt(s, q) == ':' && SkipWs(s, q + 1) == v && At(s, v, PrintQuoted(d.value))
            && SkipWs(s, end) == end + |d.trail| && CharAt(s, end + |d.trail|) == '}'
            && end + |d.trail| == p + |PrintDefault(d)|
  {
    hide PrintQuoted, PrintColon, FindId, GoodQuoted, SkipWs, At, AllWhite, IsName, CharAt;
    var colon, value := PrintColon(d.colon), PrintQuoted(d.value);
    assert PrintDefault(d) + "}" == "default" + "" + (colon + (value + (d.trail + "}")));
    KeywordsAreNames();
    ColonStarts(d.colon, value + (d.trail + "}"));
    DefaultWord(s, p, d.colon, value + (d.trail + "}"));
    QuoteIsSolid(d.value);
    QuotedNotEmpty(d.value);
    ColonRead(s, p + 7, d.colon, value + (d.trail + "}"));
    AtAppend(s, p + 7 + |colon|, value, d.trail + "}");
    GapRead(s, p + 7 + |colon| + |value|, d.trail, "}");
  }

  lemma ColonStarts(c: Colon, rest: string)
    requires GoodColon(c)
    ensures var w := ":" + (c.after + rest); PrintColon(c) + rest == c.before + w && Apart(c.before, w) && w[0] == ':'
  {
    assert PrintColon(c) + rest == c.before + (":" + (c.after + rest));
  }

  lemma DefaultWord(s: string, p: nat, c: Colon, rest: string)
    requires GoodColon(c) && At(s, p, "default" + "" + (PrintColon(c) + rest))
    ensures FindId(s, p) == ("default", p + 7) && p + 7 <= |s| && At(s, p + 7, PrintColon(c) + rest)
  {
    hide PrintColon, FindId, SkipWs, At, IsName, GoodColon, Apart;
    var w := ":" + (c.after + rest);
    ColonStarts(c, rest);
    KeywordsAreNames();
    assert "default" + "" + (PrintColon(c) + rest) == "default" + c.before + w;
    WordRead(s, p, "default", c.before, w);
    assert "default" + "" + (PrintColon(c) + rest) == "default" + (PrintColon(c) + rest);
    AtAppend(s, p, "default", PrintColon(c) + rest);
  }

  /** What follows a subject or a case starts with a letter. */
  lemma CaseStart(cases: seq<Case>, d: Default, rest: string)
    ensures var w := PrintCases(cases) + PrintDefault(d) + rest; w != "" && !IsSpace(w[0])
  {
    if cases != [] { assert PrintCase(cases[0])[0] == 'c'; } else { assert PrintDefault(d)[0] == 'd'; }
  }

  lemma {:induction false} CasesRead(env: Env, p: nat, cases: seq<Case>, d: Default, val: string, m: Matching)
    requires GoodDefault(d) && GoodCases(env.regexes, cases)
    requires At(env.text, p, PrintCases(cases) + PrintDefault(d) + "}") && m.pos == p
    ensures var r, end := ParseCases(env, val, m), p + |PrintCases(cases) + PrintDefault(d)|;
            r.Some? && SkipWs(env.text, r.value.pos) == end && CharAt(env.text, end) == '}'
            && r.value.out == m.out + if m.matched then "" else Choose(env.regexes, cases, d, val)
    decreases |cases|
  {
    hide GoodCase, PrintCase, PrintDefault, FindId, ParseCase, ParseDefault, SkipWs, Matches, At, GoodDefault, CharAt;
    if cases == [] {
      assert PrintCases(cases) + PrintDefault(d) + "}" == PrintDefault(d) + "}";
      DefaultRead(env, p, d, val, m);
    } else {
      var first, more := PrintCase(cases[0]), PrintCases(cases[1..]) + PrintDefault(d) + "}";
      assert PrintCases(cases) + PrintDefault(d) + "}" == first + more;
      CaseStart(cases[1..], d, "}");
      CaseRead(env, p, cases[0], val, m, more);
      var m' := AfterCase(env.regexes, cases[0], val, p + |first|, m);
      assert GoodCases(env.regexes, cases[1..]);
      CasesRead(env, p + |first|, cases[1..], d, val, m');
    }
  }

  // ---------- replacements ----------

  /** The opening of a replacement, up to its first word, and what comes after that. */
  lemma OpeningRead(env: Env, st: State, lead: string, bar: Option<string>, w: string, rest: string)
    requires AllWhite(lead) && GoodBar(bar) && IsName(w) && rest != "" && !IsIdChar(rest[0])
    requires At(env.text, st.pos, "${" + lead + PrintBar(bar) + w + rest)
    ensures var s, p0 := env.text, st.pos + 2 + |lead|;
            var p := p0 + |PrintBar(bar)|;
            && CharAt(s, st.pos) == '$' && CharAt(s, st.pos + 1) == '{' && st.pos + 1 < |s|
            && SkipWs(s, st.pos + 2) == p0 && (CharAt(s, p0) == '|') == bar.Some?
            && (bar.Some? ==> SkipWs(s, p0 + 1) == p)
            && FindId(s, p) == (w, p + |w|) && At(s, p + |w|, rest) && CharAt(s, p + |w|) == rest[0]
  {
    hide IsName, FindId, SkipWs, At, AllWhite, CharAt;
    var s, p0, b := env.text, st.pos + 2 + |lead|, PrintBar(bar);
    assert "${" + lead + b + w + rest == "${" + (lead + (b + (w + rest)));
    AtAppend(s, st.pos, "${", lead + (b + (w + rest)));
    TwoChars(s, st.pos);
    NameStart(w);
    if bar.Some? {
      assert b + (w + rest) == "|" + (bar.value + (w + rest));
      GapRead(s, st.pos + 2, lead, b + (w + rest));
      AtAppend(s, p0, "|", bar.value + (w + rest));
      GapRead(s, p0 + 1, bar.value, w + rest);
    } else {
      assert b + (w + rest) == w + rest;
      GapRead(s, st.pos + 2, lead, w + rest);
    }
    var p := p0 + |b|;
    AtAppend(s, p, w, rest);
    CharOf(s, p + |w|, rest);
    NameRead(s, p, w);
  }

  lemma TwoChars(s: string, p: nat)
    requires At(s, p, "${")
    ensures CharAt(s, p) == '$' && CharAt(s, p + 1) == '{' && p + 1 < |s|
  {
    AtChar(s, p, "${", 0);
    AtChar(s, p, "${", 1);
  }

  lemma CharOf(s: string, p: nat, w: string)
    requires At(s, p, w) && w != ""
    ensures CharAt(s, p) == w[0]
  {
    AtChar(s, p, w, 0);
  }

  lemma TrailStart(trail: string)
    requires AllWhite(trail)
    ensures var w := trail + "}"; w != "" && !IsIdChar(w[0])
  {
    if trail != "" { WhiteIsNoId(trail[0]); }
  }

  /** A variable is replaced by its value in one step, or the run fails. */
  lemma VariableStep(env: Env, st: State, lead: string, bar: Option<string>, name: string, trail: string)
    requires AllWhite(lead) && GoodBar(bar) && PlainName(name) && AllWhite(trail)
    requires At(env.text, st.pos, PrintNode(Variable(lead, bar, name, trail)))
    ensures st.pos < |env.text|
    ensures var n := Variable(lead, bar, name, trail);
      Step(env, st)
      == match NodeMeaning(env, n, Bindings(st.stack))
         case None => None
         case Some(o) => Some(State(st.pos + |PrintNode(n)|, st.out + o, st.stack))
  {
    hide FindId, SkipWs, CharAt, IsName, Escape, Bindings, GetValue, At, AllWhite, GoodBar, PrintBar, PrintNode,
         Conditional, LoopStart, LoopEnd;
    VariableParts(env, st, lead, bar, name, trail);
    NotFor(name);
    BarLength(bar);
  }

  lemma VariableParts(env: Env, st: State, lead: string, bar: Option<string>, name: string, trail: string)
    requires AllWhite(lead) && GoodBar(bar) && PlainName(name) && AllWhite(trail)
    requires At(env.text, st.pos, PrintNode(Variable(lead, bar, name, trail)))
    ensures var s, p0 := env.text, st.pos + 2 + |lead|;
            var p := p0 + |PrintBar(bar)|;
            var e := p + |name| + |trail|;
            && st.pos + |PrintNode(Variable(lead, bar, name, trail))| == e + 1
            && CharAt(s, st.pos) == '$' && CharAt(s, st.pos + 1) == '{' && st.pos + 1 < |s|
            && SkipWs(s, st.pos + 2) == p0 && (CharAt(s, p0) == '|') == bar.Some?
            && (bar.Some? ==> SkipWs(s, p0 + 1) == p)
            && FindId(s, p) == (name, p + |name|) && SkipWs(s, p + |name|) == e && CharAt(s, e) == '}'
  {
    hide FindId, SkipWs, CharAt, IsName, At, AllWhite, GoodBar, PrintBar;
    assert PrintNode(Variable(lead, bar, name, trail)) == "${" + lead + PrintBar(bar) + name + (trail + "}");
    TrailStart(trail);
    BraceIsNoId();
    OpeningRead(env, st, lead, bar, name, trail + "}");
    GapRead(env.text, st.pos + 2 + |lead| + |PrintBar(bar)| + |name|, trail, "}");
  }

  lemma BarLength(bar: Option<string>)
    ensures bar == None ==> |PrintBar(bar)| == 0
  {
  }

  lemma BraceIsSolid(s: string, p: nat)
    requires CharAt(s, p) == '}'
    ensures SkipWs(s, p) == p
  {
  }

  lemma NotFor(name: string)
    requires PlainName(name)
    ensures name != "" && name != "switch" && name != "for" && name != "end"
  {
  }

  /** A switch is replaced by the value of its first matching case in one step, or the run fails. */
  lemma SwitchStep(env: Env, st: State, lead: string, gap: string, subject: Spaced, cases: seq<Case>, d: Default)
    requires GoodNode(env.regexes, Switch(lead, gap, subject, cases, d))
    requires At(env.text, st.pos, PrintNode(Switch(lead, gap, subject, cases, d)))
    ensures st.pos < |env.text|
    ensures var n := Switch(lead, gap, subject, cases, d);
      Step(env, st)
      == match NodeMeaning(env, n, Bindings(st.stack))
         case None => None
         case Some(o) => Some(State(st.pos + |PrintNode(n)|, st.out + o, st.stack))
  {
    hide FindId, SkipWs, CharAt, IsName, Bindings, GetValue, GoodCases, GoodDefault, ParseCases, PrintCases,
        PrintDefault, At, Choose, AllWhite;
    SwitchParts(env, st, lead, gap, subject, cases, d);
    var p2 := st.pos + 2 + |lead| + 6 + |gap| + |subject.word| + |subject.gap|;
    var val := GetValue(env.attrs, Bindings(st.stack), subject.word);
    if val.Some? { CasesRead(env, p2, cases, d, val.value, Matching(p2, false, st.out)); }
  }

  lemma SwitchParts(env: Env, st: State, lead: string, gap: string, subject: Spaced, cases: seq<Case>, d: Default)
    requires GoodNode(env.regexes, Switch(lead, gap, subject, cases, d))
    requires At(env.text, st.pos, PrintNode(Switch(lead, gap, subject, cases, d)))
    ensures var s, p0, body := env.text, st.pos + 2 + |lead|, PrintCases(cases) + PrintDefault(d);
            var p1 := p0 + 6 + |gap|;
            var p2 := p1 + |subject.word| + |subject.gap|;
            && st.pos + |PrintNode(Switch(lead, gap, subject, cases, d))| == p2 + |body| + 1
            && st.pos + 1 < |s| && CharAt(s, st.pos) == '$' && CharAt(s, st.pos + 1) == '{'
            && SkipWs(s, st.pos + 2) == p0 && CharAt(s, p0) != '|'
            && FindId(s, p0) == ("switch", p0 + 6) && SkipWs(s, p0 + 6) == p1
            && FindId(s, p1) == (subject.word, p1 + |subject.word|) && SkipWs(s, p1 + |subject.word|) == p2
            && At(s, p2, body + "}")
  {
    hide FindId, SkipWs, IsName, GoodCases, GoodDefault, PrintCases, PrintDefault, At, AllWhite, CharAt, GoodSubject,
         Apart;
    var s, p0, body := env.text, st.pos + 2 + |lead|, PrintCases(cases) + PrintDefault(d);
    var more := subject.word + subject.gap + (body + "}");
    SwitchPieces(lead, gap, subject, cases, d);
    KeywordsAreNames();
    SubjectApart(gap, subject, body + "}");
    CaseStart(cases, d, "}");
    OpeningRead(env, st, lead, None, "switch", gap + more);
    NoBar();
    GapRead(s, p0 + 6, gap, more);
    BodyApart(gap, subject, body + "}");
    WordRead(s, p0 + 6 + |gap|, subject.word, subject.gap, body + "}");
  }

  lemma NoBar()
    ensures PrintBar(None) == "" && GoodBar(None) && AllWhite("")
  {
  }

  lemma SwitchPieces(lead: string, gap: string, subject: Spaced, cases: seq<Case>, d: Default)
    ensures PrintNode(Switch(lead, gap, subject, cases, d))
         == "${" + lead + PrintBar(None) + "switch"
            + (gap + (subject.word + subject.gap + (PrintCases(cases) + PrintDefault(d) + "}")))
  {
    hide PrintCases, PrintDefault;
    NoBar();
  }

  lemma SubjectApart(gap: string, subject: Spaced, rest: string)
    requires GoodSubject(gap, subject)
    ensures IsName(subject.word) && AllWhite(gap)
    ensures var w := subject.word + subject.gap + rest;
      w != "" && !IsSpace(w[0]) && (gap + w)[0] == (if gap == "" then w[0] else gap[0]) && !IsIdChar((gap + w)[0])
  {
    NameStart(subject.word);
    if gap != "" { WhiteIsNoId(gap[0]); }
  }

  lemma BodyApart(gap: string, subject: Spaced, rest: string)
    requires GoodSubject(gap, subject) && rest != "" && !IsSpace(rest[0])
    ensures Apart(subject.gap, rest)
  {
  }

  // ---------- loops ----------

  lemma {:induction false} VariablesRead(s: string, p: nat, vars: seq<Spaced>, gap: string, rest: string,
                                         acc: seq<string>)
    requires vars != [] && GoodVariables(vars) && Apart(gap, rest) && |acc| + |vars| <= MAX_LOOP_VARIABLES
    requires At(s, p, PrintVariables(vars) + ("in" + gap + rest))
    ensures LoopVariables(s, p, acc) == Some((acc + Words(vars), p + |PrintVariables(vars)| + 2))
    decreases |vars|
  {
    hide FindId, SkipWs, IsId, At, IsName, AllWhite, Apart;
    var more := PrintVariables(vars[1..]) + ("in" + gap + rest);
    VariableRead(s, p, vars, gap, rest);
    var next := p + 1 + |vars[0].word| + |vars[0].gap|;
    assert ("$" + vars[0].word)[1..] == vars[0].word;
    if |vars| == 1 {
      assert PrintVariables(vars[1..]) == "" && more == "in" + gap + rest;
      KeywordsAreNames();
      WordRead(s, next, "in", gap, rest);
      assert acc + [vars[0].word] == acc + Words(vars);
    } else {
      assert GoodVariables(vars[1..]);
      VariablesRead(s, next, vars[1..], gap, rest, acc + [vars[0].word]);
      assert acc + [vars[0].word] + Words(vars[1..]) == acc + Words(vars);
    }
  }

  lemma VariableRead(s: string, p: nat, vars: seq<Spaced>, gap: string, rest: string)
    requires vars != [] && GoodVariables(vars) && At(s, p, PrintVariables(vars) + ("in" + gap + rest))
    ensures var v, next := vars[0], p + 1 + |vars[0].word| + |vars[0].gap|;
      FindId(s, p) == ("$" + v.word, p + 1 + |v.word|) && "$" + v.word != "in" && p + 1 + |v.word| <= |s|
      && SkipWs(s, p + 1 + |v.word|) == next && At(s, next, PrintVariables(vars[1..]) + ("in" + gap + rest))
      && p + |PrintVariables(vars)| == next + |PrintVariables(vars[1..])|
  {
    hide FindId, SkipWs, IsId, At, IsName, AllWhite, Apart;
    var v, more := vars[0], PrintVariables(vars[1..]) + ("in" + gap + rest);
    assert PrintVariables(vars) + ("in" + gap + rest) == "$" + v.word + v.gap + more;
    DollarName(v.word);
    VariableApart(vars, gap, rest);
    assert ("$" + v.word)[0] == '$';
    WordRead(s, p, "$" + v.word, v.gap, more);
  }

  lemma DollarName(v: string)
    requires IsId(v)
    ensures IsName("$" + v)
  {
    assert ("$" + v)[1..] == v;
  }

  lemma VariableApart(vars: seq<Spaced>, gap: string, rest: string)
    requires vars != [] && GoodVariables(vars)
    ensures Apart(vars[0].gap, PrintVariables(vars[1..]) + ("in" + gap + rest))
  {
    hide IsId, AllWhite;
    VariablesStart(vars[1..], "in" + gap + rest);
  }

  lemma VariablesStart(vars: seq<Spaced>, rest: string)
    requires rest != "" && rest[0] == 'i'
    ensures var r := PrintVariables(vars) + rest;
      r != "" && !IsSpace(r[0]) && (vars != [] ==> r[0] == '$' && !IsIdChar(r[0]))
  {
    if vars != [] { assert PrintVariables(vars)[0] == '$'; }
  }

  lemma {:induction false} AttributesRead(s: string, p: nat, attrs: seq<Spaced>, acc: seq<string>)
    requires attrs != [] && GoodAttributes(attrs) && At(s, p, PrintAttributes(attrs) + "}")
    ensures p <= |s| && AttributesEnd(s, LoopAttributes(s, p, acc), acc + Words(attrs), p + |PrintAttributes(attrs)|)
    decreases |attrs|
  {
    hide FindId, SkipWs, IsId, At, AllWhite, CharAt, AttributesEnd, Words, PrintAttributes;
    var a, more := attrs[0], attrs[1..];
    var q := p + |a.word|;
    AttributeRead(s, p, attrs);
    WordsTail(acc, attrs);
    if more == [] {
      LastAttribute(s, q, a.gap);
      LastStep(s, p, a, acc);
      NoWords(acc + [a.word]);
    } else {
      GapGiven(s, q, a.gap);
      assert GoodAttributes(more);
      AttributesRead(s, q + |a.gap|, more, acc + [a.word]);
    }
  }

  /** The words, and the cursor up to white space on the closing brace. */
  ghost predicate AttributesEnd(s: string, r: (seq<string>, nat), words: seq<string>, brace: nat) {
    r.0 == words && SkipWs(s, r.1) == brace && CharAt(s, brace) == '}'
  }

  lemma WordsTail(acc: seq<string>, ws: seq<Spaced>)
    requires ws != []
    ensures acc + Words(ws) == acc + [ws[0].word] + Words(ws[1..])
  {
  }

  lemma NoWords(acc: seq<string>)
    ensures acc + Words([]) == acc
  {
  }

  lemma LastStep(s: string, p: nat, a: Spaced, acc: seq<string>)
    requires var q := p + |a.word|;
      FindId(s, p) == (a.word, q) && a.word != "" && q <= |s| && SkipWs(s, q) == q + |a.gap|
      && CharAt(s, q + |a.gap|) == '}' && FindId(s, q + |a.gap|) == ("", q + |a.gap|)
      && SkipWs(s, q + |a.gap|) == q + |a.gap|
    ensures AttributesEnd(s, LoopAttributes(s, p, acc), acc + [a.word], p + |a.word| + |a.gap|)
  {
    hide FindId, SkipWs, CharAt;
  }

  /** A word with white space after it is not followed by the closing brace. */
  lemma GapGiven(s: string, q: nat, gap: string)
    requires At(s, q, gap) && AllWhite(gap) && gap != ""
    ensures CharAt(s, q) != '}'
  {
    AtChar(s, q, gap, 0);
  }

  lemma LastAttribute(s: string, q: nat, gap: string)
    requires At(s, q, gap + "}") && AllWhite(gap)
    ensures SkipWs(s, q) == q + |gap| && CharAt(s, q + |gap|) == '}' && FindId(s, q + |gap|) == ("", q + |gap|)
    ensures CharAt(s, q) != '}' ==> gap != ""
    ensures CharAt(s, q) == '}' ==> gap == ""
    ensures SkipWs(s, q + |gap|) == q + |gap|
  {
    GapRead(s, q, gap, "}");
    AtAppend(s, q, gap, "}");
    if gap != "" { AtChar(s, q, gap, 0); }
  }

  lemma AttributeRead(s: string, p: nat, attrs: seq<Spaced>)
    requires attrs != [] && GoodAttributes(attrs) && At(s, p, PrintAttributes(attrs) + "}")
    ensures var a, q := attrs[0], p + |attrs[0].word|;
      FindId(s, p) == (a.word, q) && a.word != "" && q <= |s|
      && SkipWs(s, q) == q + |a.gap| && At(s, q, a.gap)
      && (|attrs| == 1 ==> At(s, q, a.gap + "}") && PrintAttributes(attrs[1..]) == "")
      && At(s, q + |a.gap|, PrintAttributes(attrs[1..]) + "}")
      && p + |PrintAttributes(attrs)| == q + |a.gap| + |PrintAttributes(attrs[1..])|
  {
    hide FindId, SkipWs, IsId, At, IsName, AllWhite, Apart, PrintAttributes;
    var a, more := attrs[0], PrintAttributes(attrs[1..]) + "}";
    AttributeSpelled(attrs);
    IdIsName(a.word);
    AttributeApart(attrs);
    WordRead(s, p, a.word, a.gap, more);
    AtAppend(s, p, a.word, a.gap + more);
    AtAppend(s, p + |a.word|, a.gap, more);
  }

  lemma AttributeSpelled(attrs: seq<Spaced>)
    requires attrs != []
    ensures var a, rest := attrs[0], PrintAttributes(attrs[1..]);
      PrintAttributes(attrs) + "}" == a.word + a.gap + (rest + "}")
      && PrintAttributes(attrs) + "}" == a.word + (a.gap + (rest + "}"))
      && |PrintAttributes(attrs)| == |a.word| + |a.gap| + |rest| && (|attrs| == 1 ==> rest == "" && rest + "}" == "}")
  {
    Regroup(attrs[0].word, attrs[0].gap, PrintAttributes(attrs[1..]));
    if |attrs| == 1 { assert attrs[1..] == [] && "" + "}" == "}"; }
  }

  lemma Regroup(a: string, b: string, c: string)
    ensures a + b + c + "}" == a + b + (c + "}") == a + (b + (c + "}"))
  {
  }

  lemma IdIsName(a: string)
    requires IsId(a)
    ensures IsName(a) && a != "" && !IsSpace(a[0]) && a[0] != '$' && a[0] != '|'
  {
  }

  lemma AttributeApart(attrs: seq<Spaced>)
    requires attrs != [] && GoodAttributes(attrs)
    ensures Apart(attrs[0].gap, PrintAttributes(attrs[1..]) + "}")
  {
    hide IsId, AllWhite;
    if |attrs| > 1 {
      IdIsName(attrs[1].word);
      AttributesStart(attrs[1..], "}");
    } else {
      assert PrintAttributes(attrs[1..]) + "}" == "}";
      BraceIsNoId();
    }
  }

  lemma BraceIsNoId()
    ensures !IsIdChar('}') && !IsSpace('}')
  {
  }

  lemma AttributesStart(attrs: seq<Spaced>, rest: string)
    requires attrs != [] && IsId(attrs[0].word)
    ensures var w := PrintAttributes(attrs) + rest; w != "" && !IsSpace(w[0]) && w[0] != '$'
  {
    IdIsName(attrs[0].word);
    assert (PrintAttributes(attrs) + rest)[0] == attrs[0].word[0];
  }

  lemma HeadParts(env: Env, st: State, h: Head)
    requires GoodHead(h) && At(env.text, st.pos, LoopHead(h))
    ensures var s, p1 := env.text, st.pos + 5 + |h.lead|;
            var p2 := p1 + |PrintVariables(h.vars)| + 2;
            var p3 := p2 + |h.gap|;
            && st.pos + |LoopHead(h)| == p3 + |PrintAttributes(h.attrs)| + 1
            && st.pos + 1 < |s| && CharAt(s, st.pos) == '$' && CharAt(s, st.pos + 1) == '{'
            && SkipWs(s, st.pos + 2) == st.pos + 2 && CharAt(s, st.pos + 2) != '|'
            && FindId(s, st.pos + 2) == ("for", st.pos + 5) && SkipWs(s, st.pos + 5) == p1 && CharAt(s, p1) == '$'
            && Apart(h.gap, PrintAttributes(h.attrs) + "}")
            && At(s, p1, PrintVariables(h.vars) + ("in" + h.gap + (PrintAttributes(h.attrs) + "}")))
            && SkipWs(s, p2) == p3 && At(s, p3, PrintAttributes(h.attrs) + "}") && CharAt(s, p3) != '$'
  {
    hide FindId, SkipWs, IsId, At, LoopHead, PrintVariables, PrintAttributes, CharAt, IsName, GoodVariables,
         GoodAttributes, AllWhite, Apart;
    var s, p1 := env.text, st.pos + 5 + |h.lead|;
    var vars, attrs := PrintVariables(h.vars), PrintAttributes(h.attrs) + "}";
    var more := vars + ("in" + h.gap + attrs);
    HeadPieces(h);
    KeywordsAreNames();
    NoBar();
    LeadApart(h.lead, more);
    OpeningRead(env, st, "", None, "for", h.lead + more);
    GapRead(s, st.pos + 5, h.lead, more);
    AtAppend(s, p1, vars, "in" + h.gap + attrs);
    InRead(s, p1 + |vars|, h.gap, attrs);
  }

  lemma InRead(s: string, p: nat, gap: string, rest: string)
    requires Apart(gap, rest) && At(s, p, "in" + gap + rest)
    ensures SkipWs(s, p + 2) == p + 2 + |gap| && At(s, p + 2 + |gap|, rest) && CharAt(s, p + 2 + |gap|) == rest[0]
  {
    hide FindId, SkipWs, At, IsName, Apart, CharAt;
    KeywordsAreNames();
    WordRead(s, p, "in", gap, rest);
  }

  lemma LeadApart(lead: string, more: string)
    requires AllWhite(lead) && more != "" && more[0] == '$'
    ensures lead + more != "" && !IsIdChar((lead + more)[0]) && !IsSpace(more[0])
  {
    if lead != "" { WhiteIsNoId(lead[0]); }
  }

  lemma HeadPieces(h: Head)
    requires GoodHead(h)
    ensures LoopHead(h) == "${" + "" + PrintBar(None) + "for"
                           + (h.lead + (PrintVariables(h.vars) + ("in" + h.gap + (PrintAttributes(h.attrs) + "}"))))
    ensures var w := PrintVariables(h.vars) + ("in" + h.gap + (PrintAttributes(h.attrs) + "}")); w != "" && w[0] == '$'
    ensures var w := PrintAttributes(h.attrs) + "}"; w != "" && w[0] != '$' && Apart(h.gap, w)
  {
    hide IsId, AllWhite;
    NoBar();
    VariablesStart(h.vars, "in" + h.gap + (PrintAttributes(h.attrs) + "}"));
    AttributesStart(h.attrs, "}");
    HeadSpelled(h);
  }

  lemma HeadSpelled(h: Head)
    ensures LoopHead(h) == "${" + "" + "" + "for"
                           + (h.lead + (PrintVariables(h.vars) + ("in" + h.gap + (PrintAttributes(h.attrs) + "}"))))
  {
    hide PrintVariables, PrintAttributes;
  }

  /** The head of a loop opens the loop in one step, or skips it when it has no iterations. */
  lemma HeadStep(env: Env, st: State, h: Head)
    requires GoodHead(h) && |h.vars| == |h.attrs| <= MAX_LOOP_VARIABLES && At(env.text, st.pos, LoopHead(h))
    ensures st.pos < |env.text|
    ensures var body := st.pos + |LoopHead(h)|;
            var values := BindLoop(env.attrs, Words(h.vars), Words(h.attrs));
            Step(env, st)
            == if Iterations(values) == 0 then
                 match SkipLoop(env.text, body) case None => None case Some(end) => Some(st.(pos := end))
               else Some(State(body, st.out, [Frame(Binding(values, 0), Iterations(values), body)] + st.stack))
  {
    hide FindId, SkipWs, IsId, CharAt, LoopHead, LoopVariables, LoopAttributes, BindLoop, Iterations, SkipLoop,
        PrintVariables, PrintAttributes, At, Apart, AllWhite, GoodVariables, GoodAttributes, Words;
    var p1 := st.pos + 5 + |h.lead|;
    var p3 := p1 + |PrintVariables(h.vars)| + 2 + |h.gap|;
    HeadParts(env, st, h);
    VariablesRead(env.text, p1, h.vars, h.gap, PrintAttributes(h.attrs) + "}", []);
    AttributesRead(env.text, p3, h.attrs, []);
    assert [] + Words(h.vars) == Words(h.vars) && [] + Words(h.attrs) == Words(h.attrs);
    SameLength(h.vars);
    SameLength(h.attrs);
  }

  lemma SameLength(ws: seq<Spaced>)
    ensures |Words(ws)| == |ws|
  {
  }

  /** The end tag starts another iteration, or leaves the loop. */
  lemma EndStep(env: Env, st: State)
    requires At(env.text, st.pos, END_TAG) && st.stack != []
    ensures st.pos < |env.text|
    ensures var f := st.stack[0];
            Step(env, st)
            == if f.b.idx + 1 >= f.max then Some(State(st.pos + |END_TAG|, st.out, st.stack[1..]))
               else Some(State(f.reset, st.out, [f.(b := Binding(f.b.values, f.b.idx + 1))] + st.stack[1..]))
  {
    hide FindId, SkipWs, CharAt, Conditional, LoopStart, Simple;
    EndPieces();
    KeywordsAreNames();
    BraceIsNoId();
    OpeningRead(env, st, "", None, "end", "}");
    BraceIsSolid(env.text, st.pos + 5);
  }

  lemma EndPieces()
    ensures END_TAG == "${" + "" + PrintBar(None) + "end" + "}" && |END_TAG| == 6
  {
    assert PrintBar(None) == "";
  }

  lemma TextStep(env: Env, st: State, c: char)
    requires At(env.text, st.pos, [c]) && (c == '$' ==> CharAt(env.text, st.pos + 1) != '{')
    ensures st.pos < |env.text|
    ensures Step(env, st) == Some(State(st.pos + 1, st.out + [c], st.stack))
  {
    AtChar(env.text, st.pos, [c], 0);
  }
}
