/** Skipping the body of a loop that has no iterations: the search passes over whole nodes,
    so that the end tag it finds is the one of the loop. */
module TemplateSkipping {
  import opened Template
  import opened TemplateMeaning
  import opened TemplateReading
  import opened Text
  import opened Wrappers

  // ---------- skipping a loop body ----------

  /** Text without "${" is passed over. */
  lemma {:induction false} PassPlain(s: string, i: nat, j: nat)
    requires i <= j <= |s| && forall k | i <= k < j :: !(s[k] == '$' && CharAt(s, k + 1) == '{')
    ensures SkipLoop(s, i) == SkipLoop(s, j)
    decreases j - i
  {
    if i < j {
      NotAhead(s, i);
      PassPlain(s, i + 1, j);
    }
  }

  lemma AheadMeans(s: string, i: nat, w: string, k: nat)
    ensures Ahead(s, i, w) && k < |w| ==> i + k < |s| && s[i + k] == w[k]
  {
    if Ahead(s, i, w) && k < |w| { assert s[i..i + |w|][k] == w[k]; }
  }

  lemma TagsOpen(s: string, i: nat)
    ensures Ahead(s, i, FOR_PREFIX) || Ahead(s, i, END_TAG) ==> i + 1 < |s| && s[i] == '$' && s[i + 1] == '{'
  {
    hide Ahead;
    AheadMeans(s, i, FOR_PREFIX, 0);
    AheadMeans(s, i, FOR_PREFIX, 1);
    AheadMeans(s, i, END_TAG, 0);
    AheadMeans(s, i, END_TAG, 1);
  }

  lemma NotAhead(s: string, i: nat)
    requires i < |s| && !(s[i] == '$' && CharAt(s, i + 1) == '{')
    ensures !Ahead(s, i, FOR_PREFIX) && !Ahead(s, i, END_TAG)
  {
    hide Ahead;
    TagsOpen(s, i);
  }

  lemma PassPlainAt(s: string, p: nat, w: string)
    requires At(s, p, w) && NoOpening(w) && (w != "" && w[|w| - 1] == '$' ==> CharAt(s, p + |w|) != '{')
    ensures SkipLoop(s, p) == SkipLoop(s, p + |w|)
  {
    forall k | p <= k < p + |w| ensures !(s[k] == '$' && CharAt(s, k + 1) == '{') {
      AtChar(s, p, w, k - p);
      if k + 1 < p + |w| { AtChar(s, p, w, k - p + 1); }
    }
    PassPlain(s, p, p + |w|);
  }

  lemma NoOpeningJoin(a: string, b: string)
    requires NoOpening(a) && NoOpening(b) && (a != "" && b != "" && a[|a| - 1] == '$' ==> b[0] != '{')
    ensures NoOpening(a + b)
  {
  }

  lemma IdHasNoOpening(w: string)
    requires IsName(w)
    ensures NoOpening(w) && w[0] != '{' && w[|w| - 1] != '$'
  {
    if !IsId(w) {
      assert forall i | 1 <= i < |w| :: w[i] == w[1..][i - 1] && IsIdChar(w[i]);
    }
  }

  lemma QuotedHasNoOpening(q: Quoted)
    requires GoodQuoted(q)
    ensures NoOpening(PrintQuoted(q)) && PrintQuoted(q)[0] != '{' && PrintQuoted(q)[|PrintQuoted(q)| - 1] != '$'
  {
    NoOpeningJoin([q.quote], q.text);
    NoOpeningJoin([q.quote] + q.text, [q.quote]);
  }

  /** Text that can stand between other such text: no "${" in it, and none made where it is joined. */
  predicate Harmless(w: string) {
    NoOpening(w) && (w != "" ==> w[0] != '{' && w[|w| - 1] != '$')
  }

  lemma HarmlessJoin(a: string, b: string)
    requires Harmless(a) && Harmless(b)
    ensures Harmless(a + b)
  {
    NoOpeningJoin(a, b);
  }

  lemma WhiteIsHarmless(w: string)
    requires AllWhite(w)
    ensures Harmless(w)
  {
  }

  lemma WordsAreHarmless()
    ensures Harmless("case") && Harmless(":") && Harmless("default") && Harmless("switch") && Harmless("in")
    ensures Harmless("}") && Harmless("|") && Harmless("")
  {
  }

  lemma NameIsHarmless(w: string)
    requires IsName(w)
    ensures Harmless(w)
  {
    IdHasNoOpening(w);
  }

  lemma QuotedIsHarmless(q: Quoted)
    requires GoodQuoted(q)
    ensures Harmless(PrintQuoted(q))
  {
    QuotedHasNoOpening(q);
  }

  lemma ColonIsHarmless(c: Colon)
    requires GoodColon(c)
    ensures Harmless(PrintColon(c))
  {
    hide Harmless;
    WordsAreHarmless();
    WhiteIsHarmless(c.before);
    WhiteIsHarmless(c.after);
    HarmlessJoin(c.before, ":");
    HarmlessJoin(c.before + ":", c.after);
  }

  lemma PatternIsHarmless(regexes: Regexes, l: Pattern)
    requires GoodPattern(regexes, l)
    ensures Harmless(PrintPattern(l))
  {
    match l
    case Literal(p) => QuotedIsHarmless(p);
    case Regex(p) =>
      NoOpeningJoin("/", p);
      NoOpeningJoin("/" + p, "/");
  }

  lemma CaseIsHarmless(regexes: Regexes, c: Case)
    requires GoodCase(regexes, c)
    ensures Harmless(PrintCase(c))
  {
    hide Harmless, PrintPattern, PrintColon, PrintQuoted, AllWhite, GoodPattern, GoodColon, GoodQuoted;
    var p, colon, v := PrintPattern(c.pattern), PrintColon(c.colon), PrintQuoted(c.value);
    WordsAreHarmless();
    WhiteIsHarmless(c.lead);
    PatternIsHarmless(regexes, c.pattern);
    ColonIsHarmless(c.colon);
    QuotedIsHarmless(c.value);
    WhiteIsHarmless(c.trail);
    HarmlessJoin("case", c.lead);
    HarmlessJoin("case" + c.lead, p);
    HarmlessJoin("case" + c.lead + p, colon);
    HarmlessJoin("case" + c.lead + p + colon, v);
    HarmlessJoin("case" + c.lead + p + colon + v, c.trail);
  }

  lemma {:induction false} CasesAreHarmless(regexes: Regexes, cases: seq<Case>)
    requires GoodCases(regexes, cases)
    ensures Harmless(PrintCases(cases))
  {
    hide GoodCase, PrintCase, Harmless;
    WordsAreHarmless();
    if cases != [] {
      CaseIsHarmless(regexes, cases[0]);
      CasesAreHarmless(regexes, cases[1..]);
      HarmlessJoin(PrintCase(cases[0]), PrintCases(cases[1..]));
    }
  }

  lemma DefaultIsHarmless(d: Default)
    requires GoodDefault(d)
    ensures Harmless(PrintDefault(d))
  {
    hide Harmless, PrintColon, PrintQuoted, AllWhite, GoodColon, GoodQuoted;
    WordsAreHarmless();
    ColonIsHarmless(d.colon);
    QuotedIsHarmless(d.value);
    WhiteIsHarmless(d.trail);
    HarmlessJoin("default", PrintColon(d.colon));
    HarmlessJoin("default" + PrintColon(d.colon), PrintQuoted(d.value));
    HarmlessJoin("default" + PrintColon(d.colon) + PrintQuoted(d.value), d.trail);
  }

  /** What stands between the braces of a switch. */
  function SwitchBody(lead: string, gap: string, subject: Spaced, cases: seq<Case>, d: Default): string {
    lead + "switch" + gap + subject.word + subject.gap + PrintCases(cases) + PrintDefault(d)
  }

  lemma SwitchIsHarmless(regexes: Regexes, lead: string, gap: string, subject: Spaced, cases: seq<Case>, d: Default)
    requires GoodNode(regexes, Switch(lead, gap, subject, cases, d))
    ensures Harmless(SwitchBody(lead, gap, subject, cases, d))
    ensures PrintNode(Switch(lead, gap, subject, cases, d))
         == "$" + ("{" + SwitchBody(lead, gap, subject, cases, d) + "}")
  {
    hide Harmless, PrintCases, PrintDefault, AllWhite, GoodCases, GoodDefault, IsName;
    WordsAreHarmless();
    WhiteIsHarmless(lead);
    WhiteIsHarmless(gap);
    NameIsHarmless(subject.word);
    WhiteIsHarmless(subject.gap);
    CasesAreHarmless(regexes, cases);
    DefaultIsHarmless(d);
    HarmlessJoin(lead, "switch");
    HarmlessJoin(lead + "switch", gap);
    HarmlessJoin(lead + "switch" + gap, subject.word);
    HarmlessJoin(lead + "switch" + gap + subject.word, subject.gap);
    HarmlessJoin(lead + "switch" + gap + subject.word + subject.gap, PrintCases(cases));
    HarmlessJoin(lead + "switch" + gap + subject.word + subject.gap + PrintCases(cases), PrintDefault(d));
    SwitchSpelled(lead, gap, subject, cases, d);
  }

  lemma SwitchSpelled(lead: string, gap: string, subject: Spaced, cases: seq<Case>, d: Default)
    ensures PrintNode(Switch(lead, gap, subject, cases, d))
         == "$" + ("{" + SwitchBody(lead, gap, subject, cases, d) + "}")
  {
    hide PrintCases, PrintDefault;
  }

  lemma VariableIsHarmless(v: Spaced)
    requires IsId(v.word) && AllWhite(v.gap)
    ensures Harmless("$" + v.word + v.gap)
  {
    hide Harmless, IsId;
    DollarName(v.word);
    NameIsHarmless("$" + v.word);
    WhiteIsHarmless(v.gap);
    HarmlessJoin("$" + v.word, v.gap);
  }

  lemma {:induction false} VariablesAreHarmless(vars: seq<Spaced>)
    requires GoodVariables(vars)
    ensures Harmless(PrintVariables(vars))
  {
    hide Harmless, IsId, AllWhite;
    WordsAreHarmless();
    if vars != [] {
      assert GoodVariables(vars[1..]);
      VariableIsHarmless(vars[0]);
      VariablesAreHarmless(vars[1..]);
      HarmlessJoin("$" + vars[0].word + vars[0].gap, PrintVariables(vars[1..]));
    }
  }

  lemma {:induction false} AttributesAreHarmless(attrs: seq<Spaced>)
    requires GoodAttributes(attrs)
    ensures Harmless(PrintAttributes(attrs))
  {
    hide Harmless, IsId, AllWhite;
    WordsAreHarmless();
    if attrs != [] {
      assert GoodAttributes(attrs[1..]);
      IdIsName(attrs[0].word);
      NameIsHarmless(attrs[0].word);
      WhiteIsHarmless(attrs[0].gap);
      AttributesAreHarmless(attrs[1..]);
      HarmlessJoin(attrs[0].word, attrs[0].gap);
      HarmlessJoin(attrs[0].word + attrs[0].gap, PrintAttributes(attrs[1..]));
    }
  }

  /** What follows "${for" in the head of a loop. */
  function HeadRest(h: Head): string {
    h.lead + PrintVariables(h.vars) + "in" + h.gap + PrintAttributes(h.attrs) + "}"
  }

  lemma HeadHasNoOpening(h: Head)
    requires GoodHead(h)
    ensures LoopHead(h) == FOR_PREFIX + HeadRest(h)
    ensures NoOpening(HeadRest(h)) && HeadRest(h) != "" && HeadRest(h)[|HeadRest(h)| - 1] == '}'
  {
    hide LoopHead, HeadRest, GoodHead, NoOpening;
    HeadIsHarmless(h);
    HeadIsForAndRest(h);
  }

  lemma HeadIsForAndRest(h: Head)
    ensures LoopHead(h) == FOR_PREFIX + HeadRest(h)
    ensures HeadRest(h) != "" && HeadRest(h)[|HeadRest(h)| - 1] == '}'
  {
    hide PrintVariables, PrintAttributes;
  }

  lemma HeadIsHarmless(h: Head)
    requires GoodHead(h)
    ensures Harmless(HeadRest(h))
  {
    hide PrintVariables, PrintAttributes, AllWhite, Harmless, GoodVariables, GoodAttributes;
    var v, a := PrintVariables(h.vars), PrintAttributes(h.attrs);
    WordsAreHarmless();
    WhiteIsHarmless(h.lead);
    VariablesAreHarmless(h.vars);
    WhiteIsHarmless(h.gap);
    AttributesAreHarmless(h.attrs);
    HarmlessJoin(h.lead, v);
    HarmlessJoin(h.lead + v, "in");
    HarmlessJoin(h.lead + v + "in", h.gap);
    HarmlessJoin(h.lead + v + "in" + h.gap, a);
    HarmlessJoin(h.lead + v + "in" + h.gap + a, "}");
  }

  /** A variable is not taken for a loop or an end: the second character behind the '$' is white space, a bar or
      the beginning of its name. */
  lemma VariableIsNoTag(s: string, p: nat, n: Node)
    requires n.Variable? && GoodVariable(n.lead, n.bar, n.name, n.trail) && At(s, p, PrintNode(n))
    ensures !Ahead(s, p, FOR_PREFIX) && !Ahead(s, p, END_TAG)
  {
    hide Ahead, PlainName;
    var w := PrintNode(n);
    if n.lead != "" {
      assert w[2] == n.lead[0];
      NoTagAt(s, p, w);
    } else if n.bar.Some? {
      assert w[2] == '|';
      NoTagAt(s, p, w);
    } else {
      VariableStarts(n);
      var k := NotForAt(n.name, n.trail);
      AtChar(s, p, w, 2 + k);
      assert FOR_PREFIX[2 + k] == "for"[k];
      DifferAt(s, p, FOR_PREFIX, 2 + k);
      var j := NotEndAt(n.name, n.trail);
      AtChar(s, p, w, 2 + j);
      assert END_TAG[2 + j] == "end}"[j];
      DifferAt(s, p, END_TAG, 2 + j);
    }
  }

  lemma NoTagAt(s: string, p: nat, w: string)
    requires At(s, p, w) && |w| > 2 && w[2] != 'f' && w[2] != 'e'
    ensures !Ahead(s, p, FOR_PREFIX) && !Ahead(s, p, END_TAG)
  {
    hide Ahead;
    AtChar(s, p, w, 2);
    DifferAt(s, p, FOR_PREFIX, 2);
    DifferAt(s, p, END_TAG, 2);
  }

  lemma VariableStarts(n: Node)
    requires n.Variable? && n.lead == "" && n.bar == None
    ensures var w, t := PrintNode(n), n.name + (n.trail + "}");
      |w| == 2 + |t| && forall k | 0 <= k < |t| :: w[2 + k] == t[k]
  {
    assert PrintNode(n) == "${" + (n.name + (n.trail + "}"));
  }

  lemma DifferAt(s: string, p: nat, tag: string, k: nat)
    requires k < |tag| && p + k < |s| && s[p + k] != tag[k]
    ensures !Ahead(s, p, tag)
  {
    AheadMeans(s, p, tag, k);
  }

  /** Where a plain name, with what follows it, differs from "for". */
  lemma NotForAt(name: string, trail: string) returns (k: nat)
    requires PlainName(name) && !("for" <= name) && AllWhite(trail)
    ensures var t := name + (trail + "}"); k < 3 && k < |t| && t[k] != "for"[k]
  {
    IdHasNoOpening(name);
    SpelledFor(name);
    BehindName(trail);
    if name[0] != 'f' { return 0; }
    if |name| == 1 || name[1] != 'o' { return 1; }
    return 2;
  }

  /** Where it differs from "end}". */
  lemma NotEndAt(name: string, trail: string) returns (k: nat)
    requires PlainName(name) && AllWhite(trail)
    ensures var t := name + (trail + "}"); k < 4 && k < |t| && t[k] != "end}"[k]
  {
    NoBraceInName(name);
    SpelledEnd(name);
    BehindName(trail);
    if name[0] != 'e' { return 0; }
    if |name| == 1 || name[1] != 'n' { return 1; }
    if |name| == 2 || name[2] != 'd' { return 2; }
    return 3;
  }

  lemma BehindName(trail: string)
    requires AllWhite(trail)
    ensures var c := (trail + "}")[0]; c != 'o' && c != 'r' && c != 'n' && c != 'd'
  {
  }

  lemma SpelledFor(name: string)
    ensures |name| >= 3 && name[0] == 'f' && name[1] == 'o' && name[2] == 'r' ==> "for" <= name
  {
  }

  lemma SpelledEnd(name: string)
    ensures |name| == 3 && name[0] == 'e' && name[1] == 'n' && name[2] == 'd' ==> name == "end"
  {
  }

  lemma NoBraceInName(name: string)
    requires IsName(name)
    ensures name != "" && forall i | 0 <= i < |name| :: name[i] != '}'
  {
    if !IsId(name) {
      assert forall i | 1 <= i < |name| :: name[i] == name[1..][i - 1] && IsIdChar(name[i]);
    }
  }

  lemma SwitchIsNoTag(s: string, p: nat, lead: string, gap: string, subject: Spaced, cases: seq<Case>, d: Default)
    requires AllWhite(lead) && At(s, p, PrintNode(Switch(lead, gap, subject, cases, d)))
    ensures !Ahead(s, p, FOR_PREFIX) && !Ahead(s, p, END_TAG)
  {
    hide Ahead, PrintCases, PrintDefault;
    var w := PrintNode(Switch(lead, gap, subject, cases, d));
    assert w[2] == if lead == "" then 's' else lead[0];
    NoTagAt(s, p, w);
  }

  /** Past the '$' of a replacement that is no tag, the rest of it is passed over. */
  lemma PassReplacement(s: string, p: nat, body: string)
    requires At(s, p, "$" + ("{" + body + "}")) && Harmless(body)
    requires !Ahead(s, p, FOR_PREFIX) && !Ahead(s, p, END_TAG)
    ensures SkipLoop(s, p) == SkipLoop(s, p + |body| + 3)
  {
    hide Ahead;
    AtAppend(s, p, "$", "{" + body + "}");
    NoOpeningJoin("{", body);
    NoOpeningJoin("{" + body, "}");
    PassPlainAt(s, p + 1, "{" + body + "}");
  }

  function VariableBody(n: Node): string
    requires n.Variable?
  {
    n.lead + PrintBar(n.bar) + n.name + n.trail
  }

  lemma VariableShape(n: Node)
    requires n.Variable? && AllWhite(n.lead) && GoodBar(n.bar) && IsName(n.name) && AllWhite(n.trail)
    ensures PrintNode(n) == "$" + ("{" + VariableBody(n) + "}") && Harmless(VariableBody(n))
  {
    hide Harmless, AllWhite, IsName, PrintNode;
    VariableSpelled(n);
    WordsAreHarmless();
    if n.bar.Some? {
      WhiteIsHarmless(n.bar.value);
      HarmlessJoin("|", n.bar.value);
    }
    WhiteIsHarmless(n.lead);
    NameIsHarmless(n.name);
    WhiteIsHarmless(n.trail);
    HarmlessJoin(n.lead, PrintBar(n.bar));
    HarmlessJoin(n.lead + PrintBar(n.bar), n.name);
    HarmlessJoin(n.lead + PrintBar(n.bar) + n.name, n.trail);
  }

  lemma VariableSpelled(n: Node)
    requires n.Variable?
    ensures PrintNode(n) == "$" + ("{" + VariableBody(n) + "}")
  {
    hide PrintBar;
    assert "$" + "{" == "${";
    Braced(n.lead, PrintBar(n.bar), n.name, n.trail);
  }

  lemma Braced(a: string, b: string, c: string, d: string)
    ensures "${" + a + b + c + d + "}" == "$" + ("{" + (a + b + c + d) + "}")
  {
  }

  lemma PassVariable(s: string, p: nat, n: Node)
    requires n.Variable? && GoodVariable(n.lead, n.bar, n.name, n.trail) && At(s, p, PrintNode(n))
    ensures SkipLoop(s, p) == SkipLoop(s, p + |PrintNode(n)|)
  {
    hide Ahead, Harmless, VariableBody, SkipLoop;
    VariableIsNoTag(s, p, n);
    VariableShape(n);
    PassReplacement(s, p, VariableBody(n));
  }

  lemma PassSwitch(regexes: Regexes, s: string, p: nat, n: Node)
    requires n.Switch? && GoodNode(regexes, n) && At(s, p, PrintNode(n))
    ensures SkipLoop(s, p) == SkipLoop(s, p + |PrintNode(n)|)
  {
    hide Ahead, Harmless, PrintNode, SwitchBody, SkipLoop, GoodSubject, GoodCases, GoodDefault;
    SwitchIsNoTag(s, p, n.lead, n.gap, n.subject, n.cases, n.fallback);
    SwitchIsHarmless(regexes, n.lead, n.gap, n.subject, n.cases, n.fallback);
    PassReplacement(s, p, SwitchBody(n.lead, n.gap, n.subject, n.cases, n.fallback));
  }

  lemma TagAhead(s: string, p: nat, w: string)
    requires At(s, p, w)
    ensures Ahead(s, p, w)
  {
  }

  lemma ForIsNotEnd(s: string, p: nat)
    requires Ahead(s, p, END_TAG)
    ensures !Ahead(s, p, FOR_PREFIX)
  {
    AheadMeans(s, p, END_TAG, 2);
    DifferAt(s, p, FOR_PREFIX, 2);
  }

  lemma FirstChar(nodes: seq<Node>)
    requires nodes != []
    ensures Print(nodes) != "" && (Print(nodes)[0] == '{' ==> nodes[0] == Text('{'))
  {
    hide PrintQuoted, PrintCases;
    assert PrintNode(nodes[0]) != "";
  }

  /** The character after the first node is no '{' where that would matter. */
  lemma AfterFirst(regexes: Regexes, s: string, p: nat, nodes: seq<Node>)
    requires nodes != [] && Good(regexes, nodes) && At(s, p, Print(nodes)) && CharAt(s, p + |Print(nodes)|) != '{'
    ensures At(s, p, PrintNode(nodes[0])) && At(s, p + |PrintNode(nodes[0])|, Print(nodes[1..]))
    ensures |Print(nodes)| == |PrintNode(nodes[0])| + |Print(nodes[1..])|
    ensures nodes[0] == Text('$') ==> CharAt(s, p + 1) != '{'
  {
    hide PrintNode, GoodNode, At;
    AtAppend(s, p, PrintNode(nodes[0]), Print(nodes[1..]));
    if nodes[0] == Text('$') && |nodes| > 1 {
      TextLength('$');
      FirstChar(nodes[1..]);
      AtChar(s, p + |PrintNode(nodes[0])|, Print(nodes[1..]), 0);
    } else if nodes[0] == Text('$') {
      TextLength('$');
      assert nodes[1..] == [];
    }
  }

  lemma TextLength(c: char)
    ensures PrintNode(Text(c)) == [c]
  {
  }

  lemma LoopParts(s: string, p: nat, h: Head, body: seq<Node>)
    requires At(s, p, PrintNode(Loop(h, body)))
    ensures var b := p + |LoopHead(h)|;
            && At(s, p, LoopHead(h)) && At(s, b, Print(body)) && At(s, b + |Print(body)|, END_TAG)
            && |PrintNode(Loop(h, body))| == |LoopHead(h)| + |Print(body)| + |END_TAG|
            && CharAt(s, b + |Print(body)|) == '$'
  {
    hide LoopHead, Print, At;
    assert PrintNode(Loop(h, body)) == LoopHead(h) + Print(body) + END_TAG;
    AtAppend(s, p, LoopHead(h) + Print(body), END_TAG);
    AtAppend(s, p, LoopHead(h), Print(body));
    AtChar(s, p + |LoopHead(h)| + |Print(body)|, END_TAG, 0);
  }

  /** From just after "${for", the search stops after the end tag of this very loop. */
  lemma {:induction false} SkipFromFor(regexes: Regexes, s: string, p: nat, h: Head, body: seq<Node>)
    requires GoodNode(regexes, Loop(h, body)) && At(s, p, PrintNode(Loop(h, body)))
    ensures Ahead(s, p, FOR_PREFIX)
    ensures SkipLoop(s, p + |FOR_PREFIX|) == SkipLoop(s, p + |LoopHead(h)|)
    ensures SkipLoop(s, p + |LoopHead(h)|) == Some(p + |PrintNode(Loop(h, body))|)
    decreases Loop(h, body), 0
  {
    hide LoopHead, Print, At, Ahead, NoOpening, PrintNode, HeadRest, GoodHead;
    LoopParts(s, p, h, body);
    var b := p + |LoopHead(h)|;
    var e := b + |Print(body)|;
    HeadHasNoOpening(h);
    AtAppend(s, p, FOR_PREFIX, HeadRest(h));
    TagAhead(s, p, FOR_PREFIX);
    PassPlainAt(s, p + |FOR_PREFIX|, HeadRest(h));
    SkipNodes(regexes, s, b, body);
    TagAhead(s, e, END_TAG);
    ForIsNotEnd(s, e);
    AtFits(s, e, END_TAG);
  }

  lemma {:induction false} SkipNode(regexes: Regexes, s: string, p: nat, n: Node)
    requires GoodNode(regexes, n) && At(s, p, PrintNode(n)) && (n == Text('$') ==> CharAt(s, p + 1) != '{')
    ensures SkipLoop(s, p) == SkipLoop(s, p + |PrintNode(n)|)
    decreases n, 1, 1
  {
    hide PrintNode, At, Ahead, GoodNode, LoopHead, SkipLoop, GoodVariable;
    match n
    case Text(c) => PassText(s, p, c);
    case Variable(_, _, _, _) =>
      VariableIsGood(regexes, n);
      PassVariable(s, p, n);
    case Switch(_, _, _, _, _) => PassSwitch(regexes, s, p, n);
    case Loop(h, body) => PassLoop(regexes, s, p, h, body);
  }

  lemma {:induction false} PassLoop(regexes: Regexes, s: string, p: nat, h: Head, body: seq<Node>)
    requires GoodNode(regexes, Loop(h, body)) && At(s, p, PrintNode(Loop(h, body)))
    ensures SkipLoop(s, p) == SkipLoop(s, p + |PrintNode(Loop(h, body))|)
    decreases Loop(h, body), 1, 0
  {
    hide PrintNode, At, Ahead, GoodNode, LoopHead;
    SkipFromFor(regexes, s, p, h, body);
    AtFits(s, p, PrintNode(Loop(h, body)));
    LoopNotEmpty(h, body);
  }

  lemma VariableIsGood(regexes: Regexes, n: Node)
    requires n.Variable? && GoodNode(regexes, n)
    ensures GoodVariable(n.lead, n.bar, n.name, n.trail)
  {
  }

  lemma PassText(s: string, p: nat, c: char)
    requires At(s, p, PrintNode(Text(c))) && (c == '$' ==> CharAt(s, p + 1) != '{')
    ensures SkipLoop(s, p) == SkipLoop(s, p + |PrintNode(Text(c))|)
  {
    hide Ahead;
    AtChar(s, p, [c], 0);
    NotAhead(s, p);
  }

  lemma LoopNotEmpty(h: Head, body: seq<Node>)
    ensures PrintNode(Loop(h, body)) != ""
  {
  }

  /** Skipping passes over whole nodes. */
  lemma {:induction false} SkipNodes(regexes: Regexes, s: string, p: nat, nodes: seq<Node>)
    requires Good(regexes, nodes) && At(s, p, Print(nodes)) && CharAt(s, p + |Print(nodes)|) != '{'
    ensures SkipLoop(s, p) == SkipLoop(s, p + |Print(nodes)|)
    decreases nodes, 0
  {
    hide PrintNode, GoodNode, At, SkipLoop;
    if nodes != [] {
      AfterFirst(regexes, s, p, nodes);
      SkipNode(regexes, s, p, nodes[0]);
      SkipNodes(regexes, s, p + |PrintNode(nodes[0])|, nodes[1..]);
    }
  }
}
