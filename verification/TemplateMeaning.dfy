/** Templates as trees: how they are written, and what they mean. */
module TemplateMeaning {
  import opened JsonText
  import opened Ordering
  import opened Template
  import opened Wrappers

  /** A quoted string of a switch, with the quote that it is written with. */
  datatype Quoted = Quoted(text: string, quote: char)

  /** A word with the white space after it. */
  datatype Spaced = Spaced(word: string, gap: string)

  /** The colon of a case, with the white space around it. */
  datatype Colon = Colon(before: string, after: string)

  datatype Pattern = Literal(quoted: Quoted) | Regex(regex: string)

  datatype Case = Case(lead: string, pattern: Pattern, colon: Colon, value: Quoted, trail: string)

  datatype Default = Default(colon: Colon, value: Quoted, trail: string)

  /** The head of a loop: white space, variables, white space behind `in`, attributes. */
  datatype Head = Head(lead: string, vars: seq<Spaced>, gap: string, attrs: seq<Spaced>)

  /** A bar carries the white space after it. */
  datatype Node =
    | Text(c: char)
    | Variable(lead: string, bar: Option<string>, name: string, trail: string)
    | Switch(lead: string, gap: string, subject: Spaced, cases: seq<Case>, fallback: Default)
    | Loop(head: Head, body: seq<Node>)

  // ---------- how they are spelled ----------

  function PrintQuoted(q: Quoted): string {
    [q.quote] + q.text + [q.quote]
  }

  function PrintColon(c: Colon): string {
    c.before + ":" + c.after
  }

  function PrintPattern(l: Pattern): string {
    match l
    case Literal(q) => PrintQuoted(q)
    case Regex(p) => "/" + p + "/"
  }

  function PrintCase(c: Case): string {
    "case" + c.lead + PrintPattern(c.pattern) + PrintColon(c.colon) + PrintQuoted(c.value) + c.trail
  }

  function PrintCases(cs: seq<Case>): string {
    if cs == [] then "" else PrintCase(cs[0]) + PrintCases(cs[1..])
  }

  function PrintDefault(d: Default): string {
    "default" + PrintColon(d.colon) + PrintQuoted(d.value) + d.trail
  }

  function PrintBar(bar: Option<string>): string {
    if bar.Some? then "|" + bar.value else ""
  }

  function PrintVariables(vars: seq<Spaced>): string {
    if vars == [] then "" else "$" + vars[0].word + vars[0].gap + PrintVariables(vars[1..])
  }

  function PrintAttributes(attrs: seq<Spaced>): string {
    if attrs == [] then "" else attrs[0].word + attrs[0].gap + PrintAttributes(attrs[1..])
  }

  function LoopHead(h: Head): string {
    "${for" + h.lead + PrintVariables(h.vars) + "in" + h.gap + PrintAttributes(h.attrs) + "}"
  }

  function PrintNode(n: Node): string
    decreases n, 1
  {
    match n
    case Text(c) => [c]
    case Variable(lead, bar, name, trail) => "${" + lead + PrintBar(bar) + name + trail + "}"
    case Switch(lead, gap, subject, cases, fallback) =>
      "${" + lead + "switch" + gap + subject.word + subject.gap + PrintCases(cases) + PrintDefault(fallback) + "}"
    case Loop(head, body) => LoopHead(head) + Print(body) + END_TAG
  }

  function Print(nodes: seq<Node>): string
    decreases nodes, 0
  {
    if nodes == [] then "" else PrintNode(nodes[0]) + Print(nodes[1..])
  }

  // ---------- which trees can be spelled ----------

  predicate IsId(s: string) {
    s != "" && forall i | 0 <= i < |s| :: IsIdChar(s[i])
  }

  predicate IsName(s: string) {
    IsId(s) || (s != "" && s[0] == '$' && IsId(s[1..]))
  }

  /** No "${" that the skipping of a loop could take for the start or the end of another. */
  predicate NoOpening(s: string) {
    forall i | 0 <= i < |s| - 1 :: !(s[i] == '$' && s[i + 1] == '{')
  }

  predicate GoodQuoted(q: Quoted) {
    (q.quote == '\'' || q.quote == '"') && NoOpening(q.text)
    && forall i | 0 <= i < |q.text| :: q.text[i] != q.quote && q.text[i] != 0 as char
  }

  predicate AllWhite(s: string) {
    forall i | 0 <= i < |s| :: IsSpace(s[i])
  }

  predicate GoodColon(c: Colon) {
    AllWhite(c.before) && AllWhite(c.after)
  }

  predicate GoodPattern(regexes: Regexes, l: Pattern) {
    match l
    case Literal(p) => GoodQuoted(p) && p.text != ""
    case Regex(p) =>
      NoOpening(p) && regexes.compiles(p) && forall i | 0 <= i < |p| :: p[i] != '/' && p[i] != 0 as char
  }

  predicate GoodCase(regexes: Regexes, c: Case) {
    AllWhite(c.lead) && GoodPattern(regexes, c.pattern) && GoodColon(c.colon) && GoodQuoted(c.value)
        && AllWhite(c.trail)
  }

  predicate GoodCases(regexes: Regexes, cases: seq<Case>) {
    forall i | 0 <= i < |cases| :: GoodCase(regexes, cases[i])
  }

  predicate GoodDefault(d: Default) {
    GoodColon(d.colon) && GoodQuoted(d.value) && AllWhite(d.trail)
  }

  predicate GoodBar(bar: Option<string>) {
    bar.Some? ==> AllWhite(bar.value)
  }

  /** White space that may be left out where the next word starts with a '$'. */
  predicate GoodSubject(gap: string, subject: Spaced) {
    IsName(subject.word) && AllWhite(gap) && AllWhite(subject.gap) && subject.gap != ""
    && (gap == "" ==> subject.word[0] == '$')
  }

  /** Only the last variable needs white space after it. */
  predicate GoodVariables(vars: seq<Spaced>) {
    forall i | 0 <= i < |vars| ::
      IsId(vars[i].word) && AllWhite(vars[i].gap) && (i == |vars| - 1 ==> vars[i].gap != "")
  }

  /** All but the last attribute do. */
  predicate GoodAttributes(attrs: seq<Spaced>) {
    forall i | 0 <= i < |attrs| ::
      IsId(attrs[i].word) && AllWhite(attrs[i].gap) && (i < |attrs| - 1 ==> attrs[i].gap != "")
  }

  predicate GoodHead(h: Head) {
    AllWhite(h.lead) && h.vars != [] && GoodVariables(h.vars) && AllWhite(h.gap) && h.gap != ""
    && h.attrs != [] && GoodAttributes(h.attrs)
  }

  /** A plain variable is not spelled like a keyword. */
  predicate PlainName(s: string) {
    IsName(s) && s != "switch" && s != "end" && s != "for"
  }

  /** Nor does it look like the beginning of a loop. */
  predicate GoodVariable(lead: string, bar: Option<string>, name: string, trail: string) {
    AllWhite(lead) && GoodBar(bar) && PlainName(name) && AllWhite(trail)
    && (lead == "" && bar == None ==> !("for" <= name))
  }

  predicate GoodNode(regexes: Regexes, n: Node)
    decreases n, 1
  {
    match n
    case Text(_) => true
    case Variable(lead, bar, name, trail) => GoodVariable(lead, bar, name, trail)
    case Switch(lead, gap, subject, cases, fallback) =>
      AllWhite(lead) && GoodSubject(gap, subject) && GoodCases(regexes, cases) && GoodDefault(fallback)
    case Loop(h, body) =>
      GoodHead(h) && |h.vars| == |h.attrs| <= MAX_LOOP_VARIABLES && Good(regexes, body)
  }

  /** Two characters of text never make a "${" between them. */
  predicate Good(regexes: Regexes, nodes: seq<Node>)
    decreases nodes, 0
  {
    nodes == []
    || (GoodNode(regexes, nodes[0]) && Good(regexes, nodes[1..])
        && (nodes[0] == Text('$') && |nodes| > 1 ==> nodes[1] != Text('{')))
  }

  // ---------- meaning ----------

  predicate Matches(regexes: Regexes, l: Pattern, val: string) {
    match l
    case Literal(p) => p.text == val
    case Regex(p) => regexes.matches(p, val)
  }

  /** The value of the first case that matches. */
  function Choose(regexes: Regexes, cases: seq<Case>, fallback: Default, val: string): string {
    if cases == [] then fallback.value.text
    else if Matches(regexes, cases[0].pattern, val) then cases[0].value.text
    else Choose(regexes, cases[1..], fallback, val)
  }

  function Words(ws: seq<Spaced>): (r: seq<string>)
    ensures |r| == |ws| && forall i | 0 <= i < |r| :: r[i] == ws[i].word
  {
    seq(|ws|, i requires 0 <= i < |ws| => ws[i].word)
  }

  function Then(a: Option<string>, b: Option<string>): Option<string> {
    if a.Some? && b.Some? then Some(a.value + b.value) else None
  }

  /** What a node stands for; None when it uses a variable that has no value. */
  function NodeMeaning(env: Env, n: Node, bs: seq<Binding>): Option<string>
    decreases n, 1, 0
  {
    match n
    case Text(c) => Some([c])
    case Variable(_, bar, name, _) =>
      (match GetValue(env.attrs, bs, name)
       case None => None
       case Some(val) => Some(if bar.Some? != env.escapeByDefault then Escape(val) else val))
    case Switch(_, _, subject, cases, fallback) =>
      (match GetValue(env.attrs, bs, subject.word)
       case None => None
       case Some(val) => Some(Choose(env.regexes, cases, fallback, val)))
    case Loop(h, body) =>
      if |h.vars| != |h.attrs| then None
      else
        var values := BindLoop(env.attrs, Words(h.vars), Words(h.attrs));
        LoopMeaning(env, body, values, 0, Iterations(values), bs)
  }

  function Meaning(env: Env, nodes: seq<Node>, bs: seq<Binding>): Option<string>
    decreases nodes, 0, 0
  {
    if nodes == [] then Some("")
    else Then(NodeMeaning(env, nodes[0], bs), Meaning(env, nodes[1..], bs))
  }

  /** The body once for each iteration from `idx` on. */
  function LoopMeaning(env: Env, body: seq<Node>, values: map<string, seq<string>>, idx: nat, max: nat,
                       bs: seq<Binding>): Option<string>
    decreases body, 1, max - idx
  {
    if idx >= max then Some("")
    else Then(Meaning(env, body, [Binding(values, idx)] + bs), LoopMeaning(env, body, values, idx + 1, max, bs))
  }

  // ---------- what a loop iterates over ----------

  /** Each variable of a loop stands for the values of its attribute; of two equal variables the first counts. */
  lemma {:induction false} LoopBinds(attrs: Attributes, vars: seq<string>, names: seq<string>, i: nat)
    requires |vars| == |names| && i < |vars| && vars[i] !in vars[..i]
    ensures vars[i] in BindLoop(attrs, vars, names)
        && BindLoop(attrs, vars, names)[vars[i]] == ValuesOf(attrs, names[i])
  {
    if i > 0 {
      assert vars[1..][..i - 1] == vars[..i][1..] && vars[0] == vars[..i][0];
      LoopBinds(attrs, vars[1..], names[1..], i - 1);
    }
  }

  lemma {:induction false} LongestIsReached(lists: seq<seq<string>>, max: nat)
    ensures max <= LongestOf(lists, max) && forall i | 0 <= i < |lists| :: |lists[i]| <= LongestOf(lists, max)
    ensures LongestOf(lists, max) == max || exists i :: 0 <= i < |lists| && |lists[i]| == LongestOf(lists, max)
    decreases |lists|
  {
    if lists != [] {
      var n := if |lists[0]| > max then |lists[0]| else max;
      LongestIsReached(lists[1..], n);
      if LongestOf(lists, max) != max && LongestOf(lists, max) != |lists[0]| {
        var i :| 0 <= i < |lists[1..]| && |lists[1..][i]| == LongestOf(lists[1..], n);
        assert |lists[i + 1]| == LongestOf(lists, max);
      }
    }
  }

  /** A loop goes on until the longest of its lists has run out. */
  lemma LoopRunsToTheLongest(values: map<string, seq<string>>)
    ensures forall v | v in values :: |values[v]| <= Iterations(values)
    ensures Iterations(values) > 0 ==> exists v :: v in values && |values[v]| == Iterations(values)
  {
    hide InOrder;
    var keys := SortedKeys(values.Keys);
    var lists := ListsUnder(values, keys);
    LongestIsReached(lists, 0);
    forall v | v in values ensures |values[v]| <= Iterations(values) {
      assert v in keys;
      var i :| 0 <= i < |keys| && keys[i] == v;
      assert lists[i] == values[v];
    }
    if Iterations(values) > 0 {
      var i :| 0 <= i < |lists| && |lists[i]| == LongestOf(lists, 0);
      assert keys[i] in values && lists[i] == values[keys[i]];
    }
  }
}
