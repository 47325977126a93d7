/** The template interpreter as a machine that moves a cursor over the text: its state and its steps.
    `CharAt` past the end is the NUL that terminates a C++ string. */
module Template {
  import opened JsonText
  import opened Ordering
  import opened Wrappers

  type Attributes = map<string, seq<string>>

  function ValuesOf(attrs: Attributes, name: string): seq<string> {
    if name in attrs then attrs[name] else []
  }

  /** The regular expressions of switch cases, left open: which patterns compile and what they match. */
  datatype Regexes = Regexes(compiles: string -> bool, matches: (string, string) -> bool)

  datatype Env = Env(text: string, attrs: Attributes, escapeByDefault: bool, regexes: Regexes)

  /** The variables bound by one loop, and the iteration it is in. */
  datatype Binding = Binding(values: map<string, seq<string>>, idx: nat)

  /** One entry of the loop stack: where to go back to, and after how many iterations to stop. */
  datatype Frame = Frame(b: Binding, max: nat, reset: nat)

  datatype State = State(pos: nat, out: string, stack: seq<Frame>)

  // ---------- reading the text ----------

  function CharAt(s: string, i: nat): char {
    if i < |s| then s[i] else 0 as char
  }

  predicate IsIdChar(c: char) {
    'a' <= c <= 'z' || 'A' <= c <= 'Z' || '0' <= c <= '9' || c == '-' || c == '_' || c == '.'
  }

  function SkipWs(s: string, i: nat): (j: nat)
    ensures i <= j && (i <= |s| ==> j <= |s|)
    decreases |s| - i
  {
    if i < |s| && IsSpace(CharAt(s, i)) then SkipWs(s, i + 1) else i
  }

  function IdEnd(s: string, i: nat): (j: nat)
    ensures i <= j && (i <= |s| ==> j <= |s|)
    ensures i < |s| && IsIdChar(s[i]) ==> i < j
    decreases |s| - i
  {
    if i < |s| && IsIdChar(CharAt(s, i)) then IdEnd(s, i + 1) else i
  }

  /** An identifier with its optional '$', and the position after it; "" if there is none. */
  function FindId(s: string, i: nat): (r: (string, nat))
    ensures i <= r.1 && (i <= |s| ==> r.1 <= |s|)
    ensures if r.0 == "" then r.1 == i else i < r.1
  {
    var start := if CharAt(s, i) == '$' then i + 1 else i;
    if !IsIdChar(CharAt(s, start)) then ("", i)
    else
      var j := IdEnd(s, start);
      (s[i..j], j)
  }

  /** The first position from `i` on that holds `q`, NUL, or the end. */
  function Closing(s: string, i: nat, q: char): (j: nat)
    ensures i <= j && (i <= |s| ==> j <= |s|)
    ensures i < j ==> i < |s|
    decreases |s| - i
  {
    if i < |s| && s[i] != q && s[i] != 0 as char then Closing(s, i + 1, q) else i
  }

  /** A quoted string; "" without a closing quote, and then only an opening quote has been passed. */
  function ParseString(s: string, i: nat): (r: (string, nat))
    ensures i <= r.1 && (i <= |s| ==> r.1 <= |s|)
  {
    var q := CharAt(s, i);
    if q != '\'' && q != '"' then ("", i)
    else
      var j := Closing(s, i + 1, q);
      if CharAt(s, j) == 0 as char then ("", i + 1) else (s[i + 1..j], j + 1)
  }

  /** A regular expression between slashes, the cursor being on the first one. */
  function ParseRegex(regexes: Regexes, s: string, i: nat): (r: (Option<string>, nat))
    requires CharAt(s, i) == '/'
    ensures i < r.1 && (i <= |s| ==> r.1 <= |s|)
  {
    var j := Closing(s, i + 1, '/');
    if CharAt(s, j) == 0 as char then (None, i + 1)
    else if regexes.compiles(s[i + 1..j]) then (Some(s[i + 1..j]), j + 1)
    else (None, j + 1)
  }

  predicate Ahead(s: string, i: nat, w: string) {
    i + |w| <= |s| && s[i..i + |w|] == w
  }

  const FOR_PREFIX := "${for"
  const END_TAG := "${end}"

  /** Past the `${end}` that closes the loop whose body starts at `i`; None if there is none. Everything that
      starts like a loop is taken for one. */
  function SkipLoop(s: string, i: nat): (r: Option<nat>)
    ensures r.Some? ==> i < r.value <= |s|
    decreases |s| - i
  {
    if i >= |s| then None
    else if Ahead(s, i, FOR_PREFIX) then
      match SkipLoop(s, i + |FOR_PREFIX|)
      case None => None
      case Some(j) => SkipLoop(s, j)
    else if Ahead(s, i, END_TAG) then Some(i + |END_TAG|)
    else SkipLoop(s, i + 1)
  }

  // ---------- values ----------

  function Bindings(stack: seq<Frame>): (r: seq<Binding>)
    ensures |r| == |stack| && forall i | 0 <= i < |r| :: r[i] == stack[i].b
  {
    seq(|stack|, i requires 0 <= i < |stack| => stack[i].b)
  }

  /** The value in the innermost loop that binds the name; a list that has run out counts as "". */
  function LoopValue(bs: seq<Binding>, name: string): Option<string> {
    if bs == [] then None
    else if name in bs[0].values then
      var values := bs[0].values[name];
      Some(if bs[0].idx < |values| then values[bs[0].idx] else "")
    else LoopValue(bs[1..], name)
  }

  function GetValue(attrs: Attributes, bs: seq<Binding>, id: string): Option<string> {
    if CharAt(id, 0) == '$' then LoopValue(bs, id[1..])
    else
      var values := ValuesOf(attrs, id);
      if values == [] then None else Some(values[0])
  }

  // ---------- switch ----------

  /** The part of the state that a case or a default changes. */
  datatype Matching = Matching(pos: nat, matched: bool, out: string)

  /** After the case label: the ':' and the value, which is written if the case is the first to match. */
  function CaseValue(s: string, pos: nat, hit: bool, m: Matching): (r: Matching)
    ensures pos <= r.pos && (pos <= |s| ==> r.pos <= |s|)
  {
    var p := SkipWs(s, pos);
    if CharAt(s, p) != ':' then m.(pos := p)
    else
      var (value, p') := ParseString(s, SkipWs(s, p + 1));
      if !m.matched && hit then Matching(p', true, m.out + value) else m.(pos := p')
  }

  /** One case. A syntax error ends the case early but is not reported from here. */
  function ParseCase(env: Env, val: string, m: Matching): (r: Matching)
    ensures m.pos <= r.pos && (m.pos <= |env.text| ==> r.pos <= |env.text|)
  {
    var p := SkipWs(env.text, m.pos);
    if CharAt(env.text, p) == '/' then
      var (re, p') := ParseRegex(env.regexes, env.text, p);
      match re
      case None => m.(pos := p')
      case Some(pattern) => CaseValue(env.text, p', env.regexes.matches(pattern, val), m)
    else
      var (pattern, p') := ParseString(env.text, p);
      if pattern == "" then m.(pos := p') else CaseValue(env.text, p', pattern == val, m)
  }

  function ParseDefault(env: Env, m: Matching): (r: Matching)
    ensures m.pos <= r.pos && (m.pos <= |env.text| ==> r.pos <= |env.text|)
  {
    var p := SkipWs(env.text, m.pos);
    if CharAt(env.text, p) != ':' then m.(pos := p)
    else
      var (value, p') := ParseString(env.text, SkipWs(env.text, p + 1));
      if value != "" && !m.matched then m.(pos := p', out := m.out + value) else m.(pos := p')
  }

  /** Cases up to the default; None for a syntax error. */
  function ParseCases(env: Env, val: string, m: Matching): (r: Option<Matching>)
    ensures r.Some? ==> m.pos <= r.value.pos && (m.pos <= |env.text| ==> r.value.pos <= |env.text|)
    decreases |env.text| - m.pos
  {
    var (id, p) := FindId(env.text, m.pos);
    if id == "" then None
    else if p > |env.text| then None
    else if id == "case" then
      var m' := ParseCase(env, val, m.(pos := p));
      ParseCases(env, val, m'.(pos := SkipWs(env.text, m'.pos)))
    else if id == "default" then Some(ParseDefault(env, m.(pos := p)))
    else None
  }

  /** `switch`, the cursor being after the keyword. */
  function Conditional(env: Env, st: State): (r: Option<State>)
    ensures r.Some? ==> st.pos <= r.value.pos && (st.pos <= |env.text| ==> r.value.pos <= |env.text|)
    ensures r.Some? ==> r.value.stack == st.stack
  {
    var (id, p) := FindId(env.text, SkipWs(env.text, st.pos));
    match GetValue(env.attrs, Bindings(st.stack), id)
    case None => None
    case Some(val) =>
      match ParseCases(env, val, Matching(SkipWs(env.text, p), false, st.out))
      case None => None
      case Some(m) => Some(State(m.pos, m.out, st.stack))
  }

  // ---------- for and end ----------

  const MAX_LOOP_VARIABLES: nat := 100

  /** The loop variables up to `in`, without their first character; the position is after `in`. */
  function LoopVariables(s: string, i: nat, vars: seq<string>): (r: Option<(seq<string>, nat)>)
    ensures r.Some? ==> i < r.value.1 && (i <= |s| ==> r.value.1 <= |s|)
    decreases |s| - i
  {
    var (id, p) := FindId(s, i);
    if id == "" then None
    else if id == "in" then Some((vars, p))
    else if |vars| + 1 > MAX_LOOP_VARIABLES || p > |s| then None
    else LoopVariables(s, SkipWs(s, p), vars + [id[1..]])
  }

  /** The attributes to loop over; the position is where reading stopped. */
  function LoopAttributes(s: string, i: nat, names: seq<string>): (r: (seq<string>, nat))
    ensures i <= r.1 && (i <= |s| ==> r.1 <= |s|)
    decreases |s| - i
  {
    var (id, p) := FindId(s, i);
    if id == "" || p > |s| then (names, p)
    else if CharAt(s, p) == '}' then (names + [id], p)
    else LoopAttributes(s, SkipWs(s, p), names + [id])
  }

  /** Each variable with the values of its attribute; the first of two equal variables wins. */
  function BindLoop(attrs: Attributes, vars: seq<string>, names: seq<string>): map<string, seq<string>>
    requires |vars| == |names|
  {
    if vars == [] then map[]
    else BindLoop(attrs, vars[1..], names[1..])[vars[0] := ValuesOf(attrs, names[0])]
  }

  /** The lists under some keys. */
  function ListsUnder(values: map<string, seq<string>>, keys: seq<string>): (r: seq<seq<string>>)
    requires forall i | 0 <= i < |keys| :: keys[i] in values
  {
    seq(|keys|, i requires 0 <= i < |keys| => values[keys[i]])
  }

  /** The length of the longest list, but at least `max`. */
  function LongestOf(lists: seq<seq<string>>, max: nat): nat {
    if lists == [] then max else LongestOf(lists[1..], if |lists[0]| > max then |lists[0]| else max)
  }

  /** All variables of a loop are iterated in parallel, to the end of the longest list. */
  function Iterations(values: map<string, seq<string>>): nat {
    LongestOf(ListsUnder(values, SortedKeys(values.Keys)), 0)
  }

  /** `for`, the cursor being after the keyword: opens a loop, or skips one that has no iterations. */
  function LoopStart(env: Env, st: State): (r: Option<State>) {
    var s := env.text;
    var p := SkipWs(s, st.pos);
    if CharAt(s, p) != '$' then None
    else
      match LoopVariables(s, p, [])
      case None => None
      case Some((vars, p1)) =>
        var p2 := SkipWs(s, p1);
        if CharAt(s, p2) == '$' then None
        else
          var (names, p3) := LoopAttributes(s, p2, []);
          if names == [] || |names| != |vars| then None
          else
            var p4 := SkipWs(s, p3);
            if CharAt(s, p4) != '}' then None
            else
              var values := BindLoop(env.attrs, vars, names);
              var max := Iterations(values);
              if max == 0 then
                match SkipLoop(s, p4 + 1)
                case None => None
                case Some(p5) => Some(st.(pos := p5))
              else Some(State(p4 + 1, st.out, [Frame(Binding(values, 0), max, p4 + 1)] + st.stack))
  }

  /** `end`, the cursor being after the keyword: another iteration, or the end of the innermost loop. */
  function LoopEnd(env: Env, st: State): Option<State> {
    var p := SkipWs(env.text, st.pos);
    if CharAt(env.text, p) != '}' || st.stack == [] then None
    else
      var f := st.stack[0];
      var idx := f.b.idx + 1;
      if idx >= f.max then Some(State(p + 1, st.out, st.stack[1..]))
      else Some(State(f.reset, st.out, [f.(b := Binding(f.b.values, idx))] + st.stack[1..]))
  }

  // ---------- one step and the whole run ----------

  function Simple(env: Env, st: State, id: string, escape: bool): Option<State> {
    match GetValue(env.attrs, Bindings(st.stack), id)
    case None => None
    case Some(val) => Some(st.(out := st.out + if escape then Escape(val) else val))
  }

  /** The closing brace of a variable or a switch. */
  function Finish(env: Env, st: State): Option<State> {
    var p := SkipWs(env.text, st.pos);
    if CharAt(env.text, p) != '}' then None else Some(st.(pos := p + 1))
  }

  /** What follows "${", the cursor being on the '$'. */
  function Replacement(env: Env, st: State): Option<State> {
    var s := env.text;
    var p0 := SkipWs(s, st.pos + 2);
    var bar := CharAt(s, p0) == '|';
    var (id, p) := FindId(s, if bar then SkipWs(s, p0 + 1) else p0);
    var here := st.(pos := p);
    if id == "" then None
    else if id == "switch" then
      match Conditional(env, here)
      case None => None
      case Some(next) => Finish(env, next)
    else if id == "for" then LoopStart(env, here)
    else if id == "end" then LoopEnd(env, here)
    else
      match Simple(env, here, id, bar != env.escapeByDefault)
      case None => None
      case Some(next) => Finish(env, next)
  }

  function Step(env: Env, st: State): Option<State>
    requires st.pos < |env.text|
  {
    if CharAt(env.text, st.pos) == '$' && CharAt(env.text, st.pos + 1) == '{' then Replacement(env, st)
    else Some(st.(pos := st.pos + 1, out := st.out + [env.text[st.pos]]))
  }
}
