/** The template interpreter as the program has it: a cursor, an output string and a stack of loops. */
module TemplateParser {
  import opened JsonText
  import opened Ordering
  import opened Template
  import opened TemplateTermination
  import opened Wrappers

  class Parser {
    const env: Env
    var pos: nat
    var out: string
    var stack: seq<Frame>

    ghost function Current(): State
      reads this
    {
      State(pos, out, stack)
    }

    constructor (env: Env)
      ensures this.env == env && Current() == BEGIN
    {
      this.env := env;
      pos, out, stack := 0, "", [];
    }

    method Progress()
      modifies this`pos
      ensures pos == old(pos) + 1
    {
      pos := pos + 1;
    }

    method SkipSpace()
      modifies this`pos
      ensures pos == SkipWs(env.text, old(pos))
    {
      while pos < |env.text| && IsSpace(CharAt(env.text, pos))
        invariant SkipWs(env.text, pos) == SkipWs(env.text, old(pos))
        decreases |env.text| - pos
      {
        Progress();
      }
    }

    /** Skips `w` if it comes next. */
    method MaybeSkip(w: string) returns (skipped: bool)
      modifies this`pos
      ensures skipped == Ahead(env.text, old(pos), w)
      ensures pos == if skipped then old(pos) + |w| else old(pos)
    {
      skipped := pos + |w| <= |env.text| && env.text[pos..pos + |w|] == w;
      if skipped {
        for i := 0 to |w|
          invariant pos == old(pos) + i
        {
          Progress();
        }
      }
    }

    method TakeId() returns (id: string)
      modifies this`pos
      ensures (id, pos) == FindId(env.text, old(pos))
    {
      var len := if CharAt(env.text, pos) == '$' then 1 else 0;
      if !IsIdChar(CharAt(env.text, pos + len)) { return ""; }
      ghost var start := pos + len;
      while pos + len < |env.text| && IsIdChar(CharAt(env.text, pos + len))
        invariant pos == old(pos) && IdEnd(env.text, pos + len) == IdEnd(env.text, start)
        invariant start <= pos + len <= |env.text| || pos + len == start
        decreases |env.text| - len
      {
        len := len + 1;
      }
      id := env.text[pos..pos + len];
      for i := 0 to len
        invariant pos == old(pos) + i
      {
        Progress();
      }
    }

    /** The number of characters before the closing `q`, NUL, or the end. */
    method LengthUntil(q: char) returns (len: nat)
      ensures pos + len == Closing(env.text, pos, q)
    {
      len := 0;
      while pos + len < |env.text| && env.text[pos + len] != q && env.text[pos + len] != 0 as char
        invariant Closing(env.text, pos + len, q) == Closing(env.text, pos, q)
        decreases |env.text| - len
      {
        len := len + 1;
      }
    }

    method TakeString() returns (str: string)
      modifies this`pos
      ensures (str, pos) == ParseString(env.text, old(pos))
    {
      var quote := CharAt(env.text, pos);
      if quote != '\'' && quote != '"' { return ""; }
      Progress();
      var len := LengthUntil(quote);
      if CharAt(env.text, pos + len) == 0 as char { return ""; }
      str := env.text[pos..pos + len];
      for i := 0 to len + 1
        invariant pos == old(pos) + 1 + i
      {
        Progress();
      }
    }

    method TakeRegex() returns (pattern: Option<string>)
      requires CharAt(env.text, pos) == '/'
      modifies this`pos
      ensures (pattern, pos) == ParseRegex(env.regexes, env.text, old(pos))
    {
      Progress();
      var len := LengthUntil('/');
      if CharAt(env.text, pos + len) == 0 as char { return None; }
      var p := env.text[pos..pos + len];
      for i := 0 to len + 1
        invariant pos == old(pos) + 1 + i
      {
        Progress();
      }
      pattern := if env.regexes.compiles(p) then Some(p) else None;
    }

    method Value(id: string) returns (val: Option<string>)
      ensures val == GetValue(env.attrs, Bindings(stack), id)
    {
      if CharAt(id, 0) == '$' {
        var name := id[1..];
        ghost var bs := Bindings(stack);
        var i := 0;
        while i < |stack|
          invariant i <= |stack| && LoopValue(bs, name) == LoopValue(bs[i..], name)
        {
          assert bs[i..][0] == stack[i].b && bs[i..][1..] == bs[i + 1..];
          if name in stack[i].b.values {
            var values := stack[i].b.values[name];
            return Some(if stack[i].b.idx >= |values| then "" else values[stack[i].b.idx]);
          }
          i := i + 1;
        }
        assert bs[i..] == [];
        return None;
      }
      var values := ValuesOf(env.attrs, id);
      val := if values == [] then None else Some(values[0]);
    }

    method ReplacementSimple(id: string, escape: bool) returns (ok: bool)
      modifies this
      ensures ok == Simple(env, old(Current()), id, escape).Some?
      ensures ok ==> Current() == Simple(env, old(Current()), id, escape).value
    {
      var val := Value(id);
      if val == None { return false; }
      var text := val.value;
      if escape {
        text := JsonStringEscape(text);
      }
      out := out + text;
      ok := true;
    }

    /** ':' and a value, which is written if it is the first hit. */
    method TakeCaseValue(hit: bool, matched: bool) returns (m: bool)
      modifies this`pos, this`out
      ensures Matching(pos, m, out) == CaseValue(env.text, old(pos), hit, Matching(old(pos), matched, old(out)))
    {
      SkipSpace();
      if CharAt(env.text, pos) != ':' { return matched; }
      Progress();
      SkipSpace();
      var value := TakeString();
      if !matched && hit {
        out := out + value;
        return true;
      }
      m := matched;
    }

    method TakeCase(val: string, matched: bool) returns (m: bool)
      modifies this`pos, this`out
      ensures Matching(pos, m, out) == ParseCase(env, val, Matching(old(pos), matched, old(out)))
    {
      SkipSpace();
      if CharAt(env.text, pos) == '/' {
        var pattern := TakeRegex();
        if pattern == None { return matched; }
        m := TakeCaseValue(env.regexes.matches(pattern.value, val), matched);
      } else {
        var pattern := TakeString();
        if pattern == "" { return matched; }
        m := TakeCaseValue(pattern == val, matched);
      }
    }

    method TakeDefault(matched: bool)
      modifies this`pos, this`out
      ensures Matching(pos, matched, out) == ParseDefault(env, Matching(old(pos), matched, old(out)))
    {
      SkipSpace();
      if CharAt(env.text, pos) != ':' { return; }
      Progress();
      SkipSpace();
      var value := TakeString();
      if value == "" { return; }
      if !matched {
        out := out + value;
      }
    }

    /** All cases of a switch and its default. */
    method TakeCases(val: string) returns (ok: bool)
      requires pos <= |env.text|
      modifies this`pos, this`out
      ensures match ParseCases(env, val, Matching(old(pos), false, old(out)))
              case None => !ok
              case Some(m) => ok && pos == m.pos && out == m.out
    {
      var matched := false;
      while true
        invariant pos <= |env.text|
        invariant ParseCases(env, val, Matching(pos, matched, out)) ==
            ParseCases(env, val, Matching(old(pos), false, old(out)))
        decreases |env.text| - pos
      {
        hide ParseCase, ParseDefault, SkipWs, FindId;
        var id := TakeId();
        if id == "" { return false; }
        if id == "case" {
          matched := TakeCase(val, matched);
        } else if id == "default" {
          TakeDefault(matched);
          return true;
        } else {
          return false;
        }
        SkipSpace();
      }
    }

    method ReplacementConditional() returns (ok: bool)
      requires pos <= |env.text|
      modifies this
      ensures ok == Conditional(env, old(Current())).Some?
      ensures ok ==> Current() == Conditional(env, old(Current())).value
    {
      hide ParseCases, SkipWs, FindId, GetValue;
      SkipSpace();
      var id := TakeId();
      var val := Value(id);
      if val == None { return false; }
      SkipSpace();
      ok := TakeCases(val.value);
    }

    /** Another iteration of the innermost loop, or its end. */
    method IterEnd() returns (ok: bool)
      modifies this
      ensures ok == LoopEnd(env, old(Current())).Some?
      ensures ok ==> Current() == LoopEnd(env, old(Current())).value
    {
      SkipSpace();
      if CharAt(env.text, pos) != '}' { return false; }
      Progress();
      if stack == [] { return false; }
      var iter := stack[0];
      iter := iter.(b := Binding(iter.b.values, iter.b.idx + 1));
      if !(iter.b.idx < iter.max) {
        stack := stack[1..];
        return true;
      }
      stack := [iter] + stack[1..];
      pos := iter.reset;
      ok := true;
    }

    /** Searches for the end of the loop whose head has just been passed, over any loops inside it. */
    method SkipIter() returns (ok: bool)
      requires pos <= |env.text|
      modifies this`pos
      ensures ok == SkipLoop(env.text, old(pos)).Some?
      ensures pos == if ok then SkipLoop(env.text, old(pos)).value else |env.text|
      decreases |env.text| - pos
    {
      hide Ahead, SkipLoop;
      SkipLoopEnd(env.text);
      while pos < |env.text|
        invariant old(pos) <= pos <= |env.text|
        invariant SkipLoop(env.text, pos) == SkipLoop(env.text, old(pos))
        decreases |env.text| - pos
      {
        SkipLoopStep(env.text, pos);
        InsideWhenAhead(env.text, pos);
        var skipped := MaybeSkip(FOR_PREFIX);
        if skipped {
          var inner := SkipIter();
        } else {
          skipped := MaybeSkip(END_TAG);
          if skipped {
            return true;
          }
          Progress();
        }
      }
      ok := false;
    }

    /** The loop variables, up to and including `in`. */
    method TakeVariables() returns (vars: Option<seq<string>>)
      requires pos <= |env.text|
      modifies this`pos
      ensures match LoopVariables(env.text, old(pos), [])
              case None => vars == None
              case Some((vs, p)) => vars == Some(vs) && pos == p
    {
      var acc: seq<string> := [];
      var iterVar := "";
      while iterVar != "in"
        invariant pos <= |env.text|
        invariant iterVar != "in" ==> LoopVariables(env.text, pos, acc) == LoopVariables(env.text, old(pos), [])
        invariant iterVar == "in" ==> LoopVariables(env.text, old(pos), []) == Some((acc, pos))
        decreases iterVar != "in", |env.text| - pos
      {
        hide SkipWs;
        iterVar := TakeId();
        if iterVar == "" { return None; }
        if iterVar != "in" {
          acc := acc + [iterVar[1..]];
          SkipSpace();
          if |acc| > MAX_LOOP_VARIABLES { return None; }
        }
      }
      vars := Some(acc);
    }

    method TakeAttributes() returns (names: seq<string>)
      requires pos <= |env.text|
      modifies this`pos
      ensures (names, pos) == LoopAttributes(env.text, old(pos), [])
    {
      names := [];
      var name := TakeId();
      ghost var before := old(pos);
      while name != ""
        invariant before <= pos <= |env.text| && FindId(env.text, before) == (name, pos)
        invariant LoopAttributes(env.text, before, names) == LoopAttributes(env.text, old(pos), [])
        decreases |env.text| - before
      {
        hide SkipWs;
        names := names + [name];
        if CharAt(env.text, pos) == '}' { return; }
        SkipSpace();
        before := pos;
        name := TakeId();
      }
    }

    /** Opens a loop, or skips it when none of its lists has a value. */
    method IterStart() returns (ok: bool)
      requires pos <= |env.text|
      modifies this
      ensures ok == LoopStart(env, old(Current())).Some?
      ensures ok ==> Current() == LoopStart(env, old(Current())).value
    {
      hide LoopVariables, LoopAttributes, SkipLoop, SkipWs, FindId, BindLoop, Iterations, CharAt;
      SkipSpace();
      if CharAt(env.text, pos) != '$' { return false; }
      var vars := TakeVariables();
      if vars == None { return false; }
      SkipSpace();
      if CharAt(env.text, pos) == '$' { return false; }
      var names := TakeAttributes();
      if names == [] || |names| != |vars.value| { return false; }
      SkipSpace();
      if CharAt(env.text, pos) != '}' { return false; }
      InText(env.text, pos);
      Progress();
      var values := Collect(vars.value, names);
      var max := LongestList(values);
      if max == 0 {
        ok := SkipIter();
        return;
      }
      stack := [Frame(Binding(values, 0), max, pos)] + stack;
      ok := true;
    }

    /** Puts the values of the attributes under the variables, the first of two equal variables winning. */
    method Collect(vars: seq<string>, names: seq<string>) returns (values: map<string, seq<string>>)
      requires |vars| == |names|
      ensures values == BindLoop(env.attrs, vars, names)
    {
      values := map[];
      assert BindLoop(env.attrs, vars[0..], names[0..]) == BindLoop(env.attrs, vars, names) by {
        assert vars[0..] == vars && names[0..] == names;
      }
      assert BindLoop(env.attrs, vars, names) + map[] == BindLoop(env.attrs, vars, names);
      for i := 0 to |vars|
        invariant BindLoop(env.attrs, vars[i..], names[i..]) + values == BindLoop(env.attrs, vars, names)
      {
        assert vars[i..][1..] == vars[i + 1..] && names[i..][1..] == names[i + 1..];
        ghost var rest := BindLoop(env.attrs, vars[i + 1..], names[i + 1..]);
        if vars[i] !in values {
          assert rest[vars[i] := ValuesOf(env.attrs, names[i])] + values ==
              rest + values[vars[i] := ValuesOf(env.attrs, names[i])];
          values := values[vars[i] := ValuesOf(env.attrs, names[i])];
        } else {
          assert rest[vars[i] := ValuesOf(env.attrs, names[i])] + values == rest + values;
        }
      }
      assert vars[|vars|..] == [] && names[|vars|..] == [];
      assert map[] + values == values;
    }

    method LongestList(values: map<string, seq<string>>) returns (max: nat)
      ensures max == Iterations(values)
    {
      hide InOrder, ListsUnder;
      max := 0;
      var lists := ListsUnder(values, SortedKeys(values.Keys));
      for i := 0 to |lists|
        invariant LongestOf(lists[i..], max) == LongestOf(lists, 0)
      {
        assert lists[i..][0] == lists[i] && lists[i..][1..] == lists[i + 1..];
        if |lists[i]| > max {
          max := |lists[i]|;
        }
      }
      assert lists[|lists|..] == [];
    }

    /** A replacement, the cursor being on its '$'. */
    method ParseReplacement() returns (ok: bool)
      requires pos + 2 <= |env.text|
      modifies this
      ensures ok == Replacement(env, old(Current())).Some?
      ensures ok ==> Current() == Replacement(env, old(Current())).value
    {
      hide LoopStart, LoopEnd, Conditional, FindId, SkipWs, GetValue, Escape, CharAt;
      var escape := env.escapeByDefault;
      Progress();
      Progress();
      SkipSpace();
      if CharAt(env.text, pos) == '|' {
        escape := !escape;
        InText(env.text, pos);
        Progress();
        SkipSpace();
      }
      var id := TakeId();
      if id == "" { return false; }
      if id == "switch" {
        ok := ReplacementConditional();
        if !ok { return false; }
      } else if id == "for" {
        ok := IterStart();
        return;
      } else if id == "end" {
        ok := IterEnd();
        return;
      } else {
        ok := ReplacementSimple(id, escape);
        if !ok { return false; }
      }
      SkipSpace();
      if CharAt(env.text, pos) != '}' { return false; }
      Progress();
      ok := true;
    }

    /** The main loop. */
    method Parse() returns (ok: bool)
      requires Current() == BEGIN
      modifies this
      ensures ok == Interpret(env).Some?
      ensures ok ==> out == Interpret(env).value
    {
      BeginIsValid(env);
      while pos < |env.text|
        invariant Valid(env, Current()) && Run(env, Current()) == Run(env, BEGIN)
        decreases Potential(env, Current())
      {
        hide Replacement, Potential, Valid, CharAt;
        StepsLower(env, Current());
        if CharAt(env.text, pos) == '$' && CharAt(env.text, pos + 1) == '{' {
          InText(env.text, pos + 1);
          ok := ParseReplacement();
          if !ok { return false; }
        } else {
          out := out + [env.text[pos]];
          Progress();
        }
      }
      if stack != [] { return false; }
      out := WithoutTrailingCommas(out);
      ok := true;
    }
  }

  method WithoutTrailingCommas(s: string) returns (t: string)
    ensures t == Blanked(s)
  {
    var text := new char[|s|](i requires 0 <= i < |s| => s[i]);
    assert text[..] == s;
    RemoveTrailingCommas(text);
    t := text[..];
  }

  /** What comes next in the search for the end of a loop. */
  lemma SkipLoopStep(s: string, i: nat)
    requires i < |s|
    ensures SkipLoop(s, i)
         == if Ahead(s, i, FOR_PREFIX) then
              match SkipLoop(s, i + |FOR_PREFIX|)
              case None => None
              case Some(j) => SkipLoop(s, j)
            else if Ahead(s, i, END_TAG) then Some(i + |END_TAG|)
            else SkipLoop(s, i + 1)
  {
    hide Ahead;
  }

  lemma SkipLoopEnd(s: string)
    ensures SkipLoop(s, |s|) == None
  {
  }

  lemma InText(s: string, p: nat)
    requires CharAt(s, p) != 0 as char
    ensures p < |s|
  {
  }

  lemma InsideWhenAhead(s: string, p: nat)
    ensures Ahead(s, p, FOR_PREFIX) ==> p + |FOR_PREFIX| <= |s|
    ensures Ahead(s, p, END_TAG) ==> p + |END_TAG| <= |s|
  {
  }

  lemma BeginIsValid(env: Env)
    ensures Valid(env, BEGIN)
  {
  }

  lemma StepsLower(env: Env, st: State)
    requires Valid(env, st) && st.pos < |env.text|
    ensures Step(env, st).Some? ==> Lower(env, st, Step(env, st).value)
  {
    if Step(env, st).Some? { StepLowers(env, st); }
  }

  /** The expanded template, or "" when there was an error. */
  method ScimJsonParse(json: string, attrs: Attributes, defaultEscape: bool, regexes: Regexes) returns (r: string)
    ensures var result := Interpret(Env(json, attrs, defaultEscape, regexes));
            r == if result.Some? then result.value else ""
  {
    var parser := new Parser(Env(json, attrs, defaultEscape, regexes));
    var ok := parser.Parse();
    r := if ok then parser.out else "";
  }
}
