/** The splitter that cuts a stream of JSON objects into its objects. */
module Splitter {
  import opened JsonText

  // ---------- the state and its steps ----------

  /** `out` is what the inner sink has received. */
  datatype State = State(failed: bool, seenFirst: bool, isArray: bool, done: bool,
                         inString: bool, escapeNext: bool, depth: nat, buffer: string, out: seq<string>)

  const FRESH := State(false, false, false, false, false, false, 0, "", [])

  function Open(st: State): State {
    st.(depth := 1, buffer := "{")
  }

  /** A character inside an object. */
  function InnerStep(st: State, c: char): State
    requires st.depth > 0
  {
    var b := st.(buffer := st.buffer + [c]);
    if st.inString then
      if st.escapeNext then b.(escapeNext := false)
      else if c == '\\' then b.(escapeNext := true)
      else if c == '"' then b.(inString := false)
      else b
    else if c == '"' then b.(inString := true)
    else if c == '{' then b.(depth := st.depth + 1)
    else if c == '}' then
      if st.depth == 1 then b.(depth := 0, buffer := "", out := st.out + [b.buffer]) else b.(depth := st.depth - 1)
    else b
  }

  /** A character between objects. */
  function OuterStep(st: State, c: char): State
    requires st.depth == 0
  {
    if IsSpace(c) then st
    else if st.isArray && c == ',' then st
    else if st.isArray && c == ']' then st.(done := true)
    else if c == '{' then Open(st)
    else st.(failed := true)
  }

  function FirstStep(st: State, c: char): State {
    if IsSpace(c) then st
    else
      var seen := st.(seenFirst := true);
      if c == '[' then seen.(isArray := true)
      else if c == '{' then Open(seen)
      else seen.(failed := true)
  }

  function Step(st: State, c: char): State {
    if st.failed || st.done then st
    else if !st.seenFirst then FirstStep(st, c)
    else if st.depth == 0 then OuterStep(st, c)
    else InnerStep(st, c)
  }

  /** One write of some data. */
  function Feed(st: State, data: string): State
    decreases |data|
  {
    if data == "" then st else Feed(Step(st, data[0]), data[1..])
  }

  // ---------- the class ----------

  class JsonArraySplitter {
    var failed: bool
    var seenFirstChar: bool
    var isArray: bool
    var done: bool
    var inString: bool
    var escapeNext: bool
    var braceDepth: nat
    var currentObject: string
    var inner: seq<string>

    ghost function Current(): State
      reads this
    {
      State(failed, seenFirstChar, isArray, done, inString, escapeNext, braceDepth, currentObject, inner)
    }

    constructor ()
      ensures Current() == FRESH
    {
      failed, seenFirstChar, isArray, done, inString, escapeNext := false, false, false, false, false, false;
      braceDepth, currentObject, inner := 0, "", [];
    }

    method Write(data: string)
      modifies this
      ensures Current() == Feed(old(Current()), data)
    {
      StopsAtEnd(Current(), data);
      if failed || done { return; }
      for i := 0 to |data|
        invariant !failed && !done
        invariant Feed(Current(), data[i..]) == Feed(old(Current()), data)
      {
        hide InnerStep, OuterStep, FirstStep;
        var c := data[i];
        ghost var before, rest := Current(), data[i + 1..];
        assert data[i..][0] == c && data[i..][1..] == rest;
        StopsAtEnd(Step(before, c), rest);
        if !seenFirstChar {
          First(c);
          if failed { return; }
          continue;
        }
        if braceDepth == 0 {
          Between(c);
          if failed || done { return; }
          continue;
        }
        Inside(c);
      }
      assert data[|data|..] == "";
    }

    method First(c: char)
      modifies this
      ensures Current() == FirstStep(old(Current()), c)
      ensures failed ==> old(failed) || Current().failed
    {
      if IsSpace(c) { return; }
      seenFirstChar := true;
      if c == '[' {
        isArray := true;
      } else if c == '{' {
        braceDepth, currentObject := 1, "{";
      } else {
        failed := true;
      }
    }

    method Between(c: char)
      requires braceDepth == 0
      modifies this
      ensures Current() == OuterStep(old(Current()), c)
    {
      if IsSpace(c) { return; }
      if isArray && c == ',' { return; }
      if isArray && c == ']' {
        done := true;
        return;
      }
      if c == '{' {
        braceDepth, currentObject := 1, "{";
        return;
      }
      failed := true;
    }

    method Inside(c: char)
      requires braceDepth > 0
      modifies this
      ensures Current() == InnerStep(old(Current()), c)
    {
      currentObject := currentObject + [c];
      if inString {
        if escapeNext {
          escapeNext := false;
        } else if c == '\\' {
          escapeNext := true;
        } else if c == '"' {
          inString := false;
        }
        return;
      }
      if c == '"' {
        inString := true;
      } else if c == '{' {
        braceDepth := braceDepth + 1;
      } else if c == '}' {
        braceDepth := braceDepth - 1;
        if braceDepth == 0 {
          inner := inner + [currentObject];
          currentObject := "";
        }
      }
    }
  }

  lemma {:induction false} StopsAtEnd(st: State, data: string)
    ensures st.failed || st.done ==> Feed(st, data) == st
    decreases |data|
  {
    if data != "" { StopsAtEnd(Step(st, data[0]), data[1..]); }
  }

  // ---------- any partition into writes ----------

  lemma {:induction false} FeedAppend(st: State, a: string, b: string)
    ensures Feed(st, a + b) == Feed(Feed(st, a), b)
    decreases |a|
  {
    hide Step;
    if a == "" {
      assert a + b == b;
    } else {
      assert (a + b)[0] == a[0] && (a + b)[1..] == a[1..] + b;
      FeedAppend(Step(st, a[0]), a[1..], b);
    }
  }

  function FeedAll(st: State, chunks: seq<string>): State
    decreases |chunks|
  {
    if chunks == [] then st else FeedAll(Feed(st, chunks[0]), chunks[1..])
  }

  function Joined(chunks: seq<string>): string {
    if chunks == [] then "" else chunks[0] + Joined(chunks[1..])
  }

  /** However a stream is cut into writes, valid or not, the inner sink and the final state are the same. */
  lemma {:induction false} ChunksDoNotMatter(st: State, chunks: seq<string>)
    ensures FeedAll(st, chunks) == Feed(st, Joined(chunks))
    decreases |chunks|
  {
    hide Feed;
    if chunks == [] {
      FeedNothing(st);
    } else {
      ChunksDoNotMatter(Feed(st, chunks[0]), chunks[1..]);
      FeedAppend(st, chunks[0], Joined(chunks[1..]));
    }
  }

  lemma FeedNothing(st: State)
    ensures Feed(st, "") == st
  {
  }

  // ---------- the invariant ----------

  /** The depth and the string mode that brace counting gives for some text from its start. */
  function DepthAfter(s: string): (d: int)
  {
    if s == "" then 0
    else
      var d, c := DepthAfter(s[..|s| - 1]), s[|s| - 1];
      if ModeAt(s, |s| - 1) != Outside then d else if c == '{' then d + 1 else if c == '}' then d - 1 else d
  }

  ghost predicate ModeIs(st: State, m: Mode) {
    match m
    case Outside => !st.inString && !st.escapeNext
    case Inside => st.inString && !st.escapeNext
    case Escaping => st.inString && st.escapeNext
  }

  /** Between objects the buffer is empty and no string is open; inside one, depth and mode are those of the
      buffered text. */
  ghost predicate Consistent(st: State) {
    if st.depth == 0 then st.buffer == "" && ModeIs(st, Outside)
    else
      st.seenFirst && st.buffer != "" && DepthAfter(st.buffer) == st.depth
      && ModeIs(st, ModeAt(st.buffer, |st.buffer|))
  }

  lemma {:induction false} ModeOfPrefix(s: string, c: char, i: nat)
    requires i <= |s|
    ensures ModeAt(s + [c], i) == ModeAt(s, i)
  {
    if i > 0 { ModeOfPrefix(s, c, i - 1); }
  }

  /** What one more character does to depth and mode. */
  lemma OneMore(s: string, c: char)
    ensures ModeAt(s + [c], |s| + 1) == Next(ModeAt(s, |s|), c)
    ensures DepthAfter(s + [c]) == if ModeAt(s, |s|) != Outside then DepthAfter(s)
                                   else DepthAfter(s) + (if c == '{' then 1 else if c == '}' then -1 else 0)
  {
    assert (s + [c])[..|s|] == s;
    ModeOfPrefix(s, c, |s|);
  }

  lemma InnerConsistent(st: State, c: char)
    requires Consistent(st) && st.depth > 0
    ensures Consistent(InnerStep(st, c))
  {
    hide ModeAt, DepthAfter;
    OneMore(st.buffer, c);
  }

  lemma StepConsistent(st: State, c: char)
    requires Consistent(st)
    ensures Consistent(Step(st, c))
  {
    hide ModeAt, DepthAfter, InnerStep;
    OpenBrace();
    if st.depth > 0 { InnerConsistent(st, c); }
  }

  lemma OpenBrace()
    ensures DepthAfter("{") == 1 && ModeAt("{", 1) == Outside
  {
    assert "{"[..0] == "";
  }

  lemma {:induction false} AlwaysConsistent(st: State, data: string)
    requires Consistent(st)
    ensures Consistent(Feed(st, data))
    decreases |data|
  {
    hide Consistent, Step;
    if data != "" {
      StepConsistent(st, data[0]);
      AlwaysConsistent(Step(st, data[0]), data[1..]);
    }
  }

  /** After any input at all, the state is consistent. */
  lemma ReachableConsistent(data: string)
    ensures Consistent(Feed(FRESH, data))
  {
    AlwaysConsistent(FRESH, data);
  }

  // ---------- what is passed on ----------

  /** No brace closes the first one before the end of the text. */
  ghost predicate Growing(s: string) {
    forall i | 0 < i <= |s| :: DepthAfter(s[..i]) > 0
  }

  /** From an opening brace to the one that closes it, and no further, with strings left out of the count. */
  ghost predicate Whole(s: string) {
    s != "" && s[0] == '{' && s[|s| - 1] == '}' && ModeAt(s, |s|) == Outside && DepthAfter(s) == 0
        && Growing(s[..|s| - 1])
  }

  ghost predicate PassesOnWholes(st: State) {
    Consistent(st) && Growing(st.buffer) && (st.buffer != "" ==> st.buffer[0] == '{')
    && forall i | 0 <= i < |st.out| :: Whole(st.out[i])
  }

  lemma GrowsBy(s: string, c: char)
    requires Growing(s) && DepthAfter(s + [c]) > 0
    ensures Growing(s + [c])
  {
    forall i | 0 < i <= |s| + 1 ensures DepthAfter((s + [c])[..i]) > 0 {
      if i <= |s| {
        assert (s + [c])[..i] == s[..i];
      } else {
        assert (s + [c])[..i] == s + [c];
      }
    }
  }

  lemma StepShape(st: State, c: char)
    requires Consistent(st)
    ensures var next := Step(st, c);
      next.out != st.out || next.buffer == st.buffer || next.buffer == "{"
      || (st.depth > 0 && next.depth > 0 && next.buffer == st.buffer + [c])
  {
  }

  lemma StepPassesOn(st: State, c: char)
    requires PassesOnWholes(st)
    ensures PassesOnWholes(Step(st, c))
  {
    hide Growing, DepthAfter, ModeAt, Step, Whole;
    StepConsistent(st, c);
    StepShape(st, c);
    NothingGrows();
    if Step(st, c).out != st.out {
      ClosingBrace(st, c);
    } else if Step(st, c).buffer == st.buffer + [c] {
      GrowsBy(st.buffer, c);
    }
  }

  lemma NothingGrows()
    ensures Growing("") && Growing("{")
  {
    OpenBrace();
    assert "{"[..1] == "{";
  }

  /** A text is passed on when the brace is read that closes it. */
  lemma PassedOnAt(st: State, c: char)
    requires Step(st, c).out != st.out
    ensures st.depth == 1 && !st.inString && c == '}'
    ensures Step(st, c).out == st.out + [st.buffer + [c]] && Step(st, c).buffer == ""
  {
  }

  lemma ClosingBrace(st: State, c: char)
    requires PassesOnWholes(st) && Step(st, c).out != st.out
    ensures Whole(st.buffer + [c]) && Step(st, c).out == st.out + [st.buffer + [c]] && Step(st, c).buffer == ""
  {
    hide Growing, ModeAt, DepthAfter, Step;
    PassedOnAt(st, c);
    OneMore(st.buffer, c);
    ClosedWhole(st.buffer);
  }

  lemma ClosedWhole(s: string)
    requires s != "" && s[0] == '{' && Growing(s) && ModeAt(s, |s|) == Outside && DepthAfter(s) == 1
    ensures Whole(s + ['}'])
  {
    hide Growing, ModeAt, DepthAfter;
    assert (s + ['}'])[..|s|] == s;
    OneMore(s, '}');
  }

  lemma {:induction false} AlwaysPassesOn(st: State, data: string)
    requires PassesOnWholes(st)
    ensures PassesOnWholes(Feed(st, data))
    decreases |data|
  {
    hide PassesOnWholes, Step;
    if data != "" {
      StepPassesOn(st, data[0]);
      AlwaysPassesOn(Step(st, data[0]), data[1..]);
    }
  }

  /** Whatever the input, also when it is no JSON, each text passed on is one whole object. */
  lemma OnlyWholeObjects(data: string)
    ensures forall i | 0 <= i < |Feed(FRESH, data).out| :: Whole(Feed(FRESH, data).out[i])
  {
    NothingGrows();
    AlwaysPassesOn(FRESH, data);
  }
}
