/**
 * The brace formatter. The variadic form writes up to the first `{}`, prints one argument and hands the
 * rest to the form with one argument less; the form without arguments writes what is left and is
 * stricter about braces.
 */
module Formatter {
  import opened Base

  datatype Error = RightBraceMissing | LeftBraceMissing | TooManyPositions | TooManyArgs

  datatype Result = Ok(text: string) | Err(error: Error)

  // ----- what a format string means -----

  /** `Lone` is a '{' that neither doubles, nor opens a hole, nor ends the string. `Bad` ends everything. */
  datatype Token = Lit(c: char) | Hole | Lone | Bad(error: Error)

  function Width(s: string): (w: nat)
    requires s != ""
    ensures 1 <= w <= |s|
  {
    if |s| >= 2 && ((s[0] == '{' && (s[1] == '{' || s[1] == '}')) || (s[0] == '}' && s[1] == '}')) then 2 else 1
  }

  function First(s: string): Token
    requires s != ""
  {
    if s[0] == '{' then
      if |s| == 1 then Bad(RightBraceMissing)
      else if s[1] == '{' then Lit('{')
      else if s[1] == '}' then Hole
      else Lone
    else if s[0] == '}' then
      if |s| >= 2 && s[1] == '}' then Lit('}') else Bad(LeftBraceMissing)
    else Lit(s[0])
  }

  function Tokens(s: string): seq<Token> {
    if s == "" then [] else [First(s)] + Tokens(s[Width(s)..])
  }

  function Prefixed(s: string, r: Result): Result {
    if r.Ok? then Ok(s + r.text) else r
  }

  /** Holes take the arguments in turn. A lone '{' vanishes while arguments are left and is an error after. */
  function Render(ts: seq<Token>, args: seq<string>): Result {
    if ts == [] then if args == [] then Ok("") else Err(TooManyArgs)
    else match ts[0]
      case Lit(c) => Prefixed([c], Render(ts[1..], args))
      case Hole => if args == [] then Err(TooManyPositions) else Prefixed(args[0], Render(ts[1..], args[1..]))
      case Lone => if args == [] then Err(RightBraceMissing) else Render(ts[1..], args)
      case Bad(e) => Err(e)
  }

  function Format(fmt: string, args: seq<string>): Result { Render(Tokens(fmt), args) }

  // ----- the two loops -----

  /** What the rest of a format string gives, after the text already written. */
  ghost function From(out: string, fmt: string, pos: nat, args: seq<string>): Result
    requires pos <= |fmt|
  {
    Prefixed(out, Render(Tokens(fmt[pos..]), args))
  }

  lemma PrefixedTwice(a: string, b: string, r: Result)
    ensures Prefixed(a, Prefixed(b, r)) == Prefixed(a + b, r)
  {
    if r.Ok? { ConcatAssoc(a, b, r.text); }
  }

  /** One token on. */
  lemma Advance(out: string, fmt: string, pos: nat, args: seq<string>)
    requires pos < |fmt|
    ensures var t, next := First(fmt[pos..]), pos + Width(fmt[pos..]);
      From(out, fmt, pos, args) ==
        if t.Bad? then Err(t.error)
        else if t.Lit? then From(out + [t.c], fmt, next, args)
        else if t.Hole? then if args == [] then Err(TooManyPositions) else From(out + args[0], fmt, next, args[1..])
        else if args == [] then Err(RightBraceMissing) else From(out, fmt, next, args)
  {
    var s := fmt[pos..];
    var next := pos + Width(s);
    assert s[Width(s)..] == fmt[next..];
    assert Tokens(s)[1..] == Tokens(fmt[next..]);
    if First(s).Lit? {
      PrefixedTwice(out, [First(s).c], Render(Tokens(fmt[next..]), args));
    } else if First(s).Hole? && args != [] {
      PrefixedTwice(out, args[0], Render(Tokens(fmt[next..]), args[1..]));
    }
  }

  /** The form without arguments. */
  method FormatRest(ss: string, fmt: string, start: nat) returns (r: Result)
    requires start <= |fmt|
    ensures r == From(ss, fmt, start, [])
  {
    var out, pos := ss, start;
    while pos < |fmt|
      invariant pos <= |fmt|
      invariant From(ss, fmt, start, []) == From(out, fmt, pos, [])
    {
      Advance(out, fmt, pos, []);
      var current := fmt[pos];
      if pos + 1 == |fmt| {
        if current == '{' { return Err(RightBraceMissing); }
        if current == '}' { return Err(LeftBraceMissing); }
      } else if current == '{' {
        if fmt[pos + 1] == '{' {
          pos := pos + 1;
        } else if fmt[pos + 1] == '}' {
          return Err(TooManyPositions);
        } else {
          return Err(RightBraceMissing);
        }
      } else if current == '}' {
        if fmt[pos + 1] == '}' {
          pos := pos + 1;
        } else {
          return Err(LeftBraceMissing);
        }
      }
      out := out + [current];
      pos := pos + 1;
    }
    assert out + "" == out;
    return Ok(out);
  }

  /** The variadic form, the arguments already rendered. */
  method FormatFrom(ss: string, fmt: string, start: nat, args: seq<string>) returns (r: Result)
    requires start <= |fmt|
    ensures r == From(ss, fmt, start, args)
    decreases |args|
  {
    if args == [] {
      r := FormatRest(ss, fmt, start);
      return;
    }
    var out, pos := ss, start;
    while pos < |fmt|
      invariant pos <= |fmt|
      invariant From(ss, fmt, start, args) == From(out, fmt, pos, args)
    {
      Advance(out, fmt, pos, args);
      var isLast := pos + 1 == |fmt|;
      if fmt[pos] == '{' {
        if isLast { return Err(RightBraceMissing); }
        if fmt[pos + 1] == '{' {
          out := out + [fmt[pos]];
          pos := pos + 1;
        } else if fmt[pos + 1] == '}' {
          r := FormatFrom(out + args[0], fmt, pos + 2, args[1..]);
          return;
        }
      } else if fmt[pos] == '}' {
        if isLast || fmt[pos + 1] != '}' { return Err(LeftBraceMissing); }
        out := out + [fmt[pos]];
        pos := pos + 1;
      } else {
        out := out + [fmt[pos]];
      }
      pos := pos + 1;
    }
    return Err(TooManyArgs);
  }

  method FormatString(fmt: string, args: seq<string>) returns (r: Result)
    ensures r == Format(fmt, args)
  {
    r := FormatFrom("", fmt, 0, args);
    assert fmt[0..] == fmt;
    if r.Ok? { assert forall t: string :: "" + t == t; }
  }

  // ----- formatting inverts escaping -----

  function EscapeChar(c: char): string { if c == '{' then "{{" else if c == '}' then "}}" else [c] }

  function Escape(s: string): string {
    if s == "" then "" else EscapeChar(s[0]) + Escape(s[1..])
  }

  /** Escaped texts with a hole between each two. */
  function Template(texts: seq<string>): string
    requires texts != []
  {
    if |texts| == 1 then Escape(texts[0]) else Escape(texts[0]) + ("{}" + Template(texts[1..]))
  }

  function Interleave(texts: seq<string>, args: seq<string>): string
    requires |texts| == |args| + 1
  {
    if args == [] then texts[0] else texts[0] + (args[0] + Interleave(texts[1..], args[1..]))
  }

  function Lits(s: string): seq<Token> {
    if s == "" then [] else [Lit(s[0])] + Lits(s[1..])
  }

  function TemplateTokens(texts: seq<string>): seq<Token>
    requires texts != []
  {
    if |texts| == 1 then Lits(texts[0]) else Lits(texts[0]) + ([Hole] + TemplateTokens(texts[1..]))
  }

  lemma TokensOf(s: string, t: string, rest: string)
    requires s == t + rest && t != "" && |t| == Width(s)
    ensures Tokens(s) == [First(s)] + Tokens(rest)
  {
    assert s[|t|..] == rest;
  }

  lemma TokensOfLit(c: char, rest: string)
    ensures Tokens(EscapeChar(c) + rest) == [Lit(c)] + Tokens(rest)
  {
    TokensOf(EscapeChar(c) + rest, EscapeChar(c), rest);
  }

  lemma {:induction false} TokensEscaped(s: string, rest: string)
    ensures Tokens(Escape(s) + rest) == Lits(s) + Tokens(rest)
  {
    if s == "" {
      assert Escape(s) + rest == rest;
    } else {
      var head, tail := EscapeChar(s[0]), Escape(s[1..]);
      ConcatAssoc(head, tail, rest);
      TokensOfLit(s[0], tail + rest);
      TokensEscaped(s[1..], rest);
      ConcatAssoc([Lit(s[0])], Lits(s[1..]), Tokens(rest));
    }
  }

  lemma {:induction false} TokensOfTemplate(texts: seq<string>)
    requires texts != []
    ensures Tokens(Template(texts)) == TemplateTokens(texts)
  {
    if |texts| == 1 {
      TokensEscaped(texts[0], "");
      assert Escape(texts[0]) + "" == Escape(texts[0]);
      assert Lits(texts[0]) + [] == Lits(texts[0]);
    } else {
      var rest := Template(texts[1..]);
      TokensOfTemplate(texts[1..]);
      TokensOf("{}" + rest, "{}", rest);
      TokensEscaped(texts[0], "{}" + rest);
    }
  }

  lemma {:induction false} RenderLits(s: string, ts: seq<Token>, args: seq<string>)
    ensures Render(Lits(s) + ts, args) == Prefixed(s, Render(ts, args))
  {
    if s == "" {
      assert Lits(s) + ts == ts;
    } else {
      RenderLits(s[1..], ts, args);
      RenderLit(s[0], Lits(s[1..]) + ts, args);
      ConcatAssoc([Lit(s[0])], Lits(s[1..]), ts);
      PrefixedTwice([s[0]], s[1..], Render(ts, args));
      assert s == [s[0]] + s[1..];
    }
  }

  lemma RenderLit(c: char, ts: seq<Token>, args: seq<string>)
    ensures Render([Lit(c)] + ts, args) == Prefixed([c], Render(ts, args))
  {
    assert ([Lit(c)] + ts)[1..] == ts;
  }

  lemma {:induction false} RenderTemplate(texts: seq<string>, args: seq<string>)
    requires |texts| == |args| + 1
    ensures Render(TemplateTokens(texts), args) == Ok(Interleave(texts, args))
  {
    if args == [] {
      RenderLits(texts[0], [], []);
      assert Lits(texts[0]) + [] == Lits(texts[0]);
    } else {
      var ts := TemplateTokens(texts[1..]);
      RenderTemplate(texts[1..], args[1..]);
      assert ([Hole] + ts)[1..] == ts;
      RenderLits(texts[0], [Hole] + ts, args);
    }
  }

  /** Formatting escaped texts with holes between them puts the arguments between the texts. */
  lemma FormatInvertsEscaping(texts: seq<string>, args: seq<string>)
    requires |texts| == |args| + 1
    ensures Format(Template(texts), args) == Ok(Interleave(texts, args))
  {
    TokensOfTemplate(texts);
    RenderTemplate(texts, args);
  }

  // ----- exactly when a call returns -----

  function Holes(ts: seq<Token>): nat {
    if ts == [] then 0 else (if ts[0].Hole? then 1 else 0) + Holes(ts[1..])
  }

  predicate NoBad(ts: seq<Token>) { forall t :: t in ts ==> !t.Bad? }

  predicate NoLone(ts: seq<Token>) { Lone !in ts }

  /** What follows the last hole. */
  function Tail(ts: seq<Token>): seq<Token> {
    if Holes(ts) == 0 then ts else Tail(ts[1..])
  }

  /**
   * A call returns if and only if there is one `{}` for each argument, no unmatched '}' and no final
   * '{', and no lone '{' after the last `{}`.
   */
  lemma {:induction false} ReturnsIff(ts: seq<Token>, args: seq<string>)
    ensures Render(ts, args).Ok? <==> Holes(ts) == |args| && NoBad(ts) && NoLone(Tail(ts))
  {
    if ts != [] {
      assert ts == [ts[0]] + ts[1..];
      ReturnsIff(ts[1..], args);
      if args != [] { ReturnsIff(ts[1..], args[1..]); }
    }
  }

  // ----- the accepted strings are the templates, but for lone braces -----

  function SpellToken(t: Token): string {
    match t
    case Lit(c) => EscapeChar(c)
    case Hole => "{}"
    case Lone => "{"
    case Bad(_) => ""
  }

  function Spell(ts: seq<Token>): string {
    if ts == [] then "" else SpellToken(ts[0]) + Spell(ts[1..])
  }

  lemma SpellFirst(s: string)
    requires s != "" && !First(s).Bad?
    ensures s == SpellToken(First(s)) + s[Width(s)..]
  {}

  lemma {:induction false} SpellTokens(s: string)
    requires NoBad(Tokens(s))
    ensures Spell(Tokens(s)) == s
  {
    if s != "" {
      var ts, rest := Tokens(s), s[Width(s)..];
      assert ts[0] == First(s) && ts[1..] == Tokens(rest);
      assert ts[0] in ts && forall t :: t in ts[1..] ==> t in ts;
      SpellTokens(rest);
      SpellFirst(s);
    }
  }

  /** The texts between the holes. */
  function Texts(ts: seq<Token>): (r: seq<string>)
    ensures |r| == Holes(ts) + 1
  {
    if ts == [] then [""]
    else
      var r := Texts(ts[1..]);
      if ts[0].Lit? then [[ts[0].c] + r[0]] + r[1..] else if ts[0].Hole? then [""] + r else r
  }

  lemma TemplateOfLit(c: char, r: seq<string>)
    requires r != []
    ensures Template([[c] + r[0]] + r[1..]) == EscapeChar(c) + Template(r)
  {
    var q := [[c] + r[0]] + r[1..];
    assert ([c] + r[0])[1..] == r[0];
    assert q[1..] == r[1..];
    if |r| > 1 { ConcatAssoc(EscapeChar(c), Escape(r[0]), "{}" + Template(r[1..])); }
  }

  lemma TemplateOfHole(r: seq<string>)
    requires r != []
    ensures Template([""] + r) == "{}" + Template(r)
  {
    assert ([""] + r)[1..] == r;
    assert Escape("") + ("{}" + Template(r)) == "{}" + Template(r);
  }

  lemma {:induction false} SpellIsTemplate(ts: seq<Token>)
    requires NoBad(ts) && NoLone(ts)
    ensures Spell(ts) == Template(Texts(ts))
  {
    if ts != [] {
      assert ts[0] in ts && forall t :: t in ts[1..] ==> t in ts;
      SpellIsTemplate(ts[1..]);
      var r := Texts(ts[1..]);
      if ts[0].Lit? {
        TemplateOfLit(ts[0].c, r);
      } else {
        TemplateOfHole(r);
      }
    }
  }

  lemma {:induction false} TemplateNoLone(texts: seq<string>)
    requires texts != []
    ensures NoLone(TemplateTokens(texts))
  {
    LitsNoLone(texts[0]);
    if |texts| > 1 { TemplateNoLone(texts[1..]); }
  }

  lemma {:induction false} LitsNoLone(s: string)
    ensures NoLone(Lits(s))
  {
    if s != "" { LitsNoLone(s[1..]); }
  }

  ghost predicate IsTemplate(fmt: string, holes: nat) {
    exists texts: seq<string> :: |texts| == holes + 1 && fmt == Template(texts)
  }

  /** Without lone braces, the strings a call accepts are exactly the templates with a hole per argument. */
  lemma AcceptedIffTemplate(fmt: string, args: seq<string>)
    ensures Format(fmt, args).Ok? && NoLone(Tokens(fmt)) <==> IsTemplate(fmt, |args|)
  {
    ReturnsIff(Tokens(fmt), args);
    if Format(fmt, args).Ok? && NoLone(Tokens(fmt)) {
      SpellTokens(fmt);
      SpellIsTemplate(Tokens(fmt));
      assert |Texts(Tokens(fmt))| == |args| + 1 && fmt == Template(Texts(Tokens(fmt)));
    }
    if IsTemplate(fmt, |args|) {
      var texts: seq<string> :| |texts| == |args| + 1 && fmt == Template(texts);
      FormatInvertsEscaping(texts, args);
      TokensOfTemplate(texts);
      TemplateNoLone(texts);
    }
  }

  function DropLone(ts: seq<Token>): seq<Token> {
    if ts == [] then [] else if ts[0].Lone? then DropLone(ts[1..]) else [ts[0]] + DropLone(ts[1..])
  }

  /** A lone '{' that a call lets pass leaves no trace: the result is as if it had not been written. */
  lemma {:induction false} LoneBraceVanishes(ts: seq<Token>, args: seq<string>)
    requires Render(ts, args).Ok?
    ensures Render(ts, args) == Render(DropLone(ts), args)
  {
    if ts != [] {
      LoneBraceVanishes(ts[1..], if ts[0].Hole? then args[1..] else args);
      if !ts[0].Lone? { assert DropLone(ts)[1..] == DropLone(ts[1..]); }
    }
  }

  /** The same lone brace is let pass before a hole and rejected when no argument is left. */
  lemma LoneBraceExample(a: string)
    ensures Format("{b{}", [a]) == Ok("b" + a)
    ensures Format("{b", []) == Err(RightBraceMissing)
  {
    TokensOf("{}", "{}", "");
    TokensOf("b{}", "b", "{}");
    TokensOf("{b{}", "{", "b{}");
    TokensOf("{b", "{", "b");
    var ts := [Lone, Lit('b'), Hole];
    assert Tokens("{b{}") == ts;
    assert ts[2..][1..] == [] && Render(ts[2..], [a]) == Ok(a + "") && a + "" == a;
    assert ts[1..][1..] == ts[2..] && Render(ts[1..], [a]) == Ok("b" + a);
  }

  /** An argument is left over exactly when no brace is unmatched and there are fewer holes than arguments. */
  lemma {:induction false} LeftOverIff(ts: seq<Token>, args: seq<string>)
    requires NoBadArgs(ts)
    ensures Render(ts, args) == Err(TooManyArgs) <==> NoBad(ts) && Holes(ts) < |args|
  {
    if ts != [] {
      assert ts == [ts[0]] + ts[1..];
      assert NoBadArgs(ts[1..]);
      LeftOverIff(ts[1..], args);
      if args != [] { LeftOverIff(ts[1..], args[1..]); }
    }
  }

  /** A format string itself never says that there are too many arguments. */
  predicate NoBadArgs(ts: seq<Token>) { forall i :: 0 <= i < |ts| ==> ts[i] != Bad(TooManyArgs) }

  lemma {:induction false} TokensNoBadArgs(s: string)
    ensures NoBadArgs(Tokens(s))
  {
    if s != "" { TokensNoBadArgs(s[Width(s)..]); }
  }

  lemma TooManyArgsIff(fmt: string, args: seq<string>)
    ensures Format(fmt, args) == Err(TooManyArgs) <==> NoBad(Tokens(fmt)) && Holes(Tokens(fmt)) < |args|
  {
    TokensNoBadArgs(fmt);
    LeftOverIff(Tokens(fmt), args);
  }

  /** Which error each mistake raises. */
  lemma ErrorExamples(a: string)
    ensures Format("{", []) == Format("{", [a]) == Err(RightBraceMissing)
    ensures Format("}", []) == Format("}", [a]) == Err(LeftBraceMissing)
    ensures Format("}x", []) == Format("}x", [a]) == Err(LeftBraceMissing)
    ensures Format("{}", []) == Err(TooManyPositions) && Format("", [a]) == Err(TooManyArgs)
  {
    TokensOf("{", "{", "");
    TokensOf("}", "}", "");
    TokensOf("}x", "}", "x");
    TokensOf("{}", "{}", "");
  }
}
