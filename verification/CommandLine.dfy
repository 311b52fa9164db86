/**
 The Windows command line: the quoter of the process module against the rules of
 the Microsoft C runtime for taking a command line apart ("Parsing C command-line
 arguments").
 */
module CommandLine {
  import opened Buffers

  const BACKSLASH := '\\'
  const QUOTE := '"'

  predicate IsBlank(c: char) { c == ' ' || c == '\t' }

  function Backslashes(n: nat): (s: string)
    ensures |s| == n && forall i :: 0 <= i < n ==> s[i] == BACKSLASH
  {
    seq(n, _ => BACKSLASH)
  }

  // --------------------------------------------------- the runtime's parsing rules

  /** The number of backslashes that `s` starts with. */
  function Leading(s: string): (n: nat)
    ensures n <= |s| && s[..n] == Backslashes(n) && (n < |s| ==> s[n] != BACKSLASH)
  {
    if s == [] || s[0] != BACKSLASH then 0
    else
      var n := Leading(s[1..]);
      assert s[..n + 1] == [BACKSLASH] + s[1..][..n];
      n + 1
  }

  datatype Parsed = Parsed(text: string, rest: string)

  function Prepend(s: string, p: Parsed): Parsed { p.(text := s + p.text) }

  /**
   Scans one argument.  2n backslashes before a quote stand for n backslashes and
   the quote opens or closes a quoted part; 2n+1 stand for n backslashes and a
   quote; other backslashes stand for themselves; two quotes in a quoted part stand
   for one; a blank outside quotes ends the argument.
   */
  function Scan(s: string, quoted: bool): (p: Parsed)
    ensures |p.rest| <= |s|
    ensures s != [] && (quoted || !IsBlank(s[0])) ==> |p.rest| < |s|
    decreases |s|, 1
  {
    Turn(Leading(s), s[Leading(s)..], quoted)
  }

  /** One turn of the scanner on `n` backslashes and what follows them. */
  function Turn(n: nat, after: string, quoted: bool): (p: Parsed)
    ensures |p.rest| <= |after|
    ensures after != [] && (quoted || !IsBlank(after[0])) ==> |p.rest| < |after|
    decreases |after|, 0
  {
    if after != [] && after[0] == QUOTE then
      if n % 2 == 1 then Prepend(Backslashes(n / 2) + [QUOTE], Scan(after[1..], quoted))
      else if quoted && |after| > 1 && after[1] == QUOTE then Prepend(Backslashes(n / 2) + [QUOTE], Scan(after[2..], true))
      else Prepend(Backslashes(n / 2), Scan(after[1..], !quoted))
    else if after == [] || (!quoted && IsBlank(after[0])) then Parsed(Backslashes(n), after)
    else Prepend(Backslashes(n) + [after[0]], Scan(after[1..], quoted))
  }

  function ParseArgs(s: string): seq<string>
    decreases |s|
  {
    if s == [] then []
    else if IsBlank(s[0]) then ParseArgs(s[1..])
    else
      var p := Scan(s, false);
      [p.text] + ParseArgs(p.rest)
  }

  /** The program name: quotes switch quoting on and off and are dropped; backslashes mean nothing special. */
  function ParseProgram(s: string, quoted: bool): Parsed {
    if s == [] then Parsed([], [])
    else if s[0] == QUOTE then ParseProgram(s[1..], !quoted)
    else if !quoted && IsBlank(s[0]) then Parsed([], s[1..])
    else Prepend([s[0]], ParseProgram(s[1..], quoted))
  }

  function Argv(s: string): (argv: seq<string>)
    ensures 0 < |argv|
  {
    var p := ParseProgram(s, false);
    [p.text] + ParseArgs(p.rest)
  }

  // ------------------------------------------------------------------ the quoter

  /** What the quoter writes for `v` when it has just written `pending` backslashes. */
  function Escape(v: string, pending: nat): string {
    if v == [] then Backslashes(pending)
    else if v[0] == BACKSLASH then [BACKSLASH] + Escape(v[1..], pending + 1)
    else if v[0] == QUOTE then Backslashes(pending + 1) + [QUOTE] + Escape(v[1..], 0)
    else [v[0]] + Escape(v[1..], 0)
  }

  function Quoted(v: string): string { [QUOTE] + Escape(v, 0) + [QUOTE] }

  /** The arguments part of the command line. */
  function Tail(args: seq<string>): string {
    if args == [] then [] else [' '] + Quoted(args[0]) + Tail(args[1..])
  }

  function Build(path: string, args: seq<string>): string { Quoted(path) + Tail(args) }

  // ----------------------------------------------------------- arguments come back

  lemma {:induction false} LeadingIs(n: nat, rest: string)
    requires rest == [] || rest[0] != BACKSLASH
    ensures Leading(Backslashes(n) + rest) == n && (Backslashes(n) + rest)[n..] == rest
  {
    if n == 0 {
      assert Backslashes(0) + rest == rest;
    } else {
      assert (Backslashes(n) + rest)[1..] == Backslashes(n - 1) + rest;
      LeadingIs(n - 1, rest);
    }
  }

  predicate EndsArgument(tail: string) { tail == [] || IsBlank(tail[0]) }

  lemma ScanTurn(n: nat, after: string, quoted: bool)
    requires after == [] || after[0] != BACKSLASH
    ensures Scan(Backslashes(n) + after, quoted) == Turn(n, after, quoted)
  {
    LeadingIs(n, after);
  }

  /** 2n+1 backslashes and a quote are n backslashes and a quote. */
  lemma ScanLiteralQuote(n: nat, rest: string, quoted: bool)
    ensures Scan(Backslashes(2 * n + 1) + ([QUOTE] + rest), quoted) == Prepend(Backslashes(n) + [QUOTE], Scan(rest, quoted))
  {
    hide Scan, Backslashes;
    ScanTurn(2 * n + 1, [QUOTE] + rest, quoted);
    assert ([QUOTE] + rest)[1..] == rest;
  }

  /** 2n backslashes and the closing quote are n backslashes and the end of the argument. */
  lemma ScanClosingQuote(n: nat, tail: string)
    requires EndsArgument(tail)
    ensures Scan(Backslashes(2 * n) + ([QUOTE] + tail), true) == Parsed(Backslashes(n), tail)
  {
    hide Scan, Backslashes;
    ScanTurn(2 * n, [QUOTE] + tail, true);
    assert ([QUOTE] + tail)[1..] == tail;
    ScanNothing(tail);
    assert Backslashes(n) + [] == Backslashes(n);
  }

  lemma ScanOrdinary(n: nat, c: char, rest: string)
    requires c != BACKSLASH && c != QUOTE
    ensures Scan(Backslashes(n) + ([c] + rest), true) == Prepend(Backslashes(n) + [c], Scan(rest, true))
  {
    hide Scan, Backslashes;
    ScanTurn(n, [c] + rest, true);
    assert ([c] + rest)[1..] == rest;
  }

  lemma BackslashesAdd(m: nat, n: nat, s: string)
    ensures Backslashes(m) + (Backslashes(n) + s) == Backslashes(m + n) + s
  {
  }

  /** What is written for `v` behind `n` backslashes, followed by `t`, seen as the scanner reads it. */
  lemma Respelled(v: string, n: nat, t: string)
    requires v != []
    ensures v[0] == BACKSLASH ==> Backslashes(n) + (Escape(v, n) + t) == Backslashes(n + 1) + (Escape(v[1..], n + 1) + t)
    ensures v[0] == QUOTE ==> Backslashes(n) + (Escape(v, n) + t) == Backslashes(2 * n + 1) + ([QUOTE] + (Escape(v[1..], 0) + t))
    ensures v[0] != BACKSLASH && v[0] != QUOTE ==>
              Backslashes(n) + (Escape(v, n) + t) == Backslashes(n) + ([v[0]] + (Escape(v[1..], 0) + t))
  {
    var plain := Escape(v[1..], 0) + t;
    if v[0] == BACKSLASH {
      assert Escape(v, n) == Backslashes(1) + Escape(v[1..], n + 1);
      hide Escape, Backslashes;
      Regroup(Backslashes(1), Escape(v[1..], n + 1), t);
      BackslashesAdd(n, 1, Escape(v[1..], n + 1) + t);
    } else if v[0] == QUOTE {
      assert Escape(v, n) == Backslashes(n + 1) + [QUOTE] + Escape(v[1..], 0);
      hide Escape, Backslashes;
      Regroup(Backslashes(n + 1) + [QUOTE], Escape(v[1..], 0), t);
      Regroup(Backslashes(n + 1), [QUOTE], plain);
      BackslashesAdd(n, n + 1, [QUOTE] + plain);
    } else {
      assert Escape(v, n) == [v[0]] + Escape(v[1..], 0);
      hide Escape, Backslashes;
      Regroup([v[0]], Escape(v[1..], 0), t);
    }
  }

  /** Reading back the inside of a quoted value gives the value, whatever backslashes came before. */
  lemma {:induction false} ScanEscaped(v: string, n: nat, tail: string)
    requires EndsArgument(tail)
    ensures Scan(Backslashes(n) + (Escape(v, n) + ([QUOTE] + tail)), true) == Parsed(Backslashes(n) + v, tail)
    decreases |v|
  {
    if v == [] {
      hide Scan;
      BackslashesAdd(n, n, [QUOTE] + tail);
      ScanClosingQuote(n, tail);
      assert Backslashes(n) + v == Backslashes(n);
    } else {
      hide Scan, Escape, Backslashes;
      var w, t := v[1..], [QUOTE] + tail;
      Respelled(v, n, t);
      Assembled(n, v);
      if v[0] == BACKSLASH {
        ScanEscaped(w, n + 1, tail);
      } else {
        ScanEscaped(w, 0, tail);
        Unpadded(Escape(w, 0) + t);
        Unpadded(w);
        if v[0] == QUOTE {
          ScanLiteralQuote(n, Escape(w, 0) + t, true);
        } else {
          ScanOrdinary(n, v[0], Escape(w, 0) + t);
        }
      }
    }
  }

  lemma Unpadded(s: string)
    ensures Backslashes(0) + s == s
  {
  }

  lemma Assembled(n: nat, v: string)
    requires v != []
    ensures (Backslashes(n) + [v[0]]) + v[1..] == Backslashes(n) + v
    ensures v[0] == BACKSLASH ==> Backslashes(n + 1) + v[1..] == Backslashes(n) + v
  {
    assert v == [v[0]] + v[1..];
    if v[0] == BACKSLASH {
      assert Backslashes(n + 1) == Backslashes(n) + [v[0]];
    }
  }

  lemma ScanNothing(tail: string)
    requires EndsArgument(tail)
    ensures Scan(tail, false) == Parsed([], tail)
  {
    assert Leading(tail) == 0;
    assert tail[0..] == tail;
  }

  lemma ScanQuoted(v: string, tail: string)
    requires EndsArgument(tail)
    ensures Scan(Quoted(v) + tail, false) == Parsed(v, tail)
  {
    hide Scan, Escape, Backslashes;
    var inside := Escape(v, 0) + ([QUOTE] + tail);
    Unpadded(inside);
    Unpadded(v);
    Unpadded([QUOTE] + inside);
    ScanEscaped(v, 0, tail);
    assert Quoted(v) + tail == [QUOTE] + inside;
    ScanTurn(0, [QUOTE] + inside, false);
    assert ([QUOTE] + inside)[1..] == inside;
    Unpadded(v);
  }

  /** Parsing the arguments part of a built command line gives back exactly the arguments. */
  lemma {:induction false} ArgumentsComeBack(args: seq<string>)
    ensures ParseArgs(Tail(args)) == args
    ensures args != [] ==> ParseArgs(Tail(args)[1..]) == args
  {
    hide Scan, Escape;
    if args != [] {
      var tail := Tail(args[1..]);
      var line := Quoted(args[0]) + tail;
      assert Tail(args) == [' '] + line;
      assert Tail(args)[1..] == line && line[0] == QUOTE;
      ScanQuoted(args[0], tail);
      ArgumentsComeBack(args[1..]);
      assert [args[0]] + args[1..] == args;
    }
  }

  // ---------------------------------------------------------------- program names

  predicate HasQuote(s: string) { QUOTE in s }

  predicate EvenQuotes(s: string) {
    if s == [] then true else if s[0] == QUOTE then !EvenQuotes(s[1..]) else EvenQuotes(s[1..])
  }

  /** No blank of `s` falls outside quotes, if reading starts inside or outside as `quoted` says. */
  predicate BlanksCovered(s: string, quoted: bool) {
    if s == [] then true
    else if s[0] == QUOTE then BlanksCovered(s[1..], !quoted)
    else (quoted || !IsBlank(s[0])) && BlanksCovered(s[1..], quoted)
  }

  function WithoutQuotes(s: string): (r: string)
    ensures !HasQuote(r)
    ensures !HasQuote(s) ==> r == s
  {
    if s == [] then []
    else if s[0] == QUOTE then WithoutQuotes(s[1..]) else [s[0]] + WithoutQuotes(s[1..])
  }

  /** A text whose blanks are covered is read to its end. */
  lemma {:induction false} ProgramReadsThrough(s: string, quoted: bool, tail: string)
    requires BlanksCovered(s, quoted)
    ensures ParseProgram(s + tail, quoted) == Prepend(WithoutQuotes(s), ParseProgram(tail, quoted == EvenQuotes(s)))
  {
    if s == [] {
      assert s + tail == tail;
    } else {
      assert (s + tail)[1..] == s[1..] + tail;
      if s[0] == QUOTE {
        ProgramReadsThrough(s[1..], !quoted, tail);
      } else {
        ProgramReadsThrough(s[1..], quoted, tail);
        var p := ParseProgram(tail, quoted == EvenQuotes(s));
        assert [s[0]] + (WithoutQuotes(s[1..]) + p.text) == ([s[0]] + WithoutQuotes(s[1..])) + p.text;
      }
    }
  }

  /** A text with an uncovered blank is cut off there. */
  lemma {:induction false} ProgramStopsInside(s: string, quoted: bool, last: char)
    requires !BlanksCovered(s, quoted)
    ensures var rest := ParseProgram(s + [last], quoted).rest; 0 < |rest| && rest[|rest| - 1] == last
  {
    assert (s + [last])[1..] == s[1..] + [last];
    if s[0] == QUOTE {
      ProgramStopsInside(s[1..], !quoted, last);
    } else if quoted || !IsBlank(s[0]) {
      ProgramStopsInside(s[1..], quoted, last);
    }
  }

  lemma {:induction false} PlainPrefix(n: nat, s: string, quoted: bool)
    ensures EvenQuotes(Backslashes(n) + s) == EvenQuotes(s)
    ensures BlanksCovered(Backslashes(n) + s, quoted) == BlanksCovered(s, quoted)
  {
    if n == 0 {
      assert Backslashes(0) + s == s;
    } else {
      assert (Backslashes(n) + s)[1..] == Backslashes(n - 1) + s;
      PlainPrefix(n - 1, s, quoted);
    }
  }

  lemma FirstChar(c: char, s: string, quoted: bool)
    ensures EvenQuotes([c] + s) == if c == QUOTE then !EvenQuotes(s) else EvenQuotes(s)
    ensures BlanksCovered([c] + s, quoted) ==
            if c == QUOTE then BlanksCovered(s, !quoted) else (quoted || !IsBlank(c)) && BlanksCovered(s, quoted)
  {
    assert ([c] + s)[1..] == s;
  }

  /** Escaping adds backslashes only: quotes and blanks stay as they are. */
  lemma {:induction false} EscapeKeepsQuotes(v: string, pending: nat, quoted: bool)
    ensures EvenQuotes(Escape(v, pending)) == EvenQuotes(v)
    ensures BlanksCovered(Escape(v, pending), quoted) == BlanksCovered(v, quoted)
    decreases |v|
  {
    hide EvenQuotes, BlanksCovered;
    if v == [] {
      PlainPrefix(pending, [], quoted);
      assert Backslashes(pending) + [] == Backslashes(pending);
    } else {
      var w := v[1..];
      assert v == [v[0]] + w;
      FirstChar(v[0], w, quoted);
      if v[0] == BACKSLASH {
        EscapeKeepsQuotes(w, pending + 1, quoted);
        FirstChar(BACKSLASH, Escape(w, pending + 1), quoted);
      } else if v[0] == QUOTE {
        EscapeKeepsQuotes(w, 0, !quoted);
        PlainPrefix(pending + 1, [QUOTE] + Escape(w, 0), quoted);
        FirstChar(QUOTE, Escape(w, 0), quoted);
        assert Escape(v, pending) == Backslashes(pending + 1) + ([QUOTE] + Escape(w, 0));
      } else {
        EscapeKeepsQuotes(w, 0, quoted);
        FirstChar(v[0], Escape(w, 0), quoted);
      }
    }
  }

  /** The program name as read back, and where its reading ends, for a path with covered blanks. */
  lemma ProgramOfBuilt(path: string, tail: string)
    requires BlanksCovered(path, true)
    ensures ParseProgram(Quoted(path) + tail, false) ==
            Prepend(WithoutQuotes(Escape(path, 0)), ParseProgram(tail, !EvenQuotes(path)))
  {
    var inside := Escape(path, 0);
    assert Quoted(path) + tail == [QUOTE] + (inside + ([QUOTE] + tail));
    assert ([QUOTE] + (inside + ([QUOTE] + tail)))[1..] == inside + ([QUOTE] + tail);
    EscapeKeepsQuotes(path, 0, true);
    ProgramReadsThrough(inside, true, [QUOTE] + tail);
    assert ([QUOTE] + tail)[1..] == tail;
  }

  /** The quotes of the path pair up, and no blank lies inside a pair, where the quoter's own quotes are switched off. */
  predicate SelfContained(path: string) {
    EvenQuotes(path) && BlanksCovered(path, true)
  }

  lemma ArgumentsComeBackIf(path: string, args: seq<string>)
    requires SelfContained(path)
    ensures Argv(Build(path, args))[1..] == args
    ensures Argv(Build(path, args))[0] == WithoutQuotes(Escape(path, 0))
  {
    ProgramOfBuilt(path, Tail(args));
    ArgumentsComeBack(args);
    assert WithoutQuotes(Escape(path, 0)) + [] == WithoutQuotes(Escape(path, 0));
  }

  lemma {:induction false} SomethingParses(s: string, i: nat)
    requires i < |s| && !IsBlank(s[i])
    ensures ParseArgs(s) != []
  {
    if IsBlank(s[0]) {
      SomethingParses(s[1..], i - 1);
    }
  }

  lemma ArgumentsComeBackOnlyIf(path: string)
    requires !SelfContained(path)
    ensures exists args :: Argv(Build(path, args))[1..] != args
  {
    if !BlanksCovered(path, true) {
      var inside := Escape(path, 0);
      EscapeKeepsQuotes(path, 0, true);
      assert Build(path, []) == [QUOTE] + (inside + [QUOTE]);
      assert ([QUOTE] + (inside + [QUOTE]))[1..] == inside + [QUOTE];
      ProgramStopsInside(inside, true, QUOTE);
      var rest := ParseProgram(Build(path, []), false).rest;
      SomethingParses(rest, |rest| - 1);
      assert Argv(Build(path, []))[1..] != [];
    } else {
      ProgramOfBuilt(path, Tail(["x"]));
      assert Tail(["x"]) == " \"x\"";
      assert ParseProgram("\"x\"", true) == Prepend("x", ParseProgram("\"", false)) by {
        assert "\"x\""[1..] == "x\"" && "x\""[1..] == "\"";
      }
      assert " \"x\""[1..] == "\"x\"" && "\""[1..] == "";
      assert Argv(Build(path, ["x"]))[1..] == [];
    }
  }

  /** Every argument list comes back behind a program path exactly when the path is self-contained. */
  lemma ArgumentsComeBackIff(path: string)
    ensures (forall args :: Argv(Build(path, args))[1..] == args) <==> SelfContained(path)
  {
    if SelfContained(path) {
      forall args ensures Argv(Build(path, args))[1..] == args { ArgumentsComeBackIf(path, args); }
    } else {
      ArgumentsComeBackOnlyIf(path);
    }
  }

  // --------------------------------------------------------------- the whole line

  predicate EndsInBackslash(s: string) { s != [] && s[|s| - 1] == BACKSLASH }

  /** The backslashes at the end of `v`, counting `pending` ones before it. */
  function Trailing(v: string, pending: nat): (n: nat)
    ensures n == 0 <==> if v == [] then pending == 0 else !EndsInBackslash(v)
  {
    if v == [] then pending else Trailing(v[1..], if v[0] == BACKSLASH then pending + 1 else 0)
  }

  /** Without quotes, escaping only doubles the backslashes at the end. */
  lemma {:induction false} EscapeOfPlain(v: string, pending: nat)
    requires !HasQuote(v)
    ensures Escape(v, pending) == v + Backslashes(Trailing(v, pending))
    decreases |v|
  {
    if v != [] {
      assert v[0] in v && v[1..] <= v[1..] && forall c :: c in v[1..] ==> c in v;
      EscapeOfPlain(v[1..], if v[0] == BACKSLASH then pending + 1 else 0);
    }
  }

  lemma {:induction false} PlainIsSelfContained(s: string)
    requires !HasQuote(s)
    ensures EvenQuotes(s) && BlanksCovered(s, true)
  {
    if s != [] {
      assert s[0] in s && forall c :: c in s[1..] ==> c in s;
      PlainIsSelfContained(s[1..]);
    }
  }

  /** The runtime never reports a program name with a quote in it. */
  lemma {:induction false} ProgramHasNoQuote(s: string, quoted: bool)
    ensures !HasQuote(ParseProgram(s, quoted).text)
  {
    if s != [] {
      ProgramHasNoQuote(s[1..], if s[0] == QUOTE then !quoted else quoted);
    }
  }

  /**
   The whole argument vector comes back exactly when the program path has no quote
   and does not end in a backslash; the arguments are arbitrary.
   */
  lemma ArgvComesBackIff(path: string, args: seq<string>)
    ensures Argv(Build(path, args)) == [path] + args <==> !HasQuote(path) && !EndsInBackslash(path)
  {
    if HasQuote(path) {
      ProgramHasNoQuote(Build(path, args), false);
      assert ([path] + args)[0] == path;
    } else {
      PlainIsSelfContained(path);
      ArgumentsComeBackIf(path, args);
      EscapeOfPlain(path, 0);
      assert !HasQuote(Escape(path, 0));
      assert path == [] ==> Trailing(path, 0) == 0;
      assert path + Backslashes(0) == path;
      var argv := Argv(Build(path, args));
      assert argv == [argv[0]] + argv[1..];
      assert ([path] + args)[0] == path && ([path] + args)[1..] == args;
    }
  }
}
