/**
 The two passes of the command-line builder: one that sizes the buffer and one
 that fills it.
 */
module CommandLineBuffer {
  import opened Buffers
  import opened CommandLine
  import opened Limits

  type Size = n: nat | n < TWO64

  /** The size pass for one value: the length of what the fill pass writes, plus one. */
  method QuotedLength(value: string) returns (length: Size)
    requires |Quoted(value)| + 1 < TWO64
    ensures length == |Quoted(value)| + 1
  {
    length := 2;
    var backslashes: Size := 0;
    var i := 0;
    while i < |value|
      invariant 0 <= i <= |value| && backslashes < length
      invariant length + |Escape(value[i..], backslashes)| == |Quoted(value)|
    {
      EscapeStep(value, i, backslashes);
      if value[i] == BACKSLASH {
        backslashes := backslashes + 1;
        length := length + 1;
      } else if value[i] == QUOTE {
        length := length + backslashes + 2;
        backslashes := 0;
      } else {
        backslashes := 0;
        length := length + 1;
      }
      i := i + 1;
    }
    length := length + backslashes + 1;
  }

  /** One step of the quoter on the rest of a value. */
  lemma EscapeStep(value: string, i: nat, pending: nat)
    requires i < |value|
    ensures value[i] == BACKSLASH ==> Escape(value[i..], pending) == [BACKSLASH] + Escape(value[i + 1..], pending + 1)
    ensures value[i] == QUOTE ==> Escape(value[i..], pending) == Backslashes(pending + 1) + [QUOTE] + Escape(value[i + 1..], 0)
    ensures value[i] != BACKSLASH && value[i] != QUOTE ==> Escape(value[i..], pending) == [value[i]] + Escape(value[i + 1..], 0)
  {
    assert value[i..][1..] == value[i + 1..];
  }

  // ------------------------------------------------------------------ fill pass

  method PutChar(target: array<char>, offset: Size, c: char) returns (next: Size)
    requires offset < target.Length < TWO64
    modifies target
    ensures next == offset + 1 && target[..] == Overwrite(old(target[..]), offset, [c])
  {
    target[offset] := c;
    next := offset + 1;
  }

  /** The loop that doubles pending backslashes. */
  method PutBackslashes(target: array<char>, offset: Size, n: Size) returns (next: Size)
    requires offset + n <= target.Length < TWO64
    modifies target
    ensures next == offset + n && target[..] == Overwrite(old(target[..]), offset, Backslashes(n))
  {
    next := offset;
    var left := n;
    while left > 0
      invariant next + left == offset + n && offset <= next
      invariant target[..offset] == old(target[..offset])
      invariant forall k :: offset <= k < next ==> target[k] == BACKSLASH
      invariant target[next..] == old(target[next..])
    {
      target[next] := BACKSLASH;
      next := next + 1;
      left := left - 1;
      assert target[next..] == old(target[next..]);
    }
  }

  /** The fill pass for one value. */
  method AppendQuoted(target: array<char>, offset: Size, value: string) returns (next: Size)
    requires offset + |Quoted(value)| <= target.Length < TWO64
    modifies target
    ensures next == offset + |Quoted(value)|
    ensures target[..] == Overwrite(old(target[..]), offset, Quoted(value))
  {
    hide Overwrite, Escape;
    ghost var before, written := target[..], [QUOTE];
    next := PutChar(target, offset, QUOTE);
    var backslashes: Size := 0;
    var i := 0;
    assert value[0..] == value;
    while i < |value|
      invariant 0 <= i <= |value| && backslashes <= |written|
      invariant written + Escape(value[i..], backslashes) == [QUOTE] + Escape(value, 0)
      invariant next == offset + |written| && target[..] == Overwrite(before, offset, written)
    {
      EscapeStep(value, i, backslashes);
      ghost var text := [value[i]];
      if value[i] == BACKSLASH {
        next := PutChar(target, next, value[i]);
        backslashes := backslashes + 1;
      } else if value[i] == QUOTE {
        text := Backslashes(backslashes + 1) + [QUOTE];
        next := PutEscapedQuote(target, next, backslashes);
        backslashes := 0;
      } else {
        next := PutChar(target, next, value[i]);
        backslashes := 0;
      }
      OverwriteTwice(before, offset, written, text);
      Regroup(written, text, Escape(value[i + 1..], backslashes));
      written := written + text;
      i := i + 1;
    }
    EscapeEnd(value, backslashes);
    next := PutBackslashes(target, next, backslashes);
    OverwriteTwice(before, offset, written, Backslashes(backslashes));
    next := PutChar(target, next, QUOTE);
    OverwriteTwice(before, offset, written + Backslashes(backslashes), [QUOTE]);
  }

  lemma EscapeEnd(value: string, pending: nat)
    ensures Escape(value[|value|..], pending) == Backslashes(pending)
  {
  }

  method PutEscapedQuote(target: array<char>, offset: Size, pending: Size) returns (next: Size)
    requires offset + pending + 2 <= target.Length < TWO64
    modifies target
    ensures next == offset + pending + 2
    ensures target[..] == Overwrite(old(target[..]), offset, Backslashes(pending + 1) + [QUOTE])
  {
    hide Overwrite;
    ghost var before := target[..];
    next := PutBackslashes(target, offset, pending);
    next := PutChar(target, next, BACKSLASH);
    OverwriteTwice(before, offset, Backslashes(pending), [BACKSLASH]);
    assert Backslashes(pending) + [BACKSLASH] == Backslashes(pending + 1);
    next := PutChar(target, next, QUOTE);
    OverwriteTwice(before, offset, Backslashes(pending + 1), [QUOTE]);
  }

  // ------------------------------------------------------------ the command line

  /** The sum that the size pass arrives at. */
  function LineLength(path: string, args: seq<string>): (n: nat)
    ensures n == |Build(path, args)| + |args| + 1
    decreases |args|
  {
    if args == [] then |Quoted(path)| + 1
    else
      var n := |args| - 1;
      TailSnoc(args[..n], args[n]);
      assert args == args[..n] + [args[n]];
      LineLength(path, args[..n]) + 1 + |Quoted(args[n])| + 1
  }

  lemma {:induction false} TailSnoc(args: seq<string>, last: string)
    ensures Tail(args + [last]) == Tail(args) + [' '] + Quoted(last)
  {
    if args == [] {
      assert [last][1..] == [];
    } else {
      assert (args + [last])[1..] == args[1..] + [last];
      TailSnoc(args[1..], last);
    }
  }

  /** The size pass over path and arguments. */
  method CommandLineLength(path: string, args: seq<string>) returns (length: Size)
    requires LineLength(path, args) < TWO64
    ensures length == LineLength(path, args)
  {
    hide Quoted, Build;
    LengthsGrow(path, args, 0);
    length := QuotedLength(path);
    assert args[..0] == [];
    for i := 0 to |args|
      invariant length == LineLength(path, args[..i])
    {
      assert args[..i + 1][..i] == args[..i];
      LengthsGrow(path, args, i + 1);
      var more := QuotedLength(args[i]);
      length := length + (1 + more);
    }
    assert args[..|args|] == args;
  }

  lemma {:induction false} LengthsGrow(path: string, args: seq<string>, i: nat)
    requires i <= |args|
    ensures LineLength(path, args[..i]) <= LineLength(path, args)
    decreases |args|
  {
    var n := |args| - 1;
    if i == |args| {
      assert args[..i] == args;
    } else {
      LengthsGrow(path, args[..n], i);
      assert args[..n][..i] == args[..i];
    }
  }

  /** The fill pass over path and arguments. */
  method FillCommandLine(buffer: array<char>, path: string, args: seq<string>) returns (offset: Size)
    requires LineLength(path, args) < buffer.Length < TWO64
    modifies buffer
    ensures offset == |Build(path, args)| < buffer.Length
    ensures buffer[..] == Overwrite(old(buffer[..]), 0, Build(path, args))
  {
    hide Quoted, Overwrite, Build, LineLength;
    ghost var blank := buffer[..];
    PrefixFits(path, args, 0);
    offset := AppendQuoted(buffer, 0, path);
    for i := 0 to |args|
      invariant offset == |Build(path, args[..i])| < LineLength(path, args)
      invariant buffer[..] == Overwrite(blank, 0, Build(path, args[..i]))
    {
      ghost var done := Build(path, args[..i]);
      PrefixFits(path, args, i + 1);
      offset := PutChar(buffer, offset, ' ');
      OverwriteTwice(blank, 0, done, [' ']);
      offset := AppendQuoted(buffer, offset, args[i]);
      OverwriteTwice(blank, 0, done + [' '], Quoted(args[i]));
    }
    assert args[..|args|] == args;
  }

  datatype Built = NoMemory | Line(buffer: array<char>, offset: Size, length: Size)

  /** Sizes, allocates and fills the buffer; `granted` says whether the allocator obliges. */
  method BuildCommandLine(path: string, args: seq<string>, granted: bool) returns (r: Built)
    requires LineLength(path, args) + 1 < TWO64
    ensures r.NoMemory? <==> !granted
    ensures r.Line? ==>
      && r.length == LineLength(path, args) && r.buffer.Length == r.length + 1
      && r.offset == r.length - (|args| + 1)
      && r.buffer[..r.offset] == Build(path, args) && r.buffer[r.offset] == '\0'
  {
    hide Quoted, Overwrite, Build;
    var length := CommandLineLength(path, args);
    if !granted {
      return NoMemory;
    }
    var buffer := new char[length + 1](_ => '\0');
    ghost var blank := buffer[..];
    var offset := FillCommandLine(buffer, path, args);
    OverwritePrefix(blank, Build(path, args));
    buffer[offset] := '\0';
    r := Line(buffer, offset, length);
  }

  lemma OverwritePrefix(buffer: string, text: string)
    requires |text| <= |buffer|
    ensures Overwrite(buffer, 0, text)[..|text|] == text
  {
  }

  /** The line up to an argument fits in the buffer and ends in that argument. */
  lemma PrefixFits(path: string, args: seq<string>, i: nat)
    requires i <= |args|
    ensures |Build(path, args[..i])| < LineLength(path, args)
    ensures i == 0 ==> Build(path, args[..0]) == Quoted(path)
    ensures 0 < i ==> Build(path, args[..i]) == (Build(path, args[..i - 1]) + [' ']) + Quoted(args[i - 1])
  {
    hide Quoted;
    LengthsGrow(path, args, i);
    if i == 0 {
      assert args[..0] == [] && Quoted(path) + [] == Quoted(path);
    } else {
      assert args[..i] == args[..i - 1] + [args[i - 1]];
      TailSnoc(args[..i - 1], args[i - 1]);
    }
  }
}
