/**
 The Windows environment block: converted entries, each followed by a NUL, and a
 NUL after the last one.  The conversion to wide characters is a function that
 the two passes share; it fails on malformed input.
 */
module EnvironmentBlock {
  import opened Limits

  type Wide = nat

  const NUL: Wide := 0
  const TWO32: nat := 0x1_0000_0000

  datatype Conversion = Invalid | Converted(text: seq<Wide>)

  /** A converter of NUL-terminated strings never produces a NUL inside. */
  ghost predicate IsConverter(conv: string -> Conversion) {
    forall s :: conv(s).Converted? ==> NUL !in conv(s).text
  }

  predicate AllConvert(environment: seq<string>, conv: string -> Conversion) {
    forall i :: 0 <= i < |environment| ==> conv(environment[i]).Converted?
  }

  function Texts(environment: seq<string>, conv: string -> Conversion): (ws: seq<seq<Wide>>)
    requires AllConvert(environment, conv)
    ensures |ws| == |environment| && forall i :: 0 <= i < |ws| ==> ws[i] == conv(environment[i]).text
  {
    seq(|environment|, i requires 0 <= i < |environment| => conv(environment[i]).text)
  }

  /** The entries with their terminators. */
  function Flatten(ws: seq<seq<Wide>>): seq<Wide> {
    if ws == [] then [] else Flatten(ws[..|ws| - 1]) + ws[|ws| - 1] + [NUL]
  }

  // ------------------------------------------------------------- reading a block

  function First(s: seq<Wide>): (w: seq<Wide>)
    ensures |w| <= |s| && NUL !in w
  {
    if s == [] || s[0] == NUL then [] else [s[0]] + First(s[1..])
  }

  /** Reads NUL-terminated strings until an empty one. */
  function Read(s: seq<Wide>): seq<seq<Wide>>
    decreases |s|
  {
    var w := First(s);
    if w == [] then [] else if |w| == |s| then [w] else [w] + Read(s[|w| + 1..])
  }

  /** The entries before the first empty one. */
  function UpToEmpty(ws: seq<seq<Wide>>): (r: seq<seq<Wide>>)
    ensures r == ws <==> [] !in ws
    ensures r <= ws
  {
    if ws == [] || ws[0] == [] then [] else [ws[0]] + UpToEmpty(ws[1..])
  }

  lemma {:induction false} FirstIs(w: seq<Wide>, rest: seq<Wide>)
    requires NUL !in w
    ensures First(w + [NUL] + rest) == w
  {
    if w != [] {
      assert w[0] in w && forall c :: c in w[1..] ==> c in w;
      assert (w + [NUL] + rest)[1..] == w[1..] + [NUL] + rest;
      FirstIs(w[1..], rest);
    }
  }

  lemma {:induction false} FlattenFront(ws: seq<seq<Wide>>)
    requires ws != []
    ensures Flatten(ws) == ws[0] + [NUL] + Flatten(ws[1..])
  {
    var n := |ws| - 1;
    if n == 0 {
      assert ws[..0] == [] && ws[1..] == [];
    } else {
      FlattenFront(ws[..n]);
      assert ws[..n][1..] == ws[1..][..n - 1] && ws[1..][n - 1] == ws[n];
      var t := Flatten(ws[1..][..n - 1]);
      assert (ws[0] + [NUL] + t) + ws[n] + [NUL] == ws[0] + [NUL] + (t + ws[n] + [NUL]);
    }
  }

  /** Reading a block gives the entries before the first empty one. */
  lemma {:induction false} ReadIs(ws: seq<seq<Wide>>)
    requires forall i :: 0 <= i < |ws| ==> NUL !in ws[i]
    ensures Read(Flatten(ws) + [NUL]) == UpToEmpty(ws)
    decreases |ws|
  {
    if ws != [] {
      FlattenFront(ws);
      var w, rest := ws[0], Flatten(ws[1..]) + [NUL];
      var s := w + [NUL] + rest;
      assert Flatten(ws) + [NUL] == s;
      FirstIs(w, rest);
      if w != [] {
        assert s[|w| + 1..] == rest;
        ReadIs(ws[1..]);
      }
    }
  }

  /** The entries of an environment come back from its block exactly when none converts to an empty string. */
  lemma BlockComesBackIff(environment: seq<string>, conv: string -> Conversion)
    requires IsConverter(conv) && AllConvert(environment, conv)
    ensures Read(Flatten(Texts(environment, conv)) + [NUL]) == Texts(environment, conv) <==>
            forall i :: 0 <= i < |environment| ==> conv(environment[i]).text != []
  {
    ReadIs(Texts(environment, conv));
  }

  // ------------------------------------------------------------ building a block

  /** The narrowing conversion of a size to a 32-bit int. */
  function ToInt(n: nat): int {
    if n % TWO32 <= INT_MAX then n % TWO32 else n % TWO32 - TWO32
  }

  /** `MultiByteToWideChar` with a buffer: units written including the terminator, 0 on failure. */
  function Accepted(c: Conversion, room: int): (count: nat) {
    if c.Invalid? || room < 0 || (room != 0 && room < |c.text| + 1) then 0 else |c.text| + 1
  }

  datatype Result = Failure | NoMemory | Block(units: array<Wide>)

  /** What the first `i` entries come to. */
  ghost function Prefix(ws: seq<seq<Wide>>, i: nat): seq<Wide>
    requires i <= |ws|
  {
    Flatten(ws[..i])
  }

  lemma PrefixStep(ws: seq<seq<Wide>>, i: nat)
    requires i < |ws|
    ensures Prefix(ws, i + 1) == Prefix(ws, i) + ws[i] + [NUL]
  {
    assert ws[..i + 1][..i] == ws[..i];
  }

  lemma {:induction false} PrefixFits(ws: seq<seq<Wide>>, i: nat)
    requires i <= |ws|
    ensures |Prefix(ws, i)| <= |Flatten(ws)|
    ensures i == |ws| ==> Prefix(ws, i) == Flatten(ws)
    decreases |ws| - i
  {
    if i == |ws| {
      assert ws[..i] == ws;
    } else {
      PrefixStep(ws, i);
      PrefixFits(ws, i + 1);
    }
  }

  method Store(units: array<Wide>, cursor: nat, text: seq<Wide>)
    requires cursor + |text| < units.Length
    modifies units
    ensures units[..cursor + |text| + 1] == old(units[..cursor]) + text + [NUL]
    ensures forall k :: cursor + |text| < k < units.Length ==> units[k] == old(units[k])
  {
    forall k | 0 <= k < |text| {
      units[cursor + k] := text[k];
    }
    units[cursor + |text|] := NUL;
  }

  /**
   Entry `i` gets into the block: the room left, narrowed to an int, holds it and its
   terminator, or it is empty and the room reads as 0, which asks for the size only.
   */
  ghost predicate Survives(ws: seq<seq<Wide>>, total: nat, i: nat)
    requires i < |ws|
  {
    && |Prefix(ws, i)| <= total
    && var room := ToInt(total - |Prefix(ws, i)|);
       |ws[i]| + 1 <= room || (room == 0 && ws[i] == [])
  }

  ghost predicate SurviveUpTo(ws: seq<seq<Wide>>, total: nat, n: nat)
    requires n <= |ws|
  {
    forall i :: 0 <= i < n ==> Survives(ws, total, i)
  }

  /** Up to INT_MAX units, nothing is lost. */
  lemma SmallBlocksSurvive(ws: seq<seq<Wide>>, i: nat)
    requires i < |ws| && |Flatten(ws)| + 1 <= INT_MAX
    ensures Survives(ws, |Flatten(ws)| + 1, i)
  {
    PrefixFits(ws, i);
    PrefixFits(ws, i + 1);
    PrefixStep(ws, i);
  }

  lemma SurvivesIs(ws: seq<seq<Wide>>, total: nat, i: nat)
    requires i < |ws| && |Prefix(ws, i)| <= total
    ensures var room := ToInt(total - |Prefix(ws, i)|);
            Survives(ws, total, i) <==> |ws[i]| + 1 <= room || (room == 0 && ws[i] == [])
  {
  }

  /** An entry that was not stored leaves zeros. */
  lemma EntryStep(before: seq<Wide>, after: seq<Wide>, right: seq<Wide>, text: seq<Wide>, stored: bool)
    requires |before| == |right| && NUL !in text && |after| == |before| + |text| + 1
    requires after[..|before|] == before
    requires stored ==> after == before + text + [NUL]
    requires !stored ==> forall k :: |before| <= k < |after| ==> after[k] == NUL
    ensures after == right + text + [NUL] <==> before == right && (stored || text == [])
  {
    if after == right + text + [NUL] {
      assert before == (right + text + [NUL])[..|right|] == right;
      if text != [] {
        assert after[|before|] == text[0] && text[0] in text;
      }
    }
  }

  /** The second pass over a zeroed buffer; it writes inside the buffer whatever the narrowed room says. */
  method FillBlock(units: array<Wide>, environment: seq<string>, conv: string -> Conversion) returns (filled: bool)
    requires IsConverter(conv) && AllConvert(environment, conv) && units.Length == |Flatten(Texts(environment, conv))| + 1
    requires forall k :: 0 <= k < units.Length ==> units[k] == NUL
    modifies units
    ensures var ws := Texts(environment, conv);
            filled && units[..] == Flatten(ws) + [NUL] <==> SurviveUpTo(ws, units.Length, |ws|)
  {
    hide Flatten, Prefix, Survives, ToInt;
    ghost var ws := Texts(environment, conv);
    var cursor := 0;
    NoPrefix(ws);
    for i := 0 to |environment|
      invariant cursor == |Prefix(ws, i)| < units.Length
      invariant forall k :: cursor <= k < units.Length ==> units[k] == NUL
      invariant units[..cursor] == Prefix(ws, i) <==> SurviveUpTo(ws, units.Length, i)
    {
      PrefixStep(ws, i);
      PrefixFits(ws, i + 1);
      var c := conv(environment[i]);
      var room := ToInt(units.Length - cursor);
      var count := Accepted(c, room);
      assert Survives(ws, units.Length, i) <==> |c.text| + 1 <= room || (room == 0 && c.text == []) by {
        SurvivesIs(ws, units.Length, i);
      }
      if count == 0 {
        return false;
      }
      ghost var before := units[..cursor];
      if room != 0 {
        Store(units, cursor, c.text);
      }
      EntryStep(before, units[..cursor + count], Prefix(ws, i), c.text, room != 0);
      cursor := cursor + count;
    }
    PrefixFits(ws, |environment|);
    units[cursor] := NUL;
    assert units[..] == units[..cursor] + [NUL];
    filled := true;
  }

  /**
   A malformed entry fails.  Otherwise, given the memory, the block is the converted
   entries with their terminators exactly when every entry survives the narrowing.
   */
  method BuildBlock(environment: seq<string>, conv: string -> Conversion, granted: bool) returns (r: Result)
    requires IsConverter(conv)
    ensures !AllConvert(environment, conv) ==> r.Failure?
    ensures AllConvert(environment, conv) && !granted ==> r.NoMemory?
    ensures AllConvert(environment, conv) && granted ==>
      var ws := Texts(environment, conv);
      (r.Block? && r.units[..] == Flatten(ws) + [NUL] <==> SurviveUpTo(ws, |Flatten(ws)| + 1, |ws|))
  {
    var total := 1;
    for i := 0 to |environment|
      invariant AllConvert(environment[..i], conv)
      invariant total == |Flatten(Texts(environment[..i], conv))| + 1
    {
      var c := conv(environment[i]);
      if c.Invalid? {
        return Failure;
      }
      TextsStep(environment, conv, i);
      total := total + |c.text| + 1;
    }
    assert environment[..|environment|] == environment;
    if !granted {
      return NoMemory;
    }
    var units := new Wide[total](_ => NUL);
    var filled := FillBlock(units, environment, conv);
    r := if filled then Block(units) else Failure;
  }

  lemma NoPrefix(ws: seq<seq<Wide>>)
    ensures Prefix(ws, 0) == []
  {
  }

  lemma TextsStep(environment: seq<string>, conv: string -> Conversion, i: nat)
    requires i < |environment| && AllConvert(environment[..i + 1], conv)
    ensures AllConvert(environment[..i], conv)
    ensures Flatten(Texts(environment[..i + 1], conv)) ==
            Flatten(Texts(environment[..i], conv)) + conv(environment[i]).text + [NUL]
  {
    assert forall j :: 0 <= j < i ==> environment[..i][j] == environment[..i + 1][j];
    assert environment[..i + 1][i] == environment[i];
    assert Texts(environment[..i + 1], conv)[..i] == Texts(environment[..i], conv);
  }
}
