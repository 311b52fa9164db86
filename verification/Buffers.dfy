/**
 Joining text, and writing it into part of a buffer while leaving the rest alone.
 */
module Buffers {

  lemma Regroup(a: string, b: string, c: string)
    ensures (a + b) + c == a + (b + c)
  {
  }

  /** The buffer with `text` written over it at `start`. */
  function Overwrite(buffer: string, start: nat, text: string): (r: string)
    requires start + |text| <= |buffer|
    ensures |r| == |buffer| && r[start..start + |text|] == text
  {
    buffer[..start] + text + buffer[start + |text|..]
  }

  /** Two writes, the second right behind the first, are one. */
  lemma OverwriteTwice(buffer: string, start: nat, one: string, two: string)
    requires start + |one| + |two| <= |buffer|
    ensures Overwrite(Overwrite(buffer, start, one), start + |one|, two) == Overwrite(buffer, start, one + two)
  {
    var once := Overwrite(buffer, start, one);
    assert once[..start + |one|] == buffer[..start] + one;
    assert once[start + |one| + |two|..] == buffer[start + |one| + |two|..];
  }

  /** `memcpy` into a buffer. */
  method Copy(buffer: array<char>, start: nat, text: string)
    requires start + |text| <= buffer.Length
    modifies buffer
    ensures buffer[..] == Overwrite(old(buffer[..]), start, text)
  {
    forall i | 0 <= i < |text| {
      buffer[start + i] := text[i];
    }
  }
}
