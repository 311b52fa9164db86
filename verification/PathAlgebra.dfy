/**
 Joining paths and taking their last component, in the POSIX form.
 */
module PathAlgebra {
  import opened Buffers
  import opened Limits

  const ENAMETOOLONG: int := 36
  const SEPARATOR := '/'

  predicate IsAbsolute(path: string) { path != [] && path[0] == SEPARATOR }

  predicate EndsInSeparator(path: string) { path != [] && path[|path| - 1] == SEPARATOR }

  /** What stands between two joined paths. */
  function Gap(left: string, right: string): string {
    if EndsInSeparator(left) || right == [] then [] else [SEPARATOR]
  }

  /** The joined path: an absolute right side wins, and an empty left side adds nothing. */
  function Join(left: string, right: string): string {
    if IsAbsolute(right) || left == [] then right else left + Gap(left, right) + right
  }

  /** The empty path is neutral on both sides. */
  lemma JoinNeutral(path: string)
    ensures Join("", path) == path && Join(path, "") == path
  {
    assert path + [] + [] == path;
  }

  /**
   What a join of two non-empty paths is: the right one if that is absolute, and
   otherwise the left one, then the right one, with exactly one separator in between
   where the left has none at its end and nothing where it has one.
   */
  lemma JoinMeans(left: string, right: string)
    requires left != [] && right != []
    ensures right[0] == '/' ==> Join(left, right) == right
    ensures right[0] != '/' && left[|left| - 1] == '/' ==> Join(left, right) == left + right
    ensures right[0] != '/' && left[|left| - 1] != '/' ==>
      var j, n := Join(left, right), |left|;
      |j| == n + 1 + |right| && j[..n] == left && j[n] == '/' && j[n + 1..] == right && j[n - 1] != '/' && j[n + 1] != '/'
  {
  }

  /** The start and the end of a join of non-empty paths. */
  lemma JoinEnds(left: string, right: string)
    requires left != [] && right != []
    ensures Join(left, right) != [] && EndsInSeparator(Join(left, right)) == EndsInSeparator(right)
    ensures IsAbsolute(Join(left, right)) == (IsAbsolute(left) || IsAbsolute(right))
  {
  }

  /** Joining is associative over all strings. */
  lemma JoinAssociative(a: string, b: string, c: string)
    ensures Join(Join(a, b), c) == Join(a, Join(b, c))
  {
    if a == [] {
      JoinNeutral(b);
      JoinNeutral(Join(b, c));
    } else if b == [] {
      JoinNeutral(a);
      JoinNeutral(c);
    } else if c == [] {
      JoinNeutral(Join(a, b));
      JoinNeutral(b);
    } else {
      JoinEnds(a, b);
      JoinEnds(b, c);
      Regroup(a + Gap(a, b), b, Gap(b, c));
      Regroup(a + Gap(a, b), b + Gap(b, c), c);
    }
  }

  /** What follows the last separator. */
  function Base(path: string): string {
    if path == [] || path[|path| - 1] == SEPARATOR then []
    else Base(path[..|path| - 1]) + [path[|path| - 1]]
  }

  /** `prefix` and `r` make up `path`, and the last separator, if any, stands between them. */
  predicate SplitsAtLast(path: string, prefix: string, r: string) {
    path == prefix + r && SEPARATOR !in r && (prefix == [] || EndsInSeparator(prefix))
  }

  /** A prefix that is empty or ends in a separator does not touch the last component. */
  lemma {:induction false} BaseBehind(prefix: string, path: string)
    requires prefix == [] || EndsInSeparator(prefix)
    ensures Base(prefix + path) == Base(path)
  {
    if path == [] {
      assert prefix + path == prefix;
    } else {
      var n, s := |path| - 1, prefix + path;
      assert s[|s| - 1] == path[n] && s[..|s| - 1] == prefix + path[..n];
      BaseBehind(prefix, path[..n]);
    }
  }

  lemma {:induction false} BaseOfName(name: string)
    requires SEPARATOR !in name
    ensures Base(name) == name
  {
    if name != [] {
      var n := |name| - 1;
      assert name == name[..n] + [name[n]] && name[n] in name;
      BaseOfName(name[..n]);
    }
  }

  lemma LongerBase(path: string, prefix: string, r: string, c: char)
    requires SplitsAtLast(path, prefix, r) && c != SEPARATOR
    ensures SplitsAtLast(path + [c], prefix, r + [c])
  {
    assert (prefix + r) + [c] == prefix + (r + [c]);
  }

  lemma {:induction false} BaseSplits(path: string)
    ensures |Base(path)| <= |path| && SplitsAtLast(path, path[..|path| - |Base(path)|], Base(path))
  {
    var n := |path| - 1;
    if path == [] || path[n] == SEPARATOR {
      assert path[..|path|] == path && path + [] == path;
    } else {
      BaseSplits(path[..n]);
      hide SplitsAtLast;
      var prefix := path[..n][..n - |Base(path[..n])|];
      LongerBase(path[..n], prefix, Base(path[..n]), path[n]);
      assert path == path[..n] + [path[n]];
      assert prefix == path[..|path| - |Base(path)|];
    }
  }

  /** The last component is what stands behind the last separator, and nothing else does. */
  lemma BaseIff(path: string, prefix: string, r: string)
    requires path == prefix + r
    ensures SplitsAtLast(path, prefix, r) <==> r == Base(path)
  {
    if SplitsAtLast(path, prefix, r) {
      BaseBehind(prefix, r);
      BaseOfName(r);
    }
    if r == Base(path) {
      BaseSplits(path);
      assert prefix == path[..|path| - |r|];
    }
  }

  /** The last component of a join is that of its right side, or of its left side if the right is empty. */
  lemma BaseOfJoin(left: string, right: string)
    ensures Base(Join(left, right)) == if right == [] then Base(left) else Base(right)
  {
    if right == [] {
      JoinNeutral(left);
    } else if left != [] {
      BaseBehind(left + Gap(left, right), right);
    }
  }

  /** A non-empty name without a separator is the last component of every path it is joined to. */
  lemma NameIsBase(left: string, name: string)
    requires name != [] && SEPARATOR !in name
    ensures Base(Join(left, name)) == name
  {
    BaseOfJoin(left, name);
    BaseOfName(name);
  }

  // ------------------------------------------------------------------- in buffers

  /** `x_path_join`: succeeds exactly when the joined path and its terminator fit, and otherwise writes nothing. */
  method JoinInto(buffer: array<char>, left: string, right: string) returns (code: int)
    modifies buffer
    ensures buffer.Length == 0 ==> code == EINVAL
    ensures buffer.Length != 0 ==> (code == 0 <==> |Join(left, right)| < buffer.Length) && (code == 0 || code == ENAMETOOLONG)
    ensures code != 0 ==> buffer[..] == old(buffer[..])
    ensures code == 0 ==> buffer[..] == Overwrite(old(buffer[..]), 0, Join(left, right) + ['\0'])
  {
    hide Overwrite;
    ghost var before := buffer[..];
    if buffer.Length == 0 {
      return EINVAL;
    }
    if IsAbsolute(right) || left == [] {
      if |right| + 1 > buffer.Length {
        return ENAMETOOLONG;
      }
      Copy(buffer, 0, right + ['\0']);
      return 0;
    }
    var needsSeparator := !(EndsInSeparator(left) || right == []);
    var total := |left| + (if needsSeparator then 1 else 0) + |right|;
    if total + 1 > buffer.Length {
      return ENAMETOOLONG;
    }
    Copy(buffer, 0, left);
    if needsSeparator {
      Copy(buffer, |left|, [SEPARATOR]);
      OverwriteTwice(before, 0, left, [SEPARATOR]);
    } else {
      assert left + Gap(left, right) == left;
    }
    Copy(buffer, |left| + (if needsSeparator then 1 else 0), right + ['\0']);
    OverwriteTwice(before, 0, left + Gap(left, right), right + ['\0']);
    Regroup(left + Gap(left, right), right, ['\0']);
    code := 0;
  }

  /** `x_path_basename`: the cursor loop. */
  method BaseName(path: string) returns (base: string)
    ensures base == Base(path)
  {
    var last := 0;
    for cursor := 0 to |path|
      invariant 0 <= last <= cursor
      invariant SEPARATOR !in path[last..cursor]
      invariant 0 < last ==> path[last - 1] == SEPARATOR
    {
      if path[cursor] == SEPARATOR {
        last := cursor + 1;
      }
    }
    base := path[last..];
    assert path == path[..last] + base;
    BaseIff(path, path[..last], base);
  }
}
