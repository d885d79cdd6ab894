/**
  Go's `filepath.Base` on a system whose path separator is '/': the last
  element of a path, with trailing separators removed.
 */
module FilePath {

  const Separator: char := '/'

  /** Drops every separator at the end of `p`. */
  function TrimTrailingSeparators(p: string): string {
    if p != [] && p[|p| - 1] == Separator then TrimTrailingSeparators(p[..|p| - 1]) else p
  }

  /** The part of `p` after its last separator (all of `p` when it has none). */
  function LastElement(p: string): string {
    if p == [] || p[|p| - 1] == Separator then []
    else LastElement(p[..|p| - 1]) + [p[|p| - 1]]
  }

  /**
    Trimming keeps a prefix of `p` that does not end in a separator, and
    removes only separators.
   */
  lemma {:induction false} TrimmedPrefix(p: string)
    ensures var r := TrimTrailingSeparators(p);
      && r <= p
      && (r == [] || r[|r| - 1] != Separator)
      && forall i :: |r| <= i < |p| ==> p[i] == Separator
    decreases |p|
  {
    if p != [] && p[|p| - 1] == Separator {
      TrimmedPrefix(p[..|p| - 1]);
    }
  }

  /**
    The last element is a suffix of `p` with no separator, and it is
    preceded in `p` by a separator unless it is all of `p`.
   */
  lemma {:induction false} LastElementSuffix(p: string)
    ensures var r := LastElement(p);
      && Separator !in r
      && |r| <= |p| && r == p[|p| - |r|..]
      && (|r| < |p| ==> p[|p| - |r| - 1] == Separator)
    decreases |p|
  {
    if p != [] && p[|p| - 1] != Separator {
      LastElementSuffix(p[..|p| - 1]);
    }
  }

  /**
    `filepath.Base`: "." for the empty path, the separator alone for a path
    made only of separators, and otherwise the last element. The result is
    never empty, and it holds no separator unless it is the root.
   */
  function Base(path: string): (r: string)
    ensures r != []
    ensures r == [Separator] || Separator !in r
  {
    if path == [] then "."
    else
      var trimmed := TrimTrailingSeparators(path);
      TrimmedPrefix(path);
      if trimmed == [] then [Separator]
      else
        LastElementSuffix(trimmed);
        LastElement(trimmed)
  }

  /** A plain file name (no separator) is its own base name. */
  lemma BaseOfName(name: string)
    requires name != [] && Separator !in name
    ensures Base(name) == name
  {
    TrimmedPrefix(name);
    LastElementSuffix(name);
    assert name[|name| - 1] in name;
  }

  /**
    For a path `dir + name + trail`, where `dir` is empty or ends in a
    separator, `name` is a non-empty element and `trail` holds only
    separators, the base name is `name`.
   */
  lemma BaseOfPath(dir: string, name: string, trail: string)
    requires dir == [] || dir[|dir| - 1] == Separator
    requires name != [] && Separator !in name
    requires forall i :: 0 <= i < |trail| ==> trail[i] == Separator
    ensures Base(dir + name + trail) == name
  {
    var path := dir + name + trail;
    var stem := dir + name;
    assert path[|stem| - 1] == name[|name| - 1];
    TrimmedPrefix(path);
    assert TrimTrailingSeparators(path) == stem;
    LastElementSuffix(stem);
    var e := LastElement(stem);
    assert e == stem[|dir|..];
  }

  /** Taking the base name twice changes nothing. */
  lemma BaseIdempotent(path: string)
    ensures Base(Base(path)) == Base(path)
  {
    var b := Base(path);
    if b == [Separator] {
      assert TrimTrailingSeparators(b) == [];
    } else {
      BaseOfName(b);
    }
  }
}
