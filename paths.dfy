/**
 * Path values as `pathlib` represents them: a drive (empty on POSIX), whether the
 * path has a root, and its list of components.  `Path('/home/u/data')` is
 * `Path("", true, ["home", "u", "data"])`; `Path('.')` is `Path("", false, [])`.
 */
module Paths {

  datatype Path = Path(drive: string, rooted: bool, parts: seq<string>)

  /** `p / name` for a single component `name`. */
  function Join(p: Path, name: string): Path {
    p.(parts := p.parts + [name])
  }

  /** `p` followed by the components `rest`. */
  function JoinAll(p: Path, rest: seq<string>): Path {
    p.(parts := p.parts + rest)
  }

  /** `p.name`: the last component, or "" for an anchor or `.`. */
  function Name(p: Path): string {
    if p.parts == [] then "" else p.parts[|p.parts| - 1]
  }

  /** `p.parent`: the path without its last component; an anchor is its own parent. */
  function Parent(p: Path): Path {
    if p.parts == [] then p else p.(parts := p.parts[..|p.parts| - 1])
  }

  /** `p.is_absolute()` in the POSIX flavour: the path has a root. */
  predicate IsAbsolute(p: Path) {
    p.rooted
  }

  /** `p` lies at or below `dir`: same anchor, and `dir`'s components start `p`'s. */
  predicate IsUnder(dir: Path, p: Path) {
    p.drive == dir.drive && p.rooted == dir.rooted && dir.parts <= p.parts
  }

  /** Components as `pathlib` keeps them: never empty and never holding a separator. */
  predicate WellFormed(p: Path) {
    forall i | 0 <= i < |p.parts| :: p.parts[i] != "" && '/' !in p.parts[i]
  }

  /** The components joined with the separator. */
  function JoinParts(xs: seq<string>): string {
    if xs == [] then ""
    else if |xs| == 1 then xs[0]
    else JoinParts(xs[..|xs| - 1]) + "/" + xs[|xs| - 1]
  }

  /** `str(p)` with the POSIX separator. */
  function Str(p: Path): string {
    var anchor := p.drive + (if p.rooted then "/" else "");
    if anchor == "" && p.parts == [] then "." else anchor + JoinParts(p.parts)
  }

  /** `t in s` on strings: `t` occurs in `s` as a contiguous block. */
  predicate Contains(t: string, s: string)
    decreases |s|
  {
    |t| <= |s| && (t == s[..|t|] || Contains(t, s[1..]))
  }

  /** `s.endswith(t)`. */
  predicate EndsWith(s: string, t: string) {
    |t| <= |s| && s[|s| - |t|..] == t
  }

  /** A prefix one element longer is the shorter prefix and that element. */
  lemma TakeOneMore<T>(s: seq<T>, i: int)
    requires 0 <= i < |s|
    ensures s[..i + 1] == s[..i] + [s[i]]
  {
  }

  /** Joining more components only extends the joined string. */
  lemma {:induction false} JoinPartsPrefix(xs: seq<string>, ys: seq<string>)
    ensures JoinParts(xs) <= JoinParts(xs + ys)
    decreases |ys|
  {
    if ys == [] {
      assert xs + ys == xs;
    } else {
      var zs := xs + ys;
      var init := ys[..|ys| - 1];
      assert zs[..|zs| - 1] == xs + init;
      JoinPartsPrefix(xs, init);
      if xs + init == [] {
        assert JoinParts(xs) == "";
      } else {
        assert JoinParts(zs) == JoinParts(xs + init) + "/" + zs[|zs| - 1];
      }
    }
  }

  /** The string of a path begins with the string of every ancestor that is not `.`. */
  lemma StrPrefix(dir: Path, p: Path)
    requires IsUnder(dir, p)
    requires dir.drive != "" || dir.rooted || dir.parts != []
    ensures Str(dir) <= Str(p)
  {
    assert p.parts == dir.parts + p.parts[|dir.parts|..];
    JoinPartsPrefix(dir.parts, p.parts[|dir.parts|..]);
  }

  /** The last component of a path ends its string. */
  lemma StrEndsWithName(p: Path, name: string)
    ensures EndsWith(Str(Join(p, name)), name)
  {
    var q := Join(p, name);
    assert q.parts[..|q.parts| - 1] == p.parts;
    if p.parts != [] {
      assert JoinParts(q.parts) == JoinParts(p.parts) + "/" + name;
    }
  }

  /** An occurrence stays an occurrence when text is appended. */
  lemma {:induction false} ContainsAppend(t: string, s: string, u: string)
    requires Contains(t, s)
    ensures Contains(t, s + u)
    decreases |s|
  {
    assert (s + u)[..|t|] == s[..|t|];
    if t != s[..|t|] {
      assert (s + u)[1..] == s[1..] + u;
      ContainsAppend(t, s[1..], u);
    }
  }

  /** An occurrence stays an occurrence when text is prepended. */
  lemma {:induction false} ContainsPrepend(t: string, s: string, u: string)
    requires Contains(t, u)
    ensures Contains(t, s + u)
    decreases |s|
  {
    if s == [] {
      assert s + u == u;
    } else {
      assert (s + u)[1..] == s[1..] + u;
      ContainsPrepend(t, s[1..], u);
    }
  }

  /** A string that occurs in a prefix occurs in the whole string. */
  lemma ContainsInExtension(t: string, s: string, w: string)
    requires Contains(t, s) && s <= w
    ensures Contains(t, w)
  {
    assert w == s + w[|s|..];
    ContainsAppend(t, s, w[|s|..]);
  }

  /** A string that occurs in a suffix occurs in the whole string. */
  lemma ContainsInSuffix(t: string, s: string, w: string)
    requires Contains(t, s) && EndsWith(w, s)
    ensures Contains(t, w)
  {
    assert w == w[..|w| - |s|] + s;
    ContainsPrepend(t, w[..|w| - |s|], s);
  }
}
