/** The parts of a file path that `pathlib.PurePosixPath` exposes and the
    parsers and the backup naming use: the name, its directory, its suffix
    and its stem. Paths are taken as written (no normalisation). */
module Paths {
  /** Index of the last `c` in `s`, or -1. */
  function LastIndexOf(s: string, c: char): (i: int)
    ensures -1 <= i < |s|
    ensures i >= 0 ==> s[i] == c
    ensures forall j :: i < j < |s| ==> s[j] != c
    decreases |s|
  {
    if s == [] then -1
    else if s[|s| - 1] == c then |s| - 1
    else LastIndexOf(s[..|s| - 1], c)
  }

  /** `Path.name`: the part after the last `/`. */
  function PathName(path: string): string {
    path[LastIndexOf(path, '/') + 1..]
  }

  /** The directory part, trailing `/` included. */
  function PathDir(path: string): string {
    path[..LastIndexOf(path, '/') + 1]
  }

  /** `Path.suffix`: from the last dot of the name, unless that dot starts
      or ends the name. */
  function Suffix(name: string): string {
    var i := LastIndexOf(name, '.');
    if 0 < i < |name| - 1 then name[i..] else ""
  }

  /** `Path.stem`. */
  function Stem(name: string): string {
    var i := LastIndexOf(name, '.');
    if 0 < i < |name| - 1 then name[..i] else name
  }

  /** A path is its directory followed by its name. */
  lemma PathSplits(path: string)
    ensures path == PathDir(path) + PathName(path)
  {
  }

  /** A name is its stem followed by its suffix. */
  lemma NameSplits(name: string)
    ensures name == Stem(name) + Suffix(name)
  {
    var j := LastIndexOf(name, '.');
    if 0 < j < |name| - 1 {
      assert name == name[..j] + name[j..];
    }
  }

  /** A non-empty suffix is a dot followed by at least one character and no
      further dot, and it ends the name. */
  lemma SuffixShape(name: string)
    ensures var x := Suffix(name);
            x != "" ==> |x| >= 2 && x[0] == '.' && '.' !in x[1..] && name[|name| - |x|..] == x
  {
  }

  /** The last `c` of `s` is at `i` when `s[i]` is `c` and no later character is. */
  lemma LastIndexAt(s: string, c: char, i: int)
    requires 0 <= i < |s| && s[i] == c
    requires forall j :: i < j < |s| ==> s[j] != c
    ensures LastIndexOf(s, c) == i
  {
  }
}
