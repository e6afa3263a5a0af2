/** The parts of `pathlib.PurePosixPath` the core uses, on path strings that
    are already in normal form (no repeated or trailing `/`, no `.` parts). */
module Paths {
  import opened Wrappers

  predicate NoChar(s: string, c: char) {
    forall i :: 0 <= i < |s| ==> s[i] != c
  }

  /** The index of the last `c` in `s`, or -1 (Python's `str.rfind`). */
  function LastIndexOf(s: string, c: char): (i: int)
    ensures -1 <= i < |s|
    ensures i >= 0 ==> s[i] == c
    ensures forall j :: i < j < |s| ==> s[j] != c
  {
    if s == [] then -1
    else if s[|s| - 1] == c then |s| - 1
    else LastIndexOf(s[..|s| - 1], c)
  }

  /** Where the final component of `p` starts: just after its last `/`. */
  function NameStart(p: string): (k: nat)
    ensures k <= |p|
  {
    LastIndexOf(p, '/') + 1
  }

  /** The directory part of `p` with its trailing `/` ("" for a bare name),
      so that `Dir(p) + n` is `str(Path(p).parent / n)`. */
  function Dir(p: string): (d: string)
    ensures IsDir(d) && d <= p
  {
    p[..NameStart(p)]
  }

  /** `Path(p).name`. */
  function Name(p: string): (n: string)
    ensures NoChar(n, '/')
    ensures Dir(p) + n == p
  {
    p[NameStart(p)..]
  }

  /** Whether a final component has a suffix: a `.` after its first
      character and before its last one. */
  predicate HasSuffix(name: string) {
    0 < LastIndexOf(name, '.') < |name| - 1
  }

  /** `Path(p).suffix`: from the last `.` of the name on, or "". A suffix
      is always a whole extension: a dot, then at least one character, with
      no further dot and no `/`. */
  function Suffix(p: string): (x: string)
    ensures x == "" || ProperExt(x)
  {
    var n := Name(p);
    if HasSuffix(n) then
      var i := LastIndexOf(n, '.');
      assert forall j :: 0 <= j < |n[i..]| - 1 ==> n[i..][1..][j] == n[i + 1 + j];
      n[i..]
    else ""
  }

  /** `Path(p).stem`: the name without its suffix. */
  function Stem(p: string): (s: string)
    ensures s + Suffix(p) == Name(p)
  {
    var n := Name(p);
    if HasSuffix(n) then n[..LastIndexOf(n, '.')] else n
  }

  /** `Path(p).with_suffix(ext)`, which raises `ValueError` when the name is empty. */
  function WithSuffix(p: string, ext: string): (r: Option<string>)
    ensures r.None? <==> Name(p) == ""
    ensures r.Some? ==> r.value == Dir(p) + (Stem(p) + ext)
  {
    if Name(p) == "" then None else Some(Dir(p) + (Stem(p) + ext))
  }

  /** An extension `with_suffix` accepts and `suffix` gives back whole: a dot
      followed by at least one character, none of them `.` or `/`. */
  predicate ProperExt(ext: string) {
    |ext| > 1 && ext[0] == '.' && NoChar(ext[1..], '.') && NoChar(ext, '/')
  }

  lemma StemNoSlash(p: string)
    ensures NoChar(Stem(p), '/')
  {
    forall i | 0 <= i < |Stem(p)| ensures Stem(p)[i] != '/' {
      assert Stem(p)[i] == (Stem(p) + Suffix(p))[i];
    }
  }

  /** A path with a non-empty name has a non-empty stem without `/`. */
  lemma StemOfNamed(p: string)
    requires Name(p) != ""
    ensures Stem(p) != [] && NoChar(Stem(p), '/')
  {
    var n := Name(p);
    if HasSuffix(n) {
      assert Stem(p) == n[..LastIndexOf(n, '.')];
    }
    StemNoSlash(p);
  }

  /** `with_suffix(ext)` keeps the directory and leaves exactly the suffix
      `ext`; so it changes the path whenever the old suffix was not `ext`. */
  lemma WithSuffixShape(p: string, ext: string)
    requires Name(p) != "" && ProperExt(ext)
    ensures Dir(WithSuffix(p, ext).value) == Dir(p)
    ensures Suffix(WithSuffix(p, ext).value) == ext
    ensures Stem(WithSuffix(p, ext).value) == Stem(p)
    ensures Suffix(p) != ext ==> WithSuffix(p, ext).value != p
  {
    StemOfNamed(p);
    StemAndSuffixOf(Dir(p), Stem(p), ext);
  }

  lemma NoCharConcat(a: string, b: string, c: char)
    requires NoChar(a, c) && NoChar(b, c)
    ensures NoChar(a + b, c)
  {
    forall i | 0 <= i < |a + b| ensures (a + b)[i] != c {
      if i >= |a| {
        assert (a + b)[i] == b[i - |a|];
      }
    }
  }

  lemma JoinParts(a: string, b: string)
    ensures a <= a + b && (a + b)[|a|..] == b
  {
  }

  /** A directory prefix as `Dir` produces it: empty, or ending in `/`. */
  predicate IsDir(d: string) {
    d == [] || d[|d| - 1] == '/'
  }

  /** Joining a directory and a name without `/` splits back into the two. */
  lemma JoinSplits(d: string, n: string)
    requires IsDir(d) && NoChar(n, '/')
    ensures Dir(d + n) == d && Name(d + n) == n
  {
    var p := d + n;
    assert p[..|d|] == d;
    if d != [] {
      assert p[|d| - 1] == '/';
    }
    assert LastIndexOf(p, '/') == |d| - 1;
  }

  /** In `s + ext`, where `ext` is a dot followed by dot-free text, the last
      dot is the one that starts `ext`. */
  lemma LastDotStartsExt(s: string, ext: string)
    requires |ext| > 0 && ext[0] == '.' && NoChar(ext[1..], '.')
    ensures LastIndexOf(s + ext, '.') == |s|
  {
    var t := s + ext;
    assert t[|s|] == '.';
    forall j | |s| < j < |t| ensures t[j] != '.' {
      assert t[j] == ext[1..][j - |s| - 1];
    }
  }

  /** A path whose name is a non-empty stem followed by a proper extension
      (a dot and at least one character, neither `.` nor `/`) has exactly
      that stem and that suffix. */
  lemma StemAndSuffixOf(d: string, stem: string, ext: string)
    requires IsDir(d) && stem != [] && NoChar(stem, '/')
    requires ProperExt(ext)
    ensures Dir(d + (stem + ext)) == d
    ensures Suffix(d + (stem + ext)) == ext
    ensures Stem(d + (stem + ext)) == stem
  {
    var n := stem + ext;
    NoCharConcat(stem, ext, '/');
    JoinSplits(d, n);
    LastDotStartsExt(stem, ext);
    assert n[|stem|..] == ext && n[..|stem|] == stem;
  }
}
