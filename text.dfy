// C-string primitives the facade relies on, over Dafny strings: path separators,
// strstr, std::string::find_last_of and strcasecmp.
// C strings end at their first NUL; the strings modelled here contain none.
module Text {
  import opened Wrappers

  /** The two path separators the facade recognises, '/' and '\\'. */
  predicate IsSeparator(c: char)
  {
    c == '/' || c == '\\'
  }

  /** Position of the last path separator of `s`, scanning from the end. */
  function LastSeparator(s: string): (r: Option<nat>)
    ensures r.Some? ==> r.value < |s| && IsSeparator(s[r.value])
    ensures r.Some? ==> forall j :: r.value < j < |s| ==> !IsSeparator(s[j])
    ensures r.None? ==> forall j :: 0 <= j < |s| ==> !IsSeparator(s[j])
  {
    if s == [] then None
    else if IsSeparator(s[|s| - 1]) then Some(|s| - 1)
    else LastSeparator(s[..|s| - 1])
  }

  /** The last component of a path: what follows its last separator, or all of it. */
  function FileNameOf(path: string): string
  {
    match LastSeparator(path)
    case Some(i) => path[i + 1..]
    case None => path
  }

  /** A file name is a suffix of its path that holds no separator and is as long as can be. */
  lemma FileNameOfIsLastComponent(path: string)
    ensures var name := FileNameOf(path);
      |name| <= |path| && path[|path| - |name|..] == name
      && (forall j :: 0 <= j < |name| ==> !IsSeparator(name[j]))
      && (|name| < |path| ==> IsSeparator(path[|path| - |name| - 1]))
  {
    var name := FileNameOf(path);
    match LastSeparator(path)
    case Some(i) =>
      assert name == path[i + 1..];
      assert forall j :: 0 <= j < |name| ==> name[j] == path[i + 1 + j];
    case None =>
  }

  /** `pat` occurs in `s` starting at `i`. */
  predicate OccursAt(s: string, pat: string, i: nat)
  {
    i + |pat| <= |s| && s[i..i + |pat|] == pat
  }

  /** The first position at or after `from` at which `pat` occurs in `s`. */
  function FindFrom(s: string, pat: string, from: nat): (r: Option<nat>)
    ensures r.Some? ==> from <= r.value && OccursAt(s, pat, r.value)
    ensures r.Some? ==> forall j :: from <= j < r.value ==> !OccursAt(s, pat, j)
    ensures r.None? ==> forall j :: from <= j ==> !OccursAt(s, pat, j)
    decreases |s| - from
  {
    if from + |pat| > |s| then None
    else if s[from..from + |pat|] == pat then Some(from)
    else FindFrom(s, pat, from + 1)
  }

  /** A search from `from` finds the first occurrence at or after `from`. */
  lemma {:induction false} FindFromFirst(s: string, pat: string, from: nat, i: nat)
    requires from <= i && OccursAt(s, pat, i)
    requires forall j :: from <= j < i ==> !OccursAt(s, pat, j)
    ensures FindFrom(s, pat, from) == Some(i)
    decreases i - from
  {
    if from < i {
      FindFromFirst(s, pat, from + 1, i);
    }
  }

  /** strstr: the first position at which `pat` occurs in `s`; None stands for a NULL result. */
  function FindSubstring(s: string, pat: string): Option<nat>
  {
    FindFrom(s, pat, 0)
  }

  /** std::string::npos, the "not found" position of a 64-bit size_t. */
  const NPOS: int := 0xFFFF_FFFF_FFFF_FFFF

  /** std::string::find_last_of with a one-character set: the last index of `c`, or NPOS. */
  function FindLastOf(s: string, c: char): (r: int)
    requires |s| < NPOS
    ensures r == NPOS || (0 <= r < |s| && s[r] == c)
    ensures r == NPOS ==> forall j :: 0 <= j < |s| ==> s[j] != c
    ensures r != NPOS ==> forall j :: r < j < |s| ==> s[j] != c
  {
    if s == [] then NPOS
    else if s[|s| - 1] == c then |s| - 1
    else FindLastOf(s[..|s| - 1], c)
  }

  /** tolower of the C locale: only the ASCII capitals change. */
  function Lower(c: char): char
  {
    if 'A' <= c <= 'Z' then (c as int + 32) as char else c
  }

  /**
   * The sign of strcasecmp(a, b): the strings are compared character by character
   * after lowering, and a proper prefix comes first.
   */
  function CaseCompare(a: string, b: string): int
  {
    if a == [] && b == [] then 0
    else if a == [] then -1
    else if b == [] then 1
    else if Lower(a[0]) < Lower(b[0]) then -1
    else if Lower(b[0]) < Lower(a[0]) then 1
    else CaseCompare(a[1..], b[1..])
  }

  /** Swapping the arguments of strcasecmp flips the sign of its result. */
  lemma {:induction false} CaseCompareAntisymmetric(a: string, b: string)
    ensures -1 <= CaseCompare(a, b) <= 1
    ensures CaseCompare(b, a) == -CaseCompare(a, b)
  {
    if a != [] && b != [] && Lower(a[0]) == Lower(b[0]) {
      CaseCompareAntisymmetric(a[1..], b[1..]);
    }
  }

  /** "Not after" under strcasecmp is transitive. */
  lemma {:induction false} CaseCompareTransitive(a: string, b: string, c: string)
    requires CaseCompare(a, b) <= 0 && CaseCompare(b, c) <= 0
    ensures CaseCompare(a, c) <= 0
  {
    if a != [] && b != [] && c != []
       && Lower(a[0]) == Lower(b[0]) && Lower(b[0]) == Lower(c[0]) {
      CaseCompareTransitive(a[1..], b[1..], c[1..]);
    }
  }

  /** strcasecmp reports equality exactly for strings equal up to ASCII case. */
  lemma {:induction false} CaseCompareZero(a: string, b: string)
    ensures CaseCompare(a, b) == 0 <==>
      |a| == |b| && forall j :: 0 <= j < |a| ==> Lower(a[j]) == Lower(b[j])
  {
    if a != [] && b != [] && Lower(a[0]) == Lower(b[0]) {
      CaseCompareZero(a[1..], b[1..]);
      if |a| == |b| && (forall j :: 0 <= j < |a[1..]| ==> Lower(a[1..][j]) == Lower(b[1..][j])) {
        forall j | 0 <= j < |a| ensures Lower(a[j]) == Lower(b[j]) {
          if j > 0 { assert a[j] == a[1..][j - 1] && b[j] == b[1..][j - 1]; }
        }
      }
    } else if a != [] && b != [] {
      assert Lower(a[0]) != Lower(b[0]);
    }
  }
}
