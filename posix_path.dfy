/** The part of Python's `os.path` that the merge page relies on, for POSIX
    paths: `splitext`, which splits a path into a root and an extension, and
    the page's rule for which output extensions it accepts. */
module PosixPath {

  const Sep: char := '/'
  const ExtSep: char := '.'

  /** The index of the last occurrence of `c` in `s`, or -1 when `c` does not
      occur (Python's `str.rfind`); RFindSpec states what it finds. */
  function RFind(s: string, c: char): (r: int)
    ensures -1 <= r < |s|
  {
    LastBefore(s, c, |s|)
  }

  /** The index of the last occurrence of `c` among the first `n` characters
      of `s`, scanning down from `n - 1`, or -1. */
  function LastBefore(s: string, c: char, n: nat): (r: int)
    requires n <= |s|
    ensures -1 <= r < n
  {
    if n == 0 then -1
    else if s[n - 1] == c then n - 1
    else LastBefore(s, c, n - 1)
  }

  /** The scan stops at an occurrence of `c` and skips none. */
  lemma {:induction false} LastBeforeSpec(s: string, c: char, n: nat)
    requires n <= |s|
    ensures var r := LastBefore(s, c, n);
      (r >= 0 ==> s[r] == c) && forall j :: r < j < n ==> s[j] != c
  {
    if n > 0 && s[n - 1] != c {
      LastBeforeSpec(s, c, n - 1);
    }
  }

  /** RFind finds an occurrence of `c` (if any) with none after it. */
  lemma RFindSpec(s: string, c: char)
    ensures var r := RFind(s, c);
      (r >= 0 ==> s[r] == c) && forall j :: r < j < |s| ==> s[j] != c
  {
    LastBeforeSpec(s, c, |s|);
  }

  /** True when every character of `s` is a dot (vacuously so for ""). */
  predicate AllDots(s: string) {
    forall i :: 0 <= i < |s| ==> s[i] == ExtSep
  }

  /** The last component of `p`: everything after its last separator. */
  function Basename(p: string): (b: string)
    ensures |b| <= |p| && b == p[|p| - |b|..]
  {
    p[RFind(p, Sep) + 1..]
  }

  /** The last component holds no separator. */
  lemma BasenameNoSep(p: string)
    ensures forall k :: 0 <= k < |Basename(p)| ==> Basename(p)[k] != Sep
  {
    var r := RFind(p, Sep);
    RFindSpec(p, Sep);
    forall k | 0 <= k < |Basename(p)|
      ensures Basename(p)[k] != Sep
    {
      assert Basename(p)[k] == p[r + 1 + k];
    }
  }

  /** The last component starts right after the last separator, or at the
      start of a path that has none. */
  lemma BasenameAfterSep(p: string)
    ensures var b := Basename(p); |b| < |p| ==> p[|p| - |b| - 1] == Sep
  {
    RFindSpec(p, Sep);
  }

  datatype Split = Split(root: string, ext: string)

  /** `os.path.splitext(p)`: the extension is the text from the last dot of
      the last component on, unless everything before that dot in the
      component is a dot too (".odml", "..", "dir/.hidden" have no
      extension). */
  function SplitExt(p: string): (r: Split)
    ensures r.root + r.ext == p
  {
    var sepIndex := RFind(p, Sep);
    var dotIndex := RFind(p, ExtSep);
    if dotIndex > sepIndex && !AllDots(p[sepIndex + 1..dotIndex]) then
      assert p[..dotIndex] + p[dotIndex..] == p;
      Split(p[..dotIndex], p[dotIndex..])
    else
      Split(p, [])
  }

  /** From the last dot on, a path holds no separator when that dot is in
      the last component, and no further dot. */
  lemma ExtensionTail(p: string, sepIndex: int, dotIndex: int)
    requires sepIndex == RFind(p, Sep) && dotIndex == RFind(p, ExtSep)
    requires dotIndex > sepIndex
    ensures p[dotIndex] == ExtSep && Sep !in p[dotIndex..] && ExtSep !in p[dotIndex + 1..]
  {
    RFindSpec(p, Sep);
    RFindSpec(p, ExtSep);
    var ext := p[dotIndex..];
    assert forall k :: 0 <= k < |ext| ==> ext[k] == p[dotIndex + k];
    var tail := p[dotIndex + 1..];
    assert forall k :: 0 <= k < |tail| ==> tail[k] == p[dotIndex + 1 + k];
  }

  /** An extension is empty or a dot followed by characters that are neither
      dots nor separators. */
  lemma ExtShape(p: string)
    ensures var e := Ext(p);
      e == [] || (e[0] == ExtSep && Sep !in e && ExtSep !in e[1..])
  {
    var sepIndex := RFind(p, Sep);
    var dotIndex := RFind(p, ExtSep);
    if Ext(p) != [] {
      ExtNonEmpty(p);
      ExtensionTail(p, sepIndex, dotIndex);
    }
  }

  function Ext(p: string): string {
    SplitExt(p).ext
  }

  /** The merge page's output check: the extension must be the expected one
      or absent. */
  predicate ExtensionAccepted(p: string, expected: string) {
    Ext(p) == expected || Ext(p) == []
  }

  /** RFind is determined by its contract. */
  lemma RFindUnique(s: string, c: char, k: int)
    requires -1 <= k < |s|
    requires k >= 0 ==> s[k] == c
    requires forall j :: k < j < |s| ==> s[j] != c
    ensures RFind(s, c) == k
  {
    RFindSpec(s, c);
  }

  /** A path made of a directory part, a file stem and an extension splits
      back into exactly those: `dir + stem` is the root, `e` the extension.
      The stem must hold a character other than a dot, or the dot of `e`
      would count as a leading dot of a hidden file's name. */
  lemma {:induction false} SplitExtOfNamed(dir: string, stem: string, e: string)
    requires dir == [] || dir[|dir| - 1] == Sep
    requires Sep !in stem && !AllDots(stem)
    requires |e| >= 1 && e[0] == ExtSep && Sep !in e && ExtSep !in e[1..]
    ensures SplitExt(dir + stem + e) == Split(dir + stem, e)
  {
    var p := dir + stem + e;
    var q := |dir| + |stem|;
    assert p[q] == e[0];
    forall j | q < j < |p| ensures p[j] != ExtSep {
      assert p[j] == e[1..][j - q - 1];
    }
    RFindUnique(p, ExtSep, q);
    forall j | |dir| - 1 < j < |p| ensures p[j] != Sep {
      if j < q {
        assert p[j] == stem[j - |dir|];
      } else {
        assert p[j] == e[j - q];
      }
    }
    if dir != [] {
      assert p[|dir| - 1] == dir[|dir| - 1];
    }
    RFindUnique(p, Sep, |dir| - 1);
    assert p[|dir|..q] == stem;
    assert p[..q] == dir + stem;
    assert p[q..] == e;
  }

  /** A path whose last component has no dot has no extension. */
  lemma NoDotNoExt(p: string)
    requires ExtSep !in Basename(p)
    ensures Ext(p) == []
  {
    RFindSpec(p, ExtSep);
    var sepIndex := RFind(p, Sep);
    var b := Basename(p);
    assert forall k :: sepIndex < k < |p| ==> p[k] == b[k - sepIndex - 1];
    assert RFind(p, ExtSep) <= sepIndex;
  }

  /** For a named file, the page's check accepts exactly the expected
      extension. */
  lemma AcceptedNamed(dir: string, stem: string, e: string, expected: string)
    requires dir == [] || dir[|dir| - 1] == Sep
    requires Sep !in stem && !AllDots(stem)
    requires |e| >= 1 && e[0] == ExtSep && Sep !in e && ExtSep !in e[1..]
    ensures ExtensionAccepted(dir + stem + e, expected) <==> e == expected
  {
    SplitExtOfNamed(dir, stem, e);
  }

  /** The last component holds a dot that comes after some character other
      than a dot: an independent description of "has an extension". */
  predicate HasDottedName(p: string) {
    var b := Basename(p);
    exists i, j :: 0 <= i < j < |b| && b[i] != ExtSep && b[j] == ExtSep
  }

  /** `splitext` finds an extension exactly when the last component has a
      dot preceded by a character other than a dot. */
  lemma ExtIff(p: string)
    ensures Ext(p) != [] <==> HasDottedName(p)
  {
    if Ext(p) != [] {
      ExtHasDottedName(p);
    }
    if HasDottedName(p) {
      DottedNameHasExt(p);
      ExtNonEmpty(p);
    }
  }

  /** What `Ext(p) != []` means in terms of the two RFind indices. */
  lemma ExtNonEmpty(p: string)
    ensures Ext(p) != [] <==>
      RFind(p, ExtSep) > RFind(p, Sep) && !AllDots(p[RFind(p, Sep) + 1..RFind(p, ExtSep)])
  {
  }

  lemma ExtHasDottedName(p: string)
    requires Ext(p) != []
    ensures HasDottedName(p)
  {
    RFindSpec(p, ExtSep);
    var s := RFind(p, Sep);
    var d := RFind(p, ExtSep);
    var b := Basename(p);
    ExtNonEmpty(p);
    var i :| 0 <= i < d - s - 1 && p[s + 1..d][i] != ExtSep;
    assert b[i] == p[s + 1 + i] && b[d - s - 1] == p[d];
  }

  lemma DottedNameHasExt(p: string)
    requires HasDottedName(p)
    ensures RFind(p, ExtSep) > RFind(p, Sep) && !AllDots(p[RFind(p, Sep) + 1..RFind(p, ExtSep)])
  {
    var s := RFind(p, Sep);
    var b := p[s + 1..];
    var i, j :| 0 <= i < j < |b| && b[i] != ExtSep && b[j] == ExtSep;
    assert p[s + 1 + j] == ExtSep;
    RFindAtLeast(p, ExtSep, s + 1 + j);
    var d := RFind(p, ExtSep);
    NotAllDots(p[s + 1..d], i);
  }

  lemma RFindAtLeast(s: string, c: char, k: nat)
    requires k < |s| && s[k] == c
    ensures RFind(s, c) >= k
  {
    RFindSpec(s, c);
  }

  lemma NotAllDots(m: string, i: nat)
    requires i < |m| && m[i] != ExtSep
    ensures !AllDots(m)
  {
  }

  /** An output name with the expected extension. */
  lemma OdmlNameExample()
    ensures Ext("out.odml") == ".odml"
  {
    assert "out"[0] != ExtSep;
    SplitExtOfNamed("", "out", ".odml");
    assert "" + "out" + ".odml" == "out.odml";
  }

  /** An output name with another extension, which the page refuses. */
  lemma CsvNameExample()
    ensures Ext("out.csv") == ".csv" && !ExtensionAccepted("out.csv", ".odml")
  {
    assert "out"[0] != ExtSep;
    SplitExtOfNamed("", "out", ".csv");
    assert "" + "out" + ".csv" == "out.csv";
  }

  /** A name without a dot has no extension. */
  lemma PlainNameExample()
    ensures Ext("out") == []
  {
    NoDotNoExt("out");
  }

  /** A dot in a directory name is not an extension. */
  lemma DottedDirectoryExample()
    ensures Ext("merged.d/out") == []
  {
    RFindUnique("merged.d/out", Sep, 8);
    assert Basename("merged.d/out") == "out";
    NoDotNoExt("merged.d/out");
  }

  /** A hidden file whose only dot leads its name has no extension. */
  lemma HiddenNameExample()
    ensures Ext(".odml") == []
  {
    RFindUnique(".odml", Sep, -1);
    RFindUnique(".odml", ExtSep, 0);
    ExtNonEmpty(".odml");
  }
}
