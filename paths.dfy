/** Paths as pathlib sees them: a path is the sequence of its names, and a
    Store path is normalised by `Path(path).with_suffix(cls.ext)`, which
    rewrites the suffix of the last name only. */
module Paths {

  type Name = string
  type Path = seq<Name>

  /** `Store.ext`, `Meta.ext` and `DataTable.ext`. */
  const FolderExt: string := ""
  const MetaExt: string := ".json"
  const TableExt: string := ".csv"

  /** A name pathlib can hold as one path component. */
  predicate ValidName(n: Name) {
    n != "" && '/' !in n
  }

  predicate ValidPath(p: Path) {
    |p| > 0 && forall i | 0 <= i < |p| :: ValidName(p[i])
  }

  /** An extension made of exactly one suffix, such as ".json" or ".csv". */
  predicate SingleSuffix(ext: string) {
    |ext| >= 2 && ext[0] == '.' && DotFreeFrom(ext, 1) && '/' !in ext
  }

  /** No '.' at index `k` of `s` or after it. */
  predicate DotFreeFrom(s: string, k: int) {
    forall j | 0 <= j < |s| && k <= j :: s[j] != '.'
  }

  /** The index of the last '.' of `name`, or -1 (Python's `str.rfind('.')`). */
  function RFindDot(name: string): (i: int)
    ensures -1 <= i < |name|
  {
    if name == [] then -1
    else if name[|name| - 1] == '.' then |name| - 1
    else RFindDot(name[..|name| - 1])
  }

  /** `PurePath.suffix`: from the last dot, unless that dot is the first or
      the last character of the name. */
  function Suffix(name: Name): (s: string)
    ensures |s| <= |name|
  {
    var i := RFindDot(name);
    if 0 < i < |name| - 1 then name[i..] else ""
  }

  /** The name without its suffix. */
  function Stem(name: Name): (r: Name)
    ensures |r| <= |name|
  {
    name[..|name| - |Suffix(name)|]
  }

  /** `rfind` finds a dot, and there is none after it. */
  lemma {:induction false} RFindDotLast(name: string)
    ensures var i := RFindDot(name);
      (i >= 0 ==> name[i] == '.') && DotFreeFrom(name, i + 1)
    decreases |name|
  {
    if name != [] && name[|name| - 1] != '.' {
      var init := name[..|name| - 1];
      RFindDotLast(init);
    }
  }

  /** The suffix is empty or a dot followed by a dot-free tail, it is never
      the whole name, and the stem and the suffix make up the name. */
  lemma SuffixShape(name: Name)
    ensures var s := Suffix(name);
      && (s == "" || (|s| >= 2 && s[0] == '.' && DotFreeFrom(s, 1)))
      && (|s| < |name| || s == "")
      && Stem(name) + s == name
      && (name != "" ==> Stem(name) != "")
  {
    RFindDotLast(name);
    var i := RFindDot(name);
    if 0 < i < |name| - 1 {
      var s := name[i..];
      forall j | 0 <= j < |s| && 1 <= j ensures s[j] != '.' {
        assert s[j] == name[i + j];
      }
    }
    assert name[..|name| - |Suffix(name)|] + name[|name| - |Suffix(name)|..] == name;
  }

  /** `PurePath.with_suffix(ext)` on the last name. */
  function WithSuffix(name: Name, ext: string): Name {
    Stem(name) + ext
  }

  /** `Path(path).with_suffix(ext)`: the same parent, the last name re-suffixed. */
  function Normalize(p: Path, ext: string): (r: Path)
    requires |p| > 0
    ensures |r| == |p|
  {
    p[|p| - 1 := WithSuffix(p[|p| - 1], ext)]
  }

  function Parent(p: Path): Path
    requires |p| > 0
  {
    p[..|p| - 1]
  }

  /** A dot after the last dot of `a` cannot come from a dot-free tail. */
  lemma {:induction false} RFindDotDotFree(a: string, b: string)
    requires DotFreeFrom(b, 0)
    ensures RFindDot(a + b) == RFindDot(a)
    decreases |b|
  {
    if b != [] {
      var ab := a + b;
      assert ab[..|ab| - 1] == a + b[..|b| - 1];
      assert ab[|ab| - 1] == b[|b| - 1] && b[|b| - 1] != '.';
      assert RFindDot(ab) == RFindDot(a + b[..|b| - 1]);
      RFindDotDotFree(a, b[..|b| - 1]);
    } else {
      assert a + b == a;
    }
  }

  /** Re-suffixing a name with a single-suffix extension leaves exactly that
      suffix on it, and keeps its stem. */
  lemma WithSuffixHasSuffix(name: Name, ext: string)
    requires ValidName(name) && SingleSuffix(ext)
    ensures Suffix(WithSuffix(name, ext)) == ext
    ensures Stem(WithSuffix(name, ext)) == Stem(name)
    ensures ValidName(WithSuffix(name, ext))
  {
    var stem := Stem(name);
    var r := stem + ext;
    assert r == (stem + ".") + ext[1..];
    RFindDotDotFree(stem + ".", ext[1..]);
    assert (stem + ".")[|stem|] == '.';
    assert RFindDot(r) == |stem|;
    assert r[|stem|..] == ext;
  }

  /** Normalising to a file extension twice is normalising once, and the
      result carries exactly that extension. */
  lemma NormalizeIdempotent(p: Path, ext: string)
    requires ValidPath(p) && SingleSuffix(ext)
    ensures Normalize(Normalize(p, ext), ext) == Normalize(p, ext)
    ensures Suffix(Normalize(p, ext)[|p| - 1]) == ext
    ensures ValidPath(Normalize(p, ext))
  {
    var last := p[|p| - 1];
    WithSuffixHasSuffix(last, ext);
    var q := Normalize(p, ext);
    assert q[|p| - 1] == WithSuffix(last, ext);
    assert WithSuffix(q[|p| - 1], ext) == Stem(last) + ext;
  }

  /** A folder path (extension "") is left alone exactly when its last name
      has no suffix; otherwise the suffix is stripped. */
  lemma FolderNormalizeFixes(p: Path)
    requires ValidPath(p)
    ensures Normalize(p, FolderExt) == p <==> Suffix(p[|p| - 1]) == ""
  {
    var last := p[|p| - 1];
    if Suffix(last) != "" {
      assert |WithSuffix(last, FolderExt)| < |last|;
      assert Normalize(p, FolderExt)[|p| - 1] != last;
    } else {
      assert WithSuffix(last, FolderExt) == last;
      assert p[..|p| - 1] + [last] == p;
    }
  }

  /** For folders, normalising is not idempotent: "a.b.c" becomes "a.b",
      which becomes "a". */
  lemma FolderNormalizeNotIdempotent()
    ensures Normalize(["a.b.c"], FolderExt) == ["a.b"]
    ensures Normalize(["a.b"], FolderExt) == ["a"]
  {
    assert RFindDot("a.b.c") == 3 by {
      assert "a.b.c"[4] == 'c';
      assert "a.b.c"[..4] == "a.b.";
      assert "a.b."[3] == '.';
    }
    assert RFindDot("a.b") == 1 by {
      assert "a.b"[2] == 'b';
      assert "a.b"[..2] == "a.";
      assert "a."[1] == '.';
    }
    assert Suffix("a.b.c") == ".c" && Stem("a.b.c") == "a.b" by {
      assert "a.b.c"[3..] == ".c";
      assert "a.b.c"[..3] == "a.b";
    }
    assert Suffix("a.b") == ".b" && Stem("a.b") == "a" by {
      assert "a.b"[1..] == ".b";
      assert "a.b"[..1] == "a";
    }
    assert WithSuffix("a.b.c", FolderExt) == "a.b";
    assert WithSuffix("a.b", FolderExt) == "a";
  }

  /** A dot-free name (every table name) simply gets the extension appended. */
  lemma PlainNameWithSuffix(name: Name, ext: string)
    requires DotFreeFrom(name, 0)
    ensures WithSuffix(name, ext) == name + ext
    ensures Suffix(name) == ""
  {
    RFindDotLast(name);
    assert RFindDot(name) == -1;
  }
}
