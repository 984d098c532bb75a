/**
 * The POSIX `os.path` functions the pipeline uses to name its output
 * (ProcessingSHP.py:367-369): `dirname`, `basename`, `splitext` and `join`,
 * and the output path `<dir>/<stem>_final.csv` built from them.
 */
module Paths {

  /** `s.rfind(c)`: the position of the last `c` in `s`, or -1. */
  function RFind(s: string, c: char): (i: int)
    ensures -1 <= i < |s|
    ensures i >= 0 ==> s[i] == c
  {
    if s == [] then -1
    else if s[|s| - 1] == c then |s| - 1
    else RFind(s[..|s| - 1], c)
  }

  /** No `c` comes after the one `RFind` finds. */
  lemma {:induction false} RFindIsLast(s: string, c: char)
    ensures forall j :: RFind(s, c) < j < |s| ==> s[j] != c
  {
    if s != [] && s[|s| - 1] != c {
      RFindIsLast(s[..|s| - 1], c);
    }
  }

  predicate AllSlashes(s: string)
  {
    forall i :: 0 <= i < |s| ==> s[i] == '/'
  }

  /** `s.rstrip('/')` */
  function RStripSlashes(s: string): (r: string)
    ensures r <= s && AllSlashes(s[|r|..])
    ensures r == [] || r[|r| - 1] != '/'
  {
    if s == [] || s[|s| - 1] != '/' then s
    else
      var r := RStripSlashes(s[..|s| - 1]);
      assert s[|r|..] == s[..|s| - 1][|r|..] + ['/'];
      r
  }

  /** `os.path.basename(p)`: everything after the last slash. */
  function Basename(p: string): (b: string)
    ensures '/' !in b
    ensures |b| <= |p| && b == p[|p| - |b|..]
  {
    RFindIsLast(p, '/');
    p[RFind(p, '/') + 1..]
  }

  /**
   * `os.path.dirname(p)`: everything up to the last slash, with trailing
   * slashes removed unless it consists of slashes only.
   */
  function Dirname(p: string): string
  {
    var head := p[..RFind(p, '/') + 1];
    if head != [] && !AllSlashes(head) then RStripSlashes(head) else head
  }

  /**
   * `os.path.splitext(p)`: the root and the extension. The split is at the
   * last dot of the last path component, unless only dots come before it in
   * that component (".profile" has no extension).
   */
  function SplitExt(p: string): (parts: (string, string))
    ensures parts.0 + parts.1 == p
    ensures parts.1 == [] || (parts.1[0] == '.' && '/' !in parts.1 && '.' !in parts.1[1..])
    ensures parts.1 != [] ==> |parts.0| == RFind(p, '.')
    ensures parts.1 != [] <==>
      RFind(p, '.') > RFind(p, '/') && exists i :: RFind(p, '/') < i < RFind(p, '.') && p[i] != '.'
  {
    var sepIndex := RFind(p, '/');
    var dotIndex := RFind(p, '.');
    if dotIndex > sepIndex && exists i :: sepIndex + 1 <= i < dotIndex && p[i] != '.' then
      RFindIsLast(p, '/');
      RFindIsLast(p, '.');
      assert p[..dotIndex] + p[dotIndex..] == p;
      (p[..dotIndex], p[dotIndex..])
    else
      (p, [])
  }

  /** `os.path.join(a, b)` */
  function JoinPath(a: string, b: string): string
  {
    if b != [] && b[0] == '/' then b
    else if a == [] || a[|a| - 1] == '/' then a + b
    else a + "/" + b
  }

  /** `os.path.splitext(os.path.basename(p))[0]`: the file name without its extension. */
  function Stem(p: string): string
  {
    SplitExt(Basename(p)).0
  }

  /** The CSV the pipeline writes beside its input. */
  function CsvPath(p: string): string
  {
    JoinPath(Dirname(p), Stem(p) + "_final.csv")
  }

  // ---------------------------------------------------------------------------

  /** The stem is the start of the file name, so it holds no slash. */
  lemma StemIsSlashFree(p: string)
    ensures Stem(p) <= Basename(p) && '/' !in Stem(p)
  {
    var b := Basename(p);
    assert Stem(p) + SplitExt(b).1 == b;
  }

  /** A directory joined with a slash-free name: the name is the basename of the result. */
  lemma BasenameOfJoin(dir: string, name: string)
    requires name != [] && '/' !in name
    ensures Basename(JoinPath(dir, name)) == name
  {
    var j := JoinPath(dir, name);
    var k := RFind(j, '/');
    assert j[|j| - |name|..] == name;
    if dir != [] && dir[|dir| - 1] != '/' {
      assert j[|dir|] == '/';
    } else if dir != [] {
      assert j[|dir| - 1] == '/';
    }
  }

  /** Appending text without `c` does not move the last `c`. */
  lemma {:induction false} RFindSkips(x: string, y: string, c: char)
    requires c !in y
    ensures RFind(x + y, c) == RFind(x, c)
    decreases |y|
  {
    if y != [] {
      var n := |y| - 1;
      assert (x + y)[..|x + y| - 1] == x + y[..n];
      assert (x + y)[|x + y| - 1] == y[n] != c;
      RFindSkips(x, y[..n], c);
    } else {
      assert x + y == x;
    }
  }

  /** ... and `dirname` of the result gives back `dirname` of the original path. */
  lemma DirnameOfJoin(p: string, name: string)
    requires name != [] && '/' !in name
    ensures Dirname(JoinPath(Dirname(p), name)) == Dirname(p)
  {
    var d := Dirname(p);
    var head := p[..RFind(p, '/') + 1];
    var j := JoinPath(d, name);
    if d == [] {
      assert j == [] + name;
      RFindSkips([], name, '/');
    } else if d[|d| - 1] == '/' {
      // only a head of slashes keeps its trailing slash
      assert AllSlashes(head) && d == head;
      assert j == d + name;
      RFindSkips(d, name, '/');
      assert j[..|d|] == d;
    } else {
      var slashed := d + "/";
      assert j == slashed + name;
      RFindSkips(slashed, name, '/');
      assert j[..|slashed|] == slashed;
      assert !AllSlashes(slashed) by { assert slashed[|d| - 1] != '/'; }
      assert RStripSlashes(slashed) == RStripSlashes(d);
    }
  }

  /** The output lies in the input's directory and is named after its stem. */
  lemma CsvPathBesideInput(p: string)
    ensures Dirname(CsvPath(p)) == Dirname(p)
    ensures Basename(CsvPath(p)) == Stem(p) + "_final.csv"
  {
    StemIsSlashFree(p);
    var name := Stem(p) + "_final.csv";
    assert name[|Stem(p)|..] == "_final.csv";
    assert '/' !in name;
    BasenameOfJoin(Dirname(p), name);
    DirnameOfJoin(p, name);
  }

  /** The last `c` of `x + [c]` is its last character. */
  lemma RFindLast(x: string, c: char)
    ensures RFind(x + [c], c) == |x|
  {
  }

  /** The part of `dir/file` after the slash is `file`, and the part before it is `dir`. */
  lemma FileInDirectory(dir: string, file: string)
    requires dir != [] && dir[|dir| - 1] != '/' && '/' !in file
    ensures Basename(dir + "/" + file) == file
    ensures Dirname(dir + "/" + file) == dir
  {
    var p := dir + "/" + file;
    RFindLast(dir, '/');
    RFindSkips(dir + "/", file, '/');
    assert p[|dir| + 1..] == file;
    assert p[..|dir| + 1] == dir + "/";
    assert !AllSlashes(dir + "/") by { assert (dir + "/")[|dir| - 1] != '/'; }
    assert (dir + "/")[..|dir|] == dir;
  }

  /** `name.ext`, with a single dot, splits into `name` and `.ext`. */
  lemma SplitExtOfFile(name: string, ext: string)
    requires name != [] && '/' !in name && '.' !in name
    requires ext != [] && ext[0] == '.' && '/' !in ext && '.' !in ext[1..]
    ensures SplitExt(name + ext) == (name, ext)
  {
    var file := name + ext;
    assert RFind(file, '/') == -1 by {
      assert '/' !in file;
      RFindSkips([], file, '/');
      assert [] + file == file;
    }
    assert RFind(file, '.') == |name| by {
      assert file == (name + ".") + ext[1..];
      RFindLast(name, '.');
      RFindSkips(name + ".", ext[1..], '.');
    }
    assert 0 < |name| && file[0] != '.';
    assert file[..|name|] == name && file[|name|..] == ext;
  }

  /**
   * A file `name.ext` in a directory `dir` written without a trailing slash:
   * its stem is `name` and its CSV is `dir/name_final.csv`.
   */
  lemma ShapefileInDirectory(dir: string, name: string, ext: string)
    requires dir != [] && dir[|dir| - 1] != '/'
    requires name != [] && '/' !in name && '.' !in name
    requires ext != [] && ext[0] == '.' && '/' !in ext && '.' !in ext[1..]
    ensures Stem(dir + "/" + name + ext) == name
    ensures CsvPath(dir + "/" + name + ext) == dir + "/" + name + "_final.csv"
  {
    SlashFreeFile(name, ext);
    FileInDirectory(dir, name + ext);
    SplitExtOfFile(name, ext);
    JoinPlainName(dir, name, "_final.csv");
    assert dir + "/" + name + ext == dir + "/" + (name + ext);
  }

  /** A name and an extension without slashes make a file name without one. */
  lemma SlashFreeFile(name: string, ext: string)
    requires '/' !in name && '/' !in ext
    ensures '/' !in name + ext
  {
  }

  /** Joining a directory without a trailing slash and a name that does not start with one. */
  lemma JoinPlainName(dir: string, name: string, suffix: string)
    requires dir != [] && dir[|dir| - 1] != '/'
    requires name != [] && name[0] != '/'
    ensures JoinPath(dir, name + suffix) == dir + "/" + name + suffix
  {
    assert (name + suffix)[0] == name[0];
  }
}
