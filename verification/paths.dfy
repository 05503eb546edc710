/** POSIX `pathlib` as the tool uses it: absolute paths as component lists,
    `name`/`stem`/`suffix`/`with_suffix`/`relative_to`, the ordering `sorted`
    applies to paths, and a snapshot of the filesystem the operations read. */
module Paths {
  import opened Wrappers
  import opened Text

  /** An absolute path, one string per component below `/`. */
  datatype Path = Path(parts: seq<string>)

  const Root := Path([])

  /** `p / name`. */
  function Child(p: Path, name: string): (r: Path)
    ensures |r.parts| == |p.parts| + 1 && r.parts[..|p.parts|] == p.parts
  {
    Path(p.parts + [name])
  }

  /** `p.name`: the last component, empty for `/`. */
  function Name(p: Path): string {
    if |p.parts| == 0 then "" else p.parts[|p.parts| - 1]
  }

  /** `p.parent`; the parent of `/` is `/`. */
  function Parent(p: Path): Path {
    if |p.parts| == 0 then p else Path(p.parts[..|p.parts| - 1])
  }

  lemma ParentOfChild(p: Path, name: string)
    ensures Parent(Child(p, name)) == p && Name(Child(p, name)) == name
  {
    assert Child(p, name).parts[..|p.parts|] == p.parts;
  }

  /** Index of the dot that starts the suffix of a file name, if it has one:
      the last dot, provided it is neither the first nor the last character. */
  function SuffixDot(name: string): (r: Option<nat>)
    ensures r.Some? ==> 0 < r.value < |name| - 1 && name[r.value] == '.'
    ensures r.Some? ==> forall j :: r.value < j < |name| ==> name[j] != '.'
  {
    match LastIndexOf(name, '.')
    case Some(i) => if 0 < i < |name| - 1 then Some(i) else None
    case None => None
  }

  /** `PurePath.suffix` of a file name. */
  function Suffix(name: string): string {
    match SuffixDot(name)
    case Some(i) => name[i..]
    case None => ""
  }

  /** `PurePath.stem` of a file name. */
  function Stem(name: string): string {
    match SuffixDot(name)
    case Some(i) => name[..i]
    case None => name
  }

  /** A name is its stem followed by its suffix; a suffix is empty or a dot
      followed by at least one character and no further dot. */
  lemma StemSuffixSplit(name: string)
    ensures Stem(name) + Suffix(name) == name
    ensures Suffix(name) == "" || (|Suffix(name)| >= 2 && Suffix(name)[0] == '.')
    ensures forall j :: 0 < j < |Suffix(name)| ==> Suffix(name)[j] != '.'
    ensures Suffix(name) != "" ==> |Stem(name)| >= 1
  {
    match SuffixDot(name)
    case Some(i) =>
      assert name[..i] + name[i..] == name;
    case None =>
  }

  /** A suffix `with_suffix` accepts and that has no dot after its first
      character (as `.txt`, `.srt`, `.vtt`, `.json`, `.mp4`). */
  predicate PlainSuffix(ext: string) {
    |ext| >= 2 && ext[0] == '.' && '/' !in ext && forall j :: 0 < j < |ext| ==> ext[j] != '.'
  }

  /** A non-empty stem followed by a plain suffix splits back into the two. */
  lemma SplitName(stem: string, ext: string)
    requires stem != "" && PlainSuffix(ext)
    ensures Stem(stem + ext) == stem && Suffix(stem + ext) == ext
  {
    var n := stem + ext;
    assert n[|stem|] == '.';
    forall j | |stem| < j < |n| ensures n[j] != '.' {
      assert n[j] == ext[j - |stem|];
    }
    match LastIndexOf(n, '.')
    case Some(i) =>
      assert i == |stem|;
      assert n[..|stem|] == stem && n[|stem|..] == ext;
    case None =>
      assert false;
  }

  /** The `repr` of a relative path, as `ValueError` messages show it. */
  function RelativeRepr(parts: seq<string>): string {
    "PosixPath('" + (if |parts| == 0 then "." else Join(parts)) + "')"
  }

  /** Components joined by `/`. */
  function Join(parts: seq<string>): string {
    if |parts| == 0 then "" else if |parts| == 1 then parts[0] else parts[0] + "/" + Join(parts[1..])
  }

  /** `str(p)` for an absolute path. */
  function PathString(p: Path): string {
    "/" + Join(p.parts)
  }

  /** `PurePath.with_suffix(suffix)` on a relative path given by its
      components: the suffix must hold no `/`, must be empty or start with a
      dot and not be a lone dot, and the path must have a non-empty name. */
  function WithSuffix(parts: seq<string>, suffix: string): (r: Result<seq<string>, string>)
    ensures r.Success? <==>
      '/' !in suffix && (suffix == "" || (suffix[0] == '.' && suffix != ".")) && |parts| > 0 && parts[|parts| - 1] != ""
    ensures r.Success? ==> |r.value| == |parts| && r.value[..|parts| - 1] == parts[..|parts| - 1]
    ensures r.Success? ==> r.value[|parts| - 1] == Stem(parts[|parts| - 1]) + suffix
  {
    if '/' in suffix || (suffix != "" && (suffix[0] != '.' || suffix == ".")) then
      Failure("Invalid suffix '" + suffix + "'")
    else if |parts| == 0 || parts[|parts| - 1] == "" then
      Failure(RelativeRepr(parts) + " has an empty name")
    else
      Success(parts[..|parts| - 1] + [Stem(parts[|parts| - 1]) + suffix])
  }

  /** `p.relative_to(base)`: the components of `p` below `base`, or `None`
      where Python raises `ValueError`. */
  function RelativeTo(p: Path, base: Path): (r: Option<seq<string>>)
    ensures r.Some? <==> (|base.parts| <= |p.parts| && p.parts[..|base.parts|] == base.parts)
    ensures r.Some? ==> base.parts + r.value == p.parts
  {
    if |base.parts| <= |p.parts| && p.parts[..|base.parts|] == base.parts then
      assert base.parts + p.parts[|base.parts|..] == p.parts;
      Some(p.parts[|base.parts|..])
    else
      None
  }

  /** `p` lies strictly below `dir`. */
  predicate Below(p: Path, dir: Path) {
    |dir.parts| < |p.parts| && p.parts[..|dir.parts|] == dir.parts
  }

  // ---------------------------------------------------------------- filesystem snapshot

  datatype Kind = RegularFile | Directory

  /** What `stat()` reports about an entry: its kind, `st_size` and `st_mtime`. */
  datatype Node = Node(kind: Kind, size: nat, mtime: real)

  /** The entries that exist; every other path does not exist. */
  type FileSystem = map<Path, Node>

  predicate IsFile(fs: FileSystem, p: Path) {
    p in fs && fs[p].kind == RegularFile
  }

  predicate IsDir(fs: FileSystem, p: Path) {
    p in fs && fs[p].kind == Directory
  }

  /** What `dir.glob("*")` yields: the direct entries of `dir`. */
  function Children(fs: FileSystem, dir: Path): (r: set<Path>)
    ensures forall p :: p in r <==> p in fs && Below(p, dir) && |p.parts| == |dir.parts| + 1
  {
    set p | p in fs.Keys && Below(p, dir) && |p.parts| == |dir.parts| + 1
  }

  // What `dir.glob("**/*")` yields: every entry below `dir`, at any depth.
  function Descendants(fs: FileSystem, dir: Path): (r: set<Path>)
    ensures forall p :: p in r <==> p in fs && Below(p, dir)
    ensures Children(fs, dir) <= r
  {
    set p | p in fs.Keys && Below(p, dir)
  }

  /** `Path.mkdir(parents=True, exist_ok=True)`: creates every missing
      directory on the way to `d`; fails if any of them exists as a file. */
  function MakeDirs(fs: FileSystem, d: Path): (r: Option<FileSystem>)
    ensures r.Some? <==> forall i :: 0 < i <= |d.parts| ==> !IsFile(fs, Path(d.parts[..i]))
    ensures r.Some? ==> IsDir(r.value, d) || d == Root
    ensures r.Some? ==> forall p :: p in fs ==> p in r.value && r.value[p] == fs[p]
    ensures r.Some? ==> forall p :: p in r.value && p !in fs ==> Below(d, p) || p == d
  {
    if exists i :: 0 < i <= |d.parts| && IsFile(fs, Path(d.parts[..i])) then None
    else
      var missing := set i | 0 < i <= |d.parts| && Path(d.parts[..i]) !in fs :: Path(d.parts[..i]);
      var added := map q | q in missing :: Node(Directory, 0, 0.0);
      var r := fs + added;
      assert |d.parts| > 0 ==> d == Path(d.parts[..|d.parts|]);
      Some(r)
  }

  // ---------------------------------------------------------------- ordering

  /** Python's `<` on lists of strings: lexicographic, a proper prefix first. */
  predicate PartsLess(a: seq<string>, b: seq<string>) {
    if |a| == 0 then |b| > 0
    else if |b| == 0 then false
    else if a[0] != b[0] then StrLess(a[0], b[0])
    else PartsLess(a[1..], b[1..])
  }

  /** The order `sorted()` puts POSIX paths in: by their component lists. */
  predicate PathLess(a: Path, b: Path) {
    PartsLess(a.parts, b.parts)
  }

  lemma {:induction false} PartsLessIrreflexive(a: seq<string>)
    ensures !PartsLess(a, a)
    decreases |a|
  {
    if |a| > 0 {
      PartsLessIrreflexive(a[1..]);
    }
  }

  lemma {:induction false} PartsLessTransitive(a: seq<string>, b: seq<string>, c: seq<string>)
    requires PartsLess(a, b) && PartsLess(b, c)
    ensures PartsLess(a, c)
    decreases |a|
  {
    if |a| > 0 && |b| > 0 && |c| > 0 {
      if a[0] == b[0] && b[0] == c[0] {
        PartsLessTransitive(a[1..], b[1..], c[1..]);
      } else if a[0] != b[0] && b[0] != c[0] {
        StrLessTransitive(a[0], b[0], c[0]);
        if a[0] == c[0] {
          StrLessIrreflexive(a[0]);
        }
      }
    }
  }

  lemma {:induction false} PartsLessTotal(a: seq<string>, b: seq<string>)
    requires a != b
    ensures PartsLess(a, b) || PartsLess(b, a)
    decreases |a|
  {
    if |a| > 0 && |b| > 0 {
      if a[0] == b[0] {
        assert a == [a[0]] + a[1..] && b == [b[0]] + b[1..];
        PartsLessTotal(a[1..], b[1..]);
      } else {
        StrLessTotal(a[0], b[0]);
      }
    }
  }

  /** `PathLess` is a strict total order. */
  lemma PathLessOrder(a: Path, b: Path, c: Path)
    ensures !PathLess(a, a)
    ensures PathLess(a, b) && PathLess(b, c) ==> PathLess(a, c)
    ensures a != b ==> PathLess(a, b) || PathLess(b, a)
  {
    PartsLessIrreflexive(a.parts);
    if PathLess(a, b) && PathLess(b, c) {
      PartsLessTransitive(a.parts, b.parts, c.parts);
    }
    if a != b {
      PartsLessTotal(a.parts, b.parts);
    }
  }

  /** The paths a sequence holds. */
  function Elems(s: seq<Path>): (r: set<Path>)
    ensures forall y :: y in r <==> y in s
  {
    set y | y in s
  }

  predicate StrictlySorted(s: seq<Path>) {
    forall i, j :: 0 <= i < j < |s| ==> PathLess(s[i], s[j])
  }

  /** Inserts `x` at its place in a strictly sorted sequence that lacks it. */
  function Insert(s: seq<Path>, x: Path): (r: seq<Path>)
    requires StrictlySorted(s) && x !in s
    ensures StrictlySorted(r)
    ensures |r| == |s| + 1 && Elems(r) == Elems(s) + {x}
  {
    if |s| == 0 then
      [x]
    else if PathLess(x, s[0]) then
      forall j | 0 < j < |s| + 1 ensures PathLess(x, ([x] + s)[j]) {
        PathLessOrder(x, s[0], s[j - 1]);
      }
      [x] + s
    else
      PathLessOrder(s[0], x, x);
      var t := Insert(s[1..], x);
      assert Elems(s) == {s[0]} + Elems(s[1..]);
      forall j | 0 <= j < |t| ensures PathLess(s[0], t[j]) {
        assert t[j] in Elems(t);
        if t[j] != x {
          var k :| 0 <= k < |s[1..]| && s[1..][k] == t[j];
          assert s[k + 1] == t[j];
        }
      }
      [s[0]] + t
  }

  /** Every finite set of paths can be listed in strictly ascending order. */
  lemma {:induction false} SortedExists(ps: set<Path>)
    ensures exists r :: StrictlySorted(r) && Elems(r) == ps
    decreases |ps|
  {
    if ps == {} {
      assert StrictlySorted([]) && Elems([]) == ps;
    } else {
      var x :| x in ps;
      SortedExists(ps - {x});
      var t :| StrictlySorted(t) && Elems(t) == ps - {x};
      assert StrictlySorted(Insert(t, x)) && Elems(Insert(t, x)) == ps;
    }
  }

  /** The order `sorted` gives `ps`, for use in specifications: by
      `SortedUnique` there is only one strictly ascending listing. */
  ghost function SortedOf(ps: set<Path>): (r: seq<Path>)
    ensures StrictlySorted(r) && Elems(r) == ps
  {
    SortedExists(ps);
    var r :| StrictlySorted(r) && Elems(r) == ps; r
  }

  /** `sorted(paths)`: the paths of `ps` in ascending order, each once. */
  method SortPaths(ps: set<Path>) returns (r: seq<Path>)
    ensures StrictlySorted(r)
    ensures Elems(r) == ps
    ensures |r| == |ps|
    ensures r == SortedOf(ps)
  {
    r := [];
    var rest := ps;
    while rest != {}
      invariant StrictlySorted(r)
      invariant rest <= ps
      invariant Elems(r) == ps - rest
      invariant |r| + |rest| == |ps|
      decreases |rest|
    {
      var x :| x in rest;
      r := Insert(r, x);
      rest := rest - {x};
    }
    SortedUnique(r, SortedOf(ps));
  }

  /** A strictly sorted sequence is determined by its elements, so the
      order `sorted` produces is the only one satisfying `StrictlySorted`. */
  lemma {:induction false} SortedUnique(a: seq<Path>, b: seq<Path>)
    requires StrictlySorted(a) && StrictlySorted(b)
    requires Elems(a) == Elems(b)
    ensures a == b
    decreases |a|
  {
    assert |a| > 0 ==> a[0] in Elems(b);
    assert |b| > 0 ==> b[0] in Elems(a);
    if |a| > 0 && |b| > 0 {
      SortedHead(a, b[0]);
      SortedHead(b, a[0]);
      PathLessOrder(a[0], b[0], a[0]);
      SortedTail(a);
      SortedTail(b);
      SortedUnique(a[1..], b[1..]);
      assert a == [a[0]] + a[1..] && b == [b[0]] + b[1..];
    }
  }

  /** The first path of a strictly sorted sequence precedes all others. */
  lemma SortedHead(s: seq<Path>, x: Path)
    requires StrictlySorted(s) && x in s
    ensures s[0] == x || PathLess(s[0], x)
  {
    var k :| 0 <= k < |s| && s[k] == x;
    assert k > 0 ==> PathLess(s[0], s[k]);
  }

  /** The tail of a strictly sorted sequence holds all but its first path. */
  lemma SortedTail(s: seq<Path>)
    requires StrictlySorted(s) && |s| > 0
    ensures StrictlySorted(s[1..])
    ensures Elems(s[1..]) == Elems(s) - {s[0]}
  {
    PathLessOrder(s[0], s[0], s[0]);
    forall k | 0 <= k < |s| - 1 ensures s[1..][k] != s[0] {
      assert s[1..][k] == s[k + 1] && PathLess(s[0], s[k + 1]);
    }
    assert s == [s[0]] + s[1..];
  }

}
