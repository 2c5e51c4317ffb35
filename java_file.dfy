/**
 * The path and metadata rules of `File_Impl`, the Linux implementation of the
 * engine's `java.io.File` look-alike.  Every system call is an input: the
 * resolver stands for `realpath`, the stat oracle for `stat`, the directory
 * oracle for `opendir`/`readdir`, and the home directory and executable link
 * are given as optional strings.  Host strings and UTF-8 strings are one type.
 */
module JavaFile {
  import opened Wrappers

  type Path = string

  /** `::realpath`: the canonical form of a path that resolves, None otherwise. */
  type Resolver = Path -> Option<Path>

  datatype FileType = Regular | Directory | OtherType

  /** The part of `struct stat` the class reads: type bits, size, modification time. */
  datatype StatRec = StatRec(kind: FileType, size: int, sec: int, nsec: int)

  /** `::stat`: Some(record) on success, None when the call fails. */
  type Stat = Path -> Option<StatRec>

  /** `opendir` + `readdir`: the names in iteration order, None when the directory cannot be opened. */
  type DirReader = Path -> Option<seq<string>>

  /** A file entry.  The constructor stores the resolved path as both `u8path` and `path`. */
  datatype File = File(path: Path)

  const PathSeparators: set<char> := {'/', '\\'}
  const ResourceSuffix: string := "/resource"

  /* ---------------------------------------------------------------- */
  /* Resolution and construction                                      */
  /* ---------------------------------------------------------------- */

  /** `ToPath`: the canonical form when the resolver succeeds, the input as-is when it fails. */
  function ToPath(resolve: Resolver, p: Path): (r: Path)
    ensures resolve(p).None? <==> r == p && resolve(p) != Some(p)
    ensures resolve(p).Some? ==> Some(r) == resolve(p)
  {
    match resolve(p)
    case Some(q) => q
    case None => p
  }

  /** `f` was opened at `p`: it carries the resolution of `p`, or `p` itself when resolution fails. */
  ghost predicate OpenedAt(resolve: Resolver, p: Path, f: File)
  {
    (resolve(p).Some? ==> Some(f.path) == resolve(p)) && (resolve(p).None? ==> f.path == p)
  }

  /** The `File_Impl` constructor, which is also `File::open(path)`. */
  function Open(resolve: Resolver, p: Path): (f: File)
    ensures OpenedAt(resolve, p, f)
  {
    File(ToPath(resolve, p))
  }

  /** A resolver that maps each path it resolves to a fixed point of itself, as `realpath` does. */
  ghost predicate Canonical(resolve: Resolver, p: Path)
  {
    resolve(p).Some? ==> resolve(resolve(p).value) == resolve(p)
  }

  /** Opening the path of an opened file again yields the same file. */
  lemma ReopenIsIdentity(resolve: Resolver, p: Path)
    requires Canonical(resolve, p)
    ensures Open(resolve, Open(resolve, p).path) == Open(resolve, p)
  {
  }

  /** `File::open(parent, child)`: the parent's path, one '/', the child. */
  function OpenChild(resolve: Resolver, parent: File, child: string): (f: File)
    ensures OpenedAt(resolve, parent.path + "/" + child, f)
  {
    Open(resolve, parent.path + "/" + child)
  }

  /* ---------------------------------------------------------------- */
  /* Separators and parents                                           */
  /* ---------------------------------------------------------------- */

  /** `find_last_of`: the index of the last character of `s` in `cs`. */
  function FindLastOf(s: string, cs: set<char>): (r: Option<nat>)
    ensures r.Some? ==> r.value < |s| && s[r.value] in cs
    ensures r.Some? ==> forall j :: r.value < j < |s| ==> s[j] !in cs
    ensures r.None? ==> forall j :: 0 <= j < |s| ==> s[j] !in cs
    decreases |s|
  {
    if |s| == 0 then None
    else if s[|s| - 1] in cs then Some(|s| - 1)
    else FindLastOf(s[..|s| - 1], cs)
  }

  /** The last separator of `s` sits at `k` when `s[k]` is one and nothing after it is. */
  lemma FindLastOfAt(s: string, cs: set<char>, k: nat)
    requires k < |s| && s[k] in cs
    requires forall j :: k < j < |s| ==> s[j] !in cs
    ensures FindLastOf(s, cs) == Some(k)
  {
  }

  /**
   * Appending a separator and a separator-free segment moves the last separator
   * to the join. The proof is direct, through `FindLastOfAt`; automatic
   * induction on the sequences would only slow it down.
   */
  lemma {:induction false} FindLastOfJoin(p: string, sep: char, c: string, cs: set<char>)
    requires sep in cs
    requires forall j :: 0 <= j < |c| ==> c[j] !in cs
    ensures FindLastOf(p + [sep] + c, cs) == Some(|p|)
  {
    var s := p + [sep] + c;
    forall j | |p| < j < |s|
      ensures s[j] !in cs
    {
      assert s[j] == c[j - |p| - 1];
    }
    FindLastOfAt(s, cs, |p|);
  }

  /** The path `getParentFile` opens: everything before the last '/' or '\\', or "" without one. */
  function ParentPath(p: Path): (q: Path)
    ensures FindLastOf(p, PathSeparators).Some? ==>
      |q| < |p| && q == p[..|q|] && p[|q|] in PathSeparators &&
      forall j :: |q| < j < |p| ==> p[j] !in PathSeparators
    ensures FindLastOf(p, PathSeparators).None? ==>
      q == "" && forall j :: 0 <= j < |p| ==> p[j] !in PathSeparators
  {
    match FindLastOf(p, PathSeparators)
    case Some(n) => p[..n]
    case None => ""
  }

  /** `getParentFile`: opens the parent path of the entry's display path. */
  function GetParentFile(resolve: Resolver, f: File): (r: File)
    ensures OpenedAt(resolve, ParentPath(f.path), r)
  {
    Open(resolve, ParentPath(f.path))
  }

  /** The path "/x/y/z" has the parent "/x/y"; a path without separator has the parent "". */
  lemma ParentExamples()
    ensures ParentPath("/x/y/z") == "/x/y"
    ensures ParentPath("name") == ""
  {
    FindLastOfJoin("/x/y", '/', "z", PathSeparators);
    assert "/x/y/z" == "/x/y" + ['/'] + "z";
    assert FindLastOf("name", PathSeparators).None? by {
      var s := "name";
      assert forall j :: 0 <= j < |s| ==> s[j] !in PathSeparators;
    }
  }

  /**
   * Parent and child are inverse: the parent of a child of `parent` that does
   * not resolve, or resolves to its own path, is `parent` again, when the child
   * name holds no separator and `parent`'s path is already in resolved form.
   */
  lemma ParentOfChild(resolve: Resolver, parent: File, child: string)
    requires forall j :: 0 <= j < |child| ==> child[j] !in PathSeparators
    requires resolve(parent.path + "/" + child).None? || resolve(parent.path + "/" + child) == Some(parent.path + "/" + child)
    requires resolve(parent.path).None? || resolve(parent.path) == Some(parent.path)
    ensures GetParentFile(resolve, OpenChild(resolve, parent, child)) == parent
  {
    var joined := parent.path + "/" + child;
    assert joined == parent.path + ['/'] + child;
    FindLastOfJoin(parent.path, '/', child, PathSeparators);
    assert ParentPath(joined) == joined[..|parent.path|];
    assert joined[..|parent.path|] == parent.path;
  }

  /* ---------------------------------------------------------------- */
  /* Metadata                                                         */
  /* ---------------------------------------------------------------- */

  /** `exists`: the stat call succeeds. */
  function Exists(stat: Stat, f: File): (r: bool)
    ensures r <==> stat(f.path).Some?
  {
    stat(f.path).Some?
  }

  /** `isDirectory`: false when stat fails, the directory bit otherwise. */
  function IsDirectory(stat: Stat, f: File): (r: bool)
    ensures r ==> Exists(stat, f)
    ensures r <==> stat(f.path).Some? && stat(f.path).value.kind == Directory
  {
    match stat(f.path)
    case None => false
    case Some(st) => st.kind == Directory
  }

  /** `isFile`: false when stat fails, the regular-file bit otherwise; never together with `isDirectory`. */
  function IsFile(stat: Stat, f: File): (r: bool)
    ensures r ==> Exists(stat, f) && !IsDirectory(stat, f)
    ensures r <==> stat(f.path).Some? && stat(f.path).value.kind == Regular
  {
    match stat(f.path)
    case None => false
    case Some(st) => st.kind == Regular
  }

  /** C++ integer division of `long long` values, which truncates toward zero. */
  function CDiv(a: int, b: int): (q: int)
    requires b > 0
    ensures a >= 0 ==> 0 <= a - q * b < b
    ensures a < 0 ==> -b < a - q * b <= 0
  {
    if a >= 0 then a / b else -((-a) / b)
  }

  /** `tv_sec * 1000 + tv_nsec / 1000000`: milliseconds since the epoch. */
  function Millis(sec: int, nsec: int): (ms: int)
    ensures 0 <= nsec ==> ms == sec * 1000 + nsec / 1_000_000
    ensures 0 <= nsec < 1_000_000_000 ==> sec * 1000 <= ms <= sec * 1000 + 999
    ensures 0 <= nsec < 1_000_000_000 ==> ms / 1000 == sec && ms % 1000 == nsec / 1_000_000
  {
    sec * 1000 + CDiv(nsec, 1_000_000)
  }

  /** `lastModified`: 0 when stat fails, the modification time in milliseconds otherwise. */
  function LastModified(stat: Stat, f: File): (ms: int)
    ensures stat(f.path).None? ==> ms == 0
    ensures stat(f.path).Some? && 0 <= stat(f.path).value.nsec < 1_000_000_000 ==>
      var st := stat(f.path).value; st.sec * 1000 <= ms <= st.sec * 1000 + 999
    ensures stat(f.path).Some? ==> ms == Millis(stat(f.path).value.sec, stat(f.path).value.nsec)
    ensures stat(f.path).Some? && 0 <= stat(f.path).value.nsec ==>
      var st := stat(f.path).value; ms == st.sec * 1000 + st.nsec / 1_000_000
  {
    match stat(f.path)
    case None => 0
    case Some(st) => Millis(st.sec, st.nsec)
  }

  /** `length`: 0 when stat fails, the size in bytes otherwise. */
  function Length(stat: Stat, f: File): (n: int)
    ensures stat(f.path).None? ==> n == 0
    ensures stat(f.path).Some? ==> n == stat(f.path).value.size
  {
    match stat(f.path)
    case None => 0
    case Some(st) => st.size
  }

  /**
   * A failed stat and an empty file born at the epoch give the same `length`
   * and `lastModified`: the results alone cannot tell the two apart.
   */
  lemma FailureLooksLikeZero(f: File, failing: Stat, empty: Stat)
    requires failing(f.path).None?
    requires empty(f.path) == Some(StatRec(Regular, 0, 0, 0))
    ensures Length(failing, f) == Length(empty, f) && LastModified(failing, f) == LastModified(empty, f)
    ensures Exists(empty, f) && !Exists(failing, f)
  {
  }

  /* ---------------------------------------------------------------- */
  /* Removal                                                          */
  /* ---------------------------------------------------------------- */

  datatype RemoveCall = Rmdir(target: Path) | Unlink(target: Path)

  /** The system call `remove` makes: `rmdir` for a directory, `unlink` for anything else. */
  function RemoveDispatch(stat: Stat, f: File): (c: RemoveCall)
    ensures c.target == f.path
    ensures c.Rmdir? <==> IsDirectory(stat, f)
    ensures IsFile(stat, f) || !Exists(stat, f) ==> c.Unlink?
  {
    if IsDirectory(stat, f) then Rmdir(f.path) else Unlink(f.path)
  }

  /** `remove`: true exactly when the dispatched call returns 0. */
  function Remove(stat: Stat, status: RemoveCall -> int, f: File): (ok: bool)
    ensures ok <==> status(RemoveDispatch(stat, f)) == 0
    ensures IsDirectory(stat, f) ==> (ok <==> status(Rmdir(f.path)) == 0)
    ensures !IsDirectory(stat, f) ==> (ok <==> status(Unlink(f.path)) == 0)
  {
    status(RemoveDispatch(stat, f)) == 0
  }

  /* ---------------------------------------------------------------- */
  /* Directory listing                                                */
  /* ---------------------------------------------------------------- */

  predicate IsDotEntry(name: string)
  {
    name == "." || name == ".."
  }

  /** The directory names `listFiles` keeps, in iteration order. */
  function Listed(names: seq<string>): (kept: seq<string>)
    ensures |kept| <= |names|
    ensures forall n :: n in kept <==> n in names && !IsDotEntry(n)
    decreases |names|
  {
    if names == [] then []
    else
      var init := Listed(names[..|names| - 1]);
      var n := names[|names| - 1];
      assert names == names[..|names| - 1] + [n];
      if IsDotEntry(n) then init else init + [n]
  }

  /** Listing keeps iteration order: the listing of a concatenation is the concatenation of listings. */
  lemma {:induction false} ListedAppend(a: seq<string>, b: seq<string>)
    ensures Listed(a + b) == Listed(a) + Listed(b)
    decreases |b|
  {
    if b == [] {
      assert a + b == a;
    } else {
      var b', n := b[..|b| - 1], b[|b| - 1];
      ListedAppend(a, b');
      assert (a + b)[..|a + b| - 1] == a + b' && (a + b)[|a + b| - 1] == n;
      assert Listed(a + b) == if IsDotEntry(n) then Listed(a + b') else Listed(a + b') + [n];
      assert Listed(b) == if IsDotEntry(n) then Listed(b') else Listed(b') + [n];
      AppendAssoc(Listed(a), Listed(b'), [n]);
    }
  }

  /** The entries `listFiles` builds: one per kept name, opened at `base + "/" + name`. */
  function ChildFiles(resolve: Resolver, base: Path, names: seq<string>): (files: seq<File>)
    ensures |files| == |Listed(names)|
    ensures forall i :: 0 <= i < |files| ==> files[i] == Open(resolve, base + "/" + Listed(names)[i])
    decreases |names|
  {
    if names == [] then []
    else
      var init := ChildFiles(resolve, base, names[..|names| - 1]);
      var n := names[|names| - 1];
      if IsDotEntry(n) then init else init + [Open(resolve, base + "/" + n)]
  }

  /** `listFiles`: nothing for a non-directory or an unreadable directory, else one entry per name but "." and "..". */
  method ListFiles(resolve: Resolver, stat: Stat, readDir: DirReader, f: File) returns (files: seq<File>)
    ensures !IsDirectory(stat, f) || readDir(f.path).None? ==> files == []
    ensures IsDirectory(stat, f) && readDir(f.path).Some? ==>
      files == ChildFiles(resolve, f.path, readDir(f.path).value)
  {
    files := [];
    if !IsDirectory(stat, f) {
      return;
    }
    var dir := readDir(f.path);
    if dir.None? {
      return;
    }
    var names := dir.value;
    var i := 0;
    while i < |names|
      invariant 0 <= i <= |names|
      invariant files == ChildFiles(resolve, f.path, names[..i])
    {
      var name := names[i];
      assert names[..i + 1][..i] == names[..i];
      if name != "." && name != ".." {
        var childPath := f.path + "/" + name;
        files := files + [Open(resolve, childPath)];
      }
      i := i + 1;
    }
    assert names[..i] == names;
  }

  /** Each entry of a listing is named after one kept directory name, and every kept name has its entry. */
  lemma ListingNamesChildren(resolve: Resolver, base: Path, names: seq<string>, n: string)
    requires !IsDotEntry(n)
    ensures n in names <==>
      (exists i :: 0 <= i < |ChildFiles(resolve, base, names)| &&
         ChildFiles(resolve, base, names)[i] == Open(resolve, base + "/" + n) && Listed(names)[i] == n)
  {
    var kept := Listed(names);
    if n in names {
      assert n in kept;
      var i :| 0 <= i < |kept| && kept[i] == n;
      assert ChildFiles(resolve, base, names)[i] == Open(resolve, base + "/" + n);
    }
  }

  /* ---------------------------------------------------------------- */
  /* Special locators                                                 */
  /* ---------------------------------------------------------------- */

  /** Linux `PATH_MAX`. */
  const PathMax: nat := 4096
  /** `sizeof(char *)` on a 64-bit target. */
  const PointerSize: nat := 8

  /** Reading a link of target `target` into a buffer that admits `budget` bytes. */
  function ReadLink(target: Option<Path>, budget: nat): (r: Option<Path>)
    ensures target.None? <==> r.None?
    ensures r.Some? ==> r.value == target.value[..if |target.value| < budget then |target.value| else budget]
    ensures target.Some? && |target.value| <= budget ==> r == target
  {
    match target
    case None => None
    case Some(t) =>
      assert t[..|t|] == t;
      Some(if |t| < budget then t else t[..budget])
  }

  /** The executable path as `openResourceDirectory` reads it: `readlink(..., sizeof(path) - 1)` with `path` a `char *`. */
  function ExecutablePathAsWritten(target: Option<Path>): (r: Option<Path>)
    ensures r.Some? ==> |r.value| <= PointerSize - 1
  {
    ReadLink(target, PointerSize - 1)
  }

  /** The evidently intended read, with the whole `PATH_MAX` buffer but its terminator. */
  function ExecutablePath(target: Option<Path>): (r: Option<Path>)
    ensures target.Some? && |target.value| < PathMax ==> r == target
    ensures target.None? ==> r.None?
  {
    ReadLink(target, PathMax - 1)
  }

  /** The string step of `openResourceDirectory`: the executable's directory plus "/resource", or "". */
  function ResourceDirectoryPath(exe: Option<Path>): (p: Path)
    ensures exe.None? || FindLastOf(exe.value, {'/'}).None? ==> p == ""
    ensures exe.Some? && FindLastOf(exe.value, {'/'}).Some? ==>
      |p| >= |ResourceSuffix| &&
      var dir := p[..|p| - |ResourceSuffix|];
      p == dir + ResourceSuffix &&
      |dir| < |exe.value| && dir == exe.value[..|dir|] && exe.value[|dir|] == '/' &&
      forall j :: |dir| < j < |exe.value| ==> exe.value[j] != '/'
  {
    match exe
    case None => ""
    case Some(e) =>
      match FindLastOf(e, {'/'})
      case None => ""
      case Some(pos) => e[..pos] + ResourceSuffix
  }

  /** `File::openResourceDirectory`, given the target of /proc/self/exe (None when readlink fails). */
  function OpenResourceDirectory(resolve: Resolver, exeLink: Option<Path>): (f: File)
    ensures OpenedAt(resolve, ResourceDirectoryPath(ExecutablePath(exeLink)), f)
  {
    Open(resolve, ResourceDirectoryPath(ExecutablePath(exeLink)))
  }

  /** An executable `dir/name` has its resources in `dir/resource`. */
  lemma ResourceBesideExecutable(dir: Path, name: string)
    requires forall j :: 0 <= j < |name| ==> name[j] != '/'
    ensures ResourceDirectoryPath(Some(dir + "/" + name)) == dir + ResourceSuffix
  {
    var e := dir + "/" + name;
    assert e == dir + ['/'] + name;
    FindLastOfJoin(dir, '/', name, {'/'});
    assert e[..|dir|] == dir;
  }

  /** With the as-written budget of 7 bytes, "/usr/local/bin/game" yields "/usr/resource", not "/usr/local/bin/resource". */
  lemma ReadlinkTruncates()
    ensures ExecutablePathAsWritten(Some("/usr/local/bin/game")) == Some("/usr/lo")
    ensures ResourceDirectoryPath(ExecutablePathAsWritten(Some("/usr/local/bin/game"))) == "/usr/resource"
    ensures ResourceDirectoryPath(ExecutablePath(Some("/usr/local/bin/game"))) == "/usr/local/bin/resource"
  {
    var exe := "/usr/local/bin/game";
    // the cut at seven bytes, then the directory of what is left
    assert exe[..PointerSize - 1] == "/usr/lo";
    assert ExecutablePathAsWritten(Some(exe)) == Some("/usr/lo");
    assert "/usr/lo" == "/usr" + "/" + "lo";
    ResourceBesideExecutable("/usr", "lo");
    // the whole path, then its directory
    assert ExecutablePath(Some(exe)) == Some(exe);
    assert exe == "/usr/local/bin" + "/" + "game";
    ResourceBesideExecutable("/usr/local/bin", "game");
  }

  /** The string step of `openWorkingDirectory`: HOME, '/', the name; "" when HOME is unset. */
  function WorkingDirectoryPath(home: Option<Path>, name: string): (p: Path)
    ensures home.None? ==> p == ""
    ensures home.Some? ==>
      |p| == |home.value| + 1 + |name| && p[..|home.value|] == home.value &&
      p[|home.value|] == '/' && p[|home.value| + 1..] == name
  {
    match home
    case None => ""
    case Some(h) => h + "/" + name
  }

  /** The parent of a working directory `HOME/name` is HOME itself. */
  lemma WorkingDirectoryParent(home: Path, name: string)
    requires forall j :: 0 <= j < |name| ==> name[j] !in PathSeparators
    ensures ParentPath(WorkingDirectoryPath(Some(home), name)) == home
  {
    var p := home + "/" + name;
    assert p == home + ['/'] + name;
    FindLastOfJoin(home, '/', name, PathSeparators);
    assert p[..|home|] == home;
  }

  /** `File::openWorkingDirectory(name)`, given the value of HOME. */
  function OpenWorkingDirectory(resolve: Resolver, home: Option<Path>, name: string): (f: File)
    ensures OpenedAt(resolve, WorkingDirectoryPath(home, name), f)
  {
    Open(resolve, WorkingDirectoryPath(home, name))
  }
}
