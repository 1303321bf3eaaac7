/**
 * The journal's storage layout and the small filesystem helpers of
 * `rednotebook/util/filesystem.py`.  The filesystem is a `Disk`: a set of directory
 * paths and a map from file paths to their contents.  An anchor (`/`, `.`, `C:`)
 * always exists as a directory.
 */
module Filesystem {
  import opened Wrappers
  import opened Paths

  // ---- the filesystem ----

  /** `p.is_dir()` over a set of directories: anchors always exist. */
  predicate IsDirIn(dirs: set<Path>, p: Path) {
    p.parts == [] || p in dirs
  }

  /** A consistent tree: every directory and file sits in an existing directory,
      and no path is both a file and a directory. */
  predicate Consistent(dirs: set<Path>, files: map<Path, string>) {
    && (forall d | d in dirs :: d.parts != [] && IsDirIn(dirs, Parent(d)))
    && (forall f | f in files :: f.parts != [] && IsDirIn(dirs, Parent(f)))
    && (forall f | f in files :: f !in dirs)
  }

  /** `d` and all its ancestors below the anchor: what `mkdir(parents=True)` makes exist. */
  function Lineage(d: Path): set<Path>
    decreases |d.parts|
  {
    if d.parts == [] then {} else Lineage(Parent(d)) + {d}
  }

  /** The lineages of all paths in `ds`. */
  function LineageOfAll(ds: seq<Path>): set<Path> {
    if ds == [] then {} else LineageOfAll(ds[..|ds| - 1]) + Lineage(ds[|ds| - 1])
  }

  /** `d.mkdir(parents=True)` raises when `d` or one of its ancestors is a file. */
  predicate Blocked(files: map<Path, string>, d: Path)
    decreases |d.parts|
  {
    d.parts != [] && (d in files || Blocked(files, Parent(d)))
  }

  /** A file can be written at `p`: its parent is a directory and `p` is not one. */
  predicate CanCreateIn(dirs: set<Path>, p: Path) {
    p.parts != [] && !IsDirIn(dirs, p) && IsDirIn(dirs, Parent(p))
  }

  /** The files after `make_file` on each pair in turn, in a directory tree that does not change. */
  function FilesMade(dirs: set<Path>, files: map<Path, string>, pairs: seq<(Path, string)>): map<Path, string> {
    if pairs == [] then files
    else MakeFileIn(dirs, FilesMade(dirs, files, pairs[..|pairs| - 1]), pairs[|pairs| - 1].0, pairs[|pairs| - 1].1)
  }

  /** The files after one `make_file`. */
  function MakeFileIn(dirs: set<Path>, files: map<Path, string>, f: Path, content: string): map<Path, string> {
    if f !in files && CanCreateIn(dirs, f) then files[f := content] else files
  }

  /** `make_files` never overwrites a file and only creates files that some pair names,
      with that pair's content. */
  lemma {:induction false} FilesMadeKeepsAndAdds(dirs: set<Path>, files: map<Path, string>, pairs: seq<(Path, string)>)
    ensures var after := FilesMade(dirs, files, pairs);
      && (forall p | p in files :: p in after && after[p] == files[p])
      && (forall p | p in after && p !in files :: CanCreateIn(dirs, p) && exists i | 0 <= i < |pairs| :: pairs[i] == (p, after[p]))
    decreases |pairs|
  {
    if pairs != [] {
      var init := pairs[..|pairs| - 1];
      FilesMadeKeepsAndAdds(dirs, files, init);
      var before := FilesMade(dirs, files, init);
      var after := FilesMade(dirs, files, pairs);
      forall p | p in after && p !in files
        ensures exists i | 0 <= i < |pairs| :: pairs[i] == (p, after[p])
      {
        if p in before {
          var i :| 0 <= i < |init| && init[i] == (p, before[p]);
          assert pairs[i] == (p, after[p]);
        } else {
          assert pairs[|pairs| - 1] == (p, after[p]);
        }
      }
    }
  }

  /** After `make_files`, every pair's path that was a file or could be created is a file;
      the first pair naming a path that had to be created gives its content. */
  lemma {:induction false} FilesMadeCovers(dirs: set<Path>, files: map<Path, string>, pairs: seq<(Path, string)>, i: int)
    requires 0 <= i < |pairs|
    ensures var after := FilesMade(dirs, files, pairs);
      && (pairs[i].0 in files || CanCreateIn(dirs, pairs[i].0) ==> pairs[i].0 in after)
      && ((pairs[i].0 !in files && CanCreateIn(dirs, pairs[i].0) && forall j | 0 <= j < i :: pairs[j].0 != pairs[i].0)
            ==> after[pairs[i].0] == pairs[i].1)
    decreases |pairs|
  {
    var init := pairs[..|pairs| - 1];
    FilesMadeKeepsAndAdds(dirs, files, init);
    if i < |pairs| - 1 {
      FilesMadeCovers(dirs, files, init, i);
    }
  }

  lemma {:induction false} LineageLengths(d: Path, p: Path)
    requires p in Lineage(d)
    ensures 1 <= |p.parts| <= |d.parts|
    decreases |d.parts|
  {
    if p != d {
      LineageLengths(Parent(d), p);
    }
  }

  /** Every path in `ds` other than an anchor is in their lineages. */
  lemma {:induction false} LineageOfAllCovers(ds: seq<Path>)
    ensures forall d | d in ds :: IsDirIn(LineageOfAll(ds), d)
  {
    if ds != [] {
      var init := ds[..|ds| - 1];
      LineageOfAllCovers(init);
      assert ds == init + [ds[|ds| - 1]];
    }
  }

  /** One more path adds its lineage. */
  lemma LineageOfAllStep(ds: seq<Path>, i: int)
    requires 0 <= i < |ds|
    ensures LineageOfAll(ds[..i + 1]) == LineageOfAll(ds[..i]) + Lineage(ds[i])
    ensures forall d | d in ds[..i + 1] :: d in ds[..i] || d == ds[i]
  {
    TakeOneMore(ds, i);
    assert (ds[..i] + [ds[i]])[..i] == ds[..i];
  }

  lemma ChildNotInParentLineage(f: Path)
    ensures f.parts != [] ==> f !in Lineage(Parent(f))
  {
    if f.parts != [] && f in Lineage(Parent(f)) {
      LineageLengths(Parent(f), f);
    }
  }

  /** An existing directory has all of its ancestors as directories too. */
  lemma {:induction false} DirHasLineage(dirs: set<Path>, files: map<Path, string>, d: Path)
    requires Consistent(dirs, files) && IsDirIn(dirs, d)
    ensures Lineage(d) <= dirs && !Blocked(files, d)
    decreases |d.parts|
  {
    if d.parts != [] {
      DirHasLineage(dirs, files, Parent(d));
    }
  }

  /** Adding the lineage of a path that no file is in the way of keeps the tree consistent. */
  lemma {:induction false} AddLineageConsistent(dirs: set<Path>, files: map<Path, string>, d: Path)
    requires Consistent(dirs, files) && !Blocked(files, d)
    ensures Consistent(dirs + Lineage(d), files)
    ensures IsDirIn(dirs + Lineage(d), d)
    decreases |d.parts|
  {
    if d.parts != [] {
      AddLineageConsistent(dirs, files, Parent(d));
      var mid := dirs + Lineage(Parent(d));
      assert dirs + Lineage(d) == mid + {d};
    }
  }

  class Disk {
    var dirs: set<Path>
    var files: map<Path, string>

    ghost predicate Valid()
      reads this
    {
      Consistent(dirs, files)
    }

    /** `make_directory`: create `d` and its missing ancestors unless `d` already exists;
        `ok` is false for the error `mkdir` raises when a file is in the way. */
    method MakeDirectory(d: Path) returns (ok: bool)
      requires Valid()
      modifies this
      ensures Valid() && files == old(files)
      ensures ok == !Blocked(old(files), d)
      ensures dirs == if ok then old(dirs) + Lineage(d) else old(dirs)
      ensures IsDirIn(old(dirs), d) ==> ok && dirs == old(dirs)
      ensures ok ==> IsDirIn(dirs, d)
    {
      if IsDirIn(dirs, d) {
        DirHasLineage(dirs, files, d);
        return true;
      }
      if Blocked(files, d) {
        return false;
      }
      AddLineageConsistent(dirs, files, d);
      dirs := dirs + Lineage(d);
      ok := true;
    }

    /** `make_directories`: `make_directory` on each path in turn; the first failure
        ends the loop, as the exception does. */
    method MakeDirectories(ds: seq<Path>) returns (ok: bool)
      requires Valid()
      modifies this
      ensures Valid() && files == old(files)
      ensures ok == forall d | d in ds :: !Blocked(old(files), d)
      ensures ok ==> dirs == old(dirs) + LineageOfAll(ds) && forall d | d in ds :: IsDirIn(dirs, d)
      ensures !ok ==> exists i | 0 <= i < |ds| ::
                        Blocked(old(files), ds[i]) && dirs == old(dirs) + LineageOfAll(ds[..i])
    {
      ghost var dirs0, files0 := dirs, files;
      var i := 0;
      while i < |ds|
        invariant 0 <= i <= |ds|
        invariant Valid() && files == files0
        invariant dirs == dirs0 + LineageOfAll(ds[..i])
        invariant forall d | d in ds[..i] :: !Blocked(files0, d)
      {
        var made := MakeDirectory(ds[i]);
        if !made {
          assert Blocked(files0, ds[i]) && dirs == dirs0 + LineageOfAll(ds[..i]);
          return false;
        }
        LineageOfAllStep(ds, i);
        i := i + 1;
      }
      assert ds[..i] == ds;
      LineageOfAllCovers(ds);
      ok := true;
    }

    /** The filesystem work of `Filenames.__init__` for the user directory `u`:
        `make_directories` on the user, data, template and temp directories, then
        `make_files` with empty config and log files.  `ok` is false for the error
        `mkdir` raises. */
    method MakeLayout(u: Path) returns (ok: bool)
      requires Valid() && IsAbsolute(u)
      modifies this
      ensures Valid()
      ensures LayoutMade(old(dirs), old(files), u, ok, dirs, files)
    {
      ghost var dirs0, files0 := dirs, files;
      if LayoutPresent(dirs, files, u) {
        LayoutPresentLineage(dirs0, files0, u);
      }
      ok := MakeDirectories(LayoutDirs(u));
      if !ok {
        return;
      }
      MakeFiles([(UserPath(u, Config), ""), (UserPath(u, Log), "")]);
      LayoutFilesMade(dirs0, files0, u, dirs);
    }

    /** `make_file`: write `content` to `f` only when `f` is not already a file.
        `write_file` asserts that the path is absolute and swallows the `OSError`
        of a missing parent or a directory in the way. */
    method MakeFile(f: Path, content: string)
      requires Valid()
      requires f in files || IsAbsolute(f)
      modifies this
      ensures Valid() && dirs == old(dirs)
      ensures files == FilesMade(dirs, old(files), [(f, content)])
    {
      assert [(f, content)][..0] == [];
      if f !in files && CanCreateIn(dirs, f) {
        files := files[f := content];
      }
    }

    /** `make_files`: `make_file` on each (path, content) pair in turn. */
    method MakeFiles(pairs: seq<(Path, string)>)
      requires Valid()
      requires forall i | 0 <= i < |pairs| :: pairs[i].0 in files || IsAbsolute(pairs[i].0)
      modifies this
      ensures Valid() && dirs == old(dirs)
      ensures files == FilesMade(dirs, old(files), pairs)
    {
      var i := 0;
      while i < |pairs|
        invariant 0 <= i <= |pairs|
        invariant Valid() && dirs == old(dirs)
        invariant files == FilesMade(dirs, old(files), pairs[..i])
      {
        FilesMadeKeepsAndAdds(dirs, old(files), pairs[..i]);
        MakeFile(pairs[i].0, pairs[i].1);
        assert pairs[..i + 1][..i] == pairs[..i];
        i := i + 1;
      }
      assert pairs[..i] == pairs;
    }

    /** `make_file_with_dir`: make the parent directory, then the file.  When the
        directory cannot be made, the exception stops before the file. */
    method MakeFileWithDir(f: Path, content: string) returns (ok: bool)
      requires Valid()
      requires f in files || IsAbsolute(f)
      modifies this
      ensures Valid()
      ensures ok == !Blocked(old(files), Parent(f))
      ensures dirs == if ok then old(dirs) + Lineage(Parent(f)) else old(dirs)
      ensures files == if ok && f !in old(files) && f.parts != [] && !IsDirIn(old(dirs), f)
                       then old(files)[f := content] else old(files)
    {
      ok := MakeDirectory(Parent(f));
      if ok {
        ChildNotInParentLineage(f);
        MakeFile(f, content);
      }
    }
  }

  // ---- the journal's paths ----

  /** The fixed children of the journal user directory that `Filenames` computes on access. */
  datatype UserEntry = Templates | Tmp | Data | Config | Log

  function EntryName(e: UserEntry): string {
    match e
    case Templates => "templates"
    case Tmp => "tmp"
    case Data => "data"
    case Config => "configuration.cfg"
    case Log => "rednotebook.log"
  }

  /** The `user_paths` mapping of `Filenames.__getattribute__`: `journal_user_dir / name`. */
  function UserPath(userDir: Path, e: UserEntry): (p: Path)
    ensures p.parts != [] && Parent(p) == userDir && Name(p) == EntryName(e)
  {
    var p := Join(userDir, EntryName(e));
    assert p.parts[..|p.parts| - 1] == userDir.parts;
    p
  }

  /** The five derived paths are pairwise distinct, and each determines the user directory. */
  lemma UserPathInjective(u1: Path, e1: UserEntry, u2: Path, e2: UserEntry)
    ensures UserPath(u1, e1) == UserPath(u2, e2) <==> u1 == u2 && e1 == e2
  {
    if UserPath(u1, e1) == UserPath(u2, e2) {
      assert Parent(UserPath(u1, e1)) == u1;
      assert Name(UserPath(u1, e1)) == EntryName(e1);
    }
  }

  /** The resolved module-level directories that `Filenames.__init__` copies in:
      `app_dir`, `locale_dir`, `image_dir`, `frame_icon_dir`, `files_dir` and
      `user_home_dir`. */
  datatype Environment = Environment(
    appDir: Path, localeDir: Path, imageDir: Path, frameIconDir: Path, filesDir: Path, userHomeDir: Path)

  /** `get_user_dir` with the value of the test `if custom:` as the parameter `customCounts`. */
  function ChooseUserDir(customCounts: bool, resolvedCustom: Path, portable: bool, env: Environment): Path {
    if customCounts then resolvedCustom
    else if portable then Join(env.appDir, "user")
    else Join(env.userHomeDir, ".rednotebook")
  }

  /** `get_user_dir` as written: `Path(setting)` is always truthy (even `Path('')`, which is
      `.`), so the resolved setting is always used. */
  function UserDirAsWritten(setting: string, resolvedCustom: Path, portable: bool, env: Environment): (u: Path)
    ensures u == resolvedCustom
  {
    ChooseUserDir(true, resolvedCustom, portable, env)
  }

  /** `get_user_dir` as intended: the setting counts only when it is not empty. */
  function UserDir(setting: string, resolvedCustom: Path, portable: bool, env: Environment): Path {
    ChooseUserDir(setting != "", resolvedCustom, portable, env)
  }

  /** The intended choice: a set `userDir` wins; otherwise portable mode puts the journal
      in the application directory, and the default is `~/.rednotebook`. */
  lemma UserDirChoice(setting: string, resolvedCustom: Path, portable: bool, env: Environment)
    ensures var u := UserDir(setting, resolvedCustom, portable, env);
      && (setting != "" ==> u == resolvedCustom)
      && (setting == "" && portable ==> Parent(u) == env.appDir && Name(u) == "user")
      && (setting == "" && !portable ==> Parent(u) == env.userHomeDir && Name(u) == ".rednotebook")
  {
    var u := UserDir(setting, resolvedCustom, portable, env);
    if setting == "" {
      assert u.parts[..|u.parts| - 1] == (if portable then env.appDir else env.userHomeDir).parts;
    }
  }

  /** With `userDir` unset, the code as written puts the journal in the current directory
      (`Path('').resolve()`), not in `~/.rednotebook`. */
  lemma UnsetUserDirAsWritten()
    ensures var cwd := Path("", true, ["tmp"]);
      var env := Environment(Path("", true, ["opt", "rednotebook"]), Path("", true, ["usr", "share", "locale"]),
                             Path("", true, ["opt", "rednotebook", "images"]),
                             Path("", true, ["opt", "rednotebook", "images", "rednotebook-icon"]),
                             Path("", true, ["opt", "rednotebook", "files"]), Path("", true, ["home", "u"]));
      && UserDirAsWritten("", cwd, false, env) == cwd
      && UserDir("", cwd, false, env) == Path("", true, ["home", "u", ".rednotebook"])
  {
  }

  /** The values `forbidden_dirs` can hold, so that its membership test can be stated. */
  datatype PyValue = PyBool(b: bool) | PyPath(path: Path)

  /** `get_journal_title`: the directory's name, or "/" when the name is empty. */
  function JournalTitle(dir: Path): (title: string)
    ensures title != ""
    ensures WellFormed(dir) ==> (title == "/" <==> dir.parts == [])
  {
    if Name(dir) == "" then "/" else Name(dir)
  }

  /** The title of a journal directory is the name it was created under. */
  lemma JournalTitleOfChild(parent: Path, name: string)
    requires name != ""
    ensures JournalTitle(Join(parent, name)) == name
  {
  }

  /** ASCII `str.upper()`, enough for drive letters. */
  function Upper(s: string): string {
    seq(|s|, i requires 0 <= i < |s| => if 'a' <= s[i] <= 'z' then (s[i] as int - 32) as char else s[i])
  }

  /**
   * `get_relative_path`: `to_dir` itself when the drives differ ignoring case, otherwise
   * `from_dir.relative_to(to_dir)`, which is None (a `ValueError`) unless `to_dir` has the
   * same anchor as `from_dir` and its components begin `from_dir`'s.
   */
  function GetRelativePath(fromDir: Path, toDir: Path): (r: Option<Path>)
    ensures Upper(fromDir.drive) != Upper(toDir.drive) ==> r == Some(toDir)
    ensures Upper(fromDir.drive) == Upper(toDir.drive) ==> (r.Some? <==> IsUnder(toDir, fromDir))
    ensures Upper(fromDir.drive) == Upper(toDir.drive) && r.Some? ==>
              r.value.drive == "" && !r.value.rooted && JoinAll(toDir, r.value.parts) == fromDir
  {
    if Upper(fromDir.drive) != Upper(toDir.drive) then Some(toDir)
    else if IsUnder(toDir, fromDir) then
      var rest := fromDir.parts[|toDir.parts|..];
      assert toDir.parts + rest == fromDir.parts;
      Some(Path("", false, rest))
    else None
  }

  /**
   * `Filenames`: the application's named directories and files.  The five paths under
   * the journal user directory are functions of `journalUserDir`, so they follow it.
   */
  class Filenames {
    const appDir: Path
    const localeDir: Path
    const imageDir: Path
    const frameIconDir: Path
    const filesDir: Path
    const userHomeDir: Path
    var portable: bool
    var journalUserDir: Path
    var dataDir: Path
    var lastPicDir: Path
    var lastFileDir: Path
    var forbiddenDirs: seq<PyValue>

    function TemplateDir(): Path reads this { UserPath(journalUserDir, Templates) }
    function TempDir(): Path reads this { UserPath(journalUserDir, Tmp) }
    function DefaultDataDir(): Path reads this { UserPath(journalUserDir, Data) }
    function ConfigFile(): Path reads this { UserPath(journalUserDir, Config) }
    function LogFile(): Path reads this { UserPath(journalUserDir, Log) }

    /** Every entry of `forbidden_dirs` is a path. */
    ghost predicate Valid()
      reads this
    {
      forall v | v in forbiddenDirs :: v.PyPath?
    }

    /** The attribute assignments of `Filenames.__init__`; the filesystem work is in `Create`.
        `customCounts` is the test `get_user_dir` makes of the setting: always true as
        written (`UserDirAsWritten`), `setting != ""` as intended (`UserDir`). */
    constructor (env: Environment, customCounts: bool, resolvedCustom: Path, portable: bool)
      ensures Valid()
      ensures appDir == env.appDir && localeDir == env.localeDir && imageDir == env.imageDir
      ensures frameIconDir == env.frameIconDir && filesDir == env.filesDir && userHomeDir == env.userHomeDir
      ensures this.portable == portable
      ensures journalUserDir == ChooseUserDir(customCounts, resolvedCustom, portable, env)
      ensures dataDir == DefaultDataDir()
      ensures lastPicDir == env.userHomeDir && lastFileDir == env.userHomeDir
      ensures forbiddenDirs == [PyPath(env.userHomeDir), PyPath(journalUserDir)]
    {
      appDir, localeDir, imageDir := env.appDir, env.localeDir, env.imageDir;
      frameIconDir, filesDir, userHomeDir := env.frameIconDir, env.filesDir, env.userHomeDir;
      this.portable := portable;
      var u := ChooseUserDir(customCounts, resolvedCustom, portable, env);
      journalUserDir := u;
      dataDir := UserPath(u, Data);
      lastPicDir, lastFileDir := env.userHomeDir, env.userHomeDir;
      forbiddenDirs := [PyPath(env.userHomeDir), PyPath(u)];
    }

    /**
     * `Filenames(config)`: compute the layout, then make the user, data, template and
     * temp directories and the config and log files.  None stands for the exception
     * `mkdir` raises when a file is in the way of one of the directories.
     */
    static method Create(env: Environment, customCounts: bool, resolvedCustom: Path, portable: bool, disk: Disk)
      returns (r: Option<Filenames>)
      requires disk.Valid()
      requires IsAbsolute(resolvedCustom) && IsAbsolute(env.appDir) && IsAbsolute(env.userHomeDir)
      modifies disk
      ensures disk.Valid()
      ensures var u := ChooseUserDir(customCounts, resolvedCustom, portable, env);
        && LayoutMade(old(disk.dirs), old(disk.files), u, r.Some?, disk.dirs, disk.files)
        && (r.Some? ==>
              && fresh(r.value) && r.value.Valid()
              && r.value.appDir == env.appDir && r.value.localeDir == env.localeDir
              && r.value.imageDir == env.imageDir && r.value.frameIconDir == env.frameIconDir
              && r.value.filesDir == env.filesDir && r.value.userHomeDir == env.userHomeDir
              && r.value.portable == portable
              && r.value.journalUserDir == u
              && r.value.dataDir == r.value.DefaultDataDir()
              && r.value.lastPicDir == env.userHomeDir && r.value.lastFileDir == env.userHomeDir
              && r.value.forbiddenDirs == [PyPath(env.userHomeDir), PyPath(u)])
    {
      var f := new Filenames(env, customCounts, resolvedCustom, portable);
      var made := disk.MakeLayout(f.journalUserDir);
      r := if made then Some(f) else None;
    }

    /** `is_valid_journal_path` as written: `path.is_absolute()` is a bool, never equal to
        an entry of `forbidden_dirs`, so only `path.is_dir()` decides. */
    function IsValidJournalPathAsWritten(disk: Disk, path: Path): (ok: bool)
      requires Valid()
      reads this, disk
      ensures ok == IsDirIn(disk.dirs, path)
    {
      IsDirIn(disk.dirs, path) && PyBool(IsAbsolute(path)) !in forbiddenDirs
    }

    /** `is_valid_journal_path` as intended: an existing directory that is not forbidden. */
    function IsValidJournalPath(disk: Disk, path: Path): (ok: bool)
      reads this, disk
      ensures forbiddenDirs == [PyPath(userHomeDir), PyPath(journalUserDir)] ==>
                (ok <==> IsDirIn(disk.dirs, path) && path != userHomeDir && path != journalUserDir)
    {
      IsDirIn(disk.dirs, path) && PyPath(path) !in forbiddenDirs
    }
  }

  /** The directories `Filenames.__init__` makes: the user, data, template and temp directories. */
  function LayoutDirs(u: Path): seq<Path> {
    [u, UserPath(u, Data), UserPath(u, Templates), UserPath(u, Tmp)]
  }

  /** As written, `is_valid_journal_path` accepts the home directory and the journal user
      directory themselves; the intended check rejects both. */
  lemma ForbiddenDirsAcceptedAsWritten(f: Filenames, disk: Disk)
    requires f.Valid()
    requires f.forbiddenDirs == [PyPath(f.userHomeDir), PyPath(f.journalUserDir)]
    requires IsDirIn(disk.dirs, f.userHomeDir) && IsDirIn(disk.dirs, f.journalUserDir)
    ensures f.IsValidJournalPathAsWritten(disk, f.userHomeDir) && !f.IsValidJournalPath(disk, f.userHomeDir)
    ensures f.IsValidJournalPathAsWritten(disk, f.journalUserDir) && !f.IsValidJournalPath(disk, f.journalUserDir)
  {
  }

  /** The layout already exists: the four directories and the two files. */
  predicate LayoutPresent(dirs: set<Path>, files: map<Path, string>, u: Path) {
    && (forall d | d in LayoutDirs(u) :: IsDirIn(dirs, d))
    && UserPath(u, Config) in files && UserPath(u, Log) in files
  }

  /**
   * What making the layout for `u` does to a disk going from (`dirs0`, `files0`) to
   * (`dirs1`, `files1`): it succeeds (`ok`) iff no file is in the way of the four
   * directories; no existing file changes; an existing layout is left as it was.  On
   * failure only the directories before the blocked one were made.  On success the
   * directories are the old ones plus the four lineages and the files are `make_files`
   * of the empty config and log files: each exists unless a directory occupies its
   * path, and a new one is empty.
   */
  predicate LayoutMade(dirs0: set<Path>, files0: map<Path, string>, u: Path, ok: bool,
                       dirs1: set<Path>, files1: map<Path, string>)
  {
    var cfg, log := UserPath(u, Config), UserPath(u, Log);
    && (ok <==> forall d | d in LayoutDirs(u) :: !Blocked(files0, d))
    && (forall p | p in files0 :: p in files1 && files1[p] == files0[p])
    && (LayoutPresent(dirs0, files0, u) ==> ok && dirs1 == dirs0 && files1 == files0)
    && (!ok ==>
          && files1 == files0
          && exists i | 0 <= i < 4 :: Blocked(files0, LayoutDirs(u)[i])
                                     && dirs1 == dirs0 + LineageOfAll(LayoutDirs(u)[..i]))
    && (ok ==>
          && dirs1 == dirs0 + LineageOfAll(LayoutDirs(u))
          && files1 == FilesMade(dirs1, files0, [(cfg, ""), (log, "")])
          && (forall d | d in LayoutDirs(u) :: IsDirIn(dirs1, d))
          && (cfg in files1 <==> !IsDirIn(dirs0, cfg))
          && (log in files1 <==> !IsDirIn(dirs0, log))
          && (cfg in files1 && cfg !in files0 ==> files1[cfg] == "")
          && (log in files1 && log !in files0 ==> files1[log] == ""))
  }

  lemma LineageOfLayout(u: Path)
    ensures LineageOfAll(LayoutDirs(u)) ==
      Lineage(u) + Lineage(UserPath(u, Data)) + Lineage(UserPath(u, Templates)) + Lineage(UserPath(u, Tmp))
  {
    var ds := LayoutDirs(u);
    assert ds[..3][..2][..1][..0] == [];
    assert LineageOfAll(ds[..3][..2][..1]) == Lineage(u);
    assert LineageOfAll(ds[..3][..2]) == Lineage(u) + Lineage(UserPath(u, Data));
    assert LineageOfAll(ds[..3]) == Lineage(u) + Lineage(UserPath(u, Data)) + Lineage(UserPath(u, Templates));
  }

  /** A path is never an ancestor-or-self of its sibling. */
  lemma SiblingNotInLineage(p: Path, q: Path)
    requires p.parts != [] && q.parts != [] && Parent(p) == Parent(q) && p != q
    ensures p !in Lineage(q)
  {
    ChildNotInParentLineage(p);
    assert Lineage(q) == Lineage(Parent(q)) + {q};
  }

  /** The config or log path is not among the directories the layout makes. */
  lemma FileNotInLayoutLineage(u: Path, e: UserEntry)
    requires e == Config || e == Log
    ensures UserPath(u, e) !in LineageOfAll(LayoutDirs(u))
  {
    var p := UserPath(u, e);
    LineageOfLayout(u);
    ChildNotInParentLineage(p);
    UserPathInjective(u, e, u, Data);
    SiblingNotInLineage(p, UserPath(u, Data));
    UserPathInjective(u, e, u, Templates);
    SiblingNotInLineage(p, UserPath(u, Templates));
    UserPathInjective(u, e, u, Tmp);
    SiblingNotInLineage(p, UserPath(u, Tmp));
  }

  /** Making the layout's directories creates nothing at the config and log paths. */
  lemma LayoutFilesUntouched(u: Path)
    ensures UserPath(u, Config) !in LineageOfAll(LayoutDirs(u))
    ensures UserPath(u, Log) !in LineageOfAll(LayoutDirs(u))
  {
    FileNotInLayoutLineage(u, Config);
    FileNotInLayoutLineage(u, Log);
  }

  /** `make_files` on two distinct paths with empty contents, in a fixed directory tree. */
  lemma MakeTwoFiles(dirs: set<Path>, files: map<Path, string>, a: Path, b: Path)
    requires a != b
    ensures var after := FilesMade(dirs, files, [(a, ""), (b, "")]);
      && (forall p | p in files :: p in after && after[p] == files[p])
      && (a in after <==> a in files || CanCreateIn(dirs, a))
      && (b in after <==> b in files || CanCreateIn(dirs, b))
      && (a in files && b in files ==> after == files)
      && (a in after && a !in files ==> after[a] == "")
      && (b in after && b !in files ==> after[b] == "")
  {
    var pairs := [(a, ""), (b, "")];
    assert pairs[..1][..0] == [];
    var m1 := MakeFileIn(dirs, files, a, "");
    assert FilesMade(dirs, files, pairs[..1]) == m1;
    assert FilesMade(dirs, files, pairs) == MakeFileIn(dirs, m1, b, "");
  }

  /** Making the layout's directories leaves the config and log paths as they were. */
  lemma LayoutDirsSpareFilePaths(dirs0: set<Path>, u: Path, dirs1: set<Path>)
    requires dirs1 == dirs0 + LineageOfAll(LayoutDirs(u))
    ensures IsDirIn(dirs1, UserPath(u, Config)) == IsDirIn(dirs0, UserPath(u, Config))
    ensures IsDirIn(dirs1, UserPath(u, Log)) == IsDirIn(dirs0, UserPath(u, Log))
  {
    LayoutFilesUntouched(u);
  }

  /** What `make_files` does with the config and log files once the layout's directories exist. */
  lemma LayoutFilesMade(dirs0: set<Path>, files0: map<Path, string>, u: Path, dirs1: set<Path>)
    requires Consistent(dirs0, files0)
    requires dirs1 == dirs0 + LineageOfAll(LayoutDirs(u))
    requires IsDirIn(dirs1, u)
    ensures var files1 := FilesMade(dirs1, files0, [(UserPath(u, Config), ""), (UserPath(u, Log), "")]);
      && (forall p | p in files0 :: p in files1 && files1[p] == files0[p])
      && (UserPath(u, Config) in files1 <==> !IsDirIn(dirs0, UserPath(u, Config)))
      && (UserPath(u, Log) in files1 <==> !IsDirIn(dirs0, UserPath(u, Log)))
      && (UserPath(u, Config) in files0 && UserPath(u, Log) in files0 ==> files1 == files0)
      && (UserPath(u, Config) in files1 && UserPath(u, Config) !in files0 ==> files1[UserPath(u, Config)] == "")
      && (UserPath(u, Log) in files1 && UserPath(u, Log) !in files0 ==> files1[UserPath(u, Log)] == "")
  {
    var cfg, log := UserPath(u, Config), UserPath(u, Log);
    UserPathInjective(u, Config, u, Log);
    MakeTwoFiles(dirs1, files0, cfg, log);
    LayoutDirsSpareFilePaths(dirs0, u, dirs1);
  }

  /** When the layout exists, every directory it asks for is already there. */
  lemma LayoutPresentLineage(dirs: set<Path>, files: map<Path, string>, u: Path)
    requires Consistent(dirs, files)
    requires forall d | d in LayoutDirs(u) :: IsDirIn(dirs, d)
    ensures LineageOfAll(LayoutDirs(u)) <= dirs
    ensures forall d | d in LayoutDirs(u) :: !Blocked(files, d)
  {
    LineageOfLayout(u);
    DirHasLineage(dirs, files, u);
    DirHasLineage(dirs, files, UserPath(u, Data));
    DirHasLineage(dirs, files, UserPath(u, Templates));
    DirHasLineage(dirs, files, UserPath(u, Tmp));
  }
}
