/** The scan of an unpacked update: which files go where, which directories must exist, and what makes it refuse. */
module Updater {
  import opened Util

  // ---------- paths ----------

  /** A directory entry: not empty, without slashes or zeros. */
  predicate IsName(s: string) {
    s != "" && '/' !in s && '\0' !in s
  }

  function Join(dir: string, name: string): string {
    dir + "/" + name
  }

  /** Where the last component of a path begins. */
  function BaseStart(path: string): (k: nat)
    ensures k <= |path| && '/' !in path[k..] && (k > 0 ==> path[k - 1] == '/')
  {
    if path == "" || Last(path) == '/' then |path| else BaseStart(path[..|path| - 1])
  }

  predicate HasParent(path: string) {
    BaseStart(path) > 0
  }

  function Parent(path: string): (dir: string)
    requires HasParent(path)
    ensures |dir| < |path|
  {
    path[..BaseStart(path) - 1]
  }

  function Base(path: string): string {
    path[BaseStart(path)..]
  }

  lemma BaseStartIs(path: string, k: nat)
    requires k <= |path| && '/' !in path[k..] && (k > 0 ==> path[k - 1] == '/')
    ensures BaseStart(path) == k
  {
  }

  lemma JoinParts(dir: string, name: string)
    requires IsName(name)
    ensures HasParent(Join(dir, name)) && Parent(Join(dir, name)) == dir && Base(Join(dir, name)) == name
  {
    var path := Join(dir, name);
    assert path[|dir| + 1..] == name && path[|dir|] == '/';
    BaseStartIs(path, |dir| + 1);
    assert path[..|dir|] == dir;
  }

  lemma PartsJoin(path: string)
    requires HasParent(path)
    ensures Join(Parent(path), Base(path)) == path
  {
    var k := BaseStart(path);
    assert path == path[..k - 1] + [path[k - 1]] + path[k..];
  }

  predicate HasPrefix(s: string, prefix: string) {
    |s| >= |prefix| && s[..|prefix|] == prefix
  }

  // ---------- the file system and the paths of an update ----------

  /** Directories with their entries, as far as they can be opened, and regular files; anything else fails to stat. */
  datatype Fs = Fs(dirs: map<string, Option<seq<string>>>, files: set<string>)

  datatype Config = Config(updDir: string, readyFile: string, exePath: string, exeName: string, updaterName: string) {
    function Tdata(): string {
      updDir + "/tdata"
    }
  }

  function Listing(fs: Fs, dir: string): Option<seq<string>> {
    if dir in fs.dirs then fs.dirs[dir] else None
  }

  /** What a file system promises: the entries of a directory are names, each listed once. */
  ghost predicate WellFormed(fs: Fs) {
    forall dir | dir in fs.dirs && fs.dirs[dir].Some? ::
      Distinct(fs.dirs[dir].value) && forall name | name in fs.dirs[dir].value :: IsName(name)
  }

  predicate IsDot(name: string) {
    name == "." || name == ".."
  }

  /** The entry is listed, and is not one of the two that every directory has. */
  predicate IsEntry(fs: Fs, dir: string, name: string) {
    Listing(fs, dir).Some? && name in Listing(fs, dir).value && !IsDot(name)
  }

  /** The entry named tdata of the update, or something below it. */
  predicate Skipped(c: Config, path: string) {
    HasPrefix(path, c.Tdata()) && (|path| <= |c.Tdata()| || path[|c.Tdata()|] == '/')
  }

  /** All entries listed are looked at, but the two that every directory has. */
  lemma EntriesAreListed(fs: Fs, dir: string, names: seq<string>, name: string)
    requires dir in fs.dirs && fs.dirs[dir] == Some(names)
    ensures IsEntry(fs, dir, name) <==> name in names && name != "." && name != ".."
  {
  }

  /** A directory that the scan must look into: the root of the update, or a directory below one, outside tdata. */
  predicate InScan(fs: Fs, c: Config, dir: string)
    decreases |dir|
  {
    || dir == c.updDir
    || (&& |dir| > |c.updDir| && HasParent(dir) && InScan(fs, c, Parent(dir)) && IsEntry(fs, Parent(dir), Base(dir))
        && dir in fs.dirs && !Skipped(c, dir))
  }

  /** An entry that the scan looks at. */
  predicate Seen(fs: Fs, c: Config, path: string) {
    HasParent(path) && InScan(fs, c, Parent(path)) && IsEntry(fs, Parent(path), Base(path))
  }

  /** A regular file of the update: a directory of that name would have been scanned instead. */
  predicate IsFile(fs: Fs, c: Config, path: string) {
    !Skipped(c, path) && path !in fs.dirs && path in fs.files
  }

  lemma {:induction false} InScanBelow(fs: Fs, c: Config, dir: string)
    requires WellFormed(fs) && InScan(fs, c, dir)
    ensures HasPrefix(dir, c.updDir) && (dir != c.updDir ==> |dir| > |c.updDir| + 1 && dir[|c.updDir|] == '/')
    ensures dir != c.updDir ==> !Skipped(c, dir)
    decreases |dir|
  {
    if dir != c.updDir {
      InScanBelow(fs, c, Parent(dir));
      PartsJoin(dir);
      assert IsName(Base(dir));
    }
  }

  /** An entry whose path begins with that of tdata is tdata, unless its directory begins like that already. */
  lemma PrefixOfEntry(tdata: string, dir: string, name: string)
    requires IsName(name) && HasPrefix(Join(dir, name), tdata)
    requires |Join(dir, name)| <= |tdata| || Join(dir, name)[|tdata|] == '/'
    requires HasPrefix(dir, tdata) ==> |dir| > |tdata| && dir[|tdata|] != '/'
    ensures Join(dir, name) == tdata
  {
    var path := Join(dir, name);
    assert path[..|dir|] == dir && path[|dir|] == '/' && path[|dir| + 1..] == name;
  }

  /** What is skipped among the entries looked at is the entry tdata at the root, and nothing else. */
  lemma SkippedIsTdata(fs: Fs, c: Config, dir: string, name: string)
    requires WellFormed(fs) && InScan(fs, c, dir) && IsEntry(fs, dir, name)
    ensures Skipped(c, Join(dir, name)) <==> dir == c.updDir && name == "tdata"
  {
    InScanBelow(fs, c, dir);
    assert IsName(name);
    if Skipped(c, Join(dir, name)) {
      PrefixOfEntry(c.Tdata(), dir, name);
      JoinParts(c.updDir, "tdata");
      JoinParts(dir, name);
    }
  }

  // ---------- where things go ----------

  function Lower(ch: char): char {
    if 'A' <= ch <= 'Z' then (ch as int + 32) as char else ch
  }

  function Lowered(s: string): (t: string)
    ensures |t| == |s|
  {
    seq(|s|, i requires 0 <= i < |s| => Lower(s[i]))
  }

  /** Equality without regard to case. */
  predicate Equal(a: string, b: string) {
    Lowered(a) == Lowered(b)
  }

  lemma LowerIff(x: char, y: char)
    ensures Lower(x) == Lower(y) <==> SameLetter(x, y)
  {
    assert Lower(x) as int == if 'A' <= x <= 'Z' then x as int + 32 else x as int;
    assert Lower(y) as int == if 'A' <= y <= 'Z' then y as int + 32 else y as int;
    assert x as int == y as int ==> x == y;
    assert Lower(x) as int == Lower(y) as int ==> Lower(x) == Lower(y);
  }

  /** The same letters, each in either case. */
  lemma EqualIff(a: string, b: string)
    ensures Equal(a, b) <==> |a| == |b| && forall i | 0 <= i < |a| :: SameLetter(a[i], b[i])
  {
    if |a| == |b| {
      forall i | 0 <= i < |a|
        ensures Lowered(a)[i] == Lowered(b)[i] <==> SameLetter(a[i], b[i])
      {
        LowerIff(a[i], b[i]);
      }
      if forall i | 0 <= i < |a| :: SameLetter(a[i], b[i]) {
        assert Lowered(a) == Lowered(b);
      }
    } else {
      assert |Lowered(a)| != |Lowered(b)|;
    }
  }

  predicate SameLetter(x: char, y: char) {
    || x == y
    || ('A' <= x <= 'Z' && y as int - x as int == 32)
    || ('A' <= y <= 'Z' && x as int - y as int == 32)
  }

  /** The directory under the install root that belongs to a directory of the update. */
  function ToDir(c: Config, dir: string): string {
    if |dir| > |c.updDir| + 1 then c.exePath + (dir[|c.updDir| + 1..] + "/") else c.exePath
  }

  function Plain(c: Config, path: string): string
    requires |path| > |c.updDir|
  {
    c.exePath + path[|c.updDir| + 1..]
  }

  predicate IsUpdater(c: Config, path: string)
    requires |path| > |c.updDir|
  {
    Equal(Plain(c, path), c.updaterName)
  }

  /** The target of a file: the program itself takes the name that is in use. */
  function Target(c: Config, path: string): string
    requires |path| > |c.updDir|
  {
    if Equal(Plain(c, path), c.exePath + "Telegram") && c.exeName != "Telegram" then c.exePath + c.exeName
    else Plain(c, path)
  }

  lemma SeenIsBelow(fs: Fs, c: Config, path: string)
    requires WellFormed(fs) && Seen(fs, c, path)
    ensures |path| > |c.updDir| + 1 && HasPrefix(path, c.updDir) && path[|c.updDir|] == '/'
  {
    InScanBelow(fs, c, Parent(path));
    PartsJoin(path);
    assert IsName(Base(path));
  }

  /** The directory of a plain target is that of the file, moved under the install root. */
  lemma PlainIsInToDir(fs: Fs, c: Config, path: string)
    requires WellFormed(fs) && Seen(fs, c, path)
    ensures |path| > |c.updDir| && Plain(c, path) == ToDir(c, Parent(path)) + Base(path)
  {
    SeenIsBelow(fs, c, path);
    InScanBelow(fs, c, Parent(path));
    PartsJoin(path);
    var dir, n := Parent(path), |c.updDir| + 1;
    assert path == dir + ("/" + Base(path));
    if dir == c.updDir {
      assert path[n..] == Base(path);
    } else {
      assert path[n..] == dir[n..] + "/" + Base(path);
    }
  }

  // ---------- the scan ----------

  /** What the scan finds: a directory that cannot be opened, an updater, or what to copy and to create. */
  datatype Scan =
    | CannotOpen(dir: string)
    | HasUpdater(path: string)
    | Plan(from: seq<string>, to: seq<string>, forced: seq<string>)

  /** The directories scanned so far, in order, each after the one it is in. */
  ghost predicate ParentsFirst(c: Config, order: seq<string>) {
    && Distinct(order)
    && (forall i | 0 <= i < |order| && order[i] != c.updDir ::
          HasParent(order[i]) && exists j :: 0 <= j < i && order[j] == Parent(order[i]))
  }

  function ForcedOf(c: Config, order: seq<string>): seq<string> {
    if |order| == 0 then []
    else ForcedOf(c, order[..|order| - 1]) + if |Last(order)| > |c.updDir| + 1 then [ToDir(c, Last(order))] else []
  }

  /** The files to copy among the entries looked at, each once, with their targets. */
  ghost predicate Gathers(fs: Fs, c: Config, seen: set<string>, from: seq<string>, to: seq<string>) {
    && Distinct(from)
    && (forall f :: f in from <==> f in seen && IsFile(fs, c, f) && f != c.readyFile)
    && |to| == |from|
    && (forall i | 0 <= i < |from| :: |from[i]| > |c.updDir| && to[i] == Target(c, from[i]))
  }

  ghost predicate NoUpdater(fs: Fs, c: Config, seen: set<string>) {
    forall f | f in seen && IsFile(fs, c, f) :: |f| > |c.updDir| && !IsUpdater(c, f)
  }

  /** These are the directories found among the entries looked at, and the root, each once. */
  ghost predicate AllFound(fs: Fs, c: Config, seen: set<string>, all: seq<string>) {
    && Distinct(all)
    && (forall d :: d in all <==> d == c.updDir || (d in seen && d in fs.dirs && !Skipped(c, d)))
  }

  ghost predicate Schedules(fs: Fs, c: Config, seen: set<string>, order: seq<string>, dirs: seq<string>) {
    AllFound(fs, c, seen, order + dirs)
  }

  lemma DistinctAppend(xs: seq<string>, x: string)
    requires Distinct(xs) && x !in xs
    ensures Distinct(xs + [x])
  {
  }

  lemma GathersOne(fs: Fs, c: Config, seen: set<string>, from: seq<string>, to: seq<string>, f: string)
    requires Gathers(fs, c, seen, from, to) && f !in seen && |f| > |c.updDir|
    ensures if IsFile(fs, c, f) && f != c.readyFile then Gathers(fs, c, seen + {f}, from + [f], to + [Target(c, f)])
            else Gathers(fs, c, seen + {f}, from, to)
  {
    if IsFile(fs, c, f) && f != c.readyFile {
      DistinctAppend(from, f);
    }
  }

  lemma SchedulesOne(fs: Fs, c: Config, seen: set<string>, order: seq<string>, dirs: seq<string>, d: string)
    requires Schedules(fs, c, seen, order, dirs) && d !in seen && d != c.updDir
    ensures if d in fs.dirs && !Skipped(c, d) then Schedules(fs, c, seen + {d}, order, dirs + [d])
            else Schedules(fs, c, seen + {d}, order, dirs)
  {
    if d in fs.dirs && !Skipped(c, d) {
      DistinctAppend(order + dirs, d);
      Assoc(order, dirs, [d]);
    }
  }

  // ---------- the entries of the directories scanned ----------

  function EntriesOf(dir: string, names: seq<string>): set<string> {
    set name | name in names && !IsDot(name) :: Join(dir, name)
  }

  function SeenOf(fs: Fs, order: seq<string>): set<string> {
    if |order| == 0 then {}
    else
      var seen := SeenOf(fs, order[..|order| - 1]);
      if Listing(fs, Last(order)).Some? then seen + EntriesOf(Last(order), Listing(fs, Last(order)).value) else seen
  }

  lemma {:induction false} SeenOfIs(fs: Fs, order: seq<string>, path: string)
    requires WellFormed(fs)
    ensures path in SeenOf(fs, order) <==>
              HasParent(path) && Parent(path) in order && IsEntry(fs, Parent(path), Base(path))
  {
    if |order| > 0 {
      var init, dir := order[..|order| - 1], Last(order);
      SeenOfIs(fs, init, path);
      assert order == init + [dir];
      if Listing(fs, dir).Some? {
        EntriesOfIs(dir, Listing(fs, dir).value, path);
      }
    }
  }

  lemma EntriesOfIs(dir: string, names: seq<string>, path: string)
    requires forall name | name in names :: IsName(name)
    ensures path in EntriesOf(dir, names) <==>
              HasParent(path) && Parent(path) == dir && Base(path) in names && !IsDot(Base(path))
  {
    if path in EntriesOf(dir, names) {
      var name :| name in names && !IsDot(name) && path == Join(dir, name);
      JoinParts(dir, name);
    }
    if HasParent(path) {
      PartsJoin(path);
    }
  }

  lemma EntriesGrow(dir: string, names: seq<string>, i: nat)
    requires i < |names| && Distinct(names) && forall name | name in names :: IsName(name)
    ensures EntriesOf(dir, names[..i + 1])
         == EntriesOf(dir, names[..i]) + if IsDot(names[i]) then {} else {Join(dir, names[i])}
    ensures Join(dir, names[i]) !in EntriesOf(dir, names[..i])
  {
    assert names[..i + 1] == names[..i] + [names[i]];
    if Join(dir, names[i]) in EntriesOf(dir, names[..i]) {
      EntriesOfIs(dir, names[..i], Join(dir, names[i]));
      JoinParts(dir, names[i]);
    }
  }

  /** Where the scan stands, by the entries looked at. */
  ghost predicate Scanning(fs: Fs, c: Config, seen: set<string>, order: seq<string>,
                           from: seq<string>, to: seq<string>, dirs: seq<string>)
  {
    Gathers(fs, c, seen, from, to) && NoUpdater(fs, c, seen) && Schedules(fs, c, seen, order, dirs)
  }

  function FilesWith(fs: Fs, c: Config, from: seq<string>, f: string): seq<string> {
    if IsFile(fs, c, f) && f != c.readyFile then from + [f] else from
  }

  function TargetsWith(fs: Fs, c: Config, to: seq<string>, f: string): seq<string>
    requires |f| > |c.updDir|
  {
    if IsFile(fs, c, f) && f != c.readyFile then to + [Target(c, f)] else to
  }

  function DirsWith(fs: Fs, c: Config, dirs: seq<string>, d: string): seq<string> {
    if d in fs.dirs && !Skipped(c, d) then dirs + [d] else dirs
  }

  lemma ScanningStep(fs: Fs, c: Config, seen: set<string>, order: seq<string>,
                     from: seq<string>, to: seq<string>, dirs: seq<string>, f: string)
    requires Scanning(fs, c, seen, order, from, to, dirs) && f !in seen && |f| > |c.updDir|
    requires IsFile(fs, c, f) ==> !IsUpdater(c, f)
    ensures Scanning(fs, c, seen + {f}, order,
                     FilesWith(fs, c, from, f), TargetsWith(fs, c, to, f), DirsWith(fs, c, dirs, f))
  {
    GathersOne(fs, c, seen, from, to, f);
    SchedulesOne(fs, c, seen, order, dirs, f);
  }

  /** One entry: it is skipped, or it waits to be scanned, or it is to be copied, or the update is refused. */
  method LookAt(fs: Fs, c: Config, fname: string, from: seq<string>, to: seq<string>, dirs: seq<string>)
    returns (refused: bool, from': seq<string>, to': seq<string>, dirs': seq<string>)
    requires |fname| > |c.updDir|
    ensures refused <==> IsFile(fs, c, fname) && IsUpdater(c, fname)
    ensures !refused ==> from' == FilesWith(fs, c, from, fname) && to' == TargetsWith(fs, c, to, fname)
    ensures !refused ==> dirs' == DirsWith(fs, c, dirs, fname)
  {
    refused, from', to', dirs' := false, from, to, dirs;
    if HasPrefix(fname, c.Tdata()) && (|fname| <= |c.Tdata()| || fname[|c.Tdata()|] == '/') {
      return;
    }
    if fname in fs.dirs {
      dirs' := dirs' + [fname];
    } else if fname in fs.files {
      var tofname := c.exePath + fname[|c.updDir| + 1..];
      if Equal(tofname, c.updaterName) {
        refused := true;
        return;
      }
      if Equal(tofname, c.exePath + "Telegram") && c.exeName != "Telegram" {
        tofname := c.exePath + c.exeName;
      }
      if fname != c.readyFile {
        from' := from' + [fname];
        to' := to' + [tofname];
      }
    }
  }

  /** Where the scan stands inside a directory. */
  ghost predicate ScanningAt(fs: Fs, c: Config, seen: set<string>, order: seq<string>,
                             dir: string, names: seq<string>, i: nat,
                             from: seq<string>, to: seq<string>, dirs: seq<string>)
    requires i <= |names|
  {
    Scanning(fs, c, seen + EntriesOf(dir, names[..i]), order, from, to, dirs)
  }

  lemma ScanningNext(fs: Fs, c: Config, seen: set<string>, order: seq<string>, dir: string, names: seq<string>, i: nat,
                     from: seq<string>, to: seq<string>, dirs: seq<string>)
    requires i < |names| && Distinct(names) && forall name | name in names :: IsName(name)
    requires Join(dir, names[i]) !in seen && ScanningAt(fs, c, seen, order, dir, names, i, from, to, dirs)
    ensures IsDot(names[i]) ==> ScanningAt(fs, c, seen, order, dir, names, i + 1, from, to, dirs)
    ensures var f := Join(dir, names[i]);
            !IsDot(names[i]) && |f| > |c.updDir| && (IsFile(fs, c, f) ==> !IsUpdater(c, f)) ==>
              ScanningAt(fs, c, seen, order, dir, names, i + 1,
                         FilesWith(fs, c, from, f), TargetsWith(fs, c, to, f), DirsWith(fs, c, dirs, f))
  {
    var f, now := Join(dir, names[i]), seen + EntriesOf(dir, names[..i]);
    EntriesGrow(dir, names, i);
    if IsDot(names[i]) {
      assert seen + EntriesOf(dir, names[..i + 1]) == now;
    } else if |f| > |c.updDir| && (IsFile(fs, c, f) ==> !IsUpdater(c, f)) {
      assert seen + EntriesOf(dir, names[..i + 1]) == now + {f};
      ScanningStep(fs, c, now, order, from, to, dirs, f);
    }
  }

  /** The loop over the entries of one directory; the result is the path of an updater, if there is one. */
  method ScanDir(fs: Fs, c: Config, dir: string, names: seq<string>,
                 from: seq<string>, to: seq<string>, dirs: seq<string>,
                 ghost seen: set<string>, ghost order: seq<string>)
    returns (updater: Option<string>, from': seq<string>, to': seq<string>, dirs': seq<string>)
    requires WellFormed(fs) && InScan(fs, c, dir) && Listing(fs, dir) == Some(names)
    requires forall name | name in names :: Join(dir, name) !in seen
    requires Scanning(fs, c, seen, order, from, to, dirs)
    ensures updater.Some? ==> Seen(fs, c, updater.value) && IsFile(fs, c, updater.value)
    ensures updater.Some? ==> |updater.value| > |c.updDir| && IsUpdater(c, updater.value)
    ensures updater == None ==> Scanning(fs, c, seen + EntriesOf(dir, names), order, from', to', dirs')
  {
    updater, from', to', dirs' := None, from, to, dirs;
    assert seen + EntriesOf(dir, names[..0]) == seen;
    for i := 0 to |names|
      invariant ScanningAt(fs, c, seen, order, dir, names, i, from', to', dirs')
    {
      ScanningNext(fs, c, seen, order, dir, names, i, from', to', dirs');
      if names[i] != "." && names[i] != ".." {
        var fname := dir + "/" + names[i];
        EntryIsSeen(fs, c, dir, names[i]);
        var refused;
        refused, from', to', dirs' := LookAt(fs, c, fname, from', to', dirs');
        if refused {
          updater := Some(fname);
          return;
        }
      }
    }
    assert names[..|names|] == names;
  }

  lemma EntryIsSeen(fs: Fs, c: Config, dir: string, name: string)
    requires WellFormed(fs) && InScan(fs, c, dir) && IsEntry(fs, dir, name)
    ensures Seen(fs, c, Join(dir, name)) && |Join(dir, name)| > |c.updDir|
  {
    JoinParts(dir, name);
    SeenIsBelow(fs, c, Join(dir, name));
  }

  /** Where the scan stands between two directories. */
  ghost predicate Progress(fs: Fs, c: Config, order: seq<string>,
                           from: seq<string>, to: seq<string>, dirs: seq<string>)
  {
    && Scanning(fs, c, SeenOf(fs, order), order, from, to, dirs)
    && (forall d | d in order :: InScan(fs, c, d) && d in fs.dirs && fs.dirs[d].Some?)
    && ParentsFirst(c, order)
  }

  /** A waiting directory was found in one that is scanned already. */
  lemma WaitingIsFound(fs: Fs, c: Config, order: seq<string>,
                       from: seq<string>, to: seq<string>, dirs: seq<string>, d: string)
    requires WellFormed(fs) && Progress(fs, c, order, from, to, dirs) && d in dirs
    ensures d !in order && InScan(fs, c, d)
    ensures d != c.updDir ==> HasParent(d) && Parent(d) in order
  {
    assert d in order + dirs;
    var i :| 0 <= i < |dirs| && dirs[i] == d;
    assert (order + dirs)[|order| + i] == d;
    assert forall j | 0 <= j < |order| :: (order + dirs)[j] == order[j];
    if d != c.updDir {
      SeenOfIs(fs, order, d);
      InScanBelow(fs, c, Parent(d));
      SeenIsBelow(fs, c, d);
    }
  }

  lemma NextFirst(c: Config, order: seq<string>, dir: string)
    requires ParentsFirst(c, order) && dir !in order && (dir != c.updDir ==> HasParent(dir) && Parent(dir) in order)
    ensures ParentsFirst(c, order + [dir])
  {
    DistinctAppend(order, dir);
    var more := order + [dir];
    forall i | 0 <= i < |more| && more[i] != c.updDir
      ensures HasParent(more[i]) && exists j :: 0 <= j < i && more[j] == Parent(more[i])
    {
      if i < |order| {
        assert more[i] == order[i];
        var j :| 0 <= j < i && order[j] == Parent(order[i]);
        assert more[j] == order[j];
      } else {
        var j :| 0 <= j < |order| && order[j] == Parent(dir);
        assert more[j] == order[j];
      }
    }
  }

  lemma NotSeenYet(fs: Fs, order: seq<string>, dir: string)
    requires WellFormed(fs) && dir !in order
    ensures forall name | IsName(name) :: Join(dir, name) !in SeenOf(fs, order)
  {
    forall name | IsName(name)
      ensures Join(dir, name) !in SeenOf(fs, order)
    {
      JoinParts(dir, name);
      SeenOfIs(fs, order, Join(dir, name));
    }
  }

  lemma TakeNext(fs: Fs, c: Config, seen: set<string>, order: seq<string>,
                 from: seq<string>, to: seq<string>, dirs: seq<string>)
    requires Scanning(fs, c, seen, order, from, to, dirs) && dirs != []
    ensures Scanning(fs, c, seen, order + [dirs[0]], from, to, dirs[1..])
  {
    Shift(order, dirs);
  }

  lemma Shift(order: seq<string>, dirs: seq<string>)
    requires dirs != []
    ensures order + [dirs[0]] + dirs[1..] == order + dirs
  {
  }

  lemma NextDir(fs: Fs, c: Config, order: seq<string>, from: seq<string>, to: seq<string>, dirs: seq<string>)
    requires WellFormed(fs) && Progress(fs, c, order, from, to, dirs) && dirs != []
    ensures InScan(fs, c, dirs[0]) && dirs[0] !in order && ParentsFirst(c, order + [dirs[0]])
    ensures Scanning(fs, c, SeenOf(fs, order), order + [dirs[0]], from, to, dirs[1..])
    ensures forall name | IsName(name) :: Join(dirs[0], name) !in SeenOf(fs, order)
  {
    WaitingIsFound(fs, c, order, from, to, dirs, dirs[0]);
    NextFirst(c, order, dirs[0]);
    NotSeenYet(fs, order, dirs[0]);
    TakeNext(fs, c, SeenOf(fs, order), order, from, to, dirs);
  }

  lemma SeenOfNext(fs: Fs, c: Config, order: seq<string>, dir: string)
    requires dir in fs.dirs && fs.dirs[dir].Some?
    ensures SeenOf(fs, order + [dir]) == SeenOf(fs, order) + EntriesOf(dir, fs.dirs[dir].value)
    ensures ForcedOf(c, order + [dir])
         == ForcedOf(c, order) + if |dir| > |c.updDir| + 1 then [ToDir(c, dir)] else []
  {
    assert (order + [dir])[..|order|] == order;
  }

  lemma ScannedAll(fs: Fs, c: Config, order: seq<string>, dir: string)
    requires forall d | d in order :: InScan(fs, c, d) && d in fs.dirs && fs.dirs[d].Some?
    requires InScan(fs, c, dir) && dir in fs.dirs && fs.dirs[dir].Some?
    ensures forall d | d in order + [dir] :: InScan(fs, c, d) && d in fs.dirs && fs.dirs[d].Some?
  {
  }

  lemma DirScanned(fs: Fs, c: Config, order: seq<string>, dir: string, names: seq<string>, forced: seq<string>,
                   from: seq<string>, to: seq<string>, dirs: seq<string>)
    requires forall d | d in order :: InScan(fs, c, d) && d in fs.dirs && fs.dirs[d].Some?
    requires InScan(fs, c, dir) && dir in fs.dirs && fs.dirs[dir] == Some(names) && ParentsFirst(c, order + [dir])
    requires Scanning(fs, c, SeenOf(fs, order) + EntriesOf(dir, names), order + [dir], from, to, dirs)
    requires forced == ForcedOf(c, order) + if |dir| > |c.updDir| + 1 then [ToDir(c, dir)] else []
    ensures Progress(fs, c, order + [dir], from, to, dirs) && forced == ForcedOf(c, order + [dir])
  {
    ScannedAll(fs, c, order, dir);
    SeenOfNext(fs, c, order, dir);
  }

  /** Everything that is to be scanned is scanned when nothing waits any more. */
  lemma {:induction false} AllScanned(fs: Fs, c: Config, order: seq<string>,
                                     from: seq<string>, to: seq<string>, d: string)
    requires WellFormed(fs) && Progress(fs, c, order, from, to, [])
    ensures d in order <==> InScan(fs, c, d)
    decreases |d|
  {
    assert order + [] == order;
    if InScan(fs, c, d) && d != c.updDir {
      AllScanned(fs, c, order, from, to, Parent(d));
      SeenOfIs(fs, order, d);
    }
  }

  lemma AllSeen(fs: Fs, c: Config, order: seq<string>, from: seq<string>, to: seq<string>, f: string)
    requires WellFormed(fs) && Progress(fs, c, order, from, to, [])
    ensures f in SeenOf(fs, order) <==> Seen(fs, c, f)
  {
    SeenOfIs(fs, order, f);
    if HasParent(f) {
      AllScanned(fs, c, order, from, to, Parent(f));
    }
  }

  /** The plan of a scan that went through: every file of the update once, with its target. */
  ghost predicate IsPlan(fs: Fs, c: Config, from: seq<string>, to: seq<string>) {
    && Distinct(from) && |to| == |from|
    && (forall f :: f in from <==> Seen(fs, c, f) && IsFile(fs, c, f) && f != c.readyFile)
    && (forall i | 0 <= i < |from| :: |from[i]| > |c.updDir| && to[i] == Target(c, from[i]))
  }

  /** The directories of the update, each once and each after the one it is in. */
  ghost predicate IsOrder(fs: Fs, c: Config, order: seq<string>) {
    ParentsFirst(c, order) && forall d :: d in order <==> InScan(fs, c, d)
  }

  /** Nothing stands against the update: all its directories can be opened, and none holds an updater. */
  ghost predicate Acceptable(fs: Fs, c: Config) {
    && (forall d | InScan(fs, c, d) :: Listing(fs, d).Some?)
    && (forall f | Seen(fs, c, f) && IsFile(fs, c, f) :: |f| > |c.updDir| && !IsUpdater(c, f))
  }

  lemma ScanEnds(fs: Fs, c: Config, order: seq<string>, from: seq<string>, to: seq<string>)
    requires WellFormed(fs) && Progress(fs, c, order, from, to, [])
    ensures IsPlan(fs, c, from, to) && IsOrder(fs, c, order) && Acceptable(fs, c)
  {
    forall d
      ensures d in order <==> InScan(fs, c, d)
    {
      AllScanned(fs, c, order, from, to, d);
    }
    forall f
      ensures f in SeenOf(fs, order) <==> Seen(fs, c, f)
    {
      AllSeen(fs, c, order, from, to, f);
    }
  }

  ghost predicate Explains(fs: Fs, c: Config, scan: Scan, order: seq<string>) {
    match scan
    case CannotOpen(dir) => InScan(fs, c, dir) && Listing(fs, dir) == None
    case HasUpdater(f) => Seen(fs, c, f) && IsFile(fs, c, f) && |f| > |c.updDir| && IsUpdater(c, f)
    case Plan(from, to, forced) =>
      IsPlan(fs, c, from, to) && IsOrder(fs, c, order) && forced == ForcedOf(c, order) && Acceptable(fs, c)
  }

  lemma CannotOpenExplains(fs: Fs, c: Config, dir: string)
    requires InScan(fs, c, dir) && Listing(fs, dir) == None
    ensures exists order :: Explains(fs, c, CannotOpen(dir), order)
  {
    assert Explains(fs, c, CannotOpen(dir), []);
  }

  lemma HasUpdaterExplains(fs: Fs, c: Config, f: string)
    requires Seen(fs, c, f) && IsFile(fs, c, f) && |f| > |c.updDir| && IsUpdater(c, f)
    ensures exists order :: Explains(fs, c, HasUpdater(f), order)
  {
    assert Explains(fs, c, HasUpdater(f), []);
  }

  lemma PlanExplains(fs: Fs, c: Config, order: seq<string>, from: seq<string>, to: seq<string>)
    requires WellFormed(fs) && Progress(fs, c, order, from, to, [])
    ensures exists order' :: Explains(fs, c, Plan(from, to, ForcedOf(c, order)), order')
  {
    ScanEnds(fs, c, order, from, to);
    assert Explains(fs, c, Plan(from, to, ForcedOf(c, order)), order);
  }

  lemma StartScan(fs: Fs, c: Config)
    ensures Progress(fs, c, [], [], [], [c.updDir])
  {
    assert [] + [c.updDir] == [c.updDir];
  }

  /** The first waiting directory is scanned, and forced unless it is the root; or the scan ends with it. */
  method ScanNext(fs: Fs, c: Config, from: seq<string>, to: seq<string>, dirs: seq<string>, forced: seq<string>,
                  ghost order: seq<string>)
    returns (end: Option<Scan>, from': seq<string>, to': seq<string>, dirs': seq<string>, forced': seq<string>)
    requires WellFormed(fs) && Progress(fs, c, order, from, to, dirs) && forced == ForcedOf(c, order) && dirs != []
    ensures end.Some? ==> exists order :: Explains(fs, c, end.value, order)
    ensures end == None ==> dirs[0] in fs.dirs && dirs[0] !in order
    ensures end == None ==> Progress(fs, c, order + [dirs[0]], from', to', dirs')
    ensures end == None ==> forced' == ForcedOf(c, order + [dirs[0]])
  {
    NextDir(fs, c, order, from, to, dirs);
    end, from', to', dirs', forced' := None, from, to, dirs[1..], forced;
    var dir := dirs[0];
    if |dir| > |c.updDir| + 1 {
      forced' := forced' + [c.exePath + (dir[|c.updDir| + 1..] + "/")];
    }
    if dir !in fs.dirs || fs.dirs[dir] == None {
      CannotOpenExplains(fs, c, dir);
      end := Some(CannotOpen(dir));
      return;
    }
    var names := fs.dirs[dir].value;
    var updater;
    updater, from', to', dirs' := ScanDir(fs, c, dir, names, from', to', dirs', SeenOf(fs, order), order + [dir]);
    if updater.Some? {
      HasUpdaterExplains(fs, c, updater.value);
      end := Some(HasUpdater(updater.value));
      return;
    }
    DirScanned(fs, c, order, dir, names, forced', from', to', dirs');
  }

  /** The worklist over the directories of the update. */
  method ScanUpdate(fs: Fs, c: Config) returns (scan: Scan)
    requires WellFormed(fs)
    ensures exists order :: Explains(fs, c, scan, order)
  {
    var dirs := [c.updDir];
    var from, to, forced: seq<string> := [], [], [];
    ghost var order: seq<string>, done: set<string> := [], {};
    StartScan(fs, c);
    while dirs != []
      invariant Progress(fs, c, order, from, to, dirs) && forced == ForcedOf(c, order)
      invariant forall d :: d in done <==> d in order
      decreases fs.dirs.Keys - done
    {
      ghost var dir := dirs[0];
      var end;
      end, from, to, dirs, forced := ScanNext(fs, c, from, to, dirs, forced, order);
      if end.Some? {
        return end.value;
      }
      assert dir in fs.dirs.Keys && dir !in done;
      order, done := order + [dir], done + {dir};
    }
    PlanExplains(fs, c, order, from, to);
    return Plan(from, to, forced);
  }

  // ---------- what a plan promises ----------

  lemma {:induction false} ForcedIn(c: Config, order: seq<string>, dir: string)
    requires dir in order && |dir| > |c.updDir| + 1
    ensures ToDir(c, dir) in ForcedOf(c, order)
  {
    assert order == order[..|order| - 1] + [Last(order)];
    if dir != Last(order) {
      ForcedIn(c, order[..|order| - 1], dir);
    }
  }

  /** Every target is a name in the install root or in a directory that the update forces. */
  lemma TargetsAreReachable(fs: Fs, c: Config, order: seq<string>, from: seq<string>, to: seq<string>, i: nat)
    returns (dir: string, name: string)
    requires WellFormed(fs) && IsPlan(fs, c, from, to) && IsOrder(fs, c, order) && i < |from| && IsName(c.exeName)
    ensures to[i] == dir + name && IsName(name) && (dir == c.exePath || dir in ForcedOf(c, order))
  {
    var f := from[i];
    assert f in from;
    PlainIsInToDir(fs, c, f);
    if Target(c, f) == Plain(c, f) {
      dir, name := ToDir(c, Parent(f)), Base(f);
      InScanBelow(fs, c, Parent(f));
      assert IsName(name);
      if Parent(f) != c.updDir {
        ForcedIn(c, order, Parent(f));
      }
    } else {
      dir, name := c.exePath, c.exeName;
    }
  }

  lemma {:induction false} ForcedPrefix(c: Config, order: seq<string>, i: nat)
    requires i <= |order|
    ensures ForcedOf(c, order[..i]) <= ForcedOf(c, order)
    decreases |order|
  {
    if i < |order| {
      ForcedPrefix(c, order[..|order| - 1], i);
      assert order[..|order| - 1][..i] == order[..i];
    } else {
      assert order[..i] == order;
    }
  }

  lemma ForcedNext(c: Config, order: seq<string>, i: nat)
    requires i < |order| && |order[i]| > |c.updDir| + 1
    ensures ForcedOf(c, order[..i]) + [ToDir(c, order[i])] <= ForcedOf(c, order)
  {
    assert order[..i + 1][..i] == order[..i] && Last(order[..i + 1]) == order[i];
    ForcedPrefix(c, order, i + 1);
  }

  lemma ParentBefore(c: Config, order: seq<string>, i: nat)
    requires ParentsFirst(c, order) && i < |order| && order[i] != c.updDir
    ensures HasParent(order[i]) && Parent(order[i]) in order[..i]
  {
    var j :| 0 <= j < i && order[j] == Parent(order[i]);
    assert order[..i][j] == Parent(order[i]);
  }

  /** A forced directory comes after the one it is in, unless that is the install root. */
  lemma ForcedAfterParents(fs: Fs, c: Config, order: seq<string>, i: nat)
    requires WellFormed(fs) && IsOrder(fs, c, order) && i < |order| && order[i] != c.updDir
    ensures ForcedOf(c, order[..i]) + [ToDir(c, order[i])] <= ForcedOf(c, order)
    ensures HasParent(order[i]) && ToDir(c, order[i]) == ToDir(c, Parent(order[i])) + Base(order[i]) + "/"
    ensures Parent(order[i]) == c.updDir || ToDir(c, Parent(order[i])) in ForcedOf(c, order[..i])
  {
    var dir := order[i];
    assert dir in order && InScan(fs, c, dir);
    ParentBefore(c, order, i);
    ChildTarget(fs, c, dir);
    ForcedNext(c, order, i);
    if Parent(dir) != c.updDir {
      InScanBelow(fs, c, Parent(dir));
      ForcedIn(c, order[..i], Parent(dir));
    }
  }

  lemma ChildTarget(fs: Fs, c: Config, dir: string)
    requires WellFormed(fs) && InScan(fs, c, dir) && dir != c.updDir
    ensures |dir| > |c.updDir| + 1 && HasParent(dir) && ToDir(c, dir) == ToDir(c, Parent(dir)) + Base(dir) + "/"
  {
    InScanBelow(fs, c, dir);
    InScanBelow(fs, c, Parent(dir));
    PartsJoin(dir);
    assert IsName(Base(dir));
    ToDirOfChild(c, Parent(dir), Base(dir));
  }

  lemma ToDirOfChild(c: Config, dir: string, name: string)
    requires HasPrefix(dir, c.updDir) && name != "" && (dir != c.updDir ==> |dir| > |c.updDir| + 1)
    ensures ToDir(c, Join(dir, name)) == ToDir(c, dir) + name + "/"
  {
    var n := |c.updDir| + 1;
    if dir == c.updDir {
      assert Join(dir, name)[n..] == name;
      Assoc(c.exePath, name, "/");
    } else {
      assert Join(dir, name)[n..] == dir[n..] + "/" + name;
      var d := dir[n..];
      assert c.exePath + (d + "/" + name + "/") == c.exePath + (d + "/") + name + "/";
    }
  }

  /** A file that would be installed as the program: under its released name, or under the name in use. */
  predicate IsProgram(c: Config, path: string)
    requires |path| > |c.updDir|
  {
    || (Equal(Plain(c, path), c.exePath + "Telegram") && c.exeName != "Telegram")
    || Plain(c, path) == c.exePath + c.exeName
  }

  lemma PlainInjective(c: Config, f: string, g: string)
    requires HasPrefix(f, c.updDir + "/") && HasPrefix(g, c.updDir + "/") && Plain(c, f) == Plain(c, g)
    ensures f == g
  {
    var n := |c.updDir| + 1;
    assert f[n..] == Plain(c, f)[|c.exePath|..] && g[n..] == Plain(c, g)[|c.exePath|..];
    assert f == f[..n] + f[n..] && g == g[..n] + g[n..];
  }

  lemma SameTarget(fs: Fs, c: Config, f: string, g: string)
    requires WellFormed(fs) && Seen(fs, c, f) && Seen(fs, c, g) && f != g
    ensures |f| > |c.updDir| && |g| > |c.updDir|
    ensures Target(c, f) == Target(c, g) <==> IsProgram(c, f) && IsProgram(c, g)
  {
    SeenIsBelow(fs, c, f);
    SeenIsBelow(fs, c, g);
    assert f[..|c.updDir| + 1] == c.updDir + "/" && g[..|c.updDir| + 1] == c.updDir + "/";
    if Plain(c, f) == Plain(c, g) {
      PlainInjective(c, f, g);
    }
  }

  /** No two files have the same target exactly if at most one of them becomes the program. */
  lemma TargetsDistinctIff(fs: Fs, c: Config, from: seq<string>, to: seq<string>)
    requires WellFormed(fs) && IsPlan(fs, c, from, to)
    ensures Distinct(to) <==> forall i, j | 0 <= i < j < |from| :: !(IsProgram(c, from[i]) && IsProgram(c, from[j]))
  {
    forall i, j | 0 <= i < j < |from|
      ensures to[i] == to[j] <==> IsProgram(c, from[i]) && IsProgram(c, from[j])
    {
      assert from[i] in from && from[j] in from;
      SameTarget(fs, c, from[i], from[j]);
    }
  }

  /** An update that has the program under its released name and under the name in use, and nothing else. */
  function TwoPrograms(c: Config): Fs {
    Fs(map[c.updDir := Some(["Telegram", c.exeName])], {Join(c.updDir, "Telegram"), Join(c.updDir, c.exeName)})
  }

  /** An installation whose program was renamed, to a name that means nothing else in an update. */
  predicate Renamed(c: Config) {
    && IsName(c.exeName) && !IsDot(c.exeName) && c.exeName !in ["Telegram", "tdata", "ready"]
    && !Equal(c.exePath + "Telegram", c.updaterName) && !Equal(c.exePath + c.exeName, c.updaterName)
  }

  lemma TwoProgramsScan(c: Config)
    requires Renamed(c)
    ensures WellFormed(TwoPrograms(c)) && IsOrder(TwoPrograms(c), c, [c.updDir])
    ensures IsEntry(TwoPrograms(c), c.updDir, "Telegram") && IsEntry(TwoPrograms(c), c.updDir, c.exeName)
  {
    assert forall d :: InScan(TwoPrograms(c), c, d) <==> d == c.updDir;
  }

  lemma ProgramOfUpdate(c: Config, name: string)
    requires Renamed(c) && (name == "Telegram" || name == c.exeName)
    ensures var path := Join(c.updDir, name);
            && Seen(TwoPrograms(c), c, path) && IsFile(TwoPrograms(c), c, path) && |path| > |c.updDir|
            && Target(c, path) == c.exePath + c.exeName && !IsUpdater(c, path)
  {
    var path := Join(c.updDir, name);
    TwoProgramsScan(c);
    EntryIsSeen(TwoPrograms(c), c, c.updDir, name);
    SkippedIsTdata(TwoPrograms(c), c, c.updDir, name);
    assert path[|c.updDir| + 1..] == name;
  }

  /** Neither is the marker, whose name is ready. */
  lemma NotTheMarker(c: Config, dir: string, name: string)
    requires Renamed(c) && (name == "Telegram" || name == c.exeName) && c.readyFile == Join(dir, "ready")
    ensures Join(c.updDir, name) != c.readyFile
  {
    JoinParts(c.updDir, name);
    JoinParts(dir, "ready");
  }

  lemma MarkerIsReady(workDir: string)
    ensures workDir + "tupdates/temp/ready" == Join(workDir + "tupdates/temp", "ready")
  {
    assert "tupdates/temp/ready" == "tupdates/temp" + "/ready" && "/ready" == "/" + "ready";
    Assoc(workDir, "tupdates/temp", "/ready");
    Assoc(workDir + "tupdates/temp", "/", "ready");
  }

  lemma TwoProgramsPlan(c: Config, dir: string, f: string, g: string, to: string)
    requires Renamed(c) && c.readyFile == Join(dir, "ready")
    requires f == Join(c.updDir, "Telegram") && g == Join(c.updDir, c.exeName) && to == c.exePath + c.exeName
    ensures IsPlan(TwoPrograms(c), c, [f, g], [to, to]) && Acceptable(TwoPrograms(c), c)
  {
    TwoProgramsScan(c);
    ProgramOfUpdate(c, "Telegram");
    ProgramOfUpdate(c, c.exeName);
    NotTheMarker(c, dir, "Telegram");
    NotTheMarker(c, dir, c.exeName);
    JoinParts(c.updDir, "Telegram");
    JoinParts(c.updDir, c.exeName);
    assert forall path :: path in [f, g] <==> path in TwoPrograms(c).files;
  }

  /** The plan for it copies two files to the same place, the second over the first. */
  lemma SameTargetTwice(workDir: string, readyOpens: bool, exePath: string, exeName: string, updaterName: string)
    returns (scan: Scan)
    requires Renamed(ConfigOf(workDir, readyOpens, exePath, exeName, updaterName))
    ensures var c := ConfigOf(workDir, readyOpens, exePath, exeName, updaterName);
            && WellFormed(TwoPrograms(c)) && Explains(TwoPrograms(c), c, scan, [c.updDir])
            && scan == Plan([Join(c.updDir, "Telegram"), Join(c.updDir, exeName)],
                            [exePath + exeName, exePath + exeName], [])
  {
    var c := ConfigOf(workDir, readyOpens, exePath, exeName, updaterName);
    var f, g, to := Join(c.updDir, "Telegram"), Join(c.updDir, exeName), exePath + exeName;
    MarkerIsReady(workDir);
    TwoProgramsScan(c);
    TwoProgramsPlan(c, workDir + "tupdates/temp", f, g, to);
    assert ForcedOf(c, [c.updDir]) == [] by {
      assert [c.updDir][..0] == [];
    }
    scan := Plan([f, g], [to, to], []);
  }

  /** For example, a program installed in e/ that was renamed to Tg. */
  lemma SameTargetExample()
    ensures Renamed(ConfigOf("w/", true, "e/", "Tg", "e/Updater"))
  {
    assert |"e/" + "Telegram"| != |"e/Updater"| && |"e/" + "Tg"| != |"e/Updater"|;
    assert |Lowered("e/" + "Telegram")| != |Lowered("e/Updater")|;
    assert |Lowered("e/" + "Tg")| != |Lowered("e/Updater")|;
    assert |"Tg"| == 2 && "Tg"[0] == 'T' && "Tg"[1] == 'g';
  }

  // ---------- making a path ----------

  /** A slash that ends a component: not the root's, and not a second one. */
  predicate EndsComponent(path: string, k: nat)
    requires k < |path|
  {
    path[k] == '/' && k > 0 && path[k - 1] != '/'
  }

  /** The directories above a path, down to some place in it, outermost first. */
  function Above(path: string, k: nat): seq<string>
    requires k <= |path|
  {
    if k == 0 then [] else Above(path, k - 1) + if EndsComponent(path, k - 1) then [path[..k - 1]] else []
  }

  /** Everything that is made for a path, in order. */
  function Steps(path: string): seq<string> {
    Above(path, |path|) + [path]
  }

  /** The string that ends at the first zero of a buffer. */
  function Terminated(buffer: seq<char>): string {
    if buffer == [] || buffer[0] == '\0' then "" else [buffer[0]] + Terminated(buffer[1..])
  }

  lemma {:induction false} TerminatedIs(s: string, rest: seq<char>)
    requires '\0' !in s
    ensures Terminated(s + ['\0'] + rest) == s
  {
    if s != "" {
      assert (s + ['\0'] + rest)[1..] == s[1..] + ['\0'] + rest;
      TerminatedIs(s[1..], rest);
    }
  }

  /** Where the next slash is, or the end of the string. */
  method FindSlash(buffer: array<char>, start: nat, ghost path: string) returns (k: nat)
    requires buffer[..] == path + ['\0'] && '\0' !in path && start <= |path|
    ensures start <= k <= |path| && (k < |path| ==> path[k] == '/') && forall j | start <= j < k :: path[j] != '/'
  {
    k := start;
    assert forall j | 0 <= j < |path| :: buffer[j] == path[j];
    while buffer[k] != '\0' && buffer[k] != '/'
      invariant start <= k <= |path| && forall j | start <= j < k :: path[j] != '/'
      decreases |path| - k
    {
      k := k + 1;
    }
  }

  lemma {:induction false} AboveSkips(path: string, start: nat, k: nat)
    requires start <= k <= |path| && forall j | start <= j < k :: path[j] != '/'
    ensures Above(path, k) == Above(path, start)
  {
    if start < k {
      AboveSkips(path, start, k - 1);
    }
  }

  /** Makes the directory that ends at a slash: the buffer is cut there, and mended if that worked. */
  method MakeCut(buffer: array<char>, k: nat, ghost path: string, canMake: string -> bool)
    returns (ok: bool, dir: string)
    requires buffer[..] == path + ['\0'] && '\0' !in path && k < |path| && path[k] == '/'
    modifies buffer
    ensures dir == path[..k] && ok == canMake(dir)
    ensures ok ==> buffer[..] == path + ['\0']
  {
    buffer[k] := '\0';
    CutAt(buffer[..], path, k);
    dir := Terminated(buffer[..]);
    ok := canMake(dir);
    if ok {
      buffer[k] := '/';
      assert buffer[..] == path + ['\0'];
    }
  }

  lemma StepAt(path: string, k: nat)
    requires k < |path| && EndsComponent(path, k)
    ensures Above(path, k) + [path[..k]] <= Steps(path)
  {
    AbovePrefix(path, k + 1, |path|);
  }

  /**
   * Makes every directory above the path and then the path, slash by slash; stops at the first that cannot be made.
   */
  method MkPath(path: string, canMake: string -> bool) returns (ok: bool, made: seq<string>)
    requires '\0' !in path
    ensures forall dir | dir in made :: canMake(dir)
    ensures ok ==> made == Steps(path)
    ensures !ok ==> made < Steps(path) && !canMake(Steps(path)[|made|])
  {
    var copypath := new char[|path| + 1](i requires 0 <= i <= |path| => if i < |path| then path[i] else '\0');
    assert copypath[..] == path + ['\0'];
    made := [];
    var pp := 0;
    var sp := FindSlash(copypath, pp, path);
    while copypath[sp] != '\0'
      invariant pp <= sp <= |path| && copypath[..] == path + ['\0']
      invariant pp > 0 ==> path[pp - 1] == '/'
      invariant (sp < |path| ==> path[sp] == '/') && forall j | pp <= j < sp :: path[j] != '/'
      invariant made == Above(path, pp) && forall dir | dir in made :: canMake(dir)
      decreases |path| - sp
    {
      AboveSkips(path, pp, sp);
      if sp != pp {
        StepAt(path, sp);
        var dir;
        ok, dir := MakeCut(copypath, sp, path, canMake);
        if !ok {
          return;
        }
        made := made + [dir];
      }
      pp := sp + 1;
      sp := FindSlash(copypath, pp, path);
    }
    AboveSkips(path, pp, |path|);
    ok := canMake(path);
    if ok {
      made := made + [path];
    }
  }

  lemma CutAt(buffer: seq<char>, path: string, k: nat)
    requires k < |path| && '\0' !in path && buffer == (path + ['\0'])[k := '\0']
    ensures Terminated(buffer) == path[..k]
  {
    assert buffer == path[..k] + ['\0'] + buffer[k + 1..];
    TerminatedIs(path[..k], buffer[k + 1..]);
  }

  lemma {:induction false} AbovePrefix(path: string, k: nat, n: nat)
    requires k <= n <= |path|
    ensures Above(path, k) <= Above(path, n)
  {
    if k < n {
      AbovePrefix(path, k, n - 1);
    }
  }

  /** Outermost first: each step is a part of the next, from its beginning. */
  ghost predicate Inward(steps: seq<string>) {
    forall i, j | 0 <= i < j < |steps| :: steps[i] < steps[j]
  }

  lemma InwardAppend(steps: seq<string>, dir: string)
    requires Inward(steps) && forall d | d in steps :: d < dir
    ensures Inward(steps + [dir])
  {
    forall i, j | 0 <= i < j < |steps| + 1
      ensures (steps + [dir])[i] < (steps + [dir])[j]
    {
      assert (steps + [dir])[i] == steps[i] && steps[i] in steps;
    }
  }

  lemma {:induction false} AboveInward(path: string, k: nat)
    requires k <= |path|
    ensures Inward(Above(path, k)) && forall dir | dir in Above(path, k) :: dir < path[..k]
    decreases k
  {
    if k > 0 {
      AboveInward(path, k - 1);
      assert path[..k - 1] < path[..k];
      var above := Above(path, k - 1);
      InwardAppend(above, path[..k - 1]);
      assert above + [] == above;
      forall dir | dir in Above(path, k)
        ensures dir < path[..k]
      {
        assert dir in above || dir == path[..k - 1];
      }
    }
  }

  lemma {:induction false} AboveAreAbove(path: string, k: nat)
    requires k <= |path|
    ensures forall dir | dir in Above(path, k) ::
              exists j :: 0 < j < k && path[j] == '/' && path[j - 1] != '/' && dir == path[..j]
    decreases k
  {
    if k > 0 {
      AboveAreAbove(path, k - 1);
    }
  }

  /** The steps are every directory above the path, in order, and the path as the last of them. */
  lemma StepsAreAll(path: string)
    ensures Inward(Steps(path)) && Steps(path)[|Steps(path)| - 1] == path
    ensures forall k | 0 < k < |path| && path[k] == '/' && path[k - 1] != '/' :: path[..k] in Steps(path)
    ensures forall dir | dir in Steps(path) && dir != path ::
              exists k :: 0 < k < |path| && path[k] == '/' && path[k - 1] != '/' && dir == path[..k]
  {
    AboveInward(path, |path|);
    assert path[..|path|] == path;
    InwardAppend(Above(path, |path|), path);
    forall k | 0 < k < |path| && path[k] == '/' && path[k - 1] != '/'
      ensures path[..k] in Steps(path)
    {
      StepsFromOutside(path, |path|, k);
    }
    AboveAreAbove(path, |path|);
  }

  /** Whatever is above a step, at the end of one of its components, is made before it. */
  lemma {:induction false} StepsFromOutside(path: string, k: nat, j: nat)
    requires j < k <= |path| && EndsComponent(path, j)
    ensures path[..j] in Above(path, k)
    decreases k
  {
    if j < k - 1 {
      StepsFromOutside(path, k - 1, j);
    }
  }

  // ---------- the update ----------

  /** The unpacked update lies in one of two places; a marker says whether it is the newer one. */
  function ConfigOf(workDir: string, readyOpens: bool, exePath: string, exeName: string, updaterName: string): Config {
    Config(workDir + (if readyOpens then "tupdates/temp" else "tupdates/ready"), workDir + "tupdates/temp/ready",
           exePath, exeName, updaterName)
  }

  /** Everything the scan speaks of lies in the directory, or is it. */
  ghost predicate LiesIn(scan: Scan, root: string) {
    match scan
    case CannotOpen(dir) => dir == root || HasPrefix(dir, root + "/")
    case HasUpdater(path) => HasPrefix(path, root + "/")
    case Plan(from, _, _) => forall f | f in from :: HasPrefix(f, root + "/")
  }

  lemma BelowHasPrefix(root: string, path: string)
    requires |path| > |root| && HasPrefix(path, root) && path[|root|] == '/'
    ensures HasPrefix(path, root + "/")
  {
    assert path[..|root| + 1] == root + "/";
  }

  lemma SeenHasPrefix(fs: Fs, c: Config, path: string)
    requires WellFormed(fs) && Seen(fs, c, path)
    ensures HasPrefix(path, c.updDir + "/")
  {
    SeenIsBelow(fs, c, path);
    BelowHasPrefix(c.updDir, path);
  }

  lemma ScanLiesIn(fs: Fs, c: Config, scan: Scan, order: seq<string>)
    requires WellFormed(fs) && Explains(fs, c, scan, order)
    ensures LiesIn(scan, c.updDir) && (scan.Plan? ==> c.readyFile !in scan.from)
  {
    match scan
    case CannotOpen(dir) =>
      InScanBelow(fs, c, dir);
      if dir != c.updDir {
        BelowHasPrefix(c.updDir, dir);
      }
    case HasUpdater(path) => SeenHasPrefix(fs, c, path);
    case Plan(from, _, _) =>
      forall f | f in from
        ensures HasPrefix(f, c.updDir + "/")
      {
        SeenHasPrefix(fs, c, f);
      }
  }

  function Pairs(from: seq<string>, to: seq<string>): (pairs: seq<(string, string)>)
    requires |to| == |from|
    ensures |pairs| == |from|
  {
    seq(|from|, i requires 0 <= i < |from| => (from[i], to[i]))
  }

  lemma {:induction false} NoZeros(fs: Fs, c: Config, dir: string)
    requires WellFormed(fs) && InScan(fs, c, dir)
    ensures |dir| >= |c.updDir| && '\0' !in dir[|c.updDir|..]
    decreases |dir|
  {
    if dir != c.updDir {
      var up := Parent(dir);
      NoZeros(fs, c, up);
      PartsJoin(dir);
      assert IsName(Base(dir));
      assert dir[|c.updDir|..] == up[|c.updDir|..] + "/" + Base(dir);
    }
  }

  lemma {:induction false} ForcedPlain(fs: Fs, c: Config, order: seq<string>)
    requires WellFormed(fs) && '\0' !in c.exePath && forall d | d in order :: InScan(fs, c, d)
    ensures forall d | d in ForcedOf(c, order) :: '\0' !in d
  {
    if |order| > 0 {
      assert order == order[..|order| - 1] + [Last(order)];
      ForcedPlain(fs, c, order[..|order| - 1]);
      var dir := Last(order);
      NoZeros(fs, c, dir);
      if |dir| > |c.updDir| + 1 {
        assert dir[|c.updDir|..][1..] == dir[|c.updDir| + 1..];
      }
    }
  }

  method ForceDirs(forced: seq<string>, canMake: string -> bool) returns (ok: bool)
    requires forall d | d in forced :: '\0' !in d
    ensures ok ==> forall d, step | d in forced && step in Steps(d) :: canMake(step)
    ensures !ok ==> exists d, step :: d in forced && step in Steps(d) && !canMake(step)
  {
    for i := 0 to |forced|
      invariant forall d, step | d in forced[..i] && step in Steps(d) :: canMake(step)
    {
      var made;
      ok, made := MkPath(forced[i], canMake);
      if !ok {
        assert Steps(forced[i])[|made|] in Steps(forced[i]);
        return;
      }
      assert forced[..i + 1] == forced[..i] + [forced[i]];
    }
    assert forced[..|forced|] == forced;
    ok := true;
  }

  method CopyFiles(from: seq<string>, to: seq<string>, canWrite: string -> bool)
    returns (ok: bool, copies: seq<(string, string)>)
    requires |to| == |from|
    ensures |copies| <= |from| && copies == Pairs(from, to)[..|copies|]
    ensures forall i | 0 <= i < |copies| :: canWrite(to[i])
    ensures ok ==> |copies| == |from|
    ensures !ok ==> |copies| < |from| && !canWrite(to[|copies|])
  {
    copies := [];
    for i := 0 to |from|
      invariant |copies| == i && copies == Pairs(from, to)[..i] && forall k | 0 <= k < i :: canWrite(to[k])
    {
      if !canWrite(to[i]) {
        return false, copies;
      }
      copies := copies + [(from[i], to[i])];
    }
    ok := true;
  }

  /**
   * The whole update: nothing is copied unless the scan accepts the tree and all directories are made; then the files
   * are copied in the order of the scan, up to the first that cannot be written. Where directories and files can be
   * written is the business of the system. The unpacked update is cleared away unless the scan could not read it.
   */
  method Update(fs: Fs, workDir: string, readyOpens: bool, exePath: string, exeName: string, updaterName: string,
                canMake: string -> bool, canWrite: string -> bool)
    returns (ok: bool, copies: seq<(string, string)>, cleared: bool, scan: Scan)
    requires WellFormed(fs) && '\0' !in exePath
    ensures exists order :: Explains(fs, ConfigOf(workDir, readyOpens, exePath, exeName, updaterName), scan, order)
    ensures readyOpens ==> LiesIn(scan, workDir + "tupdates/temp")
    ensures !readyOpens ==> LiesIn(scan, workDir + "tupdates/ready")
    ensures scan.Plan? ==> workDir + "tupdates/temp/ready" !in scan.from
    ensures !scan.Plan? ==> !ok && copies == []
    ensures cleared <==> !scan.CannotOpen?
    ensures scan.Plan? ==> |scan.to| == |scan.from| && |copies| <= |scan.from|
    ensures scan.Plan? ==> copies == Pairs(scan.from, scan.to)[..|copies|]
    ensures ok ==> scan.Plan? && |copies| == |scan.from|
    ensures ok ==> forall d, step | d in scan.forced && step in Steps(d) :: canMake(step)
    ensures scan.Plan? && !ok ==>
              || (copies == [] && exists d, step :: d in scan.forced && step in Steps(d) && !canMake(step))
              || (|copies| < |scan.from| && !canWrite(scan.to[|copies|]))
  {
    var readyFilePath := workDir + "tupdates/temp/ready";
    var updDir := workDir + (if readyOpens then "tupdates/temp" else "tupdates/ready");
    var c := Config(updDir, readyFilePath, exePath, exeName, updaterName);
    scan := ScanUpdate(fs, c);
    ghost var order :| Explains(fs, c, scan, order);
    assert Explains(fs, ConfigOf(workDir, readyOpens, exePath, exeName, updaterName), scan, order);
    ScanLiesIn(fs, c, scan, order);
    ok, copies, cleared := false, [], false;
    match scan {
      case CannotOpen(dir) =>
      case HasUpdater(path) => cleared := true;
      case Plan(from, to, forced) =>
        cleared := true;
        ForcedPlain(fs, c, order);
        ok := ForceDirs(forced, canMake);
        if ok {
          ok, copies := CopyFiles(from, to, canWrite);
        }
    }
  }

  /** There is a plan exactly for an update whose directories can all be opened and hold no updater. */
  lemma UnacceptableIsRefused(fs: Fs, c: Config, scan: Scan, order: seq<string>)
    requires WellFormed(fs) && Explains(fs, c, scan, order)
    ensures scan.Plan? <==> Acceptable(fs, c)
  {
  }
}
