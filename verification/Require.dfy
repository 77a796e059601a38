/**
 Loading Lua files through the daemon: package.preload entries for every project file, the loader
 they point to, the searcher for files outside the project, and Lua's own require, which calls
 them back while a chunk runs.  The dependency graph is arbitrary and may be cyclic.
 */
module Require {

  datatype Value = Nil | False | Other

  // What matters of a running chunk: the modules it requires and the points where the debugger
  // suspends it (and whether it is told to abort there).
  datatype Stmt = Require(name: string) | Suspend(abort: bool)

  // what follows the last dot of a file name
  type Ext = s: string | '.' !in s

  datatype NetFile = NetFile(name: string, ext: Ext, wellFormed: bool, code: seq<Stmt>, result: Value)

  // what a name outside package.preload leads to: a Lua file or a C library on the daemon's disk
  datatype DiskFile = LuaFile(ext: Ext, value: Value) | CLibrary(value: Value)

  // history: one entry per file put in the notification queue
  datatype Load = Project(name: string, ext: Ext) | OffProject(name: string, ext: Ext)

  datatype Status = Completed | Raised | Crashed   // Crashed: the assertion after a load error

  function Filename(l: Load): string {
    l.name + "." + l.ext
  }

  function Filenames(loads: seq<Load>): (s: seq<string>)
    ensures |s| == |loads|
  {
    seq(|loads|, i requires 0 <= i < |loads| => Filename(loads[i]))
  }

  function ShortFilename(f: NetFile): string {
    f.name + "." + f.ext
  }

  // An extension is what follows the last dot, so the short file name tells files apart.
  lemma ShortFilenameInjective(f: NetFile, g: NetFile)
    requires ShortFilename(f) == ShortFilename(g)
    ensures f.name == g.name && f.ext == g.ext
  {
    var s, i, j := ShortFilename(f), |f.name|, |g.name|;
    LastDot(f.name, f.ext, s);
    LastDot(g.name, g.ext, s);
    assert i == j;
    assert f.name == s[..i] == g.name && f.ext == s[i + 1..] == g.ext;
  }

  lemma LastDot(name: string, ext: Ext, s: string)
    requires s == name + "." + ext
    ensures s[|name|] == '.' && forall k :: |name| < k < |s| ==> s[k] != '.'
  {
    forall k | |name| < k < |s| ensures s[k] != '.' {
      assert s[k] == ext[k - |name| - 1];
    }
  }

  type Project = map<string, NetFile>

  predicate ProjectOk(p: Project) {
    forall m | m in p :: p[m].name == m
  }

  predicate DistinctNames(files: seq<NetFile>, n: nat)
    requires n <= |files|
  {
    forall i, j :: 0 <= i < j < n ==> files[i].name != files[j].name
  }

  // the map has the first n files, each under its name, and nothing else
  ghost predicate Holds(p: Project, files: seq<NetFile>, n: nat)
    requires n <= |files|
  {
    && (forall i :: 0 <= i < n ==> files[i].name in p && p[files[i].name] == files[i])
    && (forall m | m in p :: exists i :: 0 <= i < n && files[i] == p[m] && files[i].name == m)
  }

  lemma NextFile(p: Project, files: seq<NetFile>, n: nat)
    requires n < |files| && DistinctNames(files, n) && Holds(p, files, n)
    ensures files[n].name in p <==> !DistinctNames(files, n + 1)
    ensures files[n].name in p ==> !DistinctNames(files, |files|)
    ensures files[n].name !in p ==> Holds(p[files[n].name := files[n]], files, n + 1)
  {
  }

  // ---------------------------------------------------------------- reachability

  predicate Requires(code: seq<Stmt>, m: string) {
    Require(m) in code
  }

  // a chain of requires through project files
  predicate IsPath(p: Project, path: seq<string>) {
    && path != []
    && (forall i :: 0 <= i < |path| ==> path[i] in p)
    && (forall i :: 0 <= i < |path| - 1 ==> Requires(p[path[i]].code, path[i + 1]))
  }

  predicate StartsAt(path: seq<string>, roots: set<string>) {
    path != [] && path[0] in roots
  }

  ghost predicate Reachable(p: Project, roots: set<string>, m: string) {
    exists path :: IsPath(p, path) && StartsAt(path, roots) && path[|path| - 1] == m
  }

  // every project file a member requires is a member
  predicate ClosedIn(p: Project, s: set<string>) {
    forall m, n | m in s && m in p && n in p && Requires(p[m].code, n) :: n in s
  }

  lemma ReachableClosed(p: Project, roots: set<string>, s: set<string>)
    requires s == set m | m in p && Reachable(p, roots, m)
    ensures ClosedIn(p, s)
    ensures forall m | m in roots && m in p :: m in s
  {
    forall m, n | m in s && m in p && n in p && Requires(p[m].code, n) ensures n in s {
      var path :| IsPath(p, path) && StartsAt(path, roots) && path[|path| - 1] == m;
      var longer := path + [n];
      assert IsPath(p, longer) && StartsAt(longer, roots) && longer[|longer| - 1] == n;
    }
    forall m | m in roots && m in p ensures m in s {
      assert IsPath(p, [m]) && StartsAt([m], roots) && [m][|[m]| - 1] == m;
    }
  }

  lemma {:induction false} PathStaysIn(p: Project, s: set<string>, path: seq<string>)
    requires ClosedIn(p, s) && IsPath(p, path) && path[0] in s
    ensures path[|path| - 1] in s
  {
    if |path| > 1 {
      assert Requires(p[path[0]].code, path[1]);
      PathStaysIn(p, s, path[1..]);
    }
  }

  // Reachable is the least closed set that holds the roots.
  lemma ReachableLeast(p: Project, roots: set<string>, s: set<string>)
    requires ClosedIn(p, s) && forall m | m in roots && m in p :: m in s
    ensures forall m | Reachable(p, roots, m) :: m in s
  {
    forall m | Reachable(p, roots, m) ensures m in s {
      var path :| IsPath(p, path) && StartsAt(path, roots) && path[|path| - 1] == m;
      PathStaysIn(p, s, path);
    }
  }

  // ---------------------------------------------------------------- histories

  ghost predicate OncePerFile(loads: seq<Load>) {
    forall i, j :: 0 <= i < j < |loads| && loads[i].Project? ==> loads[j] != loads[i]
  }

  // which project files the history holds, and when a project name was looked for on disk
  ghost predicate Records(p: Project, pending: set<string>, loads: seq<Load>) {
    && OncePerFile(loads)
    && (forall m | m in p :: Project(m, p[m].ext) in loads <==> m !in pending)
    && (forall l | l in loads :: (l.Project? ==> l.name in p && l.ext == p[l.name].ext)
                                 && (l.OffProject? && l.name in p ==> l.name !in pending && p[l.name].result == False))
  }

  // the client is told of a file by the name at position i
  predicate TellsAt(loads: seq<Load>, i: nat, filename: string) {
    i < |loads| && Filename(loads[i]) == filename
  }

  // two positions tell of the same file
  ghost predicate ToldTwice(loads: seq<Load>, filename: string) {
    exists i: nat, j: nat :: i < j && TellsAt(loads, i, filename) && TellsAt(loads, j, filename)
  }

  // The client is told of a project file if and only if it was instantiated, and told again if and
  // only if Lua, after the chunk returned false, found a file of that very name outside the project
  // (at every further require).
  lemma ToldTwiceIff(p: Project, pending: set<string>, loads: seq<Load>, m: string)
    requires ProjectOk(p) && Records(p, pending, loads) && m in p
    ensures m !in pending <==> exists i: nat :: TellsAt(loads, i, ShortFilename(p[m]))
    ensures ToldTwice(loads, ShortFilename(p[m])) <==> OffProject(m, p[m].ext) in loads
  {
    var told, first, again := ShortFilename(p[m]), Project(m, p[m].ext), OffProject(m, p[m].ext);
    forall i: nat | TellsAt(loads, i, told) ensures loads[i] in [first, again] {
      TellsOf(p, loads, i, m);
    }
    if m !in pending {
      var i: nat :| i < |loads| && loads[i] == first;
      assert TellsAt(loads, i, told);
      if again in loads {
        var j: nat :| j < |loads| && loads[j] == again;
        assert TellsAt(loads, j, told);
      }
    } else {
      assert first !in loads && again !in loads;
    }
  }

  lemma TellsOf(p: Project, loads: seq<Load>, i: nat, m: string)
    requires ProjectOk(p) && m in p && TellsAt(loads, i, ShortFilename(p[m]))
    ensures loads[i] == Project(m, p[m].ext) || loads[i] == OffProject(m, p[m].ext)
  {
    ShortFilenameInjective(NetFile(loads[i].name, loads[i].ext, true, [], Nil), p[m]);
  }

  lemma RecordProject(p: Project, pending: set<string>, loads: seq<Load>, m: string)
    requires ProjectOk(p) && Records(p, pending, loads) && m in p && m in pending
    ensures Records(p, pending - {m}, loads + [Project(m, p[m].ext)])
  {
    var l := Project(m, p[m].ext);
    assert l !in loads;
    var after := loads + [l];
    forall k | k in p ensures Project(k, p[k].ext) in after <==> k !in pending - {m} {
      assert Project(k, p[k].ext) in after <==> Project(k, p[k].ext) in loads || k == m;
    }
  }

  lemma RecordOffProject(p: Project, pending: set<string>, loads: seq<Load>, m: string, ext: Ext)
    requires ProjectOk(p) && Records(p, pending, loads) && (m in p ==> m !in pending && p[m].result == False)
    ensures Records(p, pending, loads + [OffProject(m, ext)])
  {
    var after := loads + [OffProject(m, ext)];
    forall k | k in p ensures Project(k, p[k].ext) in after <==> Project(k, p[k].ext) in loads {
    }
  }

  lemma FilenamesAppend(loads: seq<Load>, l: Load, sent: seq<string>, queue: seq<string>)
    requires sent + queue == Filenames(loads)
    ensures sent + (queue + [Filename(l)]) == Filenames(loads + [l])
  {
    assert sent + (queue + [Filename(l)]) == (sent + queue) + [Filename(l)];
  }

  // ---------------------------------------------------------------- package tables

  type Disk = map<string, DiskFile>

  // package.preload, package.loaded and the set of instantiated files tell the same story
  ghost predicate Tables(p: Project, disk: Disk, pending: set<string>, loaded: map<string, bool>, instantiated: set<string>) {
    && ProjectOk(p)
    && pending <= p.Keys
    && instantiated == (set m | m in p && m !in pending :: ShortFilename(p[m]))
    && (forall m | m in p && m !in pending :: p[m].wellFormed && m in loaded && (!loaded[m] ==> p[m].result == False))
    && (forall m | m in loaded :: m !in pending && (m in p || m in disk))
  }

  lemma TablesInstantiated(p: Project, disk: Disk, pending: set<string>, loaded: map<string, bool>, instantiated: set<string>, m: string)
    requires Tables(p, disk, pending, loaded, instantiated) && m in pending
    ensures p[m].wellFormed ==> Tables(p, disk, pending - {m}, loaded[m := true], instantiated + {ShortFilename(p[m])})
    ensures ShortFilename(p[m]) !in instantiated
  {
    forall k | k in p && k !in pending ensures ShortFilename(p[k]) != ShortFilename(p[m]) {
      if ShortFilename(p[k]) == ShortFilename(p[m]) { ShortFilenameInjective(p[k], p[m]); }
    }
  }

  // the files of the project that "code" requires have been instantiated
  ghost predicate RequiresMet(p: Project, pending: set<string>, code: seq<Stmt>) {
    forall n | n in p && Requires(code, n) :: n !in pending
  }

  // A require that can be answered every time it is asked, and no wish to abort.  A project file
  // that returns false is looked for on disk the next time.
  predicate QuietStmt(p: Project, disk: Disk, s: Stmt) {
    match s
    case Require(n) => n in disk || (n in p && p[n].result != False)
    case Suspend(abort) => !abort
  }

  predicate Quiet(p: Project, disk: Disk, code: seq<Stmt>) {
    forall i :: 0 <= i < |code| ==> QuietStmt(p, disk, code[i])
  }

  // the same for requires asked once
  predicate AnswerableStmt(p: Project, disk: Disk, s: Stmt) {
    match s
    case Require(n) => n in disk || n in p
    case Suspend(abort) => !abort
  }

  predicate Answerable(p: Project, disk: Disk, code: seq<Stmt>) {
    forall i :: 0 <= i < |code| ==> AnswerableStmt(p, disk, code[i])
  }

  ghost predicate AllQuiet(p: Project, disk: Disk, reach: set<string>) {
    forall m | m in p && m in reach :: Quiet(p, disk, p[m].code)
  }

  ghost predicate AllWellFormed(p: Project, reach: set<string>) {
    forall m | m in p && m in reach :: p[m].wellFormed
  }

  // every instantiated file not in "running" has had its requires answered
  ghost predicate Done(p: Project, disk: Disk, pending: set<string>, running: set<string>) {
    forall m | m in p && m !in pending && m !in running ::
      RequiresMet(p, pending, p[m].code) && Answerable(p, disk, p[m].code)
  }

  lemma DoneLater(p: Project, disk: Disk, pending: set<string>, running: set<string>, m: string)
    requires Done(p, disk, pending, running)
    ensures Done(p, disk, pending - {m}, running + {m})
  {
    forall k | k in p && k !in pending - {m} && k !in running + {m}
      ensures RequiresMet(p, pending - {m}, p[k].code) && Answerable(p, disk, p[k].code)
    {
      assert RequiresMet(p, pending, p[k].code);
    }
  }

  // between two moments, k was not looked for on disk again
  ghost predicate NotAskedAgain(before: seq<Load>, after: seq<Load>, k: string) {
    forall ext: Ext :: OffProject(k, ext) in after ==> OffProject(k, ext) in before
  }

  // what is loaded stays so and is not looked for again
  ghost predicate LoadedStay(l0: map<string, bool>, h0: seq<Load>, l1: map<string, bool>, h1: seq<Load>) {
    forall k | k in l0 && l0[k] :: k in l1 && l1[k] && NotAskedAgain(h0, h1, k)
  }

  lemma ProjectStays(loaded: map<string, bool>, loads: seq<Load>, m: string, ext: Ext)
    requires m !in loaded
    ensures LoadedStay(loaded, loads, loaded[m := true], loads + [Project(m, ext)])
  {
  }

  // one more statement has been answered
  lemma NextAnswered(p: Project, disk: Disk, before: set<string>, after: set<string>, code: seq<Stmt>, i: nat)
    requires i < |code| && after <= before
    requires RequiresMet(p, before, code[..i]) && RequiresMet(p, after, [code[i]])
    ensures RequiresMet(p, after, code[..i + 1])
    ensures Answerable(p, disk, code[..i]) && AnswerableStmt(p, disk, code[i]) ==> Answerable(p, disk, code[..i + 1])
  {
    assert code[..i + 1] == code[..i] + [code[i]];
    forall n | n in p && Requires(code[..i + 1], n) ensures n !in after {
      assert Requires(code[..i], n) || Requires([code[i]], n);
    }
  }

  // ---------------------------------------------------------------- the order of a run

  // what a run does that the client learns of: a file is announced; the daemon suspends and tells of
  // the files announced since it last did
  datatype Ev = Announce(load: Load) | Told

  datatype History = Start | Then(before: History, ev: Ev)

  // the announcements, oldest first
  function LoadsOf(h: History): seq<Load> {
    match h
    case Start => []
    case Then(b, Announce(l)) => LoadsOf(b) + [l]
    case Then(b, Told) => LoadsOf(b)
  }

  // how many of them the client has been told of
  function ToldOf(h: History): nat {
    match h
    case Start => 0
    case Then(b, Announce(_)) => ToldOf(b)
    case Then(b, Told) => |LoadsOf(b)|
  }

  datatype Run = Run(story: History, pending: set<string>, loaded: map<string, bool>)

  // what Lua's require makes of the value a loader returned
  function AfterLoader(loaded: map<string, bool>, m: string, value: Value): map<string, bool> {
    if value != Nil then loaded[m := value != False] else if m in loaded then loaded else loaded[m := true]
  }

  // A quiet run of the statements of a chunk from the i-th on.
  function RunOf(p: Project, disk: Disk, st: Run, code: seq<Stmt>, i: nat): (t: Run)
    requires i <= |code|
    ensures t.pending <= st.pending
    decreases |st.pending|, |code| - i
  {
    if i == |code| then st
    else
      var next := RunOfStmt(p, disk, st, code[i]);
      SubsetIsSmaller(next.pending, st.pending);
      RunOf(p, disk, next, code, i + 1)
  }

  // A pending project file is announced, then all of its chunk runs before the require comes back.
  function RunOfStmt(p: Project, disk: Disk, st: Run, s: Stmt): (t: Run)
    ensures t.pending <= st.pending
    decreases |st.pending|, 0
  {
    match s
    case Suspend(_) => st.(story := Then(st.story, Told))
    case Require(m) =>
      if m in st.loaded && st.loaded[m] then st
      else if m in st.pending && m in p then
        var inner := RunOf(p, disk, Opened(p, st, m), p[m].code, 0);
        inner.(loaded := AfterLoader(inner.loaded, m, p[m].result))
      else if m in disk then FromDisk(disk, st, m)
      else st
  }

  function Opened(p: Project, st: Run, m: string): Run
    requires m in p
  {
    Run(Then(st.story, Announce(Project(m, p[m].ext))), st.pending - {m}, st.loaded[m := true])
  }

  function FromDisk(disk: Disk, st: Run, m: string): Run
    requires m in disk
  {
    Run(if disk[m].LuaFile? then Then(st.story, Announce(OffProject(m, disk[m].ext))) else st.story,
        st.pending, AfterLoader(st.loaded, m, disk[m].value))
  }

  lemma SubsetIsSmaller(a: set<string>, b: set<string>)
    requires a <= b
    ensures |a| <= |b|
  {
    assert b == a + (b - a);
  }

  // a session: the startup source is loaded, not required, then the startup function runs
  function RunOfSession(p: Project, disk: Disk, st: Run, startup: string, main: seq<Stmt>): Run
    requires startup in p
  {
    RunOf(p, disk, RunOf(p, disk, Opened(p, st, startup), p[startup].code, 0), main, 0)
  }

  // ---------------------------------------------------------------- LuaGlue

  class LuaGlue {
    var netFiles: Project                  // m_NetFileMap
    var instantiated: set<string>          // m_FileInstantiatedSet
    var queue: seq<string>                 // m_FileNotificationQueue
    var preload: set<string>               // keys of package.preload set by the daemon
    var loaded: map<string, bool>          // package.loaded, as toboolean sees it
    var aborted: bool                      // m_AbortLevel is set
    var sent: seq<string>                  // all file names sent in NOTIFY_SCRIPT_LOADED messages
    const disk: Disk
    ghost var loads: seq<Load>
    ghost var clean: bool                  // no Lua error was raised and no abort asked for
    ghost var story: History

    ghost predicate Valid()
      reads this
    {
      && Tables(netFiles, disk, preload, loaded, instantiated)
      && Records(netFiles, preload, loads)
      && sent + queue == Filenames(loads)
      && loads == LoadsOf(story) && |sent| == ToldOf(story)
      && (clean ==> !aborted)
    }

    ghost function View(): Run
      reads this
    {
      Run(story, preload, loaded)
    }

    // after clean runs, only files still running may have requires to come
    ghost predicate DoneExcept(running: set<string>)
      reads this
    {
      clean ==> Done(netFiles, disk, preload, running)
    }

    constructor (disk: Disk)
      ensures this.disk == disk && netFiles == map[]
      ensures Valid() && DoneExcept({})
    {
      this.disk := disk;
      netFiles, instantiated, queue, preload, loaded := map[], {}, [], {}, map[];
      aborted, sent, loads, clean, story := false, [], [], true, Start;
    }

    // PreloadFiles on a fresh Lua state; false where the C++ code stops at an assertion
    method PreloadFiles(files: seq<NetFile>) returns (ok: bool)
      modifies this
      ensures ok <==> DistinctNames(files, |files|)
      ensures ok ==> Holds(netFiles, files, |files|) && preload == netFiles.Keys
      ensures ok ==> Valid() && DoneExcept({}) && clean && !aborted && sent == [] && story == Start && loaded == map[]
    {
      queue, loaded, aborted, sent, loads, clean, story := [], map[], false, [], [], true, Start;
      instantiated := {};
      ok := RegisterLoaders(files);
    }

    method RegisterLoaders(files: seq<NetFile>) returns (ok: bool)
      modifies this`netFiles, this`preload
      ensures ok <==> DistinctNames(files, |files|)
      ensures ok ==> Holds(netFiles, files, |files|) && preload == netFiles.Keys && ProjectOk(netFiles)
    {
      netFiles, preload := map[], {};
      var i := 0;
      while i < |files|
        invariant 0 <= i <= |files| && DistinctNames(files, i)
        invariant Holds(netFiles, files, i) && preload == netFiles.Keys
        modifies this`netFiles, this`preload
      {
        NextFile(netFiles, files, i);
        if files[i].name in netFiles { return false; }
        netFiles := netFiles[files[i].name := files[i]];
        preload := preload + {files[i].name};
        i := i + 1;
      }
      ok := true;
    }

    // ---- suspending, as far as the queue is concerned

    // OnDebuggerEntry: nothing happens once a session is aborted
    method OnDebuggerEntry(abort: bool)
      requires Valid()
      modifies this`queue, this`sent, this`aborted, this`clean, this`story
      ensures Valid() && aborted == (old(aborted) || abort)
      ensures !old(aborted) ==> queue == [] && sent == old(sent + queue)
      ensures old(aborted) ==> queue == old(queue) && sent == old(sent)
      ensures clean == (old(clean) && !abort)
      ensures story == if old(aborted) then old(story) else Then(old(story), Told)
    {
      clean := clean && !abort;
      if aborted { return; }
      assert |sent + queue| == |LoadsOf(story)|;
      sent, queue, story := sent + queue, [], Then(story, Told);
      aborted := abort;
    }

    // ---- the three ways into a file

    // InstantiateSource_LL; false after a load error
    method InstantiateSource(m: string, ghost running: set<string>, ghost reach: set<string>) returns (ok: bool)
      requires Valid() && DoneExcept(running) && m in netFiles && m in preload && m in reach
      modifies this`instantiated, this`queue, this`preload, this`loaded, this`sent, this`loads, this`story
      ensures Valid() && ok == netFiles[m].wellFormed
      ensures DoneExcept(if ok then running + {m} else running) && Onward(reach) && clean == old(clean)
      ensures ok ==> |preload| < |old(preload)|
      ensures ok ==> preload == old(preload) - {m} && loaded == old(loaded)[m := true]
      ensures ok ==> instantiated == old(instantiated) + {ShortFilename(netFiles[m])}
      ensures ok ==> loads == old(loads) + [Project(m, netFiles[m].ext)] && View() == Opened(netFiles, old(View()), m)
      ensures !ok ==> preload == old(preload) && loaded == old(loaded) && loads == old(loads)
    {
      var nsf := netFiles[m];
      TablesInstantiated(netFiles, disk, preload, loaded, instantiated, m);
      assert ShortFilename(nsf) !in instantiated;   // as the C++ code does
      if !nsf.wellFormed {
        if !aborted {   // OnDebuggerEntry(LOAD_FILE_ERROR)
          assert |sent + queue| == |LoadsOf(story)|;
          sent, queue, story := sent + queue, [], Then(story, Told);
        }
        return false;
      }
      RecordProject(netFiles, preload, loads, m);
      FilenamesAppend(loads, Project(m, nsf.ext), sent, queue);
      ProjectStays(loaded, loads, m, nsf.ext);
      if clean { DoneLater(netFiles, disk, preload, running, m); }
      Register(m);
      ok := true;
    }

    // what InstantiateSource_LL does once the file has been parsed
    method Register(m: string)
      requires m in netFiles
      modifies this`instantiated, this`queue, this`preload, this`loaded, this`loads, this`story
      ensures preload == old(preload) - {m} && loaded == old(loaded)[m := true]
      ensures instantiated == old(instantiated) + {ShortFilename(netFiles[m])}
      ensures queue == old(queue) + [ShortFilename(netFiles[m])]
      ensures loads == old(loads) + [Project(m, netFiles[m].ext)]
      ensures story == Then(old(story), Announce(Project(m, netFiles[m].ext)))
    {
      story := Then(story, Announce(Project(m, netFiles[m].ext)));
      preload := preload - {m};
      loaded := loaded[m := true];
      instantiated := instantiated + {ShortFilename(netFiles[m])};
      queue := queue + [ShortFilename(netFiles[m])];
      loads := loads + [Project(m, netFiles[m].ext)];
    }

    // the searcher at index 2 and the ones behind it; None if no file is found
    method OnInterceptLoadLuaFile(m: string) returns (found: bool, value: Value)
      requires Valid() && (m in netFiles ==> m !in preload && netFiles[m].result == False)
      modifies this`queue, this`loads, this`story
      ensures Valid() && found == (m in disk) && (found ==> value == disk[m].value)
      ensures loads == old(loads) + if m in disk && disk[m].LuaFile? then [OffProject(m, disk[m].ext)] else []
      ensures story == if m in disk && disk[m].LuaFile? then Then(old(story), Announce(OffProject(m, disk[m].ext))) else old(story)
    {
      if m !in disk { return false, Nil; }
      if disk[m].LuaFile? {
        var l := OffProject(m, disk[m].ext);
        RecordOffProject(netFiles, preload, loads, m, disk[m].ext);
        FilenamesAppend(loads, l, sent, queue);
        queue := queue + [m + "." + disk[m].ext];
        loads, story := loads + [l], Then(story, Announce(l));
      }
      return true, disk[m].value;
    }

    // what Lua's require does with the value a loader returned
    method SetLoaded(m: string, value: Value)
      requires Tables(netFiles, disk, preload, loaded, instantiated) && m !in preload && (m in netFiles || m in disk)
      requires m in netFiles && value == False ==> netFiles[m].result == False
      modifies this`loaded
      ensures Tables(netFiles, disk, preload, loaded, instantiated)
      ensures loaded == AfterLoader(old(loaded), m, value)
    {
      if value != Nil { loaded := loaded[m := value != False]; }
      if m !in loaded { loaded := loaded[m := true]; }
    }

    // ---- the recursion

    // From one moment of a run to a later one; the files instantiated meanwhile lie in "reach".
    twostate predicate Onward(reach: set<string>)
      reads this
    {
      && preload <= old(preload) && |preload| <= |old(preload)| && old(preload) - preload <= reach
      && old(loads) <= loads && LoadedStay(old(loaded), old(loads), loaded, loads)
      && (clean ==> old(clean))
      && (old(aborted) ==> aborted && sent == old(sent))
      && old(sent) <= sent
    }

    ghost predicate Covers(reach: set<string>, code: seq<Stmt>)
      reads this
    {
      ClosedIn(netFiles, reach) && forall n | n in netFiles && Requires(code, n) :: n in reach
    }

    // nothing on the way can raise, abort or stop: every chunk in reach is quiet and well formed
    ghost predicate Smooth(reach: set<string>)
      reads this
    {
      clean && AllQuiet(netFiles, disk, reach) && AllWellFormed(netFiles, reach)
    }

    predicate IsLoaded(m: string)
      reads this
    {
      m in loaded && loaded[m]
    }

    // what a require finds outside the project
    function FoundOnDisk(m: string): seq<Load>
      reads this
    {
      if !IsLoaded(m) && m in disk && disk[m].LuaFile? then [OffProject(m, disk[m].ext)] else []
    }

    // Lua's require.  A pending project file is instantiated, or stops the daemon if it is malformed;
    // any other name raises an error exactly if it is not loaded and not found on disk.
    method RequireModule(m: string, ghost running: set<string>, ghost reach: set<string>) returns (status: Status)
      requires Valid() && DoneExcept(running) && ClosedIn(netFiles, reach) && (m in netFiles ==> m in reach)
      modifies this`instantiated, this`queue, this`preload, this`loaded, this`aborted, this`sent, this`loads, this`clean, this`story
      ensures Valid() && DoneExcept(running) && Onward(reach)
      ensures old(m in preload) ==>
                && !status.Raised? && (status.Crashed? || m in loaded)
                && (if netFiles[m].wellFormed then m !in preload else status.Crashed? && preload == old(preload))
      ensures old(m !in preload) ==>
                && preload == old(preload) && loads == old(loads + FoundOnDisk(m))
                && status == (if old(IsLoaded(m)) || m in disk then Completed else Raised)
                && (old(IsLoaded(m)) ==> loaded == old(loaded) && clean == old(clean))
      ensures status.Raised? ==> !clean
      ensures AllWellFormed(netFiles, reach) ==> !status.Crashed?
      ensures old(Smooth(reach)) && (old(m in preload) || QuietStmt(netFiles, disk, Require(m))) ==>
                clean && status.Completed? && (old(m in preload) ==> IsLoaded(m) == (netFiles[m].result != False))
      ensures old(m in preload) ==> NotAskedAgain([], loads, m)
      ensures old(Smooth(reach)) && (old(m in preload) || QuietStmt(netFiles, disk, Require(m))) ==>
                View() == RunOfStmt(netFiles, disk, old(View()), Require(m))
      decreases |preload|, 2
    {
      if m in loaded && loaded[m] { return Completed; }
      if m in preload {
        status := RequirePending(m, running, reach);
      } else {
        status := RequireFromDisk(m, running, reach);
      }
    }

    method RequirePending(m: string, ghost running: set<string>, ghost reach: set<string>) returns (status: Status)
      requires Valid() && DoneExcept(running) && ClosedIn(netFiles, reach) && m in netFiles && m in preload && m in reach
      modifies this`instantiated, this`queue, this`preload, this`loaded, this`aborted, this`sent, this`loads, this`clean, this`story
      ensures Valid() && DoneExcept(running) && Onward(reach)
      ensures !status.Raised? && (status.Crashed? || m in loaded)
      ensures if netFiles[m].wellFormed then m !in preload else status.Crashed? && preload == old(preload)
      ensures AllWellFormed(netFiles, reach) ==> !status.Crashed?
      ensures NotAskedAgain([], loads, m)
      ensures old(Smooth(reach)) ==> clean && status.Completed? && IsLoaded(m) == (netFiles[m].result != False)
      ensures old(Smooth(reach)) ==> View() == RunOfStmt(netFiles, disk, old(View()), Require(m))
      decreases |preload|, 1
    {
      var value;
      status, value := OnRequireLoader(m, running, reach);
      if status.Crashed? { return; }
      SetLoaded(m, value);
    }

    method RequireFromDisk(m: string, ghost running: set<string>, ghost reach: set<string>) returns (status: Status)
      requires Valid() && DoneExcept(running) && m !in preload && !IsLoaded(m)
      modifies this`queue, this`aborted, this`sent, this`loads, this`clean, this`story, this`loaded
      ensures Valid() && DoneExcept(running) && Onward(reach)
      ensures loads == old(loads + FoundOnDisk(m))
      ensures status == (if m in disk then Completed else Raised)
      ensures status.Completed? ==> m in loaded && clean == old(clean) && View() == FromDisk(disk, old(View()), m)
      ensures status.Raised? ==> !clean && (!old(aborted) ==> queue == [] && sent == old(sent + queue))
    {
      var found, value := OnInterceptLoadLuaFile(m);
      if !found {
        OnDebuggerEntry(false);   // LuaErrorHandler
        clean := false;
        return Raised;
      }
      SetLoaded(m, value);
      status := Completed;
    }

    method OnRequireLoader(m: string, ghost running: set<string>, ghost reach: set<string>) returns (status: Status, value: Value)
      requires Valid() && DoneExcept(running) && ClosedIn(netFiles, reach) && m in netFiles && m in preload && m in reach
      modifies this`instantiated, this`queue, this`preload, this`loaded, this`aborted, this`sent, this`loads, this`clean, this`story
      ensures Valid() && DoneExcept(running) && Onward(reach)
      ensures !status.Raised? && (status.Completed? ==> m !in preload && (value == False ==> netFiles[m].result == False))
      ensures if netFiles[m].wellFormed then m !in preload else status.Crashed? && preload == old(preload)
      ensures AllWellFormed(netFiles, reach) ==> !status.Crashed?
      ensures old(Smooth(reach)) ==> clean && status.Completed? && value == netFiles[m].result
      ensures old(Smooth(reach)) && value == Nil ==> IsLoaded(m)
      ensures NotAskedAgain([], loads, m)
      ensures forall k | k != m && old(IsLoaded(k)) :: IsLoaded(k)
      ensures old(Smooth(reach)) ==> View() == RunOf(netFiles, disk, Opened(netFiles, old(View()), m), netFiles[m].code, 0)
      decreases |preload|, 0
    {
      var ok := InstantiateSource(m, running, reach);
      if !ok { return Crashed, Nil; }
      status := OuterShell(m, running, reach);
      if status.Crashed? { return Crashed, Nil; }
      status, value := Completed, if status.Completed? then netFiles[m].result else Nil;
    }

    // the chunk of a file just instantiated, called through pcall: an error in it goes no further
    // and leaves nil
    method OuterShell(m: string, ghost running: set<string>, ghost reach: set<string>) returns (status: Status)
      requires Valid() && DoneExcept(running + {m}) && ClosedIn(netFiles, reach) && m in netFiles && m !in preload && m in reach
      modifies this`instantiated, this`queue, this`preload, this`loaded, this`aborted, this`sent, this`loads, this`clean, this`story
      ensures Valid() && DoneExcept(running) && Onward(reach)
      ensures AllWellFormed(netFiles, reach) ==> !status.Crashed?
      ensures old(Smooth(reach)) ==>
                clean && status.Completed? && View() == RunOf(netFiles, disk, old(View()), netFiles[m].code, 0)
      decreases |preload|, 5
    {
      status := RunChunk(netFiles[m].code, running + {m}, reach);
      if status.Crashed? { clean := false; }
    }

    // the Lua VM running a chunk
    method RunChunk(code: seq<Stmt>, ghost running: set<string>, ghost reach: set<string>) returns (status: Status)
      requires Valid() && DoneExcept(running) && Covers(reach, code)
      modifies this`instantiated, this`queue, this`preload, this`loaded, this`aborted, this`sent, this`loads, this`clean, this`story
      ensures Valid() && DoneExcept(running) && Onward(reach)
      ensures status.Completed? ==> RequiresMet(netFiles, preload, code) && (clean ==> Answerable(netFiles, disk, code))
      ensures status.Raised? ==> !clean
      ensures AllWellFormed(netFiles, reach) ==> !status.Crashed?
      ensures old(Smooth(reach)) && Quiet(netFiles, disk, code) ==>
                clean && status.Completed? && View() == RunOf(netFiles, disk, old(View()), code, 0)
      decreases |preload|, 4
    {
      var i := 0;
      while i < |code|
        invariant 0 <= i <= |code|
        invariant Valid() && DoneExcept(running) && Onward(reach)
        invariant RequiresMet(netFiles, preload, code[..i]) && (clean ==> Answerable(netFiles, disk, code[..i]))
        invariant old(Smooth(reach)) && Quiet(netFiles, disk, code) ==>
                    clean && RunOf(netFiles, disk, View(), code, i) == RunOf(netFiles, disk, old(View()), code, 0)
        modifies this`instantiated, this`queue, this`preload, this`loaded, this`aborted, this`sent, this`loads, this`clean, this`story
      {
        ghost var before := preload;
        status := RunStmt(code[i], running, reach);
        if !status.Completed? { return; }
        NextAnswered(netFiles, disk, before, preload, code, i);
        i := i + 1;
      }
      status := Completed;
    }

    method RunStmt(s: Stmt, ghost running: set<string>, ghost reach: set<string>) returns (status: Status)
      requires Valid() && DoneExcept(running) && Covers(reach, [s])
      modifies this`instantiated, this`queue, this`preload, this`loaded, this`aborted, this`sent, this`loads, this`clean, this`story
      ensures Valid() && DoneExcept(running) && Onward(reach)
      ensures status.Completed? ==> RequiresMet(netFiles, preload, [s]) && (clean ==> AnswerableStmt(netFiles, disk, s))
      ensures s.Suspend? ==> loads == old(loads) && status == (if s.abort && !old(aborted) then Raised else Completed)
      ensures s.Suspend? && !old(aborted) ==> queue == [] && sent == old(sent + queue)
      ensures status.Raised? ==> !clean
      ensures AllWellFormed(netFiles, reach) ==> !status.Crashed?
      ensures old(Smooth(reach)) && QuietStmt(netFiles, disk, s) ==>
                clean && status.Completed? && View() == RunOfStmt(netFiles, disk, old(View()), s)
      decreases |preload|, 3
    {
      match s
      case Require(m) =>
        assert Requires([s], m);
        status := RequireModule(m, running, reach);
      case Suspend(abort) =>
        if abort && !aborted {
          OnDebuggerEntry(true);
          return Raised;   // lua_error unwinds to the nearest pcall
        }
        OnDebuggerEntry(false);
        status := Completed;
    }

    // One session: loadfile of the startup source, its outer shell, then the startup function,
    // whose body is "main".  Files are instantiated only within what can be reached by requires
    // from the startup source and the startup function.  If nothing reachable wishes to abort, asks
    // for what is not there or is malformed, the session completes without error and has
    // instantiated exactly the reachable files, announced in the order of RunOfSession; where no
    // project file returns false, that is also the only way.
    method RunSession(startup: string, main: seq<Stmt>) returns (status: Status)
      requires Valid() && clean && preload == netFiles.Keys && startup in netFiles
      modifies this`instantiated, this`queue, this`preload, this`loaded, this`aborted, this`sent, this`loads, this`clean, this`story
      ensures Valid() && old(sent) <= sent
      ensures var reach := ReachableSet(netFiles, Roots(startup, main));
              && netFiles.Keys - preload <= reach
              && (clean && status.Completed? ==> netFiles.Keys - preload == reach)
              && (AllWellFormed(netFiles, reach) ==> !status.Crashed?)
              && (QuietSession(netFiles, disk, reach, main) ==> clean && status.Completed?)
              && (NoneFalse(netFiles) && clean && status.Completed? ==> QuietSession(netFiles, disk, reach, main))
              && (QuietSession(netFiles, disk, reach, main) ==> View() == RunOfSession(netFiles, disk, old(View()), startup, main))
    {
      ghost var reach := ReachableSet(netFiles, Roots(startup, main));
      ReachableCovers(netFiles, startup, main);
      status := LoadAndRun(startup, main, reach);
      if status.Completed? && clean {
        AllReached(netFiles, disk, preload, startup, main);
        if NoneFalse(netFiles) { AllAnswered(netFiles, disk, reach, preload, main); }
      }
    }

    method LoadAndRun(startup: string, main: seq<Stmt>, ghost reach: set<string>) returns (status: Status)
      requires Valid() && DoneExcept({}) && startup in netFiles && startup in preload
      requires Covers(reach, main) && startup in reach
      modifies this`instantiated, this`queue, this`preload, this`loaded, this`aborted, this`sent, this`loads, this`clean, this`story
      ensures Valid() && DoneExcept({}) && Onward(reach)
      ensures AllWellFormed(netFiles, reach) ==> !status.Crashed?
      ensures status.Completed? ==>
                startup !in preload && (clean ==> RequiresMet(netFiles, preload, main) && Answerable(netFiles, disk, main))
      ensures old(Smooth(reach)) && Quiet(netFiles, disk, main) ==>
                clean && status.Completed? && View() == RunOfSession(netFiles, disk, old(View()), startup, main)
    {
      var ran := RunStartup(startup, reach);
      if !ran.Completed? { return ran; }
      status := RunChunk(main, {}, reach);
      if status.Raised? { status := Completed; }
    }

    // loadfile and the outer shell of the startup source
    method RunStartup(startup: string, ghost reach: set<string>) returns (status: Status)
      requires Valid() && DoneExcept({}) && startup in netFiles && startup in preload && startup in reach && ClosedIn(netFiles, reach)
      modifies this`instantiated, this`queue, this`preload, this`loaded, this`aborted, this`sent, this`loads, this`clean, this`story
      ensures Valid() && DoneExcept({}) && Onward(reach)
      ensures AllWellFormed(netFiles, reach) ==> !status.Crashed?
      ensures status.Completed? ==> startup !in preload
      ensures old(Smooth(reach)) ==>
                clean && status.Completed? && View() == RunOf(netFiles, disk, Opened(netFiles, old(View()), startup), netFiles[startup].code, 0)
    {
      var ok := InstantiateSource(startup, {}, reach);
      if !ok { return Raised; }   // the session ends without running anything
      status := OuterShell(startup, {}, reach);
      if status.Raised? { status := Completed; }
    }
  }

  ghost function ReachableSet(p: Project, roots: set<string>): set<string> {
    set m | m in p && Reachable(p, roots, m)
  }

  function Roots(startup: string, main: seq<Stmt>): set<string> {
    {startup} + set i: nat | i < |main| && main[i].Require? :: main[i].name
  }

  // ---------------------------------------------------------------- laws of the order

  lemma {:induction false} RunShifted(p: Project, disk: Disk, st: Run, a: seq<Stmt>, b: seq<Stmt>, both: seq<Stmt>, i: nat)
    requires both == a + b && i <= |b|
    ensures RunOf(p, disk, st, both, |a| + i) == RunOf(p, disk, st, b, i)
    decreases |b| - i
  {
    if i < |b| {
      assert both[|a| + i] == b[i];
      RunShifted(p, disk, RunOfStmt(p, disk, st, b[i]), a, b, both, i + 1);
    }
  }

  // What comes first in a chunk has run to its end before the rest begins.
  lemma {:induction false} RunSplits(p: Project, disk: Disk, st: Run, a: seq<Stmt>, b: seq<Stmt>, both: seq<Stmt>, i: nat)
    requires both == a + b && i <= |a|
    ensures RunOf(p, disk, st, both, i) == RunOf(p, disk, RunOf(p, disk, st, a, i), b, 0)
    decreases |a| - i
  {
    if i == |a| {
      RunShifted(p, disk, st, a, b, both, 0);
    } else {
      assert both[i] == a[i];
      RunSplits(p, disk, RunOfStmt(p, disk, st, a[i]), a, b, both, i + 1);
    }
  }

  // g goes on from h
  predicate Continues(h: History, g: History) {
    h == g || (g.Then? && Continues(h, g.before))
  }

  lemma {:induction false} ContinuesOn(a: History, b: History, c: History)
    requires Continues(a, b) && Continues(b, c)
    ensures Continues(a, c)
  {
    if b != c { ContinuesOn(a, b, c.before); }
  }

  lemma {:induction false} ContinuedLoads(h: History, g: History)
    requires Continues(h, g)
    ensures LoadsOf(h) <= LoadsOf(g)
  {
    if h != g { ContinuedLoads(h, g.before); }
  }

  // what was announced and what is still pending
  ghost predicate Sound(p: Project, st: Run) {
    && st.pending <= p.Keys
    && (forall m | m in st.pending :: m !in st.loaded)
    && (forall m | m in p :: m in st.pending <==> Project(m, p[m].ext) !in LoadsOf(st.story))
  }

  // where a run from st may have led to
  ghost predicate Reaches(p: Project, st: Run, t: Run, reach: set<string>) {
    Sound(p, t) && Continues(st.story, t.story) && t.pending <= st.pending && st.pending - t.pending <= reach
  }

  lemma OpenedReaches(p: Project, st: Run, m: string, reach: set<string>)
    requires ProjectOk(p) && Sound(p, st) && m in p && m in st.pending && m in reach
    ensures Reaches(p, st, Opened(p, st, m), reach)
    ensures LoadsOf(Opened(p, st, m).story) == LoadsOf(st.story) + [Project(m, p[m].ext)]
  {
    var t := Opened(p, st, m);
    assert t.story.before == st.story;
    forall k | k in p ensures k in t.pending <==> Project(k, p[k].ext) !in LoadsOf(t.story) {
      assert Project(k, p[k].ext) in LoadsOf(t.story) <==> Project(k, p[k].ext) in LoadsOf(st.story) || k == m;
    }
  }

  lemma FromDiskReaches(p: Project, disk: Disk, st: Run, m: string, reach: set<string>)
    requires Sound(p, st) && m in disk && m !in st.pending
    ensures Reaches(p, st, FromDisk(disk, st, m), reach)
  {
    var t := FromDisk(disk, st, m);
    forall k | k in p ensures Project(k, p[k].ext) in LoadsOf(t.story) <==> Project(k, p[k].ext) in LoadsOf(st.story) {
    }
  }

  lemma ReachesOn(p: Project, a: Run, b: Run, c: Run, reach: set<string>)
    requires Reaches(p, a, b, reach) && Reaches(p, b, c, reach)
    ensures Reaches(p, a, c, reach)
  {
    ContinuesOn(a.story, b.story, c.story);
  }

  lemma {:induction false} RunReaches(p: Project, disk: Disk, st: Run, code: seq<Stmt>, i: nat, reach: set<string>)
    requires ProjectOk(p) && Sound(p, st) && i <= |code| && ClosedIn(p, reach)
    requires forall n | n in p && Requires(code, n) :: n in reach
    ensures Reaches(p, st, RunOf(p, disk, st, code, i), reach)
    decreases |st.pending|, |code| - i
  {
    if i < |code| {
      var next := RunOfStmt(p, disk, st, code[i]);
      StmtReaches(p, disk, st, code[i], reach);
      SubsetIsSmaller(next.pending, st.pending);
      RunReaches(p, disk, next, code, i + 1, reach);
      ReachesOn(p, st, next, RunOf(p, disk, next, code, i + 1), reach);
    }
  }

  lemma {:induction false} StmtReaches(p: Project, disk: Disk, st: Run, s: Stmt, reach: set<string>)
    requires ProjectOk(p) && Sound(p, st) && ClosedIn(p, reach) && (s.Require? && s.name in p ==> s.name in reach)
    ensures Reaches(p, st, RunOfStmt(p, disk, st, s), reach)
    decreases |st.pending|, 0
  {
    if s.Require? && !(s.name in st.loaded && st.loaded[s.name]) {
      var m := s.name;
      if m in st.pending && m in p {
        var begun := Opened(p, st, m);
        OpenedReaches(p, st, m, reach);
        RunReaches(p, disk, begun, p[m].code, 0, reach);
        ReachesOn(p, st, begun, RunOf(p, disk, begun, p[m].code, 0), reach);
      } else if m in disk {
        FromDiskReaches(p, disk, st, m, reach);
      }
    }
  }

  // A pending file is announced first of all that its require brings in.
  lemma FileComesFirst(p: Project, disk: Disk, st: Run, m: string, reach: set<string>)
    requires ProjectOk(p) && Sound(p, st) && ClosedIn(p, reach) && m in p && m in st.pending && m in reach
    ensures LoadsOf(st.story) + [Project(m, p[m].ext)] <= LoadsOf(RunOfStmt(p, disk, st, Require(m)).story)
  {
    OpenedReaches(p, st, m, reach);
    RunReaches(p, disk, Opened(p, st, m), p[m].code, 0, reach);
    ContinuedLoads(Opened(p, st, m).story, RunOf(p, disk, Opened(p, st, m), p[m].code, 0).story);
  }

  // A suspension tells of everything announced so far.
  lemma SuspensionTells(p: Project, disk: Disk, st: Run, abort: bool)
    ensures var t := RunOf(p, disk, st, [Suspend(abort)], 0);
            ToldOf(t.story) == |LoadsOf(t.story)| && LoadsOf(t.story) == LoadsOf(st.story)
  {
    var t := RunOfStmt(p, disk, st, Suspend(abort));
    assert RunOf(p, disk, t, [Suspend(abort)], 1) == t;
  }

  // What a chunk requires is no longer pending after it.
  lemma {:induction false} RequiredIsDone(p: Project, disk: Disk, st: Run, code: seq<Stmt>, i: nat, k: nat, reach: set<string>)
    requires ProjectOk(p) && Sound(p, st) && i <= k < |code| && ClosedIn(p, reach) && code[k].Require? && code[k].name in p
    requires forall n | n in p && Requires(code, n) :: n in reach
    ensures code[k].name !in RunOf(p, disk, st, code, i).pending
    decreases k - i
  {
    var next := RunOfStmt(p, disk, st, code[i]);
    assert Requires(code, code[k].name);
    assert code[i].Require? ==> Requires(code, code[i].name);
    StmtReaches(p, disk, st, code[i], reach);
    if i < k {
      RequiredIsDone(p, disk, next, code, i + 1, k, reach);
    }
  }

  // Of two pending files, one required by the first i statements of a chunk and one only by later
  // ones (nor by anything the first ones bring in), the first is announced first.
  lemma EarlierComesFirst(p: Project, disk: Disk, st: Run, code: seq<Stmt>, i: nat, a: string, b: string, early: set<string>, reach: set<string>)
    requires ProjectOk(p) && Sound(p, st) && i <= |code| && a in p && b in p && b in st.pending
    requires ClosedIn(p, early) && ClosedIn(p, reach)
    requires forall n | n in p && Requires(code[..i], n) :: n in early
    requires forall n | n in p && Requires(code, n) :: n in reach
    requires Requires(code[..i], a) && Requires(code, b) && b !in early
    ensures var first, all := LoadsOf(RunOf(p, disk, st, code[..i], 0).story), LoadsOf(RunOf(p, disk, st, code, 0).story);
            && first <= all && Project(a, p[a].ext) in first
            && Project(b, p[b].ext) !in first && Project(b, p[b].ext) in all
  {
    var head, rest := code[..i], code[i..];
    var t := RunOf(p, disk, st, head, 0);
    assert code == head + rest;
    RunSplits(p, disk, st, head, rest, code, 0);
    RunReaches(p, disk, st, head, 0, early);
    forall n | n in p && Requires(rest, n) ensures n in reach { assert Requires(code, n); }
    RunReaches(p, disk, t, rest, 0, reach);
    ContinuedLoads(t.story, RunOf(p, disk, t, rest, 0).story);
    var k: nat :| k < |head| && head[k] == Require(a);
    RequiredIsDone(p, disk, st, head, 0, k, early);
    var l: nat :| l < |code| && code[l] == Require(b);
    RequiredIsDone(p, disk, st, code, 0, l, reach);
  }

  // ---------------------------------------------------------------- whole sessions

  ghost predicate QuietSession(p: Project, disk: Disk, reach: set<string>, main: seq<Stmt>) {
    AllQuiet(p, disk, reach) && Quiet(p, disk, main) && AllWellFormed(p, reach)
  }

  ghost predicate NoneFalse(p: Project) {
    forall m | m in p :: p[m].result != False
  }

  lemma ReachableCovers(p: Project, startup: string, main: seq<Stmt>)
    requires startup in p
    ensures var reach := ReachableSet(p, Roots(startup, main));
            startup in reach && ClosedIn(p, reach) && forall n | n in p && Requires(main, n) :: n in reach
  {
    ReachableClosed(p, Roots(startup, main), ReachableSet(p, Roots(startup, main)));
    forall n | n in p && Requires(main, n) ensures n in Roots(startup, main) {
      var i: nat :| i < |main| && main[i] == Require(n);
    }
  }

  lemma AllReached(p: Project, disk: Disk, pending: set<string>, startup: string, main: seq<Stmt>)
    requires Done(p, disk, pending, {}) && RequiresMet(p, pending, main) && startup in p && startup !in pending
    ensures ReachableSet(p, Roots(startup, main)) <= p.Keys - pending
  {
    var s := p.Keys - pending;
    forall m, n | m in s && m in p && n in p && Requires(p[m].code, n) ensures n in s {
      assert RequiresMet(p, pending, p[m].code);
    }
    forall m | m in Roots(startup, main) && m in p ensures m in s {
      assert m == startup || Requires(main, m);
    }
    ReachableLeast(p, Roots(startup, main), s);
  }

  lemma AllAnswered(p: Project, disk: Disk, reach: set<string>, pending: set<string>, main: seq<Stmt>)
    requires NoneFalse(p) && Done(p, disk, pending, {}) && reach <= p.Keys - pending
    requires forall m | m in p && m !in pending :: p[m].wellFormed
    requires Answerable(p, disk, main)
    ensures QuietSession(p, disk, reach, main)
  {
    AnswerableIsQuiet(p, disk, main);
    forall m | m in p && m in reach ensures Quiet(p, disk, p[m].code) {
      assert Answerable(p, disk, p[m].code);
      AnswerableIsQuiet(p, disk, p[m].code);
    }
  }

  lemma AnswerableIsQuiet(p: Project, disk: Disk, code: seq<Stmt>)
    requires NoneFalse(p) && Answerable(p, disk, code)
    ensures Quiet(p, disk, code)
  {
    forall i | 0 <= i < |code| ensures QuietStmt(p, disk, code[i]) {
      assert AnswerableStmt(p, disk, code[i]);
    }
  }

  // Which files the client is told of twice: require a pending project file twice, where nothing it
  // reaches aborts, asks for what is not there or is malformed.  It is announced again if and only if
  // its chunk returns false and a Lua file of that very name is on the daemon's disk.
  method RequireTwice(glue: LuaGlue, m: string, ghost reach: set<string>) returns (second: Status)
    requires glue.Valid() && glue.DoneExcept({}) && glue.Smooth(reach) && ClosedIn(glue.netFiles, reach)
    requires m in glue.netFiles && m in glue.preload && m in reach
    modifies glue
    ensures glue.Valid() && glue.netFiles == old(glue.netFiles)
    ensures var f := glue.netFiles[m];
            && (ToldTwice(glue.loads, ShortFilename(f)) <==>
                f.result == False && m in glue.disk && glue.disk[m].LuaFile? && glue.disk[m].ext == f.ext)
            && (second.Raised? <==> f.result == False && m !in glue.disk) && !second.Crashed?
    ensures second.Completed? ==> glue.clean
  {
    var first := glue.RequireModule(m, {}, reach);
    ghost var loads := glue.loads;
    ghost var found := glue.FoundOnDisk(m);
    second := glue.RequireModule(m, {}, reach);
    assert glue.loads == loads + found;
    ghost var again := OffProject(m, glue.netFiles[m].ext);
    assert again !in loads;
    assert again in glue.loads <==> found == [again];
    ToldTwiceIff(glue.netFiles, glue.preload, glue.loads, m);
  }

  // Such a file exists.
  method FalseIsToldTwice(m: string, ext: Ext) returns (glue: LuaGlue)
    ensures glue.clean && glue.sent + glue.queue == Filenames(glue.loads) && ToldTwice(glue.loads, m + "." + ext)
  {
    var file := NetFile(m, ext, true, [], False);
    glue := new LuaGlue(map[m := LuaFile(ext, Other)]);
    var files := [file];
    var ok := glue.PreloadFiles(files);
    assert files[0] == file && m in glue.netFiles && glue.netFiles[m] == file;
    assert forall k | k in glue.netFiles :: k == m;
    var second := RequireTwice(glue, m, {m});
  }
}
