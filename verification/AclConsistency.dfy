/** The merged files agree with the role directories whenever the event queue is drained. */
module AclConsistency {
  import opened Wrappers
  import opened AclWatch

  // ----- what holds in every reachable state -----

  /** The daemon's list and the kernel's watches are about the same targets, under the same descriptors. */
  ghost predicate WatchesOk(kernel: map<Target, Mark>, list: seq<Watch>, nextWd: nat) {
    (forall w :: w in list ==> w.dir in kernel && kernel[w.dir].wd == w.wd) &&
    (forall t :: t in kernel ==> Watch(kernel[t].wd, t) in list && kernel[t].wd < nextWd) &&
    (forall t, u :: t in kernel && u in kernel && kernel[t].wd == kernel[u].wd ==> t == u)
  }

  /** An event comes from a watched target; directories are reported for the root only, when created. */
  ghost predicate EventOk(kernel: map<Target, Mark>, dirs: map<string, Files>, e: Event) {
    (exists t :: t in kernel && kernel[t].wd == e.wd && (e.isDir ==> t == Root)) &&
    (e.isDir ==> e.kind == Create && e.name in dirs)
  }

  ghost predicate EventsOk(kernel: map<Target, Mark>, dirs: map<string, Files>, events: seq<Event>) {
    forall e :: e in events ==> EventOk(kernel, dirs, e)
  }

  ghost predicate PhaseOk(s: State) {
    (s.phase == Fresh ==> s.kernel == map[] && s.list == [] && s.queue == []) &&
    (s.phase != Fresh ==> Root in s.kernel) &&
    (s.phase != Running ==> s.buffer == []) &&
    (s.phase.Fresh? || s.phase.RootWatched? || s.phase.Scanning? ==> s.task == Idle) &&
    (s.phase.MergingAll? ==> forall w :: w in s.phase.left ==> w in s.list) &&
    (s.phase.Scanning? ==> forall d :: d in s.phase.must ==> d in s.dirs) &&
    (s.phase.Scanning? ==> forall d :: d in s.phase.seen ==> Dir(d) in s.kernel) &&
    (s.task != Idle ==> Dir(s.task.dir) in s.kernel) &&
    (forall d :: Dir(d) in s.kernel ==> d in s.dirs)
  }

  /** An event the daemon has yet to handle. */
  predicate InFlight(s: State, e: Event) { e in s.queue || e in s.buffer }

  /** A report about a file of directory `d` that has not been handled yet. */
  ghost predicate Unhandled(s: State, d: string) {
    Dir(d) in s.kernel && exists e :: InFlight(s, e) && e.wd == s.kernel[Dir(d)].wd && !e.isDir
  }

  /** The merge of directory `d` is still to come, or under way with the files as they are now. */
  ghost predicate MergeComing(s: State, d: string, merge: Files -> Rules) {
    s.task == ToMerge(d) ||
    (s.task.Merging? && s.task.dir == d && d in s.dirs && merge(s.task.files) == merge(s.dirs[d])) ||
    s.phase.Fresh? || s.phase.RootWatched? || s.phase.Scanning? ||
    (s.phase.MergingAll? && exists w :: w in s.phase.left && w.dir == Dir(d))
  }

  predicate Agrees(s: State, d: string, merge: Files -> Rules) {
    d in s.dirs && d in s.merged && s.merged[d] == merge(s.dirs[d])
  }

  /** A directory that is not watched yet will be: it is about to be scanned, or its creation is reported. */
  ghost predicate Announced(s: State, d: string) {
    s.phase.Fresh? || s.phase.RootWatched? || (s.phase.Scanning? && d in s.phase.must && d !in s.phase.seen) ||
    exists e :: InFlight(s, e) && e.isDir && e.name == d
  }

  ghost predicate Covered(s: State, d: string, merge: Files -> Rules) {
    if Dir(d) in s.kernel then Agrees(s, d, merge) || Unhandled(s, d) || MergeComing(s, d, merge) else Announced(s, d)
  }

  /** Files that a merge under way has read are the current ones, or a later change is still unhandled. */
  ghost predicate MergeIsFresh(s: State, merge: Files -> Rules) {
    s.task.Merging? ==>
      Unhandled(s, s.task.dir) || (s.task.dir in s.dirs && merge(s.task.files) == merge(s.dirs[s.task.dir]))
  }

  ghost predicate Inv(s: State, merge: Files -> Rules) {
    WatchesOk(s.kernel, s.list, s.nextWd) && EventsOk(s.kernel, s.dirs, s.queue) &&
    EventsOk(s.kernel, s.dirs, s.buffer) &&
    PhaseOk(s) && MergeIsFresh(s, merge) && forall d :: d in s.dirs ==> Covered(s, d, merge)
  }

  /** A move of a file in a directory whose watch does not report moves. */
  predicate Unseen(s: State, step: Step) {
    step.FileOp? && IsMove(step.kind) && Dir(step.dir) in s.kernel && !s.kernel[Dir(step.dir)].moves
  }

  // ----- the steps, one by one -----

  lemma ReportedFacts(s: State, t: Target, kind: Kind, isDir: bool, name: string)
    ensures var u := Reported(s, t, kind, isDir, name);
            u == s.(queue := u.queue) && (forall e :: e in s.queue ==> e in u.queue) &&
            (t in s.kernel && (IsMove(kind) ==> s.kernel[t].moves) ==>
                Event(s.kernel[t].wd, kind, isDir, name) in u.queue) &&
            (forall e :: e in u.queue ==>
                e in s.queue || (t in s.kernel && e == Event(s.kernel[t].wd, kind, isDir, name)))
  {
  }

  /** Nothing that covers directory `d` gets lost when the files, the merged file, the pending task and
      the phase stay, and no event does. */
  lemma CoveredCarries(s: State, t: State, d: string, merge: Files -> Rules)
    requires Covered(s, d, merge) && d in s.dirs && d in t.dirs && t.dirs[d] == s.dirs[d]
    requires Dir(d) in t.kernel <==> Dir(d) in s.kernel
    requires Dir(d) in s.kernel ==> t.kernel[Dir(d)].wd == s.kernel[Dir(d)].wd
    requires d in s.merged ==> d in t.merged && t.merged[d] == s.merged[d]
    requires t.task == s.task && t.phase == s.phase
    requires forall e :: InFlight(s, e) ==> InFlight(t, e)
    ensures Covered(t, d, merge)
  {
  }

  /** The world changes: only files, directories and the queue. */
  predicate WorldStep(s: State, t: State) {
    t == s.(dirs := t.dirs, queue := t.queue) && s.dirs.Keys <= t.dirs.Keys
  }

  lemma WorldKeepsPhase(s: State, t: State)
    requires PhaseOk(s) && WorldStep(s, t) && (s.phase == Fresh ==> t.queue == [])
    ensures PhaseOk(t)
  {
  }

  lemma EventsCarry(kernel: map<Target, Mark>, dirs: map<string, Files>, before: seq<Event>, after: seq<Event>,
                    dirs': map<string, Files>, n: Event)
    requires EventsOk(kernel, dirs, before) && dirs.Keys <= dirs'.Keys
    requires forall e :: e in after ==> e in before || e == n
    requires EventOk(kernel, dirs', n) || n in before || n !in after
    ensures EventsOk(kernel, dirs', after)
  {
  }

  lemma FileOpKeeps(s: State, step: Step, merge: Files -> Rules)
    requires Inv(s, merge) && step.FileOp? && Enabled(s, step) && !Unseen(s, step)
    ensures Inv(Next(s, step, merge), merge)
  {
    hide Reported, Changed, WatchesOk, EventsOk, PhaseOk, EventOk, Covered;
    var t := s.(dirs := s.dirs[step.dir := Changed(s.dirs[step.dir], step.kind, step.name, step.content)]);
    var u := Next(s, step, merge);
    ReportedFacts(t, Dir(step.dir), step.kind, false, step.name);
    WorldReport(s, t, u, Dir(step.dir), step.kind, false, step.name);
    ChangeIsCovered(s, u, step, merge);
    forall d | d in u.dirs ensures Covered(u, d, merge) {
      if d != step.dir {
        CoveredCarries(s, u, d, merge);
      }
    }
  }

  /** What a report does to the parts of the invariant that are not about directories. */
  lemma WorldReport(s: State, t: State, u: State, target: Target, kind: Kind, isDir: bool, name: string)
    requires WatchesOk(s.kernel, s.list, s.nextWd) && PhaseOk(s)
    requires EventsOk(s.kernel, s.dirs, s.queue) && EventsOk(s.kernel, s.dirs, s.buffer)
    requires t == s.(dirs := t.dirs) && s.dirs.Keys <= t.dirs.Keys && u == Reported(t, target, kind, isDir, name)
    requires isDir ==> target == Root && kind == Create && name in t.dirs
    ensures EventsOk(u.kernel, u.dirs, u.queue) && EventsOk(u.kernel, u.dirs, u.buffer) && PhaseOk(u)
  {
    hide Reported, WatchesOk;
    ReportedFacts(t, target, kind, isDir, name);
    var n := if target in s.kernel then Event(s.kernel[target].wd, kind, isDir, name) else Event(0, kind, isDir, name);
    if target in s.kernel {
      assert EventOk(s.kernel, t.dirs, n);
    }
    EventsCarry(s.kernel, s.dirs, s.queue, u.queue, u.dirs, n);
    EventsCarry(s.kernel, s.dirs, s.buffer, s.buffer, u.dirs, n);
    assert u.queue == [] || u.queue[0] in u.queue;
    WorldKeepsPhase(s, u);
  }

  lemma ChangeIsCovered(s: State, u: State, step: Step, merge: Files -> Rules)
    requires Inv(s, merge) && step.FileOp? && Enabled(s, step) && !Unseen(s, step) && u == Next(s, step, merge)
    ensures Covered(u, step.dir, merge) && (Dir(step.dir) in s.kernel ==> Unhandled(u, step.dir))
    ensures MergeIsFresh(u, merge)
  {
    hide Reported, Changed, WatchesOk, EventsOk;
    var d := step.dir;
    var t := s.(dirs := s.dirs[d := Changed(s.dirs[d], step.kind, step.name, step.content)]);
    ReportedFacts(t, Dir(d), step.kind, false, step.name);
    if Dir(d) in s.kernel {
      assert InFlight(u, Event(s.kernel[Dir(d)].wd, step.kind, false, step.name));
    } else {
      assert Announced(s, d);
    }
    assert forall e :: InFlight(s, e) ==> InFlight(u, e);
  }

  lemma RootFileOpKeeps(s: State, kind: Kind, name: string, merge: Files -> Rules)
    requires Inv(s, merge)
    ensures Inv(Next(s, RootFileOp(kind, name), merge), merge)
  {
    hide Reported, WatchesOk, EventsOk, PhaseOk, Covered;
    var u := Next(s, RootFileOp(kind, name), merge);
    ReportedFacts(s, Root, kind, false, name);
    WorldReport(s, s, u, Root, kind, false, name);
    forall d | d in u.dirs ensures Covered(u, d, merge) {
      CoveredCarries(s, u, d, merge);
    }
  }

  lemma MakeDirKeeps(s: State, name: string, merge: Files -> Rules)
    requires Inv(s, merge) && Enabled(s, MakeDir(name))
    ensures Inv(Next(s, MakeDir(name), merge), merge)
  {
    hide Reported, WatchesOk, EventsOk, PhaseOk, Covered;
    var t := s.(dirs := s.dirs[name := map[]]);
    var u := Next(s, MakeDir(name), merge);
    ReportedFacts(t, Root, Create, true, name);
    WorldReport(s, t, u, Root, Create, true, name);
    forall d | d in u.dirs ensures Covered(u, d, merge) {
      if d != name {
        CoveredCarries(s, u, d, merge);
      } else {
        NewDirIsCovered(s, u, name, merge);
      }
    }
  }

  lemma NewDirIsCovered(s: State, u: State, name: string, merge: Files -> Rules)
    requires Inv(s, merge) && Enabled(s, MakeDir(name)) && u == Next(s, MakeDir(name), merge)
    ensures Covered(u, name, merge)
  {
    hide Reported, WatchesOk, EventsOk;
    ReportedFacts(s.(dirs := s.dirs[name := map[]]), Root, Create, true, name);
    assert Dir(name) !in s.kernel;
    if s.phase != Fresh {
      assert InFlight(u, Event(s.kernel[Root].wd, Create, true, name));
    }
  }

  // ----- the daemon's steps -----

  lemma WatchReplaced(kernel: map<Target, Mark>, list: seq<Watch>, nextWd: nat, t: Target, moves: bool)
    requires WatchesOk(kernel, list, nextWd) && t in kernel
    ensures WatchesOk(kernel[t := Mark(kernel[t].wd, moves)], list + [Watch(kernel[t].wd, t)], nextWd)
  {
  }

  lemma WatchNew(kernel: map<Target, Mark>, list: seq<Watch>, nextWd: nat, t: Target, moves: bool)
    requires WatchesOk(kernel, list, nextWd) && t !in kernel
    ensures WatchesOk(kernel[t := Mark(nextWd, moves)], list + [Watch(nextWd, t)], nextWd + 1)
  {
  }

  lemma WatchAddedFacts(s: State, t: Target, moves: bool)
    requires WatchesOk(s.kernel, s.list, s.nextWd)
    ensures var u := WatchAdded(s, t, moves);
            u == s.(kernel := u.kernel, list := u.list, nextWd := u.nextWd) &&
            WatchesOk(u.kernel, u.list, u.nextWd) && u.kernel.Keys == s.kernel.Keys + {t} &&
            (forall v :: v in s.kernel ==> u.kernel[v].wd == s.kernel[v].wd) &&
            (forall w :: w in s.list ==> w in u.list)
  {
    hide WatchesOk;
    if t in s.kernel {
      WatchReplaced(s.kernel, s.list, s.nextWd, t, moves);
    } else {
      WatchNew(s.kernel, s.list, s.nextWd, t, moves);
    }
  }

  lemma EventsKeepTargets(kernel: map<Target, Mark>, kernel': map<Target, Mark>, dirs: map<string, Files>,
          events: seq<Event>)
    requires EventsOk(kernel, dirs, events)
    requires forall v :: v in kernel ==> v in kernel' && kernel'[v].wd == kernel[v].wd
    ensures EventsOk(kernel', dirs, events)
  {
    forall e | e in events ensures EventOk(kernel', dirs, e) {
      var t :| t in kernel && kernel[t].wd == e.wd && (e.isDir ==> t == Root);
      assert t in kernel' && kernel'[t].wd == e.wd;
    }
  }

  lemma WatchRootKeeps(s: State, merge: Files -> Rules)
    requires Inv(s, merge) && Enabled(s, WatchRoot)
    ensures Inv(Next(s, WatchRoot, merge), merge)
  {
    hide WatchesOk, WatchAdded;
    WatchAddedFacts(s, Root, true);
  }

  lemma OpenRootKeeps(s: State, merge: Files -> Rules)
    requires Inv(s, merge) && Enabled(s, OpenRoot)
    ensures Inv(Next(s, OpenRoot, merge), merge)
  {
    hide WatchesOk, EventsOk;
  }

  lemma ScanKeeps(s: State, dir: string, merge: Files -> Rules)
    requires Inv(s, merge) && Enabled(s, Scan(dir))
    ensures Inv(Next(s, Scan(dir), merge), merge)
  {
    hide WatchesOk, EventsOk, WatchAdded, Covered;
    var u := Next(s, Scan(dir), merge);
    WatchAddedFacts(s, Dir(dir), true);
    EventsKeepTargets(s.kernel, u.kernel, s.dirs, s.queue);
    EventsKeepTargets(s.kernel, u.kernel, s.dirs, s.buffer);
    forall d | d in u.dirs ensures Covered(u, d, merge) {
      ScanCovers(s, u, dir, d, merge);
    }
  }

  lemma ScanCovers(s: State, u: State, dir: string, d: string, merge: Files -> Rules)
    requires s.phase.Scanning? && Covered(s, d, merge) && d in s.dirs
    requires u.phase == Scanning(s.phase.must, s.phase.seen + {dir}) && u.queue == s.queue && u.buffer == s.buffer
    requires u.kernel.Keys == s.kernel.Keys + {Dir(dir)}
    ensures Covered(u, d, merge)
  {
    assert forall e :: InFlight(s, e) <==> InFlight(u, e);
  }

  lemma EndScanKeeps(s: State, merge: Files -> Rules)
    requires Inv(s, merge) && Enabled(s, EndScan)
    ensures Inv(Next(s, EndScan, merge), merge)
  {
    hide EventsOk;
    var u := Next(s, EndScan, merge);
    assert forall e :: InFlight(s, e) <==> InFlight(u, e);
    forall d | d in u.dirs ensures Covered(u, d, merge) {
      assert Covered(s, d, merge);
      if Dir(d) in s.kernel {
        assert Watch(s.kernel[Dir(d)].wd, Dir(d)) in u.phase.left;
      }
    }
  }

  lemma MergeNextKeeps(s: State, merge: Files -> Rules)
    requires Inv(s, merge) && Enabled(s, MergeNext)
    ensures Inv(Next(s, MergeNext, merge), merge)
  {
    hide EventsOk;
    var u := Next(s, MergeNext, merge);
    var left := s.phase.left;
    assert left == [left[0]] + left[1..];
    assert forall e :: InFlight(s, e) <==> InFlight(u, e);
    forall d | d in u.dirs ensures Covered(u, d, merge) {
      assert Covered(s, d, merge);
    }
  }

  lemma FinishStartKeeps(s: State, merge: Files -> Rules)
    requires Inv(s, merge) && Enabled(s, FinishStart)
    ensures Inv(Next(s, FinishStart, merge), merge)
  {
    hide EventsOk, WatchesOk;
    var u := Next(s, FinishStart, merge);
    assert forall e :: InFlight(s, e) <==> InFlight(u, e);
    forall d | d in u.dirs ensures Covered(u, d, merge) {
      assert Covered(s, d, merge);
    }
  }

  lemma ReadKeeps(s: State, n: nat, merge: Files -> Rules)
    requires Inv(s, merge) && Enabled(s, Read(n))
    ensures Inv(Next(s, Read(n), merge), merge)
  {
    hide WatchesOk, EventOk, Covered;
    var u := Next(s, Read(n), merge);
    assert s.queue == s.queue[..n] + s.queue[n..];
    forall d | d in u.dirs ensures Covered(u, d, merge) {
      CoveredCarries(s, u, d, merge);
    }
  }

  lemma ReadFilesKeeps(s: State, merge: Files -> Rules)
    requires Inv(s, merge) && Enabled(s, ReadFiles)
    ensures Inv(Next(s, ReadFiles, merge), merge)
  {
    hide WatchesOk, EventsOk;
    var u := Next(s, ReadFiles, merge);
    assert forall e :: InFlight(s, e) <==> InFlight(u, e);
    forall d | d in u.dirs ensures Covered(u, d, merge) {
      assert Covered(s, d, merge);
    }
  }

  lemma WriteMergedKeeps(s: State, merge: Files -> Rules)
    requires Inv(s, merge) && Enabled(s, WriteMerged)
    ensures Inv(Next(s, WriteMerged, merge), merge)
  {
    hide WatchesOk, EventsOk;
    var u := Next(s, WriteMerged, merge);
    assert forall e :: InFlight(s, e) <==> InFlight(u, e);
    forall d | d in u.dirs ensures Covered(u, d, merge) {
      assert Covered(s, d, merge);
    }
  }

  /** The daemon finds the watch of every event it reads, and it is the watch of the event's directory. */
  lemma WatchIsFound(s: State, e: Event)
    requires WatchesOk(s.kernel, s.list, s.nextWd) && EventOk(s.kernel, s.dirs, e)
    ensures var w := WatchFromWd(s.list, e.wd);
            w.Some? && w.value.dir in s.kernel && s.kernel[w.value.dir].wd == e.wd && (e.isDir ==> w.value.dir == Root)
  {
    var t :| t in s.kernel && s.kernel[t].wd == e.wd && (e.isDir ==> t == Root);
    assert Watch(e.wd, t) in s.list;
  }

  lemma HandleKeeps(s: State, merge: Files -> Rules)
    requires Inv(s, merge) && Enabled(s, Handle)
    ensures Inv(Next(s, Handle, merge), merge)
  {
    hide WatchesOk, EventsOk, EventOk, WatchAdded, Covered, PhaseOk;
    var e := s.buffer[0];
    var t := s.(buffer := s.buffer[1..]);
    var u := Next(s, Handle, merge);
    assert s.buffer == [e] + s.buffer[1..];
    BufferHead(s, e);
    WatchIsFound(s, e);
    if e.isDir {
      WatchAddedFacts(t, Dir(e.name), false);
      HandledDir(s, t, u, e, merge);
    } else {
      HandledFile(s, t, u, e, merge);
    }
  }

  lemma BufferHead(s: State, e: Event)
    requires EventsOk(s.kernel, s.dirs, s.buffer) && s.buffer != [] && e == s.buffer[0]
    ensures EventOk(s.kernel, s.dirs, e) && EventsOk(s.kernel, s.dirs, s.buffer[1..])
  {
  }

  /** Handling one event covers its directory and leaves all other directories covered. */
  lemma HandledDir(s: State, t: State, u: State, e: Event, merge: Files -> Rules)
    requires Inv(s, merge) && Enabled(s, Handle) && e == s.buffer[0] && e.isDir && EventOk(s.kernel, s.dirs, e)
    requires t == s.(buffer := s.buffer[1..]) && EventsOk(s.kernel, s.dirs, t.buffer) && u == Handled(t, e)
    ensures Inv(u, merge)
  {
    hide WatchesOk, EventsOk, WatchAdded, PhaseOk, Covered;
    WatchAddedFacts(t, Dir(e.name), false);
    EventsKeepTargets(s.kernel, u.kernel, s.dirs, s.queue);
    EventsKeepTargets(s.kernel, u.kernel, s.dirs, t.buffer);
    HandledPhase(s, u, e);
    forall d | d in u.dirs ensures Covered(u, d, merge) {
      DirIsCovered(s, t, u, e, d, merge);
    }
  }

  lemma HandledPhase(s: State, u: State, e: Event)
    requires PhaseOk(s) && Enabled(s, Handle) && EventOk(s.kernel, s.dirs, e) && e.isDir
    requires u == s.(kernel := u.kernel, list := u.list, nextWd := u.nextWd, buffer := u.buffer,
            task := ToMerge(e.name))
    requires u.kernel.Keys == s.kernel.Keys + {Dir(e.name)}
    ensures PhaseOk(u)
  {
  }

  lemma DirIsCovered(s: State, t: State, u: State, e: Event, d: string, merge: Files -> Rules)
    requires Enabled(s, Handle) && e == s.buffer[0] && e.isDir && d in s.dirs && Covered(s, d, merge)
    requires t == s.(buffer := s.buffer[1..])
    requires u == t.(kernel := u.kernel, list := u.list, nextWd := u.nextWd, task := ToMerge(e.name))
    requires u.kernel.Keys == s.kernel.Keys + {Dir(e.name)}
    requires forall v :: v in s.kernel ==> u.kernel[v].wd == s.kernel[v].wd
    ensures Covered(u, d, merge)
  {
    assert s.buffer == [e] + t.buffer;
    assert forall f :: InFlight(s, f) && f != e ==> InFlight(u, f);
  }

  lemma HandledFile(s: State, t: State, u: State, e: Event, merge: Files -> Rules)
    requires Inv(s, merge) && Enabled(s, Handle) && e == s.buffer[0] && !e.isDir && EventOk(s.kernel, s.dirs, e)
    requires t == s.(buffer := s.buffer[1..]) && EventsOk(s.kernel, s.dirs, t.buffer) && u == Handled(t, e)
    requires var w := WatchFromWd(s.list, e.wd); w.Some? && w.value.dir in s.kernel && s.kernel[w.value.dir].wd == e.wd
    ensures Inv(u, merge)
  {
    hide EventsOk, EventOk, WatchesOk, Covered;
    forall d | d in u.dirs ensures Covered(u, d, merge) {
      FileIsCovered(s, t, u, e, d, merge);
    }
  }

  lemma FileIsCovered(s: State, t: State, u: State, e: Event, d: string, merge: Files -> Rules)
    requires Enabled(s, Handle) && e == s.buffer[0] && !e.isDir && d in s.dirs && Covered(s, d, merge)
    requires WatchesOk(s.kernel, s.list, s.nextWd)
    requires t == s.(buffer := s.buffer[1..]) && u == Handled(t, e)
    requires var w := WatchFromWd(s.list, e.wd); w.Some? && w.value.dir in s.kernel && s.kernel[w.value.dir].wd == e.wd
    ensures Covered(u, d, merge)
  {
    assert s.buffer == [e] + t.buffer;
    assert forall f :: InFlight(s, f) && f != e ==> InFlight(u, f);
  }

  lemma NextKeeps(s: State, step: Step, merge: Files -> Rules)
    requires Inv(s, merge) && Enabled(s, step) && !Unseen(s, step)
    ensures Inv(Next(s, step, merge), merge)
  {
    hide Inv, Enabled, Next;
    match step
    case FileOp(_, _, _, _) => FileOpKeeps(s, step, merge);
    case RootFileOp(kind, name) => RootFileOpKeeps(s, kind, name, merge);
    case MakeDir(name) => MakeDirKeeps(s, name, merge);
    case WatchRoot => WatchRootKeeps(s, merge);
    case OpenRoot => OpenRootKeeps(s, merge);
    case Scan(dir) => ScanKeeps(s, dir, merge);
    case EndScan => EndScanKeeps(s, merge);
    case MergeNext => MergeNextKeeps(s, merge);
    case FinishStart => FinishStartKeeps(s, merge);
    case Read(n) => ReadKeeps(s, n, merge);
    case Handle => HandleKeeps(s, merge);
    case ReadFiles => ReadFilesKeeps(s, merge);
    case WriteMerged => WriteMergedKeeps(s, merge);
  }

  // ----- whole runs -----

  /** Every step can be taken when its turn comes. */
  predicate Runs(s: State, steps: seq<Step>, merge: Files -> Rules)
    decreases |steps|
  {
    steps == [] || (Enabled(s, steps[0]) && Runs(Next(s, steps[0], merge), steps[1..], merge))
  }

  function After(s: State, steps: seq<Step>, merge: Files -> Rules): State
    requires Runs(s, steps, merge)
    decreases |steps|
  {
    if steps == [] then s else After(Next(s, steps[0], merge), steps[1..], merge)
  }

  /** No file is moved in a directory whose watch does not report moves. */
  predicate AllSeen(s: State, steps: seq<Step>, merge: Files -> Rules)
    requires Runs(s, steps, merge)
    decreases |steps|
  {
    steps == [] || (!Unseen(s, steps[0]) && AllSeen(Next(s, steps[0], merge), steps[1..], merge))
  }

  /** Started up, and nothing left to do. */
  predicate Drained(s: State) { s.phase == Running && s.queue == [] && s.buffer == [] && s.task == Idle }

  predicate AllAgree(s: State, merge: Files -> Rules) { forall d :: d in s.dirs ==> Agrees(s, d, merge) }

  lemma {:induction false} RunKeeps(s: State, steps: seq<Step>, merge: Files -> Rules)
    requires Inv(s, merge) && Runs(s, steps, merge)
    ensures AllSeen(s, steps, merge) ==> Inv(After(s, steps, merge), merge)
    decreases |steps|
  {
    hide Inv, Enabled, Next, Unseen;
    if steps != [] && !Unseen(s, steps[0]) {
      NextKeeps(s, steps[0], merge);
      RunKeeps(Next(s, steps[0], merge), steps[1..], merge);
    }
  }

  lemma StartIsFine(dirs: map<string, Files>, merged: map<string, Rules>, merge: Files -> Rules)
    ensures Inv(Start(dirs, merged), merge)
  {
  }

  lemma DrainedAgrees(s: State, merge: Files -> Rules)
    requires Inv(s, merge) && Drained(s)
    ensures AllAgree(s, merge)
  {
    hide WatchesOk, EventsOk;
    forall d | d in s.dirs ensures Agrees(s, d, merge) {
      assert Covered(s, d, merge);
      assert forall e :: !InFlight(s, e);
    }
  }

  /** Eventual consistency: whatever the world and the daemon did in between, one system call at a
      time, from the very start on, whenever the daemon has nothing left to do every role's merged
      file is the merge of its directory. */
  lemma MergedFilesFollow(dirs: map<string, Files>, merged: map<string, Rules>, steps: seq<Step>, merge: Files -> Rules)
    ensures var s := Start(dirs, merged);
            Runs(s, steps, merge) && AllSeen(s, steps, merge) && Drained(After(s, steps, merge)) ==>
              AllAgree(After(s, steps, merge), merge)
  {
    hide Inv, Enabled, Next, Unseen, AllAgree;
    var s := Start(dirs, merged);
    if Runs(s, steps, merge) && AllSeen(s, steps, merge) && Drained(After(s, steps, merge)) {
      StartIsFine(dirs, merged, merge);
      RunKeeps(s, steps, merge);
      DrainedAgrees(After(s, steps, merge), merge);
    }
  }

  // ----- the daemon catches up -----

  predicate IsDaemonStep(step: Step) { !step.FileOp? && !step.RootFileOp? && !step.MakeDir? }

  /** What the running daemon does next. */
  function NextDaemonStep(s: State): Step {
    if s.task.ToMerge? then ReadFiles
    else if s.task.Merging? then WriteMerged
    else if s.buffer != [] then Handle
    else Read(|s.queue|)
  }

  function Work(s: State): nat {
    4 * |s.queue| + 3 * |s.buffer| + (if s.task.ToMerge? then 2 else if s.task.Merging? then 1 else 0)
  }

  lemma DaemonStepWorks(s: State, merge: Files -> Rules)
    requires Inv(s, merge) && s.phase == Running && !Drained(s)
    ensures var step := NextDaemonStep(s);
            Enabled(s, step) && IsDaemonStep(step) && !Unseen(s, step) &&
            var t := Next(s, step, merge);
            t.phase == Running && t.dirs == s.dirs && Work(t) < Work(s)
  {
    hide WatchesOk, EventsOk, Covered, MergeIsFresh;
  }

  /** Left alone by the world, the daemon is done after a bounded number of its own steps, and then
      all merged files agree with the directories as they are. */
  lemma {:induction false} CatchesUp(s: State, merge: Files -> Rules) returns (steps: seq<Step>)
    requires Inv(s, merge) && s.phase == Running
    ensures Runs(s, steps, merge) && |steps| <= Work(s) && (forall i :: 0 <= i < |steps| ==> IsDaemonStep(steps[i]))
    ensures var t := After(s, steps, merge); Drained(t) && t.dirs == s.dirs && AllAgree(t, merge)
    decreases Work(s)
  {
    hide Inv, Enabled, Next, Unseen, AllAgree, IsDaemonStep, Work;
    if Drained(s) {
      steps := [];
      DrainedAgrees(s, merge);
    } else {
      var step := NextDaemonStep(s);
      DaemonStepWorks(s, merge);
      NextKeeps(s, step, merge);
      var rest := CatchesUp(Next(s, step, merge), merge);
      steps := [step] + rest;
      assert steps[1..] == rest;
    }
  }

  // ----- moves that the watch does not report -----

  /** In a drained state, after one move of a file: the directory agrees with its merged file or a
      report about it is on its way exactly when the watch reports moves or the merge is not affected. */
  lemma MoveIsSeenOrHarmless(s: State, step: Step, merge: Files -> Rules)
    requires Inv(s, merge) && Drained(s) && step.FileOp? && IsMove(step.kind) && Enabled(s, step)
    ensures Dir(step.dir) in s.kernel
    ensures var u := Next(s, step, merge);
            Agrees(u, step.dir, merge) || Unhandled(u, step.dir) <==>
            !Unseen(s, step) || merge(u.dirs[step.dir]) == merge(s.dirs[step.dir])
  {
    hide WatchesOk, EventsOk, Changed;
    var u := Next(s, step, merge);
    DrainedAgrees(s, merge);
    assert forall e :: !InFlight(s, e);
    assert Covered(s, step.dir, merge);
    if !Unseen(s, step) {
      FileOpKeeps(s, step, merge);
      ChangeIsCovered(s, u, step, merge);
    } else {
      assert u.queue == s.queue;
      assert forall e :: !InFlight(u, e);
    }
  }

  lemma OneStep(s: State, step: Step, rest: seq<Step>, merge: Files -> Rules)
    requires Enabled(s, step) && Runs(Next(s, step, merge), rest, merge)
    ensures Runs(s, [step] + rest, merge) && After(s, [step] + rest, merge) == After(Next(s, step, merge), rest, merge)
  {
    hide Enabled, Next;
    assert ([step] + rest)[1..] == rest;
  }

  /** One run after another is one run. */
  lemma {:induction false} RunsOn(s: State, a: seq<Step>, b: seq<Step>, merge: Files -> Rules)
    requires Runs(s, a, merge) && Runs(After(s, a, merge), b, merge)
    ensures Runs(s, a + b, merge) && After(s, a + b, merge) == After(After(s, a, merge), b, merge)
    decreases |a|
  {
    hide Enabled, Next;
    if a == [] {
      assert a + b == b;
    } else {
      RunsOn(Next(s, a[0], merge), a[1..], b, merge);
      assert (a + b)[1..] == a[1..] + b;
    }
  }

  /** From an empty directory to a running daemon. */
  const STARTING: seq<Step> := [WatchRoot, OpenRoot, EndScan] + [MergeNext, FinishStart]

  const IDLE: State :=
    State(map[], map[], map[Root := Mark(1, true)], 2, [], [], [Watch(1, Root)], Running, Idle)

  lemma ScansNothing(merge: Files -> Rules)
    ensures Runs(Start(map[], map[]), [WatchRoot, OpenRoot, EndScan], merge)
    ensures After(Start(map[], map[]), [WatchRoot, OpenRoot, EndScan], merge) ==
            IDLE.(phase := MergingAll([Watch(1, Root)]))
  {
    var s0, steps := Start(map[], map[]), [WatchRoot, OpenRoot, EndScan];
    var s1 := IDLE.(phase := RootWatched);
    var s2 := IDLE.(phase := Scanning({}, {}));
    var none: map<string, Files> := map[];
    assert s0.dirs == map[] && none.Keys == {};
    assert Next(s0, steps[0], merge) == s1;
    assert Next(s1, steps[1], merge) == s2;
    assert Next(s2, steps[2], merge) == IDLE.(phase := MergingAll([Watch(1, Root)]));
  }

  lemma MergesNothing(merge: Files -> Rules)
    ensures Runs(IDLE.(phase := MergingAll([Watch(1, Root)])), [MergeNext, FinishStart], merge)
    ensures After(IDLE.(phase := MergingAll([Watch(1, Root)])), [MergeNext, FinishStart], merge) == IDLE
  {
    var s3, s4 := IDLE.(phase := MergingAll([Watch(1, Root)])), IDLE.(phase := MergingAll([]));
    assert [Watch(1, Root)][1..] == [];
    assert Next(s3, MergeNext, merge) == s4;
    assert Next(s4, FinishStart, merge) == IDLE;
  }

  lemma StartsUp(merge: Files -> Rules)
    ensures Runs(Start(map[], map[]), STARTING, merge) && After(Start(map[], map[]), STARTING, merge) == IDLE
  {
    hide Runs, After, Start;
    ScansNothing(merge);
    MergesNothing(merge);
    RunsOn(Start(map[], map[]), [WatchRoot, OpenRoot, EndScan], [MergeNext, FinishStart], merge);
  }

  /** A role directory made later, with a file moved into it once it is watched. */
  const LATE_DIR: seq<Step> :=
    [MakeDir("r"), Read(1), Handle, ReadFiles, WriteMerged, FileOp("r", MovedTo, "f", "x")]

  lemma LateDirRuns(merge: Files -> Rules)
    ensures Runs(IDLE, LATE_DIR, merge)
    ensures var t := After(IDLE, LATE_DIR, merge);
            Drained(t) && t.dirs == map["r" := map["f" := "x"]] && t.merged == map["r" := merge(map[])] &&
            (merge(map[]) != merge(map["f" := "x"]) ==> !AllAgree(t, merge))
  {
    var made := Event(1, Create, true, "r");
    var kernel: map<Target, Mark> := map[Root := Mark(1, true)];
    var watched := kernel[Dir("r") := Mark(2, false)];
    var list := [Watch(1, Root), Watch(2, Dir("r"))];
    var s1 := State(map["r" := map[]], map[], kernel, 2, [made], [], [Watch(1, Root)], Running, Idle);
    var s2 := s1.(queue := [], buffer := [made]);
    var s3 := State(map["r" := map[]], map[], watched, 3, [], [], list, Running, ToMerge("r"));
    var s4 := s3.(task := Merging("r", map[]));
    var s5 := s4.(task := Idle, merged := map["r" := merge(map[])]);
    var s6 := s5.(dirs := map["r" := map["f" := "x"]]);
    assert Next(IDLE, LATE_DIR[0], merge) == s1;
    assert Next(s1, LATE_DIR[1], merge) == s2;
    assert Next(s2, LATE_DIR[2], merge) == s3;
    assert Next(s3, LATE_DIR[3], merge) == s4;
    assert Next(s4, LATE_DIR[4], merge) == s5;
    assert Next(s5, LATE_DIR[5], merge) == s6;
    OneStep(s5, LATE_DIR[5], [], merge);
    OneStep(s4, LATE_DIR[4], LATE_DIR[5..], merge);
  }

  /** The move is not seen: from the very start on, this run ends with a daemon that has nothing to do
      and a merged file that lacks the new file. */
  lemma LateDirMissesMove(merge: Files -> Rules)
    ensures Runs(Start(map[], map[]), STARTING + LATE_DIR, merge)
    ensures var t := After(Start(map[], map[]), STARTING + LATE_DIR, merge);
            Drained(t) && t.dirs == map["r" := map["f" := "x"]] && t.merged == map["r" := merge(map[])] &&
            (merge(map[]) != merge(map["f" := "x"]) ==> !AllAgree(t, merge))
  {
    hide *;
    StartsUp(merge);
    LateDirRuns(merge);
    RunsOn(Start(map[], map[]), STARTING, LATE_DIR, merge);
  }

  /** A directory made between the start of the root's watch and its scan: it is found by the scan and
      reported as new, and handling the report takes the moves out of its mask again. */
  const RACE_BEGIN: seq<Step> := [WatchRoot, MakeDir("r"), OpenRoot]
  const RACE_SCAN: seq<Step> := [Scan("r"), EndScan, MergeNext, MergeNext]
  const RACE_FINISH: seq<Step> := [ReadFiles, WriteMerged, FinishStart]
  const RACE_END: seq<Step> := [Read(1), Handle, ReadFiles, WriteMerged]

  const OPENED: State :=
    State(map["r" := map[]], map[], map[Root := Mark(1, true)], 2, [Event(1, Create, true, "r")], [],
          [Watch(1, Root)], Scanning({"r"}, {}), Idle)

  lemma RaceBegins(merge: Files -> Rules)
    ensures Runs(Start(map[], map[]), RACE_BEGIN, merge) && After(Start(map[], map[]), RACE_BEGIN, merge) == OPENED
  {
    var s0 := Start(map[], map[]);
    var dirs: map<string, Files> := map["r" := map[]];
    var s1 := State(map[], map[], map[Root := Mark(1, true)], 2, [], [], [Watch(1, Root)], RootWatched, Idle);
    var s2 := OPENED.(phase := RootWatched);
    assert s0.dirs == map[] && dirs.Keys == {"r"};
    assert Next(s0, RACE_BEGIN[0], merge) == s1;
    assert Next(s1, RACE_BEGIN[1], merge) == s2;
    assert Next(s2, RACE_BEGIN[2], merge) == OPENED;
  }

  lemma RaceScans(merge: Files -> Rules)
    ensures Runs(OPENED, RACE_SCAN, merge) && After(OPENED, RACE_SCAN, merge) == RACED
  {
    var list := [Watch(1, Root), Watch(2, Dir("r"))];
    var s1 := RACED.(phase := Scanning({"r"}, {"r"}), task := Idle);
    var s2 := RACED.(phase := MergingAll(list), task := Idle);
    var s3 := RACED.(phase := MergingAll([Watch(2, Dir("r"))]), task := Idle);
    assert {} + {"r"} == {"r"};
    assert map[Root := Mark(1, true)][Dir("r") := Mark(2, true)] == RACED.kernel;
    assert list[1..] == [Watch(2, Dir("r"))] && [Watch(2, Dir("r"))][1..] == [];
    assert Next(OPENED, RACE_SCAN[0], merge) == s1;
    assert Next(s1, RACE_SCAN[1], merge) == s2;
    assert Next(s2, RACE_SCAN[2], merge) == s3;
    assert Next(s3, RACE_SCAN[3], merge) == RACED;
    OneStep(s2, RACE_SCAN[2], RACE_SCAN[3..], merge);
    OneStep(s1, RACE_SCAN[1], RACE_SCAN[2..], merge);
  }

  const RACED: State :=
    State(map["r" := map[]], map[], map[Root := Mark(1, true), Dir("r") := Mark(2, true)], 3,
          [Event(1, Create, true, "r")], [], [Watch(1, Root), Watch(2, Dir("r"))], MergingAll([]), ToMerge("r"))

  lemma RaceFinishes(merge: Files -> Rules)
    ensures Runs(RACED, RACE_FINISH, merge)
    ensures After(RACED, RACE_FINISH, merge) ==
            RACED.(phase := Running, task := Idle, merged := map["r" := merge(map[])])
  {
    var s1 := RACED.(task := Merging("r", map[]));
    var s2 := RACED.(task := Idle, merged := map["r" := merge(map[])]);
    assert Next(RACED, RACE_FINISH[0], merge) == s1;
    assert Next(s1, RACE_FINISH[1], merge) == s2;
    assert Next(s2, RACE_FINISH[2], merge) == s2.(phase := Running);
  }

  /** The end of the race, and the state it leads to. */
  function Raced(merge: Files -> Rules): State {
    State(map["r" := map[]], map["r" := merge(map[])], map[Root := Mark(1, true), Dir("r") := Mark(2, false)], 3,
          [], [], [Watch(1, Root), Watch(2, Dir("r")), Watch(2, Dir("r"))], Running, Idle)
  }

  lemma RaceEnds(merge: Files -> Rules)
    ensures var s := RACED.(phase := Running, task := Idle, merged := map["r" := merge(map[])]);
            Runs(s, RACE_END, merge) && After(s, RACE_END, merge) == Raced(merge)
  {
    var made := Event(1, Create, true, "r");
    var list := [Watch(1, Root), Watch(2, Dir("r")), Watch(2, Dir("r"))];
    var k: map<Target, Mark> := map[Root := Mark(1, true), Dir("r") := Mark(2, false)];
    var s3 := RACED.(phase := Running, task := Idle, merged := map["r" := merge(map[])]);
    var s4 := s3.(queue := [], buffer := [made]);
    var s5 := s4.(buffer := [], kernel := k, list := list, task := ToMerge("r"));
    var s6 := s5.(task := Merging("r", map[]));
    assert Next(s3, RACE_END[0], merge) == s4;
    assert Next(s4, RACE_END[1], merge) == s5;
    assert Next(s5, RACE_END[2], merge) == s6;
    assert Next(s6, RACE_END[3], merge) == s5.(task := Idle);
    OneStep(s5, RACE_END[2], RACE_END[3..], merge);
    OneStep(s4, RACE_END[1], RACE_END[2..], merge);
  }

  const MOVE_IN: seq<Step> := [FileOp("r", MovedTo, "f", "x")]

  lemma RaceMisses(merge: Files -> Rules)
    ensures Runs(Raced(merge), MOVE_IN, merge)
    ensures After(Raced(merge), MOVE_IN, merge) == Raced(merge).(dirs := map["r" := map["f" := "x"]])
  {
    var t := Raced(merge).(dirs := map["r" := map["f" := "x"]]);
    assert Next(Raced(merge), MOVE_IN[0], merge) == t;
    OneStep(Raced(merge), MOVE_IN[0], [], merge);
    assert [MOVE_IN[0]] + [] == MOVE_IN;
  }

  const RACE: seq<Step> := RACE_BEGIN + RACE_SCAN + RACE_FINISH + RACE_END

  /** So a directory found at start-up does not always keep its reports of moves: this run from the
      very start ends with a watch without moves, and then a move is missed as well. */
  lemma RaceLosesMoves(merge: Files -> Rules)
    ensures Runs(Start(map[], map[]), RACE, merge)
    ensures var t := After(Start(map[], map[]), RACE, merge);
            Drained(t) && t.kernel == map[Root := Mark(1, true), Dir("r") := Mark(2, false)]
    ensures Runs(Start(map[], map[]), RACE + MOVE_IN, merge)
    ensures var t := After(Start(map[], map[]), RACE + MOVE_IN, merge);
            Drained(t) && t.dirs == map["r" := map["f" := "x"]] && t.merged == map["r" := merge(map[])] &&
            (merge(map[]) != merge(map["f" := "x"]) ==> !AllAgree(t, merge))
  {
    var start := Start(map[], map[]);
    RaceIsOneRun(merge);
    RaceMisses(merge);
    RacedFacts(merge);
    hide *;
    RunsOn(start, RACE, MOVE_IN, merge);
  }

  lemma RaceIsOneRun(merge: Files -> Rules)
    ensures Runs(Start(map[], map[]), RACE, merge) && After(Start(map[], map[]), RACE, merge) == Raced(merge)
  {
    hide Runs, After, Start, RACED, OPENED, RACE_BEGIN, RACE_SCAN, RACE_FINISH, RACE_END, Raced;
    var start := Start(map[], map[]);
    RaceBegins(merge);
    RaceScans(merge);
    RaceFinishes(merge);
    RaceEnds(merge);
    RunsOn(start, RACE_BEGIN, RACE_SCAN, merge);
    RunsOn(start, RACE_BEGIN + RACE_SCAN, RACE_FINISH, merge);
    RunsOn(start, RACE_BEGIN + RACE_SCAN + RACE_FINISH, RACE_END, merge);
  }

  lemma RacedFacts(merge: Files -> Rules)
    ensures var s := Raced(merge);
            Drained(s) && s.kernel == map[Root := Mark(1, true), Dir("r") := Mark(2, false)] &&
            var t := s.(dirs := map["r" := map["f" := "x"]]);
            Drained(t) && t.merged == map["r" := merge(map[])] &&
            (merge(map[]) != merge(map["f" := "x"]) ==> !AllAgree(t, merge))
  {
    var t := Raced(merge).(dirs := map["r" := map["f" := "x"]]);
    assert "r" in t.dirs;
  }
}
