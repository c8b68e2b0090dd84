/** The ACL manager's watch list and its event callback, as they work on the fields of one object. */
module AclDaemon {
  import opened Wrappers
  import opened AclWatch
  import opened AclConsistency

  class Daemon {
    // the world
    var dirs: map<string, Files>
    var merged: map<string, Rules>
    var kernel: map<Target, Mark>
    var nextWd: nat
    var queue: seq<Event>
    // the daemon
    var buffer: seq<Event>
    var watchList: seq<Watch>
    var phase: Phase
    var task: Task
    const merge: Files -> Rules

    ghost function State(): AclWatch.State
      reads this
    {
      AclWatch.State(dirs, merged, kernel, nextWd, queue, buffer, watchList, phase, task)
    }

    constructor (dirs: map<string, Files>, merged: map<string, Rules>, merge: Files -> Rules)
      ensures State() == Start(dirs, merged) && this.merge == merge && Inv(State(), merge)
    {
      this.dirs, this.merged, this.merge := dirs - {MERGE_DIR}, merged, merge;
      kernel, nextWd, queue, buffer, watchList, phase, task := map[], 1, [], [], [], Fresh, Task.Idle;
      new;
      StartIsFine(dirs, merged, merge);
    }

    /** `inotify_add_watch`: a watched target keeps its descriptor and gets the new mask. */
    method AddWatch(t: Target, moves: bool) returns (wd: nat)
      modifies `kernel, `nextWd
      ensures t in kernel && wd == kernel[t].wd
      ensures State().(list := watchList + [Watch(wd, t)]) == WatchAdded(old(State()), t, moves)
    {
      if t in kernel {
        wd := kernel[t].wd;
      } else {
        wd := nextWd;
        nextWd := nextWd + 1;
      }
      kernel := kernel[t := Mark(wd, moves)];
    }

    /** A directory found by the scan of the root; "merged" was skipped by the caller. */
    method HandleDirEntry(dir: string)
      requires Enabled(State(), Scan(dir))
      modifies `kernel, `nextWd, `watchList, `phase
      ensures State() == Next(old(State()), Scan(dir), merge)
    {
      var wd := AddWatch(Dir(dir), true);
      watchList := watchList + [Watch(wd, Dir(dir))];
      phase := Scanning(phase.must, phase.seen + {dir});
    }

    method WatchNewDir(child: string) returns (wd: nat)
      modifies `kernel, `nextWd, `watchList
      ensures State() == WatchAdded(old(State()), Dir(child), false) && Watch(wd, Dir(child)) in watchList
    {
      wd := AddWatch(Dir(child), false);
      watchList := watchList + [Watch(wd, Dir(child))];
    }

    /** The first watch in the list with this descriptor. */
    method FindWatch(wd: nat) returns (watch: Option<Watch>)
      ensures watch == WatchFromWd(watchList, wd)
    {
      var i := 0;
      while i < |watchList|
        invariant 0 <= i <= |watchList|
        invariant WatchFromWd(watchList, wd) == WatchFromWd(watchList[i..], wd)
      {
        if watchList[i].wd == wd {
          return Some(watchList[i]);
        }
        i := i + 1;
      }
      return None;
    }

    /** Reads a role's directory and writes its merged file, with nothing in between. */
    method Merge(dir: string)
      requires dir in dirs
      modifies `merged
      ensures merged == old(merged)[dir := merge(dirs[dir])]
    {
      var files := dirs[dir];
      merged := merged[dir := merge(files)];
    }

    /** One record of the event buffer.  The watch of every event is there, so nothing that is missing
        is looked into. */
    method HandleEvent(e: Event)
      requires Inv(State(), merge) && Enabled(State(), Handle) && e == buffer[0]
      modifies `kernel, `nextWd, `watchList, `merged, `buffer
      ensures State() == Settled(old(State()), merge)
      ensures Inv(State(), merge) && task == Task.Idle && phase == Running
      ensures buffer == old(buffer)[1..] && queue == old(queue) && dirs == old(dirs)
    {
      ghost var s := State();
      EventIsFine(s, e);
      HandleThenMerge(s, merge);
      SettledIs(s, merge);
      hide Inv, Next, Enabled, Settled, WatchFromWd, WatchAdded;
      buffer := buffer[1..];
      var watch := FindWatch(e.wd);
      if e.isDir {
        if e.kind == Create || e.kind == MovedTo {
          var wd := WatchNewDir(e.name);
          Merge(e.name);
        }
      } else if watch.value.dir != Root {
        Merge(watch.value.dir.name);
      }
    }

    /** The event callback: one read, and then record after record until the buffer is used up. */
    method InotifyCb(n: nat)
      requires Inv(State(), merge) && Enabled(State(), Read(n))
      modifies `kernel, `nextWd, `watchList, `merged, `buffer, `queue
      ensures Inv(State(), merge) && task == Task.Idle && phase == Running
      ensures buffer == [] && queue == old(queue[n..]) && dirs == old(dirs)
      ensures n == old(|queue|) ==> AllAgree(State(), merge)
    {
      ReadKeeps(State(), n, merge);
      hide Inv;
      buffer, queue := queue[..n], queue[n..];
      while buffer != []
        invariant Inv(State(), merge) && task == Task.Idle && phase == Running
        invariant queue == old(queue[n..]) && dirs == old(dirs)
        decreases |buffer|
      {
        HandleEvent(buffer[0]);
      }
      if n == old(|queue|) {
        DrainedAgrees(State(), merge);
      }
    }
  }

  /** One record and the merge it leads to, without anything in between. */
  function Settled(s: State, merge: Files -> Rules): State
    requires Enabled(s, Handle)
  {
    var t := Next(s, Handle, merge);
    if t.task.ToMerge? && t.task.dir in t.dirs
    then t.(task := Task.Idle, merged := t.merged[t.task.dir := merge(t.dirs[t.task.dir])])
    else t
  }

  lemma HandleThenMerge(s: State, merge: Files -> Rules)
    requires Inv(s, merge) && Enabled(s, Handle)
    ensures var t := Settled(s, merge);
            Inv(t, merge) && t.task == Task.Idle && t.phase == Running &&
            t.buffer == s.buffer[1..] && t.queue == s.queue && t.dirs == s.dirs
  {
    hide Inv, Next, Handled;
    HandleKeeps(s, merge);
    HandleLeaves(s, merge);
    var t := Next(s, Handle, merge);
    if t.task.ToMerge? {
      MergeAtOnceKeeps(t, merge);
    }
  }

  /** What a record leads to, by its kind. */
  lemma SettledIs(s: State, merge: Files -> Rules)
    requires Inv(s, merge) && Enabled(s, Handle)
    ensures var e, t := s.buffer[0], s.(buffer := s.buffer[1..]);
            var w := WatchFromWd(s.list, e.wd);
            w.Some? && (w.value.dir != Root ==> w.value.dir.name in s.dirs) &&
            (e.isDir ==> e.kind == Create && e.name in s.dirs) &&
            Settled(s, merge) ==
            if e.isDir then WatchAdded(t, Dir(e.name), false).(merged := s.merged[e.name := merge(s.dirs[e.name])])
            else if w.value.dir == Root then t
            else t.(merged := s.merged[w.value.dir.name := merge(s.dirs[w.value.dir.name])])
  {
    hide Covered, MergeIsFresh, WatchesOk;
    EventIsFine(s, s.buffer[0]);
  }

  lemma MergeAtOnceKeeps(t: State, merge: Files -> Rules)
    requires Inv(t, merge) && t.task.ToMerge? && t.task.dir in t.dirs
    ensures Inv(t.(task := Task.Idle, merged := t.merged[t.task.dir := merge(t.dirs[t.task.dir])]), merge)
  {
    hide Inv;
    ReadFilesKeeps(t, merge);
    WriteMergedKeeps(Next(t, ReadFiles, merge), merge);
  }

  lemma HandleLeaves(s: State, merge: Files -> Rules)
    requires Inv(s, merge) && Enabled(s, Handle)
    ensures var t := Next(s, Handle, merge);
            t.buffer == s.buffer[1..] && t.queue == s.queue && t.dirs == s.dirs && t.phase == Running &&
            (t.task == Task.Idle || (t.task.ToMerge? && t.task.dir in t.dirs))
  {
    hide Covered, MergeIsFresh;
    EventIsFine(s, s.buffer[0]);
  }

  lemma EventIsFine(s: State, e: Event)
    requires WatchesOk(s.kernel, s.list, s.nextWd) && EventsOk(s.kernel, s.dirs, s.buffer) && PhaseOk(s)
    requires s.buffer != [] && e == s.buffer[0]
    ensures var w := WatchFromWd(s.list, e.wd);
            w.Some? && (w.value.dir != Root ==> w.value.dir.name in s.dirs)
    ensures e.isDir ==> e.kind == Create && e.name in s.dirs
  {
    hide WatchesOk;
    assert EventOk(s.kernel, s.dirs, e);
    WatchIsFound(s, e);
  }
}
