/** The ACL manager, the directories it watches, and the kernel's event queue between them. */
module AclWatch {
  import opened Wrappers

  /** The contents of a role's directory, and of a merged file. */
  type Files = map<string, string>
  type Rules = string

  /** The directory of merged files lies among the role directories but is not one. */
  const MERGE_DIR := "merged"

  datatype Target = Root | Dir(name: string)

  /** The kernel's side of a watch; `moves` tells whether its mask includes moves. */
  datatype Mark = Mark(wd: nat, moves: bool)

  datatype Kind = Create | Modify | Delete | MovedTo | MovedFrom

  datatype Event = Event(wd: nat, kind: Kind, isDir: bool, name: string)

  /** `aclm_watch_t`; the role of a directory's watch is the directory's name, the root's has none. */
  datatype Watch = Watch(wd: nat, dir: Target)

  datatype Phase =
    | Fresh                                              // nothing watched yet
    | RootWatched                                        // before the root is opened for reading
    | Scanning(must: set<string>, seen: set<string>)     // entries the reading has to return; entries returned
    | MergingAll(left: seq<Watch>)                       // watches the initial merge still has to visit
    | Running

  /** A merge takes two system calls; the directory may change in between. */
  datatype Task = Idle | ToMerge(dir: string) | Merging(dir: string, files: Files)

  datatype State = State(
    dirs: map<string, Files>,
    merged: map<string, Rules>,
    kernel: map<Target, Mark>,
    nextWd: nat,
    queue: seq<Event>,
    buffer: seq<Event>,
    list: seq<Watch>,
    phase: Phase,
    task: Task)

  datatype Step =
    // the world
    | FileOp(dir: string, kind: Kind, name: string, content: string)
    | RootFileOp(kind: Kind, name: string)
    | MakeDir(name: string)
    // the daemon's start
    | WatchRoot
    | OpenRoot
    | Scan(dir: string)
    | EndScan
    | MergeNext
    | FinishStart
    // the daemon's event callback
    | Read(n: nat)
    | Handle
    // both
    | ReadFiles
    | WriteMerged

  /** The daemon's start, before anything happened. */
  function Start(dirs: map<string, Files>, merged: map<string, Rules>): State {
    State(dirs - {MERGE_DIR}, merged, map[], 1, [], [], [], Fresh, Idle)
  }

  // ----- the kernel -----

  /** An event that equals the last unread one is dropped. */
  function Enqueued(queue: seq<Event>, e: Event): seq<Event> {
    if queue != [] && queue[|queue| - 1] == e then queue else queue + [e]
  }

  /** Adding a watch to a target that has one keeps the descriptor and replaces the mask. */
  function WatchAdded(s: State, t: Target, moves: bool): State {
    if t in s.kernel then
      s.(kernel := s.kernel[t := Mark(s.kernel[t].wd, moves)], list := s.list + [Watch(s.kernel[t].wd, t)])
    else
      s.(kernel := s.kernel[t := Mark(s.nextWd, moves)], nextWd := s.nextWd + 1, list := s.list + [Watch(s.nextWd, t)])
  }

  predicate IsMove(kind: Kind) { kind == MovedTo || kind == MovedFrom }

  /** The kernel reports what the mask of the target's watch asks for. */
  function Reported(s: State, t: Target, kind: Kind, isDir: bool, name: string): State {
    if t in s.kernel && (IsMove(kind) ==> s.kernel[t].moves)
    then s.(queue := Enqueued(s.queue, Event(s.kernel[t].wd, kind, isDir, name)))
    else s
  }

  function Changed(files: Files, kind: Kind, name: string, content: string): Files {
    if kind == Delete || kind == MovedFrom then files - {name} else files[name := content]
  }

  // ----- the daemon -----

  /** The first watch with this descriptor. */
  function WatchFromWd(list: seq<Watch>, wd: nat): (r: Option<Watch>)
    ensures r.Some? ==> r.value in list && r.value.wd == wd
    ensures r == None ==> forall w :: w in list ==> w.wd != wd
  {
    if list == [] then None
    else if list[0].wd == wd then Some(list[0])
    else WatchFromWd(list[1..], wd)
  }

  /** One record of the event buffer.  A new directory gets a watch (without moves) and is merged; a
      change of a file leads to a merge of its directory; files in the root have no role to merge. */
  function Handled(s: State, e: Event): State {
    if e.isDir then
      if e.kind == Create || e.kind == MovedTo then WatchAdded(s, Dir(e.name), false).(task := ToMerge(e.name)) else s
    else
      match WatchFromWd(s.list, e.wd)
      case Some(Watch(_, Dir(d))) => s.(task := ToMerge(d))
      case _ => s
  }

  predicate Enabled(s: State, step: Step) {
    match step
    case FileOp(dir, kind, name, _) =>
      dir in s.dirs && (kind == Create ==> name !in s.dirs[dir]) &&
      (kind == Modify || kind == Delete || kind == MovedFrom ==> name in s.dirs[dir])
    case RootFileOp(_, _) => true
    case MakeDir(name) => name !in s.dirs && name != MERGE_DIR
    case WatchRoot => s.phase == Fresh
    case OpenRoot => s.phase == RootWatched
    case Scan(dir) => s.phase.Scanning? && dir in s.dirs && dir !in s.phase.seen
    case EndScan => s.phase.Scanning? && s.phase.must <= s.phase.seen
    case MergeNext => s.phase.MergingAll? && s.phase.left != [] && s.task == Idle
    case FinishStart => s.phase == MergingAll([]) && s.task == Idle
    case Read(n) => s.phase == Running && s.task == Idle && s.buffer == [] && 0 < n <= |s.queue|
    case Handle => s.phase == Running && s.task == Idle && s.buffer != []
    case ReadFiles => s.task.ToMerge? && s.task.dir in s.dirs
    case WriteMerged => s.task.Merging?
  }

  function Next(s: State, step: Step, merge: Files -> Rules): State
    requires Enabled(s, step)
  {
    match step
    case FileOp(dir, kind, name, content) =>
      Reported(s.(dirs := s.dirs[dir := Changed(s.dirs[dir], kind, name, content)]), Dir(dir), kind, false, name)
    case RootFileOp(kind, name) => Reported(s, Root, kind, false, name)
    case MakeDir(name) => Reported(s.(dirs := s.dirs[name := map[]]), Root, Create, true, name)
    case WatchRoot => WatchAdded(s, Root, true).(phase := RootWatched)
    case OpenRoot => s.(phase := Scanning(s.dirs.Keys, {}))
    case Scan(dir) => WatchAdded(s, Dir(dir), true).(phase := Scanning(s.phase.must, s.phase.seen + {dir}))
    case EndScan => s.(phase := MergingAll(s.list))
    case MergeNext =>
      var w := s.phase.left[0];
      s.(phase := MergingAll(s.phase.left[1..]), task := if w.dir == Root then Idle else ToMerge(w.dir.name))
    case FinishStart => s.(phase := Running)
    case Read(n) => s.(buffer := s.queue[..n], queue := s.queue[n..])
    case Handle => Handled(s.(buffer := s.buffer[1..]), s.buffer[0])
    case ReadFiles => s.(task := Merging(s.task.dir, s.dirs[s.task.dir]))
    case WriteMerged => s.(merged := s.merged[s.task.dir := merge(s.task.files)], task := Idle)
  }
}
