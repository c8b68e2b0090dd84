/** Role directories that are there from the start keep their reports of moves. */
module AclMoves {
  import opened Wrappers
  import opened AclWatch
  import opened AclConsistency

  /** The directories of `known` are watched for moves, and none of them is ever reported as new. */
  ghost predicate MovesOk(s: State, known: set<string>) {
    known <= s.dirs.Keys &&
    (forall d :: d in known && Dir(d) in s.kernel ==> s.kernel[Dir(d)].moves) &&
    (forall e :: InFlight(s, e) && e.isDir ==> e.name !in known)
  }

  predicate IsWorldStep(step: Step) { step.FileOp? || step.RootFileOp? || step.MakeDir? }

  lemma WorldKeepsMoves(s: State, step: Step, known: set<string>, merge: Files -> Rules)
    requires MovesOk(s, known) && Enabled(s, step) && IsWorldStep(step)
    ensures MovesOk(Next(s, step, merge), known)
  {
    hide Reported, Changed;
    match step
    case FileOp(dir, kind, name, content) =>
      var u := s.(dirs := s.dirs[dir := Changed(s.dirs[dir], kind, name, content)]);
      ReportedFacts(u, Dir(dir), kind, false, name);
    case RootFileOp(kind, name) =>
      ReportedFacts(s, Root, kind, false, name);
    case MakeDir(name) =>
      ReportedFacts(s.(dirs := s.dirs[name := map[]]), Root, Create, true, name);
  }

  lemma EventsKeepMoves(s: State, step: Step, known: set<string>, merge: Files -> Rules)
    requires MovesOk(s, known) && Enabled(s, step) && (step.Read? || step.Handle?)
    ensures MovesOk(Next(s, step, merge), known)
  {
    hide WatchFromWd;
    var t := Next(s, step, merge);
    match step
    case Read(n) =>
      assert forall e :: InFlight(t, e) ==> e in s.queue;
    case Handle =>
      assert InFlight(s, s.buffer[0]);
      assert forall e :: InFlight(t, e) ==> InFlight(s, e);
  }

  lemma NextKeepsMoves(s: State, step: Step, known: set<string>, merge: Files -> Rules)
    requires MovesOk(s, known) && Enabled(s, step)
    ensures MovesOk(Next(s, step, merge), known)
  {
    if IsWorldStep(step) {
      WorldKeepsMoves(s, step, known, merge);
    } else if step.Read? || step.Handle? {
      EventsKeepMoves(s, step, known, merge);
    } else {
      assert forall e :: InFlight(Next(s, step, merge), e) ==> InFlight(s, e);
    }
  }

  lemma {:induction false} RunKeepsMoves(s: State, steps: seq<Step>, known: set<string>, merge: Files -> Rules)
    requires MovesOk(s, known) && Runs(s, steps, merge)
    ensures MovesOk(After(s, steps, merge), known)
    decreases |steps|
  {
    hide MovesOk, Enabled, Next;
    if steps != [] {
      NextKeepsMoves(s, steps[0], known, merge);
      RunKeepsMoves(Next(s, steps[0], merge), steps[1..], known, merge);
    }
  }

  /** After every run, whatever happened in it: a directory that was there from the start and is watched
      is watched for moves. */
  lemma StartDirsReportMoves(dirs: map<string, Files>, merged: map<string, Rules>, steps: seq<Step>,
                             merge: Files -> Rules)
    ensures var s := Start(dirs, merged);
            Runs(s, steps, merge) ==>
              forall d :: d in dirs && d != "merged" ==>
                var t := After(s, steps, merge);
                d in t.dirs && (Dir(d) in t.kernel ==> t.kernel[Dir(d)].moves)
  {
    hide Runs, After;
    var s := Start(dirs, merged);
    if Runs(s, steps, merge) {
      RunKeepsMoves(s, steps, s.dirs.Keys, merge);
    }
  }

  /** Files are moved in these directories only. */
  predicate MovesIn(steps: seq<Step>, known: set<string>) {
    forall step :: step in steps && step.FileOp? && IsMove(step.kind) ==> step.dir in known
  }

  lemma {:induction false} KnownMovesAreSeen(s: State, steps: seq<Step>, known: set<string>, merge: Files -> Rules)
    requires MovesOk(s, known) && Runs(s, steps, merge) && MovesIn(steps, known)
    ensures AllSeen(s, steps, merge)
    decreases |steps|
  {
    hide Enabled, Next;
    if steps != [] {
      assert steps[0] in steps;
      assert forall step :: step in steps[1..] ==> step in steps;
      NextKeepsMoves(s, steps[0], known, merge);
      KnownMovesAreSeen(Next(s, steps[0], merge), steps[1..], known, merge);
    }
  }

  /** Eventual consistency with moves: a run whose moves touch only directories that were there from the
      start ends with all merged files up to date whenever the daemon has nothing left to do. */
  lemma MergedFilesFollowMoves(dirs: map<string, Files>, merged: map<string, Rules>, steps: seq<Step>,
                               merge: Files -> Rules)
    ensures var s := Start(dirs, merged);
            Runs(s, steps, merge) && Drained(After(s, steps, merge)) &&
            (forall step :: step in steps && step.FileOp? && IsMove(step.kind) ==>
                              step.dir in dirs && step.dir != "merged") ==>
              AllAgree(After(s, steps, merge), merge)
  {
    hide Runs, After, AllSeen, AllAgree, Drained;
    var s := Start(dirs, merged);
    if Runs(s, steps, merge) && Drained(After(s, steps, merge)) &&
       forall step :: step in steps && step.FileOp? && IsMove(step.kind) ==> step.dir in dirs && step.dir != "merged"
    {
      KnownMovesAreSeen(s, steps, s.dirs.Keys, merge);
      MergedFilesFollow(dirs, merged, steps, merge);
    }
  }

  /** A running daemon watches all directories that were there from the start. */
  lemma StartDirsAreWatched(dirs: map<string, Files>, merged: map<string, Rules>, steps: seq<Step>,
                            merge: Files -> Rules)
    ensures var s := Start(dirs, merged);
            Runs(s, steps, merge) ==>
              var t := After(s, steps, merge);
              t.phase == Running ==>
                forall d :: d in dirs && d != "merged" ==> Dir(d) in t.kernel && t.kernel[Dir(d)].moves
  {
    hide Runs, After;
    var s := Start(dirs, merged);
    if Runs(s, steps, merge) {
      RunKeepsMoves(s, steps, s.dirs.Keys, merge);
      StartIsScanned(s, steps, s.dirs.Keys, merge);
    }
  }

  /** The scan does not end before it has seen them. */
  ghost predicate ScanOk(s: State, known: set<string>) {
    known <= s.dirs.Keys &&
    match s.phase
    case Fresh => true
    case RootWatched => true
    case Scanning(must, seen) => known <= must && forall d :: d in seen ==> Dir(d) in s.kernel
    case _ => forall d :: d in known ==> Dir(d) in s.kernel
  }

  lemma NextKeepsScan(s: State, step: Step, known: set<string>, merge: Files -> Rules)
    requires ScanOk(s, known) && Enabled(s, step)
    ensures ScanOk(Next(s, step, merge), known)
  {
  }

  lemma {:induction false} StartIsScanned(s: State, steps: seq<Step>, known: set<string>, merge: Files -> Rules)
    requires ScanOk(s, known) && Runs(s, steps, merge)
    ensures ScanOk(After(s, steps, merge), known)
    decreases |steps|
  {
    hide ScanOk, Enabled, Next;
    if steps != [] {
      NextKeepsScan(s, steps[0], known, merge);
      StartIsScanned(Next(s, steps[0], merge), steps[1..], known, merge);
    }
  }
}
