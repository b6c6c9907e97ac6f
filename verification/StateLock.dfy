/** The lock file of the release pipeline, as a protocol between processes: create it
    exclusively, or else read it, see whether its owner lives, read it again, unlink it
    and retry once. The isolated-plugin configuration uses the same protocol.

    A file is its number, so writing to a file that has been unlinked and replaced is
    told apart from writing to the one that replaced it. */
module StateLock {
  import opened Faults

  type Pid = nat

  /** What the pattern `^pid=(\d+)$` finds in a lock file; an owner of 0 counts as none. */
  datatype Text = Unmatched | Owner(pid: Pid)

  datatype Pc =
    | Create(attempt: nat)
    | Read(attempt: nat)
    | Judge(attempt: nat, seen: Text)
    | Reread(attempt: nat, seen: Text)
    | Unlink(attempt: nat)
    | WritePid(file: nat)
    | Inside(file: nat)
    | Leave(file: nat)
    | Finished
    | Refused

  /** `path` is the file the lock's name stands for. Processes outside `pc` only matter as
      owners: they neither exit nor touch the lock. */
  datatype State = State(path: Option<nat>, files: seq<Text>, pc: map<Pid, Pc>, alive: set<Pid>)

  /** What can happen to a process: it goes on, its next call raises, it exits after the
      protocol, or it starts over. And what leaves a lock behind: the process is killed, or
      the unlink in the finally block fails. */
  datatype Action =
    | Go(p: Pid) | Raise(p: Pid) | Exit(p: Pid) | Again(p: Pid)
    | Kill(p: Pid) | FailToUnlink(p: Pid)

  /** No process is killed, and no holder fails to remove its lock. */
  predicate Orderly(schedule: seq<Action>) {
    forall a | a in schedule :: !a.Kill? && !a.FailToUnlink?
  }

  predicate Over(c: Pc) {
    c.Finished? || c.Refused?
  }

  /** Between the creation of the file and the end of the finally block. */
  predicate Holding(c: Pc) {
    c.WritePid? || c.Inside? || c.Leave?
  }

  function At(s: State, p: Pid, c: Pc): State {
    s.(pc := s.pc[p := c])
  }

  function Current(s: State): Text {
    if s.path.Some? && s.path.value < |s.files| then s.files[s.path.value] else Unmatched
  }

  function Advance(s: State, p: Pid): State
    requires p in s.pc
  {
    match s.pc[p]
    case Create(k) =>
      if s.path.Some? then At(s, p, Read(k))
      else At(s.(path := Some(|s.files|), files := s.files + [Unmatched]), p, WritePid(|s.files|))
    case Read(k) =>
      if s.path.None? || Current(s).Unmatched? || Current(s).pid == 0 then At(s, p, Refused)
      else At(s, p, Judge(k, Current(s)))
    case Judge(k, t) =>
      At(s, p, if t.Owner? && t.pid in s.alive then Refused else Reread(k, t))
    case Reread(k, t) =>
      At(s, p, if s.path.None? || Current(s) != t then Refused else Unlink(k))
    case Unlink(k) =>
      if s.path.None? then At(s, p, Refused)
      else At(s.(path := None), p, if k == 0 then Create(1) else Refused)
    case WritePid(f) =>
      At(if f < |s.files| then s.(files := s.files[f := Owner(p)]) else s, p, Inside(f))
    case Inside(f) =>
      At(s, p, Leave(f))
    case Leave(_) =>
      At(s.(path := None), p, Finished)
    case Finished => s
    case Refused => s
  }

  function Step(s: State, a: Action): State {
    if a.p !in s.pc || a.p !in s.alive then s
    else
      var c := s.pc[a.p];
      match a
      case Go(p) => Advance(s, p)
      case Raise(p) =>
        if c.WritePid? || c.Inside? then At(s, p, Leave(c.file))
        else if Over(c) || c.Leave? then s
        else At(s, p, Refused)
      case Exit(p) => if Over(c) then s.(alive := s.alive - {p}) else s
      case Again(p) => if Over(c) then At(s, p, Create(0)) else s
      case Kill(p) => s.(alive := s.alive - {p})
      case FailToUnlink(p) => if c.Leave? then At(s, p, Finished) else s
  }

  function Run(s: State, schedule: seq<Action>): State
    decreases |schedule|
  {
    if schedule == [] then s else Run(Step(s, schedule[0]), schedule[1..])
  }

  predicate IsInside(s: State, p: Pid) {
    p in s.pc && p in s.alive && s.pc[p].Inside?
  }

  /** At most one process is inside the critical section. */
  ghost predicate Exclusive(s: State) {
    forall p, q | IsInside(s, p) && IsInside(s, q) :: p == q
  }

  /** The lock names a process that no longer runs. */
  predicate Stale(s: State) {
    s.path.Some? && Current(s).Owner? && Current(s).pid > 0 && Current(s).pid !in s.alive
  }

  /** Processes about to enter, with at most one inside already. The lock file may hold
      anything, but the pid of a process that waits is not the pid of an earlier owner. */
  ghost predicate Initial(s: State) {
    && (s.path.Some? ==> s.path.value < |s.files|)
    && (forall p | p in s.pc :: p > 0 && p in s.alive)
    && (forall p | p in s.pc :: s.pc[p] == Create(0)
                                || (s.pc[p].Inside? && s.path == Some(s.pc[p].file) && Current(s) == Owner(p)))
    && (s.path.Some? && Current(s).Owner? && Current(s).pid in s.pc ==> s.pc[Current(s).pid].Inside?)
  }

  // -------- Without a stale lock --------

  /** Whoever holds the lock made the current file, and nobody ever takes it over. */
  ghost predicate Guarded(s: State) {
    && (s.path.Some? ==> s.path.value < |s.files|)
    && !Stale(s)
    && (forall p | p in s.pc && Holding(s.pc[p]) ::
          p in s.alive && s.path == Some(s.pc[p].file)
          && Current(s) == if s.pc[p].WritePid? then Unmatched else if s.pc[p].Inside? then Owner(p) else Current(s))
    && (forall p, q | p in s.pc && q in s.pc && Holding(s.pc[p]) && Holding(s.pc[q]) :: p == q)
    && (s.path.Some? && Current(s).Owner? && Current(s).pid in s.pc ==> Holding(s.pc[Current(s).pid]))
    && (forall p | p in s.pc :: p > 0 && !s.pc[p].Unlink?)
    && (forall p | p in s.pc && s.pc[p].Judge? :: s.pc[p].seen.Owner? && s.pc[p].seen.pid > 0)
    && (forall p | p in s.pc && s.pc[p].Reread? ::
          s.pc[p].seen.Owner? && s.pc[p].seen.pid > 0 && s.pc[p].seen.pid !in s.alive)
  }

  /** A step of a process outside the lock that changes only its own position. */
  lemma WaitingKeepsGuarded(s: State, p: Pid, c: Pc)
    requires Guarded(s) && p in s.pc && !Holding(s.pc[p]) && !Holding(c) && !c.Unlink?
    requires c.Judge? ==> c.seen.Owner? && c.seen.pid > 0
    requires c.Reread? ==> c.seen.Owner? && c.seen.pid > 0 && c.seen.pid !in s.alive
    ensures Guarded(At(s, p, c))
  {
  }

  /** The holder writes its pid, or goes on to leave. */
  lemma HoldingKeepsGuarded(s: State, p: Pid)
    requires Guarded(s) && p in s.pc && Holding(s.pc[p]) && !s.pc[p].Leave?
    ensures Guarded(Advance(s, p)) && Guarded(At(s, p, Leave(s.pc[p].file)))
  {
    assert forall q | q in s.pc && q != p :: !Holding(s.pc[q]);
  }

  lemma LeavingKeepsGuarded(s: State, p: Pid)
    requires Guarded(s) && p in s.pc && s.pc[p].Leave?
    ensures Guarded(Advance(s, p))
  {
    assert forall q | q in s.pc && q != p :: !Holding(s.pc[q]);
  }

  lemma CreatingKeepsGuarded(s: State, p: Pid)
    requires Guarded(s) && p in s.pc && p in s.alive && s.pc[p].Create? && s.path.None?
    ensures Guarded(Advance(s, p))
  {
    assert forall q | q in s.pc :: !Holding(s.pc[q]);
  }

  lemma ExitingKeepsGuarded(s: State, p: Pid)
    requires Guarded(s) && p in s.pc && Over(s.pc[p])
    ensures Guarded(s.(alive := s.alive - {p}))
  {
  }

  lemma StepKeepsGuarded(s: State, a: Action)
    requires Guarded(s) && !a.Kill? && !a.FailToUnlink?
    ensures Guarded(Step(s, a))
  {
    if a.p in s.pc && a.p in s.alive {
      var p, c := a.p, s.pc[a.p];
      if a.Exit? {
        if Over(c) {
          ExitingKeepsGuarded(s, p);
        }
      } else if c.Leave? {
        LeavingKeepsGuarded(s, p);
      } else if Holding(c) {
        HoldingKeepsGuarded(s, p);
      } else if a.Go? && c.Create? && s.path.None? {
        CreatingKeepsGuarded(s, p);
      } else if Step(s, a) != s {
        WaitingKeepsGuarded(s, p, Step(s, a).pc[p]);
      }
    }
  }

  lemma {:induction false} RunKeepsGuarded(s: State, schedule: seq<Action>)
    requires Guarded(s) && Orderly(schedule)
    ensures Guarded(Run(s, schedule))
    decreases |schedule|
  {
    if schedule != [] {
      StepKeepsGuarded(s, schedule[0]);
      RunKeepsGuarded(Step(s, schedule[0]), schedule[1..]);
    }
  }

  lemma InitialIsGuarded(s: State)
    requires Initial(s) && !Stale(s)
    ensures Guarded(s)
  {
  }

  /** Mutual exclusion over every run, and no takeover, unless the lock starts stale. */
  lemma ExclusiveUnlessStale(s: State, schedule: seq<Action>)
    requires Initial(s) && !Stale(s) && Orderly(schedule)
    ensures Exclusive(Run(s, schedule))
    ensures forall p | p in s.pc && p in Run(s, schedule).pc :: !Run(s, schedule).pc[p].Unlink?
  {
    InitialIsGuarded(s);
    RunKeepsGuarded(s, schedule);
  }

  // -------- With a stale lock --------

  lemma {:induction false} RunSplits(s: State, xs: seq<Action>, ys: seq<Action>)
    ensures Run(s, xs + ys) == Run(Run(s, xs), ys)
    decreases |xs|
  {
    if xs == [] {
      assert xs + ys == ys;
    } else {
      assert (xs + ys)[1..] == xs[1..] + ys;
      RunSplits(Step(s, xs[0]), xs[1..], ys);
    }
  }

  function Alone(p: Pid, n: nat): seq<Action> {
    seq(n, _ => Go(p))
  }

  lemma {:induction false} AloneSteps(s: State, p: Pid, n: nat)
    ensures n > 0 ==> Run(s, Alone(p, n)) == Run(Step(s, Go(p)), Alone(p, n - 1))
    ensures n == 0 ==> Run(s, Alone(p, n)) == s
  {
    if n > 0 {
      assert Alone(p, n)[1..] == Alone(p, n - 1);
    }
  }

  /** One step of a process that looks at a stale lock. */
  lemma WaitingStep(s: State, p: Pid, c: Pc)
    requires Stale(s) && p in s.pc && p in s.alive
    requires c.Read? || ((c.Judge? || c.Reread?) && c.seen == Current(s))
    ensures Step(At(s, p, c), Go(p)) ==
            At(s, p, if c.Read? then Judge(c.attempt, Current(s))
                     else if c.Judge? then Reread(c.attempt, c.seen) else Unlink(c.attempt))
  {
    var r := At(s, p, c);
    assert Current(r) == Current(s);
    var d := Step(r, Go(p)).pc[p];
    assert r.pc[p := d] == s.pc[p := d];
  }

  /** A process reads the stale lock, finds its owner dead, reads it again and is about to
      unlink it; it has changed nothing yet. */
  lemma ReachesTakeover(s: State, p: Pid)
    requires Stale(s) && p in s.pc && p in s.alive && s.pc[p] == Create(0)
    ensures Run(s, Alone(p, 4)) == At(s, p, Unlink(0))
  {
    var t := Current(s);
    AloneSteps(s, p, 4);
    WaitingStep(s, p, Read(0));
    AloneSteps(At(s, p, Read(0)), p, 3);
    WaitingStep(s, p, Judge(0, t));
    AloneSteps(At(s, p, Judge(0, t)), p, 2);
    WaitingStep(s, p, Reread(0, t));
    AloneSteps(At(s, p, Reread(0, t)), p, 1);
    AloneSteps(At(s, p, Unlink(0)), p, 0);
  }

  /** With the lock free, a process gets in. */
  lemma EntersFreely(s: State, p: Pid)
    requires s.path.None? && p in s.pc && p in s.alive && s.pc[p].Create?
    ensures Run(s, Alone(p, 2)) ==
            At(s.(path := Some(|s.files|), files := s.files + [Owner(p)]), p, Inside(|s.files|))
  {
    var s1 := At(s.(path := Some(|s.files|), files := s.files + [Unmatched]), p, WritePid(|s.files|));
    assert (s.files + [Unmatched])[|s.files| := Owner(p)] == s.files + [Owner(p)];
    assert Step(s, Go(p)) == s1;
    var s2 := Step(s1, Go(p));
    hide Step, Run;
    AloneSteps(s, p, 2);
    AloneSteps(s1, p, 1);
    AloneSteps(s2, p, 0);
  }

  /** From there, whatever file has the lock's name is unlinked and the process enters. */
  lemma TakesOver(s: State, p: Pid)
    requires s.path.Some? && p in s.pc && p in s.alive && s.pc[p] == Unlink(0)
    ensures Run(s, Alone(p, 3)) ==
            At(s.(path := Some(|s.files|), files := s.files + [Owner(p)]), p, Inside(|s.files|))
  {
    var s1 := At(s.(path := None), p, Create(1));
    assert Step(s, Go(p)) == s1;
    hide Step, Run;
    AloneSteps(s, p, 3);
    EntersFreely(s1, p);
  }

  /** Alone, a process recovers a stale lock, which is what the takeover is for. */
  lemma SoleProcessRecovers(s: State, p: Pid)
    requires Stale(s) && p in s.pc && p in s.alive && s.pc[p] == Create(0)
    ensures p in Run(s, Alone(p, 7)).pc && Run(s, Alone(p, 7)).pc[p].Inside?
  {
    ReachesTakeover(s, p);
    TakesOver(At(s, p, Unlink(0)), p);
    RunSplits(s, Alone(p, 4), Alone(p, 3));
    assert Alone(p, 4) + Alone(p, 3) == Alone(p, 7);
  }

  /** Two processes can both pass the second reading before either unlinks. The later
      unlink then removes the lock of the process that is inside. */
  lemma StaleLockAdmitsTwo(s: State, p: Pid, q: Pid) returns (schedule: seq<Action>)
    requires Stale(s) && p != q
    requires p in s.pc && p in s.alive && s.pc[p] == Create(0) && q in s.pc && q in s.alive && s.pc[q] == Create(0)
    ensures !Exclusive(Run(s, schedule)) && Orderly(schedule)
  {
    var s1 := At(s, p, Unlink(0));
    var s2 := At(s1, q, Unlink(0));
    var s3 := At(s2.(path := Some(|s.files|), files := s.files + [Owner(q)]), q, Inside(|s.files|));
    ReachesTakeover(s, p);
    assert Current(s1) == Current(s);
    ReachesTakeover(s1, q);
    TakesOver(s2, q);
    TakesOver(s3, p);
    RunSplits(s, Alone(p, 4), Alone(q, 4));
    RunSplits(s, Alone(p, 4) + Alone(q, 4), Alone(q, 3));
    RunSplits(s, Alone(p, 4) + Alone(q, 4) + Alone(q, 3), Alone(p, 3));
    schedule := Alone(p, 4) + Alone(q, 4) + Alone(q, 3) + Alone(p, 3);
    var end := Run(s, schedule);
    assert end == Run(s3, Alone(p, 3));
    assert IsInside(end, p) && IsInside(end, q);
  }

  /** Processes neither appear nor come back to life. */
  lemma {:induction false} RunKeepsProcesses(s: State, schedule: seq<Action>)
    ensures Run(s, schedule).pc.Keys == s.pc.Keys && Run(s, schedule).alive <= s.alive
    decreases |schedule|
  {
    if schedule != [] {
      RunKeepsProcesses(Step(s, schedule[0]), schedule[1..]);
    }
  }

  ghost predicate Two(s: State) {
    exists p, q :: p in s.pc && q in s.pc && p != q
  }

  ghost predicate Three(s: State) {
    exists p, q, r :: p in s.pc && q in s.pc && r in s.pc && p != q && q != r && p != r
  }

  /** The lock keeps processes apart in every orderly interleaving exactly when it is not
      found stale by two of them. */
  lemma MutualExclusion(s: State)
    requires Initial(s)
    ensures (forall schedule | Orderly(schedule) :: Exclusive(Run(s, schedule))) <==> !(Stale(s) && Two(s))
  {
    if Stale(s) && Two(s) {
      var p, q :| p in s.pc && q in s.pc && p != q;
      var schedule := StaleLockAdmitsTwo(s, p, q);
      assert !Exclusive(Run(s, schedule));
    } else {
      forall schedule | Orderly(schedule)
        ensures Exclusive(Run(s, schedule))
      {
        if Stale(s) {
          RunKeepsProcesses(s, schedule);
        } else {
          ExclusiveUnlessStale(s, schedule);
        }
      }
    }
  }

  // -------- When processes die --------

  predicate OwnerLives(s: State, t: Text) {
    t.Owner? && t.pid > 0 ==> t.pid in s.alive
  }

  /** The owner lives, as do all that any process has read, so nobody takes over. */
  ghost predicate Calm(s: State) {
    && (s.path.Some? ==> s.path.value < |s.files|) && OwnerLives(s, Current(s))
    && (forall p | p in s.pc :: p > 0 && !s.pc[p].Reread? && !s.pc[p].Unlink?)
    && (forall p | p in s.pc && s.pc[p].Judge? :: s.pc[p].seen.Owner? && s.pc[p].seen.pid in s.alive)
    && (forall p | p in s.pc && Holding(s.pc[p]) :: s.path == Some(s.pc[p].file))
    && (forall p, q | p in s.pc && q in s.pc && Holding(s.pc[p]) && Holding(s.pc[q]) :: p == q)
  }

  /** A step that changes only the position of a process. */
  lemma MovingKeepsCalm(s: State, p: Pid, c: Pc)
    requires Calm(s) && p in s.pc && !c.Reread? && !c.Unlink? && (c.Judge? ==> c.seen.Owner? && c.seen.pid in s.alive)
    requires Holding(c) ==> Holding(s.pc[p]) && c.file == s.pc[p].file
    ensures Calm(At(s, p, c))
  {
  }

  /** A process creates the file, writes its pid to it, or removes it. */
  lemma TouchingKeepsCalm(s: State, p: Pid)
    requires Calm(s) && p in s.pc && p in s.alive
    requires s.pc[p].WritePid? || s.pc[p].Leave? || (s.pc[p].Create? && s.path.None?)
    ensures Calm(Advance(s, p))
  {
    assert forall q | q in s.pc && q != p :: !Holding(s.pc[q]);
  }

  lemma CalmStep(s: State, a: Action)
    requires Calm(s) && Step(s, a).alive == s.alive
    ensures Calm(Step(s, a))
  {
    if a.p in s.pc && a.p in s.alive && Step(s, a) != s {
      var c := s.pc[a.p];
      if a.Go? && (c.WritePid? || c.Leave? || (c.Create? && s.path.None?)) {
        TouchingKeepsCalm(s, a.p);
      } else {
        MovingKeepsCalm(s, a.p, Step(s, a).pc[a.p]);
      }
    }
  }

  /** Two processes at most: while both live they are calm, and then one is alone. */
  ghost predicate Paired(s: State) {
    && !Three(s)
    && ((Calm(s) && s.pc.Keys <= s.alive) || AtMostOneLives(s))
  }

  ghost predicate AtMostOneLives(s: State) {
    forall p, q | p in s.pc && q in s.pc && p in s.alive && q in s.alive :: p == q
  }

  lemma StepKeepsProcesses(s: State, a: Action)
    ensures Step(s, a).pc.Keys == s.pc.Keys
    ensures Step(s, a).alive == s.alive || (a.p in s.pc && Step(s, a).alive == s.alive - {a.p})
  {
  }

  /** Nobody holds the lock, and its owner is none that could die. */
  ghost predicate Barred(s: State) {
    && Calm(s) && s.path.Some? && (Current(s).Owner? ==> Current(s).pid !in s.pc)
    && forall p | p in s.pc :: !Holding(s.pc[p]) && (s.pc[p].Judge? ==> s.pc[p].seen.pid !in s.pc)
  }

  lemma PairedIsExclusive(s: State)
    requires Paired(s)
    ensures Exclusive(s)
  {
  }

  lemma StepKeepsPaired(s: State, a: Action)
    requires Paired(s)
    ensures Paired(Step(s, a))
  {
    StepKeepsProcesses(s, a);
    if Step(s, a).alive == s.alive && Calm(s) {
      CalmStep(s, a);
    }
    hide Step, Calm;
    assert Three(Step(s, a)) ==> Three(s);
  }

  lemma StepKeepsBarred(s: State, a: Action)
    requires Barred(s)
    ensures Barred(Step(s, a)) && Exclusive(s)
  {
    if Step(s, a).alive == s.alive {
      CalmStep(s, a);
    }
  }

  lemma {:induction false} RunKeepsApart(s: State, schedule: seq<Action>)
    requires Paired(s) || Barred(s)
    ensures Exclusive(Run(s, schedule))
    decreases |schedule|
  {
    var a := if schedule == [] then Go(0) else schedule[0];
    if Paired(s) {
      PairedIsExclusive(s);
      StepKeepsPaired(s, a);
    } else {
      StepKeepsBarred(s, a);
    }
    if schedule != [] {
      RunKeepsApart(Step(s, a), schedule[1..]);
    }
  }

  /** A holder that is killed leaves a stale lock, which two others can both take over. */
  lemma KilledHolderAdmitsTwo(s: State, p: Pid, q: Pid, r: Pid) returns (schedule: seq<Action>)
    requires IsInside(s, p) && p > 0 && s.path.Some? && Current(s) == Owner(p) && p != q && q != r && p != r
    requires q in s.pc && q in s.alive && s.pc[q] == Create(0) && r in s.pc && r in s.alive && s.pc[r] == Create(0)
    ensures !Exclusive(Run(s, schedule))
  {
    var dead := Step(s, Kill(p));
    assert Current(dead) == Current(s);
    var race := StaleLockAdmitsTwo(dead, q, r);
    schedule := [Kill(p)] + race;
    assert schedule[1..] == race;
  }

  /** Enough processes wait for two to find a stale lock, now or once a holder has died. */
  ghost predicate Contested(s: State) {
    if Stale(s) then Two(s)
    else Three(s) && (s.path.None? || exists p :: IsInside(s, p))
  }

  lemma ContestedAdmitsTwo(s: State) returns (schedule: seq<Action>)
    requires Initial(s) && Contested(s)
    ensures !Exclusive(Run(s, schedule))
  {
    if Stale(s) {
      var p, q :| p in s.pc && q in s.pc && p != q;
      schedule := StaleLockAdmitsTwo(s, p, q);
    } else {
      var p, q, r :| p in s.pc && q in s.pc && r in s.pc && p != q && q != r && p != r;
      if s.path.None? {
        EntersFreely(s, p);
        var t := Run(s, Alone(p, 2));
        var rest := KilledHolderAdmitsTwo(t, p, q, r);
        RunSplits(s, Alone(p, 2), rest);
        schedule := Alone(p, 2) + rest;
      } else {
        var h :| IsInside(s, h);
        if h == p {
          schedule := KilledHolderAdmitsTwo(s, h, q, r);
        } else if h == q {
          schedule := KilledHolderAdmitsTwo(s, h, p, r);
        } else {
          schedule := KilledHolderAdmitsTwo(s, h, p, q);
        }
      }
    }
  }

  /** With processes that may be killed at any point, and unlinks that may fail, the lock
      keeps processes apart in every interleaving exactly when it is not contested: at most
      one process finds it stale, at most two can hold it, or nobody can ever take it. */
  lemma MutualExclusionDespiteDeaths(s: State)
    requires Initial(s)
    ensures (forall schedule :: Exclusive(Run(s, schedule))) <==> !Contested(s)
  {
    if Contested(s) {
      var schedule := ContestedAdmitsTwo(s);
      assert !Exclusive(Run(s, schedule));
    } else {
      forall schedule
        ensures Exclusive(Run(s, schedule))
      {
        if Stale(s) {
          RunKeepsProcesses(s, schedule);
        } else {
          UncontestedStart(s);
          RunKeepsApart(s, schedule);
        }
      }
    }
  }

  lemma InitialIsCalm(s: State)
    requires Initial(s) && !Stale(s)
    ensures Calm(s) && s.pc.Keys <= s.alive
  {
  }

  lemma UncontestedStart(s: State)
    requires Initial(s) && !Stale(s) && !Contested(s)
    ensures Paired(s) || Barred(s)
  {
    InitialIsCalm(s);
    hide Calm;
    if s.path.Some? && forall p | p in s.pc :: !s.pc[p].Inside? {
      assert Barred(s);
    } else if s.path.Some? {
      var p :| p in s.pc && s.pc[p].Inside?;
      assert IsInside(s, p);
    }
  }
}
