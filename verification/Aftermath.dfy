/** The commands of the upgrade on any disk: what becomes of the state when a rollback dies
    half-way, or a lock is removed by hand. Nothing on the disk tells of it, and later
    commands start as if nothing had happened. */
module Aftermath {
  import opened Faults
  import opened UpgradeDisk
  import opened UpgradeManager
  import opened Rollback
  import opened UpgradeHistory

  ghost function Disk(host: Host): Trees
    reads host`trees, host`others
  {
    host.trees + host.others
  }

  ghost function Now(host: Host): World
    reads host`trees, host`others, host`journal, host`locked, host`nextId, host`live
  {
    World(Disk(host), host.journal, host.locked, host.nextId,
          if host.journal.Some? then host.live else TreeAt(Disk(host), Target).mutables)
  }

  // -------- Any disk --------

  /** What holds between any two commands. */
  ghost predicate Steady(host: Host)
    reads host
  {
    && host.Elsewhere() && Below(host.trees, host.nextId)
    && (host.journal.Some? ==> host.journal.value.id < host.nextId)
    && (!host.Clear() ==> host.Sound())
  }

  lemma ElsewhereIsApart(host: Host)
    requires host.Elsewhere()
    ensures host.trees.Keys !! host.others.Keys && Target !in host.others && Below(host.others, host.nextId)
    ensures host.journal.Some? ==> forall n | n in host.others :: !IsOwn(n, host.journal.value.id)
  {
  }

  lemma FlightInUnion(ts: Trees, others: Trees, j: Journal, live: State)
    requires ts.Keys !! others.Keys && forall n | n in others :: !IsOwn(n, j.id)
    ensures InFlight(ts + others, j, live) <==> InFlight(ts, j, live)
    ensures Initial(ts + others, j, live) <==> Initial(ts, j, live)
  {
    var all := ts + others;
    assert forall n | IsOwn(n, j.id) :: (n in all <==> n in ts) && (n in ts ==> all[n] == ts[n]);
  }

  lemma UnionBelow(ts: Trees, others: Trees, bound: nat)
    requires Below(ts, bound) && Below(others, bound)
    ensures Below(ts + others, bound)
  {
  }

  /** The world of a host is one that commands can leave. */
  lemma SteadyIsLawful(host: Host)
    requires Steady(host)
    ensures Lawful(Now(host))
  {
    ElsewhereIsApart(host);
    UnionBelow(host.trees, host.others, host.nextId);
    if host.journal.Some? {
      FlightInUnion(host.trees, host.others, host.journal.value, host.live);
    }
  }

  /** The siblings that hold state, other than `kept`. */
  function StateElsewhere(all: Trees, kept: set<Name>): (others: Trees)
    ensures forall n :: n in others <==> n in all && n != Target && n !in kept && all[n].mutables != map[]
    ensures forall n | n in others :: others[n] == all[n]
  {
    map n | n in all && n != Target && n !in kept && all[n].mutables != map[] :: all[n]
  }

  lemma StateSetApart(all: Trees, kept: set<Name>, bound: nat)
    requires Below(all, bound)
    ensures var others := StateElsewhere(all, kept);
            var ts := all - others.Keys;
            && ts + others == all && Distinct(ts, others, None, bound) && Below(ts, bound)
            && (forall n | n in ts && n != Target && n !in kept :: Bare(ts, n))
  {
  }

  /** Which siblings are set apart from those that a command works on is bookkeeping: the
      world stays as it is. */
  method Regroup(host: Host, kept: set<Name>)
    requires Steady(host) && host.Clear()
    modifies host`trees, host`others, host`live
    ensures Now(host) == old(Now(host)) && Steady(host)
    ensures forall n | n in host.trees && n != Target && n !in kept :: Bare(host.trees, n)
    ensures forall n | n in host.others :: n !in kept && host.others[n].mutables != map[]
    ensures host.live == TreeAt(host.trees, Target).mutables == Now(host).live
    ensures kept == {} ==> Idle(host.trees, host.live) && host.Sound()
  {
    hide Distinct, Below, Bare;
    ElsewhereIsApart(host);
    UnionBelow(host.trees, host.others, host.nextId);
    var all := host.trees + host.others;
    StateSetApart(all, kept, host.nextId);
    host.others := StateElsewhere(all, kept);
    host.trees := all - host.others.Keys;
    host.live := TreeAt(host.trees, Target).mutables;
    ElsewhereIsApart(host);
  }

  // -------- What an interrupted rollback leaves --------

  /** With state in a sibling and no journal, the disk is not one that an upgrade leaves, and
      the state is lost with that sibling. */
  lemma StateInSibling(ts: Trees, n: Name, live: State)
    requires Exactly(ts, live) && n != Target && n in ts && ts[n].mutables != map[]
    ensures forall l :: !SoundDisk(ts, None, false, l)
    ensures !Conserved(ts - {n}, live)
  {
    assert !Bare(ts, n);
    var dir :| dir in ts[n].mutables;
    assert Holds(ts, n, dir) && dir in live;
    assert forall m :: Holds(ts - {n}, m, dir) ==> Holds(ts, m, dir);
  }

  /** If the state is in the target and the backup, another rollback to it starts with all of
      it, and so completes with all of it. */
  lemma RollBackAgain(ts: Trees, chosen: nat, live: State)
    requires Exactly(ts, live)
    requires forall n | n in ts && n != Target && n != Backup(chosen) :: Bare(ts, n)
    ensures !Clash(ts, Target, Backup(chosen)) && Together(ts, chosen) == live
  {
    if Clash(ts, Target, Backup(chosen)) {
      var dir :| dir in ts[Target].mutables && dir in ts[Backup(chosen)].mutables;
      assert Holds(ts, Target, dir) && Holds(ts, Backup(chosen), dir);
      assert false;
    }
    forall dir
      ensures dir in Together(ts, chosen) <==> dir in live
      ensures dir in live ==> Together(ts, chosen)[dir] == live[dir]
    {
      if dir in live {
        var n :| Holds(ts, n, dir) && ts[n].mutables[dir] == live[dir];
        assert n == Target || n == Backup(chosen);
      } else {
        assert !Holds(ts, Target, dir) && !Holds(ts, Backup(chosen), dir);
      }
    }
  }

  lemma OwnInUnion(ts: Trees, others: Trees, id: nat)
    requires ts.Keys !! others.Keys && forall n | n in others :: !IsOwn(n, id)
    ensures forall n | IsOwn(n, id) ::
              (n in ts + others <==> n in ts) && (n in ts ==> (ts + others)[n] == ts[n])
  {
  }

  // -------- One apply --------

  lemma ApartInUnion(ts: Trees, others: Trees, ts': Trees, others': Trees, id: nat, gone: set<Name>)
    requires ts.Keys !! others.Keys && ts'.Keys !! others'.Keys && forall n | n in others :: !IsOwn(n, id)
    requires Apart(ts, ts', id, gone) && Thinned(others, others', gone)
    ensures Apart(ts + others, ts' + others', id, gone)
  {
    forall n | !IsOwn(n, id)
      ensures n in ts' + others' ==> n in ts + others && (ts' + others')[n] == (ts + others)[n]
      ensures n in ts + others && n !in gone ==> n in ts' + others'
    {
    }
  }

  /** What an apply says of its own trees, said of the whole disk. */
  lemma AppliedToDisk(req: Request, w: World, e: Exit, w': World, ts: Trees, others: Trees, ts': Trees, others': Trees)
    requires w.Clear() && w.disk == ts + others && w'.disk == ts' + others'
    requires ts.Keys !! others.Keys && ts'.Keys !! others'.Keys && Target !in others
    requires (forall n | n in others :: !IsOwn(n, w.nextId)) && forall n | n in others' :: n in others
    requires Apart(ts, ts', w.nextId, req.Prunes()) && Thinned(others, others', req.Prunes())
    requires Probes(req, w.live, w'.live)
    requires match w'.journal
             case Some(j) => j.id == w.nextId && j.upgrade == (Target in ts) && w'.locked
             case None => forall n | n in ts' && n != Target :: Bare(ts', n)
    requires Target !in ts ==> Clean(ts', req.Probed(map[]))
    requires e == Code(0) ==> w'.Clear() && req.Passes() && w'.live == req.Probed(w.live)
    requires e == Code(2) ==> w'.Clear() && !req.Passes() && ts' - {Target} == ts - {Target}
    ensures Applied(req, w, e, w')
  {
    ApartInUnion(ts, others, ts', others', w.nextId, req.Prunes());
    OwnInUnion(ts, others, w.nextId);
    OwnInUnion(ts', others', w.nextId);
    if e == Code(2) {
      NothingPruned(req, others, others');
      WithoutTarget(ts, others, {Target});
      WithoutTarget(ts', others, {Target});
    }
    hide Apart, Thinned;
    assert Target !in ts ==> forall n | IsOwn(n, w.nextId) && n in w'.disk ::
        w'.disk[n].mutables == map[] || w'.disk[n].mutables == req.Probed(map[]);
  }

  lemma WithoutTarget(ts: Trees, others: Trees, names: set<Name>)
    requires forall n | n in names :: n !in others
    ensures (ts + others) - names == (ts - names) + others
  {
  }

  lemma NothingPruned(req: Request, others: Trees, others': Trees)
    requires Thinned(others, others', req.Prunes()) && !req.Passes()
    ensures others' == others
  {
  }

  /** An apply on any disk on which no upgrade is unfinished, whatever its siblings hold. */
  method ApplyAnywhere(host: Host, req: Request) returns (r: Exit)
    requires Steady(host) && host.Clear()
    modifies host
    ensures Steady(host) && Next(old(Now(host)), ApplyOne(req), r, Now(host))
    // A success that nothing disturbed has pruned all that it was to prune of what holds state.
    ensures r == Code(0) && !host.disturbed ==>
              forall n | n in req.Prunes() && !Bare(old(Disk(host)), n) :: n !in Disk(host)
  {
    Regroup(host, {});
    ghost var ts, others, w := host.trees, host.others, Now(host);
    ElsewhereIsApart(host);
    FreshSiblings(others, host.nextId);
    hide Distinct, Thinned, Conserved, Idle, Apart, Below, Clean;
    r := host.Apply(req);
    ElsewhereIsApart(host);
    if host.journal.None? {
      IdleIsTarget(host.trees, host.others, host.live);
    }
    ThinnedIsWithin(others, host.others, req.Prunes());
    AppliedToDisk(req, w, r, Now(host), ts, others, host.trees, host.others);
  }

  lemma ThinnedIsWithin(others: Trees, others': Trees, gone: set<Name>)
    requires Thinned(others, others', gone)
    ensures forall n | n in others' :: n in others
  {
  }

  lemma FreshSiblings(others: Trees, id: nat)
    requires Below(others, id) && Target !in others
    ensures forall n | n in others :: !IsOwn(n, id)
  {
  }

  lemma IdleIsTarget(ts: Trees, others: Trees, live: State)
    requires Idle(ts, live) && Target !in others
    ensures TreeAt(ts + others, Target).mutables == live
    ensures forall n | n in ts && n != Target :: Bare(ts, n)
  {
  }

  /** With an upgrade unfinished, or a lock there, apply moves nothing. */
  method ApplyBlocked(host: Host, req: Request) returns (r: Exit)
    requires Steady(host) && !host.Clear()
    modifies host
    ensures Steady(host) && Next(old(Now(host)), ApplyOne(req), r, Now(host))
  {
    hide Distinct, Conserved, Idle, InFlight, Initial;
    SoundCases(host.trees, host.journal, host.locked, host.live);
    r := host.Apply(req);
  }

  // -------- The other commands --------

  lemma RecoveredToDisk(w: World, e: Exit, w': World, ts: Trees, others: Trees, ts': Trees)
    requires w.disk == ts + others && w'.disk == ts' + others && w.journal.Some? && w'.live == w.live
    requires ts.Keys !! others.Keys && ts'.Keys !! others.Keys
    requires forall n | n in others :: !IsOwn(n, w.journal.value.id)
    requires var j := w.journal.value;
             && Apart(ts, ts', j.id, {}) && (forall n | n in ts && !IsOwn(n, j.id) :: Bare(ts, n))
             && (if w'.journal.Some? then w'.journal == w.journal && w'.locked == w.locked
                 else (w'.locked ==> w.locked) && forall n | n in ts' && n != Target :: Bare(ts', n))
             && (!j.upgrade ==> NothingMore(ts, ts'))
             && (e == Code(0) ==>
                   && w'.Clear()
                   && if j.upgrade then Target in ts' && ts'[Target].files == j.backupInventory else Target !in ts')
    ensures Recovered(w, e, w')
  {
    var j := w.journal.value;
    NothingThinned(others, {});
    ApartInUnion(ts, others, ts', others, j.id, {});
    OwnInUnion(ts, others, j.id);
    OwnInUnion(ts', others, j.id);
    if !j.upgrade {
      forall n | IsOwn(n, j.id) && !Bare(w'.disk, n) && n in w'.disk
        ensures exists m :: IsOwn(m, j.id) && m in w.disk && w.disk[m].mutables == w'.disk[n].mutables
      {
        assert n in ts' && !Bare(ts', n);
        var m :| m in ts && ts[m].mutables == ts'[n].mutables;
        assert !Bare(ts, m);
        assert m in w.disk && w.disk[m].mutables == w'.disk[n].mutables;
      }
    }
  }

  method RecoverAnywhere(host: Host) returns (r: Exit)
    requires Steady(host)
    modifies host
    ensures Steady(host) && Next(old(Now(host)), RecoverOne, r, Now(host))
  {
    if host.journal.None? && !host.locked {
      Regroup(host, {});
    }
    ghost var ts, w := host.trees, Now(host);
    ElsewhereIsApart(host);
    if host.journal.Some? {
      QuietIsBare(ts, host.journal.value.id);
    }
    hide Distinct, Conserved, Idle, InFlight, Initial, Apart, NothingMore;
    r := host.Recover();
    ElsewhereIsApart(host);
    if w.journal.Some? {
      if host.journal.None? {
        IdleIsTarget(host.trees, host.others, host.live);
      }
      OwnInUnion(host.trees, host.others, w.journal.value.id);
      RecoveredToDisk(w, r, Now(host), ts, host.others, host.trees);
    }
  }

  lemma QuietIsBare(ts: Trees, id: nat)
    requires Quiet(ts, id)
    ensures forall n | n in ts && !IsOwn(n, id) :: Bare(ts, n)
  {
  }

  lemma RestInUnion(ts: Trees, others: Trees, ts': Trees, chosen: nat, id: nat)
    requires RestKept(ts, ts', chosen, id) && ts.Keys !! others.Keys
    requires Target !in others && Backup(chosen) !in others && Below(others, id)
    ensures RestKept(ts + others, ts' + others, chosen, id) && Distinct(ts', others, None, id + 1)
    ensures forall n | n in {Target, Backup(chosen), Displaced(id)} :: n !in others
  {
    assert forall n | n in others :: n !in {Target, Backup(chosen), Displaced(id)};
  }

  /** A rollback touches only these three trees, and what they hold is all it knows. */
  lemma RolledBackToDisk(chosen: nat, w: World, e: Exit, w': World, ts: Trees, others: Trees, ts': Trees)
    requires w.Clear() && w.disk == ts + others && w'.disk == ts' + others
    requires w'.journal == w.journal && w'.locked == w.locked
    requires ts.Keys !! others.Keys && Target !in others && Backup(chosen) !in others && Below(others, w.nextId)
    requires RestKept(ts, ts', chosen, w.nextId)
    requires forall n | n in ts && n != Target && n != Backup(chosen) :: Bare(ts, n)
    requires if Clash(ts, Target, Backup(chosen)) then ts' == ts && e == Aborted else Exactly(ts', Together(ts, chosen))
    requires e == Code(0) ==> RolledBack(ts, ts', chosen)
    ensures RolledBackTo(chosen, w, e, w')
  {
    RestInUnion(ts, others, ts', chosen, w.nextId);
    var names := {Target, Backup(chosen), Displaced(w.nextId)};
    assert Together(w.disk, chosen) == Together(ts, chosen);
    assert Clash(w.disk, Target, Backup(chosen)) == Clash(ts, Target, Backup(chosen));
    WithoutTarget(ts', others, {Target});
    WithoutTarget(ts, others, {Target, Backup(chosen)});
    assert forall n | n in ts' && n !in names :: Bare(ts', n);
    assert forall n | n in names :: (n in w'.disk <==> n in ts') && (n in ts' ==> w'.disk[n] == ts'[n]);
    hide RestKept, Clash;
    if !Clash(ts, Target, Backup(chosen)) {
      ExactlyAmong(ts', Among(w'.disk, names), names, Together(ts, chosen));
    }
  }

  lemma ExactlyAmong(ts: Trees, some: Trees, names: set<Name>, live: State)
    requires Exactly(ts, live) && forall n | n in ts && n !in names :: Bare(ts, n)
    requires (forall n :: n in some <==> n in ts && n in names) && forall n | n in some :: some[n] == ts[n]
    ensures Exactly(some, live)
  {
    forall n, dir
      ensures Holds(some, n, dir) <==> Holds(ts, n, dir)
    {
    }
    forall dir | dir in live
      ensures exists n :: Holds(some, n, dir) && some[n].mutables[dir] == live[dir]
    {
      var n :| Holds(ts, n, dir) && ts[n].mutables[dir] == live[dir];
      assert Holds(some, n, dir);
    }
  }

  /** A rollback on any disk on which no upgrade is unfinished, whatever its siblings hold. */
  method RollBackAnywhere(host: Host, chosen: nat) returns (r: Exit)
    requires Steady(host) && host.Clear()
    modifies host
    ensures Steady(host) && Next(old(Now(host)), RollBackTo(chosen), r, Now(host))
  {
    Regroup(host, {Backup(chosen)});
    ghost var ts, others, w := host.trees, host.others, Now(host);
    ElsewhereIsApart(host);
    hide Exactly, Bare, Clash, Together, RolledBack, Undone, RestKept, Below, Distinct, SoundDisk, RolledBackTo;
    r := RollBack(host, chosen);
    RestInUnion(ts, others, host.trees, chosen, w.nextId);
    RolledBackToDisk(chosen, w, r, Now(host), ts, others, host.trees);
  }

  method RollBackBlocked(host: Host, chosen: nat) returns (r: Exit)
    requires Steady(host) && !host.Clear()
    modifies host
    ensures Steady(host) && Next(old(Now(host)), RollBackTo(chosen), r, Now(host))
  {
    hide Exactly, Bare, Clash, Together, RolledBack, Undone, RestKept, Below, Distinct, SoundDisk, RolledBackTo;
    ghost var w := Now(host);
    r := RollBack(host, chosen);
    BoundsGrow(host.trees, host.others, host.journal, w.nextId);
    NothingRolledBack(chosen, w, r, Now(host));
  }

  lemma NothingRolledBack(chosen: nat, w: World, e: Exit, w': World)
    requires !w.Clear() && w' == w.(nextId := w'.nextId) && e != Code(0)
    ensures RolledBackTo(chosen, w, e, w')
  {
  }

  lemma BoundsGrow(ts: Trees, others: Trees, journal: Option<Journal>, bound: nat)
    ensures Below(ts, bound) ==> Below(ts, bound + 1)
    ensures Distinct(ts, others, journal, bound) ==> Distinct(ts, others, journal, bound + 1)
  {
  }

  method RemoveLock(host: Host)
    requires Steady(host)
    modifies host`locked
    ensures Steady(host) && Next(old(Now(host)), RemoveLockFile, Code(0), Now(host))
  {
    if host.locked {
      SoundCases(host.trees, host.journal, host.locked, host.live);
      host.locked := false;
    }
  }

  // -------- Any commands --------

  method Obey(host: Host, c: AnyCommand) returns (r: Exit)
    requires Steady(host)
    modifies host
    ensures Steady(host) && Next(old(Now(host)), c, r, Now(host))
  {
    hide Next, Steady;
    r := Code(0);
    match c
    case ApplyOne(req) =>
      if host.journal.None? && !host.locked {
        r := ApplyAnywhere(host, req);
      } else {
        r := ApplyBlocked(host, req);
      }
    case RecoverOne =>
      r := RecoverAnywhere(host);
    case RollBackTo(chosen) =>
      if host.journal.None? && !host.locked {
        r := RollBackAnywhere(host, chosen);
      } else {
        r := RollBackBlocked(host, chosen);
      }
    case RemoveLockFile =>
      RemoveLock(host);
  }

  /** Any number of applies, recovers, manual rollbacks and removals of the lock by hand,
      each ending anywhere, from any disk. Each mutable directory that was safe is still
      there with its content, unless an apply of the run found it where it could overwrite
      or prune it; and what is there was there before, or a probed release wrote it. */
  method Operate(host: Host, commands: seq<AnyCommand>) returns (exits: seq<Exit>, ghost history: seq<Moment>)
    requires Steady(host)
    modifies host
    ensures Steady(host) && |history| == |exits| == |commands|
    ensures forall i | 0 <= i < |commands| :: history[i].command == commands[i] && history[i].exit == exits[i]
    ensures commands != [] ==> history[0].world == old(Now(host))
    ensures Unbroken(history, Now(host))
    ensures forall dir, content | Safe(old(Now(host)), dir, content) ::
              Found(Disk(host), dir, content) || SpentIn(history, dir, content)
    ensures forall dir, content | Found(Disk(host), dir, content) ::
              Found(old(Disk(host)), dir, content) || BroughtIn(history, dir, content)
  {
    hide Next, Steady, Lawful, Safe, Found, SpentIn, BroughtIn;
    exits, history := [], [];
    ghost var start := Now(host);
    SteadyIsLawful(host);
    for i := 0 to |commands|
      invariant Steady(host) && Lawful(Now(host)) && |history| == |exits| == i
      invariant forall k | 0 <= k < i :: history[k].command == commands[k] && history[k].exit == exits[k]
      invariant if i == 0 then Now(host) == start else history[0].world == start
      invariant Unbroken(history, Now(host))
    {
      ghost var w := Now(host);
      var r := Obey(host, commands[i]);
      SteadyIsLawful(host);
      exits := exits + [r];
      assert (history + [Moment(w, commands[i], r)])[..i] == history;
      history := history + [Moment(w, commands[i], r)];
    }
    forall dir, content | Safe(start, dir, content)
      ensures Found(Disk(host), dir, content) || SpentIn(history, dir, content)
    {
      if history != [] {
        RunKeepsSafe(history, Now(host), 0, dir, content);
        assert history[0..] == history;
      }
      if Safe(Now(host), dir, content) {
        SafeIsFound(Now(host), dir, content);
      }
    }
    forall dir, content | Found(Disk(host), dir, content)
      ensures Found(start.disk, dir, content) || BroughtIn(history, dir, content)
    {
      if history != [] {
        RunInventsNothing(history, Now(host), 0, dir, content);
        assert history[0..] == history;
      }
    }
  }
}
