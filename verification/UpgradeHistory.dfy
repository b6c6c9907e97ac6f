/** Runs of upgrade commands as sequences of worlds: what each command may make of a world,
    and what follows for the state over any number of commands. */
module UpgradeHistory {
  import opened Faults
  import opened UpgradeDisk
  import opened UpgradeManager
  import opened Rollback

  /** Everything on the disk, and the mutable directories of the installed release: those of
      the target, or during an upgrade those that the upgrade moves about. */
  datatype World = World(disk: Trees, journal: Option<Journal>, locked: bool, nextId: nat, live: State) {
    predicate Clear() {
      journal.None? && !locked
    }
  }

  /** The state is where the journal says, and ids are used once. */
  ghost predicate Lawful(w: World) {
    && Below(w.disk, w.nextId)
    && match w.journal
       case Some(j) => j.id < w.nextId && if j.upgrade then InFlight(w.disk, j, w.live) else Initial(w.disk, j, w.live)
       case None => w.live == TreeAt(w.disk, Target).mutables
  }

  /** The directory is somewhere on the disk with this content. */
  ghost predicate Found(ts: Trees, dir: string, content: string) {
    exists n :: Has(ts, n, dir, content)
  }

  ghost predicate Has(ts: Trees, n: Name, dir: string, content: string) {
    Holds(ts, n, dir) && ts[n].mutables[dir] == content
  }

  ghost predicate FoundBeside(ts: Trees, id: nat, dir: string, content: string) {
    exists n :: !IsOwn(n, id) && Has(ts, n, dir, content)
  }

  /** The content is on the disk; during an upgrade it belongs to the installed release or is
      in a sibling that is not the upgrade's. What an initial install has written is not
      safe: it goes when the install is withdrawn. */
  ghost predicate Safe(w: World, dir: string, content: string) {
    match w.journal
    case None => Found(w.disk, dir, content)
    case Some(j) => (dir in w.live && w.live[dir] == content) || FoundBeside(w.disk, j.id, dir, content)
  }

  // -------- Commands --------

  datatype AnyCommand = ApplyOne(req: Request) | RecoverOne | RollBackTo(chosen: nat) | RemoveLockFile

  /** What an upgrade of the target has made of the state: as it was, or as the probed
      release left it. */
  ghost predicate Probes(req: Request, before: State, after: State) {
    after == before || after == req.Probed(before)
  }

  ghost predicate Applied(req: Request, w: World, e: Exit, w': World) {
    && Apart(w.disk, w'.disk, w.nextId, req.Prunes()) && Probes(req, w.live, w'.live)
    && (match w'.journal
        case Some(j) => j.id == w.nextId && j.upgrade == (Target in w.disk) && w'.locked
        case None => forall n | IsOwn(n, w.nextId) && n != Target :: Bare(w'.disk, n))
    && (Target !in w.disk ==>
          forall n | IsOwn(n, w.nextId) && n in w'.disk ::
            w'.disk[n].mutables == map[] || w'.disk[n].mutables == req.Probed(map[]))
    && (e == Code(0) ==> w'.Clear() && req.Passes() && w'.live == req.Probed(w.live))
    && (e == Code(2) ==> w'.Clear() && !req.Passes() && w'.disk - {Target} == w.disk - {Target})
  }

  /** Over an unfinished upgrade, or a lock. */
  ghost predicate Blocked(w: World, e: Exit, w': World) {
    && w'.disk == w.disk && (w'.journal == w.journal || w'.journal.None?) && (w.locked ==> w'.locked)
    && (w'.journal.Some? ==> w'.live == w.live) && (e == Code(1) || e == Aborted)
  }

  ghost predicate Recovered(w: World, e: Exit, w': World) {
    match w.journal
    case None => w' == w && e == Code(1)
    case Some(j) =>
      && Apart(w.disk, w'.disk, j.id, {}) && w'.live == w.live
      && (if w'.journal.Some? then w'.journal == w.journal && w'.locked == w.locked
          else (w'.locked ==> w.locked) && forall n | IsOwn(n, j.id) && n != Target :: Bare(w'.disk, n))
      && (!j.upgrade ==>
            forall n | IsOwn(n, j.id) && !Bare(w'.disk, n) && n in w'.disk ::
              exists m :: IsOwn(m, j.id) && m in w.disk && w.disk[m].mutables == w'.disk[n].mutables)
      && (e == Code(0) ==>
            && w'.Clear()
            && if j.upgrade then Target in w'.disk && w'.disk[Target].files == j.backupInventory
               else Target !in w'.disk)
  }

  function Among(ts: Trees, names: set<Name>): (r: Trees)
    ensures forall n :: n in r <==> n in ts && n in names
    ensures forall n | n in r :: r[n] == ts[n]
  {
    map n | n in ts && n in names :: ts[n]
  }

  ghost predicate RolledBackTo(chosen: nat, w: World, e: Exit, w': World) {
    && w'.journal == w.journal && w'.locked == w.locked
    && if !w.Clear() then w'.disk == w.disk && w'.live == w.live
       else
         && RestKept(w.disk, w'.disk, chosen, w.nextId)
         && (if Clash(w.disk, Target, Backup(chosen)) then w'.disk == w.disk && e == Aborted
             else Exactly(Among(w'.disk, {Target, Backup(chosen), Displaced(w.nextId)}), Together(w.disk, chosen)))
         && (e == Code(0) ==> RolledBack(w.disk, w'.disk, chosen))
  }

  /** What a command that ends with `e` may make of a world. */
  ghost predicate Next(w: World, c: AnyCommand, e: Exit, w': World) {
    match c
    case ApplyOne(req) =>
      w'.nextId == w.nextId + 1 && if w.Clear() then Applied(req, w, e, w') else Blocked(w, e, w')
    case RecoverOne => w'.nextId == w.nextId && Recovered(w, e, w')
    case RollBackTo(chosen) => w'.nextId == w.nextId + 1 && RolledBackTo(chosen, w, e, w')
    case RemoveLockFile => w' == w.(locked := false)
  }

  // -------- What one command loses and what it brings --------

  /** What an apply may lose: what the probed release overwrites or removes in the target,
      and what the backups hold that are pruned once it has passed. */
  ghost predicate Spent(w: World, c: AnyCommand, dir: string, content: string) {
    && c.ApplyOne? && w.Clear()
    && (|| (c.req.Replaces(dir) && Has(w.disk, Target, dir, content))
        || exists n :: n in c.req.Prunes() && Has(w.disk, n, dir, content))
  }

  ghost predicate Brings(c: AnyCommand, dir: string, content: string) {
    c.ApplyOne? && c.req.Writes(dir, content)
  }

  /** During an upgrade its own trees hold the state of the installed release and no more. */
  lemma FlightHolds(ts: Trees, j: Journal, live: State, dir: string, content: string)
    requires InFlight(ts, j, live)
    ensures (dir in live && live[dir] == content) <==> exists n :: IsOwn(n, j.id) && Has(ts, n, dir, content)
  {
    if Restored(ts, j, live) || Adopted(ts, j, live) {
      OnlyHolder(ts, j, Target, live, dir, content);
    } else if Stranded(ts, j, live) {
      OnlyHolder(ts, j, Staging(j.id), live, dir, content);
    } else {
      var src :| src in {Target, Staging(j.id), Failed(j.id)} && Parked(ts, j, src, live);
      ParkedHolds(ts, j, src, live, dir, content);
    }
  }

  lemma ParkedHolds(ts: Trees, j: Journal, src: Name, live: State, dir: string, content: string)
    requires Parked(ts, j, src, live)
    ensures (dir in live && live[dir] == content) <==> exists n :: IsOwn(n, j.id) && Has(ts, n, dir, content)
  {
    var backup := Backup(j.id);
    assert dir in live && live[dir] == content <==> Has(ts, src, dir, content) || Has(ts, backup, dir, content);
    assert IsOwn(src, j.id) && IsOwn(backup, j.id);
    assert forall n | Has(ts, n, dir, content) && IsOwn(n, j.id) :: n == src || n == backup;
  }

  lemma OnlyHolder(ts: Trees, j: Journal, a: Name, live: State, dir: string, content: string)
    requires IsOwn(a, j.id) && a in ts && ts[a].mutables == live
    requires forall n | IsOwn(n, j.id) && n != a :: Bare(ts, n)
    ensures (dir in live && live[dir] == content) <==> exists n :: IsOwn(n, j.id) && Has(ts, n, dir, content)
  {
    if dir in live && live[dir] == content {
      assert Has(ts, a, dir, content);
    }
  }

  /** What is safe is on the disk. */
  lemma SafeIsFound(w: World, dir: string, content: string)
    requires Lawful(w) && Safe(w, dir, content)
    ensures Found(w.disk, dir, content)
  {
    if w.journal.Some? && dir in w.live && w.live[dir] == content {
      FlightHolds(w.disk, w.journal.value, w.live, dir, content);
    }
  }

  lemma ApplyKeepsSafe(req: Request, w: World, e: Exit, w': World, dir: string, content: string)
    requires Lawful(w) && Lawful(w') && w.Clear() && Applied(req, w, e, w') && Safe(w, dir, content)
    ensures Safe(w', dir, content) || Spent(w, ApplyOne(req), dir, content)
  {
    var n :| Has(w.disk, n, dir, content);
    if n == Target {
      assert dir in w.live && w.live[dir] == content;
      if dir in w'.live && w'.live[dir] == content {
        assert w'.journal.None? ==> Has(w'.disk, Target, dir, content);
      }
    } else {
      assert !IsOwn(n, w.nextId);
      if n in w'.disk {
        assert Has(w'.disk, n, dir, content);
      }
    }
  }

  lemma RecoverKeepsSafe(w: World, e: Exit, w': World, dir: string, content: string)
    requires Lawful(w) && Lawful(w') && Recovered(w, e, w') && Safe(w, dir, content)
    ensures Safe(w', dir, content)
  {
    if w.journal.Some? {
      if FoundBeside(w.disk, w.journal.value.id, dir, content) {
        var n :| !IsOwn(n, w.journal.value.id) && Has(w.disk, n, dir, content);
        assert Has(w'.disk, n, dir, content);
      } else if w'.journal.None? {
        assert Has(w'.disk, Target, dir, content);
      }
    }
  }

  lemma RollBackKeepsSafe(chosen: nat, w: World, e: Exit, w': World, dir: string, content: string)
    requires Lawful(w) && Lawful(w') && w'.nextId == w.nextId + 1 && RolledBackTo(chosen, w, e, w')
    requires Safe(w, dir, content)
    ensures Safe(w', dir, content)
  {
    if w.Clear() && !Clash(w.disk, Target, Backup(chosen)) {
      var names := {Target, Backup(chosen), Displaced(w.nextId)};
      var n :| Has(w.disk, n, dir, content);
      if n in names {
        assert n == Target || n == Backup(chosen);
        assert dir in Together(w.disk, chosen) && Together(w.disk, chosen)[dir] == content;
        var m :| Holds(Among(w'.disk, names), m, dir) && Among(w'.disk, names)[m].mutables[dir] == content;
        assert Has(w'.disk, m, dir, content);
      } else {
        assert Has(w'.disk, n, dir, content);
      }
    }
  }

  /** One command loses nothing but what an apply overwrites or prunes. */
  lemma StepKeepsSafe(w: World, c: AnyCommand, e: Exit, w': World, dir: string, content: string)
    requires Lawful(w) && Lawful(w') && Next(w, c, e, w') && Safe(w, dir, content)
    ensures Safe(w', dir, content) || Spent(w, c, dir, content)
  {
    match c
    case ApplyOne(req) =>
      if w.Clear() {
        ApplyKeepsSafe(req, w, e, w', dir, content);
      } else if w'.journal.None? {
        SafeIsFound(w, dir, content);
      }
    case RecoverOne => RecoverKeepsSafe(w, e, w', dir, content);
    case RollBackTo(chosen) => RollBackKeepsSafe(chosen, w, e, w', dir, content);
    case RemoveLockFile =>
  }

  lemma ApplyInventsNothing(req: Request, w: World, e: Exit, w': World, dir: string, content: string)
    requires Lawful(w) && Lawful(w') && w.Clear() && Applied(req, w, e, w') && Found(w'.disk, dir, content)
    ensures Found(w.disk, dir, content) || req.Writes(dir, content)
  {
    var n :| Has(w'.disk, n, dir, content);
    if !IsOwn(n, w.nextId) {
      assert Has(w.disk, n, dir, content);
    } else if Target !in w.disk {
      assert w'.disk[n].mutables == req.Probed(map[]);
    } else {
      if w'.journal.Some? {
        FlightHolds(w'.disk, w'.journal.value, w'.live, dir, content);
      }
      assert dir in w'.live && w'.live[dir] == content;
      if dir in w.live && w.live[dir] == content {
        assert Has(w.disk, Target, dir, content);
      }
    }
  }

  lemma RecoverInventsNothing(w: World, e: Exit, w': World, dir: string, content: string)
    requires Lawful(w) && Lawful(w') && Recovered(w, e, w') && Found(w'.disk, dir, content)
    ensures Found(w.disk, dir, content)
  {
    var n :| Has(w'.disk, n, dir, content);
    if w.journal.Some? {
      var j := w.journal.value;
      if !IsOwn(n, j.id) {
        assert Has(w.disk, n, dir, content);
      } else if !j.upgrade {
        var m :| IsOwn(m, j.id) && m in w.disk && w.disk[m].mutables == w'.disk[n].mutables;
        assert Has(w.disk, m, dir, content);
      } else {
        if w'.journal.Some? {
          FlightHolds(w'.disk, j, w.live, dir, content);
        }
        FlightHolds(w.disk, j, w.live, dir, content);
      }
    }
  }

  lemma RollBackInventsNothing(chosen: nat, w: World, e: Exit, w': World, dir: string, content: string)
    requires Lawful(w) && w'.nextId == w.nextId + 1 && RolledBackTo(chosen, w, e, w') && Found(w'.disk, dir, content)
    ensures Found(w.disk, dir, content)
  {
    var n :| Has(w'.disk, n, dir, content);
    if w.Clear() && !Clash(w.disk, Target, Backup(chosen)) {
      var names := {Target, Backup(chosen), Displaced(w.nextId)};
      if n in names {
        var live := Together(w.disk, chosen);
        assert Holds(Among(w'.disk, names), n, dir);
        var m :| Holds(Among(w'.disk, names), m, dir) && Among(w'.disk, names)[m].mutables[dir] == live[dir];
        assert m == n;
        assert Has(w.disk, Target, dir, content) || Has(w.disk, Backup(chosen), dir, content);
      } else {
        assert Has(w.disk, n, dir, content);
      }
    }
  }

  /** One command brings nothing but what a probed release writes. */
  lemma StepInventsNothing(w: World, c: AnyCommand, e: Exit, w': World, dir: string, content: string)
    requires Lawful(w) && Lawful(w') && Next(w, c, e, w') && Found(w'.disk, dir, content)
    ensures Found(w.disk, dir, content) || Brings(c, dir, content)
  {
    match c
    case ApplyOne(req) =>
      if w.Clear() {
        ApplyInventsNothing(req, w, e, w', dir, content);
      }
    case RecoverOne => RecoverInventsNothing(w, e, w', dir, content);
    case RollBackTo(chosen) => RollBackInventsNothing(chosen, w, e, w', dir, content);
    case RemoveLockFile =>
  }

  // -------- An apply that succeeds --------

  ghost predicate HeldBySiblings(ts: Trees, dir: string) {
    exists n :: n != Target && Holds(ts, n, dir)
  }

  /** Which trees hold a directory after a success. */
  lemma HoldsAfterSuccess(req: Request, w: World, w': World, n: Name, dir: string)
    requires Lawful(w) && Lawful(w') && w.Clear() && Applied(req, w, Code(0), w')
    ensures n != Target ==> (Holds(w'.disk, n, dir) <==> Holds(w.disk, n, dir) && n in w'.disk)
    ensures n != Target && Holds(w'.disk, n, dir) ==> w'.disk[n] == w.disk[n]
    ensures Holds(w.disk, Target, dir) <==> dir in w.live
    ensures Holds(w'.disk, Target, dir) <==> dir in req.Probed(w.live)
  {
    if IsOwn(n, w.nextId) && n != Target {
      assert n !in w.disk && Bare(w'.disk, n);
    }
  }

  lemma KeptBySuccess(req: Request, w: World, w': World, all: State)
    requires Lawful(w) && Lawful(w') && w.Clear() && Applied(req, w, Code(0), w') && Exactly(w.disk, all)
    requires forall dir | req.Replaces(dir) :: !HeldBySiblings(w.disk, dir)
    requires forall n | n in w.disk && n !in w'.disk && n != Target :: Bare(w.disk, n)
    ensures Exactly(w'.disk, req.Probed(all))
  {
    forall n, dir
      ensures n != Target ==> (Holds(w'.disk, n, dir) <==> Holds(w.disk, n, dir))
      ensures n != Target && Holds(w'.disk, n, dir) ==> w'.disk[n] == w.disk[n] && !req.Replaces(dir)
      ensures Holds(w.disk, Target, dir) <==> dir in w.live
      ensures Holds(w'.disk, Target, dir) <==> dir in req.Probed(w.live)
    {
      HoldsAfterSuccess(req, w, w', n, dir);
      assert n != Target && Holds(w.disk, n, dir) ==> HeldBySiblings(w.disk, dir);
    }
    forall dir | dir in req.Probed(all)
      ensures exists n :: Holds(w'.disk, n, dir) && w'.disk[n].mutables[dir] == req.Probed(all)[dir]
    {
      if req.Replaces(dir) {
        assert Holds(w'.disk, Target, dir);
      } else {
        var n :| Holds(w.disk, n, dir) && w.disk[n].mutables[dir] == all[dir];
        assert Holds(w'.disk, n, dir) && w'.disk[n].mutables[dir] == all[dir];
      }
    }
    forall dir, a, b | Holds(w'.disk, a, dir) && Holds(w'.disk, b, dir)
      ensures a == b && dir in req.Probed(all)
    {
      if !req.Replaces(dir) {
        assert Holds(w.disk, a, dir) && Holds(w.disk, b, dir);
      }
    }
  }

  lemma LostBySuccess(req: Request, w: World, w': World, all: State, n: Name, dir: string)
    requires Lawful(w) && Lawful(w') && w.Clear() && Applied(req, w, Code(0), w') && Exactly(w.disk, all)
    requires !req.Replaces(dir) && n != Target && Holds(w.disk, n, dir) && n !in w'.disk
    ensures !Exactly(w'.disk, req.Probed(all))
  {
    assert dir in all && dir in req.Probed(all);
    forall m
      ensures !Holds(w'.disk, m, dir)
    {
      HoldsAfterSuccess(req, w, w', m, dir);
      assert m != n ==> !Holds(w.disk, m, dir);
    }
  }

  /** When an apply succeeds, all state is conserved, as the probed release left it, exactly
      when no sibling that went with it held any; as long as the probed release did not write
      or remove a directory whose state is in a sibling. */
  lemma SuccessConserves(req: Request, w: World, w': World, all: State)
    requires Lawful(w) && Lawful(w') && w.Clear() && Applied(req, w, Code(0), w') && Exactly(w.disk, all)
    requires forall dir | req.Replaces(dir) :: !HeldBySiblings(w.disk, dir)
    ensures Exactly(w'.disk, req.Probed(all)) <==>
            forall n | n in w.disk && n !in w'.disk && n != Target :: Bare(w.disk, n)
  {
    if n :| n in w.disk && n !in w'.disk && n != Target && !Bare(w.disk, n) {
      var dir :| dir in w.disk[n].mutables;
      assert Holds(w.disk, n, dir) && HeldBySiblings(w.disk, dir);
      LostBySuccess(req, w, w', all, n, dir);
    } else {
      KeptBySuccess(req, w, w', all);
    }
  }

  // -------- Whole runs --------

  /** A command, the world it found and how it ended. */
  datatype Moment = Moment(world: World, command: AnyCommand, exit: Exit)

  /** Each world comes from the one before it by its command, and `last` from the last. */
  ghost predicate Unbroken(history: seq<Moment>, last: World) {
    && Lawful(last)
    && (history != [] ==>
          var m := history[|history| - 1];
          Next(m.world, m.command, m.exit, last) && Unbroken(history[..|history| - 1], m.world))
  }

  ghost predicate SpentIn(history: seq<Moment>, dir: string, content: string) {
    exists m | m in history :: Spent(m.world, m.command, dir, content)
  }

  ghost predicate BroughtIn(history: seq<Moment>, dir: string, content: string) {
    exists m | m in history :: Brings(m.command, dir, content)
  }

  /** What is safe at any moment of a run is safe at its end, unless a later apply of the run
      found it where it could overwrite or prune it. */
  lemma {:induction false} RunKeepsSafe(history: seq<Moment>, last: World, i: nat, dir: string, content: string)
    requires Unbroken(history, last) && i < |history| && Safe(history[i].world, dir, content)
    ensures Safe(last, dir, content) || SpentIn(history[i..], dir, content)
  {
    var n := |history| - 1;
    var m := history[n];
    assert m in history[i..];
    if i < n {
      RunKeepsSafe(history[..n], m.world, i, dir, content);
      assert forall x | x in history[..n][i..] :: x in history[i..];
    }
    if Safe(m.world, dir, content) {
      StepKeepsSafe(m.world, m.command, m.exit, last, dir, content);
    }
  }

  /** What is on the disk at the end of a run was there at any moment of it, or a probed
      release has written it since. */
  lemma {:induction false} RunInventsNothing(history: seq<Moment>, last: World, i: nat, dir: string, content: string)
    requires Unbroken(history, last) && i < |history| && Found(last.disk, dir, content)
    ensures Found(history[i].world.disk, dir, content) || BroughtIn(history[i..], dir, content)
  {
    var n := |history| - 1;
    var m := history[n];
    assert m in history[i..];
    StepInventsNothing(m.world, m.command, m.exit, last, dir, content);
    if i < n && Found(m.world.disk, dir, content) {
      RunInventsNothing(history[..n], m.world, i, dir, content);
      assert forall x | x in history[..n][i..] :: x in history[i..];
    }
  }

  // -------- Runs of applies and recovers alone --------

  /** No sibling holds state but those of the upgrade that is unfinished, and then the lock
      is there. */
  ghost predicate Tidy(w: World) {
    match w.journal
    case None => w.locked || forall n | n in w.disk && n != Target :: Bare(w.disk, n)
    case Some(j) => w.locked && forall n | n in w.disk && !IsOwn(n, j.id) :: Bare(w.disk, n)
  }

  lemma StepKeepsTidy(w: World, c: AnyCommand, e: Exit, w': World)
    requires Lawful(w) && Next(w, c, e, w') && Tidy(w) && (c.ApplyOne? || c.RecoverOne?)
    ensures Tidy(w')
  {
    if c.ApplyOne? && w.Clear() {
      forall n | n in w'.disk && !IsOwn(n, w.nextId)
        ensures Bare(w'.disk, n)
      {
        assert n in w.disk && Bare(w.disk, n);
      }
    } else if c.RecoverOne? && w.journal.Some? {
      forall n | n in w'.disk && !IsOwn(n, w.journal.value.id)
        ensures Bare(w'.disk, n)
      {
        assert n in w.disk && Bare(w.disk, n);
      }
    }
  }

  lemma {:induction false} RunKeepsTidy(history: seq<Moment>, last: World)
    requires Unbroken(history, last) && history != [] && Tidy(history[0].world)
    requires forall m | m in history :: m.command.ApplyOne? || m.command.RecoverOne?
    ensures Tidy(last) && forall m | m in history :: Tidy(m.world)
  {
    var n := |history| - 1;
    var m := history[n];
    if n > 0 {
      RunKeepsTidy(history[..n], m.world);
    }
    assert m in history;
    assert Lawful(m.world) by {
      UnbrokenIsLawful(history, last, n);
    }
    StepKeepsTidy(m.world, m.command, m.exit, last);
  }

  lemma {:induction false} UnbrokenIsLawful(history: seq<Moment>, last: World, i: nat)
    requires Unbroken(history, last) && i < |history|
    ensures Lawful(history[i].world)
  {
    var n := |history| - 1;
    if i < n {
      UnbrokenIsLawful(history[..n], history[n].world, i);
    }
  }

  /** As long as nobody rolls back or removes the lock, retention costs nothing: what is lost
      was overwritten or removed by a probed release. */
  lemma RetentionIsHarmless(history: seq<Moment>, last: World, dir: string, content: string)
    requires Unbroken(history, last) && history != [] && Tidy(history[0].world)
    requires forall m | m in history :: m.command.ApplyOne? || m.command.RecoverOne?
    requires Safe(history[0].world, dir, content) && !Safe(last, dir, content)
    ensures exists m | m in history ::
              m.command.ApplyOne? && m.command.req.Replaces(dir) && Has(m.world.disk, Target, dir, content)
  {
    RunKeepsSafe(history, last, 0, dir, content);
    RunKeepsTidy(history, last);
    var m :| m in history[0..] && Spent(m.world, m.command, dir, content);
    assert m in history;
    if n :| n in m.command.req.Prunes() && Has(m.world.disk, n, dir, content) {
      assert n == Target || Bare(m.world.disk, n);
    }
  }
}
