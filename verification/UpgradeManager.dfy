/** The release upgrade transaction: apply, recover and manual rollback.

    Every effect on the disk is one step that may be carried out, raise, or be the
    point where the process dies, so what a command promises "however it ends" is
    promised at each point where it can be interrupted. */
module UpgradeManager {
  import opened Faults
  import opened UpgradeDisk

  const MARKER := "pdr-release.json"

  /** How the new release is probed: for a file that is to appear in the target, outside the
      excluded directories, or in another way, with what that probe will say. */
  datatype Probe = Sentinel(path: string) | Answered(healthy: bool)

  /** What the caller and the outside world decide about one `apply`. */
  datatype Request = Request(
    accepted: bool,                 // signature, manifest, policy and argument checks pass
    files: seq<(string, string)>,   // manifest entries: path and digest
    marker: string,                 // digest of the version marker written last
    probe: Option<Probe>,           // none when the health check is skipped
    written: Inventory,             // files that appear in the target while it is probed
    removed: set<string>,           // and files that go
    activity: State,                // mutable directories the probed release writes meanwhile
    dropped: set<string>,           // and those that it removes
    pruned: seq<nat>)               // backups past the retention count, oldest by time stamp
  {
    function Release(): Inventory {
      Contents(files)[MARKER := marker]
    }

    /** The files of the new release when the probe answers. */
    function Final(): Inventory {
      if probe.None? then Release() else Release() - removed + written
    }

    /** What the probed release makes of its mutable directories, if it is probed. */
    function Probed(state: State): State {
      if probe.None? then state else state - dropped + activity
    }

    /** It writes this directory with this content. */
    predicate Writes(dir: string, content: string) {
      probe.Some? && dir in activity && activity[dir] == content
    }

    /** It overwrites or removes this directory, if there is one. */
    predicate Replaces(dir: string) {
      probe.Some? && (dir in activity || dir in dropped)
    }

    /** The backups that go once the new release has passed its health check. */
    function Prunes(): set<Name> {
      if Passes() then Backups(pruned) else {}
    }

    /** A sentinel must not be shipped. */
    predicate Admitted() {
      accepted && (probe.Some? && probe.value.Sentinel? ==> probe.value.path !in Contents(files))
    }

    predicate Passes() {
      match probe
      case None => true
      case Some(Sentinel(path)) => path in Final()
      case Some(Answered(healthy)) => healthy
    }
  }

  /** The probe for a file finds what was written after the activation, as it is meant to,
      unless the file is the version marker, which was there before. */
  lemma SentinelIsNew(req: Request)
    requires req.Admitted() && req.probe.Some? && req.probe.value.Sentinel?
    ensures req.Passes() <==>
            || req.probe.value.path in req.written
            || (req.probe.value.path == MARKER && MARKER !in req.removed)
  {
  }

  function Contents(files: seq<(string, string)>): Inventory {
    if files == [] then map[]
    else Contents(files[..|files| - 1])[files[|files| - 1].0 := files[|files| - 1].1]
  }

  class Host {
    var trees: Trees                // the target and its siblings
    var others: Trees               // further siblings, which commands touch only by pruning
    var journal: Option<Journal>
    var locked: bool
    var nextId: nat                 // stands for uuid4: an id is never given out twice

    ghost var live: State           // the mutable directories of the installed release
    ghost var disturbed: bool       // a step of the current command failed or was its last
    ghost var effects: nat          // renames and directory moves carried out so far
    ghost var reporting: bool       // the command has come to reporting its success

    constructor (trees: Trees)
      requires forall n | n in trees :: n == Target
      ensures this.trees == trees && others == map[] && Sound() && Guarded()
      ensures live == TreeAt(trees, Target).mutables
    {
      this.trees, others, journal, locked, nextId := trees, map[], None, false, 0;
      live, disturbed, effects, reporting := TreeAt(trees, Target).mutables, false, 0, false;
    }

    ghost predicate Sound()
      reads `trees, `journal, `locked, `live, `nextId
    {
      && SoundDisk(trees, journal, locked, live)
      && Below(trees, nextId)
      && (journal.Some? ==> journal.value.id < nextId)
    }

    /** The other siblings are neither in `trees` nor of the upgrade in progress. */
    ghost predicate Elsewhere()
      reads `trees, `others, `journal, `nextId
    {
      Distinct(trees, others, journal, nextId)
    }

    /** Holds as long as nobody deletes the lock file by hand. */
    ghost predicate Guarded()
      reads `journal, `locked
    {
      journal.Some? ==> locked
    }

    /** The journal is that of `j`, in whatever phase. */
    ghost predicate Journalled(j: Journal)
      reads `journal
    {
      journal.Some? && journal.value == j.(phase := journal.value.phase)
    }

    /** Nothing on disk speaks of an unfinished upgrade. */
    ghost predicate Clear()
      reads `journal, `locked
    {
      journal.None? && !locked
    }

    // -------- Single steps --------

    /** One effect about to happen: the environment decides whether it does. */
    method Step() returns (s: Status)
      modifies this`disturbed
      ensures disturbed == (old(disturbed) || !s.Done?)
    {
      s := *;
      disturbed := disturbed || !s.Done?;
    }

    method Audit() returns (s: Status)
      modifies this`disturbed
      ensures disturbed == (old(disturbed) || !s.Done?)
    {
      s := Step();
    }

    /** The last step of a command that has succeeded. */
    method Report() returns (s: Status)
      modifies this`disturbed, this`reporting
      ensures reporting && disturbed == (old(disturbed) || !s.Done?)
    {
      reporting := true;
      s := Step();
    }

    /** Creates the lock file and then writes to it; when that fails, the file stays. */
    method AcquireLock() returns (s: Status)
      modifies this`locked, this`disturbed
      ensures old(locked) ==> !s.Done?
      ensures old(locked) || s.Done? ==> locked
      ensures old(disturbed) ==> disturbed
      ensures !disturbed ==> if old(locked) then s == Raised else s.Done?
    {
      s := Done;
      :- Step();
      if locked {
        return Raised;
      }
      locked := true;
      s := Step();
    }

    method ReleaseLock() returns (s: Status)
      modifies this`locked, this`disturbed
      ensures locked == (if s.Done? then false else old(locked))
      ensures disturbed == (old(disturbed) || !s.Done?)
    {
      s := Done;
      :- Step();
      locked := false;
      return Done;
    }

    /** The journal file is replaced as a whole or not at all. */
    method WriteJournal(j: Journal) returns (s: Status)
      modifies this`journal, this`disturbed
      ensures journal == (if s.Done? then Some(j) else old(journal))
      ensures disturbed == (old(disturbed) || !s.Done?)
    {
      s := Done;
      :- Step();
      journal := Some(j);
      return Done;
    }

    method UnlinkJournal() returns (s: Status)
      modifies this`journal, this`disturbed
      ensures s.Done? ==> old(journal).Some? && journal == None
      ensures !s.Done? ==> journal == old(journal)
      ensures old(disturbed) ==> disturbed
      ensures !disturbed && old(journal).Some? ==> s.Done?
    {
      s := Done;
      :- Step();
      if journal.None? {
        return Raised;
      }
      journal := None;
      return Done;
    }

    method RemoveTree(n: Name) returns (s: Status)
      modifies this`trees, this`disturbed
      ensures trees == (if s.Done? then old(trees) - {n} else old(trees))
      ensures disturbed == (old(disturbed) || !s.Done?)
    {
      if n !in trees {
        assert trees == trees - {n};
        return Done;
      }
      :- Step();
      trees := trees - {n};
      return Done;
    }

    /** Retries on transient errors; in the end it renamed the tree or it raised. A
        directory in the way is no obstacle on some systems, if it is empty. */
    method RenamePath(from: Name, to: Name) returns (s: Status)
      modifies this`trees, this`disturbed, this`effects
      ensures s.Done? ==>
                && from in old(trees) && (to !in old(trees) || (old(trees)[to] == EMPTY && to != from))
                && trees == Renamed(old(trees), from, to)
      ensures !s.Done? ==> trees == old(trees)
      ensures effects == old(effects) + (if s.Done? then 1 else 0)
      ensures old(disturbed) ==> disturbed
      ensures !disturbed && from in old(trees) && to !in old(trees) ==> s.Done?
    {
      s := Done;
      :- Step();
      var overEmpty: bool := *;
      if from !in trees || (to in trees && !(overEmpty && to != from && trees[to] == EMPTY)) {
        return Raised;
      }
      trees := Renamed(trees, from, to);
      effects := effects + 1;
      return Done;
    }

    method VerifyInventory(n: Name, expected: Inventory) returns (s: Status)
      modifies this`disturbed
      ensures s.Done? ==> TreeAt(trees, n).files == expected
      ensures old(disturbed) ==> disturbed
      ensures !disturbed && TreeAt(trees, n).files == expected ==> s.Done?
    {
      s := Done;
      :- Step();
      if TreeAt(trees, n).files != expected {
        return Raised;
      }
      return Done;
    }

    method MoveOne(src: Name, dst: Name, dir: string) returns (s: Status)
      requires src != dst && dir in TreeAt(trees, src).mutables
      modifies this`trees, this`disturbed, this`effects
      ensures trees == (if s.Done? then Shift(old(trees), src, dst, {dir}) else old(trees))
      ensures effects == old(effects) + (if s.Done? then 1 else 0)
      ensures disturbed == (old(disturbed) || !s.Done?)
    {
      s := Done;
      :- Step();
      trees := Shift(trees, src, dst, {dir});
      effects := effects + 1;
      return Done;
    }

    method MoveAll(src: Name, dst: Name) returns (s: Status, moved: set<string>)
      requires src != dst && src in trees
      modifies this`trees, this`disturbed, this`effects
      ensures moved <= old(trees)[src].mutables.Keys
      ensures trees == Shift(old(trees), src, dst, moved)
      ensures s.Done? ==> moved == old(trees)[src].mutables.Keys
      ensures effects == old(effects) + |moved|
      ensures disturbed == (old(disturbed) || !s.Done?)
    {
      moved := {};
      var before := trees;
      var todo := trees[src].mutables.Keys;
      while todo != {}
        invariant moved <= before[src].mutables.Keys && todo == before[src].mutables.Keys - moved
        invariant trees == Shift(before, src, dst, moved)
        invariant effects == old(effects) + |moved|
        invariant disturbed == old(disturbed)
        decreases todo
      {
        var m :| m in todo;
        ShiftOneMore(before, src, dst, moved, m);
        :- MoveOne(src, dst, m);
        moved, todo := moved + {m}, todo - {m};
      }
      return Done, moved;
    }

    /** Moves the mutable directories of `src` into `dst` one at a time, in any order,
        unless `dst` already has one of them. However it ends, what has been moved is in
        `dst` and the rest is still in `src`. */
    method TransferMutable(src: Name, dst: Name) returns (s: Status, moved: set<string>)
      requires src != dst
      modifies this`trees, this`disturbed, this`effects
      ensures moved <= TreeAt(old(trees), src).mutables.Keys
      ensures trees == Shift(old(trees), src, dst, moved)
      ensures s.Done? ==> moved == TreeAt(old(trees), src).mutables.Keys
      ensures effects == old(effects) + |moved|
      ensures TreeAt(old(trees), src).mutables.Keys !! TreeAt(old(trees), dst).mutables.Keys || moved == {}
      ensures old(disturbed) ==> disturbed
      ensures !disturbed && TreeAt(old(trees), src).mutables.Keys !! TreeAt(old(trees), dst).mutables.Keys ==> s.Done?
    {
      moved := {};
      if src !in trees {
        return Done, {};
      }
      :- Step();
      if !(trees[src].mutables.Keys !! TreeAt(trees, dst).mutables.Keys) {
        return Raised, {};
      }
      s, moved := MoveAll(src, dst);
    }

    /** The old release is the backup of `j`, and only siblings of this upgrade count. */
    ghost predicate ParkedIn(j: Journal, src: Name)
      reads `trees, `live, `nextId
    {
      Parked(trees, j, src, live) && Quiet(trees, j.id) && Below(trees, nextId) && j.id < nextId
    }

    /** Takes the state back from `src` to the backup. */
    method TakeBack(j: Journal, src: Name) returns (s: Status)
      requires ParkedIn(j, src)
      modifies this`trees, this`disturbed, this`effects
      ensures ParkedIn(j, src)
      ensures trees.Keys == old(trees).Keys
      ensures s.Done? ==> trees[src].mutables == map[] && trees[Backup(j.id)].mutables == live
      ensures Remaining(trees, j) + effects == Remaining(old(trees), j) + old(effects)
      ensures Apart(old(trees), trees, j.id, {})
      ensures old(disturbed) ==> disturbed
      ensures !disturbed ==> s.Done?
    {
      hide Apart;
      ghost var before := trees;
      var moved;
      s, moved := TransferMutable(src, Backup(j.id));
      ApartShift(before, j.id, src, Backup(j.id), moved);
      TakingBack(before, j, src, moved, live, nextId);
    }

    /** Gives the state of the backup to the staged tree. */
    method HandOut(j: Journal, dst: Name) returns (s: Status)
      requires ParkedIn(j, dst)
      modifies this`trees, this`disturbed, this`effects
      ensures ParkedIn(j, dst)
      ensures trees.Keys == old(trees).Keys && trees[dst].files == old(trees)[dst].files
      ensures s.Done? ==> trees[dst].mutables == live && trees[Backup(j.id)].mutables == map[]
      ensures Apart(old(trees), trees, j.id, {})
      ensures old(disturbed) ==> disturbed
      ensures !disturbed ==> s.Done?
    {
      hide Apart;
      ghost var before := trees;
      var moved;
      s, moved := TransferMutable(Backup(j.id), dst);
      ApartShift(before, j.id, Backup(j.id), dst, moved);
      GivingOut(before, j, dst, moved, live, nextId);
    }

    // -------- Apply --------

    /** Copies and checks the manifest's files one by one, then writes the marker. */
    method StageFiles(req: Request, id: nat) returns (s: Status)
      modifies this`trees, this`disturbed
      ensures trees - {Staging(id)} == old(trees) - {Staging(id)}
      ensures Staging(id) !in old(trees) ==> Bare(trees, Staging(id))
      ensures s.Done? ==> Staging(id) in trees && trees[Staging(id)] == Tree(req.Release(), map[])
      ensures old(disturbed) ==> disturbed
      ensures !disturbed && Staging(id) !in old(trees) ==> s.Done?
    {
      s := Done;
      :- Step();
      if Staging(id) in trees {
        return Raised;
      }
      trees := trees[Staging(id) := EMPTY];
      for i := 0 to |req.files|
        invariant Staging(id) in trees && trees[Staging(id)] == Tree(Contents(req.files[..i]), map[])
        invariant trees - {Staging(id)} == old(trees) - {Staging(id)}
        invariant old(disturbed) ==> disturbed
      {
        s := Done;
        :- Step();
        assert req.files[..i + 1][..i] == req.files[..i];
        var staged := trees[Staging(id)];
        trees := trees[Staging(id) := staged.(files := staged.files[req.files[i].0 := req.files[i].1])];
      }
      assert req.files[..|req.files|] == req.files;
      :- Step();
      trees := trees[Staging(id) := Tree(req.Release(), map[])];
      return Done;
    }

    /** Up to the second journal entry: nothing but the journal, the lock and the staging
        tree has changed. `tx` is the in-memory transaction, which is ahead of the journal
        when a journal write fails. */
    method Prepare(req: Request, id: nat)
      returns (s: Status, tx: Option<Journal>, interrupted: bool, held: bool)
      requires Staging(id) !in trees
      modifies this`trees, this`journal, this`locked, this`disturbed
      ensures trees - {Staging(id)} == old(trees) && Bare(trees, Staging(id))
      ensures held ==> !old(locked) && locked
      ensures !held ==> (old(locked) ==> locked) && tx == None && !interrupted
      ensures !held ==> trees == old(trees) && journal == old(journal)
      ensures interrupted <==> held && old(journal).Some?
      ensures interrupted ==> trees == old(trees) && journal == old(journal) && !s.Done? && tx == None
      ensures tx.None? ==> trees == old(trees) && journal == old(journal)
      ensures tx.Some? ==> tx.value.id == id && tx.value.upgrade == (Target in old(trees))
                           && tx.value.backupInventory == TreeAt(old(trees), Target).files
                           && tx.value.phase in {PreflightPassed, StagingVerified}
      ensures journal == old(journal)
              || (tx.Some? && journal.Some? && journal.value.phase in {PreflightPassed, StagingVerified}
                  && journal.value == tx.value.(phase := journal.value.phase))
      ensures s.Done? ==> held && !interrupted && tx.Some? && journal == tx && tx.value.phase == StagingVerified
                          && Staging(id) in trees && trees[Staging(id)] == Tree(req.Release(), map[])
      ensures s.Done? ==> req.Admitted() && !old(locked) && old(journal).None?
      ensures old(disturbed) ==> disturbed
      ensures !disturbed && req.Admitted() && !old(locked) && old(journal).None? ==> s.Done?
      ensures !disturbed && (old(locked) || old(journal).Some? || !req.Admitted()) ==> s == Raised
      ensures !disturbed && !old(locked) ==> held
    {
      tx, interrupted, held := None, false, false;
      :- Step();
      :- AcquireLock();
      held := true;
      if journal.Some? {
        s, interrupted := Raised, true;
        return;
      }
      :- Step();
      if !req.Admitted() {
        s := Raised;
        return;
      }
      tx := Some(Journal(id, PreflightPassed, Target in trees, TreeAt(trees, Target).files));
      :- WriteJournal(tx.value);
      :- Audit();
      :- StageFiles(req, id);
      tx := Some(tx.value.(phase := StagingVerified));
      :- WriteJournal(tx.value);
      s := Audit();
    }

    /** The staged tree is ready and the old release, if there is one, is the target. */
    ghost predicate Staged(j: Journal)
      reads `trees, `journal, `locked, `live, `nextId
    {
      && journal == Some(j) && j.phase == StagingVerified && Sound()
      && Idle(trees, live) && Staging(j.id) in trees
      && Backup(j.id) !in trees && Failed(j.id) !in trees
      && j.upgrade == (Target in trees) && j.backupInventory == TreeAt(trees, Target).files
    }

    /** The old release is the backup and all its state is in the staged tree. */
    ghost predicate SetAside(j: Journal, release: Tree)
      reads `trees, `journal, `locked, `live, `nextId
    {
      && journal == Some(j) && Sound() && locked
      && Target !in trees && Failed(j.id) !in trees
      && Staging(j.id) in trees && trees[Staging(j.id)].files == release.files
      && TreeAt(trees, Staging(j.id)).mutables == live
      && if j.upgrade then
           && j.phase == MutableStateTransferred
           && Backup(j.id) in trees && trees[Backup(j.id)] == Tree(j.backupInventory, map[])
         else
           j.phase == BackupCreated && Backup(j.id) !in trees
    }

    method MoveAside(j: Journal) returns (s: Status, tx: Journal)
      requires Staged(j) && locked
      modifies this`trees, this`journal, this`disturbed, this`effects
      ensures Sound() && Journalled(j)
      ensures tx == j.(phase := tx.phase) && tx.phase in {StagingVerified, BackupCreated}
      ensures tx.phase == StagingVerified ==> trees == old(trees) && journal == old(journal) && !s.Done?
      ensures s.Done? ==> journal == Some(tx) && tx.phase == BackupCreated
      ensures trees == old(trees) ||
              (j.upgrade && trees == Renamed(old(trees), Target, Backup(j.id)) && Parked(trees, j, Staging(j.id), live))
      ensures s.Done? && j.upgrade ==> trees != old(trees)
      ensures Apart(old(trees), trees, j.id, {})
      ensures !j.upgrade ==> trees == old(trees)
      ensures old(disturbed) ==> disturbed
      ensures !disturbed ==> s.Done?
    {
      tx := j;
      if Target in trees {
        StepsKeepBounds(trees, Target, Backup(j.id), {}, j, nextId);
        :- RenamePath(Target, Backup(j.id));
        assert Split(trees[Staging(j.id)], trees[Backup(j.id)], live);
      }
      tx := tx.(phase := BackupCreated);
      s := WriteJournal(tx);
    }

    /** The old release's state goes to the staged tree, if there is an old release. */
    method HandOver(j: Journal) returns (s: Status, tx: Journal)
      requires Sound() && locked && journal == Some(j) && j.phase == BackupCreated
      requires if j.upgrade then Parked(trees, j, Staging(j.id), live) && trees[Backup(j.id)].mutables == live
               else Target !in trees && Failed(j.id) !in trees && Staging(j.id) in trees
      modifies this`trees, this`journal, this`disturbed, this`effects
      ensures Sound() && Journalled(j)
      ensures tx == j.(phase := tx.phase) && tx.phase in {BackupCreated, MutableStateTransferred}
      ensures s.Done? ==> SetAside(tx, old(trees)[Staging(j.id)])
      ensures Apart(old(trees), trees, j.id, {})
      ensures !j.upgrade ==> trees == old(trees)
      ensures old(disturbed) ==> disturbed
      ensures !disturbed ==> s.Done?
    {
      tx, s := j, Done;
      if Backup(j.id) in trees {
        :- VerifyInventory(Backup(j.id), tx.backupInventory);
        :- HandOut(j, Staging(j.id));
        tx := tx.(phase := MutableStateTransferred);
        s := WriteJournal(tx);
      }
    }

    /** The new release is the target and has all the state; an old one is the backup. */
    ghost predicate Installed(j: Journal, release: Inventory)
      reads `trees, `journal, `locked, `live, `nextId
    {
      && journal == Some(j) && Sound() && locked && j.phase in {Activated, HealthPassed}
      && Target in trees && trees[Target].files == release
      && (j.upgrade ==> trees[Target].mutables == live)
      && Staging(j.id) !in trees && Failed(j.id) !in trees
      && if j.upgrade then Backup(j.id) in trees && trees[Backup(j.id)] == Tree(j.backupInventory, map[])
         else Backup(j.id) !in trees
    }

    /** Puts the staged tree in place of the target. When that rename fails, the old
        release goes back without its state, and the error is passed on. */
    method Activate(j: Journal, ghost release: Tree) returns (s: Status, tx: Journal)
      requires SetAside(j, release)
      modifies this`trees, this`journal, this`disturbed, this`effects
      ensures Sound() && Journalled(j)
      ensures tx == j.(phase := tx.phase) && tx.phase !in {PreflightPassed, StagingVerified}
      ensures s.Done? ==> Installed(tx, release.files) && tx.phase == Activated && trees[Target].mutables == live
      ensures Apart(old(trees), trees, j.id, {})
      ensures !j.upgrade ==> trees == old(trees) || trees == Renamed(old(trees), Staging(j.id), Target)
      ensures old(disturbed) ==> disturbed
      ensures !disturbed ==> s.Done?
    {
      tx := j;
      if j.upgrade {
        Activating(trees, j, live, nextId);
      }
      s := RenamePath(Staging(j.id), Target);
      if s.Raised? {
        if Backup(j.id) in trees && Target !in trees {
          :- RenamePath(Backup(j.id), Target);
        }
        return Raised, tx;
      }
      if !s.Done? {
        return;
      }
      if j.upgrade {
        ParkedIsInFlight(trees, j, Target, live);
        ParkedIsInFlight(trees, j.(phase := Activated), Target, live);
      }
      :- Audit();
      tx := tx.(phase := Activated);
      s := WriteJournal(tx);
    }

    /** While the probe runs, files of the target and mutable directories of the new release
        may come, change and go. */
    method Probe(j: Journal, req: Request) returns (s: Status)
      requires Installed(j, req.Release()) && req.probe.Some?
      modifies this`trees, this`live, this`disturbed
      ensures Installed(j, req.Release()) || Installed(j, req.Final())
      ensures s.Done? ==> Installed(j, req.Final())
      ensures live == old(live) || (j.upgrade && live == req.Probed(old(live)))
      ensures s.Done? && j.upgrade ==> live == req.Probed(old(live))
      ensures trees[Target].mutables == old(trees)[Target].mutables
              || trees[Target].mutables == req.Probed(old(trees)[Target].mutables)
      ensures s.Done? ==> trees[Target].mutables == req.Probed(old(trees)[Target].mutables)
      ensures Apart(old(trees), trees, j.id, {})
      ensures !j.upgrade && Clean(old(trees), map[]) ==> Clean(trees, req.Probed(map[]))
      ensures old(disturbed) ==> disturbed
      ensures !disturbed ==> s.Done?
    {
      hide SoundDisk, Below, Apart, Clean;
      var probed := Tree(req.Final(), req.Probed(trees[Target].mutables));
      ApartFromItself(trees, j.id);
      CleanChange(trees, probed, req.Probed(map[]), j.id);
      :- Step();
      ProbingKeepsDisk(trees, j, live, probed, nextId);
      trees := trees[Target := probed];
      if j.upgrade {
        live := probed.mutables;
      }
      s := Step();
    }

    /** The backup, with all state in it, becomes the target again. */
    method PutBack(j: Journal) returns (s: Status)
      requires Sound() && journal == Some(j) && j.upgrade && ParkedIn(j, Holder(trees, j))
      requires Target !in trees && trees[Holder(trees, j)].mutables == map[] && trees[Backup(j.id)].mutables == live
      modifies this`trees, this`disturbed, this`effects
      ensures Sound()
      ensures Remaining(trees, j) + effects == Remaining(old(trees), j) + old(effects)
      ensures Backup(j.id) in trees || Restored(trees, j, live)
      ensures Staging(j.id) in trees ==> Staging(j.id) in old(trees)
      ensures s.Done? ==> Backup(j.id) !in trees
      ensures Apart(old(trees), trees, j.id, {})
      ensures old(disturbed) ==> disturbed
      ensures !disturbed ==> s.Done?
    {
      PuttingBack(trees, j, Holder(trees, j), live, nextId);
      :- RenamePath(Backup(j.id), Target);
      RestoredIsInFlight(trees, j, live);
      s := VerifyInventory(Target, j.backupInventory);
    }

    /** The health check failed: the new release leaves, the old one comes back. */
    method SwapBack(j: Journal, release: Inventory) returns (s: Status)
      requires Installed(j, release) && j.phase == Activated
      modifies this`trees, this`disturbed, this`effects
      ensures Sound()
      ensures s.Done? ==> Staging(j.id) !in trees && Backup(j.id) !in trees
      ensures s.Done? ==> if j.upgrade then Restored(trees, j, live) else Target !in trees
      ensures Apart(old(trees), trees, j.id, {})
      ensures !j.upgrade ==> NothingMore(old(trees), trees)
      ensures old(disturbed) ==> disturbed
      ensures !disturbed ==> s.Done?
    {
      if j.upgrade {
        SettingFailedAside(trees, j, live, nextId);
        ParkedIsInFlight(Renamed(trees, Target, Failed(j.id)), j, Failed(j.id), live);
      }
      :- RenamePath(Target, Failed(j.id));
      if Backup(j.id) in trees {
        s := TakeBack(j, Failed(j.id));
        ParkedIsInFlight(trees, j, Failed(j.id), live);
        if !s.Done? {
          return;
        }
        s := PutBack(j);
        return;
      }
      s := Done;
    }

    method Close(j: Journal) returns (s: Status)
      requires Sound() && locked && Journalled(j)
      requires Staging(j.id) !in trees && Backup(j.id) !in trees
      requires if j.upgrade then Restored(trees, j, live) else Target !in trees && live == map[]
      modifies this`trees, this`journal, this`locked, this`disturbed
      ensures Sound() && (journal.Some? ==> Journalled(j))
      ensures journal.None? ==> Idle(trees, live)
      ensures s.Done? ==> Clear() && TreeAt(trees, Target) == TreeAt(old(trees), Target)
                          && (Target in trees <==> Target in old(trees))
      ensures s.Done? ==> Staging(j.id) !in trees && Backup(j.id) !in trees && Failed(j.id) !in trees
      ensures locked || s.Done?
      ensures Apart(old(trees), trees, j.id, {})
      ensures !j.upgrade ==> NothingMore(old(trees), trees)
      ensures old(disturbed) ==> disturbed
      ensures !disturbed ==> s.Done?
    {
      var tx := j.(phase := HealthFailedRollbackVerified);
      :- WriteJournal(tx);
      :- Audit();
      :- RemoveTree(Failed(j.id));
      if j.upgrade {
        RestoredIsInFlight(trees, tx, live);
      }
      :- UnlinkJournal();
      OneHolderConserves(trees, Target, live);
      s := ReleaseLock();
    }

    method Withdraw(j: Journal, release: Inventory) returns (s: Status)
      requires Installed(j, release) && j.phase == Activated
      modifies this`trees, this`journal, this`locked, this`disturbed, this`effects
      ensures Sound() && (journal.Some? ==> Journalled(j))
      ensures journal.None? ==> Idle(trees, live)
      ensures s.Done? ==> Clear() && Staging(j.id) !in trees && Backup(j.id) !in trees && Failed(j.id) !in trees
      ensures s.Done? ==> if j.upgrade then Target in trees && trees[Target] == Tree(j.backupInventory, live)
                          else Target !in trees
      ensures locked || s.Done?
      ensures Apart(old(trees), trees, j.id, {})
      ensures !j.upgrade ==> NothingMore(old(trees), trees)
      ensures old(disturbed) ==> disturbed
      ensures !disturbed ==> s.Done?
    {
      s := Done;
      :- SwapBack(j, release);
      s := Close(j);
    }

    method RemoveBackup(id: nat) returns (s: Status)
      modifies this`trees, this`others, this`disturbed
      ensures trees == (if s.Done? then old(trees) - {Backup(id)} else old(trees))
      ensures others == (if s.Done? then old(others) - {Backup(id)} else old(others))
      ensures disturbed == (old(disturbed) || !s.Done?)
    {
      s := Done;
      :- Step();
      trees, others := trees - {Backup(id)}, others - {Backup(id)};
      return Done;
    }

    /** Removes one backup after another; `n` of them are gone when it ends. */
    method PruneBackups(ids: seq<nat>) returns (s: Status, n: nat)
      modifies this`trees, this`others, this`disturbed
      ensures n <= |ids| && trees == old(trees) - Backups(ids[..n]) && others == old(others) - Backups(ids[..n])
      ensures s.Done? ==> n == |ids|
      ensures disturbed == (old(disturbed) || !s.Done?)
    {
      n := 0;
      while n < |ids|
        invariant n <= |ids| && trees == old(trees) - Backups(ids[..n]) && others == old(others) - Backups(ids[..n])
        invariant disturbed == old(disturbed)
      {
        assert Backups(ids[..n + 1]) == Backups(ids[..n]) + {Backup(ids[n])};
        :- RemoveBackup(ids[n]);
        n := n + 1;
      }
      assert ids[..n] == ids;
      return Done, n;
    }

    /** The health check passed or was skipped: the new release stays. A backup that
        cannot be removed is only reported. */
    method Approve(j: Journal, release: Inventory, pruned: seq<nat>) returns (s: Status)
      requires Installed(j, release) && j.phase == Activated
      modifies this`trees, this`others, this`journal, this`disturbed
      ensures Sound() && Journalled(j)
      ensures s.Done? ==> journal == Some(j.(phase := HealthPassed))
      ensures s.Done? ==> Target in trees && trees[Target] == old(trees)[Target]
                          && forall n | n in trees && n != Target :: Bare(trees, n)
      ensures s.Done? ==> BackupKept(trees, j, Backups(pruned)) && Staging(j.id) !in trees && Failed(j.id) !in trees
      ensures Apart(old(trees), trees, j.id, Backups(pruned))
      ensures !j.upgrade ==> NothingMore(old(trees), trees)
      ensures Thinned(old(others), others, Backups(pruned))
      ensures !disturbed ==> others == old(others) - Backups(pruned)
      ensures old(disturbed) ==> disturbed
      ensures !disturbed ==> s.Done?
    {
      var tx := j.(phase := HealthPassed);
      assert j.upgrade ==> Parked(trees, tx, Target, live);
      :- WriteJournal(tx);
      :- Audit();
      ghost var before := trees;
      var n;
      s, n := PruneBackups(pruned);
      PruningKeepsState(before, tx, pruned[..n], live, nextId);
      assert n == |pruned| ==> pruned[..n] == pruned;
      if s.Crashed? {
        return;
      }
      s := Audit();
    }

    /** The new release is in place with all state, the old one is kept, and nothing speaks
        of an unfinished upgrade. */
    ghost predicate Accomplished(j: Journal, release: Inventory, pruned: seq<nat>)
      reads `trees, `journal, `locked, `live
    {
      && Clear() && Target in trees && trees[Target] == Tree(release, live)
      && BackupKept(trees, j, Backups(pruned)) && Staging(j.id) !in trees && Failed(j.id) !in trees
    }

    /** The journal and the lock go, and then the success is reported, which can fail. */
    method Commit(j: Journal, release: Inventory, pruned: seq<nat>) returns (s: Status)
      requires Installed(j, release) && j.phase == Activated && !reporting
      modifies this`trees, this`others, this`journal, this`locked, this`live, this`disturbed, this`reporting
      ensures Sound() && (journal.Some? ==> locked && Journalled(j))
      ensures journal.None? ==> Idle(trees, live)
      ensures live == old(live) || (!j.upgrade && live == old(trees)[Target].mutables)
      ensures reporting ==> live == old(trees)[Target].mutables
      ensures s.Done? ==> reporting
      ensures if reporting then Accomplished(j, release, pruned) else locked
      ensures Apart(old(trees), trees, j.id, Backups(pruned))
      ensures !j.upgrade ==> NothingMore(old(trees), trees)
      ensures Thinned(old(others), others, Backups(pruned))
      ensures !disturbed ==> others == old(others) - Backups(pruned)
      ensures old(disturbed) ==> disturbed
      ensures !disturbed ==> s.Done?
    {
      s := Done;
      :- Approve(j, release, pruned);
      :- UnlinkJournal();
      if !j.upgrade {
        live := trees[Target].mutables;
      }
      OneHolderConserves(trees, Target, live);
      :- ReleaseLock();
      s := Report();
    }

    /** From the staged release to the installed one. */
    method Switch(prepared: Journal, ghost release: Tree) returns (s: Status, tx: Journal)
      requires Staged(prepared) && locked && trees[Staging(prepared.id)] == release
      modifies this`trees, this`journal, this`disturbed, this`effects
      ensures tx.phase in {PreflightPassed, StagingVerified} ==>
                !s.Done? && trees == old(trees) && journal == old(journal)
      ensures Sound() && Journalled(prepared)
      ensures s.Done? ==> Installed(tx, release.files) && tx == prepared.(phase := Activated)
      ensures s.Done? ==> trees[Target].mutables == live
      ensures Apart(old(trees), trees, prepared.id, {})
      ensures !prepared.upgrade ==> Clean(trees, map[])
      ensures old(disturbed) ==> disturbed
      ensures !disturbed ==> s.Done?
    {
      ghost var start := trees;
      s, tx := MoveAside(prepared);
      if !s.Done? {
        return;
      }
      hide Apart;
      ghost var aside := trees;
      s, tx := HandOver(tx);
      ApartComposes(start, aside, trees, prepared.id, {});
      if !s.Done? {
        return;
      }
      ghost var handed := trees;
      s, tx := Activate(tx, release);
      ApartComposes(start, handed, trees, prepared.id, {});
    }

    /** The new release is in place: it is probed, and stays or is taken back. */
    method Decide(req: Request, j: Journal) returns (s: Status, code: int)
      requires Installed(j, req.Release()) && j.phase == Activated && trees[Target].mutables == live && !reporting
      requires !j.upgrade ==> Clean(trees, map[])
      modifies this`trees, this`others, this`journal, this`locked, this`live
      modifies this`disturbed, this`effects, this`reporting
      ensures Sound() && (journal.Some? ==> locked && Journalled(j))
      ensures journal.None? ==> Idle(trees, live)
      ensures live == old(live) || live == req.Probed(old(live))
      ensures reporting ==> live == req.Probed(old(live))
      ensures s.Done? ==> journal.None? && !locked && code in {0, 2} && (code == 0 <==> reporting)
      ensures reporting ==> Accomplished(j, req.Final(), req.pruned) && req.Passes()
      ensures !s.Done? && !reporting ==> locked
      ensures s.Done? && code == 2 ==>
                && !req.Passes() && Apart(old(trees), trees, j.id, {})
                && (if j.upgrade then Target in trees && trees[Target] == Tree(j.backupInventory, live)
                    else Target !in trees)
                && Staging(j.id) !in trees && Backup(j.id) !in trees && Failed(j.id) !in trees
      ensures Apart(old(trees), trees, j.id, req.Prunes())
      ensures !j.upgrade ==> Clean(trees, req.Probed(map[]))
      ensures Thinned(old(others), others, req.Prunes())
      ensures !disturbed && req.Passes() ==> others == old(others) - req.Prunes()
      ensures old(disturbed) ==> disturbed
      ensures !disturbed ==> s.Done?
    {
      hide Apart, Thinned, SoundDisk, BackupKept;
      code, s := 0, Done;
      ghost var start := trees;
      NothingThinned(others, req.Prunes());
      ApartFromItself(start, j.id);
      if req.probe.Some? {
        s := Probe(j, req);
      }
      ghost var probed := trees;
      ApartWiden(start, probed, j.id, req.Prunes());
      if !s.Done? {
        return;
      }
      if req.Passes() {
        s := Commit(j, req.Final(), req.pruned);
        ApartComposes(start, probed, trees, j.id, req.Prunes());
      } else {
        code := 2;
        s := Withdraw(j, req.Final());
        ApartComposes(start, probed, trees, j.id, {});
        ApartWiden(start, trees, j.id, req.Prunes());
      }
    }

    /** Everything `apply` does inside its try block once preparation has succeeded. */
    method Install(req: Request, prepared: Journal) returns (s: Status, code: int, tx: Journal)
      requires Staged(prepared) && locked && !reporting && trees[Staging(prepared.id)] == Tree(req.Release(), map[])
      modifies this`trees, this`others, this`journal, this`locked, this`live
      modifies this`disturbed, this`effects, this`reporting
      ensures tx.phase in {PreflightPassed, StagingVerified} ==>
                !s.Done? && trees == old(trees) && journal == old(journal) && locked && live == old(live)
      ensures Sound() && (journal.Some? ==> locked && Journalled(prepared))
      ensures journal.None? ==> Idle(trees, live)
      ensures live == old(live) || live == req.Probed(old(live))
      ensures reporting ==> live == req.Probed(old(live))
      ensures s.Done? ==> journal.None? && !locked && code in {0, 2} && (code == 0 <==> reporting)
      ensures reporting ==> Accomplished(prepared, req.Final(), req.pruned) && req.Passes()
      ensures !s.Done? && !reporting ==> locked
      ensures s.Done? && code == 2 ==>
                && !req.Passes() && Apart(old(trees), trees, prepared.id, {})
                && (if prepared.upgrade then Target in trees && trees[Target] == Tree(prepared.backupInventory, live)
                    else Target !in trees)
                && Staging(prepared.id) !in trees && Backup(prepared.id) !in trees && Failed(prepared.id) !in trees
      ensures Apart(old(trees), trees, prepared.id, req.Prunes())
      ensures !prepared.upgrade ==> Clean(trees, req.Probed(map[]))
      ensures Thinned(old(others), others, req.Prunes())
      ensures !disturbed && req.Passes() ==> others == old(others) - req.Prunes()
      ensures old(disturbed) ==> disturbed
      ensures !disturbed ==> s.Done?
    {
      hide Apart, Thinned, SoundDisk;
      code := 0;
      ghost var start, id := trees, prepared.id;
      s, tx := Switch(prepared, trees[Staging(prepared.id)]);
      NothingThinned(others, req.Prunes());
      ghost var switched := trees;
      ApartWiden(start, switched, id, req.Prunes());
      if s.Done? {
        s, code := Decide(req, tx);
        ApartComposes(start, switched, trees, id, req.Prunes());
        if code == 2 && s.Done? {
          ApartComposes(start, switched, trees, id, {});
        }
      }
    }

    predicate Early(tx: Option<Journal>) {
      tx.None? || tx.value.phase in {PreflightPassed, StagingVerified}
    }

    /** The journal as the health check leaves it, for an upgrade of the trees `before`. */
    static function Accepted(id: nat, before: Trees): Journal {
      Journal(id, HealthPassed, Target in before, TreeAt(before, Target).files)
    }

    /** The request has been carried out: the new release is installed with all state, and
        the one in `before`, if there was one, is kept as a backup unless that was pruned. */
    ghost predicate Installs(req: Request, id: nat, before: Trees)
      reads `trees, `journal, `locked, `live
    {
      req.Admitted() && Accomplished(Accepted(id, before), req.Final(), req.pruned) && req.Passes()
    }

    /** The upgrade `id` of the trees `before` has ended before the first rename. */
    ghost predicate StoppedEarly(before: Trees, id: nat, held: bool)
      reads `trees, `journal, `locked
    {
      && trees - {Staging(id)} == before && Bare(trees, Staging(id)) && (journal.Some? || held ==> locked)
      && (journal.Some? ==> journal.value.id == id && Prepared(before, journal.value))
    }

    /** The try block of `apply` as a whole. */
    method TryApply(req: Request, id: nat)
      returns (s: Status, code: int, tx: Option<Journal>, interrupted: bool, held: bool)
      requires SoundDisk(trees, journal, locked, live) && Below(trees, id) && id < nextId
      requires !reporting && (journal.Some? ==> journal.value.id < id)
      modifies this`trees, this`others, this`journal, this`locked, this`live
      modifies this`disturbed, this`effects, this`reporting
      ensures !old(Clear()) ==>
                && trees == old(trees) && journal == old(journal) && live == old(live) && !s.Done? && tx == None
                && (interrupted <==> held && journal.Some?)
                && (held ==> !old(locked)) && (old(locked) || held ==> locked)
                && (!disturbed ==> s.Raised? && held == !old(locked))
      ensures old(Clear()) && journal.None? ==> Idle(trees, live)
      ensures old(Clear()) ==>
                && !interrupted && (live == old(live) || live == req.Probed(old(live)))
                && if s.Raised? && Early(tx) then StoppedEarly(old(trees), id, held) && live == old(live)
                   else
                     && Sound() && Guarded() && (s.Raised? ==> held && (reporting || locked))
      ensures reporting ==> Installs(req, id, old(trees)) && !(s.Raised? && Early(tx))
      ensures reporting ==> live == req.Probed(old(live))
      ensures s.Done? ==> code in {0, 2} && Clear()
      ensures s.Done? ==> (code == 0 <==> reporting)
      ensures s.Done? && code == 2 ==>
                && !req.Passes() && (Target in old(trees) <==> Target in trees)
                && (Target in trees ==> trees[Target] == Tree(old(trees)[Target].files, live))
      ensures Apart(old(trees), trees, id, req.Prunes())
      ensures old(Clear()) && Target !in old(trees) ==> Clean(trees, req.Probed(map[]))
      ensures journal.Some? ==> journal == old(journal) || Journalled(Accepted(id, old(trees)))
      ensures !old(Clear()) ==> others == old(others) && !reporting
      ensures Thinned(old(others), others, req.Prunes())
      ensures !disturbed && reporting ==> others == old(others) - req.Prunes()
      ensures s.Done? && code == 2 ==>
                && Apart(old(trees), trees, id, {})
                && Staging(id) !in trees && Backup(id) !in trees && Failed(id) !in trees
      ensures old(disturbed) ==> disturbed
      ensures !disturbed && old(Clear()) ==> if req.Admitted() then s.Done? else s.Raised?
    {
      code := 0;
      s, tx, interrupted, held := Prepare(req, id);
      NothingThinned(others, req.Prunes());
      OnlyStaged(old(trees), trees, id, req.Prunes());
      if old(Clear()) {
        PreparationKeepsState(old(trees), trees, id, live, nextId);
        IdleIsClean(trees, live, req.Probed(map[]));
      }
      hide Apart, Thinned, Clean, Conserved, BackupKept;
      if s.Done? {
        var last;
        s, code, last := Install(req, tx.value);
        tx := Some(last);
      }
    }

    /** The except block. Before the first rename it may clean up; later it must not. */
    method CleanUp(id: nat, tx: Option<Journal>, interrupted: bool, held: bool) returns (r: Exit)
      modifies this`trees, this`journal, this`locked, this`disturbed
      ensures r == Code(1) || r == Aborted
      ensures var early := Early(tx);
              && (interrupted || !early ==> trees == old(trees) && journal == old(journal))
              && (trees == old(trees) || trees == old(trees) - {Staging(id)})
              && (journal == old(journal) || (journal.None? && trees == old(trees) - {Staging(id)}))
              && (locked == old(locked) || (!locked && held && (interrupted || journal.None?)))
              && (r == Code(1) && !interrupted && early ==> journal.None? && trees == old(trees) - {Staging(id)})
              && (r == Code(1) && held && (interrupted || early) ==> !locked)
      ensures !held || (!interrupted && !Early(tx)) ==> locked == old(locked)
      ensures old(disturbed) ==> disturbed
      ensures !disturbed ==> r == Code(1)
    {
      r := Aborted;
      var s := Audit();
      if s.IsFailure() {
        return;
      }
      if interrupted {
        if held {
          s := ReleaseLock();
          if s.IsFailure() {
            return;
          }
        }
      } else if Early(tx) {
        s := RemoveTree(Staging(id));
        if s.IsFailure() {
          return;
        }
        if journal.Some? {
          s := UnlinkJournal();
          if s.IsFailure() {
            return;
          }
        }
        if held {
          s := ReleaseLock();
          if s.IsFailure() {
            return;
          }
        }
      }
      s := Step();
      r := if s.Done? then Code(1) else Aborted;
    }

    /** How an error ends: `clear` if there was no unfinished upgrade to begin with. */
    method HandleError(id: nat, tx: Option<Journal>, interrupted: bool, held: bool, ghost clear: bool,
                       ghost before: Trees, ghost gone: set<Name>, ghost state: State)
      returns (r: Exit)
      requires Below(before, id) && id < nextId && Apart(before, trees, id, gone)
      requires !(clear && Early(tx)) ==> Below(trees, nextId) && (journal.Some? ==> journal.value.id < nextId)
      requires clear ==> !interrupted && if Early(tx) then Idle(before, live) && StoppedEarly(before, id, held)
                                         else Sound() && Guarded() && (journal.None? ==> Idle(trees, live))
      requires !clear ==> trees == before && tx == None && Sound() && Conserved(trees, live) && (held ==> interrupted)
      requires !clear && interrupted ==> held
      modifies this`trees, this`journal, this`locked, this`disturbed
      ensures r == Code(1) || r == Aborted
      ensures clear || (locked && !held) ==> Sound() && Guarded()
      ensures clear && journal.None? ==> Idle(trees, live)
      ensures trees == old(trees) || trees == old(trees) - {Staging(id)}
      ensures Clean(old(trees), state) ==> Clean(trees, state)
      ensures journal == old(journal) || journal == None
      ensures !Early(tx) ==> trees == old(trees) && journal == old(journal) && locked == old(locked)
      ensures Apart(before, trees, id, gone) && (old(Elsewhere()) ==> Elsewhere())
      ensures !clear ==> trees == before && (journal == old(journal) || !held) && (old(locked) && !held ==> locked)
      ensures clear && Early(tx) && r == Code(1) ==> trees == before && journal.None?
      ensures old(disturbed) ==> disturbed
      ensures !disturbed ==> r == Code(1) && (!clear && !held ==> journal == None)
    {
      FreshNames(before, id);
      ApartRemove(before, trees, id, gone, Staging(id));
      if old(Elsewhere()) {
        FewerStayDistinct(trees, others, journal, nextId, Staging(id));
      }
      hide Apart, InFlight, Initial, Conserved, Idle, Below, Bare, Quiet, Distinct;
      if clear && Early(tx) {
        PreparationKeepsState(before, trees, id, live, nextId);
        PreparationKeepsState(before, before, id, live, nextId);
      }
      r := CleanUp(id, tx, interrupted, held);
    }

    method Apply(req: Request) returns (r: Exit)
      requires Sound()
      modifies this
      ensures nextId == old(nextId) + 1
      ensures old(Guarded()) ==> Sound() && Guarded()
      ensures r == Code(0) ==> reporting && Installs(req, old(nextId), old(trees))
      // The health check failed, and what was installed before is back.
      ensures r == Code(2) ==>
                && (Target in old(trees) <==> Target in trees)
                && (Target in trees ==> trees[Target] == Tree(old(trees)[Target].files, live))
                && journal.None? && !locked && !req.Passes()
                && trees - {Target} == old(trees) - {Target}
      // An error that needs no recovery has changed no tree, unless only the report failed.
      ensures r == Code(1) && journal.None? && !locked && old(journal).None? ==>
                if reporting then Installs(req, old(nextId), old(trees)) else trees == old(trees) && live == old(live)
      // Trees of other upgrades are left alone, but for the backups to be pruned.
      ensures Apart(old(trees), trees, old(nextId), req.Prunes())
      ensures Thinned(old(others), others, req.Prunes())
      ensures !disturbed && reporting ==> others == old(others) - req.Prunes()
      ensures old(Elsewhere()) ==> Elsewhere()
      // While the journal is there it is this upgrade's, and without it the target has all state.
      ensures old(Clear()) && journal.Some? ==> Journalled(Accepted(old(nextId), old(trees)))
      ensures old(Clear()) && journal.None? ==> Idle(trees, live)
      ensures old(Clear()) && Target !in old(trees) ==> Clean(trees, req.Probed(map[]))
      ensures r.Aborted? || r.n in {0, 1, 2}
      ensures live == old(live) || live == req.Probed(old(live))
      ensures reporting ==> live == req.Probed(old(live))
      ensures !disturbed && old(journal).None? && !old(locked) ==>
                r == Code(if !req.Admitted() then 1 else if req.Passes() then 0 else 2)
      // Over an unfinished upgrade it moves no tree; yet with the lock still there, as
      // every interruption leaves it, it deletes the journal that `recover` needs.
      ensures old(journal).Some? || old(locked) ==>
                && trees == old(trees) && others == old(others) && live == old(live) && (r == Code(1) || r == Aborted)
                && (journal == old(journal) || journal.None?) && (old(locked) ==> locked) && !reporting
      ensures !disturbed && old(journal).Some? ==> (journal == old(journal) <==> !old(locked))
    {
      hide Apart, Accomplished, SoundDisk, Distinct, Thinned, Conserved, Idle, Below, Bare, Prepared, Clean;
      disturbed, reporting := false, false;
      var id := nextId;
      FreshNames(trees, id);
      SoundCases(trees, journal, locked, live);
      nextId := nextId + 1;
      var s, code, tx, interrupted, held := TryApply(req, id);
      if old(Elsewhere()) {
        StaysDistinct(old(trees), old(others), old(journal), id, id, trees, others, journal, nextId,
                      req.Prunes(), req.Prunes());
      }
      match s
      case Done =>
        if code == 2 {
          ApartFromTarget(old(trees), trees, id);
        }
        r := Code(code);
      case Crashed =>
        r := Aborted;
      case Raised =>
        r := HandleError(id, tx, interrupted, held, old(Clear()), old(trees), req.Prunes(), req.Probed(map[]));
    }

    // -------- Recover --------

    /** All state back to the backup, and the target, if there is one, out of the way. */
    method ClearTarget(j: Journal) returns (s: Status)
      requires ParkedIn(j, Holder(trees, j))
      modifies this`trees, this`disturbed, this`effects
      ensures ParkedIn(j, Holder(trees, j))
      ensures var was := Holder(old(trees), j);
              Holder(trees, j) == was || (was == Target && Holder(trees, j) == Failed(j.id))
      ensures Remaining(trees, j) + effects == Remaining(old(trees), j) + old(effects)
      ensures s.Done? ==>
                Target !in trees && trees[Holder(trees, j)].mutables == map[] && trees[Backup(j.id)].mutables == live
      ensures Apart(old(trees), trees, j.id, {})
      ensures old(disturbed) ==> disturbed
      ensures !disturbed ==> s.Done?
    {
      if Target in trees {
        :- TakeBack(j, Target);
        if Failed(j.id) in trees {
          return Raised;
        }
        SettingFailedAside(trees, j, live, nextId);
        s := RenamePath(Target, Failed(j.id));
      } else if Failed(j.id) in trees {
        s := TakeBack(j, Failed(j.id));
      } else if Staging(j.id) in trees {
        s := TakeBack(j, Staging(j.id));
      }
    }

    /** The old release goes back in place of the target; each directory moved and each
        rename leaves exactly one step less to do. */
    method BringBack(j: Journal) returns (s: Status)
      requires Sound() && journal == Some(j) && j.upgrade && ParkedIn(j, Holder(trees, j))
      requires Parked(trees, j, Holder(trees, j), live) && InFlight(trees, j, live)
      modifies this`trees, this`disturbed, this`effects
      ensures Sound()
      ensures Remaining(trees, j) + effects == Remaining(old(trees), j) + old(effects)
      ensures Backup(j.id) in trees || Restored(trees, j, live)
      ensures s.Done? ==> Backup(j.id) !in trees
      ensures Apart(old(trees), trees, j.id, {})
      ensures old(disturbed) ==> disturbed
      ensures !disturbed ==> s.Done?
    {
      ghost var before := trees;
      s := ClearTarget(j);
      StillParked(before, trees, j, Holder(before, j), Holder(trees, j), live);
      if !s.Done? {
        return;
      }
      hide Apart, InFlight;
      ghost var cleared := trees;
      s := PutBack(j);
      ApartComposes(before, cleared, trees, j.id, {});
    }

    /** Brings the old release back from the backup. It can be interrupted and run again. */
    method RestoreBackup(j: Journal) returns (s: Status)
      requires Sound() && journal == Some(j) && Backup(j.id) in trees
      modifies this`trees, this`disturbed, this`effects
      ensures Sound()
      ensures Remaining(trees, j) + effects == Remaining(old(trees), j) + old(effects)
      ensures Backup(j.id) in trees || Restored(trees, j, live)
      ensures s.Done? ==> j.upgrade && Restored(trees, j, live) && Failed(j.id) !in trees
      ensures Apart(old(trees), trees, j.id, {})
      ensures old(disturbed) ==> disturbed
      ensures !disturbed ==> s.Done?
    {
      ghost var before := trees;
      assert ParkedIn(j, Holder(trees, j)) && Apart(trees, trees, j.id, {});
      hide Apart;
      :- VerifyInventory(Backup(j.id), j.backupInventory);
      :- BringBack(j);
      ApartRemove(before, trees, j.id, {}, Failed(j.id));
      s := RemoveTree(Failed(j.id));
      RestoredIsInFlight(trees, j, live);
    }

    /** Chooses what to do from the journal and from the trees that exist. */
    method Reconcile(j: Journal) returns (s: Status)
      requires Sound() && journal == Some(j)
      modifies this`trees, this`disturbed, this`effects
      ensures Sound()
      ensures Backup(j.id) in old(trees) ==>
                && Remaining(trees, j) + effects == Remaining(old(trees), j) + old(effects)
                && (Backup(j.id) in trees || Restored(trees, j, live))
      ensures s.Done? ==> if j.upgrade then Restored(trees, j, live) && Failed(j.id) !in trees
                          else Target !in trees && Failed(j.id) !in trees
      ensures s.Done? ==> Recoverable(old(trees), j)
      ensures Apart(old(trees), trees, j.id, {})
      ensures !j.upgrade ==> NothingMore(old(trees), trees)
      ensures old(disturbed) ==> disturbed
      ensures !disturbed ==> if Recoverable(old(trees), j) then s.Done? else s.Raised?
      ensures !disturbed && !s.Done? ==> trees == old(trees)
    {
      if Backup(j.id) in trees {
        s := RestoreBackup(j);
      } else if Target in trees && !j.upgrade {
        StepsKeepBounds(trees, Target, Failed(j.id), {}, j, nextId);
        :- RenamePath(Target, Failed(j.id));
        s := RemoveTree(Failed(j.id));
      } else if Target in trees && j.phase in {PreflightPassed, StagingVerified} {
        s := VerifyInventory(Target, j.backupInventory);
      } else if Target in trees && Staging(j.id) in trees && j.phase == BackupCreated {
        s := VerifyInventory(Target, j.backupInventory);
      } else if Target in trees && j.phase == HealthFailedRollbackVerified {
        :- VerifyInventory(Target, j.backupInventory);
        s := RemoveTree(Failed(j.id));
      } else {
        s := Raised;
      }
    }

    /** Staging, journal and lock go last, in this order. */
    method Settle(j: Journal) returns (s: Status)
      requires Sound() && journal == Some(j) && Failed(j.id) !in trees
      requires if j.upgrade then Restored(trees, j, live) else Target !in trees
      modifies this`trees, this`journal, this`locked, this`disturbed
      ensures Sound() && (old(Guarded()) ==> Guarded())
      ensures TreeAt(trees, Target) == TreeAt(old(trees), Target) && (Target in trees <==> Target in old(trees))
      ensures Backup(j.id) !in trees && Failed(j.id) !in trees
      ensures s.Done? ==> Clear() && Staging(j.id) !in trees
      ensures if journal.Some? then journal == Some(j) && locked == old(locked) else Idle(trees, live)
      ensures locked ==> old(locked)
      ensures Apart(old(trees), trees, j.id, {})
      ensures !j.upgrade ==> NothingMore(old(trees), trees)
      ensures old(disturbed) ==> disturbed
      ensures !disturbed ==> s.Done?
    {
      s := Done;
      :- RemoveTree(Staging(j.id));
      if j.upgrade {
        RestoredIsInFlight(trees, j, live);
      }
      :- Audit();
      :- UnlinkJournal();
      OneHolderConserves(trees, Target, live);
      s := ReleaseLock();
    }

    method TryRecover(j: Journal) returns (s: Status)
      requires Sound() && journal == Some(j)
      modifies this`trees, this`journal, this`locked, this`disturbed, this`effects, this`reporting
      ensures Sound() && (old(Guarded()) ==> Guarded())
      ensures Backup(j.id) in old(trees) ==>
                && Remaining(trees, j) + effects == Remaining(old(trees), j) + old(effects)
                && (Backup(j.id) in trees || (Target in trees && trees[Target] == Tree(j.backupInventory, live)))
      ensures Backup(j.id) in trees ==> journal == Some(j) && !s.Done?
      ensures if journal.Some? then journal == Some(j) && locked == old(locked) else Idle(trees, live)
      ensures locked ==> old(locked)
      ensures s.Done? ==> Clear() && Recoverable(old(trees), j)
      ensures s.Done? ==> Staging(j.id) !in trees && Backup(j.id) !in trees && Failed(j.id) !in trees
      ensures s.Done? ==> if j.upgrade then Target in trees && trees[Target] == Tree(j.backupInventory, live)
                          else Target !in trees
      ensures Apart(old(trees), trees, j.id, {})
      ensures !j.upgrade ==> NothingMore(old(trees), trees)
      ensures old(disturbed) ==> disturbed
      ensures !disturbed ==> if Recoverable(old(trees), j) then s.Done? else s.Raised?
      ensures !disturbed && !s.Done? ==> trees == old(trees) && journal == old(journal) && locked == old(locked)
    {
      s := Done;
      :- Step();
      :- Reconcile(j);
      :- Settle(j);
      s := Report();
    }

    method Recover() returns (r: Exit)
      requires Sound()
      modifies this`trees, this`journal, this`locked, this`disturbed, this`effects, this`reporting
      ensures Sound() && (old(Guarded()) ==> Guarded())
      ensures r.Aborted? || r.n in {0, 1}
      ensures old(journal).None? ==> r == Code(1) && trees == old(trees) && journal.None? && locked == old(locked)
      // Success always means the old release, complete and with all its state; an initial
      // install is taken away. Nothing of the upgrade is left.
      ensures r == Code(0) ==> old(journal).Some? && Clear()
      ensures old(journal).Some? && Backup(old(journal).value.id) in trees ==> journal == old(journal) && r != Code(0)
      ensures r == Code(0) ==> var j := old(journal).value;
                && Staging(j.id) !in trees && Backup(j.id) !in trees && Failed(j.id) !in trees
                && if j.upgrade then Target in trees && trees[Target] == Tree(j.backupInventory, live)
                   else Target !in trees
      ensures old(Elsewhere()) ==> Elsewhere()
      ensures locked ==> old(locked)
      ensures old(journal).Some? ==>
                if journal.Some? then journal == old(journal) && locked == old(locked) else Idle(trees, live)
      ensures old(journal).Some? && !old(journal).value.upgrade ==> NothingMore(old(trees), trees)
      // Trees of other upgrades are left alone.
      ensures old(journal).Some? ==> Apart(old(trees), trees, old(journal).value.id, {})
      // With a backup it may be interrupted and run again, however often.
      ensures old(journal).Some? ==> var j := old(journal).value;
                Backup(j.id) in old(trees) ==>
                  && Remaining(trees, j) + effects == Remaining(old(trees), j) + old(effects)
                  && (Backup(j.id) in trees || (Target in trees && trees[Target] == Tree(j.backupInventory, live)))
      ensures !disturbed && old(journal).Some? ==> (r == Code(0) <==> Recoverable(old(trees), old(journal).value))
      ensures !disturbed && r != Code(0) ==> trees == old(trees) && journal == old(journal) && locked == old(locked)
    {
      disturbed, reporting := false, false;
      if journal.None? {
        return Code(1);
      }
      hide Apart, Distinct, Clean, Idle, SoundDisk, Remaining, Recoverable;
      var s := TryRecover(journal.value);
      if old(Elsewhere()) {
        StaysDistinct(old(trees), others, old(journal), nextId, old(journal).value.id, trees, others, journal, nextId,
                      {}, {});
      }
      if s.Raised? {
        s := Audit();
        return if s.Crashed? then Aborted else Code(1);
      }
      r := if s.Done? then Code(0) else Aborted;
    }
  }

  datatype Command = ApplyRelease(req: Request) | RecoverUpgrade

  /** The directory has the content that the probed release of some command wrote. */
  ghost predicate WrittenBy(commands: seq<Command>, dir: string, content: string) {
    exists c | c in commands :: c.ApplyRelease? && c.req.Writes(dir, content)
  }

  ghost predicate DroppedBy(commands: seq<Command>, dir: string) {
    exists c | c in commands :: c.ApplyRelease? && c.req.probe.Some? && dir in c.req.dropped
  }

  /** `after` has all of `before` but what a probed release removed, and differs only where
      one wrote. */
  ghost predicate OnlyProbed(before: State, after: State, commands: seq<Command>) {
    && (forall dir | dir in before :: dir in after || DroppedBy(commands, dir))
    && forall dir | dir in after ::
         (dir in before && after[dir] == before[dir]) || WrittenBy(commands, dir, after[dir])
  }

  lemma ProbingMore(before: State, after: State, commands: seq<Command>, c: Command, later: State)
    requires OnlyProbed(before, after, commands)
    requires later == after || (c.ApplyRelease? && later == c.req.Probed(after))
    ensures OnlyProbed(before, later, commands + [c])
  {
    assert c in commands + [c];
    forall dir | dir in before
      ensures dir in later || DroppedBy(commands + [c], dir)
    {
      if DroppedBy(commands, dir) {
        var d :| d in commands && d.ApplyRelease? && d.req.probe.Some? && dir in d.req.dropped;
        assert d in commands + [c];
      }
    }
    forall dir | dir in later
      ensures (dir in before && later[dir] == before[dir]) || WrittenBy(commands + [c], dir, later[dir])
    {
      if dir in after && later[dir] == after[dir] && WrittenBy(commands, dir, after[dir]) {
        var d :| d in commands && d.ApplyRelease? && d.req.Writes(dir, after[dir]);
        assert d in commands + [c];
      }
    }
  }

  /** Any number of applies and recovers, each ending anywhere: the mutable directories that
      there were, but those that a probed release removed, are all in exactly one tree, and
      their contents are what they were or what a probed release wrote. */
  method Operate(host: Host, commands: seq<Command>)
    requires host.Sound() && host.Guarded()
    modifies host
    ensures host.Sound() && host.Guarded() && Conserved(host.trees, host.live)
    ensures OnlyProbed(old(host.live), host.live, commands)
  {
    SoundConserves(host.trees, host.journal, host.locked, host.live);
    for i := 0 to |commands|
      invariant host.Sound() && host.Guarded() && Conserved(host.trees, host.live)
      invariant OnlyProbed(old(host.live), host.live, commands[..i])
    {
      ghost var live := host.live;
      match commands[i] {
        case ApplyRelease(req) => var _ := host.Apply(req);
        case RecoverUpgrade => var _ := host.Recover();
      }
      SoundConserves(host.trees, host.journal, host.locked, host.live);
      ProbingMore(old(host.live), live, commands[..i], commands[i], host.live);
      assert commands[..i + 1] == commands[..i] + [commands[i]];
    }
    assert commands[..|commands|] == commands;
  }

  /** An interrupted upgrade whose backup exists: however many recovers are interrupted,
      they do no more in all than there was to do at the start, and the old release is back
      as soon as the backup is gone. */
  method RecoverRepeatedly(host: Host, j: Journal, attempts: nat) returns (r: Exit)
    requires host.Sound() && host.Guarded()
    requires host.journal == Some(j) && Backup(j.id) in host.trees
    modifies host
    ensures host.Sound() && host.live == old(host.live)
    ensures Remaining(host.trees, j) + host.effects == Remaining(old(host.trees), j) + old(host.effects)
    ensures || Backup(j.id) in host.trees
            || (Target in host.trees && host.trees[Target] == Tree(j.backupInventory, host.live))
    ensures attempts > 0 && !host.disturbed ==> r == Code(0)
    ensures r == Code(0) ==> host.Clear() && Backup(j.id) !in host.trees
  {
    r := Code(1);
    for i := 0 to attempts
      invariant host.Sound() && host.Guarded() && host.live == old(host.live)
      invariant host.journal == Some(j) && Backup(j.id) in host.trees
      invariant Remaining(host.trees, j) + host.effects == Remaining(old(host.trees), j) + old(host.effects)
      invariant r != Code(0) && (i > 0 ==> host.disturbed)
    {
      r := host.Recover();
      if Backup(j.id) !in host.trees {
        return;
      }
    }
  }
}
