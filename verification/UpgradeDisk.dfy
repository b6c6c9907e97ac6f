/** The directory trees an upgrade moves about, and what must be true of them. */
module UpgradeDisk {
  import opened Faults

  // Path to digest, for every regular file outside the excluded directories.
  type Inventory = map<string, string>

  // Outermost mutable directory (logs, data, disabled-bundles) to what it holds.
  type State = map<string, string>

  datatype Tree = Tree(files: Inventory, mutables: State)

  // The siblings of the target that an upgrade or rollback with a given id uses.
  datatype Name =
    | Target
    | Staging(id: nat)
    | Backup(id: nat)
    | Failed(id: nat)
    | Displaced(id: nat)

  type Trees = map<Name, Tree>

  datatype Phase =
    | PreflightPassed
    | StagingVerified
    | BackupCreated
    | MutableStateTransferred
    | Activated
    | HealthFailedRollbackVerified
    | HealthPassed

  /** `upgrade` is false for an initial install (fromVersion is null). */
  datatype Journal = Journal(id: nat, phase: Phase, upgrade: bool, backupInventory: Inventory)

  const EMPTY := Tree(map[], map[])

  function TreeAt(ts: Trees, n: Name): Tree {
    if n in ts then ts[n] else EMPTY
  }

  function Renamed(ts: Trees, from: Name, to: Name): Trees
    requires from in ts
  {
    (ts - {from})[to := ts[from]]
  }

  /** `into` with the directories `moved` of `from` added. */
  function Given(into: State, from: State, moved: set<string>): State
    requires moved <= from.Keys
  {
    into + (map m | m in moved :: from[m])
  }

  lemma GivenOneMore(into: State, from: State, moved: set<string>, m: string)
    requires moved <= from.Keys && m in from && m !in moved
    ensures Given(Given(into, from, moved), from - moved, {m}) == Given(into, from, moved + {m})
    ensures from - moved - {m} == from - (moved + {m})
  {
  }

  /** `ts` once the mutable directories `moved` have gone from `src` to `dst`. */
  function Shift(ts: Trees, src: Name, dst: Name, moved: set<string>): Trees
    requires src != dst && moved <= TreeAt(ts, src).mutables.Keys
  {
    if moved == {} then ts
    else
      var s, d := TreeAt(ts, src), TreeAt(ts, dst);
      ts[src := s.(mutables := s.mutables - moved)][dst := d.(mutables := Given(d.mutables, s.mutables, moved))]
  }

  lemma ShiftOneMore(ts: Trees, src: Name, dst: Name, moved: set<string>, m: string)
    requires src != dst && src in ts && moved <= ts[src].mutables.Keys
    requires m in ts[src].mutables && m !in moved
    ensures m in TreeAt(Shift(ts, src, dst, moved), src).mutables
    ensures Shift(Shift(ts, src, dst, moved), src, dst, {m}) == Shift(ts, src, dst, moved + {m})
  {
    if moved == {} {
      assert moved + {m} == {m};
    } else {
      GivenOneMore(TreeAt(ts, dst).mutables, ts[src].mutables, moved, m);
    }
  }

  // -------- What is left alone --------

  predicate IsOwn(n: Name, id: nat) {
    n == Target || n == Staging(id) || n == Backup(id) || n == Failed(id)
  }

  function Backups(ids: seq<nat>): set<Name> {
    set id | id in ids :: Backup(id)
  }

  /** Every tree that is not the target and not of upgrade `id` is as it was, except that
      some of `gone` may be missing. */
  ghost predicate Apart(before: Trees, after: Trees, id: nat, gone: set<Name>) {
    forall n | !IsOwn(n, id) ::
      (n in after ==> n in before && after[n] == before[n]) && (n in before && n !in gone ==> n in after)
  }

  /** Trees can only go, and only those in `gone`. */
  ghost predicate Thinned(before: Trees, after: Trees, gone: set<Name>) {
    && (forall n | n in after :: n in before && after[n] == before[n])
    && (forall n | n in before && n !in gone :: n in after)
  }

  lemma NothingThinned(ts: Trees, gone: set<Name>)
    ensures Thinned(ts, ts, gone) && Thinned(ts, ts, {})
  {
  }

  /** Further siblings: neither among `ts` nor of the upgrade in progress. */
  ghost predicate Distinct(ts: Trees, others: Trees, journal: Option<Journal>, bound: nat) {
    && ts.Keys !! others.Keys && Target !in others && Below(others, bound)
    && (journal.Some? ==> forall n | n in others :: !IsOwn(n, journal.value.id))
  }

  lemma StaysDistinct(ts: Trees, others: Trees, journal: Option<Journal>, bound: nat, id: nat,
                      ts': Trees, others': Trees, journal': Option<Journal>, bound': nat,
                      gone: set<Name>, gone': set<Name>)
    requires Distinct(ts, others, journal, bound) && bound <= bound'
    requires id == bound || (journal.Some? && id == journal.value.id)
    requires Apart(ts, ts', id, gone) && Thinned(others, others', gone')
    requires journal'.Some? ==> journal' == journal || journal'.value.id == id
    ensures Distinct(ts', others', journal', bound')
  {
    assert forall n | n in others' :: !IsOwn(n, id);
  }

  lemma FewerStayDistinct(ts: Trees, others: Trees, journal: Option<Journal>, bound: nat, n: Name)
    requires Distinct(ts, others, journal, bound)
    ensures Distinct(ts, others, None, bound)
    ensures Distinct(ts - {n}, others, journal, bound) && Distinct(ts - {n}, others, None, bound)
  {
  }

  /** The replaced release is kept for a rollback, unless it was among the backups pruned. */
  ghost predicate BackupKept(ts: Trees, j: Journal, pruned: set<Name>) {
    && (Backup(j.id) in ts ==> j.upgrade && ts[Backup(j.id)] == Tree(j.backupInventory, map[]))
    && (j.upgrade && Backup(j.id) !in pruned ==> Backup(j.id) in ts)
  }

  lemma ApartShift(ts: Trees, id: nat, from: Name, to: Name, moved: set<string>)
    requires IsOwn(from, id) && IsOwn(to, id) && from != to && moved <= TreeAt(ts, from).mutables.Keys
    ensures Apart(ts, Shift(ts, from, to, moved), id, {})
  {
  }

  lemma ApartRemove(before: Trees, ts: Trees, id: nat, gone: set<Name>, n: Name)
    requires Apart(before, ts, id, gone) && IsOwn(n, id)
    ensures Apart(before, ts - {n}, id, gone)
  {
  }

  lemma ApartFromItself(ts: Trees, id: nat)
    ensures Apart(ts, ts, id, {})
  {
  }

  lemma ApartComposes(a: Trees, b: Trees, c: Trees, id: nat, gone: set<Name>)
    requires Apart(a, b, id, {}) && Apart(b, c, id, gone)
    ensures Apart(a, c, id, gone)
  {
  }

  lemma ApartWiden(a: Trees, b: Trees, id: nat, gone: set<Name>)
    requires Apart(a, b, id, {})
    ensures Apart(a, b, id, gone)
  {
  }

  /** With none of the upgrade's own siblings left, only the target can differ. */
  lemma ApartFromTarget(before: Trees, after: Trees, id: nat)
    requires Apart(before, after, id, {})
    requires forall n | n in {Staging(id), Backup(id), Failed(id)} :: n !in before && n !in after
    ensures after - {Target} == before - {Target}
  {
    forall n | n != Target
      ensures n in after <==> n in before
      ensures n in after ==> after[n] == before[n]
    {
      assert IsOwn(n, id) ==> n in {Staging(id), Backup(id), Failed(id)};
    }
  }

  // -------- What is conserved --------

  ghost predicate Holds(ts: Trees, n: Name, dir: string) {
    n in ts && dir in ts[n].mutables
  }

  /** Every directory of `live` is in exactly one tree, with its latest content. */
  ghost predicate Conserved(ts: Trees, live: State) {
    && (forall dir | dir in live :: exists n :: Holds(ts, n, dir) && ts[n].mutables[dir] == live[dir])
    && (forall dir, a, b | dir in live && Holds(ts, a, dir) && Holds(ts, b, dir) :: a == b)
  }

  /** And no tree holds anything else. */
  ghost predicate Exactly(ts: Trees, live: State) {
    Conserved(ts, live) && forall n, dir | Holds(ts, n, dir) :: dir in live
  }

  ghost predicate Bare(ts: Trees, n: Name) {
    n in ts ==> ts[n].mutables == map[]
  }

  /** Every tree holds `state` or nothing. */
  ghost predicate Clean(ts: Trees, state: State) {
    forall n | n in ts :: ts[n].mutables == map[] || ts[n].mutables == state
  }

  /** Every tree has the state that one had before, or none. */
  ghost predicate NothingMore(before: Trees, after: Trees) {
    forall n | n in after && !Bare(after, n) :: exists m :: m in before && before[m].mutables == after[n].mutables
  }

  lemma IdleIsClean(ts: Trees, live: State, state: State)
    requires Idle(ts, live)
    ensures Clean(ts, live) && (Target !in ts ==> Clean(ts, state))
  {
  }

  /** The target is changed by the probed release. */
  lemma CleanChange(ts: Trees, probed: Tree, state: State, id: nat)
    requires Target in ts
    ensures Apart(ts, ts[Target := probed], id, {})
    ensures Clean(ts, map[]) ==> Clean(ts, state) && ts[Target].mutables == map[]
    ensures Clean(ts, map[]) && probed.mutables == state ==> Clean(ts[Target := probed], state)
  {
  }

  lemma OnlyStaged(before: Trees, after: Trees, id: nat, gone: set<Name>)
    requires after - {Staging(id)} == before
    ensures Apart(before, after, id, gone)
  {
    forall n | n != Staging(id)
      ensures n in after <==> n in before
      ensures n in after ==> after[n] == before[n]
    {
      assert n in after <==> n in after - {Staging(id)};
    }
  }

  /** Two trees between them hold exactly `live`. */
  ghost predicate Split(a: Tree, b: Tree, live: State) {
    && a.mutables.Keys !! b.mutables.Keys
    && a.mutables + b.mutables == live
  }

  /** Only the target and the siblings of upgrade `id` may hold mutable directories. */
  ghost predicate Quiet(ts: Trees, id: nat) {
    forall n | n in ts && n != Target && n != Staging(id) && n != Backup(id) && n != Failed(id) :: Bare(ts, n)
  }

  ghost predicate Below(ts: Trees, bound: nat) {
    forall n | n in ts && n != Target :: n.id < bound
  }

  lemma FreshNames(ts: Trees, id: nat)
    requires Below(ts, id)
    ensures Staging(id) !in ts && Backup(id) !in ts && Failed(id) !in ts && Displaced(id) !in ts
    ensures ts - {Staging(id)} == ts && Below(ts, id + 1)
  {
  }

  // -------- The places an upgrade of an installed release can be found in --------

  /** The old release, complete, is the target. */
  ghost predicate Restored(ts: Trees, j: Journal, live: State) {
    && Target in ts && ts[Target] == Tree(j.backupInventory, live)
    && Backup(j.id) !in ts && Bare(ts, Failed(j.id)) && Bare(ts, Staging(j.id))
  }

  /** The old release is the backup; its mutable directories are there or in `src`. */
  ghost predicate Parked(ts: Trees, j: Journal, src: Name, live: State) {
    && Backup(j.id) in ts && ts[Backup(j.id)].files == j.backupInventory
    && src in ts && src in {Target, Staging(j.id), Failed(j.id)}
    && (Target in ts ==> src == Target)
    && (Staging(j.id) in ts ==> src == Staging(j.id))
    && (Failed(j.id) in ts ==> src == Failed(j.id))
    && Split(ts[src], ts[Backup(j.id)], live)
  }

  /** The old release went back without its mutable directories, which stayed in staging. */
  ghost predicate Stranded(ts: Trees, j: Journal, live: State) {
    && Target in ts && ts[Target] == Tree(j.backupInventory, map[])
    && Staging(j.id) in ts && ts[Staging(j.id)].mutables == live
    && Backup(j.id) !in ts && Failed(j.id) !in ts
  }

  /** The new release is the target and the old one has been pruned. */
  ghost predicate Adopted(ts: Trees, j: Journal, live: State) {
    && Target in ts && ts[Target].mutables == live
    && Backup(j.id) !in ts && Failed(j.id) !in ts && Staging(j.id) !in ts
  }

  ghost predicate InFlight(ts: Trees, j: Journal, live: State) {
    match j.phase
    case PreflightPassed =>
      Restored(ts, j, live) && Failed(j.id) !in ts
    case StagingVerified | BackupCreated =>
      (Restored(ts, j, live) || Parked(ts, j, Staging(j.id), live)) && Failed(j.id) !in ts
    case MutableStateTransferred =>
      || Restored(ts, j, live) || Stranded(ts, j, live) || Parked(ts, j, Staging(j.id), live)
      || Parked(ts, j, Target, live) || Parked(ts, j, Failed(j.id), live)
    case Activated =>
      Restored(ts, j, live) || Parked(ts, j, Target, live) || Parked(ts, j, Failed(j.id), live)
    case HealthFailedRollbackVerified =>
      Restored(ts, j, live)
    case HealthPassed =>
      || Restored(ts, j, live) || Adopted(ts, j, live)
      || Parked(ts, j, Target, live) || Parked(ts, j, Failed(j.id), live)
  }

  lemma RestoredIsInFlight(ts: Trees, j: Journal, live: State)
    requires Restored(ts, j, live)
    requires j.phase in {PreflightPassed, StagingVerified, BackupCreated} ==> Failed(j.id) !in ts
    ensures InFlight(ts, j, live)
  {
  }

  lemma ParkedIsInFlight(ts: Trees, j: Journal, src: Name, live: State)
    requires Parked(ts, j, src, live) && src in {Target, Failed(j.id)}
    requires j.phase in {MutableStateTransferred, Activated, HealthPassed}
    ensures InFlight(ts, j, live)
  {
  }

  /** Where the state may be found in phase `j.phase`, it may be found after a step back. */
  lemma StillParked(ts: Trees, after: Trees, j: Journal, src: Name, dst: Name, live: State)
    requires InFlight(ts, j, live) && Parked(ts, j, src, live)
    requires Parked(after, j, dst, live) && (dst == src || (src == Target && dst == Failed(j.id)))
    ensures InFlight(after, j, live)
  {
  }

  /** An initial install has no old release, and so no state it must keep. */
  ghost predicate Initial(ts: Trees, j: Journal, live: State) {
    && live == map[] && Backup(j.id) !in ts && Bare(ts, Staging(j.id))
    && !(Target in ts && Failed(j.id) in ts)
    && (j.phase in {PreflightPassed, StagingVerified} ==> Target !in ts && Failed(j.id) !in ts)
  }

  /** No upgrade is going on: the target holds all the state there is. */
  ghost predicate Idle(ts: Trees, live: State) {
    && (forall n | n in ts && n != Target :: Bare(ts, n))
    && TreeAt(ts, Target).mutables == live
  }

  /** What holds of the disk whenever no command runs. A lock without a journal blocks
      every further upgrade, so only conservation matters then. */
  ghost predicate SoundDisk(ts: Trees, journal: Option<Journal>, locked: bool, live: State) {
    match journal
    case Some(j) => Quiet(ts, j.id) && (if j.upgrade then InFlight(ts, j, live) else Initial(ts, j, live))
    case None => if locked then Conserved(ts, live) else Idle(ts, live)
  }

  // -------- Every one of those places conserves the state --------

  lemma SplitConserves(ts: Trees, a: Name, b: Name, live: State)
    requires a in ts && b in ts && a != b && Split(ts[a], ts[b], live)
    requires forall n | n in ts && n != a && n != b :: Bare(ts, n)
    ensures Exactly(ts, live)
  {
    forall dir | dir in live
      ensures exists n :: Holds(ts, n, dir) && ts[n].mutables[dir] == live[dir]
    {
      if dir in ts[b].mutables {
        assert Holds(ts, b, dir);
      } else {
        assert Holds(ts, a, dir);
      }
    }
    forall dir, x, y | dir in live && Holds(ts, x, dir) && Holds(ts, y, dir)
      ensures x == y
    {
      assert x in {a, b} && y in {a, b};
    }
  }

  lemma OneHolderConserves(ts: Trees, a: Name, live: State)
    requires TreeAt(ts, a).mutables == live
    requires forall n | n in ts && n != a :: Bare(ts, n)
    ensures Exactly(ts, live)
  {
    forall dir | dir in live
      ensures exists n :: Holds(ts, n, dir) && ts[n].mutables[dir] == live[dir]
    {
      assert Holds(ts, a, dir);
    }
  }

  lemma ParkedConserves(ts: Trees, j: Journal, src: Name, live: State)
    requires Quiet(ts, j.id) && Parked(ts, j, src, live)
    ensures Conserved(ts, live)
  {
    SplitConserves(ts, src, Backup(j.id), live);
  }

  /** However far an upgrade has gone, no mutable directory is lost or doubled. */
  lemma SoundConserves(ts: Trees, journal: Option<Journal>, locked: bool, live: State)
    requires SoundDisk(ts, journal, locked, live)
    ensures Conserved(ts, live)
  {
    match journal
    case None =>
      if !locked {
        OneHolderConserves(ts, Target, live);
      }
    case Some(j) =>
      if j.upgrade {
        if Stranded(ts, j, live) {
          OneHolderConserves(ts, Staging(j.id), live);
        } else if Restored(ts, j, live) || Adopted(ts, j, live) {
          OneHolderConserves(ts, Target, live);
        } else {
          var src :| src in {Target, Staging(j.id), Failed(j.id)} && Parked(ts, j, src, live);
          ParkedConserves(ts, j, src, live);
        }
      }
  }

  /** What a sound disk is without a journal, and how little the lock matters with one. */
  lemma SoundCases(ts: Trees, journal: Option<Journal>, locked: bool, live: State)
    requires SoundDisk(ts, journal, locked, live)
    ensures Conserved(ts, live) && (journal.None? && !locked ==> Idle(ts, live))
    ensures forall l: bool | journal.Some? || l :: SoundDisk(ts, journal, l, live)
    ensures SoundDisk(ts, None, true, live)
  {
    SoundConserves(ts, journal, locked, live);
  }

  /** The tree, beside the backup, that `recover` takes mutable directories back from. */
  function Holder(ts: Trees, j: Journal): Name {
    if Target in ts then Target else if Failed(j.id) in ts then Failed(j.id) else Staging(j.id)
  }

  /** What `recover` still has to do: directories to bring back, then renames. */
  function Remaining(ts: Trees, j: Journal): nat {
    if Backup(j.id) in ts then |TreeAt(ts, Holder(ts, j)).mutables| + (if Target in ts then 2 else 1) else 0
  }

  // -------- Moving directories between the two trees of a split --------

  lemma ShiftKeepsSplit(ts: Trees, src: Name, dst: Name, moved: set<string>, live: State)
    requires src != dst && src in ts && dst in ts && moved <= ts[src].mutables.Keys
    requires Split(ts[src], ts[dst], live)
    ensures var after := Shift(ts, src, dst, moved);
            && Split(after[src], after[dst], live) && Split(after[dst], after[src], live)
            && after[src].files == ts[src].files && after[dst].files == ts[dst].files
            && (moved == ts[src].mutables.Keys ==> after[src].mutables == map[] && after[dst].mutables == live)
  {
    var after := Shift(ts, src, dst, moved);
    assert after[src].mutables + after[dst].mutables == live;
    assert after[dst].mutables + after[src].mutables == live;
  }

  lemma ShiftKeepsParked(ts: Trees, j: Journal, src: Name, moved: set<string>, live: State)
    requires Parked(ts, j, src, live) && moved <= ts[src].mutables.Keys
    ensures var after := Shift(ts, src, Backup(j.id), moved);
            && Parked(after, j, src, live)
            && (moved == ts[src].mutables.Keys ==> after[src].mutables == map[] && after[Backup(j.id)].mutables == live)
  {
    ShiftKeepsSplit(ts, src, Backup(j.id), moved, live);
  }

  lemma ParkedHolder(ts: Trees, j: Journal, src: Name, live: State)
    requires Parked(ts, j, src, live)
    ensures Holder(ts, j) == src
  {
  }

  /** Each directory brought back is one step less to do. */
  lemma ShiftLeavesLess(ts: Trees, j: Journal, moved: set<string>)
    requires Holder(ts, j) in ts && Backup(j.id) in ts && moved <= ts[Holder(ts, j)].mutables.Keys
    ensures Remaining(Shift(ts, Holder(ts, j), Backup(j.id), moved), j) + |moved| == Remaining(ts, j)
  {
    var src := Holder(ts, j);
    var after := Shift(ts, src, Backup(j.id), moved);
    ShiftSource(ts, src, Backup(j.id), moved);
    RemovingCounts(ts[src].mutables, moved);
  }

  lemma ShiftSource(ts: Trees, src: Name, dst: Name, moved: set<string>)
    requires src != dst && src in ts && dst in ts && moved <= ts[src].mutables.Keys
    ensures var after := Shift(ts, src, dst, moved);
            after.Keys == ts.Keys && after[src].mutables == ts[src].mutables - moved
  {
  }

  /** The same tree moves the other way, while the new release is being put in place. */
  lemma ShiftBackKeepsParked(ts: Trees, j: Journal, src: Name, moved: set<string>, live: State)
    requires Parked(ts, j, src, live) && moved <= ts[Backup(j.id)].mutables.Keys
    ensures var after := Shift(ts, Backup(j.id), src, moved);
            && Parked(after, j, src, live) && after[src].files == ts[src].files && after.Keys == ts.Keys
            && (moved == ts[Backup(j.id)].mutables.Keys ==>
                  after[src].mutables == live && after[Backup(j.id)].mutables == map[])
  {
    assert Split(ts[Backup(j.id)], ts[src], live) by {
      assert ts[Backup(j.id)].mutables + ts[src].mutables == live;
    }
    ShiftKeepsSplit(ts, Backup(j.id), src, moved, live);
  }

  lemma RemovingCounts(s: State, moved: set<string>)
    requires moved <= s.Keys
    ensures |s - moved| + |moved| == |s|
  {
    assert (s - moved).Keys == s.Keys - moved;
    assert |s.Keys - moved| == |s.Keys| - |moved|;
  }

  lemma StepsKeepBounds(ts: Trees, from: Name, to: Name, moved: set<string>, j: Journal, bound: nat)
    requires from != to && Below(ts, bound) && Quiet(ts, j.id) && j.id < bound
    requires from in {Target, Staging(j.id), Backup(j.id), Failed(j.id)}
    requires to in {Target, Staging(j.id), Backup(j.id), Failed(j.id)}
    ensures from in ts ==> Below(Renamed(ts, from, to), bound) && Quiet(Renamed(ts, from, to), j.id)
    ensures moved <= TreeAt(ts, from).mutables.Keys ==>
              Below(Shift(ts, from, to, moved), bound) && Quiet(Shift(ts, from, to, moved), j.id)
  {
  }

  /** What every transfer back to the backup keeps, wherever it stops. */
  lemma TakingBack(ts: Trees, j: Journal, src: Name, moved: set<string>, live: State, bound: nat)
    requires Parked(ts, j, src, live) && moved <= ts[src].mutables.Keys
    requires Quiet(ts, j.id) && Below(ts, bound) && j.id < bound
    ensures var after := Shift(ts, src, Backup(j.id), moved);
            && Parked(after, j, src, live) && Quiet(after, j.id) && Below(after, bound) && after.Keys == ts.Keys
            && Remaining(after, j) + |moved| == Remaining(ts, j)
            && (moved == ts[src].mutables.Keys ==> after[src].mutables == map[] && after[Backup(j.id)].mutables == live)
  {
    ParkedHolder(ts, j, src, live);
    ShiftKeepsParked(ts, j, src, moved, live);
    ShiftLeavesLess(ts, j, moved);
    ShiftSource(ts, src, Backup(j.id), moved);
    StepsKeepBounds(ts, src, Backup(j.id), moved, j, bound);
  }

  /** The backup goes back in place of the target. */
  lemma PuttingBack(ts: Trees, j: Journal, src: Name, live: State, bound: nat)
    requires Parked(ts, j, src, live) && Quiet(ts, j.id) && Below(ts, bound) && j.id < bound
    requires src != Target && ts[src].mutables == map[] && ts[Backup(j.id)].mutables == live
    ensures var after := Renamed(ts, Backup(j.id), Target);
            Restored(after, j, live) && Quiet(after, j.id) && Below(after, bound)
            && (Failed(j.id) in after ==> src == Failed(j.id))
  {
  }

  /** The new release, with the state in it, gets out of the way of the old one. */
  lemma SettingFailedAside(ts: Trees, j: Journal, live: State, bound: nat)
    requires Parked(ts, j, Target, live) && Quiet(ts, j.id) && Below(ts, bound) && j.id < bound
    ensures var after := Renamed(ts, Target, Failed(j.id));
            && Parked(after, j, Failed(j.id), live) && Quiet(after, j.id) && Below(after, bound)
            && Holder(after, j) == Failed(j.id) && Remaining(after, j) + 1 == Remaining(ts, j)
  {
  }

  /** The probed release changes its own files and directories: the disk stays sound, with
      what the target has then as the state of an upgrade. */
  lemma ProbingKeepsDisk(ts: Trees, j: Journal, live: State, probed: Tree, bound: nat)
    requires SoundDisk(ts, Some(j), true, live) && Below(ts, bound) && j.phase in {Activated, HealthPassed}
    requires Target in ts && Staging(j.id) !in ts && Failed(j.id) !in ts
    requires j.upgrade ==> Backup(j.id) in ts && ts[Backup(j.id)].mutables == map[] && ts[Target].mutables == live
    requires !j.upgrade ==> Backup(j.id) !in ts
    ensures var after := ts[Target := probed];
            SoundDisk(after, Some(j), true, if j.upgrade then probed.mutables else live) && Below(after, bound)
  {
    if j.upgrade {
      assert Parked(ts[Target := probed], j, Target, probed.mutables);
      ParkedIsInFlight(ts[Target := probed], j, Target, probed.mutables);
    }
  }

  /** What every transfer from the backup to the staged tree keeps, wherever it stops. */
  lemma GivingOut(ts: Trees, j: Journal, dst: Name, moved: set<string>, live: State, bound: nat)
    requires Parked(ts, j, dst, live) && moved <= ts[Backup(j.id)].mutables.Keys
    requires Quiet(ts, j.id) && Below(ts, bound) && j.id < bound
    ensures var after := Shift(ts, Backup(j.id), dst, moved);
            && Parked(after, j, dst, live) && Quiet(after, j.id) && Below(after, bound) && after.Keys == ts.Keys
            && after[dst].files == ts[dst].files
            && (moved == ts[Backup(j.id)].mutables.Keys ==>
                  after[dst].mutables == live && after[Backup(j.id)].mutables == map[])
  {
    ShiftBackKeepsParked(ts, j, dst, moved, live);
    StepsKeepBounds(ts, Backup(j.id), dst, moved, j, bound);
  }

  /** The staged tree, with all state in it, becomes the target; or else the old release
      goes back to the target and leaves its state in staging. */
  lemma Activating(ts: Trees, j: Journal, live: State, bound: nat)
    requires Parked(ts, j, Staging(j.id), live) && ts[Staging(j.id)].mutables == live
    requires ts[Backup(j.id)].mutables == map[] && Quiet(ts, j.id) && Below(ts, bound) && j.id < bound
    ensures var after := Renamed(ts, Staging(j.id), Target);
            && Parked(after, j, Target, live) && Quiet(after, j.id) && Below(after, bound)
            && after[Target] == ts[Staging(j.id)] && after[Backup(j.id)] == ts[Backup(j.id)]
    ensures var after := Renamed(ts, Backup(j.id), Target);
            Stranded(after, j, live) && Quiet(after, j.id) && Below(after, bound)
  {
  }

  /** What the journal says of the trees found when the upgrade started. */
  ghost predicate Prepared(before: Trees, j: Journal) {
    && j.upgrade == (Target in before) && j.backupInventory == TreeAt(before, Target).files
    && j.phase in {PreflightPassed, StagingVerified}
  }

  /** Before the first rename there is only a staging tree more than before. */
  lemma PreparationKeepsState(before: Trees, after: Trees, id: nat, live: State, bound: nat)
    requires after - {Staging(id)} == before && Bare(after, Staging(id))
    requires Below(before, id) && id < bound && Idle(before, live)
    ensures Below(after, bound) && Idle(after, live) && Conserved(after, live)
    ensures Backup(id) !in after && Failed(id) !in after && TreeAt(after, Target) == TreeAt(before, Target)
    ensures forall j: Journal, locked | Prepared(before, j) && j.id == id :: SoundDisk(after, Some(j), locked, live)
  {
    forall n | n in after && n != Staging(id)
      ensures n in before && after[n] == before[n]
    {
      assert n in after - {Staging(id)};
    }
    assert Target in before ==> Target in after;
    OneHolderConserves(after, Target, live);
  }

  /** Once the health check has passed, dropping backups leaves the state where it is. */
  lemma PruningKeepsState(ts: Trees, j: Journal, ids: seq<nat>, live: State, bound: nat)
    requires Below(ts, bound) && Quiet(ts, j.id) && j.phase == HealthPassed
    requires Target in ts && Staging(j.id) !in ts && Failed(j.id) !in ts
    requires if j.upgrade then
               && Parked(ts, j, Target, live) && ts[Backup(j.id)].mutables == map[] && ts[Target].mutables == live
             else Initial(ts, j, live)
    ensures var after := ts - Backups(ids);
            && Target in after && after[Target] == ts[Target]
            && SoundDisk(after, Some(j), true, live) && Below(after, bound)
            && forall n | n in after && n != Target :: Bare(after, n)
  {
    var after := ts - Backups(ids);
    assert Target !in Backups(ids);
    assert Backup(j.id) in after ==> Parked(after, j, Target, live);
    assert j.upgrade && Backup(j.id) !in after ==> Adopted(after, j, live);
  }

  /** The journal and trees from which an undisturbed `recover` succeeds. */
  predicate Recoverable(ts: Trees, j: Journal) {
    || Backup(j.id) in ts
    || (&& Target in ts
        && (|| !j.upgrade
            || j.phase in {PreflightPassed, StagingVerified, HealthFailedRollbackVerified}
            || (j.phase == BackupCreated && Staging(j.id) in ts)))
  }

  /** When `recover` refuses an upgrade, nothing is missing: the old release is already
      back, or it is back and its state waits in staging, or the new release passed its
      health check and holds the state. */
  lemma RefusalHidesNoLoss(ts: Trees, j: Journal, live: State)
    requires j.upgrade && InFlight(ts, j, live)
    ensures Recoverable(ts, j) <==>
            !(|| (j.phase == MutableStateTransferred && Stranded(ts, j, live))
              || (j.phase == HealthPassed && Adopted(ts, j, live))
              || (&& Restored(ts, j, live)
                  && (|| j.phase in {MutableStateTransferred, Activated, HealthPassed}
                      || (j.phase == BackupCreated && Staging(j.id) !in ts))))
  {
  }
}
