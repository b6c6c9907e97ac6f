/** Plugin install and recovery over the bundle and backup directories, under a journal. */
module PluginManager {
  import opened Faults

  // Digests stand for contents, so two artifacts with one digest are equal.
  datatype Artifact = Artifact(symbolicName: string, version: string, content: string) {
    function CanonicalFileName(): string {
      symbolicName + "_" + version + ".bndl"
    }
  }

  // Where an artifact can be under the backup directory: kept by the transaction that
  // replaced it, or under failed/ by one that failed.
  datatype Place = Kept(symbolicName: string, id: nat, fileName: string) | Discarded(id: nat, fileName: string)

  type Bundles = map<string, Artifact>
  type Backups = map<Place, Artifact>

  /** The states of an install; the two of a rollback, which `recover` does not accept, are one. */
  datatype Phase = Staging | BackupCreated | Committed | RollingBack

  datatype Journal = Journal(
    id: nat,
    phase: Phase,
    target: string,
    artifact: Artifact,
    previous: Option<string>,
    backup: Option<Place>,
    saved: Option<Artifact>)        // backupSha256

  /** Every artifact there is, in either directory. */
  ghost predicate Present(bundles: Bundles, backups: Backups, a: Artifact) {
    (exists n :: n in bundles && bundles[n] == a) || (exists p :: p in backups && backups[p] == a)
  }

  /** Whatever was there is still there, except perhaps `lost`. */
  ghost predicate Conserves(b0: Bundles, k0: Backups, b1: Bundles, k1: Backups, lost: set<Artifact>) {
    forall a | Present(b0, k0, a) && a !in lost :: Present(b1, k1, a)
  }

  function Discard(k: Backups, b: Bundles, id: nat, name: string): Backups
    requires name in b
  {
    k[Discarded(id, name) := b[name]]
  }

  /** Every artifact is kept under its own file name. */
  ghost predicate Tidy(b: Bundles, k: Backups) {
    && (forall n | n in b :: b[n].CanonicalFileName() == n)
    && (forall p | p in k :: k[p].CanonicalFileName() == p.fileName)
  }

  /** Nothing but `lost` can be missing, nothing but `found` can be new, and the file names
      stay in order. */
  ghost predicate Evolves(b0: Bundles, k0: Backups, b1: Bundles, k1: Backups, lost: set<Artifact>,
                          found: set<Artifact>) {
    && Conserves(b0, k0, b1, k1, lost) && Conserves(b1, k1, b0, k0, found)
    && (Tidy(b0, k0) ==> Tidy(b1, k1))
  }

  /** Taking a bundle out overwrites what the place had. */
  lemma MovingOut(b: Bundles, k: Backups, name: string, place: Place)
    requires name in b
    ensures var b', k', lost := b - {name}, k[place := b[name]], if place in k then {k[place]} else {};
            && Conserves(b, k, b', k', lost) && Conserves(b', k', b, k, {})
            && (place.fileName == name ==> Evolves(b, k, b', k', lost, {}))
  {
    var b', k' := b - {name}, k[place := b[name]];
    assert place in k' && k'[place] == b[name];
    forall a | Present(b, k, a) && a !in if place in k then {k[place]} else {}
      ensures Present(b', k', a)
    {
      if n :| n in b && b[n] == a {
        assert n != name ==> n in b' && b'[n] == a;
      } else {
        var p :| p in k && k[p] == a;
        assert p in k' && k'[p] == a;
      }
    }
    forall a | Present(b', k', a)
      ensures Present(b, k, a)
    {
      if n :| n in b' && b'[n] == a {
        assert n in b && b[n] == a;
      } else {
        var p :| p in k' && k'[p] == a;
        assert if p == place then name in b && b[name] == a else p in k && k[p] == a;
      }
    }
  }

  /** Putting one back overwrites what had the name. */
  lemma MovingBack(b: Bundles, k: Backups, place: Place, name: string)
    requires place in k
    ensures var b', k', lost := b[name := k[place]], k - {place}, if name in b then {b[name]} else {};
            && Conserves(b, k, b', k', lost) && Conserves(b', k', b, k, {})
            && (place.fileName == name || k[place].CanonicalFileName() == name ==> Evolves(b, k, b', k', lost, {}))
  {
    var b', k' := b[name := k[place]], k - {place};
    assert name in b' && b'[name] == k[place];
    forall a | Present(b, k, a) && a !in if name in b then {b[name]} else {}
      ensures Present(b', k', a)
    {
      if n :| n in b && b[n] == a {
        assert n in b' && b'[n] == a;
      } else {
        var p :| p in k && k[p] == a;
        assert p != place ==> p in k' && k'[p] == a;
      }
    }
    forall a | Present(b', k', a)
      ensures Present(b, k, a)
    {
      if n :| n in b' && b'[n] == a {
        assert if n == name then place in k && k[place] == a else n in b && b[n] == a;
      } else {
        var p :| p in k' && k'[p] == a;
        assert p in k && k[p] == a;
      }
    }
  }

  /** Publishing under a name that is taken overwrites what has it. */
  lemma Publishing(b: Bundles, k: Backups, a: Artifact)
    ensures var name := a.CanonicalFileName();
            Evolves(b, k, b[name := a], k, if name in b then {b[name]} else {}, {a})
  {
    var name := a.CanonicalFileName();
    var b' := b[name := a];
    forall x | Present(b, k, x) && x !in if name in b then {b[name]} else {}
      ensures Present(b', k, x)
    {
      if n :| n in b && b[n] == x {
        assert n in b' && b'[n] == x;
      }
    }
    forall x | Present(b', k, x) && x != a
      ensures Present(b, k, x)
    {
      if n :| n in b' && b'[n] == x {
        assert n in b && b[n] == x;
      }
    }
  }

  lemma NothingChanges(b: Bundles, k: Backups, lost: set<Artifact>, found: set<Artifact>)
    ensures Evolves(b, k, b, k, lost, found)
  {
  }

  lemma EvolvesInSteps(b0: Bundles, k0: Backups, b1: Bundles, k1: Backups, b2: Bundles, k2: Backups,
                       lost: set<Artifact>, found: set<Artifact>, more: set<Artifact>, latest: set<Artifact>)
    requires Evolves(b0, k0, b1, k1, lost, found) && Evolves(b1, k1, b2, k2, more, latest)
    ensures Evolves(b0, k0, b2, k2, lost + more, found + latest)
    ensures more <= lost && latest <= found ==> Evolves(b0, k0, b2, k2, lost, found)
  {
    assert more <= lost ==> lost + more == lost;
    assert latest <= found ==> found + latest == found;
  }

  predicate NoDuplicates(bundles: Bundles) {
    forall n, m | n in bundles && m in bundles && bundles[n].symbolicName == bundles[m].symbolicName :: n == m
  }

  /** The bundle that the artifact replaces. */
  function Current(bundles: Bundles, symbolicName: string): (name: Option<string>)
    requires NoDuplicates(bundles)
    ensures name.Some? ==> name.value in bundles && bundles[name.value].symbolicName == symbolicName
    ensures name.None? ==> forall n | n in bundles :: bundles[n].symbolicName != symbolicName
  {
    if n :| n in bundles && bundles[n].symbolicName == symbolicName then Some(n) else None
  }

  /** What an interrupted install leaves for `recover`: while the replaced plugin is in the
      backup directory, its old name is free or the new plugin has it, and a new plugin
      that is still in place has not been discarded before. */
  ghost predicate JournalSound(journal: Option<Journal>, bundles: Bundles, backups: Backups) {
    journal.Some? && journal.value.phase.BackupCreated? ==>
      var j := journal.value;
      && j.backup.Some? && j.previous.Some? && j.saved.Some?
      && (j.backup.value in backups ==>
            && backups[j.backup.value] == j.saved.value && j.backup.value.Kept?
            && j.backup.value.fileName == j.previous.value
            && (j.previous.value in bundles ==> j.previous.value == j.target)
            && (j.target in bundles ==> Discarded(j.id, j.target) !in backups))
  }

  /** The place for the plugin that an install replaces. */
  function BackupPlace(j: Journal): Place
    requires j.previous.Some?
  {
    Kept(j.artifact.symbolicName, j.id, j.previous.value)
  }

  function SetAsideBundles(j: Journal, b: Bundles): Bundles {
    if j.previous.Some? then b - {j.previous.value} else b
  }

  function SetAsideBackups(j: Journal, b: Bundles, k: Backups): Backups
    requires j.previous.Some? ==> j.previous.value in b
  {
    if j.previous.Some? then k[BackupPlace(j) := b[j.previous.value]] else k
  }

  /** What the new plugin overwrites: a bundle of another symbolic name in its place. */
  function Overwritten(target: string, current: Option<string>, b: Bundles): set<Artifact> {
    if target in b && current != Some(target) then {b[target]} else {}
  }

  /** How far an exchange of the artifact against the current plugin has come. */
  datatype Progress = Untouched | AsideOnly | Exchanged

  ghost predicate Reached(p: Progress, j: Journal, b0: Bundles, k0: Backups, b: Bundles, k: Backups,
                          backup: Option<Place>)
    requires j.previous.Some? ==> j.previous.value in b0
  {
    match p
    case Untouched => b == b0 && k == k0 && (backup.Some? ==> j.previous.Some? && backup.value == BackupPlace(j))
    case AsideOnly => b == SetAsideBundles(j, b0) && k == SetAsideBackups(j, b0, k0)
                      && backup == (if j.previous.Some? then Some(BackupPlace(j)) else None)
    case Exchanged => b == SetAsideBundles(j, b0)[j.target := j.artifact] && k == SetAsideBackups(j, b0, k0)
                      && backup == (if j.previous.Some? then Some(BackupPlace(j)) else None)
  }

  /** Wherever an exchange stops, only the overwritten bundle can be missing, and only the
      artifact can be new. */
  lemma ReachedEvolves(p: Progress, j: Journal, b0: Bundles, k0: Backups, b: Bundles, k: Backups, backup: Option<Place>)
    requires (j.previous.Some? ==> j.previous.value in b0) && j.target == j.artifact.CanonicalFileName()
    requires forall q | q in k0 :: q.id != j.id
    requires Reached(p, j, b0, k0, b, k, backup)
    ensures Evolves(b0, k0, b, k, Overwritten(j.target, j.previous, b0), {j.artifact})
  {
    hide Evolves;
    var b1, k1 := SetAsideBundles(j, b0), SetAsideBackups(j, b0, k0);
    NothingChanges(b0, k0, {}, {});
    NothingChanges(b0, k0, Overwritten(j.target, j.previous, b0), {j.artifact});
    if j.previous.Some? {
      MovingOut(b0, k0, j.previous.value, BackupPlace(j));
    }
    if !p.Untouched? {
      assert Evolves(b0, k0, b1, k1, {}, {});
      var lost := if j.target in b1 then {b1[j.target]} else {};
      NothingChanges(b1, k1, lost, {j.artifact});
      Publishing(b1, k1, j.artifact);
      EvolvesInSteps(b0, k0, b1, k1, b, k, {}, {}, lost, {j.artifact});
      assert {} + lost == Overwritten(j.target, j.previous, b0) && {} + {j.artifact} == {j.artifact};
    }
  }

  /** What a handler of the failure finds: the replaced plugin's old name is free, or the
      new plugin has it; and nothing has been discarded under this transaction. */
  ghost predicate Compensable(id: nat, target: string, backup: Option<Place>, b: Bundles, k: Backups) {
    && (forall q | q in k && q.id == id :: Some(q) == backup && q.Kept?)
    && (backup.Some? ==> backup.value.Kept? && backup.value.id == id)
    && (backup.Some? && backup.value in k && backup.value.fileName in b ==> backup.value.fileName == target)
  }

  lemma ReachedIsCompensable(p: Progress, j: Journal, b0: Bundles, k0: Backups, b: Bundles, k: Backups,
                             backup: Option<Place>)
    requires j.previous.Some? ==> j.previous.value in b0
    requires forall q | q in k0 :: q.id != j.id
    requires Reached(p, j, b0, k0, b, k, backup)
    ensures Compensable(j.id, j.target, backup, b, k)
  {
  }

  /** When an undisturbed `recover` can settle a journal. */
  ghost predicate Recoverable(j: Journal, b: Bundles, k: Backups) {
    match j.phase
    case Staging => true
    case BackupCreated => j.backup.Some? && j.backup.value in k
    case Committed => j.target in b && b[j.target] == j.artifact
    case RollingBack => false
  }

  /** What a successful `recover` has made of the two directories. */
  ghost predicate Recovered(j: Journal, b0: Bundles, k0: Backups, b: Bundles, k: Backups) {
    match j.phase
    case Staging => b == b0 && k == k0
    case BackupCreated =>
      && j.previous.Some? && j.saved.Some? && j.backup.Some?
      && j.backup.value in k0 && k0[j.backup.value] == j.saved.value
      && b == (b0 - {j.target})[j.previous.value := j.saved.value]
      && k == (if j.target in b0 then Discard(k0, b0, j.id, j.target) else k0) - {j.backup.value}
    case Committed => b == b0 && k == k0 && j.target in b && b[j.target] == j.artifact
    case RollingBack => false
  }

  /** Where a recover can have put files, and from where it can have taken them. */
  ghost predicate RecoverMoves(journal: Option<Journal>, b0: Bundles, k0: Backups, b: Bundles, k: Backups) {
    match journal
    case None => b == b0 && k == k0
    case Some(j) =>
      && (forall n | n in b ::
            || (n in b0 && b[n] == b0[n])
            || (j.previous == Some(n) && j.backup.Some? && j.backup.value in k0 && b[n] == k0[j.backup.value]))
      && (forall n | n in b0 && n !in b :: n == j.target)
      && (forall p | p in k ::
            (p in k0 && k[p] == k0[p]) || (p == Discarded(j.id, j.target) && j.target in b0 && k[p] == b0[j.target]))
      && (forall p | p in k0 && Some(p) != j.backup :: p in k)
  }

  lemma DiscardingMoves(j: Journal, b: Bundles, k: Backups)
    requires j.target in b && j.backup != Some(Discarded(j.id, j.target))
    ensures RecoverMoves(Some(j), b, k, b - {j.target}, Discard(k, b, j.id, j.target))
  {
  }

  lemma RestoringMoves(j: Journal, b0: Bundles, k0: Backups, b: Bundles, k: Backups)
    requires RecoverMoves(Some(j), b0, k0, b, k) && j.previous.Some? && j.backup.Some?
    requires j.backup.value in k0 && j.backup.value in k && k[j.backup.value] == k0[j.backup.value]
    ensures RecoverMoves(Some(j), b0, k0, b[j.previous.value := k[j.backup.value]], k - {j.backup.value})
  {
  }

  lemma NothingMoves(journal: Option<Journal>, b: Bundles, k: Backups)
    ensures RecoverMoves(journal, b, k, b, k)
  {
  }

  /** The install was complete and only its report failed, and then the handler did not
      complete either: the previous plugin is in the backup directory. */
  ghost predicate LeftExchanged(j: Journal, b0: Bundles, k0: Backups, b: Bundles, k: Backups)
    requires j.previous.Some? ==> j.previous.value in b0
  {
    var done := SetAsideBundles(j, b0)[j.target := j.artifact];
    && (b == done || b == done - {j.target})
    && (j.previous.Some? ==> BackupPlace(j) in k && k[BackupPlace(j)] == b0[j.previous.value])
  }

  /** What the handler of a failed install makes of the bundles when the journal is gone. */
  ghost predicate Handled(p: Progress, target: string, backup: Option<Place>, b: Bundles, k: Backups,
                          b': Bundles, k': Backups) {
    if backup.Some? && backup.value in k then
      || b' == (b - {target})[backup.value.fileName := k[backup.value]]
      || (p.Exchanged? && (b' == b || b' == b - {target}) && backup.value in k' && k'[backup.value] == k[backup.value])
    else
      b' == b - {target} || (b' == b && !p.AsideOnly?)
  }

  /** What the handler makes of the bundles in any case. */
  ghost predicate CompensatedBundles(target: string, backup: Option<Place>, b: Bundles, k: Backups,
                                     b': Bundles, k': Backups) {
    if backup.Some? && backup.value in k then
      || b' == (b - {target})[backup.value.fileName := k[backup.value]]
      || ((b' == b || b' == b - {target}) && backup.value in k' && k'[backup.value] == k[backup.value])
    else b' == b || b' == b - {target}
  }

  /** And of the backups. */
  ghost predicate CompensatedBackups(id: nat, target: string, backup: Option<Place>, b: Bundles, k: Backups,
                                     b': Bundles, k': Backups) {
    && (target in b && target !in b' ==> Discarded(id, target) in k' && k'[Discarded(id, target)] == b[target])
    && (forall p | p in k' ::
          (p in k && k'[p] == k[p]) || (p == Discarded(id, target) && target in b && k'[p] == b[target]))
    && (forall p | p in k && Some(p) != backup :: p in k')
  }

  ghost predicate Compensated(id: nat, target: string, backup: Option<Place>, b: Bundles, k: Backups,
                              b': Bundles, k': Backups) {
    CompensatedBundles(target, backup, b, k, b', k') && CompensatedBackups(id, target, backup, b, k, b', k')
  }

  /** The plugin that was to be replaced is in place. */
  predicate InPlace(j: Journal, b0: Bundles, b: Bundles) {
    j.previous.Some? && j.previous.value in b0 ==> j.previous.value in b && b[j.previous.value] == b0[j.previous.value]
  }

  /** What an install can leave while its journal still says `staging`. */
  ghost predicate StagingLeft(j: Journal, b0: Bundles, b: Bundles, k: Backups) {
    && (|| b == b0 || b == b0 - {j.target}
        || (j.previous.None? && b == b0[j.target := j.artifact])
        || (j.previous.Some? && (b == b0 - {j.previous.value} || b == b0 - {j.previous.value} - {j.target})))
    && (!InPlace(j, b0, b) ==>
          || (BackupPlace(j) in k && k[BackupPlace(j)] == b0[j.previous.value])
          || (j.previous == Some(j.target)
              && Discarded(j.id, j.target) in k && k[Discarded(j.id, j.target)] == b0[j.target]))
  }

  lemma StagingLeaves(p: Progress, j: Journal, b0: Bundles, k0: Backups, b: Bundles, k: Backups, backup: Option<Place>,
                      b': Bundles, k': Backups)
    requires (j.previous.Some? ==> j.previous.value in b0) && forall q | q in k0 :: q.id != j.id
    requires Reached(p, j, b0, k0, b, k, backup) && (p.Exchanged? ==> j.previous.None?)
    requires Compensated(j.id, j.target, backup, b, k, b', k') || (b' == b && k' == k)
    ensures StagingLeft(j, b0, b', k')
  {
    if backup.Some? && backup.value in k {
      var back := (b - {j.target})[backup.value.fileName := k[backup.value]];
      assert back == if backup.value.fileName == j.target then b0 else b0 - {j.target};
    }
  }

  /** After a successful `recover` of an install that had not committed, the plugin that was
      to be replaced is in place exactly when the journal knew of the backup, or the plugin
      had not been taken away; else it is among the backups. */
  lemma RecoveredPlugin(j: Journal, a: Artifact, b0: Bundles, b: Bundles, k: Backups, b': Bundles, k': Backups)
    requires Faithful(j, a, b0) && Recovered(j, b, k, b', k') && !j.phase.Committed?
    requires j.phase.Staging? ==> StagingLeft(j, b0, b, k)
    ensures InPlace(j, b0, b') <==> j.phase.BackupCreated? || InPlace(j, b0, b)
    ensures !InPlace(j, b0, b') ==> exists p :: p in k' && p.id == j.id && k'[p] == b0[j.previous.value]
  {
    if !InPlace(j, b0, b') {
      if BackupPlace(j) in k && k[BackupPlace(j)] == b0[j.previous.value] {
        assert BackupPlace(j).id == j.id;
      } else {
        assert Discarded(j.id, j.target).id == j.id;
      }
    }
  }

  /** A failed install whose journal is gone leaves the bundles as they were, except perhaps
      for what had the artifact's own file name; or else two things failed at its very end. */
  lemma CompensationRestores(p: Progress, j: Journal, b0: Bundles, k0: Backups, b: Bundles, k: Backups,
                             backup: Option<Place>, b': Bundles, k': Backups)
    requires j.previous.Some? ==> j.previous.value in b0
    requires forall q | q in k0 :: q.id != j.id
    requires Reached(p, j, b0, k0, b, k, backup) && Handled(p, j.target, backup, b, k, b', k')
    ensures b' == b0 || b' == b0 - {j.target} || LeftExchanged(j, b0, k0, b', k')
  {
    if backup.Some? && backup.value in k {
      var back := (b - {j.target})[backup.value.fileName := k[backup.value]];
      assert back == if backup.value.fileName == j.target then b0 else b0 - {j.target};
    }
  }

  /** A journal of this install names the plugin that was there, and its contents. */
  ghost predicate Faithful(j: Journal, a: Artifact, b0: Bundles) {
    && NoDuplicates(b0) && j.artifact == a && j.target == a.CanonicalFileName()
    && j.previous == Current(b0, a.symbolicName)
    && (j.phase.BackupCreated? ==> j.previous.Some? && j.saved == Some(b0[j.previous.value]))
  }

  /** The first journal of an install. */
  function Opening(id: nat, a: Artifact, b: Bundles): Journal
    requires NoDuplicates(b)
  {
    Journal(id, Staging, a.CanonicalFileName(), a, Current(b, a.symbolicName), None, None)
  }

  /** What an install that returned an error can leave without a journal. */
  ghost predicate NotInstalled(a: Artifact, id: nat, b0: Bundles, k0: Backups, b: Bundles, k: Backups) {
    || b == b0
    || b == b0 - {a.CanonicalFileName()}
    || (NoDuplicates(b0) && LeftExchanged(Opening(id, a, b0), b0, k0, b, k))
  }

  /** Where an install can have put a bundle, and which it can have taken away. */
  ghost predicate InstallPuts(a: Artifact, b0: Bundles, b: Bundles) {
    var name := a.CanonicalFileName();
    && (forall n | n in b :: (n in b0 && b[n] == b0[n]) || (n == name && b[n] == a))
    && (forall n | n in b0 && n !in b :: n == name || (NoDuplicates(b0) && Current(b0, a.symbolicName) == Some(n)))
  }

  /** What it can have put into the backup directory: bundles, and the artifact itself. */
  ghost predicate InstallShelves(a: Artifact, id: nat, b0: Bundles, k0: Backups, k: Backups) {
    && (forall p | p in k ::
          || (p in k0 && k[p] == k0[p])
          || (p.id == id && p.fileName in b0 && k[p] == b0[p.fileName])
          || (p.id == id && p.fileName == a.CanonicalFileName() && k[p] == a))
    && (forall p | p in k0 :: p in k)
  }

  ghost predicate InstallMoves(a: Artifact, id: nat, b0: Bundles, k0: Backups, b: Bundles, k: Backups) {
    InstallPuts(a, b0, b) && InstallShelves(a, id, b0, k0, k)
  }

  lemma ExchangeMoves(p: Progress, a: Artifact, id: nat, b0: Bundles, k0: Backups, b: Bundles, k: Backups,
                      backup: Option<Place>)
    requires NoDuplicates(b0) && forall q | q in k0 :: q.id != id
    requires Reached(p, Opening(id, a, b0), b0, k0, b, k, backup)
    ensures InstallMoves(a, id, b0, k0, b, k)
    ensures backup.Some? ==> backup.value.id == id && backup.value.fileName in b0
    ensures backup.Some? && backup.value in k ==> k[backup.value] == b0[backup.value.fileName]
  {
  }

  lemma CompensationPuts(a: Artifact, b0: Bundles, b: Bundles, k: Backups, backup: Option<Place>, b': Bundles,
                         k': Backups)
    requires InstallPuts(a, b0, b) && CompensatedBundles(a.CanonicalFileName(), backup, b, k, b', k')
    requires backup.Some? && backup.value in k ==>
               backup.value.fileName in b0 && k[backup.value] == b0[backup.value.fileName]
    ensures InstallPuts(a, b0, b')
  {
    hide NoDuplicates, Current;
  }

  lemma CompensationShelves(a: Artifact, id: nat, b0: Bundles, k0: Backups, b: Bundles, k: Backups,
                            backup: Option<Place>, b': Bundles, k': Backups)
    requires InstallPuts(a, b0, b) && InstallShelves(a, id, b0, k0, k)
    requires CompensatedBackups(id, a.CanonicalFileName(), backup, b, k, b', k')
    requires (backup.Some? ==> backup.value.id == id) && forall q | q in k0 :: q.id != id
    ensures InstallShelves(a, id, b0, k0, k')
  {
    hide NoDuplicates, Current;
  }

  lemma ReachedMoves(p: Progress, a: Artifact, id: nat, b0: Bundles, k0: Backups, b: Bundles, k: Backups,
                     backup: Option<Place>, b': Bundles, k': Backups)
    requires NoDuplicates(b0) && forall q | q in k0 :: q.id != id
    requires Reached(p, Opening(id, a, b0), b0, k0, b, k, backup)
    requires Compensated(id, a.CanonicalFileName(), backup, b, k, b', k') || (b' == b && k' == k)
    ensures InstallMoves(a, id, b0, k0, b', k')
  {
    ExchangeMoves(p, a, id, b0, k0, b, k, backup);
    hide InstallPuts, InstallShelves, Reached, CompensatedBundles, CompensatedBackups;
    if Compensated(id, a.CanonicalFileName(), backup, b, k, b', k') {
      CompensationPuts(a, b0, b, k, backup, b', k');
      CompensationShelves(a, id, b0, k0, b, k, backup, b', k');
    }
  }

  /** What an install of `a` can overwrite is not of its symbolic name. */
  function Endangered(a: Artifact, b: Bundles): (lost: set<Artifact>)
    ensures forall x | x in lost :: x.symbolicName != a.symbolicName
  {
    if NoDuplicates(b) then Overwritten(a.CanonicalFileName(), Current(b, a.symbolicName), b) else {}
  }

  /** And it does overwrite it: with the name taken, and no copy elsewhere, the bundle that
      had the name is nowhere once the install is complete. */
  lemma InstallOverwrites(id: nat, a: Artifact, b0: Bundles, k0: Backups, b: Bundles, k: Backups, backup: Option<Place>)
    requires NoDuplicates(b0) && forall q | q in k0 :: q.id != id
    requires Reached(Exchanged, Opening(id, a, b0), b0, k0, b, k, backup)
    requires var name := a.CanonicalFileName();
             && name in b0 && b0[name].symbolicName != a.symbolicName
             && (forall n | n in b0 && n != name :: b0[n] != b0[name]) && (forall q | q in k0 :: k0[q] != b0[name])
    ensures Endangered(a, b0) == {b0[a.CanonicalFileName()]} && !Present(b, k, b0[a.CanonicalFileName()])
  {
  }

  // -------- Values for a rollback --------

  /** How far the exchange of the current plugin `cur` against the backup `place` has come:
      `cur` goes to `aside`, the backup to `target`. */
  datatype Swap = Intact | Displaced | Restored

  ghost predicate Swapping(p: Swap, cur: string, aside: Place, place: Place, target: string,
                           b0: Bundles, k0: Backups, b: Bundles, k: Backups)
    requires cur in b0 && place in k0
  {
    match p
    case Intact => b == b0 && k == k0
    case Displaced => b == b0 - {cur} && k == k0[aside := b0[cur]]
    case Restored => b == (b0 - {cur})[target := k0[place]] && k == k0[aside := b0[cur]] - {place}
  }

  /** What a rollback can lose: a bundle of another name in the restored plugin's place, and
      the backup, which the handler overwrites with that bundle. */
  function EndangeredByRollback(cur: string, place: Place, target: string, b: Bundles, k: Backups): set<Artifact>
    requires cur in b && place in k
  {
    if target in b && target != cur then {b[target], k[place]} else {}
  }

  lemma SwappingEvolves(p: Swap, cur: string, aside: Place, place: Place, target: string,
                        b0: Bundles, k0: Backups, b: Bundles, k: Backups)
    requires cur in b0 && place in k0 && aside !in k0 && aside.fileName == cur
    requires target == k0[place].CanonicalFileName()
    requires Swapping(p, cur, aside, place, target, b0, k0, b, k)
    ensures Evolves(b0, k0, b, k, EndangeredByRollback(cur, place, target, b0, k0), {})
  {
    hide Evolves;
    var lost := EndangeredByRollback(cur, place, target, b0, k0);
    NothingChanges(b0, k0, lost, {});
    var b1, k1 := b0 - {cur}, k0[aside := b0[cur]];
    MovingOut(b0, k0, cur, aside);
    NothingChanges(b1, k1, lost, {});
    EvolvesInSteps(b0, k0, b1, k1, b1, k1, {}, {}, lost, {});
    var none: set<Artifact> := {};
    assert none + lost == lost && none + none == none;
    if p.Restored? {
      var taken := if target in b1 then {b1[target]} else {};
      assert place in k1 && k1[place] == k0[place] && taken <= lost;
      MovingBack(b1, k1, place, target);
      EvolvesInSteps(b0, k0, b1, k1, b, k, lost, {}, taken, {});
    }
  }

  /** What the handler's first replace makes of the two directories. */
  function UndoneBundles(target: string, move: bool, b: Bundles): Bundles {
    if move then b - {target} else b
  }

  function UndoneBackups(place: Place, target: string, move: bool, b: Bundles, k: Backups): Backups
    requires move ==> target in b
  {
    if move then k[place := b[target]] else k
  }

  /** It loses at most the backup, to the bundle that had the restored plugin's name. */
  lemma UndoEvolves(p: Swap, cur: string, aside: Place, place: Place, target: string,
                    b0: Bundles, k0: Backups, b: Bundles, k: Backups, restored: bool)
    requires cur in b0 && place in k0 && aside !in k0 && aside.fileName == cur
    requires target == k0[place].CanonicalFileName()
    requires Swapping(p, cur, aside, place, target, b0, k0, b, k) && (restored ==> !p.Intact?)
    ensures var move := restored && target in b;
            Evolves(b0, k0, UndoneBundles(target, move, b), UndoneBackups(place, target, move, b, k),
                    EndangeredByRollback(cur, place, target, b0, k0), {})
  {
    SwappingEvolves(p, cur, aside, place, target, b0, k0, b, k);
    if restored && target in b {
      MovingOut(b, k, target, place);
      if place.fileName == target {
        EvolvesInSteps(b0, k0, b, k, b - {target}, k[place := b[target]],
                       EndangeredByRollback(cur, place, target, b0, k0), {}, if place in k then {k[place]} else {}, {});
      }
    }
  }

  /** Then the current plugin's name is free, and with it back the bundles are as before,
      except for what had the restored plugin's name. */
  lemma UndoRestores(p: Swap, cur: string, aside: Place, place: Place, target: string,
                     b0: Bundles, k0: Backups, b: Bundles, k: Backups, restored: bool)
    requires cur in b0 && place in k0 && aside !in k0
    requires Swapping(p, cur, aside, place, target, b0, k0, b, k)
    requires (restored ==> !p.Intact?) && (!restored ==> !p.Restored?)
    ensures var move := restored && target in b;
            var b1, k1 := UndoneBundles(target, move, b), UndoneBackups(place, target, move, b, k);
            && (aside in k1 <==> !p.Intact?)
            && (forall q | q in k || q in k1 :: q in k0 || q == aside)
            && (p.Intact? ==> b == b1 == b0 && k == k1 == k0)
            && (aside in k1 ==>
                  && cur !in b1
                  && (b1[cur := k1[aside]] == b0 || b1[cur := k1[aside]] == b0 - {target})
                  && (target !in b0 || target == cur ==> b1[cur := k1[aside]] == b0 && k1 - {aside} == k0))
            && (p.Restored? ==>
                  && LeftSwapped(cur, aside, place, target, b0, k0, b, k)
                  && LeftSwapped(cur, aside, place, target, b0, k0, b1, k1))
  {
    var move := restored && target in b;
    var b1 := UndoneBundles(target, move, b);
    if !p.Intact? {
      assert b1 == if move then b0 - {cur} - {target} else b0 - {cur};
      assert target != cur ==> (b0 - {cur} - {target})[cur := b0[cur]] == b0 - {target};
      assert target == cur ==> (b0 - {cur} - {target})[cur := b0[cur]] == b0;
    }
  }

  /** The rollback was complete and only its report failed, and then the handler did not
      complete either: the plugin that was current is in the backup directory. */
  ghost predicate LeftSwapped(cur: string, aside: Place, place: Place, target: string, b0: Bundles, k0: Backups,
                              b: Bundles, k: Backups)
    requires cur in b0 && place in k0
  {
    && (b == (b0 - {cur})[target := k0[place]] || b == b0 - {cur} - {target})
    && aside in k && k[aside] == b0[cur]
  }

  predicate RollbackApproved(symbolicName: string, place: Place, backup: Artifact, current: Artifact,
                             b: Bundles, k: Backups) {
    && place in k && k[place] == backup && backup.symbolicName == symbolicName
    && NoDuplicates(b) && Current(b, symbolicName).Some? && b[Current(b, symbolicName).value] == current
  }

  /** The backup is in place and the plugin that was current is kept. */
  ghost predicate RolledBack(symbolicName: string, place: Place, id: nat, b0: Bundles, k0: Backups, b: Bundles,
                             k: Backups) {
    && NoDuplicates(b0) && Current(b0, symbolicName).Some? && place in k0
    && var cur := Current(b0, symbolicName).value;
       Swapping(Restored, cur, Kept(symbolicName, id, cur), place, k0[place].CanonicalFileName(), b0, k0, b, k)
  }

  /** What a rollback that returned an error can leave without a journal. */
  ghost predicate NotRolledBack(symbolicName: string, place: Place, backup: Artifact, id: nat,
                                b0: Bundles, k0: Backups, b: Bundles, k: Backups) {
    || b == b0
    || b == b0 - {backup.CanonicalFileName()}
    || (&& NoDuplicates(b0) && Current(b0, symbolicName).Some? && place in k0
        && var cur := Current(b0, symbolicName).value;
           LeftSwapped(cur, Kept(symbolicName, id, cur), place, backup.CanonicalFileName(), b0, k0, b, k))
  }

  /** Where a rollback can have put files, and from where it can have taken them. */
  ghost predicate RollBackMoves(symbolicName: string, place: Option<Place>, backup: Artifact, id: nat,
                                b0: Bundles, k0: Backups, b: Bundles, k: Backups) {
    var name := backup.CanonicalFileName();
    && (forall n | n in b :: (n in b0 && b[n] == b0[n]) || (place.Some? && n == name && b[n] == backup))
    && (forall n | n in b0 && n !in b :: n == name || (NoDuplicates(b0) && Current(b0, symbolicName) == Some(n)))
    && (forall p | p in k ::
          || (p in k0 && k[p] == k0[p])
          || (p.id == id && p.fileName in b0 && k[p] == b0[p.fileName])
          || (Some(p) == place && name in b0 && k[p] == b0[name]))
    && (forall p | p in k0 && Some(p) != place :: p in k)
  }

  lemma NothingMoved(symbolicName: string, place: Option<Place>, backup: Artifact, id: nat, b: Bundles, k: Backups)
    ensures RollBackMoves(symbolicName, place, backup, id, b, k, b, k)
  {
  }

  lemma SwappingMoves(p: Swap, symbolicName: string, cur: string, aside: Place, place: Place, backup: Artifact, id: nat,
                      b0: Bundles, k0: Backups, b: Bundles, k: Backups)
    requires cur in b0 && place in k0 && k0[place] == backup && (forall q | q in k0 :: q.id != id)
    requires NoDuplicates(b0) && Current(b0, symbolicName) == Some(cur) && aside == Kept(symbolicName, id, cur)
    requires Swapping(p, cur, aside, place, backup.CanonicalFileName(), b0, k0, b, k)
    ensures RollBackMoves(symbolicName, Some(place), backup, id, b0, k0, b, k)
  {
  }

  /** What the handler moves back was there before. */
  lemma MovedOutMoves(symbolicName: string, place: Place, backup: Artifact, id: nat, b0: Bundles, k0: Backups,
                      b: Bundles, k: Backups, target: string)
    requires RollBackMoves(symbolicName, Some(place), backup, id, b0, k0, b, k) && target == backup.CanonicalFileName()
    requires target in b && place in k0 && k0[place] == backup
    ensures RollBackMoves(symbolicName, Some(place), backup, id, b0, k0, b - {target}, k[place := b[target]])
  {
  }

  lemma MovedBackMoves(symbolicName: string, place: Place, backup: Artifact, id: nat, b0: Bundles, k0: Backups,
                       b: Bundles, k: Backups, aside: Place)
    requires RollBackMoves(symbolicName, Some(place), backup, id, b0, k0, b, k)
    requires aside in k && aside !in k0 && aside != place && aside.fileName in b0 && k[aside] == b0[aside.fileName]
    ensures RollBackMoves(symbolicName, Some(place), backup, id, b0, k0, b[aside.fileName := k[aside]], k - {aside})
  {
  }

  lemma UndoMoves(p: Swap, symbolicName: string, cur: string, aside: Place, place: Place, backup: Artifact, id: nat,
                  b0: Bundles, k0: Backups, b: Bundles, k: Backups, restored: bool)
    requires cur in b0 && place in k0 && k0[place] == backup && (forall q | q in k0 :: q.id != id)
    requires NoDuplicates(b0) && Current(b0, symbolicName) == Some(cur) && aside == Kept(symbolicName, id, cur)
    requires Swapping(p, cur, aside, place, backup.CanonicalFileName(), b0, k0, b, k)
    ensures var target := backup.CanonicalFileName();
            var move := restored && target in b;
            var b1, k1 := UndoneBundles(target, move, b), UndoneBackups(place, target, move, b, k);
            && RollBackMoves(symbolicName, Some(place), backup, id, b0, k0, b1, k1)
            && (aside in k1 ==>
                  RollBackMoves(symbolicName, Some(place), backup, id, b0, k0, b1[cur := k1[aside]], k1 - {aside}))
  {
    var target := backup.CanonicalFileName();
    var move := restored && target in b;
    var b1, k1 := UndoneBundles(target, move, b), UndoneBackups(place, target, move, b, k);
    SwappingMoves(p, symbolicName, cur, aside, place, backup, id, b0, k0, b, k);
    assert aside in k1 ==> k1[aside] == b0[cur];
    hide RollBackMoves, Swapping;
    if move {
      MovedOutMoves(symbolicName, place, backup, id, b0, k0, b, k, target);
    }
    if aside in k1 {
      MovedBackMoves(symbolicName, place, backup, id, b0, k0, b1, k1, aside);
    }
  }

  /** What a rollback can lose at most: the backup, and a bundle of another symbolic name. */
  function RollbackLosses(symbolicName: string, place: Option<Place>, backup: Artifact, current: Artifact,
                          b: Bundles, k: Backups): (lost: set<Artifact>)
    ensures forall x | x in lost :: x == backup || x.symbolicName != backup.symbolicName
  {
    if place.Some? && RollbackApproved(symbolicName, place.value, backup, current, b, k) then
      EndangeredByRollback(Current(b, symbolicName).value, place.value, backup.CanonicalFileName(), b, k)
    else {}
  }

  /** When the second replace fails and a bundle of another name has the restored plugin's
      name, the handler moves that bundle over the backup, which is then nowhere. */
  lemma HandlerLosesBackup(cur: string, aside: Place, place: Place, target: string, b0: Bundles, k0: Backups)
    requires cur in b0 && place in k0 && aside !in k0 && target in b0 && target != cur
    requires forall n | n in b0 :: b0[n] != k0[place]
    requires forall q | q in k0 && q != place :: k0[q] != k0[place]
    ensures var b, k := b0 - {cur}, k0[aside := b0[cur]];
            && Swapping(Displaced, cur, aside, place, target, b0, k0, b, k)
            && Present(b, k, k0[place])
            && !Present(UndoneBundles(target, true, b), UndoneBackups(place, target, true, b, k), k0[place])
  {
    var k := k0[aside := b0[cur]];
    assert place in k && k[place] == k0[place];
  }

  class PluginHost {
    var bundles: Bundles
    var backups: Backups
    var stages: map<nat, Artifact>      // .<name>.staging-<id> in the bundle directory
    var journal: Option<Journal>
    var locked: bool
    var nextId: nat                     // stands for uuid4
    ghost var disturbed: bool

    constructor (bundles: Bundles)
      ensures this.bundles == bundles && backups == map[] && journal.None? && !locked && Sound()
    {
      this.bundles, backups, stages, journal, locked, nextId := bundles, map[], map[], None, false, 0;
      disturbed := false;
    }

    ghost predicate Sound()
      reads this
    {
      && JournalSound(journal, bundles, backups)
      && (forall p | p in backups :: p.id < nextId) && (forall id | id in stages :: id < nextId)
      && (journal.Some? ==> journal.value.id < nextId)
    }

    method Step() returns (s: Status)
      modifies this`disturbed
      ensures disturbed == (old(disturbed) || !s.Done?)
    {
      s := *;
      disturbed := disturbed || !s.Done?;
    }

    /** Creates the lock file and then writes to it; when that fails, the file stays. */
    method AcquireLock() returns (s: Status)
      modifies this`locked, this`disturbed
      ensures old(locked) ==> !s.Done?
      ensures old(locked) || s.Done? ==> locked
      ensures old(disturbed) ==> disturbed
      ensures !disturbed ==> s == if old(locked) then Raised else Done
    {
      s := Done;
      :- Step();
      if locked {
        return Raised;
      }
      locked := true;
      s := Step();
    }

    method WriteJournal(j: Journal) returns (s: Status)
      modifies this`journal, this`disturbed
      ensures journal == (if s.Done? then Some(j) else old(journal))
      ensures disturbed == (old(disturbed) || !s.Done?)
    {
      s := Done;
      :- Step();
      journal := Some(j);
      return Done;
    }

    method UnlinkJournal() returns (s: Status)
      modifies this`journal, this`disturbed
      ensures journal == (if s.Done? then None else old(journal))
      ensures disturbed == (old(disturbed) || !s.Done?)
    {
      s := Done;
      :- Step();
      journal := None;
      return Done;
    }

    /** Copies the artifact next to the bundles; the copy may go wrong unnoticed. */
    method CopyToStage(a: Artifact, id: nat) returns (s: Status)
      modifies this`stages, this`disturbed
      ensures stages - {id} == old(stages) - {id}
      ensures s.Done? ==> id in stages && stages[id] == a
      ensures old(disturbed) ==> disturbed
      ensures !disturbed ==> s.Done?
    {
      s := Done;
      :- Step();
      var intact: bool := *;
      var copy := a;
      if !intact {
        copy := *;
        disturbed := true;
      }
      stages := stages[id := copy];
      :- Step();
      if stages[id] != a {
        return Raised;
      }
      return Done;
    }

    method UnlinkStage(id: nat) returns (s: Status)
      modifies this`stages, this`disturbed
      ensures stages == if s.Done? then old(stages) - {id} else old(stages)
      ensures disturbed == (old(disturbed) || !s.Done?)
    {
      if id !in stages {
        assert stages == stages - {id};
        return Done;
      }
      :- Step();
      stages := stages - {id};
      return Done;
    }

    /** Moves a bundle to a place under the backup directory. */
    method MoveOut(name: string, place: Place) returns (s: Status)
      requires name in bundles
      modifies this`bundles, this`backups, this`disturbed
      ensures if s.Done? then bundles == old(bundles) - {name} && backups == old(backups)[place := old(bundles)[name]]
              else bundles == old(bundles) && backups == old(backups)
      ensures disturbed == (old(disturbed) || !s.Done?)
    {
      s := Done;
      :- Step();
      backups := backups[place := bundles[name]];
      bundles := bundles - {name};
      return Done;
    }

    method MoveBack(place: Place, name: string) returns (s: Status)
      requires place in backups
      modifies this`bundles, this`backups, this`disturbed
      ensures if s.Done? then bundles == old(bundles)[name := old(backups)[place]] && backups == old(backups) - {place}
              else bundles == old(bundles) && backups == old(backups)
      ensures disturbed == (old(disturbed) || !s.Done?)
    {
      s := Done;
      :- Step();
      bundles := bundles[name := backups[place]];
      backups := backups - {place};
      return Done;
    }

    // -------- Install --------

    /** Up to the staged copy: neither directory has changed. `published` is set once the
        journal is about to be written. */
    method Prepare(a: Artifact, approved: bool, id: nat) returns (s: Status, published: Option<string>, held: bool)
      requires id !in stages
      modifies this`journal, this`locked, this`stages, this`disturbed
      ensures stages - {id} == old(stages) && stages.Keys <= old(stages).Keys + {id}
      ensures held ==> !old(locked) && old(journal).None? && locked
      ensures !held ==> (old(locked) ==> locked) && published.None? && !s.Done?
      ensures published.None? ==> journal == old(journal) && stages == old(stages) && !s.Done?
      ensures published.Some? ==> held && published == Some(a.CanonicalFileName())
      ensures published.Some? ==> NoDuplicates(bundles) && approved
      ensures journal == old(journal) || (published.Some? && NoDuplicates(bundles) &&
                journal == Some(Opening(id, a, bundles)))
      ensures s.Done? ==> journal != old(journal) && id in stages && stages[id] == a
      ensures old(disturbed) ==> disturbed
      ensures !disturbed ==>
                s == if old(journal).None? && !old(locked) && approved && NoDuplicates(bundles) then Done else Raised
    {
      published, held := None, false;
      :- Step();
      if journal.Some? {
        s := Raised;
        return;
      }
      :- AcquireLock();
      held := true;
      :- Step();
      if !approved || !NoDuplicates(bundles) {
        s := Raised;
        return;
      }
      published := Some(a.CanonicalFileName());
      :- WriteJournal(Opening(id, a, bundles));
      s := CopyToStage(a, id);
    }

    /** The replaced plugin goes to the backup directory. */
    method SetAside(j: Journal) returns (s: Status, backup: Option<Place>)
      requires journal == Some(j) && (j.previous.Some? ==> j.previous.value in bundles)
      modifies this`bundles, this`backups, this`journal, this`disturbed
      ensures s.Done? ==> Reached(AsideOnly, j, old(bundles), old(backups), bundles, backups, backup)
      ensures s.Done? ==> journal == Some(
                if j.previous.Some? then
                  j.(phase := BackupCreated, backup := backup, saved := Some(old(bundles)[j.previous.value]))
                else j)
      ensures !s.Done? ==>
                && journal == old(journal)
                && (Reached(Untouched, j, old(bundles), old(backups), bundles, backups, backup)
                    || Reached(AsideOnly, j, old(bundles), old(backups), bundles, backups, backup))
      ensures old(disturbed) ==> disturbed
      ensures !disturbed ==> s.Done?
    {
      backup := None;
      if j.previous.None? {
        return Done, None;
      }
      :- Step();
      backup := Some(BackupPlace(j));
      var saved := bundles[j.previous.value];
      :- MoveOut(j.previous.value, backup.value);
      s := WriteJournal(j.(phase := BackupCreated, backup := backup, saved := Some(saved)));
    }

    /** The staged plugin takes its place and the transaction is committed. The last step is
        the report, which can fail when there is no journal any more. */
    method Publish(tx: Journal) returns (s: Status)
      requires journal == Some(tx) && tx.id in stages && stages[tx.id] == tx.artifact
      modifies this`bundles, this`stages, this`journal, this`disturbed
      ensures bundles == old(bundles) || bundles == old(bundles)[tx.target := tx.artifact]
      ensures stages == old(stages) || stages == old(stages) - {tx.id}
      ensures journal == Some(tx) || bundles == old(bundles)[tx.target := tx.artifact]
      ensures s.Done? ==> journal.None? && tx.id !in stages
      ensures journal == Some(tx) || journal == Some(tx.(phase := Committed)) || journal.None?
      ensures old(disturbed) ==> disturbed
      ensures !disturbed ==> s.Done?
    {
      s := Done;
      :- Step();
      bundles := bundles[tx.target := stages[tx.id]];
      stages := stages - {tx.id};
      :- Step();
      if bundles[tx.target] != tx.artifact {
        return Raised;
      }
      :- WriteJournal(tx.(phase := Committed));
      :- Step();
      :- UnlinkJournal();
      s := Step();
    }

    /** From the staged copy to the end of the transaction. */
    method Exchange(j: Journal) returns (s: Status, backup: Option<Place>, ghost p: Progress)
      requires journal == Some(j) && j.phase.Staging? && j.id in stages && stages[j.id] == j.artifact
      requires j.previous.Some? ==> j.previous.value in bundles
      modifies this`bundles, this`backups, this`stages, this`journal, this`disturbed
      ensures Reached(p, j, old(bundles), old(backups), bundles, backups, backup)
      ensures stages == old(stages) || stages == old(stages) - {j.id}
      ensures s.Done? ==> p.Exchanged? && journal.None? && j.id !in stages
      ensures journal.None? ==> p.Exchanged?
      ensures journal.Some? && journal.value.phase.Staging? ==>
                journal == Some(j) && (p.Exchanged? ==> j.previous.None?)
      ensures journal.Some? ==> journal.value.id == j.id && journal.value.target == j.target
      ensures journal.Some? ==> journal.value.previous == j.previous && journal.value.artifact == j.artifact
      ensures journal.Some? && journal.value.phase.BackupCreated? ==>
                && !p.Untouched? && j.previous.Some?
                && journal.value.backup == backup && journal.value.previous == j.previous
                && journal.value.saved == Some(old(bundles)[j.previous.value])
      ensures old(disturbed) ==> disturbed
      ensures !disturbed ==> s.Done?
    {
      s, backup := SetAside(j);
      if !s.Done? {
        p := if bundles == old(bundles) && backups == old(backups) then Untouched else AsideOnly;
        return;
      }
      p := AsideOnly;
      ghost var aside := bundles;
      s := Publish(journal.value);
      p := if bundles == aside[j.target := j.artifact] then Exchanged else AsideOnly;
    }

    /** Sets the published name aside under failed/, and the backup back in place. */
    method Compensate(id: nat, published: Option<string>, backup: Option<Place>) returns (s: Status, verified: bool)
      requires published.None? ==> backup.None?
      requires published.Some? ==> Compensable(id, published.value, backup, bundles, backups)
      modifies this`bundles, this`backups, this`disturbed
      ensures Evolves(old(bundles), old(backups), bundles, backups, {}, {})
      ensures published.Some? && backup.Some? && backup.value in backups ==>
                && backup.value in old(backups) && backups[backup.value] == old(backups)[backup.value]
                && (backup.value.fileName in bundles ==> backup.value.fileName == published.value)
                && (published.value in bundles ==> Discarded(id, published.value) !in backups)
      ensures verified ==> published.Some?
      ensures verified && backup.Some? && backup.value in old(backups) ==>
                && bundles == (old(bundles) - {published.value})[backup.value.fileName := old(backups)[backup.value]]
                && backup.value !in backups
      ensures !verified && backup.Some? && backup.value in old(backups) ==>
                || bundles == (old(bundles) - {published.value})[backup.value.fileName := old(backups)[backup.value]]
                || ((bundles == old(bundles) || bundles == old(bundles) - {published.value}) && backup.value in backups)
      ensures published.Some? && !(backup.Some? && backup.value in old(backups)) ==>
                (bundles == old(bundles) && !verified) || bundles == old(bundles) - {published.value}
      ensures published.None? ==> bundles == old(bundles) && backups == old(backups)
      ensures published.Some? ==> Compensated(id, published.value, backup, old(bundles), old(backups), bundles, backups)
      ensures forall q | q in backups :: q in old(backups) || q.id == id
      ensures old(disturbed) ==> disturbed
      ensures !disturbed ==> s.Done?
    {
      verified := false;
      ghost var b, k := bundles, backups;
      NothingChanges(b, k, {}, {});
      hide Evolves;
      if backup.Some? && backup.value in backups {
        if published.value in bundles {
          MovingOut(bundles, backups, published.value, Discarded(id, published.value));
          :- Step();
          :- MoveOut(published.value, Discarded(id, published.value));
        }
        ghost var b1, k1 := bundles, backups;
        MovingBack(bundles, backups, backup.value, backup.value.fileName);
        :- MoveBack(backup.value, backup.value.fileName);
        EvolvesInSteps(b, k, b1, k1, bundles, backups, {}, {}, {}, {});
        verified := true;
      } else if published.Some? && published.value in bundles {
        MovingOut(bundles, backups, published.value, Discarded(id, published.value));
        :- Step();
        :- MoveOut(published.value, Discarded(id, published.value));
        verified := true;
      }
      return Done, verified;
    }

    /** The journal belongs to this transaction, once the published name is known. */
    ghost predicate Own(id: nat, published: Option<string>, backup: Option<Place>)
      reads `journal, `bundles, `backups
    {
      && JournalSound(journal, bundles, backups)
      && (published.None? ==> backup.None?)
      && (published.Some? ==>
            && Compensable(id, published.value, backup, bundles, backups)
            && (journal.Some? ==> journal.value.id == id && journal.value.target == published.value
                                  && (journal.value.phase.BackupCreated? ==>
                                        && journal.value.backup == backup && backup.Some?
                                        && journal.value.previous == Some(backup.value.fileName))))
    }

    /** The handler of a raised error. */
    method HandleFailure(id: nat, published: Option<string>, backup: Option<Place>) returns (s: Status)
      requires Own(id, published, backup)
      modifies this`bundles, this`backups, this`journal, this`disturbed
      ensures JournalSound(journal, bundles, backups)
      ensures journal == old(journal) || journal.None?
      ensures Evolves(old(bundles), old(backups), bundles, backups, {}, {})
      ensures forall q | q in backups :: q in old(backups) || q.id == id
      ensures published.None? ==> bundles == old(bundles) && backups == old(backups) && (s.Done? ==> journal.None?)
      ensures published.Some? ==> Compensated(id, published.value, backup, old(bundles), old(backups), bundles, backups)
      ensures s.Done? && published.Some? && journal.None? ==>
                if backup.Some? && backup.value in old(backups) then
                  || bundles == (old(bundles) - {published.value})[backup.value.fileName := old(backups)[backup.value]]
                  || (&& old(journal).None? && (bundles == old(bundles) || bundles == old(bundles) - {published.value})
                      && backup.value in backups && backups[backup.value] == old(backups)[backup.value])
                else bundles == old(bundles) - {published.value} || (bundles == old(bundles) && old(journal).None?)
      ensures old(disturbed) ==> disturbed
      ensures !disturbed ==> s.Done?
    {
      var t, verified := Compensate(id, published, backup);
      if t.Crashed? {
        return Crashed;
      }
      :- Step();
      if verified || journal.None? || (backup.None? && (published.None? || published.value !in bundles)) {
        :- UnlinkJournal();
      }
      assert published.Some? && published.value !in old(bundles) ==> old(bundles) - {published.value} == old(bundles);
      return Done;
    }

    /** The finally block: the staged copy is dropped and the lock given back. */
    method CleanUp(id: nat, held: bool) returns (s: Status)
      modifies this`stages, this`locked, this`disturbed
      ensures stages == old(stages) || stages == old(stages) - {id}
      ensures s.Done? ==> id !in stages && locked == (old(locked) && !held)
      ensures locked ==> old(locked)
      ensures disturbed == (old(disturbed) || !s.Done?)
    {
      s := Done;
      :- UnlinkStage(id);
      :- Step();
      if held {
        :- Step();
        locked := false;
      }
      return Done;
    }

    /** The part of an install that a failure handler guards. */
    method Attempt(a: Artifact, approved: bool, id: nat)
      returns (s: Status, published: Option<string>, backup: Option<Place>, held: bool, ghost p: Progress)
      requires JournalSound(journal, bundles, backups)
      requires id !in stages && forall q | q in backups :: q.id != id
      modifies this`bundles, this`backups, this`stages, this`journal, this`locked, this`disturbed
      ensures JournalSound(journal, bundles, backups) && (s.Raised? ==> Own(id, published, backup))
      ensures forall q | q in backups :: q in old(backups) || q.id == id
      ensures published.None? ==>
                bundles == old(bundles) && backups == old(backups) && journal == old(journal) && !s.Done?
      ensures published.Some? ==> held && published == Some(a.CanonicalFileName()) && old(journal).None?
      ensures published.Some? ==> approved && old(NoDuplicates(bundles))
      ensures published.Some? ==>
                Reached(p, Opening(id, a, old(bundles)), old(bundles), old(backups), bundles, backups, backup)
      ensures published.Some? && journal.None? ==> !p.AsideOnly?
      ensures journal.Some? && journal != old(journal) && journal.value.phase.Staging? ==>
                journal == Some(Opening(id, a, old(bundles))) && (p.Exchanged? ==> journal.value.previous.None?)
      ensures s.Done? ==> p.Exchanged? && journal.None? && id !in stages
      ensures journal.Some? && journal != old(journal) ==>
                journal.value.id == id && Faithful(journal.value, a, old(bundles))
      ensures stages - {id} == old(stages) && stages.Keys <= old(stages).Keys + {id}
      ensures held ==> !old(locked) && locked
      ensures !held && old(locked) ==> locked
      ensures old(disturbed) ==> disturbed
      ensures !disturbed ==>
                s == if old(journal).None? && !old(locked) && approved && old(NoDuplicates(bundles)) then Done
                     else Raised
      ensures s.Raised? && !disturbed ==> published.None?
    {
      backup, p := None, Untouched;
      s, published, held := Prepare(a, approved, id);
      if s.Done? {
        s, backup, p := Exchange(journal.value);
      }
      if published.Some? {
        ReachedIsCompensable(p, Opening(id, a, old(bundles)), old(bundles), old(backups), bundles, backups, backup);
      }
    }

    /** The handler, in view of what the install had found and how far it had come. */
    method FailInstall(a: Artifact, id: nat, published: Option<string>, backup: Option<Place>,
                       ghost p: Progress, ghost b0: Bundles, ghost k0: Backups) returns (s: Status)
      requires Own(id, published, backup) && forall q | q in k0 :: q.id != id
      requires published.Some? ==>
                 && published == Some(a.CanonicalFileName()) && NoDuplicates(b0)
                 && Reached(p, Opening(id, a, b0), b0, k0, bundles, backups, backup)
                 && (journal.None? ==> !p.AsideOnly?)
                 && (journal.Some? && journal.value.phase.Staging? ==>
                       journal == Some(Opening(id, a, b0)) && (p.Exchanged? ==> journal.value.previous.None?))
      modifies this`bundles, this`backups, this`journal, this`disturbed
      ensures JournalSound(journal, bundles, backups) && (journal == old(journal) || journal.None?)
      ensures Evolves(old(bundles), old(backups), bundles, backups, {}, {})
      ensures forall q | q in backups :: q in old(backups) || q.id == id
      ensures published.None? ==> bundles == old(bundles) && backups == old(backups) && (s.Done? ==> journal.None?)
      ensures published.Some? && journal.Some? && journal.value.phase.Staging? ==>
                StagingLeft(journal.value, b0, bundles, backups)
      ensures published.Some? ==> InstallMoves(a, id, b0, k0, bundles, backups)
      ensures s.Done? && published.Some? && journal.None? ==> NotInstalled(a, id, b0, k0, bundles, backups)
      ensures old(disturbed) ==> disturbed
      ensures !disturbed ==> s.Done?
    {
      hide Evolves, StagingLeft, Compensated, JournalSound, LeftExchanged, InstallMoves;
      ghost var b, k := bundles, backups;
      s := HandleFailure(id, published, backup);
      if published.Some? {
        ReachedMoves(p, a, id, b0, k0, b, k, backup, bundles, backups);
      }
      if published.Some? && journal.Some? && journal.value.phase.Staging? {
        StagingLeaves(p, Opening(id, a, b0), b0, k0, b, k, backup, bundles, backups);
      }
      if s.Done? && published.Some? && journal.None? {
        CompensationRestores(p, Opening(id, a, b0), b0, k0, b, k, backup, bundles, backups);
      }
    }

    /** An install and its failure handler; `s` is Raised when the handler failed itself. */
    method Guarded(a: Artifact, approved: bool, id: nat) returns (s: Status, e: Exit, held: bool)
      requires JournalSound(journal, bundles, backups)
      requires id !in stages && forall q | q in backups :: q.id != id
      modifies this`bundles, this`backups, this`stages, this`journal, this`locked, this`disturbed
      ensures JournalSound(journal, bundles, backups)
      ensures forall q | q in backups :: q in old(backups) || q.id == id
      ensures stages - {id} == old(stages) && stages.Keys <= old(stages).Keys + {id}
      ensures held ==> !old(locked) && locked
      ensures !held && old(locked) ==> locked
      ensures journal.Some? && journal != old(journal) ==>
                && journal.value.id == id && Faithful(journal.value, a, old(bundles))
                && (journal.value.phase.Staging? ==> StagingLeft(journal.value, old(bundles), bundles, backups))
      ensures InstallMoves(a, id, old(bundles), old(backups), bundles, backups)
      ensures Evolves(old(bundles), old(backups), bundles, backups, Endangered(a, old(bundles)), {a})
      ensures s.Done? ==> e == Code(0) || e == Code(1)
      ensures s.Done? && e == Code(0) ==>
                && old(journal).None? && journal.None? && held && id !in stages
                && approved && old(NoDuplicates(bundles))
                && Reached(Exchanged, Opening(id, a, old(bundles)), old(bundles), old(backups), bundles, backups,
                           if Opening(id, a, old(bundles)).previous.Some?
                           then Some(BackupPlace(Opening(id, a, old(bundles)))) else None)
      ensures s.Done? && e == Code(1) && journal.None? && old(journal).None? ==>
                NotInstalled(a, id, old(bundles), old(backups), bundles, backups)
      ensures s.Done? && e == Code(1) && old(journal).Some? ==>
                journal.None? && bundles == old(bundles) && backups == old(backups)
      ensures old(disturbed) ==> disturbed
      ensures !disturbed ==>
                && s.Done?
                && if old(journal).None? && !old(locked) && approved && old(NoDuplicates(bundles)) then e == Code(0)
                   else e == Code(1) && bundles == old(bundles) && backups == old(backups)
    {
      hide StagingLeft, JournalSound, Faithful, LeftExchanged, Own;
      e := Code(0);
      ghost var p;
      var published, backup;
      s, published, backup, held, p := Attempt(a, approved, id);
      ghost var b, k := bundles, backups;
      assert Evolves(old(bundles), old(backups), b, k, Endangered(a, old(bundles)), {a}) by {
        if published.Some? {
          ReachedEvolves(p, Opening(id, a, old(bundles)), old(bundles), old(backups), b, k, backup);
        } else {
          NothingChanges(b, k, Endangered(a, old(bundles)), {a});
        }
      }
      if published.Some? {
        ReachedMoves(p, a, id, old(bundles), old(backups), b, k, backup, b, k);
      }
      hide Evolves, InstallMoves;
      if published.Some? && journal.Some? && journal.value.phase.Staging? {
        StagingLeaves(p, Opening(id, a, old(bundles)), old(bundles), old(backups), b, k, backup, b, k);
      }
      if s.Raised? {
        s := FailInstall(a, id, published, backup, p, old(bundles), old(backups));
        e := Code(1);
        EvolvesInSteps(old(bundles), old(backups), b, k, bundles, backups, Endangered(a, old(bundles)), {a}, {}, {});
      }
    }

    /** Installs a plugin over the current one of its name. */
    method Install(a: Artifact, approved: bool) returns (e: Exit)
      requires Sound()
      modifies this
      ensures Sound()
      ensures InstallMoves(a, old(nextId), old(bundles), old(backups), bundles, backups)
      ensures nextId == old(nextId) + 1
      ensures Evolves(old(bundles), old(backups), bundles, backups, Endangered(a, old(bundles)), {a})
      ensures e == Code(0) ==>
                && old(journal).None? && journal.None? && !old(locked) && !locked && stages == old(stages)
                && approved && old(NoDuplicates(bundles))
                && var j := Opening(old(nextId), a, old(bundles));
                   bundles == SetAsideBundles(j, old(bundles))[j.target := a]
                   && backups == SetAsideBackups(j, old(bundles), old(backups))
      ensures e == Code(1) && journal.None? && old(journal).None? ==>
                NotInstalled(a, old(nextId), old(bundles), old(backups), bundles, backups)
      ensures journal.Some? && journal != old(journal) ==>
                && journal.value.id == old(nextId) && Faithful(journal.value, a, old(bundles))
                && (journal.value.phase.Staging? ==> StagingLeft(journal.value, old(bundles), bundles, backups))
      ensures e == Code(1) && old(journal).Some? ==> journal.None? && bundles == old(bundles) && backups == old(backups)
      ensures !old(disturbed) && !disturbed ==>
                if old(journal).None? && !old(locked) && approved && old(NoDuplicates(bundles)) then e == Code(0)
                else e == Code(1) && bundles == old(bundles) && backups == old(backups)
    {
      var id := nextId;
      nextId := nextId + 1;
      var s, code, held := Guarded(a, approved, id);
      if s.Crashed? {
        return Aborted;
      }
      e := if s.Done? then code else Aborted;
      var f := CleanUp(id, held);
      if !f.Done? {
        e := Aborted;
      }
    }

    // -------- Recover --------

    /** The three outcomes of `recover`, by the journal's state. */
    method Settle(j: Journal) returns (s: Status)
      requires JournalSound(journal, bundles, backups) && journal == Some(j) && !j.phase.RollingBack?
      modifies this`bundles, this`backups, this`stages, this`disturbed
      ensures JournalSound(journal, bundles, backups)
      ensures Evolves(old(bundles), old(backups), bundles, backups, {}, {})
      ensures forall q | q in backups :: q in old(backups) || q.id == j.id
      ensures stages == old(stages) || stages == old(stages) - {j.id}
      ensures s.Done? ==> j.id !in stages
      ensures RecoverMoves(journal, old(bundles), old(backups), bundles, backups)
      ensures !j.phase.BackupCreated? ==> bundles == old(bundles) && backups == old(backups)
      ensures s.Done? ==> Recovered(j, old(bundles), old(backups), bundles, backups)
      ensures old(disturbed) ==> disturbed
      ensures !disturbed ==> s == if Recoverable(j, old(bundles), old(backups)) then Done else Raised
      ensures !disturbed && !s.Done? ==> bundles == old(bundles) && backups == old(backups)
    {
      NothingChanges(bundles, backups, {}, {});
      NothingMoves(journal, bundles, backups);
      hide Evolves, RecoverMoves;
      match j.phase
      case Staging =>
        s := UnlinkStage(j.id);
      case BackupCreated =>
        if j.backup.value !in backups {
          return Raised;
        }
        ghost var b, k := bundles, backups;
        if j.target in bundles {
          MovingOut(bundles, backups, j.target, Discarded(j.id, j.target));
          DiscardingMoves(j, bundles, backups);
          :- Step();
          :- MoveOut(j.target, Discarded(j.id, j.target));
        }
        ghost var b1, k1 := bundles, backups;
        RestoringMoves(j, b, k, b1, k1);
        MovingBack(bundles, backups, j.backup.value, j.previous.value);
        :- MoveBack(j.backup.value, j.previous.value);
        EvolvesInSteps(b, k, b1, k1, bundles, backups, {}, {}, {}, {});
        if bundles[j.previous.value] != j.saved.value {
          return Raised;
        }
        s := UnlinkStage(j.id);
      case Committed =>
        if j.target !in bundles || bundles[j.target] != j.artifact {
          return Raised;
        }
        s := UnlinkStage(j.id);
    }

    method ReleaseLock(held: bool) returns (s: Status)
      modifies this`locked, this`disturbed
      ensures s.Done? ==> locked == (old(locked) && !held)
      ensures !s.Done? ==> locked == old(locked)
      ensures disturbed == (old(disturbed) || !s.Done?)
    {
      if held {
        :- Step();
        locked := false;
      }
      return Done;
    }

    method TryRecover() returns (s: Status, held: bool)
      requires Sound() && journal.Some?
      modifies this
      ensures Sound() && nextId == old(nextId)
      ensures RecoverMoves(old(journal), old(bundles), old(backups), bundles, backups)
      ensures journal == old(journal) || journal.None?
      ensures Evolves(old(bundles), old(backups), bundles, backups, {}, {})
      ensures stages == old(stages) || stages == old(stages) - {old(journal).value.id}
      ensures held ==> !old(locked) && locked
      ensures !held ==> (old(locked) ==> locked) && bundles == old(bundles) && backups == old(backups)
      ensures s.Done? ==> journal.None? && Recovered(old(journal).value, old(bundles), old(backups), bundles, backups)
                          && held && old(journal).value.id !in stages
      ensures old(disturbed) ==> disturbed
      ensures !disturbed ==>
                s == if !old(locked) && Recoverable(old(journal).value, old(bundles), old(backups)) then Done
                    else Raised
      ensures !disturbed && !s.Done? ==> bundles == old(bundles) && backups == old(backups) && journal == old(journal)
    {
      held := false;
      :- Step();
      var j := journal.value;
      if j.phase.RollingBack? {
        return Raised, false;
      }
      :- AcquireLock();
      held := true;
      :- Step();
      :- Settle(j);
      :- UnlinkJournal();
      s := Step();
    }

    /** Recovers the install that was interrupted. */
    method Recover() returns (e: Exit)
      requires Sound()
      modifies this
      ensures Sound()
      ensures RecoverMoves(old(journal), old(bundles), old(backups), bundles, backups)
      ensures (journal == old(journal) || journal.None?) && nextId == old(nextId)
      ensures Evolves(old(bundles), old(backups), bundles, backups, {}, {})
      ensures e == Code(0) ==>
                && old(journal).Some? && journal.None? && !old(locked) && !locked && old(journal).value.id !in stages
                && Recovered(old(journal).value, old(bundles), old(backups), bundles, backups)
      ensures stages == old(stages) || (old(journal).Some? && stages == old(stages) - {old(journal).value.id})
      ensures old(locked) || old(journal).None? ==> bundles == old(bundles) && backups == old(backups) && e != Code(0)
      ensures !old(disturbed) && !disturbed ==>
                && e == Code(if old(journal).Some? && !old(locked)
                                && Recoverable(old(journal).value, old(bundles), old(backups)) then 0 else 1)
                && (e == Code(1) ==> bundles == old(bundles) && backups == old(backups) && journal == old(journal))
    {
      if journal.None? {
        return Code(1);
      }
      var s, held := TryRecover();
      if s.Crashed? {
        return Aborted;
      }
      e := Code(0);
      if s.Raised? {
        var r := Step();
        if r.Crashed? {
          return Aborted;
        }
        e := if r.Done? then Code(1) else Aborted;
      }
      var f := ReleaseLock(held);
      if !f.Done? {
        e := Aborted;
      }
    }

    // -------- Rollback --------

    /** The try block. `cur` and `restored` are set when the source sets their paths. */
    method SwapPlugins(symbolicName: string, place: Place, backup: Artifact, current: Artifact, id: nat)
      returns (s: Status, cur: Option<string>, restored: Option<string>, held: bool, ghost p: Swap)
      requires place in backups && forall q | q in backups :: q.id != id
      requires JournalSound(journal, bundles, backups)
      modifies this`bundles, this`backups, this`journal, this`locked, this`disturbed
      ensures JournalSound(journal, bundles, backups)
      ensures held ==> !old(locked) && locked && old(journal).None?
      ensures !held ==> (old(locked) ==> locked) && cur.None? && !s.Done?
      ensures cur.None? ==>
                && bundles == old(bundles) && backups == old(backups) && journal == old(journal)
                && restored.None? && !s.Done?
      ensures cur.Some? ==>
                && held && old(NoDuplicates(bundles)) && old(Current(bundles, symbolicName)) == cur
                && old(backups)[place] == backup && backup.symbolicName == symbolicName
                && old(bundles)[cur.value] == current
                && Swapping(p, cur.value, Kept(symbolicName, id, cur.value), place, backup.CanonicalFileName(),
                            old(bundles), old(backups), bundles, backups)
                && (restored.None? ==> !p.Restored?)
                && (restored.Some? ==> restored.value == backup.CanonicalFileName())
                && (restored.Some? ==> !p.Intact?)
                && (journal.None? ==> !p.Displaced?)
      ensures journal.Some? ==> journal == old(journal) || (journal.value.id == id && journal.value.phase.RollingBack?)
      ensures s.Done? ==> cur.Some? && p.Restored? && journal.None?
      ensures old(disturbed) ==> disturbed
      ensures !disturbed ==>
                s == if old(journal).None? && !old(locked)
                        && RollbackApproved(symbolicName, place, backup, current, old(bundles), old(backups))
                     then Done else Raised
      ensures !disturbed && !s.Done? ==> cur.None?
    {
      cur, restored, held, p := None, None, false, Intact;
      :- Step();
      if journal.Some? {
        s := Raised;
        return;
      }
      :- AcquireLock();
      held := true;
      :- Step();
      if !RollbackApproved(symbolicName, place, backup, current, bundles, backups) {
        s := Raised;
        return;
      }
      cur := Current(bundles, symbolicName);
      var aside, target := Kept(symbolicName, id, cur.value), backup.CanonicalFileName();
      var j := Journal(id, RollingBack, target, backup, cur, Some(aside), None);
      :- Step();
      :- WriteJournal(j);
      :- MoveOut(cur.value, aside);
      p := Displaced;
      :- WriteJournal(j);
      restored := Some(target);
      :- MoveBack(place, target);
      p := Restored;
      :- Step();
      if bundles[target] != backup {
        s := Raised;
        return;
      }
      :- Step();
      :- UnlinkJournal();
      s := Step();
    }

    /** The handler puts the restored plugin back where the backup was, and then the current
        one in its place. */
    method Reverse(cur: string, aside: Place, place: Place, target: string, restored: Option<string>,
                   ghost p: Swap, ghost b0: Bundles, ghost k0: Backups, ghost symbolicName: string)
      returns (s: Status, verified: bool)
      requires cur in b0 && place in k0 && aside !in k0 && aside.fileName == cur
      requires target == k0[place].CanonicalFileName()
      requires Swapping(p, cur, aside, place, target, b0, k0, bundles, backups)
      requires (restored.None? ==> !p.Restored?) && (restored.Some? ==> restored.value == target && !p.Intact?)
      requires NoDuplicates(b0) && Current(b0, symbolicName) == Some(cur) && (forall q | q in k0 :: q.id != aside.id)
      requires aside == Kept(symbolicName, aside.id, cur)
      modifies this`bundles, this`backups, this`disturbed
      ensures p.Intact? ==> bundles == b0 && backups == k0 && !verified
      ensures RollBackMoves(symbolicName, Some(place), k0[place], aside.id, b0, k0, bundles, backups)
      ensures Evolves(b0, k0, bundles, backups, EndangeredByRollback(cur, place, target, b0, k0), {})
      ensures forall q | q in backups :: q in k0 || q == aside
      ensures verified ==> bundles == b0 || bundles == b0 - {target}
      ensures verified && (target !in b0 || target == cur) ==> bundles == b0 && backups == k0
      ensures !verified && p.Restored? ==> LeftSwapped(cur, aside, place, target, b0, k0, bundles, backups)
      ensures old(disturbed) ==> disturbed
      ensures !disturbed ==> s.Done? && (verified <==> !p.Intact?)
    {
      hide Evolves, Swapping, EndangeredByRollback, LeftSwapped, RollBackMoves;
      verified := false;
      ghost var b, k, lost := bundles, backups, EndangeredByRollback(cur, place, target, b0, k0);
      SwappingEvolves(p, cur, aside, place, target, b0, k0, b, k);
      UndoEvolves(p, cur, aside, place, target, b0, k0, b, k, restored.Some?);
      SwappingMoves(p, symbolicName, cur, aside, place, k0[place], aside.id, b0, k0, b, k);
      UndoMoves(p, symbolicName, cur, aside, place, k0[place], aside.id, b0, k0, b, k, restored.Some?);
      UndoRestores(p, cur, aside, place, target, b0, k0, b, k, restored.Some?);
      if restored.Some? && restored.value in bundles {
        :- MoveOut(target, place);
      }
      ghost var b1, k1 := bundles, backups;
      if aside in backups {
        MovingBack(bundles, backups, aside, cur);
        EvolvesInSteps(b0, k0, b1, k1, bundles[cur := backups[aside]], backups - {aside}, lost, {}, {}, {});
        :- MoveBack(aside, cur);
        verified := true;
      }
      return Done, verified;
    }

    /** The failure handler of a rollback. */
    method HandleRollbackFailure(cur: string, aside: Place, place: Place, target: string, restored: Option<string>,
                                 ghost p: Swap, ghost b0: Bundles, ghost k0: Backups, ghost symbolicName: string)
      returns (s: Status)
      requires cur in b0 && place in k0 && aside !in k0 && aside.fileName == cur
      requires target == k0[place].CanonicalFileName()
      requires Swapping(p, cur, aside, place, target, b0, k0, bundles, backups)
      requires (restored.None? ==> !p.Restored?) && (restored.Some? ==> restored.value == target && !p.Intact?)
      requires journal.None? ==> !p.Displaced?
      requires NoDuplicates(b0) && Current(b0, symbolicName) == Some(cur) && (forall q | q in k0 :: q.id != aside.id)
      requires aside == Kept(symbolicName, aside.id, cur)
      modifies this`bundles, this`backups, this`journal, this`disturbed
      ensures RollBackMoves(symbolicName, Some(place), k0[place], aside.id, b0, k0, bundles, backups)
      ensures Evolves(b0, k0, bundles, backups, EndangeredByRollback(cur, place, target, b0, k0), {})
      ensures forall q | q in backups :: q in k0 || q == aside
      ensures journal == old(journal) || journal.None?
      ensures s.Done? && journal.None? ==>
                || bundles == b0 || bundles == b0 - {target}
                || LeftSwapped(cur, aside, place, target, b0, k0, bundles, backups)
      ensures old(disturbed) ==> disturbed
    {
      hide Evolves, EndangeredByRollback, LeftSwapped, RollBackMoves;
      var t, verified := Reverse(cur, aside, place, target, restored, p, b0, k0, symbolicName);
      if t.Crashed? {
        return Crashed;
      }
      s := Report(verified);
    }

    /** A rollback and its failure handler; `s` is Raised when the handler failed itself. */
    method GuardedRollBack(symbolicName: string, place: Place, backup: Artifact, current: Artifact, id: nat)
      returns (s: Status, e: Exit, held: bool)
      requires place in backups && JournalSound(journal, bundles, backups) && forall q | q in backups :: q.id != id
      modifies this`bundles, this`backups, this`journal, this`locked, this`disturbed
      ensures JournalSound(journal, bundles, backups)
      ensures forall q | q in backups :: q in old(backups) || q.id == id
      ensures journal.Some? ==> journal == old(journal) || (journal.value.id == id && journal.value.phase.RollingBack?)
      ensures held ==> !old(locked) && locked
      ensures !held && old(locked) ==> locked
      ensures RollBackMoves(symbolicName, Some(place), backup, id, old(bundles), old(backups), bundles, backups)
      ensures Evolves(old(bundles), old(backups), bundles, backups,
                      RollbackLosses(symbolicName, Some(place), backup, current, old(bundles), old(backups)), {})
      ensures s.Done? ==> e == Code(0) || e == Code(1)
      ensures s.Done? && e == Code(0) ==>
                && old(journal).None? && journal.None? && held
                && RollbackApproved(symbolicName, place, backup, current, old(bundles), old(backups))
                && RolledBack(symbolicName, place, id, old(bundles), old(backups), bundles, backups)
      ensures s.Done? && e == Code(1) && old(journal).Some? ==>
                journal == old(journal) && bundles == old(bundles) && backups == old(backups)
      ensures s.Done? && e == Code(1) && journal.None? ==>
                NotRolledBack(symbolicName, place, backup, id, old(bundles), old(backups), bundles, backups)
      ensures old(disturbed) ==> disturbed
      ensures !disturbed ==>
                && s.Done?
                && if old(journal).None? && !old(locked)
                      && RollbackApproved(symbolicName, place, backup, current, old(bundles), old(backups))
                   then e == Code(0)
                   else e == Code(1) && bundles == old(bundles) && backups == old(backups) && journal == old(journal)
    {
      e := Code(0);
      ghost var b0, k0 := bundles, backups;
      ghost var lost := RollbackLosses(symbolicName, Some(place), backup, current, b0, k0);
      var target := backup.CanonicalFileName();
      var cur, restored;
      ghost var p;
      s, cur, restored, held, p := SwapPlugins(symbolicName, place, backup, current, id);
      NothingChanges(b0, k0, lost, {});
      if cur.Some? {
        SwappingMoves(p, symbolicName, cur.value, Kept(symbolicName, id, cur.value), place, backup, id, b0, k0,
                      bundles, backups);
        SwappingEvolves(p, cur.value, Kept(symbolicName, id, cur.value), place, target, b0, k0, bundles, backups);
      }
      hide Evolves, LeftSwapped, RollBackMoves;
      if s.Raised? {
        e := Code(1);
        if cur.Some? {
          s := HandleRollbackFailure(cur.value, Kept(symbolicName, id, cur.value), place, target, restored, p, b0, k0,
                                     symbolicName);
        } else {
          s := Report(false);
        }
      }
    }

    /** Back to a backup that the caller approved, together with the plugin it replaces. */
    method RollBack(symbolicName: string, place: Option<Place>, backup: Artifact, current: Artifact) returns (e: Exit)
      requires Sound()
      requires place.Some? ==> place.value in backups && place.value.Kept? && place.value.symbolicName == symbolicName
      modifies this
      ensures Sound() && stages == old(stages)
      ensures RollBackMoves(symbolicName, place, backup, old(nextId), old(bundles), old(backups), bundles, backups)
      ensures old(nextId) <= nextId
      ensures journal.Some? ==>
                journal == old(journal) || (journal.value.id == old(nextId) && journal.value.phase.RollingBack?)
      ensures Evolves(old(bundles), old(backups), bundles, backups,
                      RollbackLosses(symbolicName, place, backup, current, old(bundles), old(backups)), {})
      ensures e == Code(0) ==>
                && place.Some? && old(journal).None? && journal.None? && !old(locked) && !locked
                && RollbackApproved(symbolicName, place.value, backup, current, old(bundles), old(backups))
                && RolledBack(symbolicName, place.value, old(nextId), old(bundles), old(backups), bundles, backups)
      ensures e == Code(1) && journal.None? ==>
                || bundles == old(bundles)
                || (place.Some? && NotRolledBack(symbolicName, place.value, backup, old(nextId),
                                                 old(bundles), old(backups), bundles, backups))
      ensures e == Code(1) && old(journal).Some? ==>
                journal == old(journal) && bundles == old(bundles) && backups == old(backups)
      ensures !old(disturbed) && !disturbed ==>
                if place.Some? && old(journal).None? && !old(locked)
                   && RollbackApproved(symbolicName, place.value, backup, current, old(bundles), old(backups))
                then e == Code(0)
                else e == Code(1) && bundles == old(bundles) && backups == old(backups) && journal == old(journal)
    {
      NothingChanges(bundles, backups, RollbackLosses(symbolicName, place, backup, current, bundles, backups), {});
      hide Evolves, RollbackLosses, RollbackApproved, RolledBack, NotRolledBack, JournalSound;
      if place.None? {
        return Code(1);
      }
      var id := nextId;
      nextId := nextId + 1;
      var s, code, held := GuardedRollBack(symbolicName, place.value, backup, current, id);
      if s.Crashed? {
        return Aborted;
      }
      e := if s.Done? then code else Aborted;
      var f := ReleaseLock(held);
      if !f.Done? {
        e := Aborted;
      }
    }

    /** The end of the handler: audit, journal, report. */
    method Report(verified: bool) returns (s: Status)
      modifies this`journal, this`disturbed
      ensures journal == old(journal) || (verified && journal.None?)
      ensures s.Done? && verified ==> journal.None?
      ensures disturbed == (old(disturbed) || !s.Done?)
    {
      s := Done;
      :- Step();
      if verified || journal.None? {
        :- UnlinkJournal();
      }
      s := Step();
    }

    /** The operator removes the lock file that a dead process left. */
    method RemoveLock()
      modifies this`locked
      ensures !locked
    {
      locked := false;
    }
  }

  // -------- An interrupted install and its recovery --------

  /** An install, ended anywhere, then the lock removed by hand, then a recover. `j` is the
      journal that the install left, and `between` are the bundles it left. Success means
      the committed plugin, or that nothing of it is in the way of the one before; and that
      one is back exactly when the journal knew of its backup or it had never been away. */
  method InstallThenRecover(h: PluginHost, a: Artifact, approved: bool)
    returns (e: Exit, f: Exit, ghost j: Option<Journal>, ghost between: Bundles)
    requires h.Sound() && h.journal.None?
    modifies h
    ensures h.Sound()
    ensures j.Some? ==> Faithful(j.value, a, old(h.bundles)) && j.value.id == old(h.nextId)
    ensures f == Code(0) ==>
              && j.Some? && h.journal.None? && !h.locked
              && if j.value.phase.Committed? then
                   a.CanonicalFileName() in h.bundles && h.bundles[a.CanonicalFileName()] == a && h.bundles == between
                 else
                   && (InPlace(j.value, old(h.bundles), h.bundles) <==>
                         j.value.phase.BackupCreated? || InPlace(j.value, old(h.bundles), between))
                   && (!InPlace(j.value, old(h.bundles), h.bundles) ==>
                         exists p :: p in h.backups && p.id == j.value.id
                                     && h.backups[p] == old(h.bundles)[j.value.previous.value])
  {
    hide Evolves, StagingLeft, Recoverable, InPlace;
    e := h.Install(a, approved);
    j, between := h.journal, h.bundles;
    ghost var k := h.backups;
    h.locked := false;
    f := h.Recover();
    if f == Code(0) && !j.value.phase.Committed? {
      RecoveredPlugin(j.value, a, old(h.bundles), between, k, h.bundles, h.backups);
    }
  }

  // -------- Any sequence of commands --------

  datatype Command =
    | InstallPlugin(artifact: Artifact, approved: bool)
    | RollBackPlugin(symbolicName: string, place: Option<Place>, backup: Artifact, current: Artifact)
    | RecoverPlugin
    | RemoveLockFile

  /** The two directories and the journal. */
  datatype Shelf = Shelf(bundles: Bundles, backups: Backups, journal: Option<Journal>, nextId: nat)

  ghost function Now(h: PluginHost): Shelf
    reads h`bundles, h`backups, h`journal, h`nextId
  {
    Shelf(h.bundles, h.backups, h.journal, h.nextId)
  }

  /** A command and what it found. */
  datatype Moment = Moment(command: Command, found: Shelf)

  /** Each file is where it was, or where the command puts files, with a content that the
      command moves there; and a journal left is the one before or the command's own. */
  ghost predicate Moves(m: Moment, next: Shelf) {
    var b, k, id := m.found.bundles, m.found.backups, m.found.nextId;
    && id <= next.nextId
    && match m.command
       case InstallPlugin(a, _) =>
         && InstallMoves(a, id, b, k, next.bundles, next.backups)
         && (next.journal.Some? && next.journal != m.found.journal ==>
               next.journal.value.id == id && Faithful(next.journal.value, a, b))
       case RollBackPlugin(name, place, backup, _) =>
         && RollBackMoves(name, place, backup, id, b, k, next.bundles, next.backups)
         && (next.journal.Some? && next.journal != m.found.journal ==>
               next.journal.value.id == id && next.journal.value.phase.RollingBack?)
       case RecoverPlugin =>
         && RecoverMoves(m.found.journal, b, k, next.bundles, next.backups)
         && (next.journal == m.found.journal || next.journal.None?)
       case RemoveLockFile => next == m.found
  }

  /** What the command can have overwritten, judged by what it found. */
  function LossesAt(m: Moment): set<Artifact> {
    match m.command
    case InstallPlugin(a, _) => Endangered(a, m.found.bundles)
    case RollBackPlugin(name, place, backup, current) =>
      RollbackLosses(name, place, backup, current, m.found.bundles, m.found.backups)
    case RecoverPlugin => {}
    case RemoveLockFile => {}
  }

  function Losses(history: seq<Moment>): set<Artifact> {
    if history == [] then {} else Losses(history[..|history| - 1]) + LossesAt(history[|history| - 1])
  }

  function Brought(c: Command): set<Artifact> {
    match c
    case InstallPlugin(a, _) => {a}
    case RollBackPlugin(_, _, _, _) => {}
    case RecoverPlugin => {}
    case RemoveLockFile => {}
  }

  function Requested(history: seq<Moment>): set<Artifact> {
    if history == [] then {} else Requested(history[..|history| - 1]) + Brought(history[|history| - 1].command)
  }

  /** Each moment comes from the one before it, and `last` from the last, by what its
      command may do to the two directories. */
  ghost predicate Unbroken(history: seq<Moment>, last: Shelf) {
    history != [] ==>
      var m := history[|history| - 1];
      && Evolves(m.found.bundles, m.found.backups, last.bundles, last.backups, LossesAt(m), Brought(m.command))
      && Moves(m, last)
      && Unbroken(history[..|history| - 1], m.found)
  }

  lemma {:induction false} HistoryEvolves(history: seq<Moment>, first: Shelf, last: Shelf)
    requires Unbroken(history, last) && first == if history == [] then last else history[0].found
    ensures Evolves(first.bundles, first.backups, last.bundles, last.backups, Losses(history), Requested(history))
  {
    if history == [] {
      NothingChanges(first.bundles, first.backups, {}, {});
    } else {
      var front, m := history[..|history| - 1], history[|history| - 1];
      HistoryEvolves(front, first, m.found);
      EvolvesInSteps(first.bundles, first.backups, m.found.bundles, m.found.backups, last.bundles, last.backups,
                     Losses(front), Requested(front), LossesAt(m), Brought(m.command));
    }
  }

  /** No two artifacts of different symbolic names share a file name. */
  ghost predicate NamesAreClear(all: set<Artifact>) {
    forall x, y | x in all && y in all && x.CanonicalFileName() == y.CanonicalFileName() ::
        x.symbolicName == y.symbolicName
  }

  ghost predicate Known(b: Bundles, k: Backups, all: set<Artifact>) {
    forall a | Present(b, k, a) :: a in all
  }

  /** Then a command overwrites nothing. */
  lemma NoLossWithClearNames(m: Moment, all: set<Artifact>)
    requires Tidy(m.found.bundles, m.found.backups) && Known(m.found.bundles, m.found.backups, all)
    requires Brought(m.command) <= all && NamesAreClear(all)
    ensures LossesAt(m) == {}
  {
    assert forall n | n in m.found.bundles :: Present(m.found.bundles, m.found.backups, m.found.bundles[n]);
    assert forall p | p in m.found.backups :: Present(m.found.bundles, m.found.backups, m.found.backups[p]);
    if m.command.InstallPlugin? {
      assert m.command.artifact in Brought(m.command);
    }
  }

  /** If every file has its artifact's name at the start, and the names of all artifacts that
      are there or are installed are clear, then no sequence of commands loses anything. */
  lemma {:induction false} ClearNamesLoseNothing(history: seq<Moment>, first: Shelf, last: Shelf, all: set<Artifact>)
    requires Unbroken(history, last) && first == if history == [] then last else history[0].found
    requires Tidy(first.bundles, first.backups) && Known(first.bundles, first.backups, all)
    requires Requested(history) <= all && NamesAreClear(all)
    ensures Losses(history) == {}
    ensures Conserves(first.bundles, first.backups, last.bundles, last.backups, {})
    ensures Tidy(last.bundles, last.backups) && Known(last.bundles, last.backups, all)
  {
    if history != [] {
      var front, m := history[..|history| - 1], history[|history| - 1];
      ClearNamesLoseNothing(front, first, m.found, all);
      NoLossWithClearNames(m, all);
      HistoryEvolves(history, first, last);
    }
  }

  /** Any sequence of installs, rollbacks, recoveries and lock removals, each ended in any
      way. `history` has what each command found; nothing is missing in the end but what
      they overwrote, and nothing is, when the names are clear. */
  method Operate(h: PluginHost, commands: seq<Command>) returns (ghost history: seq<Moment>)
    requires h.Sound()
    modifies h
    ensures h.Sound()
    ensures |history| == |commands| && forall i | 0 <= i < |commands| :: history[i].command == commands[i]
    ensures commands != [] ==> history[0].found == old(Now(h))
    ensures Unbroken(history, Now(h))
    ensures Conserves(old(h.bundles), old(h.backups), h.bundles, h.backups, Losses(history))
    ensures forall all | Tidy(old(h.bundles), old(h.backups)) && Known(old(h.bundles), old(h.backups), all)
                         && Requested(history) <= all && NamesAreClear(all) ::
              Losses(history) == {} && Conserves(old(h.bundles), old(h.backups), h.bundles, h.backups, {})
  {
    hide Evolves, Tidy, Moves;
    history := [];
    ghost var first := Now(h);
    for i := 0 to |commands|
      invariant h.Sound() && |history| == i && Unbroken(history, Now(h))
      invariant forall j | 0 <= j < i :: history[j].command == commands[j]
      invariant first == if i == 0 then Now(h) else history[0].found
    {
      ghost var m := Moment(commands[i], Now(h));
      Obey(h, commands[i]);
      assert (history + [m])[..i] == history;
      history := history + [m];
    }
    HistoryEvolves(history, first, Now(h));
    assert Conserves(old(h.bundles), old(h.backups), h.bundles, h.backups, Losses(history)) by {
      EvolvesConserves(old(h.bundles), old(h.backups), h.bundles, h.backups, Losses(history), Requested(history));
    }
    forall all | Tidy(old(h.bundles), old(h.backups)) && Known(old(h.bundles), old(h.backups), all)
                 && Requested(history) <= all && NamesAreClear(all)
      ensures Losses(history) == {} && Conserves(old(h.bundles), old(h.backups), h.bundles, h.backups, {})
    {
      ClearNamesLoseNothing(history, first, Now(h), all);
    }
  }

  lemma EvolvesConserves(b0: Bundles, k0: Backups, b: Bundles, k: Backups, lost: set<Artifact>, found: set<Artifact>)
    requires Evolves(b0, k0, b, k, lost, found)
    ensures Conserves(b0, k0, b, k, lost)
  {
  }

  /** One command, with any choices of the outside world; a backup that is not there any
      more is not chosen. */
  method Obey(h: PluginHost, c: Command)
    requires h.Sound()
    modifies h
    ensures h.Sound()
    ensures Evolves(old(h.bundles), old(h.backups), h.bundles, h.backups,
                    LossesAt(Moment(c, old(Now(h)))), Brought(c))
    ensures Moves(Moment(c, old(Now(h))), Now(h))
  {
    NothingChanges(h.bundles, h.backups, LossesAt(Moment(c, Now(h))), Brought(c));
    hide Evolves, Endangered, RollbackLosses, InstallMoves, RollBackMoves, RecoverMoves, Faithful;
    match c
    case InstallPlugin(a, approved) =>
      var _ := h.Install(a, approved);
    case RollBackPlugin(name, place, backup, current) =>
      NothingMoved(name, place, backup, h.nextId, h.bundles, h.backups);
      if place.None? || (place.value in h.backups && place.value.Kept? && place.value.symbolicName == name) {
        var _ := h.RollBack(name, place, backup, current);
      }
    case RecoverPlugin =>
      var _ := h.Recover();
    case RemoveLockFile =>
      h.RemoveLock();
  }
}
