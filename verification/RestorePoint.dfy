/** Restoring a management recovery point: archive what is there, stage what shall be
    there, replace file by file, and put everything back when anything fails. */
module RestorePoint {
  import opened Faults

  datatype Role = Configuration | Tasks | Idempotency | Audit | AuditPrevious

  const ROLES: seq<Role> := [Configuration, Tasks, Idempotency, Audit, AuditPrevious]

  type Content = string

  // The files of one directory, by role; a missing file has no entry.
  type Files = map<Role, Content>

  function Look(files: Files, role: Role): Option<Content> {
    if role in files then Some(files[role]) else None
  }

  function Put(files: Files, role: Role, c: Option<Content>): Files {
    if c.Some? then files[role := c.value] else files - {role}
  }

  /** Where a role comes in the order of the transaction. */
  function Rank(role: Role): (i: nat)
    ensures i < |ROLES| && ROLES[i] == role
  {
    match role case Configuration => 0 case Tasks => 1 case Idempotency => 2 case Audit => 3 case AuditPrevious => 4
  }

  lemma RankOf(i: nat)
    requires i < |ROLES|
    ensures Rank(ROLES[i]) == i
  {
  }

  lemma EqualByRole(a: Files, b: Files)
    requires forall r: Role :: Look(a, r) == Look(b, r)
    ensures a == b
  {
    forall r | r in a || r in b
      ensures r in a && r in b && a[r] == b[r]
    {
      assert Look(a, r) == Look(b, r);
    }
  }

  lemma LookElsewhere(before: Files, after: Files, role: Role)
    requires after - {role} == before - {role}
    ensures forall r | r != role :: Look(after, r) == Look(before, r)
  {
    forall r | r != role
      ensures Look(after, r) == Look(before, r)
    {
      assert Look(after, r) == Look(after - {role}, r) && Look(before, r) == Look(before - {role}, r);
    }
  }

  lemma OneMore(before: Files, after: Files, role: Role)
    requires role !in before && after - {role} == before
    ensures after.Keys <= before.Keys + {role}
    ensures |after| <= |before| + 1
  {
    if role in after {
      assert after == before[role := after[role]];
    } else {
      assert after == before;
    }
  }

  /** What was approved: the files recorded in the manifest, and whether the checks before
      the transaction accept them. Sizes and digests stand for the contents. */
  datatype Point = Point(manifest: Files, approved: bool, snapshotsValid: bool)

  class Store {
    var dest: Files                       // the files the management service uses
    var staged: Files                     // <destination>.restore-<id>.new
    var stagedPaths: set<Role>            // the staged files that passed their check
    var putBackCopies: Files              // <destination>.rollback-<id>.new
    var archive: Option<Files>            // the pre-restore archive once it is published
    ghost var disturbed: bool

    constructor (dest: Files)
      ensures this.dest == dest && Fresh()
    {
      this.dest, staged, stagedPaths, putBackCopies := dest, map[], {}, map[];
      archive, disturbed := None, false;
    }

    /** Nothing of this restore is there yet: all its files carry a new id. */
    ghost predicate Fresh()
      reads this`staged, this`stagedPaths, this`putBackCopies, this`archive
    {
      staged == map[] && stagedPaths == {} && putBackCopies == map[] && archive.None?
    }

    method Step() returns (s: Status)
      modifies this`disturbed
      ensures disturbed == (old(disturbed) || !s.Done?)
    {
      s := *;
      disturbed := disturbed || !s.Done?;
    }

    /** A copy may fail, and it may also go wrong unnoticed. */
    method Copy(c: Content) returns (s: Status, copy: Content)
      modifies this`disturbed
      ensures old(disturbed) ==> disturbed
      ensures !disturbed ==> s.Done? && copy == c
    {
      copy := c;
      :- Step();
      var intact: bool := *;
      if !intact {
        copy := *;
        disturbed := true;
      }
      return Done, copy;
    }

    /** `os.replace`, or `unlink` when there is nothing to put in place. */
    method Replace(role: Role, c: Option<Content>) returns (s: Status)
      modifies this`dest, this`disturbed
      ensures dest == (if s.Done? then Put(old(dest), role, c) else old(dest))
      ensures disturbed == (old(disturbed) || !s.Done?)
    {
      s := Done;
      :- Step();
      dest := Put(dest, role, c);
      return Done;
    }

    /** Copies every destination aside, records the copies and publishes the archive. */
    method ArchiveTargets() returns (s: Status, entries: Files)
      requires archive.None?
      modifies this`archive, this`disturbed
      ensures archive == if s.Done? then Some(entries) else None
      ensures s.Done? ==> entries.Keys == dest.Keys
      ensures old(disturbed) ==> disturbed
      ensures !disturbed ==> s.Done? && entries == dest
    {
      entries := map[];
      :- Step();
      for i := 0 to |ROLES|
        invariant archive.None?
        invariant forall r :: r in entries <==> r in dest && Rank(r) < i
        invariant old(disturbed) ==> disturbed
        invariant !disturbed ==> forall r | r in entries :: entries[r] == dest[r]
      {
        RankOf(i);
        if ROLES[i] in dest {
          var copy;
          s, copy := Copy(dest[ROLES[i]]);
          if !s.Done? {
            return;
          }
          entries := entries[ROLES[i] := copy];
        }
      }
      :- Step();
      archive := Some(entries);
      return Done, entries;
    }

    /** Copies the approved files next to their destinations and checks each copy. A copy
        that fails, or fails its check, may stay there without being listed. */
    method StageSources(point: Point) returns (s: Status, ghost stray: Role)
      requires staged == map[] && stagedPaths == {}
      modifies this`staged, this`stagedPaths, this`disturbed
      ensures s.Done? ==> staged == point.manifest && stagedPaths == staged.Keys
      ensures staged.Keys <= stagedPaths + {stray}
      ensures old(disturbed) ==> disturbed
      ensures !disturbed ==> s.Done?
    {
      stray := Configuration;
      for i := 0 to |ROLES|
        invariant forall r :: Look(staged, r) == if Rank(r) < i then Look(point.manifest, r) else None
        invariant forall r :: r in stagedPaths <==> r in staged
        invariant old(disturbed) ==> disturbed
      {
        RankOf(i);
        var role := ROLES[i];
        if role in point.manifest {
          stray := role;
          :- Step();
          var copy;
          s, copy := Copy(point.manifest[role]);
          var written: bool := *;
          if s.Done? || written {
            staged := staged[role := copy];
          }
          if !s.Done? {
            return;
          }
          if copy != point.manifest[role] {
            s := Raised;
            return;
          }
          stagedPaths := stagedPaths + {role};
        }
      }
      EqualByRole(staged, point.manifest);
      s := Done;
    }

    /** Every destination is still what its archive entry says. This is also what finds an
        archive copy that went wrong. */
    method CheckUnchanged(entries: Files) returns (s: Status)
      modifies this`disturbed
      ensures s.Done? ==> dest == entries
      ensures old(disturbed) ==> disturbed
      ensures !disturbed && dest == entries ==> s.Done?
    {
      for i := 0 to |ROLES|
        invariant forall r | Rank(r) < i :: Look(dest, r) == Look(entries, r)
        invariant old(disturbed) ==> disturbed
      {
        RankOf(i);
        :- Step();
        if Look(dest, ROLES[i]) != Look(entries, ROLES[i]) {
          return Raised;
        }
      }
      EqualByRole(dest, entries);
      return Done;
    }

    /** Each destination is replaced by its staged file, or removed if it has none. */
    method Publish() returns (s: Status)
      modifies this`dest, this`staged, this`disturbed
      ensures s.Done? ==> dest == old(staged) && staged == map[]
      ensures staged.Keys <= old(staged).Keys
      ensures old(disturbed) ==> disturbed
      ensures !disturbed ==> s.Done?
    {
      for i := 0 to |ROLES|
        invariant forall r :: Look(dest, r) == if Rank(r) < i then Look(old(staged), r) else Look(old(dest), r)
        invariant forall r :: Look(staged, r) == if Rank(r) < i then None else Look(old(staged), r)
        invariant staged.Keys <= old(staged).Keys
        invariant old(disturbed) ==> disturbed
      {
        RankOf(i);
        var role := ROLES[i];
        if role in staged || role in dest {
          :- Replace(role, Look(staged, role));
        }
        staged := staged - {role};
      }
      EqualByRole(dest, old(staged));
      EqualByRole(staged, map[]);
      return Done;
    }

    method VerifyDestinations(point: Point) returns (s: Status)
      modifies this`disturbed
      ensures s.Done? ==> dest == point.manifest && point.snapshotsValid
      ensures old(disturbed) ==> disturbed
      ensures !disturbed && dest == point.manifest ==> if point.snapshotsValid then s.Done? else s.Raised?
    {
      s := Done;
      :- CheckUnchanged(point.manifest);
      :- Step();
      if !point.snapshotsValid {
        return Raised;
      }
      return Done;
    }

    /** Copies an archived file beside its destination and replaces the destination with the
        copy, which stays there when it is incomplete or cannot be put in place. */
    method PutCopy(role: Role, c: Content) returns (s: Status)
      requires role !in putBackCopies
      modifies this`dest, this`putBackCopies, this`disturbed
      ensures if s.Done? then role in dest && dest == old(dest)[role := dest[role]] else dest == old(dest)
      ensures if s.Done? || role !in putBackCopies then putBackCopies == old(putBackCopies)
              else putBackCopies == old(putBackCopies)[role := putBackCopies[role]]
      ensures old(disturbed) ==> disturbed
      ensures !disturbed ==> s.Done? && dest[role] == c
    {
      var copy;
      s, copy := Copy(c);
      var written: bool := *;
      if s.Done? || written {
        putBackCopies := putBackCopies[role := copy];
      }
      if !s.Done? {
        return;
      }
      :- Replace(role, Some(copy));
      putBackCopies := putBackCopies - {role};
    }

    /** Puts back one destination from the archive and checks it. */
    method PutBack(role: Role, entries: Files) returns (s: Status)
      requires role !in putBackCopies
      modifies this`dest, this`putBackCopies, this`disturbed
      ensures dest - {role} == old(dest) - {role}
      ensures putBackCopies - {role} == old(putBackCopies)
      ensures s.Done? ==> Look(dest, role) == Look(entries, role) && putBackCopies == old(putBackCopies)
      ensures role in putBackCopies ==> role in entries && dest == old(dest)
      ensures old(disturbed) ==> disturbed
      ensures !disturbed ==> s.Done?
    {
      if role in entries {
        :- PutCopy(role, entries[role]);
      } else if role in dest {
        :- Replace(role, None);
      }
      :- Step();
      if Look(dest, role) != Look(entries, role) {
        return Raised;
      }
      return Done;
    }

    /** Puts back every destination it can; `errors` counts the others. There is at most one
        copy left behind for each error, and only of a file that was to be put back. */
    method PutAllBack(entries: Files) returns (s: Status, errors: nat)
      requires putBackCopies == map[]
      modifies this`dest, this`putBackCopies, this`disturbed
      ensures s != Raised
      ensures s.Done? && errors == 0 ==> dest == entries && putBackCopies == map[]
      ensures putBackCopies.Keys <= entries.Keys
      ensures s.Done? ==> |putBackCopies| <= errors
      ensures old(disturbed) ==> disturbed
      ensures !disturbed ==> s.Done? && errors == 0
    {
      errors := 0;
      for i := 0 to |ROLES|
        invariant errors == 0 ==> forall r | Rank(r) < i :: Look(dest, r) == Look(entries, r)
        invariant forall r | r in putBackCopies :: Rank(r) < i && r in entries
        invariant |putBackCopies| <= errors
        invariant old(disturbed) ==> disturbed
        invariant !disturbed ==> errors == 0
      {
        RankOf(i);
        ghost var before, copies := dest, putBackCopies;
        s := PutBack(ROLES[i], entries);
        OneMore(copies, putBackCopies, ROLES[i]);
        if s.Crashed? {
          return;
        }
        if s.Raised? {
          errors := errors + 1;
        }
        LookElsewhere(before, dest, ROLES[i]);
      }
      if errors == 0 {
        EqualByRole(dest, entries);
      }
      return Done, errors;
    }

    /** The try block. `mutating` is set just before the first destination is touched. */
    method TryRestore(point: Point) returns (s: Status, entries: Files, mutating: bool, ghost stray: Role)
      requires Fresh()
      modifies this`dest, this`staged, this`stagedPaths, this`archive, this`disturbed
      ensures staged.Keys <= stagedPaths + {stray}
      ensures !mutating ==> dest == old(dest) && !s.Done?
      ensures mutating ==> archive == Some(entries) && entries == old(dest)
      ensures s.Done? ==> dest == point.manifest && staged == map[] && point.approved && point.snapshotsValid
      ensures old(disturbed) ==> disturbed
      ensures !disturbed ==> if point.approved && point.snapshotsValid then s.Done? else s.Raised?
      ensures !disturbed && point.approved ==> mutating
    {
      entries, mutating, stray := map[], false, Configuration;
      :- Step();
      if !point.approved {
        s := Raised;
        return;
      }
      :- Step();
      s, entries := ArchiveTargets();
      if !s.Done? {
        return;
      }
      s, stray := StageSources(point);
      if !s.Done? {
        return;
      }
      :- Step();
      :- CheckUnchanged(entries);
      mutating := true;
      :- Publish();
      s := VerifyDestinations(point);
    }

    /** Removes the listed staged files that were not used. */
    method Discard() returns (s: Status)
      modifies this`staged, this`disturbed
      ensures staged.Keys <= old(staged).Keys
      ensures s.Done? ==> staged.Keys !! stagedPaths
      ensures old(disturbed) ==> disturbed
      ensures !disturbed ==> s.Done?
    {
      for i := 0 to |ROLES|
        invariant forall r | Rank(r) < i && r in stagedPaths :: r !in staged
        invariant staged.Keys <= old(staged).Keys
        invariant old(disturbed) ==> disturbed
      {
        RankOf(i);
        if ROLES[i] in stagedPaths && ROLES[i] in staged {
          :- Step();
          staged := staged - {ROLES[i]};
        }
      }
      return Done;
    }

    /** All or nothing, whatever copy, replace, unlink or check fails: 0 means every
        destination is what the manifest says, 2 that every one is as it was. Only 3 may
        leave anything else, and then, as when the process dies at any point, the archive
        has every file as it was. */
    method Restore(point: Point) returns (r: Exit)
      requires Fresh()
      modifies this
      ensures r.Code? ==> r.n in {0, 2, 3}
      ensures r == Code(0) ==> dest == point.manifest && point.approved && point.snapshotsValid && staged == map[]
      ensures r == Code(2) ==> dest == old(dest)
      ensures dest == old(dest) || archive == Some(old(dest))
      // Of the staged files at most one is left behind, the one whose copy failed.
      ensures r.Code? ==> exists stray :: staged.Keys <= {stray}
      // Copies of the archive are left beside destinations only when putting back failed.
      ensures r.Code? && putBackCopies != map[] ==> r == Code(3)
      ensures putBackCopies.Keys <= old(dest).Keys
      ensures !disturbed ==> r == Code(if point.approved && point.snapshotsValid then 0 else 2)
    {
      disturbed := false;
      var s, entries, mutating, stray := TryRestore(point);
      var result := if s.Done? then 0 else 2;
      if s.Crashed? {
        return Aborted;
      }
      if s.Raised? && mutating {
        var errors;
        s, errors := PutAllBack(entries);
        if s.Crashed? {
          return Aborted;
        }
        if errors > 0 {
          result := 3;
        }
      }
      s := Discard();
      if s.IsFailure() {
        return Aborted;
      }
      s := Step();
      if s.Crashed? {
        return Aborted;
      }
      if s.Raised? && result == 0 {
        result := 3;
      }
      s := Step();
      r := if s.Done? then Code(result) else Aborted;
    }
  }
}
