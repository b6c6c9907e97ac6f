/** Manual rollback: the newest backup and the installed release change places. */
module Rollback {
  import opened Faults
  import opened UpgradeDisk
  import opened UpgradeManager

  /** Tree `a` with files `fa` and tree `b` with files `fb` hold `live` between them; all
      other trees are `rest`, which holds nothing. */
  ghost predicate Pair(ts: Trees, rest: Trees, a: Name, fa: Inventory, b: Name, fb: Inventory, live: State) {
    && a != b && a in ts && b in ts && ts - {a, b} == rest
    && ts[a].files == fa && ts[b].files == fb && Split(ts[a], ts[b], live)
    && (forall n | n in rest :: Bare(rest, n))
  }

  lemma PairSwaps(ts: Trees, rest: Trees, a: Name, fa: Inventory, b: Name, fb: Inventory, live: State)
    requires Pair(ts, rest, a, fa, b, fb, live)
    ensures Pair(ts, rest, b, fb, a, fa, live)
  {
    assert {a, b} == {b, a};
    assert ts[b].mutables + ts[a].mutables == live;
  }

  lemma PairConserves(ts: Trees, rest: Trees, a: Name, fa: Inventory, b: Name, fb: Inventory, live: State)
    requires Pair(ts, rest, a, fa, b, fb, live)
    ensures Exactly(ts, live)
  {
    forall n | n in ts && n != a && n != b
      ensures Bare(ts, n)
    {
      assert n in rest;
    }
    SplitConserves(ts, a, b, live);
  }

  /** The directories `moved` go from `a` to `b`. */
  lemma PairShift(ts: Trees, rest: Trees, a: Name, fa: Inventory, b: Name, fb: Inventory, live: State,
                  moved: set<string>)
    requires Pair(ts, rest, a, fa, b, fb, live) && moved <= ts[a].mutables.Keys
    ensures Pair(Shift(ts, a, b, moved), rest, a, fa, b, fb, live) && Shift(ts, a, b, moved).Keys == ts.Keys
    ensures moved == ts[a].mutables.Keys ==>
              Shift(ts, a, b, moved)[a].mutables == map[] && Shift(ts, a, b, moved)[b].mutables == live
  {
    ShiftKeepsSplit(ts, a, b, moved, live);
    assert Shift(ts, a, b, moved) - {a, b} == rest;
  }

  lemma PairRename(ts: Trees, rest: Trees, a: Name, fa: Inventory, b: Name, fb: Inventory, live: State, c: Name)
    requires Pair(ts, rest, a, fa, b, fb, live) && c !in ts
    ensures Pair(Renamed(ts, a, c), rest, c, fa, b, fb, live)
  {
    assert Renamed(ts, a, c) - {c, b} == rest;
  }

  /** With all state in `a`, the trees are determined. */
  lemma PairUnique(ts: Trees, us: Trees, rest: Trees, a: Name, fa: Inventory, b: Name, fb: Inventory, live: State)
    requires Pair(ts, rest, a, fa, b, fb, live) && Pair(us, rest, a, fa, b, fb, live)
    requires ts[a].mutables == us[a].mutables == live
    ensures ts == us
  {
    assert ts[b].mutables.Keys <= live.Keys && us[b].mutables.Keys <= live.Keys;
    forall n | n in ts || n in us
      ensures n in ts && n in us && ts[n] == us[n]
    {
      if n != a && n != b {
        assert n in ts ==> n in rest;
        assert n in us ==> n in rest;
      }
    }
  }

  /** Both trees have a directory, which no transfer between them will touch. */
  ghost predicate Clash(ts: Trees, a: Name, b: Name) {
    a in ts && b in ts && !(ts[a].mutables.Keys !! ts[b].mutables.Keys)
  }

  /** One transfer between the two trees of a pair, in either direction. */
  method Move(host: Host, a: Name, b: Name, ghost rest: Trees, ghost fa: Inventory, ghost fb: Inventory)
    returns (s: Status)
    requires a != b && (Clash(host.trees, a, b) || Pair(host.trees, rest, a, fa, b, fb, host.live))
    modifies host`trees, host`disturbed, host`effects
    ensures if Clash(old(host.trees), a, b) then host.trees == old(host.trees) && !s.Done?
            else Pair(host.trees, rest, a, fa, b, fb, host.live) && host.trees.Keys == old(host.trees).Keys
    ensures s.Done? ==> host.trees[a].mutables == map[] && host.trees[b].mutables == host.live
    ensures old(host.disturbed) ==> host.disturbed
    ensures !host.disturbed && !Clash(old(host.trees), a, b) ==> s.Done?
  {
    ghost var before := host.trees;
    var moved;
    s, moved := host.TransferMutable(a, b);
    if !Clash(before, a, b) {
      PairShift(before, rest, a, fa, b, fb, host.live, moved);
    }
  }

  method Rename(host: Host, a: Name, c: Name, ghost b: Name, ghost rest: Trees, ghost fa: Inventory,
                ghost fb: Inventory)
    returns (s: Status)
    requires Pair(host.trees, rest, a, fa, b, fb, host.live) && c !in host.trees
    modifies host`trees, host`disturbed, host`effects
    ensures if s.Done? then
              host.trees == Renamed(old(host.trees), a, c) && Pair(host.trees, rest, c, fa, b, fb, host.live)
            else host.trees == old(host.trees)
    ensures old(host.disturbed) ==> host.disturbed
    ensures !host.disturbed ==> s.Done?
  {
    PairRename(host.trees, rest, a, fa, b, fb, host.live, c);
    s := host.RenamePath(a, c);
  }

  /** Where the exchange of an installed release `fa` with the backup `fb` can stop. */
  ghost predicate Swapping(ts: Trees, rest: Trees, chosen: nat, id: nat, fa: Inventory, fb: Inventory, live: State) {
    || (Displaced(id) !in ts && Pair(ts, rest, Target, fa, Backup(chosen), fb, live))
    || (Target !in ts && Pair(ts, rest, Displaced(id), fa, Backup(chosen), fb, live))
    || (Backup(chosen) !in ts && Pair(ts, rest, Displaced(id), fa, Target, fb, live))
  }

  lemma SwappingConserves(ts: Trees, rest: Trees, chosen: nat, id: nat, fa: Inventory, fb: Inventory, live: State)
    requires Swapping(ts, rest, chosen, id, fa, fb, live)
    ensures Exactly(ts, live)
  {
    if Pair(ts, rest, Target, fa, Backup(chosen), fb, live) {
      PairConserves(ts, rest, Target, fa, Backup(chosen), fb, live);
    } else if Pair(ts, rest, Displaced(id), fa, Backup(chosen), fb, live) {
      PairConserves(ts, rest, Displaced(id), fa, Backup(chosen), fb, live);
    } else {
      PairConserves(ts, rest, Displaced(id), fa, Target, fb, live);
    }
  }

  /** The backup is the target, with all state, and the former target is gone. */
  ghost predicate Swapped(ts: Trees, rest: Trees, chosen: nat, id: nat, fb: Inventory, live: State) {
    && Backup(chosen) !in ts && Displaced(id) !in ts
    && Target in ts && ts[Target] == Tree(fb, live) && ts - {Target} == rest
  }

  lemma SwappedConserves(ts: Trees, rest: Trees, chosen: nat, id: nat, fb: Inventory, live: State)
    requires Swapped(ts, rest, chosen, id, fb, live) && forall n | n in rest :: Bare(rest, n)
    ensures Idle(ts, live) && Exactly(ts, live)
  {
    forall n | n in ts && n != Target
      ensures Bare(ts, n)
    {
      assert n in rest;
    }
    OneHolderConserves(ts, Target, live);
  }

  /** The try block, with a release installed. */
  method Exchange(host: Host, chosen: nat, id: nat, ghost rest: Trees, ghost fa: Inventory, expected: Inventory)
    returns (s: Status)
    requires Displaced(id) !in host.trees
    requires || Clash(host.trees, Target, Backup(chosen))
             || Pair(host.trees, rest, Target, fa, Backup(chosen), expected, host.live)
    requires !host.reporting
    modifies host`trees, host`disturbed, host`effects, host`reporting
    ensures s.Done? ==> host.reporting
    ensures if Clash(old(host.trees), Target, Backup(chosen)) then host.trees == old(host.trees) && !host.reporting
            else if host.reporting then Swapped(host.trees, rest, chosen, id, expected, host.live)
            else Swapping(host.trees, rest, chosen, id, fa, expected, host.live)
    ensures old(host.disturbed) ==> host.disturbed
    ensures !host.disturbed && !Clash(old(host.trees), Target, Backup(chosen)) ==> s.Done?
  {
    s := Done;
    :- Move(host, Target, Backup(chosen), rest, fa, expected);
    :- Rename(host, Target, Displaced(id), Backup(chosen), rest, fa, expected);
    PairSwaps(host.trees, rest, Displaced(id), fa, Backup(chosen), expected, host.live);
    :- Rename(host, Backup(chosen), Target, Displaced(id), rest, expected, fa);
    PairSwaps(host.trees, rest, Target, expected, Displaced(id), fa, host.live);
    :- host.VerifyInventory(Target, expected);
    :- host.Audit();
    assert (host.trees - {Displaced(id)}) - {Target} == host.trees - {Displaced(id), Target};
    :- host.RemoveTree(Displaced(id));
    s := host.Report();
  }

  /** The backup became the target: back to the backup with it, its state first. */
  method UndoRename(host: Host, chosen: nat, id: nat, ghost rest: Trees, ghost fa: Inventory, ghost fb: Inventory)
    returns (s: Status)
    requires Backup(chosen) !in host.trees && Pair(host.trees, rest, Displaced(id), fa, Target, fb, host.live)
    modifies host`trees, host`disturbed, host`effects
    ensures old(host.disturbed) ==> host.disturbed
    ensures Swapping(host.trees, rest, chosen, id, fa, fb, host.live)
    ensures s.Done? ==>
              && Target !in host.trees
              && Pair(host.trees, rest, Displaced(id), fa, Backup(chosen), fb, host.live)
              && host.trees[Displaced(id)].mutables == host.live
  {
    PairSwaps(host.trees, rest, Displaced(id), fa, Target, fb, host.live);
    s := Move(host, Target, Displaced(id), rest, fb, fa);
    PairSwaps(host.trees, rest, Target, fb, Displaced(id), fa, host.live);
    if s.IsFailure() {
      return;
    }
    if Backup(chosen) in host.trees {
      return Raised;
    }
    s := Rename(host, Target, Backup(chosen), Displaced(id), rest, fb, fa);
    if s.Done? {
      PairSwaps(host.trees, rest, Backup(chosen), fb, Displaced(id), fa, host.live);
    }
  }

  /** State that had reached the backup goes back to the displaced release or the target. */
  method UndoMove(host: Host, chosen: nat, a: Name, ghost rest: Trees, ghost fa: Inventory, ghost fb: Inventory)
    returns (s: Status)
    requires a != Backup(chosen)
    requires Clash(host.trees, a, Backup(chosen)) || Pair(host.trees, rest, a, fa, Backup(chosen), fb, host.live)
    modifies host`trees, host`disturbed, host`effects
    ensures old(host.disturbed) ==> host.disturbed
    ensures if Clash(old(host.trees), a, Backup(chosen)) then host.trees == old(host.trees) && !s.Done?
            else Pair(host.trees, rest, a, fa, Backup(chosen), fb, host.live) && host.trees.Keys == old(host.trees).Keys
    ensures s.Done? ==> host.trees[a].mutables == host.live
  {
    ghost var clash := Clash(host.trees, a, Backup(chosen));
    if !clash {
      PairSwaps(host.trees, rest, a, fa, Backup(chosen), fb, host.live);
    }
    s := Move(host, Backup(chosen), a, rest, fb, fa);
    if !clash {
      PairSwaps(host.trees, rest, Backup(chosen), fb, a, fa, host.live);
    }
  }

  /** The displaced release becomes the target again, with all state. */
  method RestoreDisplaced(host: Host, chosen: nat, id: nat, ghost rest: Trees, ghost fa: Inventory, ghost fb: Inventory)
    returns (s: Status)
    requires Displaced(id) in host.trees && Swapping(host.trees, rest, chosen, id, fa, fb, host.live)
    modifies host`trees, host`disturbed, host`effects
    ensures old(host.disturbed) ==> host.disturbed
    ensures Swapping(host.trees, rest, chosen, id, fa, fb, host.live)
    ensures s.Done? ==>
              && Displaced(id) !in host.trees && Pair(host.trees, rest, Target, fa, Backup(chosen), fb, host.live)
              && host.trees[Target].mutables == host.live
  {
    if Target in host.trees {
      s := UndoRename(host, chosen, id, rest, fa, fb);
    } else {
      s := Done;
      if Backup(chosen) in host.trees {
        s := UndoMove(host, chosen, Displaced(id), rest, fa, fb);
      }
    }
    if s.Done? {
      s := Rename(host, Displaced(id), Target, Backup(chosen), rest, fa, fb);
    }
  }

  /** The except block: whatever the exchange had done is undone in reverse. */
  method Compensate(host: Host, chosen: nat, id: nat, ghost rest: Trees, ghost fa: Inventory, ghost fb: Inventory)
    returns (r: Exit)
    requires || Swapping(host.trees, rest, chosen, id, fa, fb, host.live)
             || Swapped(host.trees, rest, chosen, id, fb, host.live)
             || (Clash(host.trees, Target, Backup(chosen)) && Displaced(id) !in host.trees)
    modifies host`trees, host`disturbed, host`effects
    ensures r == Code(1) || r == Aborted
    ensures old(host.disturbed) ==> host.disturbed
    ensures if Swapped(old(host.trees), rest, chosen, id, fb, host.live) then host.trees == old(host.trees)
            else if Swapping(old(host.trees), rest, chosen, id, fa, fb, host.live) then
              Swapping(host.trees, rest, chosen, id, fa, fb, host.live)
            else host.trees == old(host.trees) && r == Aborted
    ensures r == Code(1) && !Swapped(old(host.trees), rest, chosen, id, fb, host.live) ==>
              && Displaced(id) !in host.trees && Pair(host.trees, rest, Target, fa, Backup(chosen), fb, host.live)
              && host.trees[Target].mutables == host.live
  {
    r := Aborted;
    var s := Done;
    if Displaced(id) in host.trees {
      s := RestoreDisplaced(host, chosen, id, rest, fa, fb);
    } else if Target in host.trees && Backup(chosen) in host.trees {
      s := UndoMove(host, chosen, Target, rest, fa, fb);
    }
    if s.Done? {
      s := host.Audit();
      r := if s.Done? then Code(1) else Aborted;
    }
  }

  /** Nothing is installed: the backup is simply put in place. */
  method PutInPlace(host: Host, chosen: nat, expected: Inventory) returns (s: Status)
    requires Target !in host.trees && Backup(chosen) in host.trees && host.trees[Backup(chosen)].files == expected
    requires !host.reporting
    modifies host`trees, host`disturbed, host`effects, host`reporting
    ensures s.Done? ==> host.reporting
    ensures if host.reporting then host.trees == Renamed(old(host.trees), Backup(chosen), Target)
            else host.trees == old(host.trees) || host.trees == Renamed(old(host.trees), Backup(chosen), Target)
    ensures old(host.disturbed) ==> host.disturbed
    ensures !host.disturbed ==> s.Done?
  {
    s := Done;
    :- host.RenamePath(Backup(chosen), Target);
    :- host.VerifyInventory(Target, expected);
    :- host.Audit();
    s := host.Report();
  }

  /** The mutable directories of the installed release and of a backup. */
  function Together(ts: Trees, chosen: nat): State {
    TreeAt(ts, Target).mutables + TreeAt(ts, Backup(chosen)).mutables
  }

  /** The backup is the target, with all state, and nothing else has changed. */
  ghost predicate RolledBack(before: Trees, after: Trees, chosen: nat) {
    && Backup(chosen) in before && Target in after
    && after[Target] == Tree(before[Backup(chosen)].files, Together(before, chosen))
    && after - {Target} == before - {Target, Backup(chosen)}
  }

  /** Nothing has changed, but that the target has all state. */
  function Undone(before: Trees, chosen: nat): Trees {
    if Target !in before || Backup(chosen) !in before then before
    else before[Target := before[Target].(mutables := Together(before, chosen))]
               [Backup(chosen) := before[Backup(chosen)].(mutables := map[])]
  }

  /** From here `RollBack` can start: unless an upgrade is unfinished, no state is anywhere
      but in the installed release and the backup. */
  ghost predicate Ready(host: Host, chosen: nat)
    reads host
  {
    && Below(host.trees, host.nextId) && (host.journal.Some? ==> host.journal.value.id < host.nextId)
    && (host.Clear() ==>
          && Backup(chosen) !in host.others
          && forall n | n in host.trees && n != Target && n != Backup(chosen) :: Bare(host.trees, n))
  }

  /** A sound disk is such a place, and there the backup holds nothing. */
  lemma SoundIsReady(host: Host, chosen: nat)
    requires host.Sound() && Backup(chosen) !in host.others
    ensures Ready(host, chosen)
    ensures host.Clear() && Backup(chosen) in host.trees ==>
              && !Clash(host.trees, Target, Backup(chosen)) && Together(host.trees, chosen) == host.live
              && Undone(host.trees, chosen) == host.trees
  {
    if host.Clear() && Backup(chosen) in host.trees {
      assert Bare(host.trees, Backup(chosen));
    }
  }

  lemma StartingPair(ts: Trees, chosen: nat)
    requires Target in ts && Backup(chosen) in ts && !Clash(ts, Target, Backup(chosen))
    requires forall n | n in ts && n != Target && n != Backup(chosen) :: Bare(ts, n)
    ensures var rest := ts - {Target, Backup(chosen)};
            var live := Together(ts, chosen);
            && Pair(ts, rest, Target, ts[Target].files, Backup(chosen), ts[Backup(chosen)].files, live)
            && Pair(Undone(ts, chosen), rest, Target, ts[Target].files, Backup(chosen), ts[Backup(chosen)].files, live)
            && Undone(ts, chosen)[Target].mutables == live
  {
    assert Undone(ts, chosen) - {Target, Backup(chosen)} == ts - {Target, Backup(chosen)};
  }

  lemma StartingExactly(ts: Trees, chosen: nat)
    requires !Clash(ts, Target, Backup(chosen))
    requires forall n | n in ts && n != Target && n != Backup(chosen) :: Bare(ts, n)
    ensures Exactly(ts, Together(ts, chosen))
  {
    if Target in ts && Backup(chosen) in ts {
      StartingPair(ts, chosen);
      PairConserves(ts, ts - {Target, Backup(chosen)}, Target, ts[Target].files, Backup(chosen),
                    ts[Backup(chosen)].files, Together(ts, chosen));
    } else {
      OneHolderConserves(ts, if Target in ts then Target else Backup(chosen), Together(ts, chosen));
    }
  }

  /** The trees that the rollback does not name are as they were. */
  ghost predicate RestKept(before: Trees, after: Trees, chosen: nat, id: nat) {
    && (Backup(chosen) in after ==> Backup(chosen) in before)
    && forall n | n !in {Target, Backup(chosen), Displaced(id)} ::
         (n in after <==> n in before) && (n in before ==> after[n] == before[n])
  }

  lemma RestIsKept(before: Trees, ts: Trees, rest: Trees, chosen: nat, id: nat, fa: Inventory, fb: Inventory,
                   live: State)
    requires rest == before - {Target, Backup(chosen)} && Backup(chosen) in before
    requires Swapping(ts, rest, chosen, id, fa, fb, live) || Swapped(ts, rest, chosen, id, fb, live)
    ensures RestKept(before, ts, chosen, id)
  {
    forall n | n !in {Target, Backup(chosen), Displaced(id)}
      ensures (n in ts <==> n in before) && (n in before ==> ts[n] == before[n])
    {
      assert n in ts <==> n in rest;
    }
  }

  lemma RestKeptByRename(before: Trees, chosen: nat, id: nat)
    requires Below(before, id)
    ensures RestKept(before, before, chosen, id) && Below(before, id + 1)
    ensures Backup(chosen) in before ==>
              var after := Renamed(before, Backup(chosen), Target);
              && RestKept(before, after, chosen, id) && Below(after, id + 1)
              && after - {Target} == before - {Target, Backup(chosen)}
  {
  }

  lemma RestKeptBelow(before: Trees, after: Trees, chosen: nat, id: nat)
    requires RestKept(before, after, chosen, id) && Below(before, id)
    ensures Below(after, id + 1)
  {
    forall n | n in after && n != Target
      ensures n.id < id + 1
    {
      assert n in before || n == Displaced(id);
    }
  }

  /** The rollback of an installed release, with its handler. */
  method RollBackInstalled(host: Host, chosen: nat, id: nat, expected: Inventory) returns (r: Exit)
    requires Target in host.trees && Backup(chosen) in host.trees && Displaced(id) !in host.trees && !host.reporting
    requires host.trees[Backup(chosen)].files == expected
    requires forall n | n in host.trees && n != Target && n != Backup(chosen) :: Bare(host.trees, n)
    requires !Clash(host.trees, Target, Backup(chosen)) ==> host.live == Together(host.trees, chosen)
    modifies host`trees, host`disturbed, host`reporting, host`effects
    ensures RestKept(old(host.trees), host.trees, chosen, id)
    ensures r.Aborted? || r.n in {0, 1}
    ensures r == Code(0) ==> host.reporting
    ensures host.reporting ==> RolledBack(old(host.trees), host.trees, chosen)
    ensures r == Code(1) && !host.reporting ==> host.trees == Undone(old(host.trees), chosen)
    ensures old(host.disturbed) ==> host.disturbed
    ensures !host.disturbed && !Clash(old(host.trees), Target, Backup(chosen)) ==> r == Code(0)
    ensures if Clash(old(host.trees), Target, Backup(chosen)) then host.trees == old(host.trees) && r == Aborted
            else Exactly(host.trees, host.live) && (r.Code? ==> Idle(host.trees, host.live))
  {
    hide Exactly, Undone;
    ghost var before := host.trees;
    ghost var clash := Clash(before, Target, Backup(chosen));
    ghost var rest, fa := before - {Target, Backup(chosen)}, before[Target].files;
    if !clash {
      StartingPair(before, chosen);
    }
    var s := Exchange(host, chosen, id, rest, fa, expected);
    if s.Done? {
      r := Code(0);
    } else if s.Crashed? {
      r := Aborted;
    } else {
      r := Compensate(host, chosen, id, rest, fa, expected);
    }
    if !clash {
      RestIsKept(before, host.trees, rest, chosen, id, fa, expected, host.live);
      if Swapped(host.trees, rest, chosen, id, expected, host.live) {
        SwappedConserves(host.trees, rest, chosen, id, expected, host.live);
      } else {
        SwappingConserves(host.trees, rest, chosen, id, fa, expected, host.live);
        if r.Code? {
          UndoneIsUnique(before, host.trees, chosen, host.live);
        }
      }
    }
  }

  /** Once all state is back in the active release, the trees are as they were, but for
      state that the backup had. */
  lemma UndoneIsUnique(before: Trees, ts: Trees, chosen: nat, live: State)
    requires Target in before && Backup(chosen) in before && !Clash(before, Target, Backup(chosen))
    requires forall n | n in before && n != Target && n != Backup(chosen) :: Bare(before, n)
    requires live == Together(before, chosen)
    requires Pair(ts, before - {Target, Backup(chosen)}, Target, before[Target].files, Backup(chosen),
                  before[Backup(chosen)].files, live)
    requires ts[Target].mutables == live
    ensures ts == Undone(before, chosen) && Idle(ts, live)
  {
    StartingPair(before, chosen);
    var rest := before - {Target, Backup(chosen)};
    PairUnique(ts, Undone(before, chosen), rest, Target, before[Target].files, Backup(chosen),
               before[Backup(chosen)].files, live);
    assert forall n | n in ts && n != Target && n != Backup(chosen) :: n in rest;
  }

  /** Rollback to the backup `chosen`, the newest by time stamp; the backup may hold state
      that an interrupted rollback has left there. A failure that is not the process dying
      leaves every tree as it was, but for the target having all state, with two exceptions:
      nothing is undone when only the final report fails, nor, when no release was
      installed, once the backup is in place. */
  method RollBack(host: Host, chosen: nat) returns (r: Exit)
    requires Ready(host, chosen)
    modifies host`trees, host`live, host`disturbed, host`reporting, host`effects, host`nextId
    ensures Below(host.trees, host.nextId) && host.nextId == old(host.nextId) + 1
    ensures RestKept(old(host.trees), host.trees, chosen, old(host.nextId))
    ensures r.Aborted? || r.n in {0, 1}
    ensures r == Code(0) ==> host.reporting && old(host.Clear())
    ensures host.reporting ==> RolledBack(old(host.trees), host.trees, chosen)
    ensures r == Code(1) && !host.reporting ==>
              || host.trees == (if old(host.Clear()) then Undone(old(host.trees), chosen) else old(host.trees))
              || (Target !in old(host.trees) && RolledBack(old(host.trees), host.trees, chosen))
    ensures !host.disturbed ==>
              (r == Code(0) <==> && old(host.Clear()) && Backup(chosen) in old(host.trees)
                                 && !Clash(old(host.trees), Target, Backup(chosen)))
    // Even when the process dies, all state is where it can be found.
    ensures if old(host.Clear()) && !Clash(old(host.trees), Target, Backup(chosen)) then
              && host.live == Together(old(host.trees), chosen) && Exactly(host.trees, host.live)
              && (r.Code? && Target in host.trees ==> host.Sound())
            else
              host.trees == old(host.trees) && host.live == old(host.live) && (old(host.Clear()) ==> r == Aborted)
  {
    hide Exactly, RestKept, Below;
    host.disturbed, host.reporting := false, false;
    var id := host.nextId;
    host.nextId := id + 1;
    FreshNames(host.trees, id);
    ghost var before := host.trees;
    RestKeptByRename(before, chosen, id);
    if host.Clear() && !Clash(before, Target, Backup(chosen)) {
      host.live := Together(before, chosen);
      StartingExactly(before, chosen);
    }
    if Backup(chosen) !in host.trees || host.journal.Some? || host.locked {
      return Code(1);
    }
    var s := host.Step();
    if s.IsFailure() {
      return Aborted;
    }
    var expected := host.trees[Backup(chosen)].files;
    if Target in host.trees {
      r := RollBackInstalled(host, chosen, id, expected);
      RestKeptBelow(before, host.trees, chosen, id);
    } else {
      s := PutInPlace(host, chosen, expected);
      if Target in host.trees {
        OneHolderConserves(host.trees, Target, host.live);
      }
      r := if s.Done? then Code(0) else if s.Raised? then Code(1) else Aborted;
    }
  }
}
