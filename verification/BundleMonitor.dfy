/** The debounce of the bundle repository monitor: a reload waits until the repositories
    have looked the same for several scans. */
module BundleMonitor {

  /** Path to modification time and size. */
  datatype Snapshot = Snapshot(files: map<string, (int, nat)>)

  /** One completed scan: what it saw, what was applied before it, and whether a reload was
      attempted and returned. */
  datatype Turn = Turn(scan: Snapshot, before: Snapshot, attempted: bool, loaded: bool)

  /** The snapshot that is applied after some turns: the initial one, or the last one whose
      reload returned. */
  function Applied(initial: Snapshot, turns: seq<Turn>): Snapshot {
    if turns == [] then initial
    else
      var last := turns[|turns| - 1];
      if last.loaded then last.scan else Applied(initial, turns[..|turns| - 1])
  }

  /** How many of the last scans saw the same as the very last. */
  function Run(turns: seq<Turn>): (n: nat)
    ensures n <= |turns| && (turns != [] ==> n > 0)
    ensures forall k | |turns| - n <= k < |turns| :: turns[k].scan == turns[|turns| - 1].scan
    ensures 0 < n < |turns| ==> turns[|turns| - n - 1].scan != turns[|turns| - 1].scan
  {
    if turns == [] then 0
    else if |turns| > 1 && turns[|turns| - 2].scan == turns[|turns| - 1].scan then 1 + Run(turns[..|turns| - 1])
    else 1
  }

  /** The last `count` scans are equal to each other and differ from what is applied. */
  ghost predicate Due(turns: seq<Turn>, count: nat) {
    && 0 < count <= |turns|
    && turns[|turns| - 1].scan != turns[|turns| - 1].before
    && forall k | |turns| - count <= k < |turns| :: turns[k].scan == turns[|turns| - 1].scan
  }

  lemma DueByRun(turns: seq<Turn>, count: nat)
    requires turns != [] && count > 0
    ensures Due(turns, count) <==> turns[|turns| - 1].scan != turns[|turns| - 1].before && Run(turns) >= count
  {
    var n := Run(turns);
    assert n < |turns| ==> turns[|turns| - n - 1].scan != turns[|turns| - 1].scan;
  }

  /** A history in which reloads are attempted exactly when they are due. */
  ghost predicate Lawful(initial: Snapshot, turns: seq<Turn>, count: nat) {
    forall k | 0 <= k < |turns| ::
      && turns[k].before == Applied(initial, turns[..k])
      && (turns[k].attempted <==> Due(turns[..k + 1], count))
      && (turns[k].loaded ==> turns[k].attempted)
  }

  lemma Extend(initial: Snapshot, turns: seq<Turn>, count: nat, t: Turn)
    requires Lawful(initial, turns, count) && count > 0
    requires t.before == Applied(initial, turns) && (t.loaded ==> t.attempted)
    requires t.attempted <==> t.scan != t.before && Run(turns + [t]) >= count
    ensures Lawful(initial, turns + [t], count)
    ensures Applied(initial, turns + [t]) == if t.loaded then t.scan else Applied(initial, turns)
  {
    var more := turns + [t];
    DueByRun(more, count);
    forall k | 0 <= k < |more|
      ensures more[k].before == Applied(initial, more[..k]) && (more[k].attempted <==> Due(more[..k + 1], count))
      ensures more[k].loaded ==> more[k].attempted
    {
      if k < |turns| {
        assert more[..k] == turns[..k] && more[..k + 1] == turns[..k + 1];
      } else {
        assert more[..k] == turns && more[..k + 1] == more;
      }
    }
    assert more[..|turns|] == turns;
  }

  lemma RunExtends(turns: seq<Turn>, t: Turn)
    ensures Run(turns + [t]) == if turns != [] && turns[|turns| - 1].scan == t.scan then 1 + Run(turns) else 1
  {
    assert (turns + [t])[..|turns|] == turns;
  }

  /** What the monitor's variables say of its history: the counter is the length of the last
      run of equal scans, unless they saw what is applied. */
  ghost predicate Tracks(initial: Snapshot, turns: seq<Turn>, count: nat, applied: Snapshot, pending: Snapshot,
                         stable: nat) {
    && Lawful(initial, turns, count)
    && applied == Applied(initial, turns)
    && if turns == [] || turns[|turns| - 1].scan == applied then stable == 0
       else stable == Run(turns) && pending == turns[|turns| - 1].scan
  }

  /** The counter after a scan. */
  function Counted(current: Snapshot, applied: Snapshot, pending: Snapshot, stable: nat): nat {
    if current == applied then 0 else if stable == 0 || current != pending then 1 else stable + 1
  }

  lemma TracksOn(initial: Snapshot, turns: seq<Turn>, count: nat, applied: Snapshot, pending: Snapshot, stable: nat,
                 t: Turn)
    requires Tracks(initial, turns, count, applied, pending, stable) && count >= 2
    requires t.before == applied && (t.loaded ==> t.attempted)
    requires t.attempted <==> Counted(t.scan, applied, pending, stable) >= count
    ensures Tracks(initial, turns + [t], count, if t.loaded then t.scan else applied, t.scan,
                   if t.loaded then 0 else Counted(t.scan, applied, pending, stable))
    ensures t.attempted <==> Due(turns + [t], count)
  {
    hide Due, Lawful;
    RunExtends(turns, t);
    Extend(initial, turns, count, t);
    DueByRun(turns + [t], count);
  }

  /** `pending` only matters while the counter runs. */
  lemma PendingIsFree(initial: Snapshot, turns: seq<Turn>, count: nat, applied: Snapshot, pending: Snapshot,
                      other: Snapshot, stable: nat)
    requires Tracks(initial, turns, count, applied, pending, stable) && (stable > 0 ==> other == pending)
    ensures Tracks(initial, turns, count, applied, other, stable)
  {
  }

  /** Two attempts with a reload that returned in between are at least `count` scans apart. */
  lemma ReloadsAreApart(initial: Snapshot, turns: seq<Turn>, count: nat, i: nat, j: nat)
    requires Lawful(initial, turns, count) && i < j < |turns|
    requires turns[i].loaded && turns[j].attempted && forall k | i < k < j :: !turns[k].loaded
    ensures j - i >= count
  {
    AppliedSince(initial, turns, i, j);
    assert Due(turns[..j + 1], count);
    var t := turns[..j + 1];
    assert t[i] == turns[i] && t[j] == turns[j];
  }

  lemma {:induction false} AppliedSince(initial: Snapshot, turns: seq<Turn>, i: nat, j: nat)
    requires i < j <= |turns| && turns[i].loaded && forall k | i < k < j :: !turns[k].loaded
    ensures Applied(initial, turns[..j]) == turns[i].scan
  {
    if j == i + 1 {
      assert turns[..j][i] == turns[i];
    } else {
      AppliedSince(initial, turns, i, j - 1);
      assert turns[..j][..j - 1] == turns[..j - 1] && turns[..j][j - 1] == turns[j - 1];
    }
  }

  /** What a scan comes to, and whether a reload would succeed after it. */
  datatype Scan = Threw | Saw(snapshot: Snapshot, works: bool)

  function Completed(scans: seq<Scan>): (r: seq<Scan>)
    ensures forall s | s in r :: s.Saw?
  {
    if scans == [] then []
    else
      var last := scans[|scans| - 1];
      Completed(scans[..|scans| - 1]) + if last.Saw? then [last] else []
  }

  /** Each turn is that of one completed scan, in order. */
  ghost predicate Answers(turns: seq<Turn>, scans: seq<Scan>) {
    && |turns| == |scans|
    && forall i | 0 <= i < |turns| ::
         && scans[i].Saw? && turns[i].scan == scans[i].snapshot
         && (turns[i].loaded <==> turns[i].attempted && scans[i].works)
  }

  lemma AnswersMore(turns: seq<Turn>, scans: seq<Scan>, t: Turn, s: Scan)
    requires Answers(turns, scans) && s.Saw? && t.scan == s.snapshot && (t.loaded <==> t.attempted && s.works)
    ensures Answers(turns + [t], scans + [s])
  {
  }

  lemma NoAnswers(scans: seq<Scan>)
    ensures Answers([], Completed(scans[..0]))
  {
  }

  lemma OneMore(scans: seq<Scan>, k: nat)
    requires k < |scans|
    ensures Completed(scans[..k + 1]) ==
            if scans[k].Saw? then Completed(scans[..k]) + [scans[k]] else Completed(scans[..k])
  {
    assert scans[..k + 1][..k] == scans[..k];
  }

  class BundleManager {
    const stableScanCount: nat
    var applied: Snapshot
    var pending: Snapshot
    var stableScans: nat
    var successfulReloads: nat
    var failedReloads: nat
    ghost var initial: Snapshot
    ghost var turns: seq<Turn>

    constructor (stableScanCount: nat, first: Snapshot)
      ensures Valid() && initial == first && turns == []
      ensures this.stableScanCount == if stableScanCount < 2 then 2 else stableScanCount
    {
      this.stableScanCount := if stableScanCount < 2 then 2 else stableScanCount;
      applied, pending, stableScans, successfulReloads, failedReloads := first, Snapshot(map[]), 0, 0, 0;
      initial, turns := first, [];
    }

    ghost predicate Valid()
      reads this
    {
      stableScanCount >= 2 && Tracks(initial, turns, stableScanCount, applied, pending, stableScans)
    }

    /** Stops, unloads and loads all bundles; any of it may throw. */
    method Reload(works: bool) returns (ok: bool)
      modifies `successfulReloads
      ensures ok == works && successfulReloads == old(successfulReloads) + if ok then 1 else 0
    {
      ok := works;
      if ok {
        successfulReloads := successfulReloads + 1;
      }
    }

    /** The body of the monitor's loop, after a scan that returned. */
    method Compare(current: Snapshot, works: bool) returns (attempted: bool, loaded: bool)
      requires stableScanCount >= 2
      modifies `applied, `pending, `stableScans, `successfulReloads, `failedReloads
      ensures loaded <==> attempted && works
      ensures applied == if loaded then current else old(applied)
      ensures var n := old(Counted(current, applied, pending, stableScans));
              && (attempted <==> n >= stableScanCount)
              && stableScans == (if loaded then 0 else n)
              && (stableScans > 0 ==> pending == current)
      ensures successfulReloads == old(successfulReloads) + if loaded then 1 else 0
      ensures failedReloads == old(failedReloads) + if attempted && !loaded then 1 else 0
    {
      if current == applied {
        stableScans := 0;
        pending := Snapshot(map[]);
        return false, false;
      }
      if stableScans == 0 || current != pending {
        pending := current;
        stableScans := 1;
        return false, false;
      }
      stableScans := stableScans + 1;
      if stableScans < stableScanCount {
        return false, false;
      }
      attempted := true;
      loaded := Reload(works);
      if loaded {
        applied := current;
        pending := Snapshot(map[]);
        stableScans := 0;
      } else {
        failedReloads := failedReloads + 1;
      }
    }

    /** One turn of the monitor. */
    method Observe(current: Snapshot, works: bool) returns (ghost t: Turn)
      requires Valid()
      modifies this
      ensures Valid() && initial == old(initial)
      ensures turns == old(turns) + [t] && t.scan == current && t.before == old(applied)
      ensures t.attempted <==> Due(turns, stableScanCount)
      ensures t.loaded <==> t.attempted && works
      ensures applied == if t.loaded then current else old(applied)
      ensures successfulReloads == old(successfulReloads) + if t.loaded then 1 else 0
      ensures failedReloads == old(failedReloads) + if t.attempted && !t.loaded then 1 else 0
    {
      hide Tracks, Due;
      var attempted, loaded := Compare(current, works);
      t := Turn(current, old(applied), attempted, loaded);
      TracksOn(initial, turns, stableScanCount, old(applied), old(pending), old(stableScans), t);
      PendingIsFree(initial, turns + [t], stableScanCount, applied, current, pending, stableScans);
      turns := turns + [t];
    }

    /** A scan that throws only counts as a failure. */
    method ScanFailed()
      requires Valid()
      modifies `failedReloads
      ensures Valid()
      ensures failedReloads == old(failedReloads) + 1
    {
      failedReloads := failedReloads + 1;
    }

    /** The monitor until the stop event: each completed scan is one turn, and a reload is
        attempted in it when one is due. */
    method Monitor(scans: seq<Scan>)
      requires Valid()
      modifies this
      ensures Valid() && initial == old(initial)
      ensures old(turns) <= turns && Answers(turns[|old(turns)|..], Completed(scans))
    {
      hide Tracks, Answers, Completed, Due;
      ghost var start := turns;
      assert turns[|start|..] == [];
      NoAnswers(scans);
      for k := 0 to |scans|
        invariant Valid() && initial == old(initial)
        invariant start <= turns && Answers(turns[|start|..], Completed(scans[..k]))
      {
        OneMore(scans, k);
        ghost var before := turns;
        match scans[k]
        case Threw =>
          ScanFailed();
        case Saw(current, works) =>
          ghost var t := Observe(current, works);
          AnswersMore(before[|start|..], Completed(scans[..k]), t, scans[k]);
          assert turns[|start|..] == before[|start|..] + [t];
      }
      assert scans[..|scans|] == scans;
    }
  }
}
