/** The restart budget of the runtime launcher: at most so many relaunches in any window. */
module RestartBudget {

  /** The accepted relaunches that are still inside the window at `now`. */
  function Recent(accepted: seq<int>, now: int, window: int): (n: nat)
    ensures n <= |accepted|
  {
    if accepted == [] then 0
    else
      var last := |accepted| - 1;
      Recent(accepted[..last], now, window) + if now - accepted[last] < window then 1 else 0
  }

  ghost predicate Ordered(times: seq<int>, now: int) {
    && (forall i, j | 0 <= i < j < |times| :: times[i] <= times[j])
    && (forall i | 0 <= i < |times| :: times[i] <= now)
  }

  /** A relaunch and the one `m` before it are at least a window apart. */
  ghost predicate Spread(accepted: seq<int>, m: nat, window: int) {
    forall i, j | 0 <= i && j == i + m && j < |accepted| :: accepted[j] - accepted[i] >= window
  }

  /** Relaunches that are spread never are more than `m` in a window, whenever one looks. */
  lemma {:induction false} SpreadBoundsEveryWindow(accepted: seq<int>, m: nat, window: int, from: int, now: int)
    requires Spread(accepted, m, window) && Ordered(accepted, now)
    requires m > 0
    ensures |Between(accepted, from, from + window)| <= m
  {
    var inside := Between(accepted, from, from + window);
    if inside != {} {
      var low := Lowest(inside);
      assert low + m < |accepted| ==> accepted[low + m] - accepted[low] >= window;
      FewInRange(inside, low, m);
    }
  }

  function Between(accepted: seq<int>, from: int, until: int): set<nat> {
    set i: nat | i < |accepted| && from <= accepted[i] < until
  }

  lemma {:induction false} FewInRange(s: set<nat>, low: nat, m: nat)
    requires forall i | i in s :: low <= i < low + m
    ensures |s| <= m
    decreases m
  {
    if m > 0 {
      FewInRange(s - {low + m - 1}, low, m - 1);
    } else {
      assert s == {};
    }
  }

  lemma {:induction false} Lowest(s: set<nat>) returns (m: nat)
    requires s != {}
    ensures m in s && forall x | x in s :: m <= x
    decreases |s|
  {
    m :| m in s;
    if s != {m} {
      var k := Lowest(s - {m});
      assert forall x | x in s :: x == m || x in s - {m};
      m := if k < m then k else m;
    }
  }

  /** With the older relaunches outside the window and the newer inside, the recent ones are
      the newer ones. */
  lemma {:induction false} RecentIsSuffix(accepted: seq<int>, p: nat, now: int, window: int)
    requires p <= |accepted|
    requires forall i | 0 <= i < p :: now - accepted[i] >= window
    requires forall i | p <= i < |accepted| :: now - accepted[i] < window
    ensures Recent(accepted, now, window) == |accepted| - p
  {
    if accepted != [] {
      var init := accepted[..|accepted| - 1];
      RecentIsSuffix(init, if p < |accepted| then p else p - 1, now, window);
    }
  }

  datatype Event = Launched | Relaunch(time: int) | Exhausted(time: int)

  /** The times at which a relaunch was accepted. */
  function Accepted(log: seq<Event>): seq<int> {
    if log == [] then []
    else
      var last := log[|log| - 1];
      Accepted(log[..|log| - 1]) + if last.Relaunch? then [last.time] else []
  }

  /** Whether `e` can follow `log`: a command is launched at the beginning or after an
      accepted relaunch; the budget is exhausted exactly when it is zero or used up. */
  ghost predicate Follows(log: seq<Event>, e: Event, m: nat, window: int) {
    match e
    case Launched => log == [] || log[|log| - 1].Relaunch?
    case Relaunch(t) => log != [] && log[|log| - 1].Launched? && m > 0 && Recent(Accepted(log), t, window) < m
    case Exhausted(t) => log != [] && log[|log| - 1].Launched? && (m == 0 || Recent(Accepted(log), t, window) >= m)
  }

  ghost predicate Lawful(log: seq<Event>, m: nat, window: int) {
    log != [] ==> Lawful(log[..|log| - 1], m, window) && Follows(log[..|log| - 1], log[|log| - 1], m, window)
  }

  lemma Extend(log: seq<Event>, e: Event, m: nat, window: int)
    requires Lawful(log, m, window) && Follows(log, e, m, window)
    ensures Lawful(log + [e], m, window)
    ensures Accepted(log + [e]) == if e.Relaunch? then Accepted(log) + [e.time] else Accepted(log)
  {
    assert (log + [e])[..|log|] == log;
    assert Accepted(log) + [] == Accepted(log);
  }

  /** Nothing happens after the budget is exhausted. */
  lemma {:induction false} ExhaustionIsLast(log: seq<Event>, m: nat, window: int, k: nat)
    requires Lawful(log, m, window) && k < |log| && log[k].Exhausted?
    ensures k == |log| - 1
  {
    if k < |log| - 1 {
      ExhaustionIsLast(log[..|log| - 1], m, window, k);
    }
  }

  /** The part of the accepted relaunches that is still inside the window: the deque. */
  ghost predicate Inside(restarts: seq<int>, accepted: seq<int>, now: int, window: int) {
    && |restarts| <= |accepted| && restarts == accepted[|accepted| - |restarts|..]
    && forall i | 0 <= i < |accepted| - |restarts| :: now - accepted[i] >= window
  }

  /** Pops the front while it is out of the window. */
  method Prune(deque: seq<int>, ghost accepted: seq<int>, ghost before: int, now: int, window: int)
    returns (restarts: seq<int>)
    requires Ordered(accepted, before) && before <= now && Inside(deque, accepted, before, window)
    ensures Ordered(accepted, now)
    ensures Inside(restarts, accepted, now, window) && |restarts| == Recent(accepted, now, window)
  {
    restarts := deque;
    while restarts != [] && now - restarts[0] >= window
      invariant Inside(restarts, accepted, now, window)
    {
      restarts := restarts[1..];
    }
    RecentIsSuffix(accepted, |accepted| - |restarts|, now, window);
  }

  lemma SpreadGrows(accepted: seq<int>, m: nat, window: int, now: int)
    requires Spread(accepted, m, window) && Ordered(accepted, now) && m > 0 && Recent(accepted, now, window) < m
    ensures Spread(accepted + [now], m, window) && Ordered(accepted + [now], now)
  {
    if |accepted| >= m && now - accepted[|accepted| - m] < window {
      RecentAtLeast(accepted, m, now, window);
    }
  }

  lemma {:induction false} RecentAtLeast(accepted: seq<int>, k: nat, now: int, window: int)
    requires k <= |accepted| && Ordered(accepted, now)
    requires k > 0 ==> now - accepted[|accepted| - k] < window
    ensures Recent(accepted, now, window) >= k
  {
    if k > 0 {
      RecentAtLeast(accepted[..|accepted| - 1], k - 1, now, window);
    }
  }

  /** What the launcher keeps: the deque holds the accepted relaunches inside the window. */
  ghost predicate Keeps(log: seq<Event>, restarts: seq<int>, now: int, m: nat, window: int) {
    && Lawful(log, m, window)
    && Spread(Accepted(log), m, window) && Ordered(Accepted(log), now) && Inside(restarts, Accepted(log), now, window)
  }

  /** A launch or the exhaustion leaves the deque as it is. */
  lemma KeepsNote(log: seq<Event>, e: Event, restarts: seq<int>, now: int, m: nat, window: int)
    requires Keeps(log, restarts, now, m, window) && Follows(log, e, m, window) && !e.Relaunch?
    ensures Keeps(log + [e], restarts, now, m, window)
  {
    hide Follows, Spread, Ordered, Inside, Lawful, Accepted;
    Extend(log, e, m, window);
  }

  lemma KeepsRelaunch(log: seq<Event>, restarts: seq<int>, now: int, m: nat, window: int)
    requires Keeps(log, restarts, now, m, window) && Follows(log, Relaunch(now), m, window)
    ensures Keeps(log + [Relaunch(now)], restarts + [now], now, m, window)
  {
    hide Spread, Ordered, Lawful, Accepted;
    Extend(log, Relaunch(now), m, window);
    SpreadGrows(Accepted(log), m, window, now);
  }

  lemma NothingToKeep(now: int, m: nat, window: int)
    ensures Keeps([], [], now, m, window)
  {
  }

  function AtLeast(low: int, x: int): (r: int)
    ensures r >= low
  {
    if x < low then low else x
  }

  /** What the outside world does in one round: whether the stop flag is set while the command
      runs, what the clock says when it has ended, and whether the flag is set after that. */
  datatype Turn = Turn(stopsIt: bool, clock: int, stopsThen: bool)

  /** The launches, by counting the relaunches inside the window. */
  function Rounds(turns: seq<Turn>, log: seq<Event>, now: int, m: nat, window: int): seq<Event> {
    if turns == [] then log
    else
      var launched := log + [Launched];
      if turns[0].stopsIt then launched
      else
        var ended := AtLeast(now, turns[0].clock);
        if m == 0 || Recent(Accepted(launched), ended, window) >= m then launched + [Exhausted(ended)]
        else
          var relaunched := launched + [Relaunch(ended)];
          if turns[0].stopsThen then relaunched else Rounds(turns[1..], relaunched, ended, m, window)
  }

  class Launcher {
    var stopped: bool
    var exhausted: bool
    ghost var log: seq<Event>

    constructor ()
      ensures !stopped && !exhausted && log == []
    {
      stopped, exhausted, log := false, false, [];
    }

    /** After the command has ended: the relaunch is accepted or the budget is exhausted. */
    method Account(deque: seq<int>, before: int, clock: int, m: nat, window: int) returns (restarts: seq<int>)
      requires Keeps(log, deque, before, m, window) && before <= clock
      requires log != [] && log[|log| - 1].Launched? && !exhausted
      modifies `log, `exhausted
      ensures Keeps(log, restarts, clock, m, window)
      ensures log == old(log) + [if exhausted then Exhausted(clock) else Relaunch(clock)]
      ensures exhausted <==> m == 0 || Recent(old(Accepted(log)), clock, window) >= m
    {
      hide Lawful, Spread, Ordered, Inside, Accepted;
      restarts := Prune(deque, Accepted(log), before, clock, window);
      assert Keeps(log, restarts, clock, m, window);
      hide Keeps;
      if m == 0 || |restarts| >= m {
        KeepsNote(log, Exhausted(clock), restarts, clock, m, window);
        log := log + [Exhausted(clock)];
        exhausted := true;
      } else {
        KeepsRelaunch(log, restarts, clock, m, window);
        log := log + [Relaunch(clock)];
        restarts := restarts + [clock];
      }
    }

    /** Launches the command and waits for its end; another thread may set the stop flag. */
    method Round(turn: Turn, deque: seq<int>, before: int, m: nat, window: int) returns (restarts: seq<int>, now: int)
      requires Keeps(log, deque, before, m, window)
      requires !stopped && !exhausted && (log == [] || log[|log| - 1].Relaunch?)
      modifies this
      ensures Keeps(log, restarts, now, m, window)
      ensures if turn.stopsIt then stopped && !exhausted && log == old(log) + [Launched] && now == before
              else
                && now == AtLeast(before, turn.clock)
                && log == old(log) + [Launched] + [if exhausted then Exhausted(now) else Relaunch(now)]
                && (exhausted <==> m == 0 || Recent(Accepted(old(log) + [Launched]), now, window) >= m)
                && stopped == (turn.stopsThen && !exhausted)
    {
      hide Keeps;
      restarts, now := deque, before;
      KeepsNote(log, Launched, restarts, now, m, window);
      log := log + [Launched];
      stopped := turn.stopsIt;
      if !stopped {
        now := AtLeast(before, turn.clock);
        restarts := Account(restarts, before, now, m, window);
        stopped := !exhausted && turn.stopsThen;
      }
    }

    /** Launches the command and relaunches it while nobody stops it, the budget lasts and
        there are turns. The clock does not go back. The deque does what counting would. */
    method Launch(maximumRestarts: int, restartWindow: int, start: int, turns: seq<Turn>)
      requires !exhausted && log == []
      modifies this
      ensures log == if old(stopped) then []
                     else Rounds(turns, [], start, AtLeast(0, maximumRestarts), AtLeast(1, restartWindow))
      ensures Lawful(log, AtLeast(0, maximumRestarts), AtLeast(1, restartWindow))
      ensures Spread(Accepted(log), AtLeast(0, maximumRestarts), AtLeast(1, restartWindow))
      ensures exists now :: Ordered(Accepted(log), now)
      ensures exhausted <==> log != [] && log[|log| - 1].Exhausted?
    {
      hide Lawful, Spread, Accepted, Ordered, Inside, AtLeast, Recent;
      var m, window := AtLeast(0, maximumRestarts), AtLeast(1, restartWindow);
      var restarts: seq<int>, now, turn := [], start, 0;
      NothingToKeep(now, m, window);
      assert turns[0..] == turns;
      while !stopped && !exhausted && turn < |turns|
        invariant turn <= |turns| && Keeps(log, restarts, now, m, window)
        invariant exhausted <==> log != [] && log[|log| - 1].Exhausted?
        invariant !stopped && !exhausted ==> log == [] || log[|log| - 1].Relaunch?
        invariant old(stopped) ==> stopped && log == []
        invariant !old(stopped) ==>
                  Rounds(turns, [], start, m, window) ==
                  if stopped || exhausted then log else Rounds(turns[turn..], log, now, m, window)
        decreases |turns| - turn
      {
        assert turns[turn..][0] == turns[turn] && turns[turn..][1..] == turns[turn + 1..];
        restarts, now := Round(turns[turn], restarts, now, m, window);
        turn := turn + 1;
      }
    }
  }
}
