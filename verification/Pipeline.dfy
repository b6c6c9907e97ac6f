/** Checkpointed stages of the release pipeline: one run and its resumes. */
module Pipeline {
  import opened Faults

  // A digest stands for the file's contents.
  datatype Stage = Stage(id: string, requiredInputs: seq<string>, requiredOutputs: seq<string>)
  datatype Plan = Plan(stages: seq<Stage>)
  datatype StageStatus = Running | Passed | Failed | TimedOut
  datatype Output = Output(path: string, digest: int)
  datatype Record = Record(id: string, status: StageStatus, outputs: seq<Output>)
  datatype RunStatus = InProgress | Stopped | Complete
  datatype State = State(plan: Plan, source: int, status: RunStatus, stages: seq<Record>)

  type Files = map<string, int>

  /** What happened over all attempts: a command was started, a stage was recorded as passed. */
  datatype Event = Start(index: nat) | Pass(index: nat)

  predicate DistinctIds(plan: Plan) {
    forall i, j | 0 <= i < j < |plan.stages| :: plan.stages[i].id != plan.stages[j].id
  }

  predicate Exist(paths: seq<string>, files: Files) {
    forall p | p in paths :: p in files
  }

  function Evidence(paths: seq<string>, files: Files): seq<Output>
    requires Exist(paths, files)
  {
    seq(|paths|, i requires 0 <= i < |paths| => Output(paths[i], files[paths[i]]))
  }

  predicate Unchanged(outputs: seq<Output>, files: Files) {
    forall o | o in outputs :: o.path in files && files[o.path] == o.digest
  }

  /** The records are a prefix of the plan, passed up to the last one. */
  ghost predicate Prefix(st: State) {
    && DistinctIds(st.plan)
    && |st.stages| <= |st.plan.stages|
    && (forall i | 0 <= i < |st.stages| :: st.stages[i].id == st.plan.stages[i].id)
    && (forall i | 0 <= i < |st.stages| - 1 :: st.stages[i].status.Passed?)
    && (st.status.Complete? ==> AllPassed(st))
  }

  predicate AllPassed(st: State) {
    |st.stages| == |st.plan.stages| && forall i | 0 <= i < |st.stages| :: st.stages[i].status.Passed?
  }

  predicate IsPassed(saved: Option<State>, i: nat) {
    saved.Some? && i < |saved.value.stages| && saved.value.stages[i].status.Passed?
  }

  /** Whether `e` can come after `log`: a command starts only when every earlier stage has
      passed and its own has not; a stage passes directly after its command. */
  ghost predicate Follows(log: seq<Event>, e: Event) {
    match e
    case Start(i) => Pass(i) !in log && forall j: nat | j < i :: Pass(j) in log
    case Pass(i) => log != [] && log[|log| - 1] == Start(i)
  }

  ghost predicate Orderly(log: seq<Event>) {
    log != [] ==> Orderly(log[..|log| - 1]) && Follows(log[..|log| - 1], log[|log| - 1])
  }

  ghost predicate Reflects(log: seq<Event>, saved: Option<State>) {
    forall i: nat :: Pass(i) in log <==> IsPassed(saved, i)
  }

  lemma NextKeepsOrder(log: seq<Event>, e: Event)
    requires Orderly(log) && Follows(log, e)
    ensures Orderly(log + [e])
  {
    assert (log + [e])[..|log|] == log;
  }

  lemma {:induction false} PrefixIsOrderly(log: seq<Event>, n: nat)
    requires Orderly(log) && n < |log|
    ensures Orderly(log[..n]) && Follows(log[..n], log[n])
  {
    if n < |log| - 1 {
      PrefixIsOrderly(log[..|log| - 1], n);
      assert log[..|log| - 1][..n] == log[..n];
    }
  }

  /** Over a whole history: once a stage has passed, its command is never started again,
      and no stage passes twice. */
  lemma {:induction false} PassedNeverStarts(log: seq<Event>, a: nat, b: nat)
    requires Orderly(log) && a < b < |log| && log[a].Pass?
    ensures log[b] != Start(log[a].index) && log[b] != log[a]
  {
    PrefixIsOrderly(log, b);
    assert log[..b][a] == log[a];
    if a < b - 1 {
      PrefixIsOrderly(log, b - 1);
      assert log[..b - 1][a] == log[a];
    }
  }

  /** Before a command is started, every earlier stage was started and passed. */
  lemma EarlierStagesCameFirst(log: seq<Event>, b: nat, j: nat)
    requires Orderly(log) && b < |log| && log[b].Start? && j < log[b].index
    ensures exists a | 0 < a < b :: log[a - 1] == Start(j) && log[a] == Pass(j)
  {
    PrefixIsOrderly(log, b);
    assert Pass(j) in log[..b];
    var a :| 0 <= a < b && log[a] == Pass(j);
    PrefixIsOrderly(log, a);
    assert log[a - 1] == Start(j);
  }

  // -------- Looking records up --------

  function Existing(stages: seq<Record>): map<string, Record> {
    if stages == [] then map[]
    else Existing(stages[..|stages| - 1])[stages[|stages| - 1].id := stages[|stages| - 1]]
  }

  /** By its id the loop finds the record of the stage it is at. */
  lemma {:induction false} ExistingAt(plan: Plan, stages: seq<Record>, i: nat)
    requires DistinctIds(plan) && i < |plan.stages| && |stages| <= |plan.stages|
    requires forall k | 0 <= k < |stages| :: stages[k].id == plan.stages[k].id
    ensures plan.stages[i].id in Existing(stages) <==> i < |stages|
    ensures i < |stages| ==> Existing(stages)[plan.stages[i].id] == stages[i]
  {
    if stages != [] {
      ExistingAt(plan, stages[..|stages| - 1], i);
    }
  }

  function IndexOf(stages: seq<Record>, r: Record): (i: nat)
    requires r in stages
    ensures i < |stages| && stages[i] == r && r !in stages[..i]
  {
    if stages[0] == r then 0
    else
      assert stages[1..][IndexOf(stages[1..], r)] == r;
      1 + IndexOf(stages[1..], r)
  }

  lemma IndexOfRecord(st: State, i: nat)
    requires Prefix(st) && i < |st.stages|
    ensures IndexOf(st.stages, st.stages[i]) == i
  {
    var k := IndexOf(st.stages, st.stages[i]);
    assert st.stages[k].id == st.plan.stages[k].id;
  }

  /** How a command can end. */
  datatype Outcome = Exited(code: int) | Timeout | Failure(s: Status)

  class Runner {
    var saved: Option<State>        // the state file
    var files: Files                // under the build root
    ghost var log: seq<Event>
    // An effect failed, a command did not exit with 0, or a file that is needed is missing
    // or has changed.
    ghost var disturbed: bool

    constructor (files: Files)
      ensures Sound() && saved.None? && this.files == files && log == []
    {
      saved, this.files := None, files;
      log, disturbed := [], false;
    }

    ghost predicate Sound()
      reads `saved, `log
    {
      && (saved.Some? ==> Prefix(saved.value))
      && Orderly(log) && Reflects(log, saved)
    }

    method Step() returns (s: Status)
      modifies `disturbed
      ensures disturbed == (old(disturbed) || !s.Done?)
    {
      s := *;
      disturbed := disturbed || !s.Done?;
    }

    /** Digests of files that all must be there. */
    method FileEvidence(paths: seq<string>) returns (s: Status, outputs: seq<Output>)
      modifies `disturbed
      ensures s.Done? ==> Exist(paths, files) && outputs == Evidence(paths, files)
      ensures disturbed == (old(disturbed) || !s.Done?)
    {
      outputs := [];
      :- Step();
      for i := 0 to |paths|
        invariant Exist(paths[..i], files) && outputs == Evidence(paths[..i], files)
        invariant disturbed == old(disturbed)
      {
        if paths[i] !in files {
          disturbed := true;
          return Raised, outputs;
        }
        outputs := outputs + [Output(paths[i], files[paths[i]])];
        assert Exist(paths[..i + 1], files);
        assert outputs == Evidence(paths[..i + 1], files);
      }
      assert paths[..|paths|] == paths;
      s := Done;
    }

    /** The outputs of a stage that has passed must be what they were then. */
    method VerifyCompletedOutputs(outputs: seq<Output>) returns (s: Status)
      modifies `disturbed
      ensures s.Done? ==> Unchanged(outputs, files)
      ensures disturbed == (old(disturbed) || !s.Done?)
    {
      s := Done;
      :- Step();
      for i := 0 to |outputs|
        invariant Unchanged(outputs[..i], files)
        invariant disturbed == old(disturbed)
      {
        if !(outputs[i].path in files && files[outputs[i].path] == outputs[i].digest) {
          disturbed := true;
          return Raised;
        }
      }
    }

    /** Writes the state file, atomically; passed records stay. */
    method Save(st: State, ghost passed: Option<nat>) returns (s: Status)
      requires Sound() && Prefix(st)
      requires saved.Some? ==> st.plan == saved.value.plan && st.source == saved.value.source
      requires forall i: nat :: IsPassed(Some(st), i) <==> IsPassed(saved, i) || passed == Some(i)
      requires passed.Some? ==> log != [] && log[|log| - 1] == Start(passed.value)
      modifies `saved, `log, `disturbed
      ensures Sound()
      ensures disturbed == (old(disturbed) || !s.Done?)
      ensures saved == if s.Done? then Some(st) else old(saved)
      ensures log == if s.Done? && passed.Some? then old(log) + [Pass(passed.value)] else old(log)
    {
      s := Done;
      :- Step();
      saved := Some(st);
      if passed.Some? {
        NextKeepsOrder(log, Pass(passed.value));
        log := log + [Pass(passed.value)];
      }
      return Done;
    }

    /** Starts the command of stage `i`, which may do anything to the build tree. */
    method Run(ghost i: nat) returns (o: Outcome)
      requires saved.Some? && At(saved.value, i)
      modifies `files, `log, `disturbed
      ensures Sound()
      ensures o.Failure? ==> !o.s.Done?
      ensures disturbed == (old(disturbed) || o != Exited(0))
      ensures log == old(log) + [Start(i)]
    {
      assert forall j: nat | j < i :: IsPassed(saved, j);
      NextKeepsOrder(log, Start(i));
      log := log + [Start(i)];
      files := *;
      o := *;
      if o.Failure? && o.s.Done? {
        o := Exited(0);
      }
      disturbed := disturbed || o != Exited(0);
    }

    /** Stage `i` is next: all before it have passed and it has not. */
    ghost predicate At(st: State, i: nat)
      reads `saved, `log
    {
      && Sound() && saved == Some(st) && i < |st.plan.stages|
      && i <= |st.stages| <= i + 1
      && (forall k | 0 <= k < i :: st.stages[k].status.Passed?)
      && (i < |st.stages| ==> !st.stages[i].status.Passed?)
    }

    /** Writes the record of stage `i`, new or in place of the one of an earlier attempt. */
    method Note(state: State, i: nat, r: Record, status: RunStatus) returns (s: Status, st: State)
      requires At(state, i) && r.id == state.plan.stages[i].id && !status.Complete?
      requires r.status.Passed? ==> log != [] && log[|log| - 1] == Start(i)
      modifies `saved, `log, `disturbed
      ensures st == state.(stages := state.stages[..i] + [r], status := status)
      ensures saved == if s.Done? then Some(st) else old(saved)
      ensures Sound()
      ensures disturbed == (old(disturbed) || !s.Done?)
      ensures log == if s.Done? && r.status.Passed? then old(log) + [Pass(i)] else old(log)
      ensures !IsPassed(saved, i) ==> At(saved.value, i)
    {
      if i < |state.stages| {
        IndexOfRecord(state, i);
        st := state.(stages := state.stages[IndexOf(state.stages, state.stages[i]) := r], status := status);
      } else {
        st := state.(stages := state.stages + [r], status := status);
      }
      assert st.stages == state.stages[..i] + [r];
      s := Save(st, if r.status.Passed? then Some(i) else None);
    }

    /** Records how the command of stage `i` ended. */
    method Conclude(state: State, i: nat, o: Outcome) returns (s: Status, st: State, e: Option<Exit>)
      requires At(state, i) && log != [] && log[|log| - 1] == Start(i) && (o.Failure? ==> !o.s.Done?)
      modifies `saved, `log, `disturbed
      ensures Sound() && saved.Some?
      ensures old(disturbed) ==> disturbed
      ensures !disturbed && o == Exited(0) ==> s.Done? && e.None?
      ensures saved.value.plan == state.plan && saved.value.source == state.source
      ensures i <= |saved.value.stages| && saved.value.stages[..i] == state.stages[..i]
      ensures !IsPassed(saved, i) ==> At(saved.value, i) && log == old(log)
      ensures IsPassed(saved, i) ==>
                && o == Exited(0) && |saved.value.stages| == i + 1 && log == old(log) + [Pass(i)]
                && Exist(state.plan.stages[i].requiredOutputs, files)
                && saved.value.stages[i].outputs == Evidence(state.plan.stages[i].requiredOutputs, files)
      ensures s.Done? && e.None? ==> saved == Some(st) && IsPassed(saved, i)
      ensures e.Some? ==> e == Some(Code(1)) && !IsPassed(saved, i)
    {
      st, e := state, None;
      var stage := st.plan.stages[i];
      match o
      case Failure(t) =>
        s := t;
      case Timeout =>
        :- Step();
        s, st := Note(st, i, Record(stage.id, TimedOut, []), Stopped);
        e := if s.Done? then Some(Code(1)) else None;
      case Exited(code) =>
        :- Step();
        if code != 0 {
          s, st := Note(st, i, Record(stage.id, Failed, []), Stopped);
          e := if s.Done? then Some(Code(1)) else None;
        } else {
          var outputs;
          s, outputs := FileEvidence(stage.requiredOutputs);
          if s.Done? {
            s, st := Note(st, i, Record(stage.id, Passed, outputs), st.status);
          }
        }
    }

    /** Checks the inputs of stage `i`, notes that it is running and runs its command. */
    method Begin(state: State, i: nat) returns (s: Status, st: State, o: Outcome)
      requires At(state, i)
      modifies this
      ensures saved.Some? && At(saved.value, i)
      ensures saved.value.plan == state.plan && saved.value.source == state.source
      ensures saved.value.stages[..i] == state.stages[..i]
      ensures if s.Done? then saved == Some(st) && log == old(log) + [Start(i)]
              else log == old(log) && files == old(files)
      ensures s.Done? ==> Exist(state.plan.stages[i].requiredInputs, old(files))
      ensures s.Done? && o.Failure? ==> !o.s.Done?
      ensures old(disturbed) ==> disturbed
      ensures !disturbed ==> s.Done? && o == Exited(0)
    {
      st, o := state, Timeout;
      var _ :- FileEvidence(state.plan.stages[i].requiredInputs);
      s, st := Note(state, i, Record(state.plan.stages[i].id, Running, []), state.status);
      if s.Done? {
        o := Run(i);
      }
    }

    /** One stage that has not passed yet. An exit code ends the attempt. */
    method RunStage(state: State, i: nat) returns (s: Status, st: State, e: Option<Exit>)
      requires At(state, i)
      modifies this
      ensures Sound() && saved.Some?
      ensures old(disturbed) ==> disturbed
      ensures !disturbed ==> s.Done? && e.None?
      ensures saved.value.plan == state.plan && saved.value.source == state.source
      ensures i <= |saved.value.stages| && saved.value.stages[..i] == state.stages[..i]
      ensures log == old(log) || log == old(log) + [Start(i)] || log == old(log) + [Start(i)] + [Pass(i)]
      ensures log != old(log) ==> Exist(state.plan.stages[i].requiredInputs, old(files))
      ensures log == old(log) ==> files == old(files) && !s.Done?
      ensures IsPassed(saved, i) ==>
                && |saved.value.stages| == i + 1
                && Exist(state.plan.stages[i].requiredOutputs, files)
                && saved.value.stages[i].outputs == Evidence(state.plan.stages[i].requiredOutputs, files)
      ensures s.Done? && e.None? ==> saved == Some(st) && IsPassed(saved, i)
      ensures e.Some? ==> e == Some(Code(1)) && !IsPassed(saved, i)
    {
      var o;
      e := None;
      s, st, o := Begin(state, i);
      if s.Done? {
        s, st, e := Conclude(st, i, o);
      }
    }

    /** A run needs that there is no state, a resume that it is of the same plan and source. */
    static predicate Fits(saved: Option<State>, plan: Plan, source: int, resume: bool) {
      if resume then saved.Some? && saved.value.plan == plan && saved.value.source == source else saved.None?
    }

    /** Reads the state file for a resume, or writes a new one. */
    method Open(plan: Plan, source: int, resume: bool) returns (s: Status, st: State)
      requires Sound() && DistinctIds(plan)
      modifies `saved, `log, `disturbed
      ensures Sound() && log == old(log)
      ensures old(disturbed) ==> disturbed
      ensures !disturbed ==> (s.Done? <==> Fits(old(saved), plan, source, resume))
      ensures saved == old(saved) || (old(saved).None? && saved == Some(State(plan, source, InProgress, [])))
      ensures (saved == old(saved) && !s.Done?) || resume == old(saved).Some?
      ensures s.Done? ==> saved == Some(st) && st.plan == plan && st.source == source
      ensures s.Done? ==> if resume then saved == old(saved) else st.stages == []
    {
      st := State(plan, source, InProgress, []);
      :- Step();
      if resume {
        if saved.None? || saved.value.plan != plan || saved.value.source != source {
          return Raised, st;
        }
        st := saved.value;
      } else {
        if saved.Some? {
          return Raised, st;
        }
        :- Save(st, None);
      }
      s := Step();
    }

    /** What a resume has checked before the first command of the attempt is started. */
    static ghost predicate Verified(stages: seq<Record>, n: nat, files: Files) {
      n <= |stages| && forall k | 0 <= k < n :: stages[k].status.Passed? && Unchanged(stages[k].outputs, files)
    }

    /** Records that had passed are as they were. */
    static ghost predicate Kept(before: seq<Record>, after: seq<Record>) {
      forall k | 0 <= k < |before| && before[k].status.Passed? :: k < |after| && after[k] == before[k]
    }

    /** The loop has come to stage `i`: all before it have passed, the records from it on
        are those of the earlier attempts. */
    static ghost predicate Ahead(start: State, st: State, i: nat) {
      && st.plan == start.plan && st.source == start.source && i <= |st.plan.stages|
      && |st.stages| == (if i < |start.stages| then |start.stages| else i)
      && (forall k | 0 <= k < i :: st.stages[k].status.Passed?)
      && (forall k | i <= k < |start.stages| :: st.stages[k] == start.stages[k])
      && Kept(start.stages, st.stages)
    }

    /** Running stage `i` does not touch what had passed before. */
    static lemma AheadOfRun(start: State, state: State, after: State, i: nat)
      requires Ahead(start, state, i) && i < |start.plan.stages|
      requires i < |start.stages| ==> |start.stages| == i + 1 && !start.stages[i].status.Passed?
      requires after.plan == state.plan && after.source == state.source
      requires i <= |after.stages| && after.stages[..i] == state.stages[..i]
      ensures Kept(start.stages, after.stages)
      ensures |after.stages| == i + 1 && after.stages[i].status.Passed? ==> Ahead(start, after, i + 1)
    {
      assert forall k | 0 <= k < i :: after.stages[k] == after.stages[..i][k] == state.stages[k];
    }

    /** One turn of the loop: a passed stage is verified, any other is run. */
    method Visit(ghost start: State, existing: map<string, Record>, state: State, i: nat)
      returns (s: Status, st: State, e: Option<Exit>)
      requires Sound() && Prefix(start) && saved == Some(state) && Ahead(start, state, i) && i < |start.plan.stages|
      requires existing == Existing(start.stages)
      modifies this
      ensures Sound() && saved.Some? && saved.value.plan == start.plan && saved.value.source == start.source
      ensures Kept(start.stages, saved.value.stages)
      ensures old(disturbed) ==> disturbed
      ensures !disturbed ==> s.Done? && e.None?
      ensures if log == old(log) then
                files == old(files)
                && (s.Done? ==> e.None? && st == state && i < |start.stages| && start.stages[i].status.Passed?
                                && Unchanged(start.stages[i].outputs, files))
              else |log| > |old(log)| && log[..|old(log)|] == old(log) && log[|old(log)|] == Start(i)
      ensures s.Done? && e.None? ==> saved == Some(st) && Ahead(start, st, i + 1)
      ensures e.Some? ==> e == Some(Code(1)) && !IsPassed(saved, i)
    {
      ExistingAt(start.plan, start.stages, i);
      st, e := state, None;
      var id := state.plan.stages[i].id;
      if id in existing && existing[id].status.Passed? {
        s := VerifyCompletedOutputs(existing[id].outputs);
      } else {
        s, st, e := RunStage(state, i);
        AheadOfRun(start, state, saved.value, i);
      }
    }

    /** The loop over the plan. `first` is the stage that this attempt started first, if any. */
    method RunStages(start: State) returns (s: Status, st: State, e: Option<Exit>, ghost first: nat)
      requires Sound() && saved == Some(start)
      modifies this
      ensures Sound() && saved.Some? && saved.value.plan == start.plan && saved.value.source == start.source
      ensures Kept(start.stages, saved.value.stages)
      ensures old(disturbed) ==> disturbed
      ensures !disturbed ==> s.Done? && e.None?
      ensures |old(log)| <= |log| && log[..|old(log)|] == old(log)
      ensures log != old(log) ==>
                |log| > |old(log)| && log[|old(log)|] == Start(first) && Verified(start.stages, first, old(files))
      ensures s.Done? && e.None? ==> saved == Some(st) && AllPassed(st)
      ensures s.Done? && e.None? && log == old(log) ==>
                st == start && Verified(start.stages, |start.plan.stages|, files)
      ensures e.Some? ==> e == Some(Code(1))
    {
      st, e, first := start, None, 0;
      var existing := Existing(start.stages);
      for i := 0 to |start.plan.stages|
        invariant Sound() && saved == Some(st) && Ahead(start, st, i)
        invariant |old(log)| <= |log| && log[..|old(log)|] == old(log)
        invariant if log == old(log) then st == start && files == old(files) && Verified(start.stages, i, files)
                  else
                    && |log| > |old(log)| && log[|old(log)|] == Start(first)
                    && Verified(start.stages, first, old(files))
        invariant e.None? && (old(disturbed) ==> disturbed)
      {
        ghost var before := log;
        if before == old(log) {
          first := i;
        }
        s, st, e := Visit(start, existing, st, i);
        if !s.Done? || e.Some? {
          return;
        }
      }
      s := Done;
    }

    /** One `run` or `resume`. */
    method Execute(plan: Plan, source: int, resume: bool) returns (e: Exit, ghost first: nat)
      requires Sound()
      modifies this
      ensures Sound()
      ensures old(saved).Some? ==>
                && saved.Some? && saved.value.plan == old(saved).value.plan
                && saved.value.source == old(saved).value.source
                && Kept(old(saved).value.stages, saved.value.stages)
      ensures old(saved).None? && saved.Some? ==> saved.value.plan == plan && saved.value.source == source
      ensures |old(log)| <= |log| && log[..|old(log)|] == old(log)
      ensures log != old(log) ==>
                && |log| > |old(log)| && log[|old(log)|] == Start(first)
                && resume == old(saved).Some?
                && Verified(if resume then old(saved).value.stages else [], first, old(files))
      ensures e == Code(0) ==> saved.Some? && saved.value.plan == plan && saved.value.source == source
                               && saved.value.status.Complete? && AllPassed(saved.value)
      ensures e == Code(0) && log == old(log) ==> saved.Some? && Verified(saved.value.stages, |plan.stages|, files)
      ensures !Fits(old(saved), plan, source, resume) || plan.stages == [] || !DistinctIds(plan) ==>
                e != Code(0) && saved == old(saved) && log == old(log) && files == old(files)
      // It completes when every command succeeds and all files that are needed are there.
      ensures !disturbed ==>
                (e == Code(0) <==> Fits(old(saved), plan, source, resume) && plan.stages != [] && DistinctIds(plan))
    {
      first, disturbed := 0, false;
      e := Code(1);
      if plan.stages == [] || !DistinctIds(plan) {
        return;
      }
      var s, st := Open(plan, source, resume);
      if s.Done? {
        var x;
        s, st, x, first := RunStages(st);
        if s.Done? && x.None? {
          s := Save(st.(status := Complete), None);
          if s.Done? {
            s := Step();
          }
          e := if s.Done? then Code(0) else e;
        }
      }
      if s.Crashed? {
        e := Aborted;
      }
    }
  }

  /** Any number of attempts, each ended in any way, with the build tree changed in between:
      the records stay a passed prefix of one plan, the log stays in order, and completion
      means that every stage has passed. */
  method Attempts(r: Runner, plan: Plan, n: nat) returns (done: bool)
    requires r.Sound() && r.saved.None? && r.log == []
    modifies r
    ensures r.Sound()
    ensures r.saved.Some? ==> r.saved.value.plan == plan
    ensures done ==> r.saved.Some? && r.saved.value.status.Complete?
                     && forall i: nat | i < |plan.stages| :: Pass(i) in r.log
  {
    done := false;
    for k := 0 to n
      invariant r.Sound()
      invariant r.saved.Some? ==> r.saved.value.plan == plan
      invariant done ==> r.saved.Some? && r.saved.value.status.Complete?
    {
      var source: int, resume: bool := *, *;
      var e, _ := r.Execute(plan, source, resume);
      done := e == Code(0);
      r.files := *;
    }
    if done {
      assert forall i: nat | i < |plan.stages| :: IsPassed(r.saved, i);
    }
  }
}
