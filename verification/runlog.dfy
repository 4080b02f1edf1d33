// The log of a change as its history reads it (contracts/journal/history.go): the records of its processes and steps,
// its writes, and what makes a success stand.
module RunLog {
  import opened Prelude
  import opened Domain

  datatype Outcome = Succeeded | Failed | Running

  datatype Run = Run(process: string, parent: string, methodology: string, agent: string, goal: string, status: string, seqNo: int)

  datatype StepRun = StepRun(
    path: string, methodology: string, process: string, action: string, execution: string, outcome: Outcome, error: string,
    subject: string, subjectRef: string, seqNo: int, runs: nat, current: bool, staleBy: string, children: seq<string>)

  /** A write of the change: by whom, where, and on which node. */
  datatype Write = Write(seqNo: int, subject: string, execution: string, id: string)

  /** What the fold knows besides the steps: the processes, the subjects, the writes, and which step relies on which. */
  datatype Context = Context(
    parent: map<string, string>, procOf: map<string, string>, born: map<string, int>, writes: seq<Write>,
    relies: (string, string, string) -> bool)
  {
    predicate Rel(later: StepRun, earlier: StepRun) {
      later.methodology == earlier.methodology && relies(later.methodology, later.path, earlier.path)
    }

    function Born(subject: string): int { if subject in born then born[subject] else 0 }
  }

  // A process is started under a parent of lower rank: no process descends from itself.
  ghost predicate Ranked(parent: map<string, string>, rank: string -> nat) {
    forall p :: p in parent && parent[p] != "" ==> rank(parent[p]) < rank(p)
  }

  function Get(m: map<string, string>, k: string): string { if k in m then m[k] else "" }

  // ---- the step a write belongs to

  // The last step that started each process.
  function Owners(steps: seq<StepRun>): (m: map<string, nat>)
    ensures forall c :: c in m ==> m[c] < |steps|
  {
    if steps == [] then map[]
    else SetAll(Owners(steps[..|steps| - 1]), steps[|steps| - 1].children, |steps| - 1)
  }

  function SetAll(m: map<string, nat>, keys: seq<string>, i: nat): (out: map<string, nat>)
    ensures forall c :: c in out ==> out[c] == i || (c in m && out[c] == m[c])
  {
    if keys == [] then m else SetAll(m, keys[..|keys| - 1], i)[keys[|keys| - 1] := i]
  }

  // The first process of the line of a process that a step started.
  ghost function OwnerOf(p: string, parent: map<string, string>, owner: map<string, nat>, rank: string -> nat): (o: Option<nat>)
    requires Ranked(parent, rank)
    ensures o.Some? ==> exists q :: q in owner && owner[q] == o.value
    decreases if p == "" then 0 else rank(p) + 1
  {
    if p == "" then None
    else if p in owner then Some(owner[p])
    else OwnerOf(Get(parent, p), parent, owner, rank)
  }

  ghost function RunOf(steps: seq<StepRun>, execution: string, i: nat): (o: Option<nat>)
    requires i <= |steps|
    ensures o.Some? ==> o.value < |steps|
    decreases |steps| - i
  {
    if i == |steps| then None
    else if steps[i].execution == execution then Some(i) else RunOf(steps, execution, i + 1)
  }

  // The run a write was made by: a sub-agent's is the one of the step that started it.
  ghost function StepOf(steps: seq<StepRun>, c: Context, execution: string, rank: string -> nat): (o: Option<nat>)
    requires Ranked(c.parent, rank)
    ensures o.Some? ==> o.value < |steps|
  {
    var o := OwnerOf(Get(c.procOf, execution), c.parent, Owners(steps), rank);
    if o.Some? then o else RunOf(steps, execution, 0)
  }

  // ---- what stands

  // The steps of two histories differ by their verdict only.
  ghost predicate SameRuns(a: seq<StepRun>, b: seq<StepRun>) {
    |a| == |b| && forall i :: 0 <= i < |a| ==> b[i] == a[i].(current := b[i].current, staleBy := b[i].staleBy)
  }

  // The write moved what the run started from: it comes after, on something that was there, and nothing that relies
  // on the run made it.
  ghost predicate Moves(steps: seq<StepRun>, c: Context, rank: string -> nat, w: Write, i: nat)
    requires Ranked(c.parent, rank) && i < |steps|
  {
    var s := steps[i];
    w.seqNo > s.seqNo && c.Born(w.subject) < s.seqNo && (s.subjectRef == "" || w.subject == s.subjectRef) &&
    var maker := StepOf(steps, c, w.execution, rank);
    !(maker.Some? && (maker.value == i || c.Rel(steps[maker.value], s)))
  }

  ghost predicate Unmoved(steps: seq<StepRun>, c: Context, rank: string -> nat, i: nat)
    requires Ranked(c.parent, rank) && i < |steps|
  {
    steps[i].outcome == Succeeded && forall k :: 0 <= k < |c.writes| ==> !Moves(steps, c, rank, c.writes[k], i)
  }

  // The latest run of a path.
  ghost predicate Latest(steps: seq<StepRun>, j: nat) {
    j < |steps| && forall k :: j < k < |steps| ==> steps[k].path != steps[j].path
  }

  // A run relies on the latest run of another path.
  ghost predicate ReliesOn(steps: seq<StepRun>, c: Context, i: nat, j: nat) {
    i < |steps| && Latest(steps, j) && steps[j].path != steps[i].path && c.Rel(steps[i], steps[j])
  }

  /** A set of successes nothing moved, closed under what they rely on, each relying on older runs only. */
  ghost predicate Stands(steps: seq<StepRun>, c: Context, rank: string -> nat, x: set<nat>)
    requires Ranked(c.parent, rank)
  {
    (forall i: nat :: i in x ==> i < |steps| && Unmoved(steps, c, rank, i)) &&
    (forall i: nat, j: nat :: i in x && ReliesOn(steps, c, i, j) ==> j in x && steps[j].seqNo <= steps[i].seqNo)
  }

  ghost predicate Greatest(steps: seq<StepRun>, c: Context, rank: string -> nat, x: set<nat>)
    requires Ranked(c.parent, rank)
  {
    Stands(steps, c, rank, x) && forall y: set<nat> :: Stands(steps, c, rank, y) ==> y <= x
  }

  ghost function Current(steps: seq<StepRun>): set<nat> { set i | 0 <= i < |steps| && steps[i].current }

  lemma {:induction false} SameOwners(a: seq<StepRun>, b: seq<StepRun>)
    requires SameRuns(a, b)
    ensures Owners(a) == Owners(b)
  {
    if a != [] {
      SameOwners(a[..|a| - 1], b[..|b| - 1]);
    }
  }

  lemma {:induction false} SameRunOf(a: seq<StepRun>, b: seq<StepRun>, execution: string, i: nat)
    requires SameRuns(a, b) && i <= |a|
    ensures RunOf(a, execution, i) == RunOf(b, execution, i)
    decreases |a| - i
  {
    if i < |a| { SameRunOf(a, b, execution, i + 1); }
  }

  lemma SameStepOf(a: seq<StepRun>, b: seq<StepRun>, c: Context, execution: string, rank: string -> nat)
    requires SameRuns(a, b) && Ranked(c.parent, rank)
    ensures StepOf(a, c, execution, rank) == StepOf(b, c, execution, rank)
  {
    SameOwners(a, b);
    SameRunOf(a, b, execution, 0);
  }

  // The first write that moved a run.
  ghost predicate FirstMoves(steps: seq<StepRun>, c: Context, rank: string -> nat, k: nat, i: nat)
    requires Ranked(c.parent, rank) && i < |steps|
  {
    k < |c.writes| && Moves(steps, c, rank, c.writes[k], i) && forall l :: 0 <= l < k ==> !Moves(steps, c, rank, c.writes[l], i)
  }

  // A success that does not stand names the first write that moved it, or else a step it relies on whose latest run is
  // later or does not stand.
  ghost predicate Reason(runs: seq<StepRun>, steps: seq<StepRun>, c: Context, rank: string -> nat, i: nat)
    requires Ranked(c.parent, rank) && SameRuns(runs, steps) && i < |steps|
  {
    if Unmoved(runs, c, rank, i)
    then exists j: nat :: ReliesOn(runs, c, i, j) && steps[i].staleBy == "step " + runs[j].path &&
                          (runs[j].seqNo > runs[i].seqNo || !steps[j].current)
    else exists k: nat :: FirstMoves(runs, c, rank, k, i) && steps[i].staleBy == "log entry " + c.writes[k].id
  }

  /** A success that does not stand says why, one that stands and any other run say nothing. */
  ghost predicate Reasons(runs: seq<StepRun>, steps: seq<StepRun>, c: Context, rank: string -> nat)
    requires Ranked(c.parent, rank) && SameRuns(runs, steps)
  {
    forall i: nat :: i < |steps| ==>
      if steps[i].outcome == Succeeded && !steps[i].current then Reason(runs, steps, c, rank, i) else steps[i].staleBy == ""
  }

  ghost predicate Fresh(steps: seq<StepRun>) {
    forall i :: 0 <= i < |steps| ==> !steps[i].current && steps[i].staleBy == ""
  }

  function LatestRuns(steps: seq<StepRun>): (m: map<string, nat>)
    ensures forall p :: p in m ==> m[p] < |steps| && steps[m[p]].path == p
  {
    if steps == [] then map[] else LatestRuns(steps[..|steps| - 1])[steps[|steps| - 1].path := |steps| - 1]
  }

  lemma {:induction false} LatestOfPath(steps: seq<StepRun>, p: string)
    requires p in LatestRuns(steps)
    ensures Latest(steps, LatestRuns(steps)[p])
  {
    var n := |steps| - 1;
    if steps[n].path != p { LatestOfPath(steps[..n], p); }
  }

  lemma {:induction false} LatestIsListed(steps: seq<StepRun>, j: nat)
    requires Latest(steps, j)
    ensures steps[j].path in LatestRuns(steps) && LatestRuns(steps)[steps[j].path] == j
  {
    var n := |steps| - 1;
    if j < n { LatestIsListed(steps[..n], j); }
  }

  // ---- the fold of the log

  /** The entries the fold reads: the records of the processes and of their steps, the events on impacts, the facts. */
  datatype Entry =
    | ProcessStarted(run: Run)
    | ProcessEnded(process: string, parent: string, status: string)
    | StepEnded(process: string, parent: string, step: StepRun)
    | ActionOver(process: string, parent: string, step: StepRun, effectsMet: Option<bool>, progress: bool)
    | OtherRecord(process: string, parent: string)
    | ImpactEntry(seqNo: int, id: string, subject: string, execution: string, op: ImpactOp)
    | FactEntry(seqNo: int, id: string, kind: string, key: string, execution: string)

  /** What the fold has read: the index says where the run that ended under an execution is. */
  datatype Log = Log(runs: seq<Run>, steps: seq<StepRun>, parent: map<string, string>, procOf: map<string, string>,
                     born: map<string, int>, writes: seq<Write>, ended: map<string, nat>, runIdx: map<string, nat>)

  const NoLog := Log([], [], map[], map[], map[], [], map[], map[])

  predicate MovesContent(op: ImpactOp) {
    op == ImpactUpdated || op == ImpactTransitioned || op == ImpactCancelled || op == ImpactWithdrawn || op == ImpactRebased
  }

  // The last run of a step in a process.
  function LastOf(steps: seq<StepRun>, path: string, process: string): (i: int)
    ensures -1 <= i < |steps|
    ensures i >= 0 ==> steps[i].path == path && steps[i].process == process
    ensures forall k :: i < k < |steps| ==> steps[k].path != path || steps[k].process != process
  {
    if steps == [] then -1
    else if steps[|steps| - 1].path == path && steps[|steps| - 1].process == process then |steps| - 1
    else LastOf(steps[..|steps| - 1], path, process)
  }

  // A step run again drops its run that never ended; the index follows the runs after it.
  function DropAt(l: Log, i: int): Log
    requires i < |l.steps|
  {
    if i < 0 || l.steps[i].outcome != Running then l
    else l.(steps := l.steps[..i] + l.steps[i + 1..],
            ended := map x | x in l.ended :: if l.ended[x] > i then l.ended[x] - 1 else l.ended[x])
  }

  function NewRun(s: StepRun, process: string, outcome: Outcome): StepRun {
    s.(process := process, outcome := outcome, runs := 0, current := false, staleBy := "")
  }

  function RunAgain(l: Log, s: StepRun): Log {
    var d := DropAt(l, LastOf(l.steps, s.path, s.process));
    d.(steps := d.steps + [s])
  }

  function Parented(l: Log, process: string, parent: string): Log {
    if parent == "" then l else l.(parent := l.parent[process := parent])
  }

  predicate StepFailed(e: Entry)
    requires e.ActionOver?
  {
    e.step.error != "" || (e.effectsMet == Some(false) && !e.progress)
  }

  // The action record of a run: it ends the run it belongs to, or starts one.
  function ActionRead(l0: Log, e: Entry): Log
    requires e.ActionOver?
  {
    var l := Parented(l0, e.process, e.parent).(procOf := l0.procOf[e.step.execution := e.process]);
    if e.step.path == "" then l else OverRead(l, e)
  }

  function OverRead(l: Log, e: Entry): Log
    requires e.ActionOver?
  {
    if e.step.execution in l.ended then
      var i := l.ended[e.step.execution];
      if StepFailed(e) && i < |l.steps|
      then l.(steps := l.steps[i := l.steps[i].(outcome := Failed, error := e.step.error, seqNo := e.step.seqNo)]) else l
    else RunAgain(l, NewRun(e.step, e.process, if StepFailed(e) then Failed else Running).(children := []))
  }

  // The record that a step ended: the run is a success from then on, found under its execution.
  function EndRead(l: Log, e: Entry): Log
    requires e.StepEnded?
  {
    var p := RunAgain(Parented(l, e.process, e.parent), NewRun(e.step, e.process, Succeeded).(error := ""));
    p.(ended := p.ended[e.step.execution := |p.steps| - 1], procOf := p.procOf[e.step.execution := e.process])
  }

  function StartRead(l: Log, run: Run): Log {
    l.(runIdx := l.runIdx[run.process := |l.runs|], runs := l.runs + [run])
  }

  function StatusRead(l: Log, process: string, status: string): Log {
    if process in l.runIdx && l.runIdx[process] < |l.runs|
    then l.(runs := l.runs[l.runIdx[process] := l.runs[l.runIdx[process]].(status := status)]) else l
  }

  function EntryRead(l: Log, e: Entry): Log {
    match e
    case ProcessStarted(run) => StartRead(Parented(l, run.process, run.parent), run)
    case ProcessEnded(process, parent, status) => StatusRead(Parented(l, process, parent), process, status)
    case StepEnded(_, _, _) => EndRead(l, e)
    case ActionOver(_, _, _, _, _) => ActionRead(l, e)
    case OtherRecord(process, parent) => Parented(l, process, parent)
    case ImpactEntry(seqNo, id, subject, execution, op) =>
      var b := if subject in l.born then l else l.(born := l.born[subject := seqNo]);
      if MovesContent(op) then b.(writes := b.writes + [Write(seqNo, subject, execution, id)]) else b
    case FactEntry(seqNo, id, kind, key, execution) =>
      var subject := kind + ":" + key;
      if key == "" then l
      else if subject in l.born then l.(writes := l.writes + [Write(seqNo, subject, execution, id)])
      else l.(born := l.born[subject := seqNo])
  }

  function LogOf(entries: seq<Entry>): Log {
    if entries == [] then NoLog else EntryRead(LogOf(entries[..|entries| - 1]), entries[|entries| - 1])
  }

  // The index names the run that ended under each execution, though runs are dropped from under it.
  ghost predicate Indexed(l: Log) {
    forall x :: x in l.ended ==>
      l.ended[x] < |l.steps| && l.steps[l.ended[x]].execution == x && l.steps[l.ended[x]].outcome != Running
  }

  // A run that is not over is the last of its step in its process.
  ghost predicate RunningLast(steps: seq<StepRun>) {
    forall i, j :: 0 <= i < j < |steps| && steps[i].outcome == Running ==>
      steps[i].path != steps[j].path || steps[i].process != steps[j].process
  }

  ghost predicate RunsIndexed(l: Log) {
    forall p :: p in l.runIdx ==> l.runIdx[p] < |l.runs| && l.runs[l.runIdx[p]].process == p
  }

  lemma RemovedAt(steps: seq<StepRun>, i: nat, k: nat)
    requires i < |steps| && k < |steps| - 1
    ensures (steps[..i] + steps[i + 1..])[k] == steps[if k < i then k else k + 1]
  {
  }

  lemma DropKeepsIndex(l: Log, i: int)
    requires i < |l.steps| && Indexed(l)
    ensures Indexed(DropAt(l, i))
  {
    var d := DropAt(l, i);
    if d != l {
      forall x | x in d.ended
        ensures d.ended[x] < |d.steps| && d.steps[d.ended[x]].execution == x && d.steps[d.ended[x]].outcome != Running
      {
        assert l.ended[x] != i;
        RemovedAt(l.steps, i, d.ended[x]);
      }
    }
  }

  lemma DropKeepsRunningLast(steps: seq<StepRun>, i: nat)
    requires i < |steps| && RunningLast(steps)
    ensures RunningLast(steps[..i] + steps[i + 1..])
  {
    var d := steps[..i] + steps[i + 1..];
    forall j, k | 0 <= j < k < |d| && d[j].outcome == Running ensures d[j].path != d[k].path || d[j].process != d[k].process {
      RemovedAt(steps, i, j);
      RemovedAt(steps, i, k);
    }
  }

  // Once the last run of a step is dropped if it was not over, no run of the step is running.
  lemma NoneRunning(l: Log, path: string, process: string, k: nat)
    requires RunningLast(l.steps)
    requires var d := DropAt(l, LastOf(l.steps, path, process)); k < |d.steps| && d.steps[k].outcome == Running
    ensures var s := DropAt(l, LastOf(l.steps, path, process)).steps[k]; s.path != path || s.process != process
  {
    var i := LastOf(l.steps, path, process);
    if DropAt(l, i) != l { RemovedAt(l.steps, i, k); }
  }

  lemma RunAgainIndexed(l: Log, s: StepRun)
    requires Indexed(l) && RunsIndexed(l)
    ensures Indexed(RunAgain(l, s)) && RunsIndexed(RunAgain(l, s))
  {
    DropKeepsIndex(l, LastOf(l.steps, s.path, s.process));
  }

  lemma RunAgainRunsLast(l: Log, s: StepRun)
    requires RunningLast(l.steps)
    ensures RunningLast(RunAgain(l, s).steps)
  {
    var i := LastOf(l.steps, s.path, s.process);
    if i >= 0 { DropKeepsRunningLast(l.steps, i); }
    forall k: nat | k < |DropAt(l, i).steps| && DropAt(l, i).steps[k].outcome == Running
      ensures DropAt(l, i).steps[k].path != s.path || DropAt(l, i).steps[k].process != s.process
    {
      NoneRunning(l, s.path, s.process, k);
    }
    LastMayRun(DropAt(l, i).steps, s);
  }

  lemma LastMayRun(steps: seq<StepRun>, s: StepRun)
    requires RunningLast(steps)
    requires forall k: nat :: k < |steps| && steps[k].outcome == Running ==> steps[k].path != s.path || steps[k].process != s.process
    ensures RunningLast(steps + [s])
  {
  }

  lemma RunAgainKeeps(l: Log, s: StepRun)
    requires Indexed(l) && RunningLast(l.steps) && RunsIndexed(l)
    ensures Indexed(RunAgain(l, s)) && RunningLast(RunAgain(l, s).steps) && RunsIndexed(RunAgain(l, s))
    ensures RunAgain(l, s).steps != [] && RunAgain(l, s).steps[|RunAgain(l, s).steps| - 1] == s
  {
    RunAgainIndexed(l, s);
    RunAgainRunsLast(l, s);
  }

  /** Whatever the log, the index and the running steps stay right. */
  lemma {:induction false} LogKeepsItsIndex(entries: seq<Entry>)
    ensures Indexed(LogOf(entries)) && RunningLast(LogOf(entries).steps) && RunsIndexed(LogOf(entries))
  {
    if entries != [] {
      var n := |entries| - 1;
      LogKeepsItsIndex(entries[..n]);
      EntryKeeps(LogOf(entries[..n]), entries[n]);
    }
  }

  lemma EntryKeeps(l: Log, e: Entry)
    requires Indexed(l) && RunningLast(l.steps) && RunsIndexed(l)
    ensures Indexed(EntryRead(l, e)) && RunningLast(EntryRead(l, e).steps) && RunsIndexed(EntryRead(l, e))
  {
    match e {
      case StepEnded(process, parent, step) => EndKeeps(l, e);
      case ActionOver(process, parent, step, _, _) => ActionKeeps(l, e);
      case _ =>
        OtherKeeps(l, e);
        OtherLeavesSteps(l, e);
    }
  }

  lemma OtherKeeps(l: Log, e: Entry)
    requires RunsIndexed(l) && !e.StepEnded? && !e.ActionOver?
    ensures RunsIndexed(EntryRead(l, e))
  {
    match e {
      case ProcessStarted(run) => RunsKept(Parented(l, run.process, run.parent), run, "", "");
      case ProcessEnded(process, parent, status) => RunsKept(Parented(l, process, parent), Run("", "", "", "", "", "", 0), process, status);
      case _ =>
    }
  }

  lemma ParentedLeaves(l: Log, process: string, parent: string)
    ensures Parented(l, process, parent).steps == l.steps && Parented(l, process, parent).ended == l.ended
  {
  }

  lemma OtherLeavesSteps(l: Log, e: Entry)
    requires !e.StepEnded? && !e.ActionOver?
    ensures EntryRead(l, e).steps == l.steps && EntryRead(l, e).ended == l.ended
  {
    match e {
      case ProcessStarted(run) => ParentedLeaves(l, run.process, run.parent);
      case ProcessEnded(process, parent, _) => ParentedLeaves(l, process, parent);
      case OtherRecord(process, parent) => ParentedLeaves(l, process, parent);
      case _ =>
    }
  }

  lemma RunsKept(l: Log, run: Run, process: string, status: string)
    requires RunsIndexed(l)
    ensures RunsIndexed(StartRead(l, run)) && RunsIndexed(StatusRead(l, process, status))
  {
  }

  lemma EndKeeps(l0: Log, e: Entry)
    requires Indexed(l0) && RunningLast(l0.steps) && RunsIndexed(l0) && e.StepEnded?
    ensures Indexed(EndRead(l0, e)) && RunningLast(EndRead(l0, e).steps) && RunsIndexed(EndRead(l0, e))
  {
    var l := Parented(l0, e.process, e.parent);
    var s := NewRun(e.step, e.process, Succeeded).(error := "");
    RunAgainKeeps(l, s);
    EndIsIndexed(RunAgain(l, s), s.execution, e.process);
  }

  lemma EndIsIndexed(p: Log, execution: string, process: string)
    requires Indexed(p) && p.steps != []
    requires p.steps[|p.steps| - 1].execution == execution && p.steps[|p.steps| - 1].outcome != Running
    ensures Indexed(p.(ended := p.ended[execution := |p.steps| - 1], procOf := p.procOf[execution := process]))
  {
  }

  lemma ActionKeeps(l0: Log, e: Entry)
    requires Indexed(l0) && RunningLast(l0.steps) && RunsIndexed(l0) && e.ActionOver?
    ensures Indexed(ActionRead(l0, e)) && RunningLast(ActionRead(l0, e).steps) && RunsIndexed(ActionRead(l0, e))
  {
    var l := Parented(l0, e.process, e.parent).(procOf := l0.procOf[e.step.execution := e.process]);
    assert Indexed(l) && RunningLast(l.steps) && RunsIndexed(l);
    if e.step.path != "" { OverKeeps(l, e); }
  }

  lemma OverKeeps(l: Log, e: Entry)
    requires Indexed(l) && RunningLast(l.steps) && RunsIndexed(l) && e.ActionOver?
    ensures Indexed(OverRead(l, e)) && RunningLast(OverRead(l, e).steps) && RunsIndexed(OverRead(l, e))
  {
    if e.step.execution in l.ended {
      FailKeeps(l, l.ended[e.step.execution], e.step.error, e.step.seqNo);
    } else {
      RunAgainKeeps(l, NewRun(e.step, e.process, if StepFailed(e) then Failed else Running).(children := []));
    }
  }

  lemma FailKeeps(l: Log, i: nat, error: string, seqNo: int)
    requires Indexed(l) && RunningLast(l.steps) && i < |l.steps|
    ensures var d := l.(steps := l.steps[i := l.steps[i].(outcome := Failed, error := error, seqNo := seqNo)]);
      Indexed(d) && RunningLast(d.steps)
  {
  }

  // Nothing is judged before the end of the log.
  lemma {:induction false} LogIsUnjudged(entries: seq<Entry>)
    ensures Fresh(LogOf(entries).steps)
  {
    if entries != [] {
      var n := |entries| - 1;
      LogIsUnjudged(entries[..n]);
      var l, e := LogOf(entries[..n]), entries[n];
      if e.StepEnded? || e.ActionOver? {
        DropIsFresh(l, e);
      } else {
        OtherLeavesSteps(l, e);
      }
    }
  }

  lemma DropIsFresh(l0: Log, e: Entry)
    requires Fresh(l0.steps) && (e.StepEnded? || e.ActionOver?)
    ensures Fresh(EntryRead(l0, e).steps)
  {
    if e.StepEnded? {
      RunAgainIsFresh(Parented(l0, e.process, e.parent), NewRun(e.step, e.process, Succeeded).(error := ""));
    } else {
      var l := Parented(l0, e.process, e.parent).(procOf := l0.procOf[e.step.execution := e.process]);
      RunAgainIsFresh(l, NewRun(e.step, e.process, if StepFailed(e) then Failed else Running).(children := []));
    }
  }

  lemma DropStaysFresh(l: Log, i: int)
    requires i < |l.steps| && Fresh(l.steps)
    ensures Fresh(DropAt(l, i).steps)
  {
    if DropAt(l, i) != l {
      forall k: nat | k < |l.steps| - 1 ensures !DropAt(l, i).steps[k].current && DropAt(l, i).steps[k].staleBy == "" {
        RemovedAt(l.steps, i, k);
      }
    }
  }

  lemma RunAgainIsFresh(l: Log, s: StepRun)
    requires Fresh(l.steps) && !s.current && s.staleBy == ""
    ensures Fresh(RunAgain(l, s).steps)
  {
    DropStaysFresh(l, LastOf(l.steps, s.path, s.process));
  }

  // The number of runs of its path up to each run.
  function Count(steps: seq<StepRun>, path: string): nat {
    if steps == [] then 0
    else Count(steps[..|steps| - 1], path) + if steps[|steps| - 1].path == path then 1 else 0
  }

  function Numbered(steps: seq<StepRun>): (out: seq<StepRun>)
    ensures |out| == |steps|
    ensures forall i :: 0 <= i < |steps| ==> out[i] == steps[i].(runs := Count(steps[..i + 1], steps[i].path))
  {
    seq(|steps|, i requires 0 <= i < |steps| => steps[i].(runs := Count(steps[..i + 1], steps[i].path)))
  }

  function ContextOf(l: Log, relies: (string, string, string) -> bool): Context {
    Context(l.parent, l.procOf, l.born, l.writes, relies)
  }
}
