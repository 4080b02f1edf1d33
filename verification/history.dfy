// The history of a change (contracts/journal/history.go): the runs of its steps, and which successes still stand.
module RunHistory {
  import opened Prelude
  import opened Domain
  import opened RunLog
  import opened HistoryLaws

  // Nothing that stands was dropped, and what is left was moved by no write.
  ghost predicate Sound(runs: seq<StepRun>, steps: seq<StepRun>, c: Context, rank: string -> nat)
    requires Ranked(c.parent, rank)
  {
    SameRuns(runs, steps) && Reasons(runs, steps, c, rank) &&
    (forall i: nat :: i in Current(steps) ==> Unmoved(runs, c, rank, i)) &&
    (forall x: set<nat> :: Stands(runs, c, rank, x) ==> x <= Current(steps))
  }

  function Dropped(steps: seq<StepRun>, i: nat, why: string): seq<StepRun>
    requires i < |steps|
  {
    steps[i := steps[i].(current := false, staleBy := why)]
  }

  lemma DropIsSound(runs: seq<StepRun>, steps: seq<StepRun>, c: Context, rank: string -> nat, i: nat, j: nat, why: string)
    requires Ranked(c.parent, rank) && Sound(runs, steps, c, rank) && i in Current(steps)
    requires ReliesOn(runs, c, i, j) && (runs[j].seqNo > runs[i].seqNo || !steps[j].current) && why == "step " + runs[j].path
    ensures Sound(runs, Dropped(steps, i, why), c, rank)
    ensures Current(Dropped(steps, i, why)) == Current(steps) - {i}
  {
    var after := Dropped(steps, i, why);
    assert Current(after) == Current(steps) - {i};
    DropGivesReason(runs, steps, c, rank, i, j, why);
    forall x: set<nat> | Stands(runs, c, rank, x) ensures x <= Current(after) {
      assert i in x ==> j in x;
    }
  }

  lemma DropGivesReason(runs: seq<StepRun>, steps: seq<StepRun>, c: Context, rank: string -> nat, i: nat, j: nat, why: string)
    requires Ranked(c.parent, rank) && SameRuns(runs, steps) && Reasons(runs, steps, c, rank) && i < |steps|
    requires Unmoved(runs, c, rank, i)
    requires ReliesOn(runs, c, i, j) && (runs[j].seqNo > runs[i].seqNo || !steps[j].current) && why == "step " + runs[j].path
    ensures Reasons(runs, Dropped(steps, i, why), c, rank)
  {
    var after := Dropped(steps, i, why);
    forall k: nat | k < |after| && k != i && after[k].outcome == Succeeded && !after[k].current ensures Reason(runs, after, c, rank, k) {
      ReasonStays(runs, steps, after, c, rank, k);
    }
    assert Reason(runs, after, c, rank, i);
  }

  lemma ReasonStays(runs: seq<StepRun>, steps: seq<StepRun>, after: seq<StepRun>, c: Context, rank: string -> nat, k: nat)
    requires Ranked(c.parent, rank) && SameRuns(runs, steps) && SameRuns(runs, after) && k < |steps| && after[k] == steps[k]
    requires Reason(runs, steps, c, rank, k) && forall j :: 0 <= j < |steps| && after[j].current ==> steps[j].current
    ensures Reason(runs, after, c, rank, k)
  {
    if Unmoved(runs, c, rank, k) {
      var j: nat :| ReliesOn(runs, c, k, j) && steps[k].staleBy == "step " + runs[j].path &&
                    (runs[j].seqNo > runs[k].seqNo || !steps[j].current);
      assert ReliesOn(runs, c, k, j);
    }
  }

  // What a run relies on is not newer than it.
  ghost predicate OlderOnly(runs: seq<StepRun>, c: Context, i: nat) {
    forall j: nat :: ReliesOn(runs, c, i, j) ==> runs[j].seqNo <= runs[i].seqNo
  }

  // The verdict on the writes: a success stands unless one moved what it started from, and says which otherwise.
  ghost predicate Judged(runs: seq<StepRun>, s: StepRun, c: Context, rank: string -> nat, i: nat)
    requires Ranked(c.parent, rank) && i < |runs|
  {
    (s.current <==> Unmoved(runs, c, rank, i)) &&
    if s.outcome == Succeeded && !s.current
    then exists k: nat :: FirstMoves(runs, c, rank, k, i) && s.staleBy == "log entry " + c.writes[k].id
    else s.staleBy == ""
  }

  // What the fold notes on the way, the runs and the steps being the history's.
  function Notes(l: Log): Log { l.(runs := [], steps := []) }

  class History {
    var runs: seq<Run>
    var steps: seq<StepRun>

    constructor ()
      ensures runs == [] && steps == []
    {
      runs, steps := [], [];
    }

    method LastRun(path: string, process: string) returns (i: int)
      ensures i == LastOf(steps, path, process)
    {
      i := |steps| - 1;
      while i >= 0
        invariant -1 <= i < |steps|
        invariant LastOf(steps, path, process) == LastOf(steps[..i + 1], path, process)
      {
        assert steps[..i + 1][..i] == steps[..i];
        if steps[i].path == path && steps[i].process == process { return; }
        i := i - 1;
      }
    }

    // A step a process runs again drops its run that never ended, and the index of the runs follows.
    method DropRunning(path: string, process: string, ended0: map<string, nat>, ghost l: Log) returns (ended: map<string, nat>)
      requires l.steps == steps && l.ended == ended0
      modifies this`steps
      ensures var d := DropAt(l, LastOf(l.steps, path, process)); steps == d.steps && ended == d.ended
    {
      ended := ended0;
      var i := LastRun(path, process);
      if i >= 0 && steps[i].outcome == Running {
        steps := steps[..i] + steps[i + 1..];
        ended := map x | x in ended :: if ended[x] > i then ended[x] - 1 else ended[x];
      }
    }

    method NumberRuns()
      modifies this`steps
      ensures steps == Numbered(old(steps))
    {
      var count: map<string, nat> := map[];
      ghost var before := steps;
      for i := 0 to |steps|
        invariant |steps| == |before|
        invariant forall p :: (if p in count then count[p] else 0) == Count(before[..i], p)
        invariant forall k :: i <= k < |steps| ==> steps[k] == before[k]
        invariant forall k :: 0 <= k < i ==> steps[k] == Numbered(before)[k]
      {
        assert before[..i + 1][..i] == before[..i];
        var p := steps[i].path;
        count := count[p := (if p in count then count[p] else 0) + 1];
        steps := steps[i := steps[i].(runs := count[p])];
      }
    }

    // The runs and steps of the log read so far.
    ghost predicate Reads(l: Log)
      reads this
    {
      runs == l.runs && steps == l.steps
    }

    method AppendRun(s: StepRun, notes: Log, ghost l: Log) returns (out: Log)
      requires Reads(l) && notes == Notes(l)
      modifies this`steps
      ensures Reads(RunAgain(l, s)) && out == Notes(RunAgain(l, s))
    {
      var ended := DropRunning(s.path, s.process, notes.ended, l);
      out := notes.(ended := ended);
      steps := steps + [s];
    }

    method ReadStepEnded(e: Entry, notes: Log, ghost l: Log) returns (out: Log)
      requires e.StepEnded? && Reads(l) && notes == Notes(l)
      modifies this`steps
      ensures Reads(EndRead(l, e)) && out == Notes(EndRead(l, e))
    {
      out := AppendRun(NewRun(e.step, e.process, Succeeded).(error := ""), Parented(notes, e.process, e.parent),
                       Parented(l, e.process, e.parent));
      out := out.(ended := out.ended[e.step.execution := |steps| - 1], procOf := out.procOf[e.step.execution := e.process]);
    }

    method FailRun(i: nat, error: string, seqNo: int)
      requires i < |steps|
      modifies this`steps
      ensures steps == old(steps)[i := old(steps)[i].(outcome := Failed, error := error, seqNo := seqNo)]
    {
      steps := steps[i := steps[i].(outcome := Failed, error := error, seqNo := seqNo)];
    }

    method ReadAction(e: Entry, notes: Log, ghost l: Log) returns (out: Log)
      requires e.ActionOver? && Reads(l) && Indexed(l) && notes == Notes(l)
      modifies this`steps
      ensures Reads(ActionRead(l, e)) && out == Notes(ActionRead(l, e))
    {
      out := Parented(notes, e.process, e.parent).(procOf := notes.procOf[e.step.execution := e.process]);
      if e.step.path == "" { return; }
      out := ReadOver(e, out, Parented(l, e.process, e.parent).(procOf := l.procOf[e.step.execution := e.process]));
    }

    // The record ends the run of its execution, or starts one.
    method ReadOver(e: Entry, notes: Log, ghost l: Log) returns (out: Log)
      requires e.ActionOver? && Reads(l) && Indexed(l) && notes == Notes(l)
      modifies this`steps
      ensures Reads(OverRead(l, e)) && out == Notes(OverRead(l, e))
    {
      var failed := e.step.error != "" || (e.effectsMet == Some(false) && !e.progress);
      if e.step.execution !in notes.ended {
        out := AppendRun(NewRun(e.step, e.process, if failed then Failed else Running).(children := []), notes, l);
        return;
      }
      out := notes;
      if failed { FailRun(notes.ended[e.step.execution], e.step.error, e.step.seqNo); }
    }

    method ReadStart(e: Entry, notes: Log, ghost l: Log) returns (out: Log)
      requires e.ProcessStarted? && Reads(l) && notes == Notes(l)
      modifies this`runs
      ensures Reads(EntryRead(l, e)) && out == Notes(EntryRead(l, e))
    {
      out := Parented(notes, e.run.process, e.run.parent);
      out := out.(runIdx := out.runIdx[e.run.process := |runs|]);
      runs := runs + [e.run];
    }

    method ReadStatus(e: Entry, notes: Log, ghost l: Log) returns (out: Log)
      requires e.ProcessEnded? && Reads(l) && RunsIndexed(l) && notes == Notes(l)
      modifies this`runs
      ensures Reads(EntryRead(l, e)) && out == Notes(EntryRead(l, e))
    {
      out := Parented(notes, e.process, e.parent);
      if e.process in notes.runIdx {
        var i := notes.runIdx[e.process];
        runs := runs[i := runs[i].(status := e.status)];
      }
    }

    method ReadOther(e: Entry, notes: Log, ghost l: Log) returns (out: Log)
      requires (e.OtherRecord? || e.ImpactEntry? || e.FactEntry?) && Reads(l) && notes == Notes(l)
      ensures Reads(EntryRead(l, e)) && out == Notes(EntryRead(l, e))
    {
      out := notes;
      match e {
        case OtherRecord(process, parent) =>
          out := Parented(out, process, parent);
        case ImpactEntry(seqNo, id, subject, execution, op) =>
          if subject !in out.born { out := out.(born := out.born[subject := seqNo]); }
          if MovesContent(op) { out := out.(writes := out.writes + [Write(seqNo, subject, execution, id)]); }
        case FactEntry(seqNo, id, kind, key, execution) =>
          var subject := kind + ":" + key;
          if key == "" {
          } else if subject !in out.born {
            out := out.(born := out.born[subject := seqNo]);
          } else {
            out := out.(writes := out.writes + [Write(seqNo, subject, execution, id)]);
          }
      }
    }

    method ReadEntry(e: Entry, notes: Log, ghost l: Log) returns (out: Log)
      requires Reads(l) && Indexed(l) && RunsIndexed(l) && notes == Notes(l)
      modifies this
      ensures Reads(EntryRead(l, e)) && out == Notes(EntryRead(l, e))
    {
      match e {
        case ProcessStarted(_) => out := ReadStart(e, notes, l);
        case ProcessEnded(_, _, _) => out := ReadStatus(e, notes, l);
        case StepEnded(_, _, _) => out := ReadStepEnded(e, notes, l);
        case ActionOver(_, _, _, _, _) => out := ReadAction(e, notes, l);
        case _ => out := ReadOther(e, notes, l);
      }
    }

    /** The history of a log: its runs and steps, and which successes stand. */
    static method Fold(entries: seq<Entry>, relies: (string, string, string) -> bool, ghost rank: string -> nat) returns (h: History)
      requires Ranked(LogOf(entries).parent, rank)
      ensures fresh(h) && h.runs == LogOf(entries).runs && RunsSay(entries, |entries|, h.runs)
      ensures StepsAre(entries, h.steps)
      ensures forall i: nat :: i in Current(h.steps) <==> MayStand(entries, relies, h.steps, Current(h.steps), i)
      ensures forall y: set<nat> :: StandTogether(entries, relies, h.steps, y) ==> y <= Current(h.steps)
      ensures forall w: nat, i: nat :: MovesRun(entries, relies, h.steps, w, i) ==> !h.steps[i].current
      ensures SameRuns(Numbered(LogOf(entries).steps), h.steps)
      ensures Greatest(Numbered(LogOf(entries).steps), ContextOf(LogOf(entries), relies), rank, Current(h.steps))
    {
      h := new History();
      var notes := NoLog;
      for i := 0 to |entries|
        invariant fresh(h) && h.Reads(LogOf(entries[..i])) && notes == Notes(LogOf(entries[..i]))
      {
        PrefixGrows(entries, i);
        LogKeepsItsIndex(entries[..i]);
        notes := h.ReadEntry(entries[i], notes, LogOf(entries[..i]));
      }
      assert entries[..|entries|] == entries;
      LogIsUnjudged(entries);
      h.NumberRuns();
      h.JudgeAll(ContextOf(notes, relies), rank);
      RunsAreTheStarts(entries, |entries|);
      FoldedSteps(entries, h.steps);
      FoldedVerdicts(entries, relies, h.steps, rank);
      MovedIsStale(entries, relies, h.steps);
    }

    method OwnerIndex() returns (owner: map<string, nat>)
      ensures owner == Owners(steps)
    {
      owner := map[];
      for i := 0 to |steps|
        invariant owner == Owners(steps[..i])
      {
        assert steps[..i + 1][..i] == steps[..i];
        var cs := steps[i].children;
        for k := 0 to |cs|
          invariant owner == SetAll(Owners(steps[..i]), cs[..k], i)
        {
          assert cs[..k + 1][..k] == cs[..k];
          owner := owner[cs[k] := i];
        }
        assert cs[..|cs|] == cs;
      }
      assert steps[..|steps|] == steps;
    }

    method FindStep(c: Context, owner: map<string, nat>, execution: string, ghost rank: string -> nat) returns (o: Option<nat>)
      requires Ranked(c.parent, rank) && owner == Owners(steps)
      ensures o == StepOf(steps, c, execution, rank)
    {
      var p := Get(c.procOf, execution);
      while p != ""
        invariant OwnerOf(Get(c.procOf, execution), c.parent, owner, rank) == OwnerOf(p, c.parent, owner, rank)
        decreases if p == "" then 0 else rank(p) + 1
      {
        if p in owner { return Some(owner[p]); }
        p := Get(c.parent, p);
      }
      for i := 0 to |steps|
        invariant RunOf(steps, execution, 0) == RunOf(steps, execution, i)
      {
        if steps[i].execution == execution { return Some(i); }
      }
      return None;
    }

    // The first write that moves a run, none when no write does.
    method FirstMove(c: Context, owner: map<string, nat>, i: nat, ghost rank: string -> nat) returns (w: Option<Write>, ghost at: nat)
      requires Ranked(c.parent, rank) && owner == Owners(steps) && i < |steps|
      ensures w.None? <==> forall k :: 0 <= k < |c.writes| ==> !Moves(steps, c, rank, c.writes[k], i)
      ensures w.Some? ==> FirstMoves(steps, c, rank, at, i) && w.value == c.writes[at]
    {
      at := 0;
      var s := steps[i];
      for k := 0 to |c.writes|
        invariant forall j :: 0 <= j < k ==> !Moves(steps, c, rank, c.writes[j], i)
      {
        var write := c.writes[k];
        if write.seqNo <= s.seqNo || c.Born(write.subject) >= s.seqNo || (s.subjectRef != "" && write.subject != s.subjectRef) {
          continue;
        }
        var maker := FindStep(c, owner, write.execution, rank);
        if maker.Some? && (maker.value == i || c.Rel(steps[maker.value], s)) {
          continue;
        }
        return Some(write), k;
      }
      w := None;
    }

    method Judge(c: Context, owner: map<string, nat>, i: nat, ghost runs0: seq<StepRun>, ghost rank: string -> nat)
      requires Ranked(c.parent, rank) && owner == Owners(steps)
      requires SameRuns(runs0, steps) && i < |steps| && steps[i] == runs0[i] && !runs0[i].current && runs0[i].staleBy == ""
      modifies this`steps
      ensures SameRuns(runs0, steps) && Judged(runs0, steps[i], c, rank, i)
      ensures forall k :: 0 <= k < |steps| && k != i ==> steps[k] == old(steps)[k]
    {
      if steps[i].outcome == Succeeded {
        MovesInBoth(runs0, steps, c, rank, i);
        var w, at := FirstMove(c, owner, i, rank);
        if w.Some? { FirstInBoth(runs0, steps, c, rank, at, i); }
        var s := steps[i];
        steps := steps[i := if w.Some? then s.(current := false, staleBy := "log entry " + w.value.id) else s.(current := true)];
      }
    }

    // (1) A success stands unless a write moved what it started from.
    method ByWrites(c: Context, ghost rank: string -> nat) returns (latest: map<string, nat>)
      requires Ranked(c.parent, rank) && Fresh(steps)
      modifies this`steps
      ensures SameRuns(old(steps), steps) && latest == LatestRuns(old(steps))
      ensures forall i :: 0 <= i < |steps| ==> Judged(old(steps), steps[i], c, rank, i)
    {
      var owner := OwnerIndex();
      latest := map[];
      ghost var runs0 := steps;
      for i := 0 to |steps|
        invariant SameRuns(runs0, steps) && latest == LatestRuns(runs0[..i])
        invariant forall k :: i <= k < |steps| ==> steps[k] == runs0[k]
        invariant forall k :: 0 <= k < i ==> Judged(runs0, steps[k], c, rank, k)
      {
        assert runs0[..i + 1][..i] == runs0[..i];
        latest := latest[steps[i].path := i];
        SameOwners(runs0, steps);
        Judge(c, owner, i, runs0, rank);
      }
      assert runs0[..|runs0|] == runs0;
    }

    // What a run relies on that makes it stale, visited in any order: the latest run of a path is newer or does not stand.
    method FirstUnsound(c: Context, latest: map<string, nat>, i: nat, ghost runs0: seq<StepRun>)
      returns (path: Option<string>, ghost j: nat)
      requires SameRuns(runs0, steps) && i < |steps| && latest == LatestRuns(runs0)
      requires forall k :: 0 <= k < |steps| && steps[k].current ==> steps[k].outcome == Succeeded
      ensures path.Some? ==> ReliesOn(runs0, c, i, j) && (runs0[j].seqNo > runs0[i].seqNo || !steps[j].current) &&
                             path.value == runs0[j].path
      ensures path.None? ==> OlderOnly(runs0, c, i)
    {
      j := 0;
      var rest := latest.Keys;
      while rest != {}
        invariant rest <= latest.Keys
        invariant forall p :: p in latest.Keys - rest && ReliesOn(runs0, c, i, latest[p]) ==> runs0[latest[p]].seqNo <= runs0[i].seqNo
        decreases |rest|
      {
        var p :| p in rest;
        var s, r := steps[i], steps[latest[p]];
        LatestOfPath(runs0, p);
        if p != s.path && c.Rel(s, r) &&
           (r.seqNo > s.seqNo || (r.outcome == Succeeded && !r.current) || r.outcome == Failed) {
          path, j := Some(p), latest[p];
          return;
        }
        rest := rest - {p};
      }
      path := None;
      forall k: nat | ReliesOn(runs0, c, i, k) ensures runs0[k].seqNo <= runs0[i].seqNo {
        LatestIsListed(runs0, k);
      }
    }

    method JudgeReliance(c: Context, latest: map<string, nat>, i: nat, ghost runs0: seq<StepRun>, ghost rank: string -> nat)
      requires Ranked(c.parent, rank) && Sound(runs0, steps, c, rank) && latest == LatestRuns(runs0) && i < |steps|
      modifies this`steps
      ensures Sound(runs0, steps, c, rank) && |steps| == |old(steps)| && Current(steps) <= Current(old(steps))
      ensures i in Current(steps) ==> OlderOnly(runs0, c, i)
    {
      if steps[i].current {
        forall k: nat | k < |steps| && steps[k].current ensures steps[k].outcome == Succeeded {
          assert k in Current(steps);
        }
        var path, j := FirstUnsound(c, latest, i, runs0);
        if path.Some? {
          DropIsSound(runs0, steps, c, rank, i, j, "step " + path.value);
          steps := Dropped(steps, i, "step " + path.value);
        }
      }
    }

    // The first runs of a set rely on older ones.
    static ghost predicate OlderBefore(runs: seq<StepRun>, c: Context, current: set<nat>, i: nat) {
      forall k: nat :: k < i && k in current ==> OlderOnly(runs, c, k)
    }

    static lemma OneMoreIsOlder(runs: seq<StepRun>, c: Context, was: set<nat>, now: set<nat>, i: nat)
      requires OlderBefore(runs, c, was, i) && now <= was && (i in now ==> OlderOnly(runs, c, i))
      ensures OlderBefore(runs, c, now, i + 1)
    {
    }

    // (2) In log order: what a run relies on stands and is older.
    method ByOlderRuns(c: Context, latest: map<string, nat>, ghost runs0: seq<StepRun>, ghost rank: string -> nat)
      requires Ranked(c.parent, rank) && Sound(runs0, steps, c, rank) && latest == LatestRuns(runs0)
      modifies this`steps
      ensures Sound(runs0, steps, c, rank)
      ensures forall i: nat :: i in Current(steps) ==> OlderOnly(runs0, c, i)
    {
      for i := 0 to |steps|
        invariant |steps| == |runs0| && Sound(runs0, steps, c, rank)
        invariant OlderBefore(runs0, c, Current(steps), i)
      {
        ghost var was := Current(steps);
        JudgeReliance(c, latest, i, runs0, rank);
        OneMoreIsOlder(runs0, c, was, Current(steps), i);
      }
    }

    method FirstStale(c: Context, latest: map<string, nat>, i: nat, ghost runs0: seq<StepRun>)
      returns (path: Option<string>, ghost j: nat)
      requires SameRuns(runs0, steps) && i < |steps| && latest == LatestRuns(runs0)
      ensures path.Some? ==> ReliesOn(runs0, c, i, j) && !steps[j].current && path.value == runs0[j].path
      ensures path.None? ==> forall j: nat :: ReliesOn(runs0, c, i, j) ==> steps[j].current
    {
      j := 0;
      var rest := latest.Keys;
      while rest != {}
        invariant rest <= latest.Keys
        invariant forall p :: p in latest.Keys - rest && ReliesOn(runs0, c, i, latest[p]) ==> steps[latest[p]].current
        decreases |rest|
      {
        var p :| p in rest;
        LatestOfPath(runs0, p);
        if p != steps[i].path && c.Rel(steps[i], steps[latest[p]]) && !steps[latest[p]].current {
          path, j := Some(p), latest[p];
          return;
        }
        rest := rest - {p};
      }
      path := None;
      forall k: nat | ReliesOn(runs0, c, i, k) ensures steps[k].current {
        LatestIsListed(runs0, k);
      }
    }

    // A run relying on a stale one is stale.
    method JudgeClosure(c: Context, latest: map<string, nat>, i: nat, ghost runs0: seq<StepRun>, ghost rank: string -> nat)
      returns (stale: bool)
      requires Ranked(c.parent, rank) && Sound(runs0, steps, c, rank) && latest == LatestRuns(runs0) && i < |steps|
      modifies this`steps
      ensures Sound(runs0, steps, c, rank) && |steps| == |old(steps)|
      ensures if stale then Current(steps) < Current(old(steps)) else steps == old(steps)
      ensures !stale && i in Current(steps) ==> forall j: nat :: ReliesOn(runs0, c, i, j) ==> j in Current(steps)
    {
      if !steps[i].current { return false; }
      var path, j := FirstStale(c, latest, i, runs0);
      stale := path.Some?;
      if stale {
        DropIsSound(runs0, steps, c, rank, i, j, "step " + path.value);
        assert i in Current(steps);
        steps := Dropped(steps, i, "step " + path.value);
      }
    }

    // One round: a run relying on a stale one is stale; when none is, every run left relies on runs left.
    method Round(c: Context, latest: map<string, nat>, ghost runs0: seq<StepRun>, ghost rank: string -> nat) returns (changed: bool)
      requires Ranked(c.parent, rank) && Sound(runs0, steps, c, rank) && latest == LatestRuns(runs0)
      modifies this`steps
      ensures Sound(runs0, steps, c, rank) && Current(steps) <= Current(old(steps))
      ensures changed ==> Current(steps) < Current(old(steps))
      ensures !changed ==> ClosedBefore(runs0, c, Current(steps), |runs0|)
    {
      changed := false;
      for i := 0 to |steps|
        invariant |steps| == |runs0| && Sound(runs0, steps, c, rank)
        invariant Current(steps) <= Current(old(steps)) && (changed ==> Current(steps) < Current(old(steps)))
        invariant !changed ==> ClosedBefore(runs0, c, Current(steps), i)
      {
        var stale := JudgeClosure(c, latest, i, runs0, rank);
        changed := changed || stale;
        if !changed { OneMoreIsClosed(runs0, c, Current(steps), i); }
      }
    }

    static lemma OneMoreIsClosed(runs: seq<StepRun>, c: Context, current: set<nat>, i: nat)
      requires ClosedBefore(runs, c, current, i) && (i in current ==> forall j: nat :: ReliesOn(runs, c, i, j) ==> j in current)
      ensures ClosedBefore(runs, c, current, i + 1)
    {
    }

    // The first runs of a set rely on runs of the set.
    static ghost predicate ClosedBefore(runs: seq<StepRun>, c: Context, current: set<nat>, i: nat) {
      forall k: nat, j: nat :: k < i && k in current && ReliesOn(runs, c, k, j) ==> j in current
    }

    /** Which successes still stand: the greatest set nothing moved that is closed under what its runs rely on. */
    method JudgeAll(c: Context, ghost rank: string -> nat)
      requires Ranked(c.parent, rank) && Fresh(steps)
      modifies this`steps
      ensures SameRuns(old(steps), steps) && Reasons(old(steps), steps, c, rank)
      ensures Greatest(old(steps), c, rank, Current(steps))
    {
      ghost var runs0 := steps;
      var latest := ByWrites(c, rank);
      JudgedIsSound(runs0, steps, c, rank);
      ByOlderRuns(c, latest, runs0, rank);
      var changed := true;
      while changed
        invariant Sound(runs0, steps, c, rank)
        invariant forall i: nat :: i in Current(steps) ==> OlderOnly(runs0, c, i)
        invariant !changed ==> ClosedBefore(runs0, c, Current(steps), |runs0|)
        decreases Current(steps), changed
      {
        changed := Round(c, latest, runs0, rank);
      }
    }
  }

  // The verdicts of the fold are the greatest set of runs that may stand together.
  lemma FoldedVerdicts(entries: seq<Entry>, relies: (string, string, string) -> bool, steps: seq<StepRun>, rank: string -> nat)
    requires Ranked(LogOf(entries).parent, rank) && SameRuns(Numbered(LogOf(entries).steps), steps)
    requires Greatest(Numbered(LogOf(entries).steps), ContextOf(LogOf(entries), relies), rank, Current(steps))
    ensures forall i: nat :: i in Current(steps) <==> MayStand(entries, relies, steps, Current(steps), i)
    ensures forall y: set<nat> :: StandTogether(entries, relies, steps, y) ==> y <= Current(steps)
  {
    GreatestInBoth(Numbered(LogOf(entries).steps), steps, ContextOf(LogOf(entries), relies), rank, Current(steps));
    StandingIsGreatest(entries, relies, steps, rank, Current(steps));
  }

  /** A success that a write of the log moves does not stand. */
  lemma MovedIsStale(entries: seq<Entry>, relies: (string, string, string) -> bool, steps: seq<StepRun>)
    requires forall i: nat :: i in Current(steps) <==> MayStand(entries, relies, steps, Current(steps), i)
    ensures forall w: nat, i: nat :: MovesRun(entries, relies, steps, w, i) ==> !steps[i].current
  {
    forall w: nat, i: nat | MovesRun(entries, relies, steps, w, i) ensures !steps[i].current {
      assert steps[i].current ==> i in Current(steps);
    }
  }

  lemma GreatestInBoth(runs: seq<StepRun>, steps: seq<StepRun>, c: Context, rank: string -> nat, x: set<nat>)
    requires Ranked(c.parent, rank) && SameRuns(runs, steps) && Greatest(runs, c, rank, x)
    ensures Greatest(steps, c, rank, x)
  {
    forall y: set<nat> ensures Stands(runs, c, rank, y) <==> Stands(steps, c, rank, y) { StandsInBoth(runs, steps, c, rank, y); }
  }

  lemma StandsInBoth(runs: seq<StepRun>, steps: seq<StepRun>, c: Context, rank: string -> nat, y: set<nat>)
    requires Ranked(c.parent, rank) && SameRuns(runs, steps)
    ensures Stands(runs, c, rank, y) <==> Stands(steps, c, rank, y)
  {
    forall i: nat | i < |runs| ensures Unmoved(runs, c, rank, i) <==> Unmoved(steps, c, rank, i) { MovesInBoth(runs, steps, c, rank, i); }
    forall i: nat, j: nat ensures ReliesOn(runs, c, i, j) <==> ReliesOn(steps, c, i, j) { ReliesInBoth(runs, steps, c, i, j); }
  }

  lemma ReliesInBoth(runs: seq<StepRun>, steps: seq<StepRun>, c: Context, i: nat, j: nat)
    requires SameRuns(runs, steps)
    ensures ReliesOn(runs, c, i, j) <==> ReliesOn(steps, c, i, j)
  {
  }

  // The verdicts on the writes are the start: they drop nothing that stands.
  lemma JudgedIsSound(runs: seq<StepRun>, steps: seq<StepRun>, c: Context, rank: string -> nat)
    requires Ranked(c.parent, rank) && SameRuns(runs, steps)
    requires forall i :: 0 <= i < |steps| ==> Judged(runs, steps[i], c, rank, i)
    ensures Sound(runs, steps, c, rank)
  {
    forall x: set<nat> | Stands(runs, c, rank, x) ensures x <= Current(steps) {
      forall i | i in x ensures i in Current(steps) { assert Judged(runs, steps[i], c, rank, i); }
    }
  }

  lemma FirstInBoth(runs: seq<StepRun>, steps: seq<StepRun>, c: Context, rank: string -> nat, k: nat, i: nat)
    requires Ranked(c.parent, rank) && SameRuns(runs, steps) && i < |runs|
    ensures FirstMoves(runs, c, rank, k, i) <==> FirstMoves(steps, c, rank, k, i)
  {
    forall l | 0 <= l < |c.writes| ensures Moves(runs, c, rank, c.writes[l], i) <==> Moves(steps, c, rank, c.writes[l], i) {
      SameStepOf(runs, steps, c, c.writes[l].execution, rank);
    }
  }

  lemma MovesInBoth(runs: seq<StepRun>, steps: seq<StepRun>, c: Context, rank: string -> nat, i: nat)
    requires Ranked(c.parent, rank) && SameRuns(runs, steps) && i < |runs|
    ensures Unmoved(runs, c, rank, i) <==> Unmoved(steps, c, rank, i)
  {
    forall k | 0 <= k < |c.writes|
      ensures Moves(runs, c, rank, c.writes[k], i) <==> Moves(steps, c, rank, c.writes[k], i)
    {
      SameStepOf(runs, steps, c, c.writes[k].execution, rank);
    }
  }
}
