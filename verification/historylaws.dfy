// What the history of a change says of its log, record by record (contracts/journal/history.go): the writes, the runs
// of its processes and of its steps by the positions of their records, and which successes still stand.
module HistoryLaws {
  import opened Prelude
  import opened Domain
  import opened RunLog

  lemma LogOneMore(entries: seq<Entry>, n: nat, next: nat)
    requires n < |entries| && next == n + 1
    ensures LogOf(entries[..next]) == EntryRead(LogOf(entries[..n]), entries[n])
  {
    assert entries[..next][..n] == entries[..n];
  }

  // ---- the writes

  // The subject an entry is about: an impact, or a fact that has a key.
  function SubjectOf(e: Entry): Option<string> {
    if e.ImpactEntry? then Some(e.subject)
    else if e.FactEntry? && e.key != "" then Some(e.kind + ":" + e.key)
    else None
  }

  predicate SeenBefore(entries: seq<Entry>, n: nat, subject: string) {
    exists i :: 0 <= i < n && i < |entries| && SubjectOf(entries[i]) == Some(subject)
  }

  predicate FirstSeen(entries: seq<Entry>, i: nat, subject: string) {
    i < |entries| && SubjectOf(entries[i]) == Some(subject) && !SeenBefore(entries, i, subject)
  }

  // The entry moves what the steps read: one of five operations on an impact, or a fact on a subject seen before.
  predicate IsWrite(entries: seq<Entry>, i: nat)
    requires i < |entries|
  {
    var e := entries[i];
    (e.ImpactEntry? && (e.op == ImpactUpdated || e.op == ImpactTransitioned || e.op == ImpactCancelled ||
                        e.op == ImpactWithdrawn || e.op == ImpactRebased)) ||
    (e.FactEntry? && e.key != "" && SeenBefore(entries, i, e.kind + ":" + e.key))
  }

  function WriteOf(e: Entry): Write
    requires SubjectOf(e).Some?
  {
    Write(e.seqNo, SubjectOf(e).value, e.execution, e.id)
  }

  // The positions of the writes among the first entries, in order.
  ghost function WritesAt(entries: seq<Entry>, n: nat): (at: seq<nat>)
    requires n <= |entries|
    ensures forall k :: 0 <= k < |at| ==> at[k] < n && IsWrite(entries, at[k])
    ensures forall j, k :: 0 <= j < k < |at| ==> at[j] < at[k]
    ensures forall i: nat :: i < n && IsWrite(entries, i) ==> i in at
  {
    if n == 0 then [] else if IsWrite(entries, n - 1) then WritesAt(entries, n - 1) + [n - 1] else WritesAt(entries, n - 1)
  }

  // Each subject is known from its first entry on, under the number of that entry.
  ghost predicate BornSay(entries: seq<Entry>, n: nat, born: map<string, int>) {
    (forall s :: s in born <==> SeenBefore(entries, n, s)) &&
    forall i: nat, s :: i < n && FirstSeen(entries, i, s) ==> s in born && born[s] == entries[i].seqNo
  }

  // The writes read are the entries that are writes, in order.
  ghost predicate WritesSay(entries: seq<Entry>, n: nat, writes: seq<Write>)
    requires n <= |entries|
  {
    var at := WritesAt(entries, n);
    |writes| == |at| && forall k :: 0 <= k < |at| ==> writes[k] == WriteOf(entries[at[k]])
  }

  lemma SeenOneMore(entries: seq<Entry>, n: nat, next: nat, s: string)
    requires n < |entries| && next == n + 1
    ensures SeenBefore(entries, next, s) <==> SeenBefore(entries, n, s) || SubjectOf(entries[n]) == Some(s)
  {
  }

  // The record of a step moves the steps and the index, and notes the line of its process.
  lemma StepLeaves(l: Log, e: Entry)
    requires e.StepEnded? || e.ActionOver?
    ensures EntryRead(l, e) == l.(steps := EntryRead(l, e).steps, ended := EntryRead(l, e).ended,
                                  parent := Parented(l, e.process, e.parent).parent, procOf := l.procOf[e.step.execution := e.process])
  {
    if e.StepEnded? {
      RunAgainLeaves(Parented(l, e.process, e.parent), NewRun(e.step, e.process, Succeeded).(error := ""));
    } else {
      OverLeaves(Parented(l, e.process, e.parent).(procOf := l.procOf[e.step.execution := e.process]), e);
    }
  }

  // A record of a process says nothing of the subjects.
  lemma RecordsLeave(l: Log, e: Entry)
    requires !e.ImpactEntry? && !e.FactEntry?
    ensures EntryRead(l, e).born == l.born && EntryRead(l, e).writes == l.writes
  {
    if e.StepEnded? || e.ActionOver? { StepLeaves(l, e); }
  }

  lemma RunAgainLeaves(l: Log, s: StepRun)
    ensures RunAgain(l, s) == l.(steps := RunAgain(l, s).steps, ended := RunAgain(l, s).ended)
  {
  }

  lemma OverLeaves(l: Log, e: Entry)
    requires e.ActionOver?
    ensures OverRead(l, e) == l.(steps := OverRead(l, e).steps, ended := OverRead(l, e).ended)
  {
    RunAgainLeaves(l, NewRun(e.step, e.process, if StepFailed(e) then Failed else Running).(children := []));
  }

  lemma SubjectRead(l: Log, e: Entry)
    requires e.ImpactEntry? || e.FactEntry?
    ensures EntryRead(l, e).born == if SubjectOf(e).None? || SubjectOf(e).value in l.born then l.born
                                    else l.born[SubjectOf(e).value := e.seqNo]
  {
    if e.ImpactEntry? { ImpactSubjectRead(l, e); }
  }

  lemma ImpactSubjectRead(l: Log, e: Entry)
    requires e.ImpactEntry?
    ensures EntryRead(l, e).born == if e.subject in l.born then l.born else l.born[e.subject := e.seqNo]
  {
  }

  lemma WriteRead(entries: seq<Entry>, n: nat, l: Log)
    requires n < |entries| && BornSay(entries, n, l.born)
    ensures EntryRead(l, entries[n]).writes == if IsWrite(entries, n) then l.writes + [WriteOf(entries[n])] else l.writes
  {
    var e := entries[n];
    if !e.ImpactEntry? && !e.FactEntry? { RecordsLeave(l, e); }
  }

  lemma BornStep(entries: seq<Entry>, n: nat, next: nat, l: Log)
    requires n < |entries| && next == n + 1 && BornSay(entries, n, l.born)
    ensures BornSay(entries, next, EntryRead(l, entries[n]).born)
  {
    var e := entries[n];
    if e.ImpactEntry? || e.FactEntry? { SubjectRead(l, e); } else { RecordsLeave(l, e); }
    BornGrows(entries, n, next, l.born, EntryRead(l, e).born);
  }

  lemma BornGrows(entries: seq<Entry>, n: nat, next: nat, was: map<string, int>, now: map<string, int>)
    requires n < |entries| && next == n + 1 && BornSay(entries, n, was)
    requires now == if SubjectOf(entries[n]).None? || SubjectOf(entries[n]).value in was then was
                    else was[SubjectOf(entries[n]).value := entries[n].seqNo]
    ensures BornSay(entries, next, now)
  {
    forall s ensures s in now <==> SeenBefore(entries, next, s) { SeenOneMore(entries, n, next, s); }
  }

  lemma WritesStep(entries: seq<Entry>, n: nat, next: nat, l: Log)
    requires n < |entries| && next == n + 1 && BornSay(entries, n, l.born) && WritesSay(entries, n, l.writes)
    ensures WritesSay(entries, next, EntryRead(l, entries[n]).writes)
  {
    WriteRead(entries, n, l);
    WritesGrow(entries, n, next, l.writes, EntryRead(l, entries[n]).writes);
  }

  lemma WritesGrow(entries: seq<Entry>, n: nat, next: nat, was: seq<Write>, now: seq<Write>)
    requires n < |entries| && next == n + 1 && WritesSay(entries, n, was)
    requires now == if IsWrite(entries, n) then was + [WriteOf(entries[n])] else was
    ensures WritesSay(entries, next, now)
  {
    assert WritesAt(entries, next) == if IsWrite(entries, n) then WritesAt(entries, n) + [n] else WritesAt(entries, n);
  }

  /** The writes of a log and the first appearances of its subjects are those of its entries. */
  lemma {:induction false} WritesAreTheEntries(entries: seq<Entry>, n: nat)
    requires n <= |entries|
    ensures BornSay(entries, n, LogOf(entries[..n]).born)
    ensures WritesSay(entries, n, LogOf(entries[..n]).writes)
  {
    if n > 0 {
      var last := n - 1;
      WritesAreTheEntries(entries, last);
      LogOneMore(entries, last, n);
      BornStep(entries, last, n, LogOf(entries[..last]));
      WritesStep(entries, last, n, LogOf(entries[..last]));
    }
  }

  // ---- the processes

  // The parent a record names for a process, none: "".
  function Named(e: Entry, p: string): string {
    match e
    case ProcessStarted(run) => if run.process == p then run.parent else ""
    case ProcessEnded(process, parent, _) => if process == p then parent else ""
    case StepEnded(process, parent, _) => if process == p then parent else ""
    case ActionOver(process, parent, _, _, _) => if process == p then parent else ""
    case OtherRecord(process, parent) => if process == p then parent else ""
    case _ => ""
  }

  // The record is about a step executed under an id.
  predicate RecordOf(e: Entry, execution: string) { (e.StepEnded? || e.ActionOver?) && e.step.execution == execution }

  predicate LastNaming(entries: seq<Entry>, n: nat, p: string, i: nat) {
    i < n <= |entries| && Named(entries[i], p) != "" && forall j :: i < j < n ==> Named(entries[j], p) == ""
  }

  predicate LastRecord(entries: seq<Entry>, n: nat, x: string, i: nat) {
    i < n <= |entries| && RecordOf(entries[i], x) && forall j :: i < j < n ==> !RecordOf(entries[j], x)
  }

  // A process has the last parent a record named for it; an execution is of the process of its last record.
  ghost predicate LinesSay(entries: seq<Entry>, n: nat, parent: map<string, string>, procOf: map<string, string>)
    requires n <= |entries|
  {
    (forall p :: p in parent ==> exists i: nat :: LastNaming(entries, n, p, i) && parent[p] == Named(entries[i], p)) &&
    (forall p :: p !in parent ==> forall i :: 0 <= i < n ==> Named(entries[i], p) == "") &&
    (forall x :: x in procOf ==> exists i: nat :: LastRecord(entries, n, x, i) && procOf[x] == entries[i].process) &&
    (forall x :: x !in procOf ==> forall i :: 0 <= i < n ==> !RecordOf(entries[i], x))
  }

  lemma NamingGrows(entries: seq<Entry>, n: nat, next: nat, p: string, i: nat)
    requires n < |entries| && next == n + 1 && LastNaming(entries, n, p, i) && Named(entries[n], p) == ""
    ensures LastNaming(entries, next, p, i)
  {
  }

  lemma RecordGrows(entries: seq<Entry>, n: nat, next: nat, x: string, i: nat)
    requires n < |entries| && next == n + 1 && LastRecord(entries, n, x, i) && !RecordOf(entries[n], x)
    ensures LastRecord(entries, next, x, i)
  {
  }

  lemma ParentRead(l: Log, e: Entry, p: string)
    ensures Lookup(EntryRead(l, e).parent, p) == if Named(e, p) != "" then Some(Named(e, p)) else Lookup(l.parent, p)
  {
    if e.StepEnded? || e.ActionOver? { StepLeaves(l, e); } else { OtherParentRead(l, e, p); }
  }

  lemma OtherParentRead(l: Log, e: Entry, p: string)
    requires !e.StepEnded? && !e.ActionOver?
    ensures Lookup(EntryRead(l, e).parent, p) == if Named(e, p) != "" then Some(Named(e, p)) else Lookup(l.parent, p)
  {
    if e.ProcessStarted? {
      StartLeavesParents(Parented(l, e.run.process, e.run.parent), e.run);
    } else if e.ProcessEnded? {
      EndLeavesParents(Parented(l, e.process, e.parent), e.process, e.status);
    } else if e.ImpactEntry? || e.FactEntry? {
      WritesLeaveParents(l, e);
    }
  }

  lemma StartLeavesParents(l: Log, run: Run)
    ensures StartRead(l, run).parent == l.parent
  {
  }

  lemma EndLeavesParents(l: Log, process: string, status: string)
    ensures StatusRead(l, process, status).parent == l.parent
  {
  }

  lemma WritesLeaveParents(l: Log, e: Entry)
    requires e.ImpactEntry? || e.FactEntry?
    ensures EntryRead(l, e).parent == l.parent
  {
  }

  lemma ProcRead(l: Log, e: Entry, x: string)
    ensures Lookup(EntryRead(l, e).procOf, x) == if RecordOf(e, x) then Some(e.process) else Lookup(l.procOf, x)
  {
    if e.StepEnded? || e.ActionOver? { StepLeaves(l, e); }
  }

  lemma LinesStep(entries: seq<Entry>, n: nat, next: nat, l: Log)
    requires n < |entries| && next == n + 1 && LinesSay(entries, n, l.parent, l.procOf)
    ensures LinesSay(entries, next, EntryRead(l, entries[n]).parent, EntryRead(l, entries[n]).procOf)
  {
    var d := EntryRead(l, entries[n]);
    forall p ensures if p in d.parent then exists i: nat :: LastNaming(entries, next, p, i) && d.parent[p] == Named(entries[i], p)
                     else forall i :: 0 <= i < next ==> Named(entries[i], p) == ""
    {
      ParentRead(l, entries[n], p);
      if Named(entries[n], p) != "" {
        assert LastNaming(entries, next, p, n);
      } else if p in l.parent {
        var i: nat :| LastNaming(entries, n, p, i) && l.parent[p] == Named(entries[i], p);
        NamingGrows(entries, n, next, p, i);
      }
    }
    forall x ensures if x in d.procOf then exists i: nat :: LastRecord(entries, next, x, i) && d.procOf[x] == entries[i].process
                     else forall i :: 0 <= i < next ==> !RecordOf(entries[i], x)
    {
      ProcRead(l, entries[n], x);
      if RecordOf(entries[n], x) {
        assert LastRecord(entries, next, x, n);
      } else if x in l.procOf {
        var i: nat :| LastRecord(entries, n, x, i) && l.procOf[x] == entries[i].process;
        RecordGrows(entries, n, next, x, i);
      }
    }
  }

  /** The line of a process and the process of an execution are those of the last records that name them. */
  lemma {:induction false} LinesAreTheRecords(entries: seq<Entry>, n: nat)
    requires n <= |entries|
    ensures LinesSay(entries, n, LogOf(entries[..n]).parent, LogOf(entries[..n]).procOf)
  {
    if n > 0 {
      var last := n - 1;
      LinesAreTheRecords(entries, last);
      LogOneMore(entries, last, n);
      LinesStep(entries, last, n, LogOf(entries[..last]));
    }
  }

  // ---- the runs of the processes

  // The record ends a run: the process did not start again in between.
  predicate EndsRun(entries: seq<Entry>, i: nat, j: nat)
    requires i < |entries| && entries[i].ProcessStarted?
  {
    i < j < |entries| && entries[j].ProcessEnded? && entries[j].process == entries[i].run.process &&
    forall k :: i < k < j ==> !(entries[k].ProcessStarted? && entries[k].run.process == entries[i].run.process)
  }

  predicate LastEnding(entries: seq<Entry>, n: nat, i: nat, j: nat)
    requires i < |entries| && entries[i].ProcessStarted?
  {
    j < n && EndsRun(entries, i, j) && forall k: nat :: j < k < n ==> !EndsRun(entries, i, k)
  }

  // A run is as its start says, with the status of the last record that ended it.
  ghost predicate RunSays(entries: seq<Entry>, n: nat, i: nat, run: Run) {
    i < n <= |entries| && entries[i].ProcessStarted? &&
    run == entries[i].run.(status := run.status) &&
    (if exists j: nat :: LastEnding(entries, n, i, j) then exists j: nat :: LastEnding(entries, n, i, j) && run.status == entries[j].status
     else run.status == entries[i].run.status && forall j: nat :: j < n ==> !EndsRun(entries, i, j))
  }

  ghost function StartsAt(entries: seq<Entry>, n: nat): (at: seq<nat>)
    requires n <= |entries|
    ensures forall k :: 0 <= k < |at| ==> at[k] < n && entries[at[k]].ProcessStarted?
    ensures forall j, k :: 0 <= j < k < |at| ==> at[j] < at[k]
    ensures forall i: nat :: i < n && entries[i].ProcessStarted? ==> i in at
  {
    if n == 0 then [] else if entries[n - 1].ProcessStarted? then StartsAt(entries, n - 1) + [n - 1] else StartsAt(entries, n - 1)
  }

  predicate LastStart(entries: seq<Entry>, n: nat, p: string, i: nat) {
    i < n <= |entries| && entries[i].ProcessStarted? && entries[i].run.process == p &&
    forall k :: i < k < n ==> !(entries[k].ProcessStarted? && entries[k].run.process == p)
  }

  // The runs of a log are its starts, in order; the index names the last start of each process.
  ghost predicate RunsSay(entries: seq<Entry>, n: nat, runs: seq<Run>)
    requires n <= |entries|
  {
    RunsSayAt(entries, n, StartsAt(entries, n), runs)
  }

  ghost predicate RunsSayAt(entries: seq<Entry>, n: nat, at: seq<nat>, runs: seq<Run>) {
    |runs| == |at| && forall k :: 0 <= k < |at| ==> RunSays(entries, n, at[k], runs[k])
  }

  ghost predicate StartsSay(entries: seq<Entry>, n: nat, runIdx: map<string, nat>)
    requires n <= |entries|
  {
    IndexSays(entries, n, StartsAt(entries, n), runIdx)
  }

  ghost predicate IndexSays(entries: seq<Entry>, n: nat, at: seq<nat>, runIdx: map<string, nat>)
    requires n <= |entries|
  {
    (forall p :: p in runIdx ==> runIdx[p] < |at| && LastStart(entries, n, p, at[runIdx[p]])) &&
    forall p :: p !in runIdx ==> forall i :: 0 <= i < n && entries[i].ProcessStarted? ==> entries[i].run.process != p
  }

  // The run a record ends is that of the last start of its process.
  lemma EndsTheLast(entries: seq<Entry>, n: nat, p: string, i: nat, last: nat)
    requires n < |entries| && entries[n].ProcessEnded? && entries[n].process == p
    requires LastStart(entries, n, p, last) && i < n && entries[i].ProcessStarted?
    ensures EndsRun(entries, i, n) <==> i == last
  {
  }

  lemma EndsNothing(entries: seq<Entry>, n: nat, next: nat, i: nat, run: Run)
    requires n < |entries| && next == n + 1 && RunSays(entries, n, i, run) && !EndsRun(entries, i, n)
    ensures RunSays(entries, next, i, run)
  {
    if exists j: nat :: LastEnding(entries, n, i, j) {
      var j: nat :| LastEnding(entries, n, i, j) && run.status == entries[j].status;
      assert LastEnding(entries, next, i, j);
    } else {
      assert forall j: nat :: j < next ==> !EndsRun(entries, i, j);
    }
  }

  lemma EndsNow(entries: seq<Entry>, n: nat, next: nat, i: nat, run: Run)
    requires n < |entries| && next == n + 1 && RunSays(entries, n, i, run) && EndsRun(entries, i, n)
    ensures RunSays(entries, next, i, run.(status := entries[n].status))
  {
    assert LastEnding(entries, next, i, n);
  }

  lemma StartsNow(entries: seq<Entry>, n: nat, next: nat)
    requires n < |entries| && next == n + 1 && entries[n].ProcessStarted?
    ensures RunSays(entries, next, n, entries[n].run)
  {
  }

  lemma StartIndexes(entries: seq<Entry>, n: nat, next: nat, runIdx: map<string, nat>)
    requires n < |entries| && next == n + 1 && StartsSay(entries, n, runIdx) && entries[n].ProcessStarted?
    ensures StartsSay(entries, next, runIdx[entries[n].run.process := |StartsAt(entries, n)|])
  {
    StartsGrow(entries, n, next);
    IndexGrows(entries, n, next, StartsAt(entries, n), runIdx);
  }

  lemma StartsGrow(entries: seq<Entry>, n: nat, next: nat)
    requires n < |entries| && next == n + 1 && entries[n].ProcessStarted?
    ensures StartsAt(entries, next) == StartsAt(entries, n) + [n]
  {
  }

  lemma IndexGrows(entries: seq<Entry>, n: nat, next: nat, at: seq<nat>, runIdx: map<string, nat>)
    requires n < |entries| && next == n + 1 && IndexSays(entries, n, at, runIdx) && entries[n].ProcessStarted?
    ensures IndexSays(entries, next, at + [n], runIdx[entries[n].run.process := |at|])
  {
  }

  lemma StartRuns(entries: seq<Entry>, n: nat, next: nat, runs: seq<Run>, runIdx: map<string, nat>)
    requires n < |entries| && next == n + 1 && RunsSay(entries, n, runs) && StartsSay(entries, n, runIdx) && entries[n].ProcessStarted?
    ensures RunsSay(entries, next, runs + [entries[n].run])
    ensures StartsSay(entries, next, runIdx[entries[n].run.process := |runs|])
  {
    StartIndexes(entries, n, next, runIdx);
    var at := StartsAt(entries, n);
    StartsGrow(entries, n, next);
    StartsNow(entries, n, next);
    forall k | 0 <= k < |at| ensures RunSays(entries, next, at[k], runs[k]) { EndsNothing(entries, n, next, at[k], runs[k]); }
  }

  function Ended(runs: seq<Run>, runIdx: map<string, nat>, e: Entry): seq<Run>
    requires e.ProcessEnded?
  {
    if e.process in runIdx && runIdx[e.process] < |runs|
    then runs[runIdx[e.process] := runs[runIdx[e.process]].(status := e.status)] else runs
  }

  lemma EndRuns(entries: seq<Entry>, n: nat, next: nat, runs: seq<Run>, runIdx: map<string, nat>)
    requires n < |entries| && next == n + 1 && RunsSay(entries, n, runs) && StartsSay(entries, n, runIdx) && entries[n].ProcessEnded?
    ensures RunsSay(entries, next, Ended(runs, runIdx, entries[n]))
  {
    if entries[n].process in runIdx { EndIndexed(entries, n, next, runs, runIdx); } else { KeepRuns(entries, n, next, runs, runIdx); }
  }

  lemma StartsKept(entries: seq<Entry>, n: nat, next: nat)
    requires n < |entries| && next == n + 1 && !entries[n].ProcessStarted?
    ensures StartsAt(entries, next) == StartsAt(entries, n)
  {
  }

  lemma EndIndexed(entries: seq<Entry>, n: nat, next: nat, runs: seq<Run>, runIdx: map<string, nat>)
    requires n < |entries| && next == n + 1 && RunsSay(entries, n, runs) && StartsSay(entries, n, runIdx) && entries[n].ProcessEnded?
    requires entries[n].process in runIdx
    ensures RunsSay(entries, next, Ended(runs, runIdx, entries[n]))
  {
    StartsKept(entries, n, next);
    EndIndexedAt(entries, n, next, StartsAt(entries, n), runs, runIdx[entries[n].process]);
  }

  lemma EndIndexedAt(entries: seq<Entry>, n: nat, next: nat, at: seq<nat>, runs: seq<Run>, i: nat)
    requires n < |entries| && next == n + 1 && RunsSayAt(entries, n, at, runs) && entries[n].ProcessEnded?
    requires i < |at| && LastStart(entries, n, entries[n].process, at[i]) && forall j, k :: 0 <= j < k < |at| ==> at[j] < at[k]
    ensures RunsSayAt(entries, next, at, runs[i := runs[i].(status := entries[n].status)])
  {
    var out := runs[i := runs[i].(status := entries[n].status)];
    forall k | 0 <= k < |at| ensures RunSays(entries, next, at[k], out[k]) {
      EndedSays(entries, n, next, at[k], at[i], runs[k]);
      assert k == i <==> at[k] == at[i];
    }
  }

  function EndedIf(run: Run, hit: bool, e: Entry): Run
    requires e.ProcessEnded?
  {
    if hit then run.(status := e.status) else run
  }

  lemma EndedSays(entries: seq<Entry>, n: nat, next: nat, i: nat, last: nat, run: Run)
    requires n < |entries| && next == n + 1 && RunSays(entries, n, i, run) && entries[n].ProcessEnded?
    requires LastStart(entries, n, entries[n].process, last)
    ensures RunSays(entries, next, i, EndedIf(run, i == last, entries[n]))
  {
    EndsTheLast(entries, n, entries[n].process, i, last);
    if i == last { EndsNow(entries, n, next, i, run); } else { EndsNothing(entries, n, next, i, run); }
  }

  lemma KeepRuns(entries: seq<Entry>, n: nat, next: nat, runs: seq<Run>, runIdx: map<string, nat>)
    requires n < |entries| && next == n + 1 && RunsSay(entries, n, runs) && StartsSay(entries, n, runIdx) && !entries[n].ProcessStarted?
    requires entries[n].ProcessEnded? ==> entries[n].process !in runIdx
    ensures RunsSay(entries, next, runs)
  {
    var at := StartsAt(entries, n);
    StartsKept(entries, n, next);
    forall k | 0 <= k < |at| ensures RunSays(entries, next, at[k], runs[k]) { EndsNothing(entries, n, next, at[k], runs[k]); }
  }

  lemma KeepStarts(entries: seq<Entry>, n: nat, next: nat, runIdx: map<string, nat>)
    requires n < |entries| && next == n + 1 && StartsSay(entries, n, runIdx) && !entries[n].ProcessStarted?
    ensures StartsSay(entries, next, runIdx)
  {
    StartsKept(entries, n, next);
  }

  lemma OtherRuns(l: Log, e: Entry)
    requires !e.ProcessStarted? && !e.ProcessEnded?
    ensures EntryRead(l, e).runs == l.runs && EntryRead(l, e).runIdx == l.runIdx
  {
    if e.StepEnded? || e.ActionOver? { StepLeaves(l, e); }
  }

  lemma RunsStep(entries: seq<Entry>, n: nat, next: nat, l: Log)
    requires n < |entries| && next == n + 1 && RunsSay(entries, n, l.runs) && StartsSay(entries, n, l.runIdx)
    ensures RunsSay(entries, next, EntryRead(l, entries[n]).runs) && StartsSay(entries, next, EntryRead(l, entries[n]).runIdx)
  {
    var e := entries[n];
    if e.ProcessStarted? {
      StartRuns(entries, n, next, l.runs, l.runIdx);
      StartedRuns(l, e);
    } else {
      KeepStarts(entries, n, next, l.runIdx);
      if e.ProcessEnded? {
        EndRuns(entries, n, next, l.runs, l.runIdx);
        EndedRuns(l, e);
      } else {
        KeepRuns(entries, n, next, l.runs, l.runIdx);
        OtherRuns(l, e);
      }
    }
  }

  lemma StartedRuns(l: Log, e: Entry)
    requires e.ProcessStarted?
    ensures EntryRead(l, e).runs == l.runs + [e.run] && EntryRead(l, e).runIdx == l.runIdx[e.run.process := |l.runs|]
  {
  }

  lemma EndedRuns(l: Log, e: Entry)
    requires e.ProcessEnded?
    ensures EntryRead(l, e).runs == Ended(l.runs, l.runIdx, e) && EntryRead(l, e).runIdx == l.runIdx
  {
    StatusIsRead(Parented(l, e.process, e.parent), e);
  }

  lemma StatusIsRead(d: Log, e: Entry)
    requires e.ProcessEnded?
    ensures StatusRead(d, e.process, e.status) == d.(runs := Ended(d.runs, d.runIdx, e))
  {
  }

  /** The runs of a log are the starts of its processes, each with the status of the last record that ended it. */
  lemma {:induction false} RunsAreTheStarts(entries: seq<Entry>, n: nat)
    requires n <= |entries|
    ensures RunsSay(entries, n, LogOf(entries[..n]).runs) && StartsSay(entries, n, LogOf(entries[..n]).runIdx)
  {
    if n > 0 {
      var last := n - 1;
      RunsAreTheStarts(entries, last);
      LogOneMore(entries, last, n);
      RunsStep(entries, last, n, LogOf(entries[..last]));
    }
  }

  // ---- the runs of the steps

  // No record says that the step executed under an id ended, among those between two positions.
  predicate NoEnd(entries: seq<Entry>, i: int, n: nat, execution: string) {
    forall k :: i < k < n && 0 <= k < |entries| ==> !(entries[k].StepEnded? && entries[k].step.execution == execution)
  }

  // The record of an action that failed: it has an error, or its effects are not met and it made no progress.
  predicate Fails(e: Entry)
    requires e.ActionOver?
  {
    e.step.error != "" || (e.effectsMet == Some(false) && !e.progress)
  }

  // The record opens a run: the step ended, or its action is over though no record says that it ended.
  predicate Opens(entries: seq<Entry>, i: nat) {
    i < |entries| &&
    (entries[i].StepEnded? ||
     (entries[i].ActionOver? && entries[i].step.path != "" && NoEnd(entries, -1, i, entries[i].step.execution)))
  }

  // The run that a record opened is not over.
  predicate Waits(e: Entry) { e.ActionOver? && !Fails(e) }

  predicate SameStep(a: Entry, b: Entry)
    requires (a.StepEnded? || a.ActionOver?) && (b.StepEnded? || b.ActionOver?)
  {
    a.step.path == b.step.path && a.process == b.process
  }

  // A run stays unless it is not over and its process runs the step again.
  ghost predicate Stays(entries: seq<Entry>, n: nat, i: nat) {
    i < n <= |entries| && Opens(entries, i) &&
    !(Waits(entries[i]) && exists k: nat :: i < k < n && Opens(entries, k) && SameStep(entries[i], entries[k]))
  }

  // The record fails the run that another record ended, which is the last one ended under its execution.
  predicate FailsRun(entries: seq<Entry>, i: nat, j: nat) {
    i < j < |entries| && entries[i].StepEnded? && entries[j].ActionOver? && entries[j].step.path != "" && Fails(entries[j]) &&
    entries[j].step.execution == entries[i].step.execution && NoEnd(entries, i, j, entries[i].step.execution)
  }

  predicate LastFailure(entries: seq<Entry>, n: nat, i: nat, j: nat) {
    j < n && FailsRun(entries, i, j) && forall k: nat :: j < k < n ==> !FailsRun(entries, i, k)
  }

  // A run is of the step and process of its record, and its outcome is that of its record, or of the last that failed it.
  ghost predicate StepSays(entries: seq<Entry>, n: nat, i: nat, s: StepRun)
    requires i < n <= |entries| && Opens(entries, i)
  {
    var e := entries[i];
    s == e.step.(process := e.process, children := if e.StepEnded? then e.step.children else [], runs := 0, current := false,
                 staleBy := "", outcome := s.outcome, error := s.error, seqNo := s.seqNo) &&
    OutcomeSays(entries, n, i, s)
  }

  ghost predicate OutcomeSays(entries: seq<Entry>, n: nat, i: nat, s: StepRun)
    requires i < n <= |entries| && Opens(entries, i)
  {
    var e := entries[i];
    if e.ActionOver? then s.outcome == (if Fails(e) then Failed else Running) && s.error == e.step.error && s.seqNo == e.step.seqNo
    else if exists j: nat :: LastFailure(entries, n, i, j) then
      s.outcome == Failed &&
      exists j: nat :: LastFailure(entries, n, i, j) && s.error == entries[j].step.error && s.seqNo == entries[j].step.seqNo
    else
      s.outcome == Succeeded && s.error == "" && s.seqNo == e.step.seqNo && forall j: nat :: j < n ==> !FailsRun(entries, i, j)
  }

  // Positions in order, those of the runs that stay.
  ghost predicate Staying(entries: seq<Entry>, n: nat, at: seq<nat>) {
    n <= |entries| &&
    (forall k :: 0 <= k < |at| ==> Stays(entries, n, at[k])) &&
    (forall j, k :: 0 <= j < k < |at| ==> at[j] < at[k]) &&
    forall i: nat :: Stays(entries, n, i) ==> i in at
  }

  ghost predicate StepsSay(entries: seq<Entry>, n: nat, at: seq<nat>, steps: seq<StepRun>) {
    Staying(entries, n, at) && |steps| == |at| && forall k :: 0 <= k < |at| ==> StepSays(entries, n, at[k], steps[k])
  }

  predicate LastEnd(entries: seq<Entry>, n: nat, x: string, i: nat) {
    i < n <= |entries| && entries[i].StepEnded? && entries[i].step.execution == x && NoEnd(entries, i, n, x)
  }

  // The index names the run of the last record that a step ended under each execution.
  ghost predicate EndsSay(entries: seq<Entry>, n: nat, at: seq<nat>, ended: map<string, nat>) {
    (forall x :: x in ended ==> ended[x] < |at| && LastEnd(entries, n, x, at[ended[x]])) &&
    forall x :: x !in ended ==> NoEnd(entries, -1, n, x)
  }

  // ---- one record more

  lemma EndsKeep(entries: seq<Entry>, n: nat, next: nat, at: seq<nat>, ended: map<string, nat>)
    requires n < |entries| && next == n + 1 && EndsSay(entries, n, at, ended) && !entries[n].StepEnded?
    ensures EndsSay(entries, next, at, ended)
  {
  }

  lemma StaysKeep(entries: seq<Entry>, n: nat, next: nat, at: seq<nat>)
    requires n < |entries| && next == n + 1 && Staying(entries, n, at) && !Opens(entries, n)
    ensures Staying(entries, next, at)
  {
    forall i: nat | i < n ensures Stays(entries, next, i) <==> Stays(entries, n, i) { }
  }

  lemma SaysKeep(entries: seq<Entry>, n: nat, next: nat, i: nat, s: StepRun)
    requires i < n < |entries| && next == n + 1 && Opens(entries, i) && StepSays(entries, n, i, s) && !FailsRun(entries, i, n)
    ensures StepSays(entries, next, i, s)
  {
    if entries[i].StepEnded? {
      if exists j: nat :: LastFailure(entries, n, i, j) {
        var j: nat :| LastFailure(entries, n, i, j) && s.error == entries[j].step.error && s.seqNo == entries[j].step.seqNo;
        assert LastFailure(entries, next, i, j);
      } else {
        assert forall j: nat :: j < next ==> !FailsRun(entries, i, j);
      }
    }
  }

  function FailedBy(s: StepRun, e: Entry): StepRun
    requires e.ActionOver?
  {
    s.(outcome := Failed, error := e.step.error, seqNo := e.step.seqNo)
  }

  lemma SaysFail(entries: seq<Entry>, n: nat, next: nat, i: nat, s: StepRun)
    requires i < n < |entries| && next == n + 1 && Opens(entries, i) && StepSays(entries, n, i, s) && FailsRun(entries, i, n)
    ensures StepSays(entries, next, i, FailedBy(s, entries[n]))
  {
    assert LastFailure(entries, next, i, n);
  }

  // A run is not over exactly when its record says so.
  lemma RunningWaits(entries: seq<Entry>, n: nat, i: nat, s: StepRun)
    requires i < n <= |entries| && Opens(entries, i) && StepSays(entries, n, i, s)
    ensures s.outcome == Running <==> Waits(entries[i])
    ensures s.path == entries[i].step.path && s.process == entries[i].process
  {
  }

  function Without(at: seq<nat>, i: int): seq<nat>
    requires i < |at|
  {
    if i < 0 then at else at[..i] + at[i + 1..]
  }

  lemma WithoutAt(at: seq<nat>, i: nat, k: nat)
    requires i < |at| && k < |at| - 1
    ensures Without(at, i)[k] == at[if k < i then k else k + 1]
  {
  }

  // The run that is dropped when a step is run again, none: -1.
  function DroppedAt(steps: seq<StepRun>, path: string, process: string): (i: int)
    ensures -1 <= i < |steps|
  {
    var i := LastOf(steps, path, process);
    if i >= 0 && steps[i].outcome == Running then i else -1
  }

  lemma DroppedIsTheWaiting(entries: seq<Entry>, n: nat, at: seq<nat>, steps: seq<StepRun>, k: nat)
    requires n < |entries| && StepsSay(entries, n, at, steps) && RunningLast(steps) && Opens(entries, n) && k < |at|
    ensures Waits(entries[at[k]]) && SameStep(entries[at[k]], entries[n]) <==>
            k == DroppedAt(steps, entries[n].step.path, entries[n].process)
  {
    RunningWaits(entries, n, at[k], steps[k]);
    var i := LastOf(steps, entries[n].step.path, entries[n].process);
    if i >= 0 { RunningWaits(entries, n, at[i], steps[i]); }
  }

  lemma StaysOneMore(entries: seq<Entry>, n: nat, next: nat, i: nat)
    requires i < n < |entries| && next == n + 1 && Opens(entries, n) && Opens(entries, i)
    ensures Stays(entries, next, i) <==> Stays(entries, n, i) && !(Waits(entries[i]) && SameStep(entries[i], entries[n]))
  {
    if Waits(entries[i]) && SameStep(entries[i], entries[n]) { assert i < n < next; }
  }

  lemma OpensStays(entries: seq<Entry>, n: nat, next: nat, at: seq<nat>, steps: seq<StepRun>)
    requires n < |entries| && next == n + 1 && StepsSay(entries, n, at, steps) && RunningLast(steps) && Opens(entries, n)
    ensures Staying(entries, next, Without(at, DroppedAt(steps, entries[n].step.path, entries[n].process)) + [n])
  {
    var i := DroppedAt(steps, entries[n].step.path, entries[n].process);
    var left := Without(at, i);
    WithoutAscends(at, i);
    AllLeftStay(entries, n, next, at, steps, left);
    AllStayLeft(entries, n, next, at, steps, left);
    OneMoreStays(entries, n, next, left);
  }

  ghost predicate Ascending(at: seq<nat>) { forall j, k :: 0 <= j < k < |at| ==> at[j] < at[k] }

  // The runs before a position that stay after it are those of some positions.
  ghost predicate OnlyStaying(entries: seq<Entry>, n: nat, next: nat, left: seq<nat>) {
    forall k :: 0 <= k < |left| ==> left[k] < n && Stays(entries, next, left[k])
  }

  ghost predicate EveryStaying(entries: seq<Entry>, n: nat, next: nat, left: seq<nat>) {
    forall x: nat :: Stays(entries, next, x) && x < n ==> x in left
  }

  lemma AllLeftStay(entries: seq<Entry>, n: nat, next: nat, at: seq<nat>, steps: seq<StepRun>, left: seq<nat>)
    requires n < |entries| && next == n + 1 && StepsSay(entries, n, at, steps) && RunningLast(steps) && Opens(entries, n)
    requires left == Without(at, DroppedAt(steps, entries[n].step.path, entries[n].process))
    ensures OnlyStaying(entries, n, next, left)
  {
    forall k: nat | k < |left| ensures left[k] < n && Stays(entries, next, left[k]) { LeftStays(entries, n, next, at, steps, k); }
  }

  lemma AllStayLeft(entries: seq<Entry>, n: nat, next: nat, at: seq<nat>, steps: seq<StepRun>, left: seq<nat>)
    requires n < |entries| && next == n + 1 && StepsSay(entries, n, at, steps) && RunningLast(steps) && Opens(entries, n)
    requires left == Without(at, DroppedAt(steps, entries[n].step.path, entries[n].process))
    ensures EveryStaying(entries, n, next, left)
  {
    forall x: nat | Stays(entries, next, x) && x < n ensures x in left { StaysIsLeft(entries, n, next, at, steps, x); }
  }

  lemma OneMoreStays(entries: seq<Entry>, n: nat, next: nat, left: seq<nat>)
    requires n < |entries| && next == n + 1 && Opens(entries, n) && Ascending(left)
    requires OnlyStaying(entries, n, next, left) && EveryStaying(entries, n, next, left)
    ensures Staying(entries, next, left + [n])
  {
    assert Stays(entries, next, n);
  }

  lemma WithoutAscends(at: seq<nat>, i: int)
    requires i < |at| && Ascending(at)
    ensures Ascending(Without(at, i))
  {
  }

  lemma LeftStays(entries: seq<Entry>, n: nat, next: nat, at: seq<nat>, steps: seq<StepRun>, k: nat)
    requires n < |entries| && next == n + 1 && StepsSay(entries, n, at, steps) && RunningLast(steps) && Opens(entries, n)
    requires k < |Without(at, DroppedAt(steps, entries[n].step.path, entries[n].process))|
    ensures var x := Without(at, DroppedAt(steps, entries[n].step.path, entries[n].process))[k]; x < n && Stays(entries, next, x)
  {
    var i := DroppedAt(steps, entries[n].step.path, entries[n].process);
    var was := if i < 0 || k < i then k else k + 1;
    if i >= 0 { WithoutAt(at, i, k); }
    DroppedIsTheWaiting(entries, n, at, steps, was);
    assert Stays(entries, n, at[was]);
    StaysOneMore(entries, n, next, at[was]);
  }

  lemma StaysIsLeft(entries: seq<Entry>, n: nat, next: nat, at: seq<nat>, steps: seq<StepRun>, x: nat)
    requires n < |entries| && next == n + 1 && StepsSay(entries, n, at, steps) && RunningLast(steps) && Opens(entries, n)
    requires x < n && Stays(entries, next, x)
    ensures x in Without(at, DroppedAt(steps, entries[n].step.path, entries[n].process))
  {
    var i := DroppedAt(steps, entries[n].step.path, entries[n].process);
    StaysOneMore(entries, n, next, x);
    var k: nat :| k < |at| && at[k] == x;
    DroppedIsTheWaiting(entries, n, at, steps, k);
    WithoutKeeps(at, i, k);
  }

  lemma WithoutKeeps(at: seq<nat>, i: int, k: nat)
    requires -1 <= i < |at| && k < |at| && k != i
    ensures at[k] in Without(at, i)
  {
    if i >= 0 {
      assert Without(at, i)[if k < i then k else k - 1] == at[k];
    }
  }

  // The steps once the waiting run of a step is dropped and a new one added.
  lemma OpensSays(entries: seq<Entry>, n: nat, next: nat, at: seq<nat>, steps: seq<StepRun>, s: StepRun)
    requires n < |entries| && next == n + 1 && StepsSay(entries, n, at, steps) && RunningLast(steps) && Opens(entries, n)
    requires StepSays(entries, next, n, s)
    requires forall k :: 0 <= k < |at| ==> !FailsRun(entries, at[k], n)
    ensures var i := DroppedAt(steps, entries[n].step.path, entries[n].process);
      StepsSay(entries, next, Without(at, i) + [n], StepsWithout(steps, i) + [s])
  {
    var i := DroppedAt(steps, entries[n].step.path, entries[n].process);
    OpensStays(entries, n, next, at, steps);
    forall k: nat | k < |Without(at, i)| ensures LeftSays(entries, next, Without(at, i), StepsWithout(steps, i), k) {
      LeftIsSaid(entries, n, next, at, steps, i, k);
    }
    AppendSays(entries, n, next, Without(at, i), StepsWithout(steps, i), s);
  }

  ghost predicate LeftSays(entries: seq<Entry>, n: nat, at: seq<nat>, steps: seq<StepRun>, k: nat) {
    k < |at| == |steps| && at[k] < n <= |entries| && Opens(entries, at[k]) && StepSays(entries, n, at[k], steps[k])
  }

  lemma LeftIsSaid(entries: seq<Entry>, n: nat, next: nat, at: seq<nat>, steps: seq<StepRun>, i: int, k: nat)
    requires n < |entries| && next == n + 1 && StepsSay(entries, n, at, steps) && -1 <= i < |at|
    requires forall k :: 0 <= k < |at| ==> !FailsRun(entries, at[k], n)
    requires k < |Without(at, i)|
    ensures LeftSays(entries, next, Without(at, i), StepsWithout(steps, i), k)
  {
    var was := if i < 0 || k < i then k else k + 1;
    BothWithoutAt(at, steps, i, k);
    assert Stays(entries, n, at[was]);
    SaysKeep(entries, n, next, at[was], steps[was]);
  }

  lemma BothWithoutAt(at: seq<nat>, steps: seq<StepRun>, i: int, k: nat)
    requires |at| == |steps| && -1 <= i < |at| && k < |Without(at, i)|
    ensures var was := if i < 0 || k < i then k else k + 1;
      was < |at| && k < |StepsWithout(steps, i)| && Without(at, i)[k] == at[was] && StepsWithout(steps, i)[k] == steps[was]
  {
    if i >= 0 { WithoutAt(at, i, k); }
  }

  lemma AppendSays(entries: seq<Entry>, n: nat, next: nat, at: seq<nat>, steps: seq<StepRun>, s: StepRun)
    requires n < next <= |entries| && Staying(entries, next, at + [n]) && |at| == |steps|
    requires forall k: nat :: k < |at| ==> LeftSays(entries, next, at, steps, k)
    requires Opens(entries, n) && StepSays(entries, next, n, s)
    ensures StepsSay(entries, next, at + [n], steps + [s])
  {
    forall k: nat | k < |at| ensures at[k] < next && Opens(entries, at[k]) && StepSays(entries, next, at[k], steps[k]) {
      assert LeftSays(entries, next, at, steps, k);
    }
  }

  function StepsWithout(steps: seq<StepRun>, i: int): seq<StepRun>
    requires i < |steps|
  {
    if i < 0 then steps else steps[..i] + steps[i + 1..]
  }

  lemma DropIs(l: Log, path: string, process: string)
    ensures var d := DropAt(l, LastOf(l.steps, path, process)); var i := DroppedAt(l.steps, path, process);
      d.steps == StepsWithout(l.steps, i) && d.ended == EndsWithout(l.ended, i)
  {
    var i := LastOf(l.steps, path, process);
    if i >= 0 && l.steps[i].outcome == Running { DropAtIs(l, i); }
  }

  lemma DropAtIs(l: Log, i: nat)
    requires i < |l.steps| && l.steps[i].outcome == Running
    ensures DropAt(l, i).steps == StepsWithout(l.steps, i) && DropAt(l, i).ended == EndsWithout(l.ended, i)
  {
  }

  function EndsWithout(ended: map<string, nat>, i: int): map<string, nat> {
    if i < 0 then ended else map x | x in ended :: if ended[x] > i then ended[x] - 1 else ended[x]
  }

  lemma EndsDrop(entries: seq<Entry>, n: nat, at: seq<nat>, ended: map<string, nat>, steps: seq<StepRun>, i: int)
    requires EndsSay(entries, n, at, ended) && |steps| == |at| && i < |at|
    requires forall x :: x in ended ==> ended[x] < |steps| && steps[ended[x]].outcome != Running
    requires i >= 0 ==> steps[i].outcome == Running
    ensures EndsSay(entries, n, Without(at, i), EndsWithout(ended, i))
  {
    if i >= 0 {
      var left := EndsWithout(ended, i);
      forall x | x in left ensures left[x] < |at| - 1 && LastEnd(entries, n, x, Without(at, i)[left[x]]) {
        assert ended[x] != i;
        WithoutAt(at, i, left[x]);
      }
    }
  }

  lemma EndsAppend(entries: seq<Entry>, n: nat, at: seq<nat>, ended: map<string, nat>)
    requires EndsSay(entries, n, at, ended)
    ensures EndsSay(entries, n, at + [n], ended)
  {
  }

  lemma EndsNew(entries: seq<Entry>, n: nat, next: nat, at: seq<nat>, ended: map<string, nat>)
    requires n < |entries| && next == n + 1 && EndsSay(entries, n, at, ended) && entries[n].StepEnded?
    ensures EndsSay(entries, next, at + [n], ended[entries[n].step.execution := |at|])
  {
  }

  // A record that opens a run fails none.
  lemma OpeningFailsNone(entries: seq<Entry>, n: nat, i: nat)
    requires i < n < |entries| && Opens(entries, n)
    ensures !FailsRun(entries, i, n)
  {
  }

  // The record of an action fails the run that its execution is the index of, and no other.
  lemma FailsTheIndexed(entries: seq<Entry>, n: nat, at: seq<nat>, ended: map<string, nat>, k: nat)
    requires n < |entries| && Staying(entries, n, at) && EndsSay(entries, n, at, ended) && entries[n].ActionOver?
    requires entries[n].step.execution in ended && k < |at|
    ensures FailsRun(entries, at[k], n) <==>
            k == ended[entries[n].step.execution] && entries[n].step.path != "" && Fails(entries[n])
  {
    assert LastEnd(entries, n, entries[n].step.execution, at[ended[entries[n].step.execution]]);
  }

  // The steps and the index of a log are what its first records say.
  ghost predicate Told(entries: seq<Entry>, n: nat, at: seq<nat>, steps: seq<StepRun>, ended: map<string, nat>) {
    StepsSay(entries, n, at, steps) && EndsSay(entries, n, at, ended)
  }

  // A record that neither opens nor fails a run leaves the steps.
  lemma OtherTold(entries: seq<Entry>, n: nat, next: nat, at: seq<nat>, l: Log)
    requires n < |entries| && next == n + 1 && Told(entries, n, at, l.steps, l.ended) && !entries[n].StepEnded? && !Opens(entries, n)
    requires forall k :: 0 <= k < |at| ==> !FailsRun(entries, at[k], n)
    ensures Told(entries, next, at, l.steps, l.ended)
  {
    EndsKeep(entries, n, next, at, l.ended);
    StaysKeep(entries, n, next, at);
    forall k | 0 <= k < |at| ensures StepSays(entries, next, at[k], l.steps[k]) { SaysKeep(entries, n, next, at[k], l.steps[k]); }
  }

  lemma FailTold(entries: seq<Entry>, n: nat, next: nat, at: seq<nat>, l: Log)
    requires n < |entries| && next == n + 1 && Told(entries, n, at, l.steps, l.ended) && entries[n].ActionOver?
    requires entries[n].step.execution in l.ended && entries[n].step.path != "" && Fails(entries[n])
    ensures var i := l.ended[entries[n].step.execution];
      i < |l.steps| && Told(entries, next, at, l.steps[i := FailedBy(l.steps[i], entries[n])], l.ended)
  {
    var i := l.ended[entries[n].step.execution];
    EndsKeep(entries, n, next, at, l.ended);
    assert !Opens(entries, n) by {
      assert LastEnd(entries, n, entries[n].step.execution, at[i]);
    }
    StaysKeep(entries, n, next, at);
    FailSays(entries, n, next, at, l.steps, l.ended);
    AllSay(entries, next, at, l.steps[i := FailedBy(l.steps[i], entries[n])]);
  }

  lemma AllSay(entries: seq<Entry>, n: nat, at: seq<nat>, steps: seq<StepRun>)
    requires Staying(entries, n, at) && |at| == |steps| && forall k: nat :: k < |at| ==> LeftSays(entries, n, at, steps, k)
    ensures StepsSay(entries, n, at, steps)
  {
    forall k: nat | k < |at| ensures at[k] < n && Opens(entries, at[k]) && StepSays(entries, n, at[k], steps[k]) {
      assert LeftSays(entries, n, at, steps, k);
    }
  }

  lemma FailSays(entries: seq<Entry>, n: nat, next: nat, at: seq<nat>, steps: seq<StepRun>, ended: map<string, nat>)
    requires n < |entries| && next == n + 1 && StepsSay(entries, n, at, steps) && EndsSay(entries, n, at, ended) && entries[n].ActionOver?
    requires entries[n].step.execution in ended && entries[n].step.path != "" && Fails(entries[n])
    ensures var i := ended[entries[n].step.execution]; var out := steps[i := FailedBy(steps[i], entries[n])];
      forall k: nat :: k < |at| ==> LeftSays(entries, next, at, out, k)
  {
    var i := ended[entries[n].step.execution];
    var out := steps[i := FailedBy(steps[i], entries[n])];
    forall k: nat | k < |at| ensures LeftSays(entries, next, at, out, k) {
      assert Stays(entries, n, at[k]);
      FailsTheIndexed(entries, n, at, ended, k);
      if k == i { SaysFail(entries, n, next, at[k], steps[k]); } else { SaysKeep(entries, n, next, at[k], steps[k]); }
    }
  }

  // The run a record opens.
  function Opened(e: Entry): StepRun
    requires e.StepEnded? || e.ActionOver?
  {
    if e.StepEnded? then NewRun(e.step, e.process, Succeeded).(error := "")
    else NewRun(e.step, e.process, if StepFailed(e) then Failed else Running).(children := [])
  }

  lemma OpenedSays(entries: seq<Entry>, n: nat, next: nat)
    requires n < |entries| && next == n + 1 && Opens(entries, n)
    ensures StepSays(entries, next, n, Opened(entries[n]))
  {
  }

  lemma RunAgainTold(entries: seq<Entry>, n: nat, next: nat, at: seq<nat>, l: Log)
    requires n < |entries| && next == n + 1 && Told(entries, n, at, l.steps, l.ended) && Indexed(l) && RunningLast(l.steps) && Opens(entries, n)
    ensures var i := DroppedAt(l.steps, entries[n].step.path, entries[n].process);
      var r := RunAgain(l, Opened(entries[n]));
      StepsSay(entries, next, Without(at, i) + [n], r.steps) && EndsSay(entries, n, Without(at, i), r.ended) &&
      |r.steps| == |Without(at, i)| + 1
  {
    var e := entries[n];
    var i := DroppedAt(l.steps, e.step.path, e.process);
    DropIs(l, e.step.path, e.process);
    EndsDrop(entries, n, at, l.ended, l.steps, i);
    OpenedSays(entries, n, next);
    forall k | 0 <= k < |at| ensures !FailsRun(entries, at[k], n) { OpeningFailsNone(entries, n, at[k]); }
    OpensSays(entries, n, next, at, l.steps, Opened(e));
  }

  lemma EndIsRead(l: Log, e: Entry)
    requires e.StepEnded?
    ensures var r := RunAgain(Parented(l, e.process, e.parent), Opened(e));
      EndRead(l, e).steps == r.steps && EndRead(l, e).ended == r.ended[e.step.execution := |r.steps| - 1]
  {
  }

  lemma EndTold(entries: seq<Entry>, n: nat, next: nat, at: seq<nat>, l: Log)
    returns (now: seq<nat>)
    requires n < |entries| && next == n + 1 && Told(entries, n, at, l.steps, l.ended) && Indexed(l) && RunningLast(l.steps)
    requires entries[n].StepEnded?
    ensures var r := EndRead(l, entries[n]); Told(entries, next, now, r.steps, r.ended)
  {
    var e := entries[n];
    var d := Parented(l, e.process, e.parent);
    var i := DroppedAt(l.steps, e.step.path, e.process);
    RunAgainTold(entries, n, next, at, d);
    EndsNew(entries, n, next, Without(at, i), RunAgain(d, Opened(e)).ended);
    EndIsRead(l, e);
    now := Without(at, i) + [n];
  }

  lemma OverTold(entries: seq<Entry>, n: nat, next: nat, at: seq<nat>, l: Log)
    returns (now: seq<nat>)
    requires n < |entries| && next == n + 1 && Told(entries, n, at, l.steps, l.ended) && Indexed(l) && RunningLast(l.steps)
    requires entries[n].ActionOver? && entries[n].step.path != ""
    ensures var r := OverRead(l, entries[n]); Told(entries, next, now, r.steps, r.ended)
  {
    var e := entries[n];
    if e.step.execution !in l.ended {
      now := NewTold(entries, n, next, at, l);
    } else if Fails(e) {
      FailTold(entries, n, next, at, l);
      now := at;
    } else {
      EndedTold(entries, n, next, at, l);
      now := at;
    }
  }

  // An action that did not fail, of a run that ended.
  lemma EndedTold(entries: seq<Entry>, n: nat, next: nat, at: seq<nat>, l: Log)
    requires n < |entries| && next == n + 1 && Told(entries, n, at, l.steps, l.ended)
    requires entries[n].ActionOver? && !Fails(entries[n]) && entries[n].step.execution in l.ended
    ensures Told(entries, next, at, l.steps, l.ended)
  {
    var x := entries[n].step.execution;
    assert !Opens(entries, n) by {
      assert LastEnd(entries, n, x, at[l.ended[x]]);
    }
    forall k | 0 <= k < |at| ensures !FailsRun(entries, at[k], n) { FailsTheIndexed(entries, n, at, l.ended, k); }
    OtherTold(entries, n, next, at, l);
  }

  // An action of a run that did not end.
  lemma NewTold(entries: seq<Entry>, n: nat, next: nat, at: seq<nat>, l: Log) returns (now: seq<nat>)
    requires n < |entries| && next == n + 1 && Told(entries, n, at, l.steps, l.ended) && Indexed(l) && RunningLast(l.steps)
    requires entries[n].ActionOver? && entries[n].step.path != "" && entries[n].step.execution !in l.ended
    ensures var r := OverRead(l, entries[n]); Told(entries, next, now, r.steps, r.ended)
  {
    var e := entries[n];
    var i := DroppedAt(l.steps, e.step.path, e.process);
    RunAgainTold(entries, n, next, at, l);
    EndsAppend(entries, n, Without(at, i), RunAgain(l, Opened(e)).ended);
    EndsKeep(entries, n, next, Without(at, i) + [n], RunAgain(l, Opened(e)).ended);
    now := Without(at, i) + [n];
  }

  lemma ActionTold(entries: seq<Entry>, n: nat, next: nat, at: seq<nat>, l: Log)
    returns (now: seq<nat>)
    requires n < |entries| && next == n + 1 && Told(entries, n, at, l.steps, l.ended) && Indexed(l) && RunningLast(l.steps)
    requires entries[n].ActionOver?
    ensures var r := ActionRead(l, entries[n]); Told(entries, next, now, r.steps, r.ended)
  {
    var e := entries[n];
    var d := Parented(l, e.process, e.parent).(procOf := l.procOf[e.step.execution := e.process]);
    if e.step.path == "" {
      OtherTold(entries, n, next, at, d);
      now := at;
    } else {
      now := OverTold(entries, n, next, at, d);
    }
  }

  lemma EntryTold(entries: seq<Entry>, n: nat, next: nat, at: seq<nat>, l: Log)
    returns (now: seq<nat>)
    requires n < |entries| && next == n + 1 && Told(entries, n, at, l.steps, l.ended) && Indexed(l) && RunningLast(l.steps)
    ensures var r := EntryRead(l, entries[n]); Told(entries, next, now, r.steps, r.ended)
  {
    var e := entries[n];
    if e.StepEnded? {
      now := EndTold(entries, n, next, at, l);
    } else if e.ActionOver? {
      now := ActionTold(entries, n, next, at, l);
    } else {
      OtherLeavesSteps(l, e);
      OtherTold(entries, n, next, at, l);
      now := at;
    }
  }

  lemma {:induction false} StepsAreTold(entries: seq<Entry>, n: nat)
    requires n <= |entries|
    ensures var l := LogOf(entries[..n]); exists at: seq<nat> :: Told(entries, n, at, l.steps, l.ended)
  {
    if n == 0 {
      var none: seq<nat> := [];
      assert LogOf(entries[..n]) == NoLog;
      assert Told(entries, n, none, LogOf(entries[..n]).steps, LogOf(entries[..n]).ended);
    } else {
      var last := n - 1;
      StepsAreTold(entries, last);
      var l := LogOf(entries[..last]);
      var at: seq<nat> :| Told(entries, last, at, l.steps, l.ended);
      LogKeepsItsIndex(entries[..last]);
      LogOneMore(entries, last, n);
      var now := EntryTold(entries, last, n, at, l);
      assert Told(entries, n, now, LogOf(entries[..n]).steps, LogOf(entries[..n]).ended);
    }
  }

  /** The positions of the records that opened the runs of the steps, in order. */
  ghost function RunsAt(entries: seq<Entry>): (at: seq<nat>)
    ensures StepsSay(entries, |entries|, at, LogOf(entries).steps)
  {
    StepsAreTold(entries, |entries|);
    assert entries[..|entries|] == entries;
    var at: seq<nat> :| Told(entries, |entries|, at, LogOf(entries).steps, LogOf(entries).ended); at
  }

  // ---- who made a write

  // The parent the records give a process, none: "".
  ghost predicate IsParent(entries: seq<Entry>, p: string, q: string) {
    if q == "" then forall i :: 0 <= i < |entries| ==> Named(entries[i], p) == ""
    else exists i: nat :: LastNaming(entries, |entries|, p, i) && Named(entries[i], p) == q
  }

  // The process the records give an execution, none: "".
  ghost predicate IsProcess(entries: seq<Entry>, x: string, p: string) {
    (p == "" && forall i :: 0 <= i < |entries| ==> !RecordOf(entries[i], x)) ||
    exists i: nat :: LastRecord(entries, |entries|, x, i) && entries[i].process == p
  }

  // The last run that started a process.
  predicate StartedBy(steps: seq<StepRun>, p: string, j: nat) {
    j < |steps| && p in steps[j].children && forall k :: j < k < |steps| ==> p !in steps[k].children
  }

  predicate StartedByNone(steps: seq<StepRun>, p: string) { forall k :: 0 <= k < |steps| ==> p !in steps[k].children }

  // The processes from that of an execution up to the first one that a run started.
  ghost predicate Climbs(entries: seq<Entry>, steps: seq<StepRun>, x: string, line: seq<string>) {
    line != [] && IsProcess(entries, x, line[0]) && UpTo(entries, steps, line)
  }

  ghost predicate GoesUp(entries: seq<Entry>, line: seq<string>, k: nat) {
    k + 1 < |line| ==> IsParent(entries, line[k], line[k + 1])
  }

  ghost predicate UpTo(entries: seq<Entry>, steps: seq<StepRun>, line: seq<string>)
    requires line != []
  {
    (forall k :: 0 <= k < |line| ==> line[k] != "") &&
    (forall k: nat :: GoesUp(entries, line, k)) &&
    (forall k :: 0 <= k < |line| - 1 ==> StartedByNone(steps, line[k])) &&
    !StartedByNone(steps, line[|line| - 1])
  }

  predicate FirstOf(steps: seq<StepRun>, x: string, j: nat) {
    j < |steps| && steps[j].execution == x && forall k :: 0 <= k < j ==> steps[k].execution != x
  }

  /** A run made what was written under an execution: it started the process or one above it, or it is that execution's. */
  ghost predicate Made(entries: seq<Entry>, steps: seq<StepRun>, x: string, j: nat) {
    (exists line :: Climbs(entries, steps, x, line) && StartedBy(steps, line[|line| - 1], j)) ||
    ((forall line :: !Climbs(entries, steps, x, line)) && FirstOf(steps, x, j))
  }

  lemma {:induction false} SetAllAre(m: map<string, nat>, keys: seq<string>, i: nat, p: string)
    ensures Lookup(SetAll(m, keys, i), p) == if p in keys then Some(i) else Lookup(m, p)
  {
    if keys != [] { SetAllAre(m, keys[..|keys| - 1], i, p); }
  }

  lemma {:induction false} OwnersAre(steps: seq<StepRun>, p: string)
    ensures p in Owners(steps) ==> StartedBy(steps, p, Owners(steps)[p])
    ensures p !in Owners(steps) ==> StartedByNone(steps, p)
  {
    if steps != [] {
      var n := |steps| - 1;
      OwnersAre(steps[..n], p);
      SetAllAre(Owners(steps[..n]), steps[n].children, n, p);
    }
  }

  lemma {:induction false} RunOfIsFirst(steps: seq<StepRun>, x: string, i: nat)
    requires i <= |steps| && forall k :: 0 <= k < i ==> steps[k].execution != x
    ensures forall j: nat :: RunOf(steps, x, i) == Some(j) <==> FirstOf(steps, x, j)
    decreases |steps| - i
  {
    if i < |steps| && steps[i].execution != x { RunOfIsFirst(steps, x, i + 1); }
  }

  // The records' parents are those the fold noted.
  lemma ParentsAgree(entries: seq<Entry>, p: string)
    ensures IsParent(entries, p, Get(LogOf(entries).parent, p))
    ensures forall q :: IsParent(entries, p, q) ==> q == Get(LogOf(entries).parent, p)
  {
    LinesAreTheRecords(entries, |entries|);
    assert entries[..|entries|] == entries;
    LineAgrees(entries, LogOf(entries).parent, LogOf(entries).procOf, p);
  }

  lemma LineAgrees(entries: seq<Entry>, parent: map<string, string>, procOf: map<string, string>, p: string)
    requires LinesSay(entries, |entries|, parent, procOf)
    ensures IsParent(entries, p, Get(parent, p))
    ensures forall q :: IsParent(entries, p, q) ==> q == Get(parent, p)
  {
    if p in parent {
      var i: nat :| LastNaming(entries, |entries|, p, i) && parent[p] == Named(entries[i], p);
      forall q | IsParent(entries, p, q) ensures q == parent[p] { LastNamesIt(entries, p, i, q); }
    }
  }

  lemma LastNamesIt(entries: seq<Entry>, p: string, i: nat, q: string)
    requires LastNaming(entries, |entries|, p, i) && IsParent(entries, p, q)
    ensures q == Named(entries[i], p)
  {
    if q != "" {
      var j: nat :| LastNaming(entries, |entries|, p, j) && Named(entries[j], p) == q;
    }
  }

  // So are the processes of the executions.
  lemma ProcessesAgree(entries: seq<Entry>, x: string)
    ensures IsProcess(entries, x, Get(LogOf(entries).procOf, x))
    ensures forall q :: IsProcess(entries, x, q) ==> q == Get(LogOf(entries).procOf, x)
  {
    LinesAreTheRecords(entries, |entries|);
    assert entries[..|entries|] == entries;
  }

  // The run a process belongs to is the one that started the first of its line that one did.
  lemma {:induction false} OwnerClimbs(entries: seq<Entry>, steps: seq<StepRun>, p: string, rank: string -> nat)
    returns (line: seq<string>)
    requires Ranked(LogOf(entries).parent, rank) && OwnerOf(p, LogOf(entries).parent, Owners(steps), rank).Some?
    ensures line != [] && line[0] == p && UpTo(entries, steps, line)
    ensures StartedBy(steps, line[|line| - 1], OwnerOf(p, LogOf(entries).parent, Owners(steps), rank).value)
    decreases if p == "" then 0 else rank(p) + 1
  {
    OwnersAre(steps, p);
    if p in Owners(steps) {
      line := [p];
    } else {
      var q := Get(LogOf(entries).parent, p);
      ParentsAgree(entries, p);
      var rest := OwnerClimbs(entries, steps, q, rank);
      line := [p] + rest;
      LineGrows(entries, steps, p, rest);
    }
  }

  lemma LineGrows(entries: seq<Entry>, steps: seq<StepRun>, p: string, rest: seq<string>)
    requires rest != [] && UpTo(entries, steps, rest) && p != "" && IsParent(entries, p, rest[0]) && StartedByNone(steps, p)
    ensures UpTo(entries, steps, [p] + rest)
  {
    var line := [p] + rest;
    forall k: nat ensures GoesUp(entries, line, k) {
      if k > 0 { assert GoesUp(entries, rest, k - 1); }
    }
    assert line[|line| - 1] == rest[|rest| - 1];
  }

  // Any line gives the same run.
  lemma {:induction false} LineIsTheOwners(entries: seq<Entry>, steps: seq<StepRun>, line: seq<string>, j: nat, rank: string -> nat)
    requires Ranked(LogOf(entries).parent, rank)
    requires line != [] && UpTo(entries, steps, line) && StartedBy(steps, line[|line| - 1], j)
    ensures OwnerOf(line[0], LogOf(entries).parent, Owners(steps), rank) == Some(j)
    decreases |line|
  {
    OwnersAre(steps, line[0]);
    if |line| > 1 {
      var rest := line[1..];
      ParentsAgree(entries, line[0]);
      LineShrinks(entries, steps, line);
      LineIsTheOwners(entries, steps, rest, j, rank);
    }
  }

  lemma LineShrinks(entries: seq<Entry>, steps: seq<StepRun>, line: seq<string>)
    requires |line| > 1 && UpTo(entries, steps, line)
    ensures UpTo(entries, steps, line[1..]) && IsParent(entries, line[0], line[1])
  {
    var rest := line[1..];
    assert GoesUp(entries, line, 0);
    forall k: nat ensures GoesUp(entries, rest, k) { assert GoesUp(entries, line, k + 1); }
    assert rest[|rest| - 1] == line[|line| - 1];
  }

  /** The run the fold finds for an execution is the one that made what was written under it. */
  lemma MakerIsFound(entries: seq<Entry>, steps: seq<StepRun>, c: Context, x: string, j: nat, rank: string -> nat)
    requires Ranked(c.parent, rank) && c.parent == LogOf(entries).parent && c.procOf == LogOf(entries).procOf
    ensures StepOf(steps, c, x, rank) == Some(j) <==> Made(entries, steps, x, j)
  {
    var o := OwnerOf(Get(c.procOf, x), c.parent, Owners(steps), rank);
    forall line, i: nat | Climbs(entries, steps, x, line) && StartedBy(steps, line[|line| - 1], i) ensures o == Some(i) {
      ClimbersAgree(entries, steps, x, line, i, rank);
    }
    if o.Some? {
      var line := Climber(entries, steps, x, rank);
    } else {
      NoneClimbs(entries, steps, x, rank);
      RunOfIsFirst(steps, x, 0);
    }
  }

  lemma ClimbersAgree(entries: seq<Entry>, steps: seq<StepRun>, x: string, line: seq<string>, i: nat, rank: string -> nat)
    requires Ranked(LogOf(entries).parent, rank)
    requires Climbs(entries, steps, x, line) && StartedBy(steps, line[|line| - 1], i)
    ensures OwnerOf(Get(LogOf(entries).procOf, x), LogOf(entries).parent, Owners(steps), rank) == Some(i)
  {
    ProcessesAgree(entries, x);
    LineIsTheOwners(entries, steps, line, i, rank);
  }

  lemma Climber(entries: seq<Entry>, steps: seq<StepRun>, x: string, rank: string -> nat) returns (line: seq<string>)
    requires Ranked(LogOf(entries).parent, rank)
    requires OwnerOf(Get(LogOf(entries).procOf, x), LogOf(entries).parent, Owners(steps), rank).Some?
    ensures Climbs(entries, steps, x, line)
    ensures StartedBy(steps, line[|line| - 1], OwnerOf(Get(LogOf(entries).procOf, x), LogOf(entries).parent, Owners(steps), rank).value)
  {
    ProcessesAgree(entries, x);
    line := OwnerClimbs(entries, steps, Get(LogOf(entries).procOf, x), rank);
  }

  lemma NoneClimbs(entries: seq<Entry>, steps: seq<StepRun>, x: string, rank: string -> nat)
    requires Ranked(LogOf(entries).parent, rank)
    requires OwnerOf(Get(LogOf(entries).procOf, x), LogOf(entries).parent, Owners(steps), rank).None?
    ensures forall line :: !Climbs(entries, steps, x, line)
  {
    forall line | Climbs(entries, steps, x, line) ensures false {
      var p := line[|line| - 1];
      OwnersAre(steps, p);
      var i: nat := Owners(steps)[p];
      ClimbersAgree(entries, steps, x, line, i, rank);
    }
  }

  // ---- what stands

  // A step relies on another of its methodology, as the methodology says.
  predicate Later(relies: (string, string, string) -> bool, a: StepRun, b: StepRun) {
    a.methodology == b.methodology && relies(a.methodology, a.path, b.path)
  }

  // The subject of an entry first appeared before a position of the log.
  ghost predicate WasThere(entries: seq<Entry>, subject: string, seqNo: int) {
    exists f: nat :: FirstSeen(entries, f, subject) && entries[f].seqNo < seqNo
  }

  /** The write moves what a run started from: it comes after, on what was there, and nothing relying on the run made it. */
  ghost predicate MovesRun(entries: seq<Entry>, relies: (string, string, string) -> bool, steps: seq<StepRun>, w: nat, i: nat) {
    w < |entries| && i < |steps| && IsWrite(entries, w) && entries[w].seqNo > steps[i].seqNo &&
    WasThere(entries, SubjectOf(entries[w]).value, steps[i].seqNo) &&
    (steps[i].subjectRef == "" || steps[i].subjectRef == SubjectOf(entries[w]).value) &&
    !MadeByReader(entries, relies, steps, entries[w].execution, i)
  }

  // What was written under an execution was made by the run, or by one relying on it.
  ghost predicate MadeByReader(entries: seq<Entry>, relies: (string, string, string) -> bool, steps: seq<StepRun>, x: string, i: nat)
    requires i < |steps|
  {
    exists j: nat :: Made(entries, steps, x, j) && (j == i || (j < |steps| && Later(relies, steps[j], steps[i])))
  }

  // The latest run of a path that another step relies on.
  ghost predicate NeedsRun(relies: (string, string, string) -> bool, steps: seq<StepRun>, i: nat, j: nat) {
    i < |steps| && j < |steps| && steps[j].path != steps[i].path && Later(relies, steps[i], steps[j]) &&
    forall k :: j < k < |steps| ==> steps[k].path != steps[j].path
  }

  /** A run may stand beside others: it succeeded, nothing moved it, and what it relies on is there and no later than it. */
  ghost predicate MayStand(entries: seq<Entry>, relies: (string, string, string) -> bool, steps: seq<StepRun>, x: set<nat>, i: nat) {
    i < |steps| && steps[i].outcome == Succeeded && (forall w: nat :: !MovesRun(entries, relies, steps, w, i)) &&
    forall j: nat :: NeedsRun(relies, steps, i, j) ==> j in x && steps[j].seqNo <= steps[i].seqNo
  }

  /** Runs that stand together. */
  ghost predicate StandTogether(entries: seq<Entry>, relies: (string, string, string) -> bool, steps: seq<StepRun>, x: set<nat>) {
    forall i :: i in x ==> MayStand(entries, relies, steps, x, i)
  }

  lemma MoreMayStand(entries: seq<Entry>, relies: (string, string, string) -> bool, steps: seq<StepRun>, x: set<nat>, y: set<nat>, i: nat)
    requires x <= y && MayStand(entries, relies, steps, x, i)
    ensures MayStand(entries, relies, steps, y, i)
  {
  }

  lemma {:induction false} FirstExists(entries: seq<Entry>, n: nat, s: string) returns (f: nat)
    requires n <= |entries| && SeenBefore(entries, n, s)
    ensures f < n && FirstSeen(entries, f, s)
  {
    var i :| 0 <= i < n && SubjectOf(entries[i]) == Some(s);
    if SeenBefore(entries, i, s) { f := FirstExists(entries, i, s); } else { f := i; }
  }

  // The fold's number of a subject is that of its first entry.
  lemma BornIsFirst(entries: seq<Entry>, s: string, seqNo: int)
    requires SeenBefore(entries, |entries|, s)
    ensures s in LogOf(entries).born
    ensures LogOf(entries).born[s] < seqNo <==> WasThere(entries, s, seqNo)
  {
    WritesAreTheEntries(entries, |entries|);
    assert entries[..|entries|] == entries;
    var f := FirstExists(entries, |entries|, s);
  }

  lemma SeenAtWrite(entries: seq<Entry>, w: nat)
    requires w < |entries| && IsWrite(entries, w)
    ensures SeenBefore(entries, |entries|, SubjectOf(entries[w]).value)
  {
  }

  lemma MovesAlike(entries: seq<Entry>, relies: (string, string, string) -> bool, steps: seq<StepRun>, rank: string -> nat, w: nat, i: nat)
    requires Ranked(LogOf(entries).parent, rank) && i < |steps| && w < |entries| && IsWrite(entries, w)
    ensures Moves(steps, ContextOf(LogOf(entries), relies), rank, WriteOf(entries[w]), i) <==> MovesRun(entries, relies, steps, w, i)
  {
    var c := ContextOf(LogOf(entries), relies);
    var subject := SubjectOf(entries[w]).value;
    SeenAtWrite(entries, w);
    BornIsFirst(entries, subject, steps[i].seqNo);
    MakerAlike(entries, relies, steps, rank, entries[w].execution, i);
    var there := WasThere(entries, subject, steps[i].seqNo);
    var excused := MadeByReader(entries, relies, steps, entries[w].execution, i);
    MovesInParts(steps, c, rank, WriteOf(entries[w]), i, there, excused);
    MovesRunInParts(entries, relies, steps, w, i, there, excused);
  }

  lemma MovesInParts(steps: seq<StepRun>, c: Context, rank: string -> nat, w: Write, i: nat, there: bool, excused: bool)
    requires Ranked(c.parent, rank) && i < |steps| && (there <==> c.Born(w.subject) < steps[i].seqNo)
    requires var maker := StepOf(steps, c, w.execution, rank);
      excused <==> maker.Some? && (maker.value == i || c.Rel(steps[maker.value], steps[i]))
    ensures Moves(steps, c, rank, w, i) <==>
            w.seqNo > steps[i].seqNo && there && (steps[i].subjectRef == "" || w.subject == steps[i].subjectRef) && !excused
  {
  }

  lemma MovesRunInParts(entries: seq<Entry>, relies: (string, string, string) -> bool, steps: seq<StepRun>, w: nat, i: nat,
                        there: bool, excused: bool)
    requires i < |steps| && w < |entries| && IsWrite(entries, w)
    requires there <==> WasThere(entries, SubjectOf(entries[w]).value, steps[i].seqNo)
    requires excused <==> MadeByReader(entries, relies, steps, entries[w].execution, i)
    ensures MovesRun(entries, relies, steps, w, i) <==>
            entries[w].seqNo > steps[i].seqNo && there &&
            (steps[i].subjectRef == "" || SubjectOf(entries[w]).value == steps[i].subjectRef) && !excused
  {
  }

  // What the fold excuses is what was made by the run or by a run relying on it.
  lemma MakerAlike(entries: seq<Entry>, relies: (string, string, string) -> bool, steps: seq<StepRun>, rank: string -> nat,
                   x: string, i: nat)
    requires Ranked(LogOf(entries).parent, rank) && i < |steps|
    ensures var c := ContextOf(LogOf(entries), relies); var maker := StepOf(steps, c, x, rank);
      (maker.Some? && (maker.value == i || c.Rel(steps[maker.value], steps[i]))) <==> MadeByReader(entries, relies, steps, x, i)
  {
    var c := ContextOf(LogOf(entries), relies);
    var maker := StepOf(steps, c, x, rank);
    if maker.Some? { MakerIsFound(entries, steps, c, x, maker.value, rank); }
    forall j: nat | Made(entries, steps, x, j) ensures maker == Some(j) { MakerIsFound(entries, steps, c, x, j, rank); }
  }

  // A run that no write the fold read moves is one that no write of the log moves.
  lemma UnmovedAlike(entries: seq<Entry>, relies: (string, string, string) -> bool, steps: seq<StepRun>, rank: string -> nat, i: nat)
    requires Ranked(LogOf(entries).parent, rank) && i < |steps|
    ensures Unmoved(steps, ContextOf(LogOf(entries), relies), rank, i) <==>
            steps[i].outcome == Succeeded && forall w: nat :: !MovesRun(entries, relies, steps, w, i)
  {
    var c := ContextOf(LogOf(entries), relies);
    WritesAreTheEntries(entries, |entries|);
    assert entries[..|entries|] == entries;
    var at := WritesAt(entries, |entries|);
    forall k | 0 <= k < |at| ensures Moves(steps, c, rank, c.writes[k], i) <==> MovesRun(entries, relies, steps, at[k], i) {
      MovesAlike(entries, relies, steps, rank, at[k], i);
    }
    forall w: nat | MovesRun(entries, relies, steps, w, i) ensures w in at { }
  }

  lemma NeedsAlike(l: Log, relies: (string, string, string) -> bool, steps: seq<StepRun>, i: nat, j: nat)
    ensures ReliesOn(steps, ContextOf(l, relies), i, j) <==> NeedsRun(relies, steps, i, j)
  {
  }

  /** The successes that stand are the greatest set of runs that may stand together. */
  lemma StandingIsGreatest(entries: seq<Entry>, relies: (string, string, string) -> bool, steps: seq<StepRun>, rank: string -> nat,
                           x: set<nat>)
    requires Ranked(LogOf(entries).parent, rank)
    requires Greatest(steps, ContextOf(LogOf(entries), relies), rank, x)
    ensures forall i: nat :: i in x <==> MayStand(entries, relies, steps, x, i)
    ensures forall y: set<nat> :: StandTogether(entries, relies, steps, y) ==> y <= x
  {
    var c := ContextOf(LogOf(entries), relies);
    forall y: set<nat> ensures Stands(steps, c, rank, y) <==> StandTogether(entries, relies, steps, y) {
      StandsAlike(entries, relies, steps, rank, y);
    }
    assert StandTogether(entries, relies, steps, x);
    forall i: nat | MayStand(entries, relies, steps, x, i) ensures i in x {
      OneMoreStands(entries, relies, steps, x, i);
      assert i in x + {i};
    }
  }

  lemma OneMoreStands(entries: seq<Entry>, relies: (string, string, string) -> bool, steps: seq<StepRun>, x: set<nat>, i: nat)
    requires StandTogether(entries, relies, steps, x) && MayStand(entries, relies, steps, x, i)
    ensures StandTogether(entries, relies, steps, x + {i})
  {
    forall k: nat | k in x + {i} ensures MayStand(entries, relies, steps, x + {i}, k) {
      MoreMayStand(entries, relies, steps, x, x + {i}, k);
    }
  }

  lemma StandsAlike(entries: seq<Entry>, relies: (string, string, string) -> bool, steps: seq<StepRun>, rank: string -> nat, y: set<nat>)
    requires Ranked(LogOf(entries).parent, rank)
    ensures Stands(steps, ContextOf(LogOf(entries), relies), rank, y) <==> StandTogether(entries, relies, steps, y)
  {
    var c := ContextOf(LogOf(entries), relies);
    forall i: nat, j: nat ensures ReliesOn(steps, c, i, j) <==> NeedsRun(relies, steps, i, j) {
      NeedsAlike(LogOf(entries), relies, steps, i, j);
    }
    forall i: nat | i < |steps| ensures Unmoved(steps, c, rank, i) <==>
      steps[i].outcome == Succeeded && forall w: nat :: !MovesRun(entries, relies, steps, w, i)
    {
      UnmovedAlike(entries, relies, steps, rank, i);
    }
  }

  // ---- the history

  /** The steps of a history are the runs that its log opened and that stay, in order, each numbered among those of its path. */
  ghost predicate StepsAre(entries: seq<Entry>, steps: seq<StepRun>) {
    var at := RunsAt(entries);
    Staying(entries, |entries|, at) && |steps| == |at| &&
    forall k :: 0 <= k < |at| ==>
      StepSays(entries, |entries|, at[k], steps[k].(runs := 0, current := false, staleBy := "")) &&
      steps[k].runs == |RunsOf(steps, k)|
  }

  // The runs of a path up to one of its runs.
  ghost function RunsOf(steps: seq<StepRun>, k: int): set<int>
    requires 0 <= k < |steps|
  {
    set j | 0 <= j <= k && steps[j].path == steps[k].path
  }

  lemma {:induction false} CountIsSize(steps: seq<StepRun>, n: nat, path: string)
    requires n <= |steps|
    ensures Count(steps[..n], path) == |(set j | 0 <= j < n && steps[j].path == path)|
  {
    if n > 0 {
      var last := n - 1;
      CountIsSize(steps, last, path);
      assert steps[..n][..last] == steps[..last];
      SizeGrows(steps, last, n, path);
    }
  }

  lemma SizeGrows(steps: seq<StepRun>, last: nat, n: nat, path: string)
    requires last < |steps| && n == last + 1
    ensures |(set j | 0 <= j < n && steps[j].path == path)| ==
            |(set j | 0 <= j < last && steps[j].path == path)| + if steps[last].path == path then 1 else 0
  {
    var was, now := (set j | 0 <= j < last && steps[j].path == path), (set j | 0 <= j < n && steps[j].path == path);
    assert now == if steps[last].path == path then was + {last} else was;
  }

  lemma NumbersAreSizes(steps: seq<StepRun>, k: nat)
    requires k < |steps|
    ensures Numbered(steps)[k].runs == |RunsOf(steps, k)|
  {
    CountIsSize(steps, k + 1, steps[k].path);
    assert RunsOf(steps, k) == set j | 0 <= j < k + 1 && steps[j].path == steps[k].path;
  }

  lemma FoldedSteps(entries: seq<Entry>, steps: seq<StepRun>)
    requires SameRuns(Numbered(LogOf(entries).steps), steps)
    ensures StepsAre(entries, steps)
  {
    var l := LogOf(entries).steps;
    LogIsUnjudged(entries);
    LogIsUnnumbered(entries);
    forall k: nat | k < |l|
      ensures steps[k].(runs := 0, current := false, staleBy := "") == l[k] && steps[k].runs == |RunsOf(steps, k)|
    {
      NumbersAreSizes(l, k);
      assert RunsOf(steps, k) == RunsOf(l, k);
    }
  }

  lemma LogIsUnnumbered(entries: seq<Entry>)
    ensures forall k :: 0 <= k < |LogOf(entries).steps| ==> LogOf(entries).steps[k].runs == 0
  {
    var at := RunsAt(entries);
    forall k | 0 <= k < |at| ensures LogOf(entries).steps[k].runs == 0 {
      assert StepSays(entries, |entries|, at[k], LogOf(entries).steps[k]);
    }
  }
}
