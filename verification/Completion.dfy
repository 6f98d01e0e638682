/** Crash-safe completion: a task's record, result and output are three files, each published by an atomic replace.
    A process may die, or a write may fail, between any two of them. */
module Completion {
  import opened Wrappers
  import opened Scheduler

  /** What a provider returned. The type of a result admits terminal statuses only. */
  datatype Report = Report(status: Status, provider: string, summary: string, finalText: string, reason: string)

  type TaskResult = r: Report | Terminal(r.status) witness Report(Error, "", "", "", "")

  /** The result file of a task: `Unreadable` holds no JSON object, and `IllFormed` one that is no valid result. */
  datatype ResultFile = Missing | Unreadable | IllFormed | Stored(result: TaskResult)

  predicate Corrupt(file: ResultFile) {
    file.Unreadable? || file.IllFormed?
  }

  /** The result file a record names: none yet, that of its own task, or any other. */
  datatype Naming = Unnamed | Own | Foreign

  /** The part of the record that completion writes; `output` stands for the length and digest of that text. */
  datatype TaskRecord = TaskRecord(isAsync: bool, owner: string, status: Status, provider: string, summary: string,
                                   reason: string, output: Option<string>, named: Naming, cancelRequested: bool)

  datatype Disk = Disk(record: Option<TaskRecord>, result: ResultFile, output: Option<string>)

  /** What a call came to: it raised, found nothing to do, was cut short between two writes, or finished. */
  datatype Ending = Raised | Nothing | CutShort | Finished

  function Recorded(record: TaskRecord, r: TaskResult): TaskRecord {
    record.(status := r.status, provider := r.provider, summary := r.summary, reason := r.reason,
            output := Some(r.finalText), named := Own)
  }

  /** Completing a task writes output, result and record in this order; `writes` of them take effect. */
  function Completed(d: Disk, r: TaskResult, writes: nat): Disk {
    if d.record.None? || writes == 0 then d
    else if writes == 1 then d.(output := Some(r.finalText))
    else if writes == 2 then d.(output := Some(r.finalText), result := Stored(r))
    else Disk(Some(Recorded(d.record.value, r)), Stored(r), Some(r.finalText))
  }

  /** The result of a task whose owner is gone without having stored one. */
  function OwnerLost(record: TaskRecord): TaskResult {
    var r := Report(Interrupted, if record.provider == "" then "auto" else record.provider,
                    "Task control was lost when its MCP owner stopped.", "", "owner_lost");
    assert Terminal(r.status);
    r
  }

  predicate NeedsReconcile(d: Disk, alive: set<string>) {
    && d.record.Some? && d.record.value.isAsync && !Terminal(d.record.value.status)
    && d.record.value.owner !in alive
  }

  /** The result a reconcile run goes by. */
  function Adopted(d: Disk): TaskResult
    requires d.record.Some? && !Corrupt(d.result)
  {
    if d.result.Stored? then d.result.result else OwnerLost(d.record.value)
  }

  /** Reconciling writes the missing result, if it is missing, then output and record. */
  function Reconciled(d: Disk, alive: set<string>, writes: nat): Disk {
    if !NeedsReconcile(d, alive) || Corrupt(d.result) then d
    else
      var r := Adopted(d);
      var first := if d.result.Missing? then 1 else 0;
      if writes < first then d
      else if writes == first then d.(result := Stored(r))
      else if writes == first + 1 then d.(result := Stored(r), output := Some(r.finalText))
      else Disk(Some(Recorded(d.record.value, r)), Stored(r), Some(r.finalText))
  }

  datatype Lookup = NoTask | NoResult | Found(result: TaskResult) | FoundIllFormed | Broken

  /** Reading a result back: it is an error if the record names another file, or the task is terminal and has no
      readable result, unless it is a synchronous task that never had one; what is read is not checked further. */
  function GetResult(d: Disk): Lookup {
    match d.record
    case None => NoTask
    case Some(record) =>
      if record.named.Foreign? then Broken else
      match d.result
      case Stored(r) => Found(r)
      case IllFormed => FoundIllFormed
      case Missing => if Terminal(record.status) && (record.named.Own? || record.isAsync) then Broken else NoResult
      case Unreadable => if Terminal(record.status) then Broken else NoResult
  }

  class RunStore {
    var records: map<TaskId, TaskRecord>
    var results: map<TaskId, ResultFile>
    var outputs: map<TaskId, string>
    var liveOwners: set<string>

    constructor ()
      ensures records == map[] && results == map[] && outputs == map[] && liveOwners == {}
    {
      records, results, outputs, liveOwners := map[], map[], map[], {};
    }

    /** The three files of one task. */
    function Files(id: TaskId): Disk
      reads this
    {
      Disk(if id in records then Some(records[id]) else None,
           if id in results then results[id] else Missing,
           if id in outputs then Some(outputs[id]) else None)
    }

    /** `writes` is the number of publishes that succeed before the process dies or one raises. */
    method CompleteTask(id: TaskId, r: TaskResult, writes: nat) returns (ending: Ending)
      modifies this
      ensures Files(id) == Completed(old(Files(id)), r, writes)
      ensures forall x :: x != id ==> Files(x) == old(Files(x))
      ensures liveOwners == old(liveOwners)
      ensures ending == if id !in old(records) then Raised else if writes < 3 then CutShort else Finished
    {
      if id !in records {
        return Raised;
      }
      var record := records[id];
      if writes == 0 {
        return CutShort;
      }
      outputs := outputs[id := r.finalText];
      if writes == 1 {
        return CutShort;
      }
      results := results[id := Stored(r)];
      if writes == 2 {
        return CutShort;
      }
      record := record.(status := r.status, output := Some(r.finalText), named := Own, provider := r.provider,
                        summary := r.summary, reason := r.reason);
      records := records[id := record];
      return Finished;
    }

    method ReconcileTask(id: TaskId, writes: nat) returns (ending: Ending)
      modifies this
      ensures Files(id) == Reconciled(old(Files(id)), old(liveOwners), writes)
      ensures forall x :: x != id ==> Files(x) == old(Files(x))
      ensures liveOwners == old(liveOwners)
      ensures ending.Nothing? <==> id in old(records) && !NeedsReconcile(old(Files(id)), old(liveOwners))
      ensures ending.Raised? <==>
        (id !in old(records) || (NeedsReconcile(old(Files(id)), old(liveOwners)) && Corrupt(old(Files(id)).result)))
      ensures writes >= 3 ==> !ending.CutShort?
    {
      if id !in records {
        return Raised;
      }
      var record := records[id];
      if !record.isAsync || Terminal(record.status) || record.owner in liveOwners {
        return Nothing;
      }
      var left := writes;
      var found := if id in results then results[id] else Missing;
      if Corrupt(found) {
        return Raised;
      }
      var r: TaskResult := OwnerLost(record);
      if found.Stored? {
        r := found.result;
      } else {
        if left == 0 {
          return CutShort;
        }
        results := results[id := Stored(r)];
        left := left - 1;
      }
      if left == 0 {
        return CutShort;
      }
      outputs := outputs[id := r.finalText];
      if left == 1 {
        return CutShort;
      }
      record := record.(status := r.status, output := Some(r.finalText), named := Own, provider := r.provider,
                        summary := r.summary, reason := r.reason);
      records := records[id := record];
      return Finished;
    }

    method ReadResult(id: TaskId) returns (lookup: Lookup)
      ensures lookup == GetResult(Files(id))
    {
      if id !in records {
        return NoTask;
      }
      var record := records[id];
      var found := if id in results then results[id] else Missing;
      if record.named.Foreign? {
        return Broken;
      }
      if found.Missing? && record.named.Unnamed? && !record.isAsync {
        return NoResult;
      }
      if found.Stored? {
        return Found(found.result);
      }
      if found.IllFormed? {
        return FoundIllFormed;
      }
      return if Terminal(record.status) then Broken else NoResult;
    }
  }

  // ---------------------------------------------------------------- one task through crashes

  /** The owner completes, or updates the record of an unfinished task; anyone may ask for cancellation or
      reconcile; the owner's lock goes when its process dies. */
  datatype Step =
    | DoUpdate(status: Status)
    | DoComplete(result: TaskResult, writes: nat)
    | DoRequestCancel
    | DoOwnerDies
    | DoReconcile(writes: nat)

  datatype Task = Task(disk: Disk, alive: bool)

  function Alive(t: Task): set<string> {
    if t.alive && t.disk.record.Some? then {t.disk.record.value.owner} else {}
  }

  predicate Unfinished(d: Disk) {
    d.record.Some? && !Terminal(d.record.value.status)
  }

  function Next(t: Task, step: Step): Task {
    match step
    case DoUpdate(status) =>
      if t.alive && Unfinished(t.disk) && !Terminal(status)
      then t.(disk := t.disk.(record := Some(t.disk.record.value.(status := status)))) else t
    case DoComplete(r, writes) => if t.alive then t.(disk := Completed(t.disk, r, writes)) else t
    case DoRequestCancel =>
      if Unfinished(t.disk)
      then t.(disk := t.disk.(record := Some(t.disk.record.value.(cancelRequested := true)))) else t
    case DoOwnerDies => t.(alive := false)
    case DoReconcile(writes) => t.(disk := Reconciled(t.disk, Alive(t), writes))
  }

  function Run(t: Task, steps: seq<Step>): Task
    decreases |steps|
  {
    if steps == [] then t else Run(Next(t, steps[0]), steps[1..])
  }

  /** A freshly started asynchronous task: a record, and nothing else yet. */
  predicate Started(t: Task) {
    && t.alive && t.disk.record.Some? && t.disk.record.value.isAsync && !Terminal(t.disk.record.value.status)
    && t.disk.result.Missing? && t.disk.output.None? && t.disk.record.value.named.Unnamed?
  }

  /** What holds at every crash point: a terminal record implies a durable, valid result with its output. */
  ghost predicate Durable(t: Task) {
    && t.disk.record.Some? && t.disk.record.value.isAsync && !t.disk.record.value.named.Foreign?
    && !Corrupt(t.disk.result)
    && (Terminal(t.disk.record.value.status) ==> t.disk.result.Stored? && t.disk.output.Some?)
  }

  /** Record, result and output tell the same story. */
  ghost predicate Agree(d: Disk) {
    && d.record.Some? && d.result.Stored? && d.output == Some(d.result.result.finalText)
    && Tells(d.record.value, d.result.result)
  }

  /** What a record says of a result, field by field. */
  ghost predicate Tells(record: TaskRecord, r: TaskResult) {
    && record.status == r.status && record.provider == r.provider && record.summary == r.summary
    && record.reason == r.reason && record.output == Some(r.finalText) && record.named == Own
  }

  /** The rest of a record, which completing and reconciling leave alone. */
  ghost predicate SameTask(before: TaskRecord, after: TaskRecord) {
    after.isAsync == before.isAsync && after.owner == before.owner && after.cancelRequested == before.cancelRequested
  }

  /** A completion that is not cut short leaves agreement on its result; a reconcile of a lost task, on the stored
      result or else on an interruption for loss of the owner. */
  lemma WholeCallsAgree(d: Disk, r: TaskResult, alive: set<string>, writes: nat)
    requires d.record.Some? && writes >= 3
    ensures var e := Completed(d, r, writes);
      e.result == Stored(r) && Agree(e) && SameTask(d.record.value, e.record.value)
    ensures var e, record := Reconciled(d, alive, writes), d.record.value;
      record.isAsync && !Terminal(record.status) && record.owner !in alive && !Corrupt(d.result) ==>
        && Agree(e) && SameTask(record, e.record.value)
        && (d.result.Stored? ==> e.result == d.result)
        && (d.result.Missing? ==> e.result.Stored? && IsLoss(e.result.result, record.provider))
  {
  }

  /** A task whose owner is gone before its record is terminal, with nothing in the way of adopting a result. */
  ghost predicate Lost(d: Disk, alive: set<string>) {
    && d.record.Some? && d.record.value.isAsync && !Terminal(d.record.value.status)
    && d.record.value.owner !in alive && (d.result.Missing? || d.result.Stored?)
  }

  /**
   * What a call cut short leaves: the output is the first of the three to change and the record the last, and a missing
   * result is stored before a reconcile touches the output. A reconcile of any other task changes nothing.
   */
  lemma CutCallsKeepOrder(d: Disk, r: TaskResult, alive: set<string>, writes: nat)
    requires d.record.Some?
    ensures var e := Completed(d, r, writes);
      && e.output == (if writes >= 1 then Some(r.finalText) else d.output)
      && e.result == (if writes >= 2 then Stored(r) else d.result)
      && (writes < 3 ==> e.record == d.record)
    ensures !Lost(d, alive) ==> Reconciled(d, alive, writes) == d
    ensures Lost(d, alive) && d.result.Stored? ==>
      var e := Reconciled(d, alive, writes);
      && e.result == d.result && (writes < 2 ==> e.record == d.record)
      && e.output == (if writes >= 1 then Some(d.result.result.finalText) else d.output)
    ensures Lost(d, alive) && d.result.Missing? ==>
      var e := Reconciled(d, alive, writes);
      && (if writes >= 1 then e.result.Stored? && IsLoss(e.result.result, d.record.value.provider)
          else e.result == Missing)
      && e.output == (if writes >= 2 then Some("") else d.output) && (writes < 3 ==> e.record == d.record)
  {
  }

  /** What a reader is told, by what the files hold. */
  lemma ReadsExactlyWhen(d: Disk)
    ensures GetResult(d) == NoTask <==> d.record.None?
    ensures d.record.Some? ==>
      var record := d.record.value;
      && (GetResult(d) == Broken <==>
            || record.named == Foreign
            || (Terminal(record.status) && d.result == Unreadable)
            || (Terminal(record.status) && d.result == Missing && (record.isAsync || record.named == Own)))
      && (GetResult(d) == FoundIllFormed <==> record.named != Foreign && d.result == IllFormed)
      && (GetResult(d).Found? <==> record.named != Foreign && d.result.Stored?)
      && (GetResult(d).Found? ==> d.result == Stored(GetResult(d).result))
  {
  }

  /** A started task whose completion is cut short: its result can be read once two files are written, and not
      before. */
  lemma CompletionsAreRead(t: Task, r: TaskResult, writes: nat)
    requires Started(t)
    ensures GetResult(Run(t, [DoComplete(r, writes)]).disk) == if writes >= 2 then Found(r) else NoResult
    ensures Run(t, [DoOwnerDies, DoComplete(r, writes)]).disk == t.disk
  {
    var complete := DoComplete(r, writes);
    assert [complete][1..] == [] && [DoOwnerDies, complete][1..] == [complete];
    assert Run(Next(t, complete), []) == Next(t, complete);
    var dead := Next(t, DoOwnerDies);
    assert Run(Next(dead, complete), []) == Next(dead, complete) == dead;
  }

  /** The result given to a task whose owner was lost. */
  ghost predicate IsLoss(r: TaskResult, provider: string) {
    && r.status == Interrupted && r.reason == "owner_lost" && r.finalText == ""
    && r.summary == "Task control was lost when its MCP owner stopped."
    && r.provider == if provider == "" then "auto" else provider
  }

  /** In every run a task stays the same task, and a request to cancel it stands. */
  lemma {:induction false} TasksStayThemselves(t: Task, steps: seq<Step>)
    requires t.disk.record.Some?
    ensures var d := Run(t, steps).disk;
      && d.record.Some? && d.record.value.isAsync == t.disk.record.value.isAsync
      && d.record.value.owner == t.disk.record.value.owner
      && (t.disk.record.value.cancelRequested ==> d.record.value.cancelRequested)
    decreases |steps|
  {
    if steps != [] {
      TasksStayThemselves(Next(t, steps[0]), steps[1..]);
    }
  }

  lemma {:induction false} DurableInEveryRun(t: Task, steps: seq<Step>)
    requires Durable(t)
    ensures Durable(Run(t, steps))
    decreases |steps|
  {
    if steps != [] {
      DurableStep(t, steps[0]);
      DurableInEveryRun(Next(t, steps[0]), steps[1..]);
    }
  }

  lemma DurableStep(t: Task, step: Step)
    requires Durable(t)
    ensures Durable(Next(t, step))
  {
  }

  /** Whatever was written and wherever it was cut short, reading the result of a terminal task never fails. */
  lemma TerminalResultIsReadable(t: Task, steps: seq<Step>)
    requires Started(t)
    ensures var d := Run(t, steps).disk;
      d.record.Some? && !GetResult(d).Broken? && (Terminal(d.record.value.status) ==> GetResult(d).Found?)
  {
    DurableInEveryRun(t, steps);
  }

  /** Cut-short reconcile runs only. */
  predicate OnlyReconciles(steps: seq<Step>) {
    forall k :: 0 <= k < |steps| ==> steps[k].DoReconcile?
  }

  lemma {:induction false} ReconcilesConverge(t: Task, tries: seq<Step>, writes: nat)
    requires Durable(t) && !t.alive && Unfinished(t.disk)
    requires OnlyReconciles(tries) && writes >= 3
    ensures var d := Next(Run(t, tries), DoReconcile(writes)).disk;
      Agree(d) && Terminal(d.record.value.status) && d.result == Stored(Adopted(t.disk))
    decreases |tries|
  {
    if tries != [] {
      var u := Next(t, tries[0]);
      if Unfinished(u.disk) {
        assert Adopted(u.disk) == Adopted(t.disk);
        ReconcilesConverge(u, tries[1..], writes);
      } else {
        TerminalIsLeftAlone(u, tries[1..]);
      }
    }
  }

  /** Reconciling never changes a terminal task. */
  lemma {:induction false} TerminalIsLeftAlone(t: Task, tries: seq<Step>)
    requires t.disk.record.Some? && Terminal(t.disk.record.value.status) && OnlyReconciles(tries)
    ensures Run(t, tries) == t
    decreases |tries|
  {
    if tries != [] {
      TerminalIsLeftAlone(Next(t, tries[0]), tries[1..]);
    }
  }

  /** Crash convergence: let a task run in any way, its owner die while the record is unfinished, and any number of
      reconcile runs be interrupted anywhere. One complete reconcile run then makes record, result and output agree,
      on the result already stored at the owner's death if there was one and on `interrupted` otherwise. */
  lemma CrashConvergence(t: Task, steps: seq<Step>, tries: seq<Step>, writes: nat)
    requires Started(t) && OnlyReconciles(tries) && writes >= 3
    requires Unfinished(Run(t, steps).disk)
    ensures var before := Next(Run(t, steps), DoOwnerDies);
      var after := Next(Run(before, tries), DoReconcile(writes)).disk;
      && Agree(after) && Terminal(after.record.value.status)
      && (before.disk.result.Stored? ==> after.result == before.disk.result)
      && (!before.disk.result.Stored? ==> IsLoss(after.result.result, before.disk.record.value.provider))
  {
    DurableInEveryRun(t, steps);
    ReconcilesConverge(Next(Run(t, steps), DoOwnerDies), tries, writes);
  }

  /** Reconciling is idempotent from any state of the files. */
  lemma ReconcileIsIdempotent(d: Disk, alive: set<string>, writes: nat, again: nat)
    requires writes >= 3
    ensures Reconciled(Reconciled(d, alive, writes), alive, again) == Reconciled(d, alive, writes)
  {
  }

  /** A task that is already terminal is completed again in full or not at all. */
  ghost predicate RecompletedWhole(t: Task, steps: seq<Step>)
    decreases |steps|
  {
    steps != [] ==>
      && (steps[0].DoComplete? && !Unfinished(t.disk) ==> steps[0].writes >= 3)
      && RecompletedWhole(Next(t, steps[0]), steps[1..])
  }

  ghost predicate AgreesOnceTerminal(d: Disk) {
    d.record.Some? && Terminal(d.record.value.status) ==> Agree(d)
  }

  /** Then, through crashes anywhere else, record, result and output of a terminal task always agree. */
  lemma {:induction false} TerminalTasksAgree(t: Task, steps: seq<Step>)
    requires Durable(t) && AgreesOnceTerminal(t.disk) && RecompletedWhole(t, steps)
    ensures AgreesOnceTerminal(Run(t, steps).disk)
    decreases |steps|
  {
    if steps != [] {
      DurableStep(t, steps[0]);
      AgreementStep(t, steps[0]);
      TerminalTasksAgree(Next(t, steps[0]), steps[1..]);
    }
  }

  lemma AgreementStep(t: Task, step: Step)
    requires Durable(t) && AgreesOnceTerminal(t.disk)
    requires step.DoComplete? && !Unfinished(t.disk) ==> step.writes >= 3
    ensures AgreesOnceTerminal(Next(t, step).disk)
  {
  }

  /** Completing a second time is the one gap: quality gates rewrite a published success as `failed_gate`, and a
      crash inside that leaves files that agree exactly when the files already written say the same. Reconciling
      does not repair it, since the record is terminal. */
  lemma RecompletionAgreesExactlyWhen(d: Disk, r: TaskResult, writes: nat, alive: set<string>, again: nat)
    requires Agree(d) && Terminal(d.record.value.status)
    ensures var e := Completed(d, r, writes); var was := d.result.result;
      && (Agree(e) <==>
            || writes == 0 || writes >= 3
            || (writes == 1 && r.finalText == was.finalText)
            || (writes == 2 && r == was))
      && (writes < 3 ==> Reconciled(e, alive, again) == e)
  {
  }

  /** A concrete crash in the gap: the record says success, the result says the gates rejected it. */
  lemma GateCrashDisagrees(record: TaskRecord)
    ensures var passed: TaskResult := Report(Success, "p", "done", "text", "");
      var failed: TaskResult := Report(FailedGate, "p", "rejected", "text", "");
      var e := Completed(Completed(Disk(Some(record), Missing, None), passed, 3), failed, 2);
      !Agree(e) && e.record.value.status == Success && e.result == Stored(failed) && Reconciled(e, {}, 3) == e
  {
  }
}
