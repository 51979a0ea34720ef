/** The exclusive receipt around a forecast execution: invocations may interleave and crash anywhere, and nothing removes a receipt. */
module ForecastReceipt {
  import opened Options
  import opened Sequences

  type Pid = nat

  /** What the receipt file of one plan in one directory says. */
  datatype Receipt = Started | Result | Incomplete

  /** An invocation with the receipt it wants: about to claim it, holding it, executing, or over. */
  datatype Proc = Ready(path: string) | Claimed(path: string) | Executing(path: string) | Ended | Crashed

  /** The receipts, the invocations, and every execution that was started, by its receipt. */
  datatype System = System(files: map<string, Receipt>, procs: map<Pid, Proc>, executions: seq<string>)

  datatype Event =
    | Begin(p: Pid, directory: string, planId: string)
    | Claim(p: Pid)
    | Execute(p: Pid)
    | Finish(p: Pid, succeeded: bool)
    | Crash(p: Pid)

  function ReceiptPath(directory: string, planId: string): string {
    directory + "/forecast-live-" + planId + ".json"
  }

  function With(s: System, p: Pid, proc: Proc): System {
    s.(procs := s.procs[p := proc])
  }

  /** The effect of one event, if it can happen. */
  function After(s: System, e: Event): Option<System> {
    if e.Begin? then
      if e.p in s.procs then None else Some(With(s, e.p, Ready(ReceiptPath(e.directory, e.planId))))
    else if e.p !in s.procs then None
    else
      var proc := s.procs[e.p];
      match e
      case Claim(p) =>
        if !proc.Ready? then None
        else if proc.path in s.files then Some(With(s, p, Ended))
        else Some(With(s, p, Claimed(proc.path)).(files := s.files[proc.path := Started]))
      case Execute(p) =>
        if !proc.Claimed? then None else Some(With(s, p, Executing(proc.path)).(executions := s.executions + [proc.path]))
      case Finish(p, succeeded) =>
        if !proc.Executing? then None
        else Some(With(s, p, Ended).(files := s.files[proc.path := if succeeded then Result else Incomplete]))
      case Crash(p) => if proc.Ended? || proc.Crashed? then None else Some(With(s, p, Crashed))
      case _ => None
  }

  predicate Owns(proc: Proc, path: string) {
    (proc.Claimed? || proc.Executing?) && proc.path == path
  }

  /** What one invocation that owns a receipt knows: nobody else owns it, and it is executed exactly when the invocation says so. */
  predicate OwnerOk(s: System, p: Pid)
    requires p in s.procs
  {
    s.procs[p].Claimed? || s.procs[p].Executing? ==>
      && var path := s.procs[p].path;
      && path in s.files && s.files[path] == Started
      && (s.procs[p].Executing? <==> path in s.executions)
      && forall q :: q in s.procs && Owns(s.procs[q], path) ==> q == p
  }

  /** Only claimed plans are executed, each once, and a receipt that says an execution ended has one. */
  predicate FilesOk(s: System) {
    && (forall path :: path in s.executions ==> path in s.files)
    && (forall path :: path in s.files && s.files[path] != Started ==> path in s.executions)
    && NoRepeats(s.executions)
  }

  predicate Inv(s: System) {
    FilesOk(s) && forall p :: p in s.procs ==> OwnerOk(s, p)
  }

  lemma ClaimKeepsOwner(s: System, e: Event, p: Pid)
    requires Inv(s) && e.Claim? && After(s, e).Some? && p in s.procs
    ensures p in After(s, e).value.procs && OwnerOk(After(s, e).value, p)
  {
    assert OwnerOk(s, p) && OwnerOk(s, e.p);
    var t := After(s, e).value;
    forall q | q in t.procs && q != e.p && (t.procs[q].Claimed? || t.procs[q].Executing?)
      ensures t.procs[q].path in s.files
    {
      assert OwnerOk(s, q);
    }
  }

  lemma WorkKeepsOwner(s: System, e: Event, p: Pid)
    requires Inv(s) && (e.Execute? || e.Finish?) && After(s, e).Some? && p in s.procs
    ensures p in After(s, e).value.procs && OwnerOk(After(s, e).value, p)
  {
    assert OwnerOk(s, p) && OwnerOk(s, e.p);
    var t := After(s, e).value;
    if p != e.p && (s.procs[p].Claimed? || s.procs[p].Executing?) {
      assert s.procs[p].path != s.procs[e.p].path;
    }
  }

  lemma OtherKeepsOwner(s: System, e: Event, p: Pid)
    requires Inv(s) && (e.Begin? || e.Crash?) && After(s, e).Some? && p in After(s, e).value.procs
    ensures OwnerOk(After(s, e).value, p)
  {
    assert p in s.procs ==> OwnerOk(s, p);
  }

  lemma EveryEventKeepsFiles(s: System, e: Event)
    requires Inv(s) && After(s, e).Some?
    ensures FilesOk(After(s, e).value)
  {
    assert e.p in s.procs ==> OwnerOk(s, e.p);
  }

  lemma EveryEventKeepsInv(s: System, e: Event)
    requires Inv(s) && After(s, e).Some?
    ensures Inv(After(s, e).value)
  {
    var t := After(s, e).value;
    EveryEventKeepsFiles(s, e);
    forall p | p in t.procs
      ensures OwnerOk(t, p)
    {
      if e.Begin? || e.Crash? {
        OtherKeepsOwner(s, e, p);
      } else if e.Claim? {
        ClaimKeepsOwner(s, e, p);
      } else {
        WorkKeepsOwner(s, e, p);
      }
    }
  }

  predicate IsRun(states: seq<System>, events: seq<Event>) {
    && |states| == |events| + 1 && states[0] == System(map[], map[], [])
    && forall i :: 0 <= i < |events| ==> After(states[i], events[i]) == Some(states[i + 1])
  }

  lemma {:induction false} RunsAreInv(states: seq<System>, events: seq<Event>, i: nat)
    requires IsRun(states, events) && i < |states|
    ensures Inv(states[i])
  {
    if i > 0 {
      assert After(states[i - 1], events[i - 1]) == Some(states[i - 1 + 1]);
      RunsAreInv(states, events, i - 1);
      EveryEventKeepsInv(states[i - 1], events[i - 1]);
    }
  }

  lemma {:induction false} ReceiptsStay(states: seq<System>, events: seq<Event>, i: nat, j: nat)
    requires IsRun(states, events) && i <= j < |states|
    ensures forall path :: path in states[i].files ==> path in states[j].files
    ensures states[i].executions <= states[j].executions
  {
    if i < j {
      assert After(states[j - 1], events[j - 1]) == Some(states[j - 1 + 1]);
      ReceiptsStay(states, events, i, j - 1);
    }
  }

  /** Over any run a plan is executed at most once in a directory, and once its execution was claimed no later invocation claims it again. */
  lemma AtMostOneExecution(states: seq<System>, events: seq<Event>, i: nat, j: nat, directory: string, planId: string)
    requires IsRun(states, events) && i <= j < |states|
    ensures multiset(states[i].executions)[ReceiptPath(directory, planId)] <= 1
    ensures ReceiptPath(directory, planId) in states[i].files ==>
              forall p :: p in states[j].procs && states[j].procs[p] == Ready(ReceiptPath(directory, planId)) ==>
                After(states[j], Claim(p)) == Some(With(states[j], p, Ended))
  {
    RunsAreInv(states, events, i);
    ReceiptsStay(states, events, i, j);
    hide ReceiptPath;
    if ReceiptPath(directory, planId) in states[i].executions {
      OccursOnce(states[i].executions, ReceiptPath(directory, planId));
    }
  }

  /** A receipt that says the execution ended records one that did start. */
  lemma EndedMeansExecuted(states: seq<System>, events: seq<Event>, i: nat, path: string)
    requires IsRun(states, events) && i < |states| && path in states[i].files && states[i].files[path] != Started
    ensures path in states[i].executions
  {
    RunsAreInv(states, events, i);
  }

  /** Two plans never share a receipt in a directory, so neither keeps the other from being executed. */
  lemma ReceiptsTellPlans(directory: string, a: string, b: string)
    requires ReceiptPath(directory, a) == ReceiptPath(directory, b)
    ensures a == b
  {
    var head, x := directory + "/forecast-live-", ReceiptPath(directory, a);
    assert x == head + a + ".json" && x == head + b + ".json";
    assert x[|head|..|x| - 5] == a && x[|head|..|x| - 5] == b;
  }

  /** The event an invocation ended its execution with. */
  predicate EndedBy(s: System, e: Event, path: string, succeeded: bool) {
    e == Finish(e.p, succeeded) && e.p in s.procs && s.procs[e.p] == Executing(path)
  }

  /** A receipt says a result exactly where an execution under it succeeded, and is incomplete exactly where one failed. */
  lemma {:induction false} ReceiptSaysHowItEnded(states: seq<System>, events: seq<Event>, i: nat, path: string) returns (k: nat)
    requires IsRun(states, events) && i < |states| && path in states[i].files && states[i].files[path] != Started
    ensures k < i && EndedBy(states[k], events[k], path, states[i].files[path] == Result)
  {
    assert After(states[i - 1], events[i - 1]) == Some(states[i - 1 + 1]);
    var s, e := states[i - 1], events[i - 1];
    if path in s.files && s.files[path] == states[i].files[path] {
      k := ReceiptSaysHowItEnded(states, events, i - 1, path);
    } else {
      k := i - 1;
    }
  }
}
