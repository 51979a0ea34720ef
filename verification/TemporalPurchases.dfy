/** Planned purchases under one journal lock: live and replay invocations in any interleaving, with crashes anywhere. */
module TemporalPurchases {
  import opened Options

  type Pid = nat

  datatype Job = Job(inputBytes: nat, outputTokens: nat, inputPrice: real, outputPrice: real)
  datatype Plan = Plan(jobs: map<string, Job>, concurrency: nat)

  /** The tokens a reply reports, when it reports them. */
  datatype Usage = Usage(input: nat, output: nat)
  datatype Reply = Reply(status: nat, body: string, usage: Option<Usage>)
  datatype Phase = InFlight | Completed | Failed | Unknown
  datatype Entry = Entry(job: string, run: string, request: string, reserved: real, phase: Phase, reply: Option<Reply>)
  datatype Journal = Journal(plan: Plan, live: bool, requests: nat, usd: real, entries: seq<Entry>)
  datatype Approval = Approval(run: string, perRun: nat, requests: nat, usd: real)

  datatype Proc =
    | Owner(live: bool, plan: Plan, approval: Approval)
    | Working(live: bool, approval: Approval, memory: Journal, flying: set<nat>, due: Option<nat>)
    | Leaving
    | Ended
    | Crashed

  /** The journal file, its lock, the invocations, and every request that was dispatched, in order. */
  datatype System = System(journal: Option<Journal>, lock: Option<Pid>, procs: map<Pid, Proc>, sent: seq<string>)

  datatype Event =
    | Begin(p: Pid, live: bool, plan: Plan, approval: Approval)
    | Load(p: Pid)
    | Buy(p: Pid, job: string, request: string)
    | Send(p: Pid)
    | Settle(p: Pid, at: nat, outcome: Option<Reply>)
    | Throw(p: Pid)
    | Unlock(p: Pid)
    | Crash(p: Pid)
    | ClearLock(p: Pid)

  function Price(job: Job, input: nat, output: nat): real {
    (input as real * job.inputPrice + output as real * job.outputPrice) / 1000000.0
  }

  function Cost(job: Job): real {
    Price(job, job.inputBytes, job.outputTokens)
  }

  predicate Within(plan: Plan, e: Entry) {
    e.reply.Some? && e.reply.value.usage.Some? && e.job in plan.jobs ==>
      e.reply.value.usage.value.input <= plan.jobs[e.job].inputBytes && e.reply.value.usage.value.output <= plan.jobs[e.job].outputTokens
  }

  /** What the provider reports an entry cost; nothing while it reports no usage. */
  function Reported(plan: Plan, e: Entry): real {
    if e.reply.Some? && e.reply.value.usage.Some? && e.job in plan.jobs
    then Price(plan.jobs[e.job], e.reply.value.usage.value.input, e.reply.value.usage.value.output)
    else 0.0
  }

  function Larger(a: real, b: real): real {
    if a < b then b else a
  }

  function Reserved(entries: seq<Entry>): real {
    if entries == [] then 0.0 else Reserved(entries[..|entries| - 1]) + entries[|entries| - 1].reserved
  }

  /** The larger of what is reserved and what is reported, over all entries. */
  function Worst(plan: Plan, entries: seq<Entry>): real {
    if entries == [] then 0.0
    else Worst(plan, entries[..|entries| - 1]) + Larger(entries[|entries| - 1].reserved, Reported(plan, entries[|entries| - 1]))
  }

  function OfRun(entries: seq<Entry>, run: string): nat {
    if entries == [] then 0
    else OfRun(entries[..|entries| - 1], run) + (if entries[|entries| - 1].run == run then 1 else 0)
  }

  predicate Bought(entries: seq<Entry>, job: string) {
    exists i :: 0 <= i < |entries| && entries[i].job == job
  }

  /** The checks made before the first request. */
  predicate Admissible(plan: Plan, approval: Approval, j: Journal) {
    && j.plan == plan && j.requests == approval.requests && j.usd == approval.usd
    && (forall i, k :: 0 <= i < k < |j.entries| ==> j.entries[i].job != j.entries[k].job)
    && (forall i :: 0 <= i < |j.entries| ==> j.entries[i].job in plan.jobs && j.entries[i].reserved == Cost(plan.jobs[j.entries[i].job]))
  }

  predicate MayBuy(proc: Proc, job: string)
    requires proc.Working?
  {
    var plan, entries := proc.memory.plan, proc.memory.entries;
    && proc.live && proc.due.None? && job in plan.jobs && !Bought(entries, job)
    && (forall i :: 0 <= i < |entries| ==> Within(plan, entries[i]))
    && |entries| < proc.approval.requests && OfRun(entries, proc.approval.run) < proc.approval.perRun
    && |proc.flying| < plan.concurrency
    && Worst(plan, entries) + Cost(plan.jobs[job]) <= proc.approval.usd
  }

  function Settled(plan: Plan, e: Entry, outcome: Option<Reply>): Entry {
    if outcome.None? then e.(phase := Unknown)
    else
      var after := e.(reply := outcome);
      after.(phase := if 200 <= outcome.value.status < 300 && Within(plan, after) then Completed else Failed)
  }

  function With(s: System, p: Pid, proc: Proc): System {
    s.(procs := s.procs[p := proc])
  }

  predicate Holds(proc: Proc) {
    proc.Owner? || proc.Working? || proc.Leaving?
  }

  /** The effect of one event, if it can happen. */
  function After(s: System, e: Event): Option<System> {
    if e.Begin? then
      if e.p in s.procs then None
      else if s.lock.Some? then Some(With(s, e.p, Ended))
      else Some(With(s, e.p, Owner(e.live, e.plan, e.approval)).(lock := Some(e.p)))
    else if e.ClearLock? then
      if s.lock == Some(e.p) && e.p in s.procs && s.procs[e.p].Crashed? then Some(s.(lock := None)) else None
    else if e.p in s.procs then Acts(s, e, s.procs[e.p]) else None
  }

  function Acts(s: System, e: Event, proc: Proc): Option<System> {
    match e
    case Load(p) =>
      if !proc.Owner? then None
      else if s.journal.None? && !proc.live then Some(With(s, p, Leaving))
      else
        var j := if s.journal.Some? then s.journal.value else Journal(proc.plan, true, proc.approval.requests, proc.approval.usd, []);
        if Admissible(proc.plan, proc.approval, j) && (proc.live ==> j.live)
        then Some(With(s, p, Working(proc.live, proc.approval, j, {}, None))) else Some(With(s, p, Leaving))
    case Buy(p, job, request) =>
      if !(proc.Working? && MayBuy(proc, job)) then None
      else
        var at, memory := |proc.memory.entries|, proc.memory;
        var entry := Entry(job, proc.approval.run, request, Cost(memory.plan.jobs[job]), InFlight, None);
        var next := memory.(entries := memory.entries + [entry]);
        Some(With(s, p, proc.(memory := next, flying := proc.flying + {at}, due := Some(at))).(journal := Some(next)))
    case Send(p) =>
      if !(proc.Working? && proc.due.Some? && proc.due.value < |proc.memory.entries|) then None
      else Some(With(s, p, proc.(due := None)).(sent := s.sent + [proc.memory.entries[proc.due.value].job]))
    case Settle(p, at, outcome) =>
      if !(proc.Working? && proc.due.None? && at in proc.flying && at < |proc.memory.entries| && proc.memory.entries[at].phase.InFlight?) then None
      else
        var next := proc.memory.(entries := proc.memory.entries[at := Settled(proc.memory.plan, proc.memory.entries[at], outcome)]);
        Some(With(s, p, proc.(memory := next, flying := proc.flying - {at})).(journal := Some(next)))
    case Throw(p) => if proc.Owner? || proc.Working? then Some(With(s, p, Leaving)) else None
    case Unlock(p) => if proc.Leaving? then Some(With(s, p, Ended).(lock := None)) else None
    case Crash(p) => if proc.Ended? || proc.Crashed? then None else Some(With(s, p, Crashed))
    case _ => None
  }

  /** One journal continues another: entries are added, an entry in flight may be settled, nothing else changes. */
  predicate Continued(a: Journal, b: Journal) {
    && b == a.(entries := b.entries) && |a.entries| <= |b.entries|
    && forall i :: 0 <= i < |a.entries| ==>
         && b.entries[i] == a.entries[i].(phase := b.entries[i].phase, reply := b.entries[i].reply)
         && (a.entries[i].phase.InFlight? || b.entries[i] == a.entries[i])
  }

  // The invariant.

  predicate JournalOk(j: Journal) {
    && (forall i, k :: 0 <= i < k < |j.entries| ==> j.entries[i].job != j.entries[k].job)
    && (forall i :: 0 <= i < |j.entries| ==> j.entries[i].job in j.plan.jobs && j.entries[i].reserved == Cost(j.plan.jobs[j.entries[i].job]))
    && (forall i :: 0 <= i < |j.entries| && j.entries[i].phase.InFlight? ==> j.entries[i].reply.None?)
    && |j.entries| <= j.requests && (j.entries != [] ==> Reserved(j.entries) <= j.usd)
  }

  predicate HasReceipt(s: System, job: string) {
    s.journal.Some? && Bought(s.journal.value.entries, job)
  }

  /** Every dispatched job has an entry on disk, and no job is dispatched twice. */
  predicate SentOk(s: System) {
    && (forall i, k :: 0 <= i < k < |s.sent| ==> s.sent[i] != s.sent[k])
    && (forall job :: job in s.sent ==> HasReceipt(s, job))
  }

  predicate ProcOk(s: System, proc: Proc) {
    proc.Working? ==>
      && (s.journal == Some(proc.memory) || (s.journal.None? && proc.memory.entries == []))
      && proc.memory.requests == proc.approval.requests && proc.memory.usd == proc.approval.usd
      && (!proc.live ==> proc.flying == {} && proc.due.None?)
      && |proc.flying| <= proc.memory.plan.concurrency
      && (proc.due.Some? ==> s.journal.Some? && proc.due.value == |proc.memory.entries| - 1 && proc.memory.entries[proc.due.value].job !in s.sent)
  }

  predicate LockOk(s: System) {
    forall p :: p in s.procs && Holds(s.procs[p]) ==> s.lock == Some(p)
  }

  predicate Inv(s: System) {
    && LockOk(s) && SentOk(s) && (s.journal.Some? ==> JournalOk(s.journal.value))
    && forall p :: p in s.procs ==> ProcOk(s, s.procs[p])
  }

  predicate Initial(s: System) {
    s.lock.None? && s.procs == map[] && s.sent == [] && (s.journal.Some? ==> JournalOk(s.journal.value))
  }

  lemma OneHolder(s: System, p: Pid, q: Pid)
    requires LockOk(s) && p in s.procs && q in s.procs && Holds(s.procs[p]) && Holds(s.procs[q])
    ensures p == q
  {
  }

  /** An event that leaves the files and the dispatches alone. */
  lemma QuietStep(s: System, t: System, p: Pid, proc: Proc)
    requires Inv(s) && t == s.(procs := s.procs[p := proc], lock := t.lock)
    requires ProcOk(t, proc) && LockOk(t)
    ensures Inv(t)
  {
    hide JournalOk, Bought;
    assert SentOk(t) by {
      assert forall job :: HasReceipt(t, job) == HasReceipt(s, job);
    }
    forall q | q in t.procs
      ensures ProcOk(t, t.procs[q])
    {
      assert q != p ==> ProcOk(s, s.procs[q]);
    }
  }

  /** An event of the holder: nobody else works. */
  lemma HolderStep(s: System, t: System, p: Pid, proc: Proc)
    requires Inv(s) && p in s.procs && Holds(s.procs[p]) && t.procs == s.procs[p := proc] && t.lock == s.lock
    requires SentOk(t) && (t.journal.Some? ==> JournalOk(t.journal.value)) && ProcOk(t, proc)
    ensures Inv(t)
  {
    forall q | q in t.procs && q != p
      ensures !Holds(s.procs[q])
    {
      if Holds(s.procs[q]) {
        OneHolder(s, p, q);
      }
    }
    hide JournalOk, SentOk;
  }

  lemma {:induction false} WorstCoversReserved(plan: Plan, entries: seq<Entry>)
    ensures Reserved(entries) <= Worst(plan, entries)
  {
    if entries != [] {
      WorstCoversReserved(plan, entries[..|entries| - 1]);
    }
  }

  lemma BuyKeepsInv(s: System, e: Event)
    requires Inv(s) && e.Buy? && After(s, e).Some?
    ensures Inv(After(s, e).value)
  {
    BuyEffect(s, e);
    var t, proc := After(s, e).value, s.procs[e.p];
    assert ProcOk(s, proc);
    hide After;
    BoughtJournalIsOk(proc, t.journal.value);
    SentAfterAppend(s, t);
    assert e.job !in s.sent by {
      assert !HasReceipt(s, e.job);
    }
    hide JournalOk, SentOk, MayBuy, Bought;
    HolderStep(s, t, e.p, t.procs[e.p]);
  }

  /** What a purchase does before its request is dispatched. */
  lemma BuyEffect(s: System, e: Event)
    requires e.Buy? && After(s, e).Some?
    ensures e.p in s.procs && s.procs[e.p].Working? && MayBuy(s.procs[e.p], e.job)
    ensures var t, proc := After(s, e).value, s.procs[e.p];
            var entry := Entry(e.job, proc.approval.run, e.request, Cost(proc.memory.plan.jobs[e.job]), InFlight, None);
            var next := proc.memory.(entries := proc.memory.entries + [entry]);
            && t.journal == Some(next) && t.lock == s.lock && t.sent == s.sent
            && t.procs == s.procs[e.p := proc.(memory := next, flying := proc.flying + {|proc.memory.entries|}, due := Some(|proc.memory.entries|))]
  {
    hide MayBuy, Cost;
  }

  /** A journal that keeps the jobs of its entries keeps the receipts. */
  predicate KeepsJobs(s: System, t: System) {
    s.journal.Some? ==>
      && t.journal.Some? && |s.journal.value.entries| <= |t.journal.value.entries|
      && forall i :: 0 <= i < |s.journal.value.entries| ==> t.journal.value.entries[i].job == s.journal.value.entries[i].job
  }

  lemma SentAfterAppend(s: System, t: System)
    requires SentOk(s) && t.sent == s.sent && KeepsJobs(s, t)
    ensures SentOk(t)
  {
    forall job | job in s.sent
      ensures HasReceipt(t, job)
    {
      assert HasReceipt(s, job);
      var k :| 0 <= k < |s.journal.value.entries| && s.journal.value.entries[k].job == job;
      assert t.journal.value.entries[k].job == job;
    }
  }

  lemma BoughtJournalIsOk(proc: Proc, next: Journal)
    requires proc.Working? && next.entries != []
    requires proc.memory.entries == [] || JournalOk(proc.memory)
    requires proc.memory.requests == proc.approval.requests && proc.memory.usd == proc.approval.usd
    requires var last := next.entries[|next.entries| - 1];
             && MayBuy(proc, last.job) && last.reserved == Cost(proc.memory.plan.jobs[last.job]) && last.reply.None?
             && next == proc.memory.(entries := proc.memory.entries + [last])
    ensures JournalOk(next)
  {
    var entries := proc.memory.entries;
    var last := next.entries[|next.entries| - 1];
    WorstCoversReserved(proc.memory.plan, entries);
    assert next.entries[..|next.entries| - 1] == entries;
    assert Reserved(next.entries) == Reserved(entries) + last.reserved;
    forall i | 0 <= i < |entries|
      ensures next.entries[i] == entries[i] && entries[i].job != last.job
    {
    }
    hide Within, OfRun, Worst, Cost, Reserved, Bought;
  }

  lemma SendKeepsInv(s: System, e: Event)
    requires Inv(s) && e.Send? && After(s, e).Some?
    ensures Inv(After(s, e).value)
  {
    var t := After(s, e).value;
    var proc := s.procs[e.p];
    assert ProcOk(s, proc);
    var job := proc.memory.entries[proc.due.value].job;
    assert Bought(s.journal.value.entries, job);
    hide JournalOk, Bought;
    HolderStep(s, t, e.p, t.procs[e.p]);
  }

  lemma {:induction false} ReservedOfSettled(entries: seq<Entry>, at: nat, e: Entry)
    requires at < |entries| && e.reserved == entries[at].reserved
    ensures Reserved(entries[at := e]) == Reserved(entries)
  {
    var n := |entries| - 1;
    if at == n {
      assert entries[at := e][..n] == entries[..n];
    } else {
      assert entries[at := e][..n] == entries[..n][at := e];
      ReservedOfSettled(entries[..n], at, e);
    }
  }

  lemma SettleKeepsInv(s: System, e: Event)
    requires Inv(s) && e.Settle? && After(s, e).Some?
    ensures Inv(After(s, e).value)
  {
    var t := After(s, e).value;
    var proc := s.procs[e.p];
    assert ProcOk(s, proc);
    SettledJournalIsOk(proc.memory, e.at, e.outcome);
    SentAfterAppend(s, t);
    hide JournalOk, SentOk, Bought, Within;
    HolderStep(s, t, e.p, t.procs[e.p]);
  }

  lemma SettledJournalIsOk(j: Journal, at: nat, outcome: Option<Reply>)
    requires JournalOk(j) && at < |j.entries| && j.entries[at].phase.InFlight?
    ensures JournalOk(j.(entries := j.entries[at := Settled(j.plan, j.entries[at], outcome)]))
  {
    ReservedOfSettled(j.entries, at, Settled(j.plan, j.entries[at], outcome));
    hide Cost, Reserved, Within;
  }

  lemma LoadKeepsInv(s: System, e: Event)
    requires Inv(s) && e.Load? && After(s, e).Some?
    ensures Inv(After(s, e).value)
  {
    var t := After(s, e).value;
    hide JournalOk, SentOk;
    QuietStep(s, t, e.p, t.procs[e.p]);
  }

  lemma QuietEventKeepsInv(s: System, e: Event)
    requires Inv(s) && (e.Begin? || e.Throw? || e.Unlock? || e.Crash? || e.ClearLock?) && After(s, e).Some?
    ensures Inv(After(s, e).value)
  {
    var t := After(s, e).value;
    hide JournalOk, SentOk;
    assert t.procs == s.procs[e.p := t.procs[e.p]];
    QuietStep(s, t, e.p, t.procs[e.p]);
  }

  lemma EveryEventKeepsInv(s: System, e: Event)
    requires Inv(s) && After(s, e).Some?
    ensures Inv(After(s, e).value)
  {
    hide Inv, After, Acts;
    match e
    case Load(_) => LoadKeepsInv(s, e);
    case Buy(_, _, _) => BuyKeepsInv(s, e);
    case Send(_) => SendKeepsInv(s, e);
    case Settle(_, _, _) => SettleKeepsInv(s, e);
    case _ => QuietEventKeepsInv(s, e);
  }

  // Runs.

  predicate IsRun(states: seq<System>, events: seq<Event>) {
    && |states| == |events| + 1 && Initial(states[0])
    && forall i :: 0 <= i < |events| ==> After(states[i], events[i]) == Some(states[i + 1])
  }

  lemma StepOfRun(states: seq<System>, events: seq<Event>, i: nat)
    requires IsRun(states, events) && i < |events|
    ensures i + 1 < |states| && After(states[i], events[i]) == Some(states[i + 1])
  {
  }

  lemma {:induction false} RunsAreInv(states: seq<System>, events: seq<Event>, i: nat)
    requires IsRun(states, events) && i < |states|
    ensures Inv(states[i])
  {
    if i > 0 {
      hide Inv, After, Initial;
      StepOfRun(states, events, i - 1);
      RunsAreInv(states, events, i - 1);
      EveryEventKeepsInv(states[i - 1], events[i - 1]);
    }
  }

  /** Over every run: no job is dispatched twice, each dispatched one has its receipt on disk, and the ceilings hold. */
  lemma EachJobIsBoughtAtMostOnce(states: seq<System>, events: seq<Event>, i: nat)
    requires IsRun(states, events) && i < |states|
    ensures var s := states[i];
            && (forall k, l :: 0 <= k < l < |s.sent| ==> s.sent[k] != s.sent[l])
            && (s.sent != [] ==> s.journal.Some? && |s.sent| <= |s.journal.value.entries| <= s.journal.value.requests
                                 && Reserved(s.journal.value.entries) <= s.journal.value.usd)
            && (forall job :: job in s.sent ==> HasReceipt(s, job))
  {
    RunsAreInv(states, events, i);
    hide ProcOk, LockOk, IsRun, Bought;
    var s := states[i];
    if s.sent != [] {
      assert forall k :: 0 <= k < |s.sent| ==> s.sent[k] in s.sent && HasReceipt(s, s.sent[k]);
      assert HasReceipt(s, s.sent[0]);
      FewerThanReceipts(s.sent, s.journal.value.entries);
    }
  }

  lemma {:induction false} FewerThanReceipts(sent: seq<string>, entries: seq<Entry>)
    requires forall k, l :: 0 <= k < l < |sent| ==> sent[k] != sent[l]
    requires forall k :: 0 <= k < |sent| ==> Bought(entries, sent[k])
    ensures |sent| <= |entries|
  {
    if sent != [] {
      var n := |sent| - 1;
      assert Bought(entries, sent[n]);
      var at :| 0 <= at < |entries| && entries[at].job == sent[n];
      var rest := entries[..at] + entries[at + 1..];
      forall k | 0 <= k < n
        ensures Bought(rest, sent[..n][k])
      {
        assert Bought(entries, sent[k]);
        var i :| 0 <= i < |entries| && entries[i].job == sent[k];
        assert rest[if i < at then i else i - 1] == entries[i];
      }
      FewerThanReceipts(sent[..n], rest);
    }
  }

  lemma ContinuedByItself(j: Journal)
    ensures Continued(j, j)
  {
  }

  /** The journal on disk is only ever continued: every save is a read-modify-write with nothing lost. */
  lemma NoUpdateIsLost(s: System, e: Event)
    requires Inv(s) && After(s, e).Some? && s.journal.Some?
    ensures After(s, e).value.journal.Some? && Continued(s.journal.value, After(s, e).value.journal.value)
  {
    ContinuedByItself(s.journal.value);
    if e.Buy? || e.Settle? {
      assert ProcOk(s, s.procs[e.p]);
    }
    hide Inv, MayBuy, Admissible;
  }

  /** A replay writes nothing, dispatches nothing and creates no journal. */
  lemma ReplayChangesNothing(s: System, e: Event)
    requires Inv(s) && After(s, e).Some? && e.p in s.procs
    requires (s.procs[e.p].Owner? || s.procs[e.p].Working?) && !s.procs[e.p].live
    ensures After(s, e).value.journal == s.journal && After(s, e).value.sent == s.sent
  {
    assert ProcOk(s, s.procs[e.p]);
    hide MayBuy, Admissible, JournalOk, SentOk;
  }

  /** Over every run no invocation has more requests in flight than its plan allows. */
  lemma FlightsStayWithinTheConcurrency(states: seq<System>, events: seq<Event>, i: nat, p: Pid)
    requires IsRun(states, events) && i < |states| && p in states[i].procs && states[i].procs[p].Working?
    ensures |states[i].procs[p].flying| <= states[i].procs[p].memory.plan.concurrency
  {
    RunsAreInv(states, events, i);
    assert ProcOk(states[i], states[i].procs[p]);
  }

  /** An invocation comes to work exactly on a journal of its own plan and limits, with one receipt for each of its jobs at its own cost; only a live one starts a journal, and only on a live one does it go on. */
  lemma OnlyItsOwnJournal(s: System, e: Event)
    requires e.Load? && After(s, e).Some?
    ensures e.p in s.procs && s.procs[e.p].Owner? && e.p in After(s, e).value.procs
    ensures var owner, now := s.procs[e.p], After(s, e).value.procs[e.p];
            var j := if s.journal.Some? then s.journal.value else Journal(owner.plan, true, owner.approval.requests, owner.approval.usd, []);
            var own :=
              && (s.journal.Some? || owner.live) && (owner.live ==> j.live)
              && j.plan == owner.plan && j.requests == owner.approval.requests && j.usd == owner.approval.usd
              && (forall i, k :: 0 <= i < k < |j.entries| ==> j.entries[i].job != j.entries[k].job)
              && (forall i :: 0 <= i < |j.entries| ==>
                    j.entries[i].job in owner.plan.jobs && j.entries[i].reserved == Cost(owner.plan.jobs[j.entries[i].job]));
            && (own ==> now == Working(owner.live, owner.approval, j, {}, None))
            && (!own ==> now == Leaving)
            && After(s, e).value.journal == s.journal && After(s, e).value.sent == s.sent
  {
    hide Cost;
  }

  // The lock.

  /** The lock is held by an invocation on its way to its unlock, or was left by one that crashed. */
  predicate LockBelongs(s: System) {
    s.lock.Some? ==> s.lock.value in s.procs && (Holds(s.procs[s.lock.value]) || s.procs[s.lock.value].Crashed?)
  }

  lemma EventKeepsLock(s: System, e: Event)
    requires LockOk(s) && LockBelongs(s) && After(s, e).Some?
    ensures LockBelongs(After(s, e).value)
  {
    assert e.p in s.procs && Holds(s.procs[e.p]) ==> s.lock == Some(e.p);
    hide LockOk, MayBuy, Admissible, Cost;
  }

  /** Over every run the lock lies there only for an invocation that will still release it, or for one that crashed: a throw gives it back. */
  lemma {:induction false} OnlyACrashLeavesTheLock(states: seq<System>, events: seq<Event>, i: nat)
    requires IsRun(states, events) && i < |states|
    ensures LockBelongs(states[i])
  {
    hide After, Inv;
    if i > 0 {
      StepOfRun(states, events, i - 1);
      hide IsRun, Initial, LockBelongs;
      OnlyACrashLeavesTheLock(states, events, i - 1);
      RunsAreInv(states, events, i - 1);
      LockIsOk(states[i - 1]);
      EventKeepsLock(states[i - 1], events[i - 1]);
    }
  }

  lemma LockIsOk(s: System)
    requires Inv(s)
    ensures LockOk(s)
  {
  }

  // A provider that exceeds its declared tokens.

  /** Some reply on disk reports more tokens than its job declares. */
  predicate Overdrawn(s: System) {
    s.journal.Some? && exists i :: 0 <= i < |s.journal.value.entries| && !Within(s.journal.value.plan, s.journal.value.entries[i])
  }

  predicate NothingIsDue(s: System) {
    forall p :: p in s.procs && s.procs[p].Working? ==> s.procs[p].due.None?
  }

  predicate Halted(s: System) {
    Overdrawn(s) ==> NothingIsDue(s)
  }

  lemma BuyIsNotOverdrawn(s: System, e: Event)
    requires Inv(s) && e.Buy? && After(s, e).Some?
    ensures !Overdrawn(s) && !Overdrawn(After(s, e).value)
  {
    var t, proc := After(s, e).value, s.procs[e.p];
    assert ProcOk(s, proc);
    hide JournalOk, SentOk, LockOk, Cost;
    var n := |proc.memory.entries|;
    assert Within(t.journal.value.plan, t.journal.value.entries[n]);
    assert forall i :: 0 <= i < n ==> t.journal.value.entries[i] == proc.memory.entries[i];
  }

  lemma OthersDoNotWork(s: System, p: Pid, q: Pid)
    requires LockOk(s) && p in s.procs && q in s.procs && p != q && s.procs[p].Working?
    ensures !s.procs[q].Working?
  {
  }

  lemma SettleKeepsHalted(s: System, e: Event)
    requires Inv(s) && e.Settle? && After(s, e).Some?
    ensures NothingIsDue(After(s, e).value)
    ensures Overdrawn(s) ==> Overdrawn(After(s, e).value)
  {
    var t, proc := After(s, e).value, s.procs[e.p];
    assert ProcOk(s, proc);
    forall q | q in t.procs && q != e.p
      ensures !t.procs[q].Working?
    {
      OthersDoNotWork(s, e.p, q);
    }
    if Overdrawn(s) {
      var i :| 0 <= i < |s.journal.value.entries| && !Within(s.journal.value.plan, s.journal.value.entries[i]);
      assert i != e.at;
      hide Inv, After, Within;
      assert t.journal.value.entries[i] == s.journal.value.entries[i];
    }
  }

  lemma OtherKeepsHalted(s: System, e: Event)
    requires Halted(s) && !e.Buy? && !e.Settle? && After(s, e).Some?
    ensures Halted(After(s, e).value)
    ensures Overdrawn(s) ==> After(s, e).value.journal == s.journal && After(s, e).value.sent == s.sent
  {
    hide Within, Admissible;
  }

  /** From one state to another, no entry is added and nothing is dispatched. */
  predicate BuysNothing(s: System, t: System) {
    && t.sent == s.sent
    && s.journal.Some? && t.journal.Some? && |t.journal.value.entries| == |s.journal.value.entries|
  }

  /** An overdrawn journal stays one, and nothing is bought. */
  lemma EventKeepsHalted(s: System, e: Event)
    requires Inv(s) && Halted(s) && After(s, e).Some?
    ensures var t := After(s, e).value;
            && Halted(t)
            && (Overdrawn(s) ==> Overdrawn(t) && BuysNothing(s, t))
  {
    if e.Buy? {
      hide Inv, After, Overdrawn;
      BuyIsNotOverdrawn(s, e);
    } else if e.Settle? {
      assert ProcOk(s, s.procs[e.p]);
      hide Inv, Overdrawn, NothingIsDue;
      SettleKeepsHalted(s, e);
    } else {
      hide Inv, After, Halted;
      OtherKeepsHalted(s, e);
    }
  }

  lemma {:induction false} HaltedOverARun(states: seq<System>, events: seq<Event>, i: nat)
    requires IsRun(states, events) && i < |states|
    ensures Halted(states[i])
  {
    hide Inv, After;
    if i > 0 {
      hide Initial, Halted;
      StepOfRun(states, events, i - 1);
      HaltedOverARun(states, events, i - 1);
      RunsAreInv(states, events, i - 1);
      EventKeepsHalted(states[i - 1], events[i - 1]);
    }
  }

  /** Over every run: once a reply on disk exceeds its declared tokens, no entry is added and nothing is dispatched any more, by whichever invocation. */
  lemma {:induction false} OverdrawnBuysNothing(states: seq<System>, events: seq<Event>, i: nat, j: nat)
    requires IsRun(states, events) && i <= j < |states| && Overdrawn(states[i])
    ensures Overdrawn(states[j]) && BuysNothing(states[i], states[j])
  {
    hide Inv, After, Initial, Halted;
    if i < j {
      hide Overdrawn;
      OverdrawnBuysNothing(states, events, i, j - 1);
      StepOfRun(states, events, j - 1);
      RunsAreInv(states, events, j - 1);
      HaltedOverARun(states, events, j - 1);
      EventKeepsHalted(states[j - 1], events[j - 1]);
    }
  }

  function ApprovalOf(proc: Proc): Option<Approval> {
    if proc.Owner? || proc.Working? then Some(proc.approval) else None
  }

  /** One run id is within a limit, and so is every approval at work under it. */
  predicate RunIsWithin(s: System, run: string, limit: nat) {
    && (s.journal.Some? ==> OfRun(s.journal.value.entries, run) <= limit)
    && forall p :: p in s.procs && ApprovalOf(s.procs[p]).Some? && ApprovalOf(s.procs[p]).value.run == run ==>
         ApprovalOf(s.procs[p]).value.perRun <= limit
  }

  lemma {:induction false} OfRunSettled(entries: seq<Entry>, at: nat, e: Entry, run: string)
    requires at < |entries| && e.run == entries[at].run
    ensures OfRun(entries[at := e], run) == OfRun(entries, run)
  {
    var n := |entries| - 1;
    if at == n {
      assert entries[at := e][..n] == entries[..n];
    } else {
      assert entries[at := e][..n] == entries[..n][at := e];
      OfRunSettled(entries[..n], at, e, run);
    }
  }

  lemma OfRunBought(entries: seq<Entry>, e: Entry, run: string)
    ensures OfRun(entries + [e], run) == OfRun(entries, run) + (if e.run == run then 1 else 0)
  {
    assert (entries + [e])[..|entries|] == entries;
  }

  lemma BuyKeepsRunWithin(s: System, e: Event, run: string, limit: nat)
    requires Inv(s) && e.Buy? && After(s, e).Some? && RunIsWithin(s, run, limit)
    ensures RunIsWithin(After(s, e).value, run, limit)
  {
    BuyEffect(s, e);
    var t, proc := After(s, e).value, s.procs[e.p];
    assert ProcOk(s, proc);
    assert OfRun(proc.memory.entries, proc.approval.run) < proc.approval.perRun;
    OfRunBought(proc.memory.entries, t.journal.value.entries[|proc.memory.entries|], run);
    assert OfRun([], run) == 0;
    hide Inv, After, MayBuy, Cost, OfRun;
  }

  lemma SettleKeepsRunWithin(s: System, e: Event, run: string, limit: nat)
    requires Inv(s) && e.Settle? && After(s, e).Some? && RunIsWithin(s, run, limit)
    ensures RunIsWithin(After(s, e).value, run, limit)
  {
    var proc := s.procs[e.p];
    assert ProcOk(s, proc);
    hide Inv, Within, OfRun;
    OfRunSettled(proc.memory.entries, e.at, Settled(proc.memory.plan, proc.memory.entries[e.at], e.outcome), run);
  }

  lemma OtherKeepsRunWithin(s: System, e: Event, run: string, limit: nat)
    requires !e.Buy? && !e.Settle? && After(s, e).Some? && RunIsWithin(s, run, limit)
    requires e.Begin? && e.approval.run == run ==> e.approval.perRun <= limit
    ensures RunIsWithin(After(s, e).value, run, limit)
  {
    hide OfRun, MayBuy, Admissible;
  }

  lemma EventKeepsRunWithin(s: System, e: Event, run: string, limit: nat)
    requires Inv(s) && After(s, e).Some? && RunIsWithin(s, run, limit)
    requires e.Begin? && e.approval.run == run ==> e.approval.perRun <= limit
    ensures RunIsWithin(After(s, e).value, run, limit)
  {
    hide Inv, After, RunIsWithin;
    if e.Buy? {
      BuyKeepsRunWithin(s, e, run, limit);
    } else if e.Settle? {
      SettleKeepsRunWithin(s, e, run, limit);
    } else {
      OtherKeepsRunWithin(s, e, run, limit);
    }
  }

  /** Over every run the purchases under one run id stay within the limit that every approval of that id sets. */
  lemma {:induction false} PurchasesRespectTheRun(states: seq<System>, events: seq<Event>, i: nat, run: string, limit: nat)
    requires IsRun(states, events) && i < |states|
    requires states[0].journal.Some? ==> OfRun(states[0].journal.value.entries, run) <= limit
    requires forall k :: 0 <= k < |events| && events[k].Begin? && events[k].approval.run == run ==> events[k].approval.perRun <= limit
    ensures RunIsWithin(states[i], run, limit)
  {
    if i > 0 {
      hide Inv, After, Initial, RunIsWithin;
      StepOfRun(states, events, i - 1);
      PurchasesRespectTheRun(states, events, i - 1, run, limit);
      RunsAreInv(states, events, i - 1);
      EventKeepsRunWithin(states[i - 1], events[i - 1], run, limit);
    }
  }

  // Money.

  predicate PricesArePrices(plan: Plan) {
    forall id :: id in plan.jobs ==> plan.jobs[id].inputPrice >= 0.0 && plan.jobs[id].outputPrice >= 0.0
  }

  lemma Product(a: nat, b: nat, price: real)
    requires a <= b && price >= 0.0
    ensures a as real * price <= b as real * price
  {
  }

  lemma PriceGrows(job: Job, input: nat, output: nat)
    requires job.inputPrice >= 0.0 && job.outputPrice >= 0.0 && input <= job.inputBytes && output <= job.outputTokens
    ensures Price(job, input, output) <= Cost(job)
  {
    Product(input, job.inputBytes, job.inputPrice);
    Product(output, job.outputTokens, job.outputPrice);
  }

  lemma WithinCostsNoMore(plan: Plan, e: Entry)
    requires PricesArePrices(plan) && e.job in plan.jobs && e.reserved == Cost(plan.jobs[e.job]) && Within(plan, e)
    ensures Reported(plan, e) <= e.reserved
  {
    var job := plan.jobs[e.job];
    assert Price(job, 0, 0) == 0.0;
    PriceGrows(job, 0, 0);
    hide Price, Cost;
    if e.reply.Some? && e.reply.value.usage.Some? {
      PriceGrows(job, e.reply.value.usage.value.input, e.reply.value.usage.value.output);
    }
  }

  function Spent(plan: Plan, entries: seq<Entry>): real {
    if entries == [] then 0.0 else Spent(plan, entries[..|entries| - 1]) + Reported(plan, entries[|entries| - 1])
  }

  /** Unless a provider exceeds its declared tokens, what the replies report stays inside the campaign's dollars. */
  lemma ReportedStaysInBudget(j: Journal)
    requires JournalOk(j) && PricesArePrices(j.plan) && j.entries != []
    requires forall i :: 0 <= i < |j.entries| ==> Within(j.plan, j.entries[i])
    ensures Spent(j.plan, j.entries) <= j.usd
  {
    hide Within;
    SpentIsReserved(j.plan, j.entries);
  }

  lemma {:induction false} SpentIsReserved(plan: Plan, entries: seq<Entry>)
    requires PricesArePrices(plan)
    requires forall i :: 0 <= i < |entries| ==>
               entries[i].job in plan.jobs && entries[i].reserved == Cost(plan.jobs[entries[i].job]) && Within(plan, entries[i])
    ensures Spent(plan, entries) <= Reserved(entries)
  {
    if entries != [] {
      var n := |entries| - 1;
      WithinCostsNoMore(plan, entries[n]);
      SpentIsReserved(plan, entries[..n]);
    }
  }

  /** A million tokens cost what the price per million says. */
  lemma PriceIsPerMillion(job: Job, input: nat, output: nat)
    ensures Price(job, 1000000, 0) == job.inputPrice && Price(job, 0, 1000000) == job.outputPrice
    ensures Price(job, input, output) * 1000000.0 == input as real * job.inputPrice + output as real * job.outputPrice
    ensures Cost(job) == Price(job, job.inputBytes, job.outputTokens)
  {
  }

  /** The worst case covers what is reserved and what is reported. */
  lemma {:induction false} WorstCoversBoth(plan: Plan, entries: seq<Entry>)
    ensures Reserved(entries) <= Worst(plan, entries) && Spent(plan, entries) <= Worst(plan, entries)
  {
    if entries != [] {
      WorstCoversBoth(plan, entries[..|entries| - 1]);
    }
  }

  lemma NothingReportedYet(plan: Plan, e: Entry)
    requires e.reply.None?
    ensures Reported(plan, e) == 0.0 && Within(plan, e)
  {
  }

  /** A purchase leaves the reserved and the reported dollars of the whole campaign within its approval, whatever earlier providers charged. */
  lemma PurchaseStaysInDollars(s: System, e: Event)
    requires Inv(s) && e.Buy? && After(s, e).Some? && PricesArePrices(s.procs[e.p].memory.plan)
    ensures var t := After(s, e).value;
            && t.journal.Some?
            && Spent(t.journal.value.plan, t.journal.value.entries) <= t.journal.value.usd
            && Reserved(t.journal.value.entries) <= t.journal.value.usd
  {
    BuyEffect(s, e);
    var t, proc := After(s, e).value, s.procs[e.p];
    assert ProcOk(s, proc);
    var plan, entries := proc.memory.plan, proc.memory.entries;
    var entry := t.journal.value.entries[|entries|];
    NothingReportedYet(plan, entry);
    assert Price(plan.jobs[e.job], 0, 0) == 0.0;
    PriceGrows(plan.jobs[e.job], 0, 0);
    assert t.journal.value.entries[..|entries|] == entries;
    WorstCoversBoth(plan, t.journal.value.entries);
    hide Inv, After, Cost, Price, Within, OfRun, Bought;
    assert Worst(plan, t.journal.value.entries) == Worst(plan, entries) + Larger(entry.reserved, Reported(plan, entry));
  }

  /** An answered request is completed exactly for a success status within its declared tokens, one without an answer is unknown, and nothing else of its receipt changes. */
  lemma SettledSays(plan: Plan, e: Entry, outcome: Option<Reply>)
    ensures var after := Settled(plan, e, outcome);
            && after == e.(phase := after.phase, reply := after.reply)
            && (outcome.None? ==> after.phase == Unknown && after.reply == e.reply)
            && (outcome.Some? ==> after.reply == outcome && (after.phase == Completed || after.phase == Failed))
            && (outcome.Some? ==> (after.phase == Completed <==>
                  outcome.value.status >= 200 && outcome.value.status <= 299 && ReportsWithin(plan, e.(reply := outcome))))
  {
  }

  // Receipts.

  /** What a repeated request is answered from its receipt; an uncertain outcome answers nothing and is never bought again. */
  function Served(j: Journal, job: string, request: string): Option<Reply> {
    var found := Find(j.entries, job);
    if found.Some? && found.value.request == request && Within(j.plan, found.value) then found.value.reply else None
  }

  function Find(entries: seq<Entry>, job: string): Option<Entry> {
    if entries == [] then None else if entries[0].job == job then Some(entries[0]) else Find(entries[1..], job)
  }

  lemma {:induction false} FindsFirst(entries: seq<Entry>, job: string, i: nat)
    requires i < |entries| && entries[i].job == job && forall k :: 0 <= k < i ==> entries[k].job != job
    ensures Find(entries, job) == Some(entries[i])
  {
    if i > 0 {
      FindsFirst(entries[1..], job, i - 1);
    }
  }

  lemma {:induction false} FoundSomewhere(entries: seq<Entry>, job: string) returns (i: nat)
    requires Find(entries, job).Some?
    ensures i < |entries| && entries[i] == Find(entries, job).value && entries[i].job == job
    ensures forall k :: 0 <= k < i ==> entries[k].job != job
  {
    if entries[0].job == job {
      i := 0;
    } else {
      i := FoundSomewhere(entries[1..], job);
      i := i + 1;
    }
  }

  /** The tokens a reply reports are within what its job declares; a reply that reports none is taken as it is. */
  predicate ReportsWithin(plan: Plan, e: Entry) {
    e.job in plan.jobs && e.reply.Some? && e.reply.value.usage.Some? ==>
      && e.reply.value.usage.value.input <= plan.jobs[e.job].inputBytes
      && e.reply.value.usage.value.output <= plan.jobs[e.job].outputTokens
  }

  /** A job is served exactly when its receipt holds a reply to this very request, within its declared tokens, and then with that reply. */
  lemma ServedIff(j: Journal, job: string, request: string, reply: Reply)
    requires JournalOk(j)
    ensures Served(j, job, request) == Some(reply) <==>
              exists i :: 0 <= i < |j.entries| && j.entries[i].job == job && j.entries[i].request == request
                && j.entries[i].reply == Some(reply) && ReportsWithin(j.plan, j.entries[i])
  {
    hide Cost, Reserved;
    if Find(j.entries, job).Some? {
      var k := FoundSomewhere(j.entries, job);
    }
    if i :| 0 <= i < |j.entries| && j.entries[i].job == job && j.entries[i].request == request && j.entries[i].reply == Some(reply) && ReportsWithin(j.plan, j.entries[i]) {
      FindsFirst(j.entries, job, i);
    }
  }

  /** A reply once served is served for ever. */
  lemma ReceiptsAreStable(a: Journal, b: Journal, job: string, request: string)
    requires JournalOk(a) && Continued(a, b) && Served(a, job, request).Some?
    ensures Served(b, job, request) == Served(a, job, request)
  {
    var i := FoundSomewhere(a.entries, job);
    hide Within, Cost, Reserved;
    FindsFirst(b.entries, job, i);
  }
}
