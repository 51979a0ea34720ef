/** The live tier as a protocol: invocations that share a journal, a report and a lock file, may interleave anywhere and crash anywhere. */
module PolicyProtocol {
  import opened Options
  import opened Campaign

  type Pid = nat

  /** A physical request: embeddings or chat, and the digest of its body. */
  datatype Call = Call(embedding: bool, body: string)
  datatype Status = Waiting | Replied(code: nat) | Failed
  datatype Entry = Entry(call: Call, status: Status)
  datatype Terms = Terms(inference: string, source: string, ceiling: nat)
  datatype Journal = Journal(terms: Terms, requests: seq<Entry>, writes: map<string, string>)

  /** The report file, or what an interrupted write leaves of it. */
  datatype ReportFile = Whole(report: Report) | Torn
  datatype Disk = Disk(journal: Option<Journal>, report: ReportFile, lock: Option<Pid>)

  /** What one invocation set out to do, and the snapshot it planned from. */
  datatype Job = Job(stored: Report, journal: Journal, phase: Phase, request: Request, limit: nat)

  /** What must happen before anything else: a save, with or without a dispatch after it, or that dispatch. */
  datatype Due = Nothing | Save(send: Option<nat>) | Send(at: nat)

  /** How one published report came from the one before. */
  datatype Link = Approval(inference: string) | Advanced(phase: Phase, request: Request, outcome: Outcome, judge: Judge, purchased: nat)

  /** What an invocation leaves with: its memory of the journal, where its own requests start, and what it may still spend. */
  datatype Flight = Flight(memory: Journal, from: nat, spent: nat, limit: nat)

  /** What may still happen in an invocation that leaves: an answer, a remembered reply, or a request another worker makes. */
  datatype Tail = Settles(at: nat, status: Status) | Remembers(key: string, digest: string) | Records(call: Call, dispatched: bool)

  datatype Proc =
    | Reading(stored: Report)
    | Ready(job: Job)
    | Locked(job: Job)
    | Running(job: Job, memory: Journal, spent: nat, due: Due, begun: bool)
    | Publishing(job: Job, memory: Journal, spent: nat, next: Report, link: Link)
    | Leaving(flight: Option<Flight>)
    | Lingering(flying: Flight)
    | Ended
    | Crashed

  /** The shared files, the invocations, which journal entries were dispatched, and every report that was published with its link. */
  datatype System = System(disk: Disk, procs: map<Pid, Proc>, sent: map<nat, Call>, published: seq<Report>, links: seq<Link>)

  datatype Event =
    | Read(p: Pid)
    | Plan(p: Pid, job: Job, terms: Terms)
    | Lock(p: Pid)
    | Verify(p: Pid)
    | SaveJournal(p: Pid)
    | Dispatch(p: Pid)
    | Record(p: Pid, call: Call)
    | Settled(p: Pid, at: nat, status: Status)
    | Remember(p: Pid, key: string, digest: string)
    | Approve(p: Pid)
    | Finish(p: Pid, outcome: Outcome, judge: Judge)
    | Publish(p: Pid)
    | Throw(p: Pid)
    | Late(p: Pid, tail: Tail)
    | Unlock(p: Pid)
    | Crash(p: Pid)
    | ClearLock(p: Pid)

  /** The report a job works on: the stored one, with the approved inference once that is published. */
  function Base(job: Job, begun: bool): Report {
    if begun then job.stored.(approved := Some(job.journal.terms.inference)) else job.stored
  }

  /** The journal an invocation plans from: the one on disk, or an empty one. */
  function Snapshot(disk: Disk, terms: Terms): Journal {
    if disk.journal.Some? then disk.journal.value else Journal(terms, [], map[])
  }

  /** The checks made before the lock: terms that match, a phase that is open, a plan, and room below the ceiling. */
  predicate Plannable(disk: Disk, job: Job, terms: Terms) {
    && job.journal == Snapshot(disk, terms) && job.journal.terms == terms
    && (job.stored.approved.Some? ==> job.stored.approved.value == terms.inference)
    && PhaseIsOpen(job.stored, job.phase) && Planned(job.stored, job.phase, job.request).Some?
    && |job.journal.requests| < terms.ceiling
  }

  /** The recheck under the lock. */
  predicate Unchanged(disk: Disk, job: Job) {
    (disk.journal.Some? ==> disk.journal.value == job.journal) && disk.report == Whole(job.stored)
  }

  predicate Holds(proc: Proc) {
    proc.Locked? || proc.Running? || proc.Publishing? || proc.Leaving?
  }

  /** The memory an invocation that leaves still has requests in; a failing save leaves it nothing. */
  function Left(proc: Proc): Option<Flight> {
    if (proc.Running? && proc.due.Nothing?) || proc.Publishing? 
    then Some(Flight(proc.memory, |proc.job.journal.requests|, proc.spent, proc.job.limit)) else None
  }

  predicate Idle(proc: Proc) {
    proc.Running? && proc.begun && proc.due.Nothing?
  }

  function SettledAt(j: Journal, at: nat, status: Status): Journal
    requires at < |j.requests|
  {
    j.(requests := j.requests[at := j.requests[at].(status := status)])
  }

  function Recorded(j: Journal, call: Call): Journal {
    j.(requests := j.requests + [Entry(call, Waiting)])
  }

  predicate TailCan(f: Flight, tail: Tail) {
    match tail
    case Settles(at, status) => f.from <= at < |f.memory.requests| && f.memory.requests[at].status.Waiting? && !status.Waiting?
    case Remembers(key, digest) => key in f.memory.writes ==> f.memory.writes[key] == digest
    case Records(call, dispatched) => |f.memory.requests| < f.memory.terms.ceiling && f.spent < f.limit
  }

  function Tailed(f: Flight, tail: Tail): Flight
    requires TailCan(f, tail)
  {
    match tail
    case Settles(at, status) => f.(memory := SettledAt(f.memory, at, status))
    case Remembers(key, digest) => f.(memory := f.memory.(writes := f.memory.writes[key := digest]))
    case Records(call, dispatched) => f.(memory := Recorded(f.memory, call), spent := f.spent + 1)
  }

  /** The entry a late request is dispatched under; saving and dispatching are one step of its process, unless it exits between them. */
  function Buys(f: Flight, tail: Tail): Option<nat> {
    if tail.Records? && tail.dispatched then Some(|f.memory.requests|) else None
  }

  function FlightOf(proc: Proc): Option<Flight> {
    if proc.Leaving? then proc.flight else if proc.Lingering? then Some(proc.flying) else None
  }

  /** A save of an invocation that has unlocked already: something it did not wait for still happened before it exited. */
  predicate Stray(s: System, e: Event) {
    e.Late? && e.p in s.procs && s.procs[e.p].Lingering?
  }

  function With(s: System, p: Pid, proc: Proc): System {
    s.(procs := s.procs[p := proc])
  }

  /** The effect of one event, if it can happen. */
  function After(s: System, e: Event): Option<System> {
    if e.Read? then
      if e.p !in s.procs && s.disk.report.Whole? then Some(With(s, e.p, Reading(s.disk.report.report))) else None
    else if e.ClearLock? then
      if s.disk.lock == Some(e.p) && e.p in s.procs && s.procs[e.p].Crashed? then Some(s.(disk := s.disk.(lock := None))) else None
    else if e.p in s.procs then Acts(s, e, s.procs[e.p]) else None
  }

  function Acts(s: System, e: Event, proc: Proc): Option<System> {
    match e
    case Plan(p, job, terms) =>
      if proc.Reading? && job.stored == proc.stored && Plannable(s.disk, job, terms) then Some(With(s, p, Ready(job))) else None
    case Lock(p) =>
      if !proc.Ready? then None
      else if s.disk.lock.Some? then Some(With(s, p, Ended))
      else Some(With(s, p, Locked(proc.job)).(disk := s.disk.(lock := Some(p))))
    case Verify(p) =>
      if !proc.Locked? then None
      else if Unchanged(s.disk, proc.job) then Some(With(s, p, Running(proc.job, proc.job.journal, 0, Save(None), false)))
      else Some(With(s, p, Leaving(None)))
    case SaveJournal(p) =>
      if !(proc.Running? && proc.due.Save?) then None
      else
        var due := if proc.due.send.Some? then Send(proc.due.send.value) else Nothing;
        Some(With(s, p, proc.(due := due)).(disk := s.disk.(journal := Some(proc.memory))))
    case Dispatch(p) =>
      if !(proc.Running? && proc.due.Send? && proc.due.at < |proc.memory.requests|) then None
      else Some(With(s, p, proc.(due := Nothing)).(sent := s.sent[proc.due.at := proc.memory.requests[proc.due.at].call]))
    case Record(p, call) =>
      if !(Idle(proc) && |proc.memory.requests| < proc.memory.terms.ceiling && proc.spent < proc.job.limit) then None
      else Some(With(s, p, proc.(memory := Recorded(proc.memory, call),
                                 spent := proc.spent + 1, due := Save(Some(|proc.memory.requests|)))))
    case Settled(p, at, status) =>
      if !(Idle(proc) && |proc.job.journal.requests| <= at < |proc.memory.requests| && proc.memory.requests[at].status.Waiting? && !status.Waiting?) then None
      else Some(With(s, p, proc.(memory := SettledAt(proc.memory, at, status), due := Save(None))))
    case Remember(p, key, digest) =>
      if !(Idle(proc) && (key in proc.memory.writes ==> proc.memory.writes[key] == digest)) then None
      else Some(With(s, p, proc.(memory := proc.memory.(writes := proc.memory.writes[key := digest]), due := Save(None))))
    case Approve(p) =>
      if !(proc.Running? && !proc.begun && proc.due.Nothing?) then None
      else Some(With(s, p, Publishing(proc.job, proc.memory, proc.spent, Base(proc.job, true), Approval(proc.job.journal.terms.inference))).(disk := s.disk.(report := Torn)))
    case Finish(p, outcome, judge) =>
      if !Idle(proc) then None else
      var base, job := Base(proc.job, true), proc.job;
      if !(Planned(base, job.phase, job.request).Some? && Fits(base, job.phase, Planned(base, job.phase, job.request).value, outcome)) then None else
      var next := Advance(base, job.phase, outcome, judge);
      if next.None? then Some(With(s, p, Leaving(Left(proc))))
      else
        var n := |proc.memory.requests|;
        Some(With(s, p, Publishing(job, proc.memory, proc.spent, next.value.(purchased := n), Advanced(job.phase, job.request, outcome, judge, n)))
             .(disk := s.disk.(report := Torn)))
    case Publish(p) =>
      if !proc.Publishing? then None
      else
        var later := if proc.link.Approval? then Running(proc.job, proc.memory, proc.spent, Nothing, true) else Leaving(Left(proc));
        Some(With(s, p, later).(disk := s.disk.(report := Whole(proc.next)), published := s.published + [proc.next], links := s.links + [proc.link]))
    case Throw(p) => if proc.Locked? || proc.Running? || proc.Publishing? then Some(With(s, p, Leaving(Left(proc)))) else None
    case Late(p, tail) =>
      var f := FlightOf(proc);
      if !(f.Some? && TailCan(f.value, tail)) then None
      else
        var next, bought := Tailed(f.value, tail), Buys(f.value, tail);
        Some(With(s, p, if proc.Leaving? then Leaving(Some(next)) else Lingering(next))
             .(disk := s.disk.(journal := Some(next.memory)), sent := if bought.Some? then s.sent[bought.value := tail.call] else s.sent))
    case Unlock(p) =>
      if !proc.Leaving? then None
      else Some(With(s, p, if proc.flight.Some? then Lingering(proc.flight.value) else Ended).(disk := s.disk.(lock := None)))
    case Crash(p) => if proc.Ended? || proc.Crashed? then None else Some(With(s, p, Crashed))
    case _ => None
  }

  // The lock.

  /** Whoever is between its lock and its unlock has the lock. */
  predicate LockOk(s: System) {
    forall p :: p in s.procs && Holds(s.procs[p]) ==> s.disk.lock == Some(p)
  }

  lemma HolderHasLock(s: System, p: Pid)
    requires LockOk(s) && p in s.procs && Holds(s.procs[p])
    ensures s.disk.lock == Some(p)
  {
  }

  lemma HoldersAreOne(s: System, p: Pid, q: Pid)
    requires LockOk(s) && p in s.procs && q in s.procs && Holds(s.procs[p]) && Holds(s.procs[q])
    ensures p == q
  {
  }

  /** The lock and the processes that hold it, as an event leaves them. */
  lemma HoldingAfter(s: System, e: Event)
    requires After(s, e).Some?
    ensures var t := After(s, e).value;
            && (forall q :: q in t.procs && q != e.p ==> q in s.procs && t.procs[q] == s.procs[q])
            && (e.p in t.procs && Holds(t.procs[e.p]) ==> e.Lock? || (e.p in s.procs && Holds(s.procs[e.p])))
            && (e.Lock? && e.p in t.procs && Holds(t.procs[e.p]) ==> s.disk.lock.None? && t.disk.lock == Some(e.p))
            && (e.Unlock? || e.ClearLock? || (e.Lock? && Holds(t.procs[e.p])) || t.disk.lock == s.disk.lock)
            && (e.Unlock? ==> e.p in s.procs && Holds(s.procs[e.p]) && !Holds(t.procs[e.p]))
            && (e.ClearLock? ==> s.disk.lock == Some(e.p) && e.p in s.procs && !Holds(s.procs[e.p]) && t.procs == s.procs)
  {
    hide Unchanged, Plannable, Planned, Fits, Advance, Base, TailCan, Tailed, SettledAt, Left;
  }

  lemma LockStaysOk(s: System, e: Event)
    requires LockOk(s) && After(s, e).Some?
    ensures LockOk(After(s, e).value)
  {
    HoldingAfter(s, e);
    hide After, Holds;
  }

  // Runs.

  ghost predicate Initial(s: System) {
    && s.disk.journal.None? && s.disk.lock.None? && s.disk.report.Whole?
    && s.procs == map[] && s.sent == map[] && s.links == []
    && s.published == [s.disk.report.report] && Sound(s.disk.report.report)
  }

  /** A run: states from an initial one, each the effect of the next event on the one before. */
  ghost predicate IsRun(states: seq<System>, events: seq<Event>) {
    && |states| == |events| + 1
    && Initial(states[0])
    && forall i :: 0 <= i < |events| ==> After(states[i], events[i]) == Some(states[i + 1])
  }

  lemma StepOfRun(states: seq<System>, events: seq<Event>, i: nat)
    requires IsRun(states, events) && i < |events|
    ensures i + 1 < |states| && After(states[i], events[i]) == Some(states[i + 1])
  {
  }

  lemma {:induction false} LockOverARun(states: seq<System>, events: seq<Event>, i: nat)
    requires IsRun(states, events) && i < |states|
    ensures LockOk(states[i])
  {
    hide After;
    if i > 0 {
      StepOfRun(states, events, i - 1);
      hide Initial, IsRun, LockOk;
      LockOverARun(states, events, i - 1);
      LockStaysOk(states[i - 1], events[i - 1]);
    }
  }

  /** Over every run at most one invocation is between its lock and its unlock. */
  lemma OneHolder(states: seq<System>, events: seq<Event>, i: nat, p: Pid, q: Pid)
    requires IsRun(states, events) && i < |states|
    requires p in states[i].procs && q in states[i].procs && Holds(states[i].procs[p]) && Holds(states[i].procs[q])
    ensures p == q && states[i].disk.lock == Some(p)
  {
    LockOverARun(states, events, i);
    hide IsRun, Holds;
  }

  /** While the lock of a crashed invocation lies there, only its removal, or a late save of one that had unlocked before, changes a file, dispatches or publishes. */
  lemma CrashedLockStopsEverything(s: System, e: Event, q: Pid)
    requires LockOk(s) && s.disk.lock == Some(q) && q in s.procs && s.procs[q].Crashed?
    requires !e.ClearLock? && After(s, e).Some?
    requires var t := After(s, e).value; t.disk != s.disk || t.sent != s.sent || t.published != s.published || t.links != s.links
    ensures Stray(s, e)
  {
    assert e.p in s.procs ==> !Holds(s.procs[e.p]);
    hide LockOk, Plannable, Planned, Fits, Advance, Base, TailCan, Tailed;
  }

  /** A report and its successor. */
  ghost predicate Linked(a: Report, link: Link, b: Report) {
    match link
    case Approval(inference) => b == a.(approved := Some(inference)) && (a.approved.Some? ==> a.approved.value == inference)
    case Advanced(phase, request, outcome, judge, purchased) =>
      && PhaseIsOpen(a, phase)
      && Planned(a, phase, request).Some?
      && Fits(a, phase, Planned(a, phase, request).value, outcome)
      && var next := Advance(a, phase, outcome, judge);
         next.Some? && b == next.value.(purchased := purchased)
  }
}
