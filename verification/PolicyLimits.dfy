/** What one invocation may spend: over every run its own requests are counted and stay within its limit. */
module PolicyLimits {
  import opened Options
  import opened Campaign
  import opened PolicyProtocol
  import opened PolicyJournal

  /** A memory that has grown by exactly the requests its invocation spent, which are within the limit. */
  predicate Counted(memory: Journal, from: nat, spent: nat, limit: nat) {
    |memory.requests| == from + spent && spent <= limit
  }

  /** A job for which the campaign had room when it was planned. */
  predicate HasRoom(job: Job) {
    |job.journal.requests| < job.journal.terms.ceiling
  }

  predicate SpendOk(proc: Proc) {
    match proc
    case Ready(job) => HasRoom(job)
    case Locked(job) => HasRoom(job)
    case Running(job, memory, spent, due, begun) => HasRoom(job) && Counted(memory, |job.journal.requests|, spent, job.limit) && job.journal.requests <= memory.requests
    case Publishing(job, memory, spent, next, link) =>
      && HasRoom(job) && Counted(memory, |job.journal.requests|, spent, job.limit) && job.journal.requests <= memory.requests
      && (link.Advanced? ==> next.purchased == |memory.requests|)
    case Leaving(flight) => flight.Some? ==> Counted(flight.value.memory, flight.value.from, flight.value.spent, flight.value.limit)
    case Lingering(flying) => Counted(flying.memory, flying.from, flying.spent, flying.limit)
    case _ => true
  }

  ghost predicate AllCount(s: System) {
    forall p :: p in s.procs ==> SpendOk(s.procs[p])
  }

  lemma TailCounts(f: Flight, tail: Tail)
    requires TailCan(f, tail) && Counted(f.memory, f.from, f.spent, f.limit)
    ensures var g := Tailed(f, tail); Counted(g.memory, g.from, g.spent, g.limit)
    ensures f.memory.requests[..f.from] <= Tailed(f, tail).memory.requests
  {
  }

  lemma LateCounts(s: System, e: Event)
    requires AllCount(s) && After(s, e).Some? && e.Late?
    ensures e.p in After(s, e).value.procs && SpendOk(After(s, e).value.procs[e.p])
  {
    LateEffect(s, e);
    assert SpendOk(s.procs[e.p]);
    TailCounts(FlightOf(s.procs[e.p]).value, e.tail);
    hide AllCount, After, TailCan, Tailed, Buys;
  }

  lemma PublishingCounts(s: System, e: Event)
    requires AllCount(s) && After(s, e).Some? && (e.Approve? || e.Finish? || e.Publish? || e.Throw?)
    ensures e.p in After(s, e).value.procs && SpendOk(After(s, e).value.procs[e.p])
  {
    assert SpendOk(s.procs[e.p]);
    hide AllCount, Planned, Fits, Advance, Base, HasRoom;
  }

  /** The process of an event counts on, whatever the event. */
  lemma EventCounts(s: System, e: Event)
    requires AllCount(s) && After(s, e).Some?
    ensures e.p in After(s, e).value.procs ==> SpendOk(After(s, e).value.procs[e.p])
  {
    if e.Late? {
      LateCounts(s, e);
    } else if e.Approve? || e.Finish? || e.Publish? || e.Throw? {
      PublishingCounts(s, e);
    } else {
      assert e.p in s.procs ==> SpendOk(s.procs[e.p]);
      hide AllCount, Unchanged, Planned, PhaseIsOpen, Snapshot;
    }
  }

  lemma EveryEventCounts(s: System, e: Event)
    requires AllCount(s) && After(s, e).Some?
    ensures AllCount(After(s, e).value)
  {
    EventCounts(s, e);
    HoldingAfter(s, e);
    hide After, SpendOk, Holds;
  }

  lemma {:induction false} CountedOverARun(states: seq<System>, events: seq<Event>, i: nat)
    requires IsRun(states, events) && i < |states|
    ensures AllCount(states[i])
  {
    hide After, SpendOk;
    if i > 0 {
      StepOfRun(states, events, i - 1);
      hide IsRun, Initial;
      CountedOverARun(states, events, i - 1);
      EveryEventCounts(states[i - 1], events[i - 1]);
    }
  }

  /** Over every run an invocation at work, or leaving with requests in flight, late ones included, has recorded no more requests than its limit; while it works the entries it found are as they were; and none starts on a journal that has reached the ceiling. */
  lemma InvocationsStayWithinTheirLimit(states: seq<System>, events: seq<Event>, i: nat, p: Pid)
    requires IsRun(states, events) && i < |states| && p in states[i].procs
    ensures var proc := states[i].procs[p];
            && (proc.Running? || proc.Publishing? ==>
                  && |proc.memory.requests| <= |proc.job.journal.requests| + proc.job.limit
                  && proc.job.journal.requests <= proc.memory.requests)
            && (FlightOf(proc).Some? ==> var f := FlightOf(proc).value; |f.memory.requests| <= f.from + f.limit)
            && (proc.Ready? || proc.Locked? || proc.Running? ==> |proc.job.journal.requests| < proc.job.journal.terms.ceiling)
  {
    CountedOverARun(states, events, i);
    assert SpendOk(states[i].procs[p]);
    hide IsRun;
  }

  /** A late answer, reply or request of an invocation leaves the entries it found as they were. */
  lemma LateSavesKeepEarlierEntries(states: seq<System>, events: seq<Event>, i: nat)
    requires IsRun(states, events) && i < |events| && events[i].Late?
    ensures var e, s, t := events[i], states[i], states[i + 1];
            && e.p in s.procs && FlightOf(s.procs[e.p]).Some?
            && var f := FlightOf(s.procs[e.p]).value;
               f.from <= |f.memory.requests| && t.disk.journal.Some? && f.memory.requests[..f.from] <= t.disk.journal.value.requests
  {
    CountedOverARun(states, events, i);
    StepOfRun(states, events, i);
    var e, s := events[i], states[i];
    hide IsRun, Tailed, TailCan, Buys;
    LateEffect(s, e);
    assert SpendOk(s.procs[e.p]);
    TailCounts(FlightOf(s.procs[e.p]).value, e.tail);
  }

  /** A report that ends a phase is published with the number of requests the journal on disk records. */
  lemma PublishedCountIsTheJournals(s: System, e: Event)
    requires AllCount(s) && JournalInv(s) && e.Publish? && After(s, e).Some? && s.procs[e.p].link.Advanced?
    ensures var t := After(s, e).value;
            t.disk.report.Whole? && t.disk.journal.Some? && t.disk.report.report.purchased == |t.disk.journal.value.requests|
  {
    assert SpendOk(s.procs[e.p]) && BooksOk(s, s.procs[e.p]);
    hide JournalInv, AllCount, BooksOk, Within;
  }

  // How a journal begins.

  /** Before there is a journal on disk nobody has anything to write but an empty one. */
  predicate Blank(proc: Proc) {
    match proc
    case Ready(job) => job.journal.requests == [] && job.journal.writes == map[]
    case Locked(job) => job.journal.requests == [] && job.journal.writes == map[]
    case Running(job, memory, spent, due, begun) => memory.requests == [] && memory.writes == map[] && due == Save(None) && !begun
    case Publishing(job, memory, spent, next, link) => false
    case Leaving(flight) => flight.None?
    case Lingering(flying) => false
    case _ => true
  }

  ghost predicate NothingYet(s: System) {
    s.disk.journal.None? ==> forall p :: p in s.procs ==> Blank(s.procs[p])
  }

  lemma EventKeepsBlank(s: System, e: Event)
    requires NothingYet(s) && After(s, e).Some? && After(s, e).value.disk.journal.None?
    ensures s.disk.journal.None?
    ensures e.p in After(s, e).value.procs ==> Blank(After(s, e).value.procs[e.p])
  {
    assert s.disk.journal.None? && e.p in s.procs ==> Blank(s.procs[e.p]);
    hide NothingYet, TailCan, Tailed, Unchanged, Planned, Fits, Advance, Base, Buys, PhaseIsOpen;
  }

  lemma EventKeepsNothingYet(s: System, e: Event)
    requires NothingYet(s) && After(s, e).Some?
    ensures NothingYet(After(s, e).value)
  {
    HoldingAfter(s, e);
    if After(s, e).value.disk.journal.None? {
      EventKeepsBlank(s, e);
    }
    hide After, Blank, Holds;
  }

  lemma {:induction false} NothingYetOverARun(states: seq<System>, events: seq<Event>, i: nat)
    requires IsRun(states, events) && i < |states|
    ensures NothingYet(states[i])
  {
    if i > 0 {
      StepOfRun(states, events, i - 1);
      NothingYetOverARun(states, events, i - 1);
      hide IsRun, Initial, After, NothingYet;
      EventKeepsNothingYet(states[i - 1], events[i - 1]);
    } else {
      hide After, Blank;
    }
  }

  /** Over every run the first journal that is written is empty: every entry in it later was recorded by an invocation. */
  lemma TheFirstJournalIsEmpty(states: seq<System>, events: seq<Event>, i: nat)
    requires IsRun(states, events) && i < |events| && states[i].disk.journal.None? && states[i + 1].disk.journal.Some?
    ensures states[i + 1].disk.journal.value.requests == [] && states[i + 1].disk.journal.value.writes == map[]
  {
    NothingYetOverARun(states, events, i);
    StepOfRun(states, events, i);
    var e, s := events[i], states[i];
    assert e.p in s.procs ==> Blank(s.procs[e.p]);
    hide IsRun, NothingYet, TailCan, Tailed, Unchanged, Plannable, Planned, Fits, Advance, Base, Buys;
  }

  // The lock.

  /** The lock is held by an invocation on its way to its unlock, or was left by one that crashed. */
  ghost predicate LockBelongs(s: System) {
    s.disk.lock.Some? ==> s.disk.lock.value in s.procs && (Holds(s.procs[s.disk.lock.value]) || s.procs[s.disk.lock.value].Crashed?)
  }

  /** Who held the lock before an event and is not at its unlock holds it still, or has crashed. */
  lemma HoldersHoldOn(s: System, e: Event)
    requires After(s, e).Some? && e.p in s.procs && (Holds(s.procs[e.p]) || s.procs[e.p].Crashed?) && !e.Unlock?
    ensures var t := After(s, e).value; e.p in t.procs && (Holds(t.procs[e.p]) || t.procs[e.p].Crashed?)
  {
    hide Unchanged, Plannable, Planned, Fits, Advance, Base, TailCan, Tailed, Left, Buys;
  }

  lemma UnlockFrees(s: System, e: Event)
    requires After(s, e).Some? && e.Unlock?
    ensures After(s, e).value.disk.lock.None?
  {
  }

  lemma EventKeepsLock(s: System, e: Event)
    requires LockOk(s) && LockBelongs(s) && After(s, e).Some?
    ensures LockBelongs(After(s, e).value)
  {
    HoldingAfter(s, e);
    if e.Unlock? {
      UnlockFrees(s, e);
    } else if e.p in s.procs && (Holds(s.procs[e.p]) || s.procs[e.p].Crashed?) {
      HoldersHoldOn(s, e);
    } else {
      OutsidersTakeTheLock(s, e);
    }
    hide After, Holds, LockOk;
  }

  lemma OutsidersTakeTheLock(s: System, e: Event)
    requires After(s, e).Some? && !(e.p in s.procs && (Holds(s.procs[e.p]) || s.procs[e.p].Crashed?))
    ensures var t := After(s, e).value;
            && (t.disk.lock == s.disk.lock || (t.disk.lock == Some(e.p) && e.p in t.procs && Holds(t.procs[e.p])))
            && forall q :: q in s.procs && q != e.p ==> q in t.procs && t.procs[q] == s.procs[q]
  {
    hide Unchanged, Plannable, Planned, Fits, Advance, Base, TailCan, Tailed, Left, Buys;
  }

  /** Over every run the lock lies there only for an invocation that will still release it, or for one that crashed: a throw gives it back. */
  lemma {:induction false} OnlyACrashLeavesTheLock(states: seq<System>, events: seq<Event>, i: nat)
    requires IsRun(states, events) && i < |states|
    ensures LockBelongs(states[i])
  {
    hide After;
    if i > 0 {
      StepOfRun(states, events, i - 1);
      OnlyACrashLeavesTheLock(states, events, i - 1);
      LockOverARun(states, events, i - 1);
      hide IsRun, Initial, LockBelongs, LockOk;
      EventKeepsLock(states[i - 1], events[i - 1]);
    }
  }
}
