/** The purchase journal of the live tier: what every save keeps, and exactly which late saves keep it too. */
module PolicyJournal {
  import opened Options
  import opened Campaign
  import opened PolicyProtocol

  /** One journal continues another: nothing is removed, a waiting entry may be settled, a remembered reply never changes. */
  predicate Continued(a: Journal, b: Journal) {
    && a.terms == b.terms
    && |a.requests| <= |b.requests|
    && (forall i :: 0 <= i < |a.requests| ==>
          b.requests[i].call == a.requests[i].call && (a.requests[i].status.Waiting? || b.requests[i].status == a.requests[i].status))
    && (forall k :: k in a.writes ==> k in b.writes && b.writes[k] == a.writes[k])
  }

  lemma ContinuedByItself(j: Journal)
    ensures Continued(j, j)
  {
  }

  lemma ContinuedTransitive(a: Journal, b: Journal, c: Journal)
    requires Continued(a, b) && Continued(b, c)
    ensures Continued(a, c)
  {
  }

  /** The journal on disk, if there is one, is continued. */
  predicate Grows(s: System, t: System) {
    s.disk.journal.Some? ==> t.disk.journal.Some? && Continued(s.disk.journal.value, t.disk.journal.value)
  }

  lemma SameJournalGrows(s: System, t: System)
    requires t.disk.journal == s.disk.journal
    ensures Grows(s, t)
  {
    if s.disk.journal.Some? {
      ContinuedByItself(s.disk.journal.value);
    }
  }

  /** Every dispatched request has its entry on disk, and the journal is within its ceiling. */
  predicate JournalOk(s: System) {
    && (s.disk.journal.None? ==> s.sent == map[])
    && (s.disk.journal.Some? ==>
          && |s.disk.journal.value.requests| <= s.disk.journal.value.terms.ceiling
          && forall i :: i in s.sent ==> i < |s.disk.journal.value.requests| && s.disk.journal.value.requests[i].call == s.sent[i])
  }

  predicate Within(j: Journal) {
    |j.requests| <= j.terms.ceiling
  }

  /** Where a process stands between its memory and the disk. */
  predicate DueOk(s: System, memory: Journal, due: Due) {
    match due
    case Nothing => s.disk.journal == Some(memory)
    case Send(at) => s.disk.journal == Some(memory) && at == |memory.requests| - 1 && at !in s.sent
    case Save(send) =>
      && (s.disk.journal.Some? ==> Continued(s.disk.journal.value, memory))
      && (send.Some? ==> send.value == |memory.requests| - 1 && send.value !in s.sent)
  }

  /** What a process knows of the journal. */
  predicate BooksOk(s: System, proc: Proc) {
    match proc
    case Ready(job) => Within(job.journal)
    case Locked(job) => Within(job.journal)
    case Running(job, memory, spent, due, begun) => Within(memory) && DueOk(s, memory, due)
    case Publishing(job, memory, spent, next, link) => Within(memory) && s.disk.journal == Some(memory)
    case Leaving(flight) => flight.Some? ==> Within(flight.value.memory) && s.disk.journal == Some(flight.value.memory)
    case Lingering(flying) => Within(flying.memory) && s.disk.journal.Some? && Continued(flying.memory, s.disk.journal.value)
    case _ => true
  }

  predicate JournalInv(s: System) {
    LockOk(s) && JournalOk(s) && forall p :: p in s.procs ==> BooksOk(s, s.procs[p])
  }

  lemma InitialIsInv(s: System)
    requires Initial(s)
    ensures JournalInv(s)
  {
  }

  // What a tail does to a memory.

  lemma TailContinues(f: Flight, tail: Tail)
    requires TailCan(f, tail)
    ensures Continued(f.memory, Tailed(f, tail).memory)
    ensures Within(f.memory) ==> Within(Tailed(f, tail).memory)
    ensures Buys(f, tail).Some? ==> Buys(f, tail) == Some(|f.memory.requests|) && Tailed(f, tail).memory == Recorded(f.memory, tail.call)
  {
  }

  /** Between a journal and what a tail makes of it there is nothing else. */
  lemma NothingBetween(f: Flight, tail: Tail, b: Journal)
    requires TailCan(f, tail) && Continued(f.memory, b) && Continued(b, Tailed(f, tail).memory)
    ensures b == f.memory || b == Tailed(f, tail).memory
  {
    match tail
    case Settles(at, status) =>
      SettlesInPlace(f.memory, at, status, b);
    case Remembers(key, digest) =>
      assert b.requests == f.memory.requests;
      if key in b.writes {
        assert b.writes == f.memory.writes[key := digest];
      } else {
        assert b.writes == f.memory.writes;
      }
    case Records(call, dispatched) =>
      RecordsOne(f.memory, call, b);
  }

  lemma SettlesInPlace(a: Journal, at: nat, status: Status, b: Journal)
    requires at < |a.requests| && a.requests[at].status.Waiting? && !status.Waiting?
    requires Continued(a, b) && Continued(b, SettledAt(a, at, status))
    ensures b == a || b == SettledAt(a, at, status)
  {
    assert b.writes == a.writes;
    if b.requests[at].status.Waiting? {
      assert b.requests == a.requests;
    } else {
      assert b.requests == SettledAt(a, at, status).requests;
    }
  }

  lemma RecordsOne(a: Journal, call: Call, b: Journal)
    requires Continued(a, b) && Continued(b, Recorded(a, call))
    ensures b == a || b == Recorded(a, call)
  {
    var c := Recorded(a, call);
    assert b.writes == a.writes;
    forall i | 0 <= i < |b.requests|
      ensures b.requests[i] == c.requests[i]
    {
    }
    if |b.requests| == |a.requests| {
      assert b.requests == a.requests;
    } else {
      assert b.requests == c.requests;
    }
  }

  // Every event keeps the invariant.

  predicate SameJournal(s: System, t: System) {
    t.disk.journal == s.disk.journal && t.sent == s.sent
  }

  lemma SameJournalKeeps(s: System, t: System, proc: Proc)
    requires SameJournal(s, t) && BooksOk(s, proc)
    ensures BooksOk(t, proc)
  {
    hide Within, Continued;
  }

  /** An event that leaves the journal alone: only its own process needs a look. */
  lemma QuietStep(s: System, e: Event, t: System)
    requires JournalInv(s) && After(s, e) == Some(t) && SameJournal(s, t)
    requires e.p in t.procs ==> BooksOk(t, t.procs[e.p])
    ensures JournalInv(t)
  {
    LockStaysOk(s, e);
    HoldingAfter(s, e);
    assert JournalOk(t);
    hide After, LockOk, JournalOk, BooksOk, SameJournal;
    forall q | q in t.procs
      ensures BooksOk(t, t.procs[q])
    {
      if q != e.p {
        SameJournalKeeps(s, t, s.procs[q]);
      }
    }
  }

  /** A process that holds nothing looks at no more of the disk than a journal that continues its own. */
  lemma OutsiderStaysOk(s: System, t: System, proc: Proc)
    requires !Holds(proc) && BooksOk(s, proc) && Grows(s, t)
    ensures BooksOk(t, proc)
  {
    if proc.Lingering? {
      ContinuedTransitive(proc.flying.memory, s.disk.journal.value, t.disk.journal.value);
    }
    hide Within, Continued;
  }

  /** An event of the holder: everyone else is an outsider. */
  lemma HolderStep(s: System, e: Event, t: System)
    requires JournalInv(s) && After(s, e) == Some(t) && e.p in s.procs && Holds(s.procs[e.p])
    requires JournalOk(t) && Grows(s, t) && e.p in t.procs && BooksOk(t, t.procs[e.p])
    ensures JournalInv(t)
  {
    LockStaysOk(s, e);
    HoldingAfter(s, e);
    hide After, JournalOk, BooksOk, Grows;
    forall q | q in t.procs
      ensures BooksOk(t, t.procs[q])
    {
      if q != e.p {
        if Holds(s.procs[q]) {
          HoldersAreOne(s, e.p, q);
        }
        OutsiderStaysOk(s, t, s.procs[q]);
      }
    }
  }

  /** Reading, planning, locking and rechecking. */
  lemma PlanningKeepsInv(s: System, e: Event)
    requires JournalInv(s) && (e.Read? || e.Plan? || e.Lock? || e.Verify?) && After(s, e).Some?
    ensures JournalInv(After(s, e).value)
  {
    var t := After(s, e).value;
    assert e.p in s.procs ==> BooksOk(s, s.procs[e.p]);
    if e.Verify? {
      ContinuedByItself(s.procs[e.p].job.journal);
    }
    assert SameJournal(s, t) && BooksOk(t, t.procs[e.p]) by {
      hide PhaseIsOpen, Planned, Continued;
    }
    hide JournalInv, After, BooksOk, SameJournal;
    QuietStep(s, e, t);
  }

  /** Recording, settling and remembering change one process's memory by a step its next save will carry. */
  lemma MemoryKeepsInv(s: System, e: Event)
    requires JournalInv(s) && (e.Record? || e.Settled? || e.Remember?) && After(s, e).Some?
    ensures JournalInv(After(s, e).value)
  {
    var t := After(s, e).value;
    assert BooksOk(s, s.procs[e.p]);
    assert SameJournal(s, t) && BooksOk(t, t.procs[e.p]);
    hide JournalInv, After, BooksOk, SameJournal;
    QuietStep(s, e, t);
  }

  /** Publishing rests on the journal and does not touch it; leaving and crashing do not either. */
  lemma ReportingKeepsInv(s: System, e: Event)
    requires JournalInv(s) && (e.Approve? || e.Finish? || e.Publish? || e.Throw? || e.Crash? || e.ClearLock?) && After(s, e).Some?
    ensures JournalInv(After(s, e).value)
  {
    var t := After(s, e).value;
    assert e.p in s.procs && BooksOk(s, s.procs[e.p]);
    assert SameJournal(s, t) && BooksOk(t, t.procs[e.p]) by {
      hide Base, Planned, Fits, Advance, Within, Continued;
    }
    hide JournalInv, After, BooksOk, SameJournal;
    QuietStep(s, e, t);
  }

  lemma UnlockKeepsInv(s: System, e: Event)
    requires JournalInv(s) && e.Unlock? && After(s, e).Some?
    ensures JournalInv(After(s, e).value)
  {
    var t := After(s, e).value;
    assert BooksOk(s, s.procs[e.p]);
    assert SameJournal(s, t) && BooksOk(t, t.procs[e.p]);
    hide JournalInv, After, BooksOk, SameJournal;
    QuietStep(s, e, t);
  }

  /** A journal that continues the one on disk still has every dispatched request. */
  lemma ContinuationIsOk(s: System, t: System)
    requires JournalOk(s) && Grows(s, t) && t.disk.journal.Some? && Within(t.disk.journal.value) && t.sent == s.sent
    ensures JournalOk(t)
  {
  }

  lemma SaveKeepsInv(s: System, e: Event)
    requires JournalInv(s) && e.SaveJournal? && After(s, e).Some?
    ensures JournalInv(After(s, e).value)
  {
    var t, proc := After(s, e).value, s.procs[e.p];
    assert BooksOk(s, proc);
    ContinuationIsOk(s, t);
    assert BooksOk(t, t.procs[e.p]) by {
      hide Continued;
    }
    hide JournalInv, After, BooksOk, JournalOk, Continued, Within;
    HolderStep(s, e, t);
  }

  /** A request goes out under an entry that is on disk and was not dispatched yet. */
  lemma DispatchKeepsInv(s: System, e: Event)
    requires JournalInv(s) && e.Dispatch? && After(s, e).Some?
    ensures JournalInv(After(s, e).value) && s.procs[e.p].due.at !in s.sent
  {
    var t, proc := After(s, e).value, s.procs[e.p];
    assert BooksOk(s, proc);
    SameJournalGrows(s, t);
    assert JournalOk(t) by {
      hide Continued;
    }
    hide JournalInv, After, JournalOk, Grows, Continued;
    HolderStep(s, e, t);
  }

  /** A late save is one of the flight's memory, a step further, with the request it dispatches. */
  lemma LateEffect(s: System, e: Event)
    requires e.Late? && After(s, e).Some?
    ensures e.p in s.procs && FlightOf(s.procs[e.p]).Some? && TailCan(FlightOf(s.procs[e.p]).value, e.tail)
    ensures var proc, t := s.procs[e.p], After(s, e).value;
            var f := FlightOf(proc).value;
            && t.disk == s.disk.(journal := Some(Tailed(f, e.tail).memory))
            && t.sent == (if Buys(f, e.tail).Some? then s.sent[Buys(f, e.tail).value := e.tail.call] else s.sent)
            && t.procs == s.procs[e.p := if proc.Leaving? then Leaving(Some(Tailed(f, e.tail))) else Lingering(Tailed(f, e.tail))]
            && t.published == s.published && t.links == s.links
  {
    hide TailCan, Tailed, Buys;
  }

  /** A save that grows the journal, with a new request dispatched under its entry. */
  lemma LateSaveIsOk(s: System, t: System, f: Flight, tail: Tail)
    requires JournalOk(s) && TailCan(f, tail) && s.disk.journal.Some? && Within(f.memory)
    requires Continued(s.disk.journal.value, Tailed(f, tail).memory)
    requires t.disk == s.disk.(journal := Some(Tailed(f, tail).memory))
    requires t.sent == if Buys(f, tail).Some? then s.sent[Buys(f, tail).value := tail.call] else s.sent
    ensures JournalOk(t) && Grows(s, t)
  {
    TailContinues(f, tail);
    var mid := t.(sent := s.sent);
    ContinuationIsOk(s, mid);
  }

  /** An invocation that leaves and still holds the lock saves what it left, a step further. */
  lemma LateKeepsInv(s: System, e: Event)
    requires JournalInv(s) && e.Late? && !Stray(s, e) && After(s, e).Some?
    ensures JournalInv(After(s, e).value)
    ensures var f := FlightOf(s.procs[e.p]).value; Buys(f, e.tail).Some? ==> Buys(f, e.tail).value !in s.sent
  {
    LateEffect(s, e);
    var t, proc := After(s, e).value, s.procs[e.p];
    var f := FlightOf(proc).value;
    assert BooksOk(s, proc);
    TailContinues(f, e.tail);
    LateSaveIsOk(s, t, f, e.tail);
    assert BooksOk(t, t.procs[e.p]);
    hide JournalInv, After, BooksOk, Continued, Grows, TailCan, Tailed, Within;
    HolderStep(s, e, t);
  }

  // A save after the unlock.

  /** What a save of an invocation that unlocked may do to a process: nothing, or what its next save will carry anyway. */
  predicate Undisturbed(proc: Proc, was: Journal, saved: Journal, bought: Option<nat>) {
    match proc
    case Running(job, memory, spent, due, begun) =>
      (match due
       case Nothing => saved == was
       case Send(at) => saved == was && bought != Some(at)
       case Save(send) => Continued(saved, memory) && (send.Some? ==> bought != send))
    case Publishing(job, memory, spent, next, link) => saved == was
    case Leaving(flight) => flight.Some? ==> saved == was
    case _ => true
  }

  /** A stray save finds what its invocation left, or what it is about to write; its purchase is new; and it disturbs nobody at work. */
  predicate Undisturbing(s: System, e: Event)
    requires Stray(s, e) && TailCan(s.procs[e.p].flying, e.tail)
  {
    var f := s.procs[e.p].flying;
    var saved, bought := Tailed(f, e.tail).memory, Buys(f, e.tail);
    && s.disk.journal.Some?
    && (s.disk.journal.value == f.memory || s.disk.journal.value == saved)
    && (bought.Some? ==> bought.value !in s.sent)
    && forall q :: q in s.procs ==> Undisturbed(s.procs[q], s.disk.journal.value, saved, bought)
  }

  /** One process, before and after a stray save that grows the journal. */
  lemma UndisturbedIff(s: System, t: System, proc: Proc, bought: Option<nat>)
    requires BooksOk(s, proc) && s.disk.journal.Some? && t.disk.journal.Some? && Grows(s, t)
    requires t.sent.Keys == s.sent.Keys + (if bought.Some? then {bought.value} else {})
    ensures BooksOk(t, proc) <==> Undisturbed(proc, s.disk.journal.value, t.disk.journal.value, bought)
  {
    if proc.Lingering? {
      ContinuedTransitive(proc.flying.memory, s.disk.journal.value, t.disk.journal.value);
    }
    hide Within, Continued;
  }

  /** A stray save extends the journal, buys something new and keeps the invariant exactly when it is undisturbing. */
  lemma StraySaveIsSafeIff(s: System, e: Event)
    requires JournalInv(s) && Stray(s, e) && After(s, e).Some?
    ensures TailCan(s.procs[e.p].flying, e.tail)
    ensures var t, bought := After(s, e).value, Buys(s.procs[e.p].flying, e.tail);
            JournalInv(t) && Grows(s, t) && (bought.Some? ==> bought.value !in s.sent) <==> Undisturbing(s, e)
  {
    LateEffect(s, e);
    var t, f := After(s, e).value, s.procs[e.p].flying;
    assert BooksOk(s, s.procs[e.p]);
    LockStaysOk(s, e);
    TailContinues(f, e.tail);
    ContinuedByItself(Tailed(f, e.tail).memory);
    assert Grows(s, t) <==> Continued(s.disk.journal.value, Tailed(f, e.tail).memory);
    if Grows(s, t) {
      NothingBetween(f, e.tail, s.disk.journal.value);
      LateSaveIsOk(s, t, f, e.tail);
      assert BooksOk(t, t.procs[e.p]);
      StrayKeepsOthersIff(s, e, t);
    }
  }

  /** Everyone's books stay right exactly when nobody is disturbed. */
  lemma StrayKeepsOthersIff(s: System, e: Event, t: System)
    requires JournalInv(s) && Stray(s, e) && After(s, e) == Some(t) && Grows(s, t) && s.disk.journal.Some? && t.disk.journal.Some?
    requires TailCan(s.procs[e.p].flying, e.tail) && e.p in t.procs && BooksOk(t, t.procs[e.p])
    ensures (forall q :: q in t.procs ==> BooksOk(t, t.procs[q])) <==>
            (forall q :: q in s.procs ==> Undisturbed(s.procs[q], s.disk.journal.value, t.disk.journal.value, Buys(s.procs[e.p].flying, e.tail)))
  {
    LateEffect(s, e);
    var bought := Buys(s.procs[e.p].flying, e.tail);
    forall q | q in s.procs && q != e.p
      ensures q in t.procs && (BooksOk(t, t.procs[q]) <==> Undisturbed(s.procs[q], s.disk.journal.value, t.disk.journal.value, bought))
    {
      UndisturbedIff(s, t, s.procs[q], bought);
    }
    assert Undisturbed(s.procs[e.p], s.disk.journal.value, t.disk.journal.value, bought);
    hide After, BooksOk, Undisturbed, TailCan, Tailed, Buys, Grows;
  }

  /** An event that is no stray save, or one that disturbs nobody. */
  predicate Quiet(s: System, e: Event) {
    Stray(s, e) ==> TailCan(s.procs[e.p].flying, e.tail) && Undisturbing(s, e)
  }

  /** Whatever happens in whatever order, the invariant stays, as long as the saves after an unlock disturb nobody. */
  lemma EveryEventKeepsJournal(s: System, e: Event)
    requires JournalInv(s) && After(s, e).Some? && Quiet(s, e)
    ensures JournalInv(After(s, e).value)
  {
    if Stray(s, e) {
      StraySaveIsSafeIff(s, e);
    }
    hide JournalInv, After, Stray;
    if e.Read? || e.Plan? || e.Lock? || e.Verify? {
      PlanningKeepsInv(s, e);
    } else if e.Record? || e.Settled? || e.Remember? {
      MemoryKeepsInv(s, e);
    } else if e.SaveJournal? {
      SaveKeepsInv(s, e);
    } else if e.Dispatch? {
      DispatchKeepsInv(s, e);
    } else if e.Unlock? {
      UnlockKeepsInv(s, e);
    } else if e.Late? {
      if !Stray(s, e) {
        LateKeepsInv(s, e);
      }
    } else {
      ReportingKeepsInv(s, e);
    }
  }

  /** No event takes anything away from the journal on disk. */
  lemma JournalIsOnlyExtended(s: System, e: Event)
    requires JournalInv(s) && After(s, e).Some? && Quiet(s, e)
    ensures Grows(s, After(s, e).value)
  {
    var t := After(s, e).value;
    if e.Late? {
      LateEffect(s, e);
      assert BooksOk(s, s.procs[e.p]);
      if Stray(s, e) {
        StraySaveIsSafeIff(s, e);
      } else {
        TailContinues(FlightOf(s.procs[e.p]).value, e.tail);
      }
    } else if e.SaveJournal? {
      assert BooksOk(s, s.procs[e.p]);
    } else {
      OnlySavesWrite(s, e);
      SameJournalGrows(s, t);
    }
  }

  lemma OnlySavesWrite(s: System, e: Event)
    requires After(s, e).Some? && !e.Late? && !e.SaveJournal?
    ensures After(s, e).value.disk.journal == s.disk.journal
  {
    hide Unchanged, Plannable, Planned, Fits, Advance, Base, SettledAt, Left;
  }

  // Runs.

  /** A run whose saves after an unlock disturb nobody. */
  ghost predicate IsQuietRun(states: seq<System>, events: seq<Event>) {
    IsRun(states, events) && forall i :: 0 <= i < |events| ==> Quiet(states[i], events[i])
  }

  lemma {:induction false} JournalOverARun(states: seq<System>, events: seq<Event>, i: nat)
    requires IsQuietRun(states, events) && i < |states|
    ensures JournalInv(states[i])
  {
    hide JournalInv, After, Initial, Quiet;
    if i == 0 {
      InitialIsInv(states[0]);
    } else {
      StepOfRun(states, events, i - 1);
      JournalOverARun(states, events, i - 1);
      EveryEventKeepsJournal(states[i - 1], events[i - 1]);
    }
  }

  /** Over such a run, any later journal on disk continues any earlier one. */
  lemma {:induction false} JournalGrowsOverARun(states: seq<System>, events: seq<Event>, i: nat, j: nat)
    requires IsQuietRun(states, events) && i <= j < |states| && states[i].disk.journal.Some?
    ensures states[j].disk.journal.Some? && Continued(states[i].disk.journal.value, states[j].disk.journal.value)
  {
    hide JournalInv, After, Initial, Continued, Quiet;
    if i == j {
      ContinuedByItself(states[i].disk.journal.value);
    } else {
      JournalGrowsOverARun(states, events, i, j - 1);
      StepOfRun(states, events, j - 1);
      JournalOverARun(states, events, j - 1);
      JournalIsOnlyExtended(states[j - 1], events[j - 1]);
      ContinuedTransitive(states[i].disk.journal.value, states[j - 1].disk.journal.value, states[j].disk.journal.value);
    }
  }

  /** Over all processes and crashes, dispatched requests are recorded each under its own entry, and never exceed the ceiling. */
  lemma PurchasesStayBelowTheCeiling(states: seq<System>, events: seq<Event>, i: nat)
    requires IsQuietRun(states, events) && i < |states| && states[i].sent != map[]
    ensures var j := states[i].disk.journal;
            && j.Some?
            && (forall k :: k in states[i].sent ==> k < |j.value.requests| && j.value.requests[k].call == states[i].sent[k])
            && |states[i].sent| <= |j.value.requests| <= j.value.terms.ceiling
  {
    JournalOverARun(states, events, i);
    hide BooksOk, LockOk, IsQuietRun, Initial;
    KeysBelow(states[i].sent.Keys, |states[i].disk.journal.value.requests|);
  }

  lemma {:induction false} KeysBelow(keys: set<nat>, n: nat)
    requires forall k :: k in keys ==> k < n
    ensures |keys| <= n
  {
    if n == 0 {
      assert keys == {};
    } else {
      KeysBelow(keys - {n - 1}, n - 1);
      assert keys <= (keys - {n - 1}) + {n - 1};
      if n - 1 in keys {
        assert keys == (keys - {n - 1}) + {n - 1};
      } else {
        assert keys == keys - {n - 1};
      }
    }
  }

  /** The entry an event dispatches a request under. */
  function Dispatched(s: System, e: Event): Option<nat>
    requires e.p in s.procs
  {
    var proc := s.procs[e.p];
    if e.Dispatch? && proc.Running? && proc.due.Send? then Some(proc.due.at)
    else if e.Late? && FlightOf(proc).Some? then Buys(FlightOf(proc).value, e.tail)
    else None
  }

  lemma LateBuysOnce(s: System, e: Event)
    requires JournalInv(s) && After(s, e).Some? && Quiet(s, e) && e.Late?
    ensures e.p in s.procs && FlightOf(s.procs[e.p]).Some?
    ensures var bought := Buys(FlightOf(s.procs[e.p]).value, e.tail); bought.Some? ==> bought.value !in s.sent
  {
    LateEffect(s, e);
    if Stray(s, e) {
      StraySaveIsSafeIff(s, e);
    } else {
      LateKeepsInv(s, e);
    }
  }

  /** No entry is dispatched twice, and whatever is dispatched is dispatched under its entry on disk. */
  lemma NothingIsBoughtTwice(s: System, e: Event)
    requires JournalInv(s) && After(s, e).Some? && Quiet(s, e) && e.p in s.procs
    ensures var t, at := After(s, e).value, Dispatched(s, e);
            && (at.None? ==> t.sent == s.sent)
            && (at.Some? ==> at.value !in s.sent && t.disk.journal.Some? && at.value < |t.disk.journal.value.requests|
                             && t.sent == s.sent[at.value := t.disk.journal.value.requests[at.value].call])
  {
    if e.Dispatch? {
      assert BooksOk(s, s.procs[e.p]);
      hide JournalInv, Continued, Quiet;
    } else if e.Late? {
      LateBuysOnce(s, e);
      LateEffect(s, e);
      TailContinues(FlightOf(s.procs[e.p]).value, e.tail);
      hide JournalInv, After, Quiet, Continued, TailCan, Tailed, Buys;
    } else {
      OnlyDispatchesSend(s, e);
      hide After;
    }
  }

  lemma OnlyDispatchesSend(s: System, e: Event)
    requires After(s, e).Some? && !e.Dispatch? && !e.Late?
    ensures After(s, e).value.sent == s.sent
  {
    hide Unchanged, Plannable, Planned, Fits, Advance, Base, SettledAt, Left;
  }
}
