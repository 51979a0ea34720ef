/** What a save after the unlock can do: exactly when it leads to harm, and runs in which it does. */
module PolicyStrays {
  import opened Options
  import opened Campaign
  import opened PolicyProtocol
  import opened PolicyReports
  import opened PolicyJournal

  /** An event that takes something away from the journal on disk, or dispatches under an entry that was dispatched. */
  predicate Harms(s: System, e: Event) {
    && After(s, e).Some?
    && (!Grows(s, After(s, e).value)
        || (e.p in s.procs && Dispatched(s, e).Some? && Dispatched(s, e).value in s.sent))
  }

  /** Some event of the sequence, up to the first that cannot happen, harms. */
  predicate Spoils(s: System, events: seq<Event>)
    decreases |events|
  {
    events != [] && After(s, events[0]).Some? && (Harms(s, events[0]) || Spoils(After(s, events[0]).value, events[1..]))
  }

  predicate AllQuiet(s: System, events: seq<Event>)
    decreases |events|
  {
    events != [] && After(s, events[0]).Some? ==> Quiet(s, events[0]) && AllQuiet(After(s, events[0]).value, events[1..])
  }

  /** Harm may follow though no further save after an unlock disturbs anyone. */
  ghost predicate Spoilt(s: System) {
    exists events :: AllQuiet(s, events) && Spoils(s, events)
  }

  lemma QuietEventsDoNotHarm(s: System, e: Event)
    requires JournalInv(s) && After(s, e).Some? && Quiet(s, e)
    ensures !Harms(s, e) && JournalInv(After(s, e).value)
  {
    EveryEventKeepsJournal(s, e);
    JournalIsOnlyExtended(s, e);
    if e.p in s.procs {
      NothingIsBoughtTwice(s, e);
    }
    hide JournalInv, After, Quiet, Dispatched, Grows;
  }

  lemma {:induction false} QuietNeverSpoils(s: System, events: seq<Event>)
    requires JournalInv(s) && AllQuiet(s, events)
    ensures !Spoils(s, events)
    decreases |events|
  {
    hide JournalInv, After, Quiet, Harms;
    if events != [] && After(s, events[0]).Some? {
      QuietEventsDoNotHarm(s, events[0]);
      QuietNeverSpoils(After(s, events[0]).value, events[1..]);
    }
  }

  lemma InvIsNotSpoilt(s: System)
    requires JournalInv(s)
    ensures !Spoilt(s)
  {
    hide JournalInv, AllQuiet, Spoils;
    forall events | AllQuiet(s, events)
      ensures !Spoils(s, events)
    {
      QuietNeverSpoils(s, events);
    }
  }

  /** An event that harms, or leads to where harm may follow. */
  lemma SpoiltBefore(s: System, e: Event, t: System)
    requires After(s, e) == Some(t) && !Stray(s, e) && (Harms(s, e) || Spoilt(t))
    ensures Spoilt(s)
  {
    hide After, Stray, Harms;
    assert Quiet(s, e);
    hide Quiet;
    if Harms(s, e) {
      assert AllQuiet(t, []);
      assert [e][1..] == [];
      assert AllQuiet(s, [e]) && Spoils(s, [e]);
    } else {
      var rest :| AllQuiet(t, rest) && Spoils(t, rest);
      assert ([e] + rest)[1..] == rest;
      assert AllQuiet(s, [e] + rest) && Spoils(s, [e] + rest);
    }
  }

  // A process at work whose memory the disk has left behind.

  /** The disk holds more than this memory. */
  predicate Behind(s: System, memory: Journal) {
    s.disk.journal.Some? && s.disk.journal.value != memory && Continued(memory, s.disk.journal.value)
  }

  lemma {:induction false} LongerThanAll(keys: set<string>) returns (n: nat)
    ensures forall k :: k in keys ==> |k| < n
  {
    n := 0;
    if keys != {} {
      var k :| k in keys;
      n := LongerThanAll(keys - {k});
      n := if n > |k| then n else |k| + 1;
    }
  }

  lemma FreshKey(j: Journal) returns (key: string)
    ensures key !in j.writes
  {
    var n := LongerThanAll(j.writes.Keys);
    key := seq(n, i => 'x');
  }

  /** A memory that the disk left behind, with one more reply remembered, does not continue what is on disk. */
  lemma RememberingTakesAway(f: Flight, d: Journal, key: string)
    requires Continued(f.memory, d) && d != f.memory && key !in d.writes
    ensures key !in f.memory.writes && !Continued(d, Tailed(f, Remembers(key, "")).memory)
  {
    if Continued(d, Tailed(f, Remembers(key, "")).memory) {
      NothingBetween(f, Remembers(key, ""), d);
    }
  }

  lemma LeavingSpoils(s: System, q: Pid)
    requires q in s.procs && s.procs[q].Leaving? && s.procs[q].flight.Some? && Behind(s, s.procs[q].flight.value.memory)
    ensures Spoilt(s)
  {
    var f, d := s.procs[q].flight.value, s.disk.journal.value;
    var key := FreshKey(d);
    RememberingTakesAway(f, d, key);
    var e := Late(q, Remembers(key, ""));
    LateEffect(s, e);
    assert Harms(s, e) by {
      hide Continued, Tailed, Dispatched;
    }
    hide After, Spoilt, Harms, Continued;
    SpoiltBefore(s, e, After(s, e).value);
  }

  lemma SavingSpoils(s: System, q: Pid)
    requires q in s.procs && s.procs[q].Running? && s.procs[q].due.Save?
    requires s.disk.journal.Some? && !Continued(s.disk.journal.value, s.procs[q].memory)
    ensures Spoilt(s)
  {
    var e := SaveJournal(q);
    assert Harms(s, e) by {
      hide Continued, Dispatched;
    }
    hide Spoilt, Harms, Continued;
    SpoiltBefore(s, e, After(s, e).value);
  }

  lemma IdleSpoils(s: System, q: Pid)
    requires q in s.procs && Idle(s.procs[q]) && Behind(s, s.procs[q].memory)
    ensures Spoilt(s)
  {
    var proc, d := s.procs[q], s.disk.journal.value;
    var key := FreshKey(d);
    RememberingTakesAway(Flight(proc.memory, 0, 0, 0), d, key);
    var e := Remember(q, key, "");
    hide Spoilt, Harms, Continued;
    SavingSpoils(After(s, e).value, q);
    SpoiltBefore(s, e, After(s, e).value);
  }

  lemma PublishingSpoils(s: System, q: Pid)
    requires q in s.procs && s.procs[q].Publishing? && Behind(s, s.procs[q].memory)
    ensures Spoilt(s)
  {
    var e := Publish(q);
    hide Spoilt, Harms, Continued;
    var t := After(s, e).value;
    if s.procs[q].link.Approval? {
      IdleSpoils(t, q);
    } else {
      LeavingSpoils(t, q);
    }
    SpoiltBefore(s, e, t);
  }

  lemma RestingSpoils(s: System, q: Pid)
    requires q in s.procs && s.procs[q].Running? && s.procs[q].due.Nothing? && Behind(s, s.procs[q].memory)
    ensures Spoilt(s)
  {
    hide Spoilt, Harms, Continued;
    if s.procs[q].begun {
      IdleSpoils(s, q);
    } else {
      var e := Approve(q);
      PublishingSpoils(After(s, e).value, q);
      SpoiltBefore(s, e, After(s, e).value);
    }
  }

  lemma SendingSpoils(s: System, q: Pid)
    requires q in s.procs && s.procs[q].Running? && s.procs[q].due.Send? && s.procs[q].due.at < |s.procs[q].memory.requests|
    requires Behind(s, s.procs[q].memory) || s.procs[q].due.at in s.sent
    ensures Spoilt(s)
  {
    var e := Dispatch(q);
    assert s.procs[q].due.at in s.sent ==> Harms(s, e) by {
      hide Grows;
    }
    hide Spoilt, Harms, Continued;
    if s.procs[q].due.at !in s.sent {
      RestingSpoils(After(s, e).value, q);
    }
    SpoiltBefore(s, e, After(s, e).value);
  }

  lemma DoubledSaveSpoils(s: System, q: Pid)
    requires q in s.procs && s.procs[q].Running? && s.procs[q].due.Save? && s.procs[q].due.send.Some?
    requires s.procs[q].due.send.value in s.sent && s.procs[q].due.send.value < |s.procs[q].memory.requests|
    ensures Spoilt(s)
  {
    var e := SaveJournal(q);
    hide Spoilt, Harms, Continued;
    SendingSpoils(After(s, e).value, q);
    SpoiltBefore(s, e, After(s, e).value);
  }

  /** A process that a save disturbed may do harm by itself, without another one after an unlock. */
  lemma DisturbedSpoils(s: System, t: System, q: Pid, bought: Option<nat>)
    requires q in s.procs && q in t.procs && t.procs[q] == s.procs[q] && BooksOk(s, s.procs[q])
    requires s.disk.journal.Some? && t.disk.journal.Some? && Continued(s.disk.journal.value, t.disk.journal.value)
    requires t.sent.Keys == s.sent.Keys + (if bought.Some? then {bought.value} else {})
    requires !Undisturbed(s.procs[q], s.disk.journal.value, t.disk.journal.value, bought)
    ensures Spoilt(t)
  {
    hide Spoilt, Continued, After, Within;
    match t.procs[q]
    case Running(_, memory, _, due, _) =>
      match due {
        case Nothing => RestingSpoils(t, q);
        case Send(_) => SendingSpoils(t, q);
        case Save(_) =>
          if Continued(t.disk.journal.value, memory) {
            DoubledSaveSpoils(t, q);
          } else {
            SavingSpoils(t, q);
          }
      }
    case Publishing(_, _, _, _, _) => PublishingSpoils(t, q);
    case Leaving(_) => LeavingSpoils(t, q);
    case _ => assert false;
  }

  lemma DisturbingHarms(s: System, e: Event)
    requires JournalInv(s) && Stray(s, e) && After(s, e).Some? && TailCan(s.procs[e.p].flying, e.tail) && !Undisturbing(s, e)
    ensures Harms(s, e) || Spoilt(After(s, e).value)
  {
    LateEffect(s, e);
    var t, bought := After(s, e).value, Buys(s.procs[e.p].flying, e.tail);
    if !Harms(s, e) {
      NotHarming(s, e, t);
      var q := SomeoneDisturbed(s, e, t);
      hide JournalInv, After, Harms, Spoilt, Undisturbing, Undisturbed, BooksOk, Buys, TailCan, Tailed, Continued;
      DisturbedSpoils(s, t, q, bought);
    }
  }

  /** A save after an unlock is harmless, then and in whatever follows, exactly when it is undisturbing: it finds what its invocation left or what it is about to write, buys something new, and nobody at work is disturbed. */
  lemma StraySaveIsHarmlessIff(s: System, e: Event)
    requires JournalInv(s) && Stray(s, e) && After(s, e).Some?
    ensures TailCan(s.procs[e.p].flying, e.tail)
    ensures Undisturbing(s, e) <==> !Harms(s, e) && !Spoilt(After(s, e).value)
  {
    StraySaveIsSafeIff(s, e);
    hide JournalInv, After, Harms, Spoilt, Undisturbing, TailCan;
    if Undisturbing(s, e) {
      QuietEventsDoNotHarm(s, e);
      InvIsNotSpoilt(After(s, e).value);
    } else {
      DisturbingHarms(s, e);
    }
  }

  lemma NotHarming(s: System, e: Event, t: System)
    requires Stray(s, e) && After(s, e) == Some(t) && !Harms(s, e) && TailCan(s.procs[e.p].flying, e.tail)
    ensures Grows(s, t) && (Buys(s.procs[e.p].flying, e.tail).Some? ==> Buys(s.procs[e.p].flying, e.tail).value !in s.sent)
  {
    hide After, Grows, TailCan, Buys;
  }

  lemma SomeoneDisturbed(s: System, e: Event, t: System) returns (q: Pid)
    requires JournalInv(s) && Stray(s, e) && After(s, e) == Some(t) && Grows(s, t)
    requires TailCan(s.procs[e.p].flying, e.tail) && !Undisturbing(s, e)
    requires Buys(s.procs[e.p].flying, e.tail).Some? ==> Buys(s.procs[e.p].flying, e.tail).value !in s.sent
    ensures q in s.procs && q in t.procs && t.procs[q] == s.procs[q] && BooksOk(s, s.procs[q])
    ensures s.disk.journal.Some? && t.disk.journal.Some? && Continued(s.disk.journal.value, t.disk.journal.value)
    ensures !Undisturbed(s.procs[q], s.disk.journal.value, t.disk.journal.value, Buys(s.procs[e.p].flying, e.tail))
  {
    LateEffect(s, e);
    var f := s.procs[e.p].flying;
    assert BooksOk(s, s.procs[e.p]);
    NothingBetween(f, e.tail, s.disk.journal.value);
    hide After, Tailed, TailCan, Buys, Continued, Within, DueOk;
    q :| q in s.procs && !Undisturbed(s.procs[q], s.disk.journal.value, t.disk.journal.value, Buys(f, e.tail));
  }

  // Who writes.

  predicate Rewrites(s: System, t: System) {
    t.disk.journal != s.disk.journal || t.disk.report != s.disk.report
  }

  lemma WritersWork(s: System, e: Event)
    requires After(s, e).Some? && Rewrites(s, After(s, e).value)
    ensures e.p in s.procs
    ensures var proc := s.procs[e.p]; Stray(s, e) || proc.Running? || proc.Publishing? || (proc.Leaving? && proc.flight.Some?)
  {
    hide Unchanged, Plannable, Planned, Fits, Advance, SettledAt, TailCan, Tailed, Buys;
  }

  /** Who writes read what is being replaced: a stale invocation never gets past its recheck, and one that has unlocked finds what it left. */
  lemma WritersAreNotStale(s: System, e: Event)
    requires ReportInv(s) && JournalInv(s) && After(s, e).Some? && Quiet(s, e)
    requires Rewrites(s, After(s, e).value)
    ensures e.p in s.procs
    ensures Stray(s, e) ==> s.disk.journal == Some(s.procs[e.p].flying.memory) && After(s, e).value.disk.report == s.disk.report
    ensures var proc := s.procs[e.p];
            !Stray(s, e) ==>
              && s.disk.lock == Some(e.p)
              && (proc.Running? || proc.Publishing? || (proc.Leaving? && proc.flight.Some?))
              && (!proc.Leaving? && s.disk.journal.Some? ==> Continued(s.disk.journal.value, proc.memory))
              && (proc.Leaving? ==> s.disk.journal == Some(proc.flight.value.memory))
              && (proc.Running? ==> s.disk.report == Whole(Base(proc.job, proc.begun)))
              && (proc.Publishing? ==> Last(s, Base(proc.job, !proc.link.Approval?)))
  {
    WritersWork(s, e);
    if Stray(s, e) {
      LateEffect(s, e);
      hide JournalInv, ReportInv, After, TailCan, Tailed, Undisturbed;
    } else {
      HoldersAreCurrent(s, e.p);
      hide JournalInv, ReportInv, After, Stray, Continued, Last, Base;
    }
  }

  /** Whoever is past its recheck knows the journal and the report it works on. */
  lemma HoldersAreCurrent(s: System, p: Pid)
    requires ReportInv(s) && JournalInv(s) && p in s.procs
    requires s.procs[p].Running? || s.procs[p].Publishing? || (s.procs[p].Leaving? && s.procs[p].flight.Some?)
    ensures var proc := s.procs[p];
            && s.disk.lock == Some(p)
            && (!proc.Leaving? && s.disk.journal.Some? ==> Continued(s.disk.journal.value, proc.memory))
            && (proc.Leaving? ==> s.disk.journal == Some(proc.flight.value.memory))
            && (proc.Running? ==> s.disk.report == Whole(Base(proc.job, proc.begun)))
            && (proc.Publishing? ==> Last(s, Base(proc.job, !proc.link.Approval?)))
  {
    assert BooksOk(s, s.procs[p]) && ProcOk(s, s.procs[p]);
    HolderHasLock(s, p);
    if s.disk.journal.Some? {
      ContinuedByItself(s.disk.journal.value);
    }
    hide JournalInv, ReportInv, JobOk, Linked, Continued, Sound, Last;
  }
}
