/** Runs in which a save after the unlock does harm: an answer is taken back, a purchase is lost, a purchase is doubled. */
module PolicyFailures {
  import opened Options
  import opened Campaign
  import opened PolicyProtocol
  import opened PolicyJournal
  import opened PolicyStrays

  /** A state that some run ends in. */
  ghost predicate Reached(s: System) {
    exists states, events :: IsRun(states, events) && states[|events|] == s
  }

  lemma InitialIsReached(s: System)
    requires Initial(s)
    ensures Reached(s)
  {
    assert IsRun([s], []);
  }

  lemma ReachedAfter(s: System, e: Event, t: System)
    requires Reached(s) && After(s, e).Some?
    requires var u := After(s, e).value;
             u.disk == t.disk && u.procs == t.procs && u.sent == t.sent && u.published == t.published && u.links == t.links
    ensures Reached(t)
  {
    hide After, Initial;
    assert After(s, e) == Some(t);
    var states, events :| IsRun(states, events) && states[|events|] == s;
    assert IsRun(states + [t], events + [e]);
    assert (states + [t])[|events + [e]|] == t;
  }

  // One cell, and a census that buys embeddings.

  function Registered(): Report {
    Report({"i"}, "i", "i", Some(["i"]), ["i"], false, [], [], None, Open, None, None, 0)
  }

  function Approved(): Report {
    Registered().(approved := Some("m"))
  }

  function Agreed(): Terms {
    Terms("m", "c", 9)
  }

  function FirstCall(): Call {
    Call(true, "a")
  }

  function SecondCall(): Call {
    Call(true, "b")
  }

  function Empty(): Journal {
    Journal(Agreed(), [], map[])
  }

  /** What the first invocation leaves behind: one request that is not answered. */
  function Alone(): Journal {
    Recorded(Empty(), FirstCall())
  }

  /** The same with a request of the second invocation. */
  function Together(): Journal {
    Recorded(Alone(), SecondCall())
  }

  function FirstJob(): Job {
    Job(Registered(), Empty(), Census, Default, 2)
  }

  function SecondJob(): Job {
    Job(Approved(), Alone(), Census, Default, 2)
  }

  function Fresh(): System {
    System(Disk(None, Whole(Registered()), None), map[], map[], [Registered()], [])
  }

  lemma PlansAreMade()
    ensures Sound(Registered()) && PhaseIsOpen(Registered(), Census) && PhaseIsOpen(Approved(), Census)
    ensures Planned(Registered(), Census, Default).Some? && Planned(Approved(), Census, Default).Some?
  {
    assert PhaseCells(Registered(), Census) == ["i"] && PhaseCells(Approved(), Census) == ["i"];
  }

  /** The first invocation up to its first save. */
  function Saved(): System {
    Fresh().(disk := Disk(Some(Empty()), Whole(Registered()), Some(0)), procs := map[0 := Running(FirstJob(), Empty(), 0, Nothing, false)])
  }

  lemma SavedIsReached()
    ensures Reached(Saved())
  {
    PlannedIsReached();
    hide Reached, Plannable;
    var s3 := With(Fresh(), 0, Locked(FirstJob())).(disk := Disk(None, Whole(Registered()), Some(0)));
    var s4 := s3.(procs := map[0 := Running(FirstJob(), Empty(), 0, Save(None), false)]);
    ReachedAfter(With(Fresh(), 0, Ready(FirstJob())), Lock(0), s3);
    ReachedAfter(s3, Verify(0), s4);
    ReachedAfter(s4, SaveJournal(0), Saved());
  }

  lemma PlannedIsReached()
    ensures Reached(With(Fresh(), 0, Ready(FirstJob())))
  {
    PlansAreMade();
    InitialIsReached(Fresh());
    hide Reached, Sound, PhaseIsOpen, Planned;
    var s1 := With(Fresh(), 0, Reading(Registered()));
    ReachedAfter(Fresh(), Read(0), s1);
    ReachedAfter(s1, Plan(0, FirstJob(), Agreed()), With(Fresh(), 0, Ready(FirstJob())));
  }

  /** Its inference is approved. */
  function Published(): System {
    Saved().(disk := Disk(Some(Empty()), Whole(Approved()), Some(0)), procs := map[0 := Running(FirstJob(), Empty(), 0, Nothing, true)],
             published := [Registered(), Approved()], links := [Approval("m")])
  }

  lemma PublishedIsReached()
    ensures Reached(Published())
  {
    SavedIsReached();
    hide Reached;
    var s1 := Saved().(disk := Disk(Some(Empty()), Torn, Some(0)),
                       procs := map[0 := Publishing(FirstJob(), Empty(), 0, Approved(), Approval("m"))]);
    ReachedAfter(Saved(), Approve(0), s1);
    ReachedAfter(s1, Publish(0), Published());
  }

  /** It has dispatched one request and stopped without its answer. */
  function Stopped(): System {
    Published().(disk := Disk(Some(Alone()), Whole(Approved()), None), procs := map[0 := Lingering(Flight(Alone(), 0, 1, 2))], sent := map[0 := FirstCall()])
  }

  /** Before that, it had dispatched it. */
  function Waits(proc: Proc): System {
    Published().(disk := Disk(Some(Alone()), Whole(Approved()), Some(0)), procs := map[0 := proc], sent := map[0 := FirstCall()])
  }

  lemma WaitingIsReached()
    ensures Reached(Waits(Running(FirstJob(), Alone(), 1, Nothing, true)))
  {
    PublishedIsReached();
    hide Reached;
    var s1 := Published().(procs := map[0 := Running(FirstJob(), Alone(), 1, Save(Some(0)), true)]);
    var s2 := s1.(procs := map[0 := Running(FirstJob(), Alone(), 1, Send(0), true)], disk := s1.disk.(journal := Some(Alone())));
    ReachedAfter(Published(), Record(0, FirstCall()), s1);
    ReachedAfter(s1, SaveJournal(0), s2);
    ReachedAfter(s2, Dispatch(0), Waits(Running(FirstJob(), Alone(), 1, Nothing, true)));
  }

  lemma StoppedIsReached()
    ensures Reached(Stopped())
  {
    WaitingIsReached();
    hide Reached;
    var s1 := Waits(Leaving(Some(Flight(Alone(), 0, 1, 2))));
    ReachedAfter(Waits(Running(FirstJob(), Alone(), 1, Nothing, true)), Throw(0), s1);
    ReachedAfter(s1, Unlock(0), Stopped());
  }

  /** Stopped, with the second invocation at some point of its work. */
  function Going(second: Proc): System {
    Stopped().(disk := Stopped().disk.(lock := Some(1)), procs := Stopped().procs[1 := second])
  }

  /** The second invocation has passed its recheck: the journal is what it planned from. */
  function Rechecked(): System {
    Going(Running(SecondJob(), Alone(), 0, Save(None), false))
  }

  /** The second invocation has planned. */
  function Prepared(): System {
    With(Stopped(), 1, Ready(SecondJob()))
  }

  lemma PreparedIsReached()
    ensures Reached(Prepared())
  {
    StoppedIsReached();
    var s1 := With(Stopped(), 1, Reading(Approved()));
    PlansAreMade();
    hide Reached, Sound, PhaseIsOpen, Planned;
    ReachedAfter(Stopped(), Read(1), s1);
    ReachedAfter(s1, Plan(1, SecondJob(), Agreed()), Prepared());
  }

  lemma RecheckedIsReached()
    ensures Reached(Rechecked())
  {
    PreparedIsReached();
    hide Reached, Plannable;
    ReachedAfter(Prepared(), Lock(1), Going(Locked(SecondJob())));
    ReachedAfter(Going(Locked(SecondJob())), Verify(1), Rechecked());
  }

  /** The second invocation has recorded a request of its own and not saved it yet. */
  function Recording(): System {
    Going(Running(SecondJob(), Together(), 1, Save(Some(1)), true)).(published := [Registered(), Approved(), Approved()], links := [Approval("m"), Approval("m")])
  }

  /** Before that, it was publishing its approval. */
  function Approving(): System {
    var s := Going(Publishing(SecondJob(), Alone(), 0, Approved(), Approval("m")));
    s.(disk := s.disk.(report := Torn))
  }

  lemma ApprovingIsReached()
    ensures Reached(Approving())
  {
    RecheckedIsReached();
    hide Reached;
    var s1 := Going(Running(SecondJob(), Alone(), 0, Nothing, false));
    ReachedAfter(Rechecked(), SaveJournal(1), s1);
    ReachedAfter(s1, Approve(1), Approving());
  }

  lemma RecordingIsReached()
    ensures Reached(Recording())
  {
    ApprovingIsReached();
    hide Reached;
    var s1 := Recording().(procs := Recording().procs[1 := Running(SecondJob(), Alone(), 0, Nothing, true)]);
    ReachedAfter(Approving(), Publish(1), s1);
    ReachedAfter(s1, Record(1, SecondCall()), Recording());
  }

  /** That request is on disk and dispatched. */
  function BothBought(): System {
    Recording().(disk := Recording().disk.(journal := Some(Together())), sent := map[0 := FirstCall(), 1 := SecondCall()],
                 procs := Recording().procs[1 := Running(SecondJob(), Together(), 1, Nothing, true)])
  }

  lemma BothBoughtIsReached()
    ensures Reached(BothBought())
  {
    RecordingIsReached();
    hide Reached;
    var s1 := Recording().(disk := BothBought().disk, procs := Recording().procs[1 := Running(SecondJob(), Together(), 1, Send(1), true)]);
    ReachedAfter(Recording(), SaveJournal(1), s1);
    ReachedAfter(s1, Dispatch(1), BothBought());
  }

  function Answer(): Event {
    Late(0, Settles(0, Replied(200)))
  }

  /** The answer arrives when the second invocation has rechecked: it finds the journal as it was left and extends it, and the second's first save takes it back. */
  lemma AnswerIsTakenBack()
    ensures Reached(Rechecked()) && Stray(Rechecked(), Answer()) && Rechecked().disk.journal == Some(Alone()) && Rechecked().procs[0].flying.memory == Alone()
    ensures After(Rechecked(), Answer()).Some? && Grows(Rechecked(), After(Rechecked(), Answer()).value)
    ensures var t := After(Rechecked(), Answer()).value;
            && t.disk.journal == Some(SettledAt(Alone(), 0, Replied(200)))
            && After(t, SaveJournal(1)).Some? && !Stray(t, SaveJournal(1)) && After(t, SaveJournal(1)).value.disk.journal == Some(Alone())
            && !Grows(t, After(t, SaveJournal(1)).value)
  {
    RecheckedIsReached();
    hide Reached;
  }

  /** The answer arrives when the second invocation has bought: its save takes that purchase off the journal. */
  lemma PurchaseIsLost()
    ensures Reached(BothBought()) && Stray(BothBought(), Answer()) && After(BothBought(), Answer()).Some?
    ensures var t := After(BothBought(), Answer()).value;
            !Grows(BothBought(), t) && t.sent == map[0 := FirstCall(), 1 := SecondCall()] && t.disk.journal.Some? && |t.disk.journal.value.requests| == 1
  {
    BothBoughtIsReached();
    hide Reached;
  }

  /** A worker of the first invocation makes the request the second has just recorded: one entry, two purchases, and the journal has only grown. */
  lemma PurchaseIsDoubled()
    ensures var s, e := Recording(), Late(0, Records(SecondCall(), true));
            && Reached(s) && Stray(s, e) && After(s, e).Some? && Grows(s, After(s, e).value)
            && var t := After(s, e).value;
               && After(t, SaveJournal(1)).Some? && Grows(t, After(t, SaveJournal(1)).value)
               && var u := After(t, SaveJournal(1)).value;
                  After(u, Dispatch(1)).Some? && Dispatched(u, Dispatch(1)) == Some(1) && u.sent == map[0 := FirstCall(), 1 := SecondCall()]
  {
    RecordingIsReached();
    hide Reached;
  }
}
