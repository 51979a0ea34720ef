/** The report file of the live tier: whatever happens, the published reports form one campaign. */
module PolicyReports {
  import opened Options
  import opened Campaign
  import opened CampaignDecisions
  import opened PolicyProtocol

  ghost predicate Last(s: System, r: Report) {
    s.published != [] && s.published[|s.published| - 1] == r
  }

  /** A job that was planned on a sound report in an open phase, under the inference that is approved if one is. */
  predicate JobOk(job: Job) {
    && Sound(job.stored) && PhaseIsOpen(job.stored, job.phase) && Planned(job.stored, job.phase, job.request).Some?
    && (job.stored.approved.Some? ==> job.stored.approved.value == job.journal.terms.inference)
  }

  /** What a process knows of the report. */
  ghost predicate ProcOk(s: System, proc: Proc) {
    match proc
    case Reading(stored) => Sound(stored)
    case Ready(job) => JobOk(job)
    case Locked(job) => JobOk(job)
    case Running(job, memory, spent, due, begun) => JobOk(job) && s.disk.report == Whole(Base(job, begun))
    case Publishing(job, memory, spent, next, link) =>
      && JobOk(job) && s.disk.report.Torn? && Sound(next)
      && Last(s, Base(job, !link.Approval?))
      && Linked(Base(job, !link.Approval?), link, next)
      && (link.Approval? ==> next == Base(job, true))
    case _ => true
  }

  ghost predicate ReportOk(s: System) {
    && (s.disk.report.Whole? ==> Sound(s.disk.report.report) && Last(s, s.disk.report.report))
    && |s.links| + 1 == |s.published|
    && (forall i :: 0 <= i < |s.links| ==> Linked(s.published[i], s.links[i], s.published[i + 1]))
    && (forall i :: 0 <= i < |s.published| ==> Sound(s.published[i]))
  }

  ghost predicate ReportInv(s: System) {
    LockOk(s) && ReportOk(s) && forall p :: p in s.procs ==> ProcOk(s, s.procs[p])
  }

  lemma InitialIsInv(s: System)
    requires Initial(s)
    ensures ReportInv(s)
  {
  }

  lemma SoundApproved(r: Report, a: Option<string>, n: nat)
    requires Sound(r)
    ensures Sound(r.(approved := a)) && Sound(r.(purchased := n))
  {
    SameAnswers(r, r.(approved := a));
    SameAnswers(r, r.(purchased := n));
  }

  /** The report and what was published of it. */
  ghost predicate SameReport(s: System, t: System) {
    t.disk.report == s.disk.report && t.published == s.published && t.links == s.links
  }

  lemma SameReportKeepsProc(s: System, t: System, proc: Proc)
    requires SameReport(s, t) && ProcOk(s, proc)
    ensures ProcOk(t, proc)
  {
  }

  lemma SameReportKeepsReport(s: System, t: System)
    requires SameReport(s, t) && ReportOk(s)
    ensures ReportOk(t)
  {
    hide Linked, Sound;
  }

  /** An event that leaves the report alone: only its own process needs a look. */
  lemma QuietStep(s: System, e: Event, t: System)
    requires ReportInv(s) && After(s, e) == Some(t) && SameReport(s, t)
    requires e.p in t.procs ==> ProcOk(t, t.procs[e.p])
    ensures ReportInv(t)
  {
    LockStaysOk(s, e);
    HoldingAfter(s, e);
    SameReportKeepsReport(s, t);
    hide After, LockOk, ReportOk, ProcOk, SameReport;
    forall q | q in t.procs
      ensures ProcOk(t, t.procs[q])
    {
      if q != e.p {
        SameReportKeepsProc(s, t, s.procs[q]);
      }
    }
  }

  /** A process that holds nothing does not look at the report file. */
  lemma OutsiderStaysOk(s: System, t: System, proc: Proc)
    requires !Holds(proc) && ProcOk(s, proc)
    ensures ProcOk(t, proc)
  {
  }

  /** An event of the holder: everyone else is an outsider. */
  lemma HolderStep(s: System, e: Event, t: System)
    requires ReportInv(s) && After(s, e) == Some(t) && e.p in s.procs && Holds(s.procs[e.p])
    requires ReportOk(t) && e.p in t.procs && ProcOk(t, t.procs[e.p])
    ensures ReportInv(t)
  {
    LockStaysOk(s, e);
    HoldingAfter(s, e);
    hide After, ReportOk, ProcOk;
    forall q | q in t.procs
      ensures ProcOk(t, t.procs[q])
    {
      if q != e.p {
        if Holds(s.procs[q]) {
          HoldersAreOne(s, e.p, q);
        }
        OutsiderStaysOk(s, t, s.procs[q]);
      }
    }
  }

  /** Reading, planning, locking and rechecking. */
  lemma PlanningKeepsInv(s: System, e: Event)
    requires ReportInv(s) && (e.Read? || e.Plan? || e.Lock? || e.Verify?) && After(s, e).Some?
    ensures ReportInv(After(s, e).value)
  {
    var t := After(s, e).value;
    assert e.p in s.procs ==> ProcOk(s, s.procs[e.p]);
    assert SameReport(s, t) && ProcOk(t, t.procs[e.p]) by {
      hide Sound, PhaseIsOpen, Planned, Snapshot;
    }
    hide ReportInv, After, ProcOk, SameReport;
    QuietStep(s, e, t);
  }

  /** Buying, answering and remembering have nothing to do with the report. */
  lemma BuyingKeepsInv(s: System, e: Event)
    requires ReportInv(s) && (e.SaveJournal? || e.Dispatch? || e.Record? || e.Settled? || e.Remember?) && After(s, e).Some?
    ensures ReportInv(After(s, e).value)
  {
    var t := After(s, e).value;
    assert ProcOk(s, s.procs[e.p]);
    assert SameReport(s, t) && ProcOk(t, t.procs[e.p]) by {
      hide JobOk, Recorded, SettledAt, Base;
    }
    hide ReportInv, After, ProcOk, SameReport;
    QuietStep(s, e, t);
  }

  /** Leaving in any way, saving late, crashing and clearing a lock. */
  lemma LeavingKeepsInv(s: System, e: Event)
    requires ReportInv(s) && (e.Throw? || e.Late? || e.Unlock? || e.Crash? || e.ClearLock?) && After(s, e).Some?
    ensures ReportInv(After(s, e).value)
  {
    var t := After(s, e).value;
    assert SameReport(s, t) && ProcOk(t, t.procs[e.p]) by {
      hide TailCan, Tailed, Buys;
    }
    hide ReportInv, After, ProcOk, SameReport;
    QuietStep(s, e, t);
  }

  /** The holder starts rewriting the report. */
  lemma TearingKeepsInv(s: System, e: Event, t: System)
    requires ReportInv(s) && After(s, e) == Some(t) && e.p in s.procs && Holds(s.procs[e.p])
    requires t.disk.report.Torn? && t.published == s.published && t.links == s.links
    requires e.p in t.procs && ProcOk(t, t.procs[e.p])
    ensures ReportInv(t)
  {
    hide After, ProcOk, Linked, Sound, Last, LockOk;
    HolderStep(s, e, t);
  }

  lemma ApproveKeepsInv(s: System, e: Event)
    requires ReportInv(s) && e.Approve? && After(s, e).Some?
    ensures ReportInv(After(s, e).value)
  {
    var t, proc := After(s, e).value, s.procs[e.p];
    assert ProcOk(s, proc);
    SoundApproved(proc.job.stored, Some(proc.job.journal.terms.inference), 0);
    assert ProcOk(t, t.procs[e.p]) by {
      hide Sound, PhaseIsOpen, Planned;
    }
    hide ReportInv, ProcOk;
    TearingKeepsInv(s, e, t);
  }

  /** The approved inference plays no part in what a phase may do. */
  lemma BaseIsOpen(job: Job)
    requires JobOk(job)
    ensures Sound(Base(job, true)) && PhaseIsOpen(Base(job, true), job.phase)
  {
    SoundApproved(job.stored, Some(job.journal.terms.inference), 0);
    hide Sound;
  }

  /** A finished phase that publishes: the successor follows from the report that is current. */
  lemma FinishPublishes(job: Job, outcome: Outcome, judge: Judge, purchased: nat, next: Report)
    requires JobOk(job)
    requires var base := Base(job, true);
             && Planned(base, job.phase, job.request).Some?
             && Fits(base, job.phase, Planned(base, job.phase, job.request).value, outcome)
             && Advance(base, job.phase, outcome, judge) == Some(next)
    ensures Sound(next.(purchased := purchased))
    ensures Linked(Base(job, true), Advanced(job.phase, job.request, outcome, judge, purchased), next.(purchased := purchased))
  {
    BaseIsOpen(job);
    hide Sound, PhaseIsOpen, Planned, Advance, Fits, Base, JobOk;
    AdvanceKeepsSound(Base(job, true), job.phase, job.request, outcome, judge);
    SoundApproved(next, None, purchased);
  }

  /** What finishing a phase does: the report is torn for its successor, or nothing but the invocation changes. */
  lemma FinishEffect(s: System, e: Event)
    requires e.Finish? && After(s, e).Some?
    ensures e.p in s.procs && Idle(s.procs[e.p])
    ensures var proc, t := s.procs[e.p], After(s, e).value;
            var base, job, n := Base(proc.job, true), proc.job, |proc.memory.requests|;
            && Planned(base, job.phase, job.request).Some? && Fits(base, job.phase, Planned(base, job.phase, job.request).value, e.outcome)
            && match Advance(base, job.phase, e.outcome, e.judge)
               case None => t == s.(procs := s.procs[e.p := Leaving(Left(proc))])
               case Some(next) =>
                 t == s.(procs := s.procs[e.p := Publishing(job, proc.memory, proc.spent, next.(purchased := n), Advanced(job.phase, job.request, e.outcome, e.judge, n))],
                         disk := s.disk.(report := Torn))
  {
    hide Planned, Fits, Advance, Base, Left;
  }

  lemma CurrentIsLast(s: System, r: Report)
    requires ReportOk(s) && s.disk.report == Whole(r)
    ensures Last(s, r)
  {
  }

  lemma FinishKeepsInv(s: System, e: Event)
    requires ReportInv(s) && e.Finish? && After(s, e).Some?
    ensures ReportInv(After(s, e).value)
  {
    FinishEffect(s, e);
    var t, proc := After(s, e).value, s.procs[e.p];
    var job := proc.job;
    assert ProcOk(s, proc);
    CurrentIsLast(s, Base(job, true));
    hide After, ReportInv, Sound, PhaseIsOpen, Planned, Advance, Fits, Base, JobOk, Linked;
    var next := Advance(Base(job, true), job.phase, e.outcome, e.judge);
    if next.Some? {
      FinishPublishes(job, e.outcome, e.judge, |proc.memory.requests|, next.value);
      TearingKeepsInv(s, e, t);
    } else {
      QuietStep(s, e, t);
    }
  }

  /** One more report with its link. */
  lemma PublishedExtends(s: System, t: System, a: Report, link: Link, b: Report)
    requires ReportOk(s) && Last(s, a) && Linked(a, link, b) && Sound(b)
    requires t.published == s.published + [b] && t.links == s.links + [link] && t.disk.report == Whole(b)
    ensures ReportOk(t) && Last(t, b)
  {
    hide Sound, Linked;
    forall i | 0 <= i < |t.links|
      ensures Linked(t.published[i], t.links[i], t.published[i + 1])
    {
      if i == |s.links| {
        assert t.published[i] == a;
      }
    }
  }

  lemma PublishKeepsInv(s: System, e: Event)
    requires ReportInv(s) && e.Publish? && After(s, e).Some?
    ensures ReportInv(After(s, e).value)
  {
    var t, proc := After(s, e).value, s.procs[e.p];
    assert ProcOk(s, proc);
    hide Sound, PhaseIsOpen, Planned, Linked, ReportOk, LockOk, Base;
    PublishedExtends(s, t, Base(proc.job, !proc.link.Approval?), proc.link, proc.next);
    HolderStep(s, e, t);
  }

  /** Whatever happens in whatever order, late saves included, the reports stay in order. */
  lemma EveryEventKeepsReports(s: System, e: Event)
    requires ReportInv(s) && After(s, e).Some?
    ensures ReportInv(After(s, e).value)
  {
    hide ReportInv, After;
    if e.Read? || e.Plan? || e.Lock? || e.Verify? {
      PlanningKeepsInv(s, e);
    } else if e.SaveJournal? || e.Dispatch? || e.Record? || e.Settled? || e.Remember? {
      BuyingKeepsInv(s, e);
    } else if e.Approve? {
      ApproveKeepsInv(s, e);
    } else if e.Finish? {
      FinishKeepsInv(s, e);
    } else if e.Publish? {
      PublishKeepsInv(s, e);
    } else {
      LeavingKeepsInv(s, e);
    }
  }

  lemma {:induction false} ReportsOverARun(states: seq<System>, events: seq<Event>, i: nat)
    requires IsRun(states, events) && i < |states|
    ensures ReportInv(states[i])
  {
    hide ReportInv, After, Initial;
    if i == 0 {
      InitialIsInv(states[0]);
    } else {
      StepOfRun(states, events, i - 1);
      ReportsOverARun(states, events, i - 1);
      EveryEventKeepsReports(states[i - 1], events[i - 1]);
    }
  }

  /** Over every run the published reports form one sequential campaign, however the invocations interleave, crash or save late, and each is sound. */
  lemma PublishedReportsAreOneCampaign(states: seq<System>, events: seq<Event>, i: nat, k: nat)
    requires IsRun(states, events) && i < |states| && k < |states[i].published|
    ensures Sound(states[i].published[k])
    ensures k + 1 < |states[i].published| ==> k < |states[i].links| && Linked(states[i].published[k], states[i].links[k], states[i].published[k + 1])
    ensures states[i].published[k].state == Confirmed ==>
              forall id :: id in states[i].published[k].shortlist ==> Answered(states[i].published[k], Selection, id)
  {
    ReportsOverARun(states, events, i);
    hide ProcOk, Linked;
    if states[i].published[k].state == Confirmed {
      ConfirmedWentThroughEveryPhase(states[i].published[k]);
    }
  }

  /** One step of a campaign that confirms, or carries a confirmed report on. */
  lemma ConfirmedStep(a: Report, link: Link, b: Report)
    requires Sound(a) && Sound(b) && Linked(a, link, b) && b.state == Confirmed
    ensures a.state == Confirmed ==> b == a.(approved := b.approved)
    ensures a.state != Confirmed ==>
              && link.Advanced? && link.phase == Confirmation && link.outcome.Bought? && a.decision.None?
              && (Names(link.judge) ==> DecidedBy(b, link.judge))
  {
    if link.Advanced? && a.state != Confirmed {
      var next := Advance(a, link.phase, link.outcome, link.judge).value;
      assert next.state == Confirmed && next.decision.Some?;
      hide Sound, Advance, PhaseIsOpen, Planned, Fits, DecidedBy, Names;
      ConfirmingRunDecides(a, link.phase, link.request, link.outcome, link.judge);
      if Names(link.judge) {
        SameDecision(next, b, link.judge);
      }
    }
    hide Sound, Advance, Planned, Fits, DecidedBy, Names;
  }

  lemma {:induction false} ConfirmedIsDecidedIn(published: seq<Report>, links: seq<Link>, k: nat) returns (m: nat)
    requires |links| + 1 == |published| && k < |published|
    requires forall i :: 0 <= i < |links| ==> Linked(published[i], links[i], published[i + 1])
    requires forall i :: 0 <= i < |published| ==> Sound(published[i])
    requires published[0].state != Confirmed && published[k].state == Confirmed
    ensures m < k && published[m].decision.None? && links[m].Advanced? && links[m].phase == Confirmation && links[m].outcome.Bought?
    ensures Names(links[m].judge) ==> DecidedBy(published[k], links[m].judge)
  {
    hide Sound, Linked, Names, DecidedBy;
    var j := k - 1;
    assert Linked(published[j], links[j], published[j + 1]);
    ConfirmedStep(published[j], links[j], published[k]);
    if published[j].state == Confirmed {
      m := ConfirmedIsDecidedIn(published, links, j);
      if Names(links[m].judge) {
        SameDecision(published[j], published[k], links[m].judge);
      }
    } else {
      m := j;
    }
  }

  /** Over every run a published report that is confirmed was decided by one published confirmation step: its default is the challenger exactly if that step's judge, comparing the live confirmation attempts of challenger and inert cell, promotes it. */
  lemma ConfirmedWasDecided(states: seq<System>, events: seq<Event>, i: nat, k: nat) returns (m: nat)
    requires IsRun(states, events) && i < |states| && k < |states[i].published|
    requires states[i].published[0].state != Confirmed && states[i].published[k].state == Confirmed
    ensures m < k && m < |states[i].links|
    ensures var link := states[i].links[m];
            && states[i].published[m].decision.None?
            && link.Advanced? && link.phase == Confirmation && link.outcome.Bought?
            && (Names(link.judge) ==> DecidedBy(states[i].published[k], link.judge))
  {
    ReportsOverARun(states, events, i);
    hide ProcOk, Linked, Sound, Names, DecidedBy, IsRun;
    m := ConfirmedIsDecidedIn(states[i].published, states[i].links, k);
  }

  lemma StepKeepsInference(a: Report, link: Link, b: Report)
    requires Linked(a, link, b) && a.approved.Some?
    ensures b.approved == a.approved
  {
    if link.Advanced? {
      AdvanceKeepsApproved(a, link.phase, link.outcome, link.judge);
    }
    hide Advance, Fits, Planned, PhaseIsOpen;
  }

  lemma AdvanceKeepsApproved(r: Report, phase: Phase, outcome: Outcome, judge: Judge)
    requires Advance(r, phase, outcome, judge).Some?
    ensures Advance(r, phase, outcome, judge).value.approved == r.approved
  {
    hide MergeAll, ComparisonsOf, Choose, Complete, Keep, Against;
    if outcome.Bought? && MergeAll(r, outcome.attempts).Some? {
      MergeKeepsApproved(r, outcome.attempts);
    }
  }

  lemma {:induction false} MergeKeepsApproved(r: Report, added: seq<Attempt>)
    requires MergeAll(r, added).Some?
    ensures MergeAll(r, added).value.approved == r.approved
    decreases |added|
  {
    hide MayJoin;
    if added != [] {
      MergeKeepsApproved(Merge(r, added[0]).value, added[1..]);
    }
  }

  lemma {:induction false} InferenceStaysIn(published: seq<Report>, links: seq<Link>, k: nat, l: nat)
    requires |links| + 1 == |published| && k <= l < |published| && published[k].approved.Some?
    requires forall i :: 0 <= i < |links| ==> Linked(published[i], links[i], published[i + 1])
    ensures published[l].approved == published[k].approved
  {
    hide Linked;
    if k < l {
      InferenceStaysIn(published, links, k, l - 1);
      assert Linked(published[l - 1], links[l - 1], published[l - 1 + 1]);
      StepKeepsInference(published[l - 1], links[l - 1], published[l]);
    }
  }

  /** Over every run the inference that is approved once stays the one every later report was bought under. */
  lemma ApprovedInferenceStays(states: seq<System>, events: seq<Event>, i: nat, k: nat, l: nat)
    requires IsRun(states, events) && i < |states| && k <= l < |states[i].published| && states[i].published[k].approved.Some?
    ensures states[i].published[l].approved == states[i].published[k].approved
  {
    ReportsOverARun(states, events, i);
    hide ProcOk, Linked, Sound, IsRun;
    InferenceStaysIn(states[i].published, states[i].links, k, l);
  }
}
