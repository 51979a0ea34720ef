/** The assistant view fed from a run's observation: pages may repeat, arrive late, restart, fail or belong to another run. */
module RunFeed {
  import opened Options

  /** A JSON number, as far as the view reads it. */
  datatype Number = Whole(n: int) | Other

  datatype Turn = Turn(role: string, content: string)
  datatype Proposal = Proposal(id: string, caption: string)
  datatype Progress = Progress(stage: Option<string>, step: Option<int>)

  datatype Summary = Summary(status: string, stage: Option<string>, steps: Option<Number>, answer: Option<string>,
                             proposals: seq<Proposal>, error: Option<string>)

  datatype ViewState = ViewState(status: string, runId: string, messages: seq<Turn>, progress: Option<Progress>,
                                 links: seq<Proposal>, notice: Option<string>, error: Option<string>)

  const MAX_SAFE := 9007199254740991

  const TERMINAL := {"succeeded", "failed", "cancelled"}

  /** The view's status for a server's status; None for one the host does not know. */
  function StatusOf(status: string): Option<string> {
    if status == "queued" then Some("running")
    else if status in TERMINAL + {"running"} then Some(status)
    else None
  }

  function NonEmpty(text: Option<string>): Option<string> {
    if text == Some("") then None else text
  }

  function SafeStep(steps: Option<Number>): Option<int> {
    if steps.Some? && steps.value.Whole? && -MAX_SAFE <= steps.value.n <= MAX_SAFE then Some(steps.value.n) else None
  }

  /** A server's summary as the view's report: whatever the server says, the report is running or ended, and shows why. */
  function ProjectRunSummary(summary: Summary, runId: string, messages: seq<Turn>, notice: Summary -> Option<string>): (view: ViewState)
    ensures view.status in TERMINAL + {"running"}
    ensures view.status == "running" <==> summary.status in {"queued", "running"}
    ensures StatusOf(summary.status).None? ==> view.status == "failed" && view.error.Some?
    ensures summary.error.Some? ==> view.error == summary.error
    ensures messages <= view.messages && (NonEmpty(summary.answer).Some? <==> |view.messages| == |messages| + 1) && |view.messages| <= |messages| + 1
    ensures |view.messages| > |messages| ==> view.messages[|messages|] == Turn("assistant", summary.answer.value)
    ensures view.runId == runId && view.links == summary.proposals && view.notice == notice(summary)
    ensures view.progress.Some? ==> view.progress.value.stage.Some? || view.progress.value.step.Some?
  {
    var status := StatusOf(summary.status);
    var stage, step := NonEmpty(summary.stage), SafeStep(summary.steps);
    ViewState(
      if status.Some? then status.value else "failed", runId,
      messages + (if NonEmpty(summary.answer).Some? then [Turn("assistant", summary.answer.value)] else []),
      if stage.Some? || step.Some? then Some(Progress(stage, step)) else None,
      summary.proposals, notice(summary),
      if summary.error.Some? then summary.error else if status.None? then Some(summary.status) else None)
  }

  /** The report tells the server's statuses apart, shows an unknown one as a failure in the server's words, and has progress exactly where the server names a stage or a safe step. */
  lemma ReportSaysWhatTheServerSays(summary: Summary, runId: string, messages: seq<Turn>, notice: Summary -> Option<string>)
    ensures var view := ProjectRunSummary(summary, runId, messages, notice);
            && (view.status == "succeeded" <==> summary.status == "succeeded")
            && (view.status == "cancelled" <==> summary.status == "cancelled")
            && (view.status == "running" <==> summary.status == "running" || summary.status == "queued")
            && (view.status == "failed" <==> summary.status == "failed" || summary.status !in {"queued", "running", "succeeded", "cancelled"})
    ensures var view := ProjectRunSummary(summary, runId, messages, notice);
            && (summary.error.Some? ==> view.error == summary.error)
            && (summary.error.None? && summary.status !in {"queued", "running", "succeeded", "failed", "cancelled"} ==> view.error == Some(summary.status))
            && (summary.error.None? && summary.status in {"queued", "running", "succeeded", "failed", "cancelled"} ==> view.error.None?)
    ensures var progress := ProjectRunSummary(summary, runId, messages, notice).progress;
            var named := summary.stage.Some? && summary.stage.value != "";
            var safe := summary.steps.Some? && summary.steps.value.Whole? && -9007199254740991 <= summary.steps.value.n <= 9007199254740991;
            && (progress.None? <==> !named && !safe)
            && (progress.Some? ==>
                  && progress.value.stage == (if named then summary.stage else None)
                  && progress.value.step == if safe then Some(summary.steps.value.n) else None)
    ensures var view := ProjectRunSummary(summary, runId, messages, notice);
            view.messages == messages + if summary.answer.Some? && summary.answer.value != "" then [Turn("assistant", summary.answer.value)] else []
  {
    StatusesDiffer();
    hide NonEmpty, SafeStep;
    NonEmptyIs(summary.stage);
    NonEmptyIs(summary.answer);
    SafeStepIs(summary.steps);
  }

  lemma StatusesDiffer()
    ensures "succeeded" != "cancelled" && "succeeded" != "running" && "succeeded" != "failed" && "succeeded" != "queued"
    ensures "cancelled" != "running" && "cancelled" != "failed" && "cancelled" != "queued" && "running" != "failed" && "running" != "queued" && "failed" != "queued"
  {
    assert "succeeded"[0] == 's' && "cancelled"[0] == 'c' && "running"[0] == 'r' && "failed"[0] == 'f' && "queued"[0] == 'q';
  }

  lemma NonEmptyIs(text: Option<string>)
    ensures NonEmpty(text) == if text.Some? && text.value != "" then text else None
  {
  }

  lemma SafeStepIs(steps: Option<Number>)
    ensures SafeStep(steps) ==
            if steps.Some? && steps.value.Whole? && -9007199254740991 <= steps.value.n <= 9007199254740991 then Some(steps.value.n) else None
  {
  }

  /** What the host gives the feed; `waits` says whether it resumes after a failed read. */
  datatype Host = Host(runId: string, attempt: int, project: Summary -> ViewState, failedText: string, waits: bool)

  datatype Message = Message(failed: bool, id: int, runId: string, reset: bool, revision: int, summary: Summary, cursor: Option<int>)

  /** What reaches the feed, in order. */
  datatype Happening = Heard(message: Message) | Stop

  const RUNNING := Summary("running", None, None, None, [], None)

  // What the view should show, from the whole history.

  predicate Own(h: Host, m: Message) {
    m.id == h.attempt && m.runId == h.runId
  }

  predicate IsPage(h: Host, e: Happening) {
    e.Heard? && Own(h, e.message) && !e.message.failed
  }

  predicate IsFailure(h: Host, e: Happening) {
    e.Heard? && Own(h, e.message) && e.message.failed
  }

  predicate IsReset(h: Host, e: Happening) {
    IsPage(h, e) && e.message.reset
  }

  /** A reset page after position j, up to and including position i. */
  predicate ResetBetween(h: Host, past: seq<Happening>, j: int, i: int) {
    exists k :: 0 <= k < |past| && j < k <= i && IsReset(h, past[k])
  }

  /** A page newer than every page since the latest reset. */
  predicate Newest(h: Host, past: seq<Happening>, i: nat)
    requires i < |past|
  {
    && IsPage(h, past[i]) && past[i].message.revision > -1
    && forall j :: 0 <= j < i && IsPage(h, past[j]) && !ResetBetween(h, past, j, i) ==> past[j].message.revision < past[i].message.revision
  }

  function ReportAt(h: Host, past: seq<Happening>, i: nat): ViewState
    requires i < |past| && past[i].Heard?
  {
    h.project(past[i].message.summary)
  }

  /** A stop, or a newest page whose report is terminal. */
  predicate Ends(h: Host, past: seq<Happening>, i: nat)
    requires i < |past|
  {
    past[i].Stop? || (Newest(h, past, i) && ReportAt(h, past, i).status in TERMINAL)
  }

  predicate Over(h: Host, past: seq<Happening>) {
    exists i :: 0 <= i < |past| && Ends(h, past, i)
  }

  predicate Shown(h: Host, past: seq<Happening>, i: nat)
    requires i < |past|
  {
    Newest(h, past, i) && !Over(h, past[..i])
  }

  /** The report the view retains: the last one shown. */
  function Retained(h: Host, past: seq<Happening>): Option<ViewState> {
    if past == [] then None
    else if Shown(h, past, |past| - 1) then Some(ReportAt(h, past, |past| - 1))
    else Retained(h, past[..|past| - 1])
  }

  function Overlay(h: Host, past: seq<Happening>): ViewState {
    (if Retained(h, past).Some? then Retained(h, past).value else h.project(RUNNING)).(error := Some(h.failedText))
  }

  /** What the last happening makes the view show. */
  function LastUpdate(h: Host, past: seq<Happening>): seq<ViewState>
    requires past != []
  {
    var front := past[..|past| - 1];
    if Over(h, front) then []
    else if IsFailure(h, past[|past| - 1]) then [Overlay(h, front)]
    else if Newest(h, past, |past| - 1) then [ReportAt(h, past, |past| - 1)]
    else []
  }

  function Updates(h: Host, past: seq<Happening>): seq<ViewState> {
    if past == [] then [] else Updates(h, past[..|past| - 1]) + LastUpdate(h, past)
  }

  // Laws of the history.

  lemma {:induction false} NewestLooksBack(h: Host, past: seq<Happening>, more: seq<Happening>, i: nat)
    requires i < |past|
    ensures Newest(h, past + more, i) == Newest(h, past, i)
    ensures Ends(h, past + more, i) == Ends(h, past, i)
  {
    forall j | 0 <= j < i
      ensures ResetBetween(h, past + more, j, i) == ResetBetween(h, past, j, i)
    {
      if ResetBetween(h, past + more, j, i) {
        var k :| 0 <= k < |past + more| && j < k <= i && IsReset(h, (past + more)[k]);
        assert past[k] == (past + more)[k];
      }
      if ResetBetween(h, past, j, i) {
        var k :| 0 <= k < |past| && j < k <= i && IsReset(h, past[k]);
        assert past[k] == (past + more)[k];
      }
    }
    assert forall j :: 0 <= j <= i ==> (past + more)[j] == past[j];
  }

  lemma OverStaysOver(h: Host, past: seq<Happening>, more: seq<Happening>)
    requires Over(h, past)
    ensures Over(h, past + more)
  {
    var i :| 0 <= i < |past| && Ends(h, past, i);
    NewestLooksBack(h, past, more, i);
    assert Ends(h, past + more, i);
  }

  /** The feed is over one happening later exactly if it was over, or that happening ends it. */
  lemma OverOfOneMore(h: Host, past: seq<Happening>, e: Happening)
    ensures Over(h, past + [e]) <==> Over(h, past) || Ends(h, past + [e], |past|)
  {
    if Over(h, past + [e]) {
      var i :| 0 <= i < |past + [e]| && Ends(h, past + [e], i);
      if i < |past| {
        NewestLooksBack(h, past, [e], i);
      }
    }
    if Over(h, past) {
      OverStaysOver(h, past, [e]);
    }
  }

  /** After a terminal page or a stop nothing reaches the view, whatever is still delivered. */
  lemma {:induction false} NothingAfterTheEnd(h: Host, past: seq<Happening>, more: seq<Happening>)
    requires Over(h, past)
    ensures Updates(h, past + more) == Updates(h, past) && Retained(h, past + more) == Retained(h, past)
  {
    if more == [] {
      assert past + more == past;
    } else {
      var front := more[..|more| - 1];
      NothingAfterTheEnd(h, past, front);
      OverStaysOver(h, past, front);
      assert (past + more)[..|past + more| - 1] == past + front;
    }
  }

  /** Between resets the shown revisions strictly increase. */
  lemma ShownRevisionsIncrease(h: Host, past: seq<Happening>, i: nat, j: nat)
    requires i < j < |past| && Shown(h, past, i) && Shown(h, past, j) && !ResetBetween(h, past, i, j)
    ensures past[i].message.revision < past[j].message.revision
  {
  }

  /** A failed read shows the retained report with the host's text, and changes neither that report nor what counts as newer. */
  lemma FailureOnlyOverlays(h: Host, past: seq<Happening>, m: Message)
    requires IsFailure(h, Heard(m)) && !Over(h, past)
    ensures var now := past + [Heard(m)];
            && Updates(h, now) == Updates(h, past) + [Overlay(h, past)]
            && (Retained(h, past).Some? ==> Overlay(h, past).(error := Retained(h, past).value.error) == Retained(h, past).value)
            && Retained(h, now) == Retained(h, past) && !Over(h, now)
  {
    assert (past + [Heard(m)])[..|past|] == past;
    OverOfOneMore(h, past, Heard(m));
  }

  // The feed's own state, which looks at one happening at a time.

  datatype FeedState = FeedState(revision: int, last: Option<ViewState>, stopped: bool, shown: seq<ViewState>)

  const FRESH := FeedState(-1, None, false, [])

  function Step(h: Host, s: FeedState, e: Happening): FeedState {
    if e.Stop? then s.(stopped := true)
    else if s.stopped || !Own(h, e.message) then s
    else if e.message.failed then
      s.(shown := s.shown + [(if s.last.Some? then s.last.value else h.project(RUNNING)).(error := Some(h.failedText))])
    else
      var revision := if e.message.reset then -1 else s.revision;
      if e.message.revision <= revision then s.(revision := revision)
      else
        var next := h.project(e.message.summary);
        FeedState(e.message.revision, Some(next), next.status in TERMINAL, s.shown + [next])
  }

  function Fold(h: Host, past: seq<Happening>): FeedState {
    if past == [] then FRESH else Step(h, Fold(h, past[..|past| - 1]), past[|past| - 1])
  }

  /** A message for another attempt or another run changes nothing, and neither does any once the feed has stopped. */
  lemma OtherRunsChangeNothing(h: Host, s: FeedState, m: Message)
    ensures m.id != h.attempt || m.runId != h.runId || s.stopped ==> Step(h, s, Heard(m)) == s
    ensures m.id == h.attempt && m.runId == h.runId && !s.stopped && m.failed ==>
              |Step(h, s, Heard(m)).shown| == |s.shown| + 1 && Step(h, s, Heard(m)).shown[|s.shown|].error == Some(h.failedText)
    ensures m.id == h.attempt && m.runId == h.runId && !s.stopped && !m.failed && m.revision > (if m.reset then -1 else s.revision) ==>
              && Step(h, s, Heard(m)).shown == s.shown + [h.project(m.summary)]
              && (Step(h, s, Heard(m)).stopped <==> h.project(m.summary).status in {"succeeded", "failed", "cancelled"})
  {
  }

  /** The newest revision since the latest reset, or -1. */
  predicate IsTop(h: Host, past: seq<Happening>, revision: int) {
    && revision >= -1
    && (forall j :: 0 <= j < |past| && IsPage(h, past[j]) && !ResetBetween(h, past, j, |past| - 1) ==> past[j].message.revision <= revision)
    && (revision == -1 || exists j :: 0 <= j < |past| && IsPage(h, past[j]) && !ResetBetween(h, past, j, |past| - 1) && past[j].message.revision == revision)
  }

  lemma ResetOfOneMore(h: Host, past: seq<Happening>, e: Happening, j: nat)
    requires j < |past|
    ensures ResetBetween(h, past + [e], j, |past|) <==> ResetBetween(h, past, j, |past| - 1) || IsReset(h, e)
  {
    var now := past + [e];
    if ResetBetween(h, now, j, |past|) {
      var k :| 0 <= k < |now| && j < k <= |past| && IsReset(h, now[k]);
      assert k < |past| ==> past[k] == now[k];
    }
    if ResetBetween(h, past, j, |past| - 1) {
      var k :| 0 <= k < |past| && j < k <= |past| - 1 && IsReset(h, past[k]);
      assert past[k] == now[k];
    }
    if IsReset(h, e) {
      assert now[|past|] == e;
    }
  }

  /** The one revision the feed keeps decides what is newest, and stays the top. */
  lemma TopDecides(h: Host, past: seq<Happening>, m: Message, revision: int)
    requires IsTop(h, past, revision) && IsPage(h, Heard(m))
    ensures var from := if m.reset then -1 else revision;
            && (Newest(h, past + [Heard(m)], |past|) <==> m.revision > from)
            && IsTop(h, past + [Heard(m)], if m.revision > from then m.revision else from)
  {
    var now, from := past + [Heard(m)], if m.reset then -1 else revision;
    forall j | 0 <= j < |past|
      ensures now[j] == past[j]
      ensures ResetBetween(h, now, j, |past|) <==> ResetBetween(h, past, j, |past| - 1) || m.reset
    {
      ResetOfOneMore(h, past, Heard(m), j);
    }
    assert now[|past|] == Heard(m);
    assert !ResetBetween(h, now, |past|, |past|);
    hide ResetBetween;
    if revision != -1 && !m.reset {
      var j :| 0 <= j < |past| && IsPage(h, past[j]) && !ResetBetween(h, past, j, |past| - 1) && past[j].message.revision == revision;
      assert IsPage(h, now[j]) && !ResetBetween(h, now, j, |past|);
    }
  }

  lemma OtherKeepsTop(h: Host, past: seq<Happening>, e: Happening, revision: int)
    requires IsTop(h, past, revision) && !IsPage(h, e)
    ensures IsTop(h, past + [e], revision)
  {
    var now := past + [e];
    forall j | 0 <= j < |past|
      ensures now[j] == past[j]
      ensures ResetBetween(h, now, j, |past|) <==> ResetBetween(h, past, j, |past| - 1)
    {
      ResetOfOneMore(h, past, e, j);
    }
    hide ResetBetween;
    if revision != -1 {
      var j :| 0 <= j < |past| && IsPage(h, past[j]) && !ResetBetween(h, past, j, |past| - 1) && past[j].message.revision == revision;
      assert IsPage(h, now[j]) && !ResetBetween(h, now, j, |past|);
    }
  }

  /** The state agrees with the history. */
  predicate Tracks(h: Host, past: seq<Happening>, s: FeedState) {
    && s.stopped == Over(h, past) && s.last == Retained(h, past) && s.shown == Updates(h, past)
    && (!s.stopped ==> IsTop(h, past, s.revision))
  }

  lemma StepTracks(h: Host, past: seq<Happening>, s: FeedState, e: Happening)
    requires Tracks(h, past, s)
    ensures Tracks(h, past + [e], Step(h, s, e))
  {
    var now := past + [e];
    assert now[..|past|] == past && now[|past|] == e;
    OverOfOneMore(h, past, e);
    if s.stopped {
      NothingAfterTheEnd(h, past, [e]);
    } else if IsPage(h, e) {
      TopDecides(h, past, e.message, s.revision);
      hide Newest, IsTop, Over;
    } else {
      OtherKeepsTop(h, past, e, s.revision);
      hide IsTop, Over;
    }
  }

  /** The feed refines the history: one revision, one report and one flag carry all of it. */
  lemma {:induction false} FeedRefinesHistory(h: Host, past: seq<Happening>)
    ensures Tracks(h, past, Fold(h, past))
  {
    if past != [] {
      var n := |past| - 1;
      FeedRefinesHistory(h, past[..n]);
      StepTracks(h, past[..n], Fold(h, past[..n]), past[n]);
      assert past[..n] + [past[n]] == past;
    }
  }

  function Relevant(h: Host, past: seq<Happening>): seq<Happening> {
    if past == [] then []
    else
      var e := past[|past| - 1];
      Relevant(h, past[..|past| - 1]) + (if e.Heard? && !Own(h, e.message) then [] else [e])
  }

  /** Pages and failures of another attempt or another run have no effect at all. */
  lemma {:induction false} ForeignMessagesHaveNoEffect(h: Host, past: seq<Happening>)
    ensures Fold(h, Relevant(h, past)) == Fold(h, past)
    ensures Updates(h, Relevant(h, past)) == Updates(h, past)
  {
    FeedRefinesHistory(h, past);
    FeedRefinesHistory(h, Relevant(h, past));
    SameFold(h, past);
  }

  lemma {:induction false} SameFold(h: Host, past: seq<Happening>)
    ensures Fold(h, Relevant(h, past)) == Fold(h, past)
  {
    if past != [] {
      var front, e := past[..|past| - 1], past[|past| - 1];
      SameFold(h, front);
      assert Fold(h, past) == Step(h, Fold(h, front), e);
      if e.Heard? && !Own(h, e.message) {
        assert Relevant(h, past) == Relevant(h, front);
      } else {
        assert Relevant(h, past) == Relevant(h, front) + [e];
        assert Relevant(h, past)[..|Relevant(h, past)| - 1] == Relevant(h, front);
      }
    }
  }

  // Duplicates and disorder.

  /** Own pages of one run, without resets: `at` gives the summary of each revision, and none but the top one may end the run. */
  predicate OneRun(h: Host, past: seq<Happening>, at: map<int, Summary>, top: int) {
    && top > -1 && top in at
    && forall j :: 0 <= j < |past| ==>
         && IsPage(h, past[j]) && !past[j].message.reset
         && -1 < past[j].message.revision <= top
         && past[j].message.revision in at && at[past[j].message.revision] == past[j].message.summary
         && (past[j].message.revision < top ==> h.project(past[j].message.summary).status !in TERMINAL)
  }

  /** However the pages of a run are repeated and reordered, the view ends on the report of the newest one. */
  lemma {:induction false} NewestPageWins(h: Host, past: seq<Happening>, at: map<int, Summary>, top: int)
    requires OneRun(h, past, at, top)
    requires exists j :: 0 <= j < |past| && past[j].Heard? && past[j].message.revision == top
    ensures Retained(h, past) == Some(h.project(at[top]))
  {
    FeedRefinesHistory(h, past);
    FoldOfOneRun(h, past, at, top);
  }

  lemma {:induction false} FoldOfOneRun(h: Host, past: seq<Happening>, at: map<int, Summary>, top: int)
    requires OneRun(h, past, at, top)
    ensures var s := Fold(h, past);
            && -1 <= s.revision <= top
            && (s.revision > -1 ==> s.revision in at && s.last == Some(h.project(at[s.revision])))
            && (s.stopped ==> s.revision == top)
            && forall j :: 0 <= j < |past| ==> past[j].message.revision <= s.revision
  {
    if past != [] {
      var n := |past| - 1;
      assert forall j :: 0 <= j < n ==> past[..n][j] == past[j];
      FoldOfOneRun(h, past[..n], at, top);
    }
  }

  // The feed itself.

  class Feed {
    const host: Host
    var revision: int
    var last: Option<ViewState>
    var stopped: bool
    /** What the view was told. */
    var shown: seq<ViewState>
    /** The observations opened, by the cursor each started from, and those that were released. */
    var cursors: seq<int>
    var released: set<nat>
    /** The observation that stopping would release. */
    var current: Option<nat>
    /** The cursors of the resumptions still waited for. */
    var waiting: seq<int>
    ghost var heard: seq<Happening>
    /** Whether the feed ended before the latest `observe` returned. */
    ghost var inside: bool

    ghost function State(): FeedState
      reads this
    {
      FeedState(revision, last, stopped, shown)
    }

    ghost predicate Valid()
      reads this
    {
      && State() == Fold(host, heard)
      && (current.Some? ==> current.value < |cursors|)
      && (forall n :: n in released ==> n < |cursors|)
      && (inside ==> stopped)
      && (stopped && current.Some? ==> (current.value in released <==> !inside))
    }

    /** Starts following; `early` is what the observation dispatches before it returns. */
    constructor (host: Host, early: seq<Message>)
      ensures Valid() && this.host == host && heard == Hearing(early) && shown == Updates(host, heard)
      ensures cursors == [0] && current == Some(0) && released == {} && waiting == Waits(host, [], 0, early)
      ensures inside <==> Over(host, Hearing(early))
    {
      this.host := host;
      revision, last, stopped, shown := -1, None, false, [];
      cursors, released, current, waiting := [], {}, None, [];
      heard, inside := [], false;
      new;
      Follow(0, early);
      FeedRefinesHistory(host, heard);
      assert [] + Hearing(early) == Hearing(early);
      assert [] + Waits(host, [], 0, early) == Waits(host, [], 0, early);
    }

    /** Opens one observation. A run that ends inside it releases the observation before it, and leaves this one unreleased: its release is not known yet. */
    method Follow(cursor: int, early: seq<Message>)
      requires Valid() && !stopped
      modifies this
      ensures Valid() && heard == old(heard) + Hearing(early)
      ensures cursors == old(cursors) + [cursor] && current == Some(|old(cursors)|)
      ensures inside <==> stopped
      ensures released == old(released) + (if stopped && old(current).Some? then {old(current).value} else {})
      ensures waiting == old(waiting) + Waits(host, old(heard), cursor, early)
    {
      hide Fold, Step, IsFailure, Own, Waits, Hearing;
      var n := |cursors|;
      cursors := cursors + [cursor];
      NothingHeard(host, old(heard), cursor);
      for i := 0 to |early|
        invariant Valid() && heard == old(heard) + Hearing(early[..i])
        invariant cursors == old(cursors) + [cursor] && current == old(current) && !inside
        invariant released == old(released) + (if stopped && old(current).Some? then {old(current).value} else {})
        invariant waiting == old(waiting) + Waits(host, old(heard), cursor, early[..i])
      {
        assert early[..i + 1] == early[..i] + [early[i]];
        OneMoreHeard(host, old(heard), cursor, early[..i], early[i]);
        Dispatch(n, early[i]);
      }
      assert early[..|early|] == early;
      current, inside := Some(n), stopped;
    }

    /** One message from observation n, which may be one that is already released. */
    method Dispatch(n: nat, m: Message)
      requires Valid() && n < |cursors|
      modifies this
      ensures Valid() && heard == old(heard) + [Heard(m)]
      ensures cursors == old(cursors) && current == old(current) && inside == old(inside) && (old(stopped) ==> stopped)
      ensures waiting == old(waiting) + (if !old(stopped) && IsFailure(host, Heard(m)) && host.waits
                                         then [if m.cursor.Some? then m.cursor.value else cursors[n]] else [])
      ensures released == old(released) + (if stopped && !old(stopped) && current.Some? then {current.value} else {})
    {
      FoldOfOneMore(host, heard, Heard(m));
      hide Fold;
      heard := heard + [Heard(m)];
      if stopped || !Own(host, m) {
        return;
      }
      if m.failed {
        var shownLast := if last.Some? then last.value else host.project(RUNNING);
        shown := shown + [shownLast.(error := Some(host.failedText))];
        if host.waits {
          waiting := waiting + [if m.cursor.Some? then m.cursor.value else cursors[n]];
        }
        return;
      }
      if m.reset {
        revision := -1;
      }
      if m.revision <= revision {
        return;
      }
      var next := host.project(m.summary);
      shown := shown + [next];
      revision, last := m.revision, Some(next);
      if next.status in TERMINAL {
        Release();
      }
    }

    method Release()
      requires current.Some? ==> current.value < |cursors|
      modifies `stopped, `released
      ensures stopped && released == old(released) + (if current.Some? then {current.value} else {})
    {
      stopped := true;
      if current.Some? {
        released := released + {current.value};
      }
    }

    /** Stopping, which never cancels the run. */
    method StopFeed()
      requires Valid()
      modifies this
      ensures Valid() && heard == old(heard) + [Stop] && stopped
      ensures shown == old(shown) && cursors == old(cursors) && waiting == old(waiting) && current == old(current)
      ensures !inside && released == old(released) + (if current.Some? then {current.value} else {})
    {
      FoldOfOneMore(host, heard, Stop);
      hide Fold;
      heard := heard + [Stop];
      inside := false;
      Release();
    }

    /** A wait that ends: reading resumes from its cursor, unless the feed is over. */
    method Resume(k: nat, early: seq<Message>)
      requires Valid() && k < |waiting|
      modifies this
      ensures Valid()
      ensures old(stopped) ==> waiting == old(waiting)[..k] + old(waiting)[k + 1..]
      ensures old(stopped) ==> heard == old(heard) && shown == old(shown) && cursors == old(cursors)
                               && released == old(released) && current == old(current) && inside == old(inside)
      ensures !old(stopped) ==> heard == old(heard) + Hearing(early) && cursors == old(cursors) + [old(waiting)[k]]
      ensures !old(stopped) ==> current == Some(|old(cursors)|) && (inside <==> stopped)
      ensures !old(stopped) ==> released == old(released) + (if stopped && old(current).Some? then {old(current).value} else {})
      ensures !old(stopped) ==>
                waiting == old(waiting)[..k] + old(waiting)[k + 1..] + Waits(host, old(heard), old(waiting)[k], early)
    {
      var cursor := waiting[k];
      waiting := waiting[..k] + waiting[k + 1..];
      if !stopped {
        Follow(cursor, early);
      }
    }
  }

  function Hearing(early: seq<Message>): seq<Happening> {
    if early == [] then [] else Hearing(early[..|early| - 1]) + [Heard(early[|early| - 1])]
  }

  /** The resumptions that messages from one observation ask for: one for each own failure heard before the feed is over. */
  function Waits(h: Host, past: seq<Happening>, cursor: int, early: seq<Message>): seq<int> {
    if early == [] then []
    else
      var front, m := early[..|early| - 1], early[|early| - 1];
      Waits(h, past, cursor, front)
      + (if !Fold(h, past + Hearing(front)).stopped && IsFailure(h, Heard(m)) && h.waits
         then [if m.cursor.Some? then m.cursor.value else cursor] else [])
  }

  lemma NothingHeard(h: Host, past: seq<Happening>, cursor: int)
    ensures past + Hearing([]) == past && Waits(h, past, cursor, []) == []
  {
  }

  lemma OneMoreHeard(h: Host, past: seq<Happening>, cursor: int, early: seq<Message>, m: Message)
    ensures past + Hearing(early + [m]) == past + Hearing(early) + [Heard(m)]
    ensures Waits(h, past, cursor, early + [m]) == Waits(h, past, cursor, early)
              + (if !Fold(h, past + Hearing(early)).stopped && IsFailure(h, Heard(m)) && h.waits
                 then [if m.cursor.Some? then m.cursor.value else cursor] else [])
  {
    hide Fold, IsFailure;
    assert (early + [m])[..|early|] == early;
  }

  lemma FoldOfOneMore(h: Host, past: seq<Happening>, e: Happening)
    ensures Fold(h, past + [e]) == Step(h, Fold(h, past), e)
  {
    hide Step;
    assert (past + [e])[..|past|] == past;
  }

  /** A first page that ends the run, dispatched inside `observe`: the feed is over and its only observation is not released. */
  lemma TerminalPageInsideEnds(h: Host, m: Message)
    requires IsPage(h, Heard(m)) && m.revision > -1 && h.project(m.summary).status in TERMINAL
    ensures Over(h, Hearing([m]))
  {
    assert [m][..0] == [] && Hearing([m]) == [] + [Heard(m)];
    assert [] + [Heard(m)] == [Heard(m)];
    assert Newest(h, [Heard(m)], 0);
    assert Ends(h, [Heard(m)], 0);
  }

  /** Such a host and page, as the server's own summaries make them. */
  function EndedRun(): (Host, Message) {
    var project := (s: Summary) => ProjectRunSummary(s, "run", [], (t: Summary) => None);
    (Host("run", 0, project, "unreadable", true),
     Message(false, 0, "run", false, 0, Summary("succeeded", None, None, Some("done"), [], None), None))
  }

  lemma EndedRunEndsInside()
    ensures Over(EndedRun().0, Hearing([EndedRun().1]))
  {
    TerminalPageInsideEnds(EndedRun().0, EndedRun().1);
  }

  // Polling instead.

  datatype Reply = Answered(summary: Summary) | Failing

  /** One round of polling: whether the signal is aborted at each place that looks, what the request came to, and whether the wait was cut short. */
  datatype Round = Round(abortedFirst: bool, reply: Reply, abortedThen: bool, cutShort: bool, abortedLast: bool)

  /** How polling ended: with the summary that ended the run, with null, with an error, or not within these rounds. */
  datatype Ending = Ended(summary: Summary) | Aborted | Thrown | Polling

  /** Whether a server's status ends a run; one the host does not know does. */
  predicate EndsRun(summary: Summary) {
    StatusOf(summary.status).None? || StatusOf(summary.status).value in TERMINAL
  }

  /** Polling goes on for a queued or running run alone. */
  lemma OnlyRunningGoesOn(summary: Summary)
    ensures !EndsRun(summary) <==> summary.status == "queued" || summary.status == "running"
  {
    StatusesDiffer();
  }

  /** Polling ends a run on exactly the summaries whose report ends a feed. */
  ghost predicate EndsAlike(h: Host) {
    forall summary :: EndsRun(summary) <==> h.project(summary).status in TERMINAL
  }

  /** The server's own projection ends both alike. */
  lemma ServerProjectionEndsAlike(h: Host, messages: seq<Turn>, notice: Summary -> Option<string>)
    requires forall summary :: h.project(summary) == ProjectRunSummary(summary, h.runId, messages, notice)
    ensures EndsAlike(h)
  {
  }

  /** The pages an observation of the same answers would deliver. */
  function Pages(h: Host, answers: seq<Summary>): seq<Happening> {
    if answers == [] then []
    else
      var n := |answers| - 1;
      Pages(h, answers[..n]) + [Heard(Message(false, h.attempt, h.runId, false, n, answers[n], None))]
  }

  function Projected(h: Host, answers: seq<Summary>): seq<ViewState> {
    if answers == [] then [] else Projected(h, answers[..|answers| - 1]) + [h.project(answers[|answers| - 1])]
  }

  lemma {:induction false} FoldOfPages(h: Host, answers: seq<Summary>)
    requires EndsAlike(h) && forall i :: 0 <= i < |answers| - 1 ==> !EndsRun(answers[i])
    ensures var s := Fold(h, Pages(h, answers));
            && s.revision == |answers| - 1 && s.shown == Projected(h, answers)
            && (s.stopped <==> answers != [] && EndsRun(answers[|answers| - 1]))
  {
    if answers != [] {
      var n := |answers| - 1;
      FoldOfPages(h, answers[..n]);
      assert n > 0 ==> answers[..n][n - 1] == answers[n - 1];
      assert Pages(h, answers)[..|Pages(h, answers)| - 1] == Pages(h, answers[..n]);
    }
  }

  /** Polling and observing the same answers show the view the same reports and end at the same one. */
  lemma PollAndFeedShowTheSame(h: Host, answers: seq<Summary>)
    requires EndsAlike(h) && forall i :: 0 <= i < |answers| - 1 ==> !EndsRun(answers[i])
    ensures Updates(h, Pages(h, answers)) == Projected(h, answers)
    ensures Over(h, Pages(h, answers)) <==> answers != [] && EndsRun(answers[|answers| - 1])
  {
    hide Fold, Updates, Over;
    FoldOfPages(h, answers);
    FeedRefinesHistory(h, Pages(h, answers));
  }

  /** A round that neither ends nor stops the polling. */
  predicate GoesOn(r: Round) {
    !r.abortedFirst && r.reply.Answered? && !r.abortedThen && !EndsRun(r.reply.summary) && !r.cutShort
  }

  /** Each answer replaces the report until the run ends, the signal stops it, or a request fails. */
  method PollRunSummary(rounds: seq<Round>, project: Summary -> ViewState) returns (shown: seq<ViewState>, end: Ending)
    ensures |shown| <= |rounds| && forall i :: 0 <= i < |shown| ==> rounds[i].reply.Answered? && shown[i] == project(rounds[i].reply.summary)
    ensures forall i :: 0 <= i < |shown| - 1 ==> GoesOn(rounds[i])
    ensures end.Ended? <==> shown != [] && EndsRun(rounds[|shown| - 1].reply.summary)
    ensures end.Ended? ==> end.summary == rounds[|shown| - 1].reply.summary
    ensures end.Polling? <==> forall i :: 0 <= i < |rounds| ==> GoesOn(rounds[i])
    ensures end.Aborted? ==> exists i :: 0 <= i < |rounds| && |shown| - 1 <= i <= |shown| && (rounds[i].abortedFirst || rounds[i].abortedThen || rounds[i].abortedLast)
    ensures end.Thrown? ==> exists i :: 0 <= i < |rounds| && |shown| - 1 <= i <= |shown| && !rounds[i].abortedLast && (rounds[i].reply.Failing? || rounds[i].cutShort)
  {
    shown := [];
    for k := 0 to |rounds|
      invariant |shown| == k && forall i :: 0 <= i < k ==> GoesOn(rounds[i]) && shown[i] == project(rounds[i].reply.summary)
    {
      var round := rounds[k];
      if round.abortedFirst {
        return shown, Aborted;
      }
      if round.reply.Failing? {
        return shown, if round.abortedLast then Aborted else Thrown;
      }
      if round.abortedThen {
        return shown, Aborted;
      }
      shown := shown + [project(round.reply.summary)];
      if EndsRun(round.reply.summary) {
        return shown, Ended(round.reply.summary);
      }
      if round.cutShort {
        return shown, if round.abortedLast then Aborted else Thrown;
      }
    }
    end := Polling;
  }
}
