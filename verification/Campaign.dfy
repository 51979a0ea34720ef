/** The policy experiment's phases: census, selection, frozen challenger, confirmation, each run extending a stored report. */
module Campaign {
  import opened Options
  import opened Sequences
  import opened Text

  datatype Phase = Census | Selection | Confirmation
  datatype State = Open | Frozen | Confirmed

  /** The identity of a run: its cell, the split it answers, its tier, and a digest of every control it ran under. */
  datatype Run = Run(cell: string, phase: Phase, live: bool, controls: string)

  /** One cell's answers in one run; `results` holds the successful ones. */
  datatype Attempt = Attempt(run: Run, eligible: bool, results: map<string, string>)

  /** A cell against the inert one: the paired delta, whether the preliminary constraints are met, whether it promotes. */
  datatype Comparison = Comparison(phase: Phase, treatment: string, eligible: bool, mean: real, clears: bool, promotes: bool)

  datatype Report = Report(
    cells: set<string>, inert: string, shipped: string,
    frozen: Option<seq<string>>, shortlist: seq<string>, census: bool,
    attempts: seq<Attempt>, comparisons: seq<Comparison>,
    transition: Option<string>, state: State, decision: Option<string>,
    approved: Option<string>, purchased: nat)

  /** How two attempts compare; the statistics behind it are not part of this model. */
  datatype Judge = Judge(compare: (Attempt, Attempt) -> Comparison)

  predicate Counts(a: Attempt, phase: Phase, cell: string) {
    a.run.live && a.run.phase == phase && a.run.cell == cell && a.eligible
  }

  predicate Answered(r: Report, phase: Phase, cell: string) {
    exists a :: a in r.attempts && Counts(a, phase, cell)
  }

  /** The cells a phase runs over. */
  function PhaseCells(r: Report, phase: Phase): seq<string> {
    if phase == Confirmation then
      [r.inert, r.shipped] + (if r.transition.Some? then [r.transition.value] else [])
    else if r.census then r.shortlist
    else if r.frozen.Some? then r.frozen.value else []
  }

  function Filter(ids: seq<string>, keep: string -> bool): seq<string> {
    if ids == [] then [] else (if keep(ids[0]) then [ids[0]] else []) + Filter(ids[1..], keep)
  }

  lemma {:induction false} FilterKeeps(ids: seq<string>, keep: string -> bool)
    ensures forall id :: id in Filter(ids, keep) <==> id in ids && keep(id)
  {
    if ids != [] {
      FilterKeeps(ids[1..], keep);
      assert ids == [ids[0]] + ids[1..];
    }
  }

  function Pending(r: Report, phase: Phase): seq<string> {
    Filter(PhaseCells(r, phase), id => !Answered(r, phase, id))
  }

  function NotIn(ids: set<string>): string -> bool {
    id => id !in ids
  }

  /** The cells one invocation runs: all of them, a named subset, or the first that is pending. */
  datatype Request = Default | All | These(ids: seq<string>)

  function Planned(r: Report, phase: Phase, request: Request): Option<seq<string>> {
    var cells := PhaseCells(r, phase);
    var plan := if phase == Census || request.All? then Some(cells)
                else if request.These? then
                  if forall id :: id in request.ids ==> id in cells then Some(request.ids) else None
                else Some(if Pending(r, phase) == [] then [] else [Pending(r, phase)[0]]);
    if plan.Some? && plan.value != [] && NoRepeats(plan.value) then plan else None
  }

  /** The registered order of the phases. */
  predicate PhaseIsOpen(r: Report, phase: Phase) {
    && r.frozen.Some?
    && r.decision.None? && r.state != Confirmed
    && match phase
       case Census => !r.census && forall a :: a in r.attempts ==> !a.run.live
       case Selection => r.census && r.transition.None?
       case Confirmation => r.census && r.transition.Some?
  }

  /** Whether a new attempt may join a report. */
  predicate MayJoin(r: Report, added: Attempt) {
    && added.run.cell in r.cells
    && (forall a :: a in r.attempts && a.run.cell == added.run.cell && a.run.phase == added.run.phase && a.run.live == added.run.live ==> a.run == added.run)
    && !(added.run.phase == Confirmation && r.state == Open)
    && (forall a :: a in r.attempts && a.run == added.run ==>
          forall id :: id in a.results ==> id in added.results && added.results[id] == a.results[id])
  }

  function Others(attempts: seq<Attempt>, run: Run): seq<Attempt> {
    if attempts == [] then []
    else (if attempts[0].run == run then [] else [attempts[0]]) + Others(attempts[1..], run)
  }

  lemma {:induction false} OthersAre(attempts: seq<Attempt>, run: Run)
    ensures forall a :: a in Others(attempts, run) <==> a in attempts && a.run != run
  {
    if attempts != [] {
      OthersAre(attempts[1..], run);
      assert attempts == [attempts[0]] + attempts[1..];
    }
  }

  function Merge(r: Report, added: Attempt): Option<Report> {
    if MayJoin(r, added) then Some(r.(attempts := Others(r.attempts, added.run) + [added])) else None
  }

  function MergeAll(r: Report, added: seq<Attempt>): Option<Report>
    decreases |added|
  {
    if added == [] then Some(r) else
    var one := Merge(r, added[0]);
    if one.None? then None else MergeAll(one.value, added[1..])
  }

  /** The live attempts of a phase, as the comparisons read them. */
  function LiveOf(attempts: seq<Attempt>, phase: Phase): seq<Attempt> {
    if attempts == [] then []
    else (if attempts[0].run.live && attempts[0].run.phase == phase then [attempts[0]] else []) + LiveOf(attempts[1..], phase)
  }

  lemma {:induction false} LiveAre(attempts: seq<Attempt>, phase: Phase)
    ensures forall a :: a in LiveOf(attempts, phase) <==> a in attempts && a.run.live && a.run.phase == phase
  {
    if attempts != [] {
      LiveAre(attempts[1..], phase);
      assert attempts == [attempts[0]] + attempts[1..];
    }
  }

  function Find(attempts: seq<Attempt>, cell: string): Option<Attempt> {
    if attempts == [] then None
    else if attempts[0].run.cell == cell then Some(attempts[0])
    else Find(attempts[1..], cell)
  }

  function CompareAll(judge: Judge, attempts: seq<Attempt>, inert: Attempt): seq<Comparison> {
    if attempts == [] then []
    else (if attempts[0].run.cell != inert.run.cell then [judge.compare(attempts[0], inert)] else []) + CompareAll(judge, attempts[1..], inert)
  }

  /** Each of a phase's attempts against the inert one; none when the inert one is missing. */
  function ComparisonsOf(judge: Judge, r: Report, phase: Phase): seq<Comparison> {
    var own := LiveOf(r.attempts, phase);
    var inert := Find(own, r.inert);
    if inert.None? then [] else CompareAll(judge, own, inert.value)
  }

  // Choosing the challenger.

  /** The registered order: the greater paired delta first, ties by ascending cell. */
  predicate Beats(a: Comparison, b: Comparison) {
    a.mean > b.mean || (a.mean == b.mean && Less(a.treatment, b.treatment))
  }

  function Best(pool: seq<Comparison>): Comparison
    requires pool != []
  {
    if |pool| == 1 then pool[0] else
    var rest := Best(pool[1..]);
    if Beats(rest, pool[0]) then rest else pool[0]
  }

  function Only(cs: seq<Comparison>, keep: Comparison -> bool): seq<Comparison> {
    if cs == [] then [] else (if keep(cs[0]) then [cs[0]] else []) + Only(cs[1..], keep)
  }

  function Choose(comparisons: seq<Comparison>, candidates: seq<string>): Option<string> {
    var own := Only(comparisons, (c: Comparison) => c.treatment in candidates && c.eligible);
    if own == [] then None else
    var clearing := Only(own, (c: Comparison) => c.clears);
    Some(Best(if clearing == [] then own else clearing).treatment)
  }

  /** What a phase observed: the cells the census dropped, or the attempts it bought. */
  datatype Outcome = Dropped(ids: set<string>) | Bought(attempts: seq<Attempt>)

  function Candidates(r: Report): seq<string> {
    Filter(PhaseCells(r, Selection), id => id != r.inert && id != r.shipped)
  }

  function Complete(r: Report, cells: seq<string>, phase: Phase): bool {
    forall id :: id in cells ==> Answered(r, phase, id)
  }

  predicate Fits(r: Report, phase: Phase, plan: seq<string>, outcome: Outcome) {
    match outcome
    case Dropped(ids) => phase == Census && r.inert !in ids
    case Bought(attempts) => phase != Census && forall a :: a in attempts ==> a.run.cell in plan && a.run.phase == phase && a.run.live
  }

  function Keep(r: Report, phase: Phase): seq<Comparison> {
    Only(r.comparisons, (c: Comparison) => c.phase != phase)
  }

  /** The comparison of the challenger, if there is one. */
  function Against(cs: seq<Comparison>, cell: string): Option<Comparison> {
    if cs == [] then None else if cs[0].treatment == cell then Some(cs[0]) else Against(cs[1..], cell)
  }

  /** What one authorized run makes of a stored report; None stands for an error that publishes nothing further. */
  function Advance(r: Report, phase: Phase, outcome: Outcome, judge: Judge): Option<Report> {
    match outcome
    case Dropped(ids) =>
      Some(r.(census := true, shortlist := Filter(r.shortlist, NotIn(ids))))
    case Bought(attempts) =>
      if phase == Confirmation && r.transition.None? then None else
      var merged := MergeAll(r, attempts);
      if merged.None? then None else
      var comparisons := ComparisonsOf(judge, merged.value, phase);
      Settle(r, merged.value.(comparisons := Keep(r, phase) + comparisons), phase, comparisons)
  }

  /** Freezes the challenger or decides, once every cell of the phase is answered. */
  function Settle(r: Report, next: Report, phase: Phase, comparisons: seq<Comparison>): Option<Report> {
    if !Complete(next, PhaseCells(r, phase), phase) then Some(next)
    else if phase == Selection then
      Some(next.(transition := Choose(comparisons, Candidates(r))))
    else if phase == Confirmation && r.transition.Some? then
      var c := Against(comparisons, r.transition.value);
      if c.None? || !c.value.eligible then None
      else Some(next.(state := Confirmed, decision := Some(if c.value.promotes then r.transition.value else r.inert)))
    else Some(next)
  }

  method DropCells(shortlist: seq<string>, ids: set<string>) returns (surviving: seq<string>)
    ensures surviving == Filter(shortlist, NotIn(ids))
  {
    surviving := [];
    for i := 0 to |shortlist|
      invariant surviving + Filter(shortlist[i..], NotIn(ids)) == Filter(shortlist, NotIn(ids))
    {
      assert shortlist[i..][1..] == shortlist[i + 1..];
      if shortlist[i] !in ids {
        surviving := surviving + [shortlist[i]];
      }
    }
  }

  method MergeAttempts(r: Report, attempts: seq<Attempt>) returns (merged: Option<Report>)
    ensures merged == MergeAll(r, attempts)
  {
    hide Merge;
    var next := r;
    for i := 0 to |attempts|
      invariant MergeAll(next, attempts[i..]) == MergeAll(r, attempts)
    {
      assert attempts[i..][1..] == attempts[i + 1..];
      var one := Merge(next, attempts[i]);
      if one.None? { return None; }
      next := one.value;
    }
    merged := Some(next);
  }

  /** One authorized run as the script makes it: attempts merged one by one, then compared, then settled. */
  method RunPhase(r: Report, phase: Phase, outcome: Outcome, judge: Judge) returns (next: Option<Report>)
    ensures next == Advance(r, phase, outcome, judge)
  {
    match outcome
    case Dropped(ids) =>
      var surviving := DropCells(r.shortlist, ids);
      next := Some(r.(census := true, shortlist := surviving));
    case Bought(attempts) =>
      if phase == Confirmation && r.transition.None? { return None; }
      var merged := MergeAttempts(r, attempts);
      if merged.None? { return None; }
      var comparisons := ComparisonsOf(judge, merged.value, phase);
      next := Settle(r, merged.value.(comparisons := Keep(r, phase) + comparisons), phase, comparisons);
  }

  // What every report of the campaign satisfies.

  /** The same cell in the same phase of the same tier. */
  predicate SameSlot(a: Run, b: Run) {
    a.cell == b.cell && a.phase == b.phase && a.live == b.live
  }

  /** One run for a cell in a phase of a tier. */
  predicate DistinctRuns(attempts: seq<Attempt>) {
    forall i, j :: 0 <= i < j < |attempts| ==> !SameSlot(attempts[i].run, attempts[j].run)
  }

  /** A live attempt belongs to a phase that was open for it. */
  predicate InOrder(r: Report, a: Attempt) {
    a.run.live ==>
      match a.run.phase
      case Census => false
      case Selection => r.census
      case Confirmation => r.transition.Some? && a.run.cell in PhaseCells(r, Confirmation)
  }

  /** A frozen challenger: the census is in, every surviving cell is answered, and the challenger is one of them and no control. */
  predicate ChallengerStands(r: Report) {
    r.transition.Some? ==>
      && r.frozen.Some? && r.census
      && Complete(r, r.shortlist, Selection)
      && r.transition.value in r.shortlist
      && r.transition.value != r.inert && r.transition.value != r.shipped
  }

  /** A decision: the challenger stands, all three confirmation cells are answered, and the default is the challenger or inert. */
  predicate DecisionStands(r: Report) {
    && (r.state == Confirmed <==> r.decision.Some?)
    && (r.decision.Some? ==>
          && r.transition.Some?
          && Complete(r, [r.inert, r.shipped, r.transition.value], Confirmation)
          && (r.decision.value == r.inert || r.decision.value == r.transition.value))
  }

  predicate Sound(r: Report) {
    && DistinctRuns(r.attempts)
    && (forall a :: a in r.attempts ==> InOrder(r, a))
    && ChallengerStands(r)
    && DecisionStands(r)
  }

  lemma {:induction false} OthersStayDistinct(attempts: seq<Attempt>, run: Run)
    requires DistinctRuns(attempts)
    ensures DistinctRuns(Others(attempts, run))
  {
    if attempts != [] {
      assert DistinctRuns(attempts[1..]);
      OthersStayDistinct(attempts[1..], run);
      OthersAre(attempts[1..], run);
    }
  }

  /** What merging one attempt leaves: the report but for its attempts, all other runs, and the new one. */
  lemma MergeOne(r: Report, a: Attempt)
    requires DistinctRuns(r.attempts) && MayJoin(r, a)
    ensures var m := Merge(r, a).value;
            && m == r.(attempts := m.attempts)
            && DistinctRuns(m.attempts)
            && (forall b :: b in m.attempts <==> b == a || (b in r.attempts && b.run != a.run))
  {
    OthersStayDistinct(r.attempts, a.run);
    OthersAre(r.attempts, a.run);
  }

  /** What merging a phase's attempts leaves: other phases as they were, nothing from elsewhere, and no successful answer changed. */
  ghost predicate Extends(r: Report, m: Report, phase: Phase, added: seq<Attempt>) {
    && m == r.(attempts := m.attempts)
    && DistinctRuns(m.attempts)
    && (forall b :: b in m.attempts ==> b in r.attempts || b in added)
    && (forall b :: b in r.attempts && !(b.run.live && b.run.phase == phase) ==> b in m.attempts)
    && (forall b :: b in r.attempts ==> exists c :: c in m.attempts && Continues(b, c))
  }

  /** The same run, with every successful answer it had. */
  ghost predicate Continues(b: Attempt, c: Attempt) {
    b.run == c.run && forall id :: id in b.results ==> id in c.results && c.results[id] == b.results[id]
  }

  lemma ExtendsNothing(r: Report, phase: Phase)
    requires DistinctRuns(r.attempts)
    ensures Extends(r, r, phase, [])
  {
    forall b | b in r.attempts
      ensures exists c :: c in r.attempts && Continues(b, c)
    {
      assert Continues(b, b);
    }
  }

  lemma ExtendsByOne(r: Report, a: Attempt, phase: Phase)
    requires DistinctRuns(r.attempts) && MayJoin(r, a) && a.run.live && a.run.phase == phase
    ensures Extends(r, Merge(r, a).value, phase, [a])
  {
    MergeOne(r, a);
    hide Merge;
    var one := Merge(r, a).value;
    forall b | b in r.attempts
      ensures exists c :: c in one.attempts && Continues(b, c)
    {
      var c := if b.run == a.run then a else b;
      assert c in one.attempts && Continues(b, c);
    }
  }

  lemma ExtendsThen(r: Report, one: Report, m: Report, phase: Phase, first: seq<Attempt>, more: seq<Attempt>)
    requires Extends(r, one, phase, first) && Extends(one, m, phase, more)
    ensures Extends(r, m, phase, first + more)
  {
    forall b | b in r.attempts
      ensures exists c :: c in m.attempts && Continues(b, c)
    {
      var b' :| b' in one.attempts && Continues(b, b');
      var c :| c in m.attempts && Continues(b', c);
      assert Continues(b, c);
    }
  }

  lemma {:induction false} MergeAllExtends(r: Report, added: seq<Attempt>, phase: Phase)
    requires DistinctRuns(r.attempts) && MergeAll(r, added).Some?
    requires forall a :: a in added ==> a.run.live && a.run.phase == phase
    ensures Extends(r, MergeAll(r, added).value, phase, added)
    decreases |added|
  {
    hide Extends, MayJoin;
    if added == [] {
      ExtendsNothing(r, phase);
    } else {
      var one, m := Merge(r, added[0]).value, MergeAll(r, added).value;
      ExtendsByOne(r, added[0], phase);
      ExtendsDistinct(r, one, phase, [added[0]]);
      MergeAllExtends(one, added[1..], phase);
      ExtendsThen(r, one, m, phase, [added[0]], added[1..]);
      assert [added[0]] + added[1..] == added;
    }
  }

  lemma ExtendsDistinct(r: Report, m: Report, phase: Phase, added: seq<Attempt>)
    requires Extends(r, m, phase, added)
    ensures DistinctRuns(m.attempts)
  {
  }

  lemma ExtendedStaysAnswered(r: Report, m: Report, phase: Phase, added: seq<Attempt>, other: Phase, cells: seq<string>)
    requires Extends(r, m, phase, added) && other != phase && Complete(r, cells, other)
    ensures Complete(m, cells, other)
  {
    forall id | id in cells
      ensures Answered(m, other, id)
    {
      var a :| a in r.attempts && Counts(a, other, id);
      assert a in m.attempts;
    }
  }

  lemma {:induction false} OnlyKeeps(cs: seq<Comparison>, keep: Comparison -> bool)
    ensures forall c :: c in Only(cs, keep) <==> c in cs && keep(c)
  {
    if cs != [] {
      OnlyKeeps(cs[1..], keep);
      assert cs == [cs[0]] + cs[1..];
    }
  }

  lemma {:induction false} BestIsIn(pool: seq<Comparison>)
    requires pool != []
    ensures Best(pool) in pool
  {
    if |pool| > 1 {
      BestIsIn(pool[1..]);
    }
  }

  lemma ChosenIsCandidate(cs: seq<Comparison>, candidates: seq<string>)
    requires Choose(cs, candidates).Some?
    ensures Choose(cs, candidates).value in candidates
    ensures exists c :: c in cs && c.eligible && c.treatment == Choose(cs, candidates).value
  {
    var keep := (c: Comparison) => c.treatment in candidates && c.eligible;
    var clears := (c: Comparison) => c.clears;
    var own := Only(cs, keep);
    OnlyKeeps(cs, keep);
    OnlyKeeps(own, clears);
    var pool := if Only(own, clears) == [] then own else Only(own, clears);
    BestIsIn(pool);
    assert Best(pool) in own;
  }

  lemma MergedIsInOrder(r: Report, m: Report, phase: Phase, added: seq<Attempt>)
    requires Sound(r) && PhaseIsOpen(r, phase) && phase != Census
    requires Extends(r, m, phase, added)
    requires forall a :: a in added ==> a.run.live && a.run.phase == phase && a.run.cell in PhaseCells(r, phase)
    ensures forall a :: a in m.attempts ==> InOrder(m, a)
  {
    hide DistinctRuns, ChallengerStands, DecisionStands;
    forall a | a in m.attempts
      ensures InOrder(m, a)
    {
      assert a in r.attempts ==> InOrder(r, a);
    }
  }

  /** A merged report is sound again, in the phase that was open. */
  lemma MergedIsSound(r: Report, m: Report, phase: Phase, added: seq<Attempt>)
    requires Sound(r) && PhaseIsOpen(r, phase) && phase != Census
    requires Extends(r, m, phase, added)
    requires forall a :: a in added ==> a.run.live && a.run.phase == phase && a.run.cell in PhaseCells(r, phase)
    ensures Sound(m)
  {
    MergedIsInOrder(r, m, phase, added);
    if m.transition.Some? {
      ExtendedStaysAnswered(r, m, phase, added, Selection, r.shortlist);
    }
    hide DistinctRuns, InOrder, Answered;
  }

  /** Freezing and deciding keep a merged report sound. */
  lemma SettleKeepsSound(r: Report, m: Report, next: Report, phase: Phase, cs: seq<Comparison>)
    requires PhaseIsOpen(r, phase) && phase != Census
    requires Sound(m) && m == r.(attempts := m.attempts) && next == m.(comparisons := next.comparisons)
    requires Settle(r, next, phase, cs).Some?
    ensures Sound(Settle(r, next, phase, cs).value)
  {
    SameAnswers(m, next);
    var s := Settle(r, next, phase, cs).value;
    SameAnswers(next, s);
    if phase == Selection && Complete(next, PhaseCells(r, phase), phase) && s.transition.Some? {
      ChosenIsCandidate(cs, Candidates(r));
      FilterKeeps(PhaseCells(r, Selection), id => id != r.inert && id != r.shipped);
    }
  }

  /** Every run keeps the campaign sound. */
  lemma AdvanceKeepsSound(r: Report, phase: Phase, request: Request, outcome: Outcome, judge: Judge)
    requires Sound(r) && PhaseIsOpen(r, phase) && Planned(r, phase, request).Some?
    requires Fits(r, phase, Planned(r, phase, request).value, outcome)
    requires Advance(r, phase, outcome, judge).Some?
    ensures Sound(Advance(r, phase, outcome, judge).value)
  {
    match outcome
    case Dropped(ids) =>
    case Bought(attempts) =>
      PlanIsInPhase(r, phase, request);
      hide Planned, PhaseCells, Settle, MergeAll, Extends, ComparisonsOf;
      assert DistinctRuns(r.attempts);
      MergeAllExtends(r, attempts, phase);
      var m := MergeAll(r, attempts).value;
      MergedIsSound(r, m, phase, attempts);
      ExtendsOnlyAttempts(r, m, phase, attempts);
      var cs := ComparisonsOf(judge, m, phase);
      SettleKeepsSound(r, m, m.(comparisons := Keep(r, phase) + cs), phase, cs);
  }

  lemma ExtendsOnlyAttempts(r: Report, m: Report, phase: Phase, added: seq<Attempt>)
    requires Extends(r, m, phase, added)
    ensures m == r.(attempts := m.attempts)
  {
  }

  lemma SameAnswers(m: Report, next: Report)
    requires m.attempts == next.attempts
    ensures forall phase, cells :: Complete(m, cells, phase) == Complete(next, cells, phase)
  {
    forall phase, id
      ensures Answered(m, phase, id) == Answered(next, phase, id)
    {
    }
  }

  lemma PlanIsInPhase(r: Report, phase: Phase, request: Request)
    requires Planned(r, phase, request).Some?
    ensures forall id :: id in Planned(r, phase, request).value ==> id in PhaseCells(r, phase)
  {
    FilterKeeps(PhaseCells(r, phase), id => !Answered(r, phase, id));
  }

  // What a run may change, and what a finished campaign is.

  /** One run later: the same registration, the census and the challenger stay once made, and no successful answer changes. */
  ghost predicate Later(r: Report, s: Report) {
    && s.cells == r.cells && s.inert == r.inert && s.shipped == r.shipped && s.frozen == r.frozen
    && (r.census ==> s.census && s.shortlist == r.shortlist)
    && (forall id :: id in s.shortlist ==> id in r.shortlist)
    && (r.transition.Some? ==> s.transition == r.transition)
    && (r.decision.Some? ==> s == r)
    && (forall b :: b in r.attempts ==> exists c :: c in s.attempts && Continues(b, c))
  }

  lemma SettleIsLater(r: Report, m: Report, next: Report, phase: Phase, cs: seq<Comparison>, added: seq<Attempt>)
    requires PhaseIsOpen(r, phase) && phase != Census
    requires Extends(r, m, phase, added) && next == m.(comparisons := next.comparisons)
    requires Settle(r, next, phase, cs).Some?
    ensures Later(r, Settle(r, next, phase, cs).value)
  {
    hide Continues, Choose, Candidates, Complete, Against;
  }

  /** Every run only moves the campaign on. */
  lemma AdvanceIsLater(r: Report, phase: Phase, request: Request, outcome: Outcome, judge: Judge)
    requires DistinctRuns(r.attempts) && PhaseIsOpen(r, phase) && Planned(r, phase, request).Some?
    requires Fits(r, phase, Planned(r, phase, request).value, outcome)
    requires Advance(r, phase, outcome, judge).Some?
    ensures Later(r, Advance(r, phase, outcome, judge).value)
  {
    match outcome
    case Dropped(ids) =>
      FilterKeeps(r.shortlist, NotIn(ids));
      forall b | b in r.attempts
        ensures exists c :: c in r.attempts && Continues(b, c)
      {
        assert Continues(b, b);
      }
    case Bought(attempts) =>
      hide Planned, PhaseCells, Settle, MergeAll, Extends, ComparisonsOf, Later;
      MergeAllExtends(r, attempts, phase);
      var m := MergeAll(r, attempts).value;
      var cs := ComparisonsOf(judge, m, phase);
      SettleIsLater(r, m, m.(comparisons := Keep(r, phase) + cs), phase, cs, attempts);
  }

  /** A confirmed report has gone through every phase in order, and its default is inert or the challenger. */
  lemma ConfirmedWentThroughEveryPhase(r: Report)
    requires Sound(r) && r.state == Confirmed
    ensures r.census && r.transition.Some? && r.decision.Some?
    ensures forall id :: id in r.shortlist ==> Answered(r, Selection, id)
    ensures r.transition.value in r.shortlist && r.transition.value !in {r.inert, r.shipped}
    ensures forall id :: id in [r.inert, r.shipped, r.transition.value] ==> Answered(r, Confirmation, id)
    ensures forall a :: a in r.attempts && a.run.live && a.run.phase == Confirmation ==> a.run.cell in [r.inert, r.shipped, r.transition.value]
    ensures r.decision.value in {r.inert, r.transition.value}
    ensures forall phase :: !PhaseIsOpen(r, phase)
  {
    assert PhaseCells(r, Confirmation) == [r.inert, r.shipped, r.transition.value];
  }

  /** The default plan is the first pending cell. */
  lemma DefaultPlan(r: Report, phase: Phase)
    requires phase != Census && Planned(r, phase, Default).Some?
    ensures Pending(r, phase) != [] && Planned(r, phase, Default).value == [Pending(r, phase)[0]]
    ensures forall id :: id in Pending(r, phase) <==> id in PhaseCells(r, phase) && !Answered(r, phase, id)
  {
    hide PhaseCells, Answered;
    FilterKeeps(PhaseCells(r, phase), id => !Answered(r, phase, id));
  }

  lemma BoughtIsMerged(r: Report, phase: Phase, added: seq<Attempt>, judge: Judge)
    requires Advance(r, phase, Bought(added), judge).Some?
    ensures MergeAll(r, added).Some? && Advance(r, phase, Bought(added), judge).value.attempts == MergeAll(r, added).value.attempts
  {
    hide MergeAll, ComparisonsOf, Choose, Against, Complete;
  }

  /** A default run that bought an eligible answer leaves its cell out of what is pending, and nothing else comes in. */
  lemma DefaultRunReducesPending(r: Report, phase: Phase, added: seq<Attempt>, judge: Judge)
    requires Sound(r) && PhaseIsOpen(r, phase) && phase != Census && Planned(r, phase, Default).Some?
    requires Fits(r, phase, Planned(r, phase, Default).value, Bought(added))
    requires Advance(r, phase, Bought(added), judge).Some?
    requires exists a :: a in added && a.eligible && forall b :: b in added ==> b == a
    ensures var s := Advance(r, phase, Bought(added), judge).value; var cell := Pending(r, phase)[0];
            && cell in Pending(r, phase)
            && forall id :: id in PhaseCells(r, phase) ==> (!Answered(s, phase, id) <==> id in Pending(r, phase) && id != cell)
  {
    assert DistinctRuns(r.attempts);
    hide Advance, MergeAll, Planned, Pending, PhaseCells, Sound, PhaseIsOpen, Extends, Answered;
    DefaultPlan(r, phase);
    var cell := Pending(r, phase)[0];
    var a :| a in added && a.eligible && forall b :: b in added ==> b == a;
    assert Counts(a, phase, cell) && a.run.cell == cell;
    BoughtIsMerged(r, phase, added, judge);
    MergeAllExtends(r, added, phase);
    MergeAllHolds(r, added, a);
    hide Counts;
    var m, s := MergeAll(r, added).value, Advance(r, phase, Bought(added), judge).value;
    forall id
      ensures Answered(s, phase, id) <==> Answered(r, phase, id) || id == cell
    {
      AnsweredAfter(r, m, phase, added, a, id);
      SameAttempts(m, s, phase, id);
    }
  }

  lemma SameAttempts(m: Report, s: Report, phase: Phase, id: string)
    requires s.attempts == m.attempts
    ensures Answered(s, phase, id) <==> Answered(m, phase, id)
  {
  }

  lemma AnsweredAfter(r: Report, m: Report, phase: Phase, added: seq<Attempt>, a: Attempt, id: string)
    requires DistinctRuns(r.attempts) && Extends(r, m, phase, added)
    requires a in m.attempts && a in added && Counts(a, phase, a.run.cell) && forall b :: b in added ==> b == a
    ensures Answered(m, phase, id) <==> Answered(r, phase, id) || id == a.run.cell
  {
    if id == a.run.cell {
      assert Counts(a, phase, id);
    } else if Answered(r, phase, id) {
      var c :| c in r.attempts && Counts(c, phase, id);
      OtherRunStays(r, m, phase, added, c);
    }
  }

  lemma {:induction false} MergeAllHolds(r: Report, added: seq<Attempt>, a: Attempt)
    requires DistinctRuns(r.attempts) && MergeAll(r, added).Some?
    requires a in added || (a in r.attempts && forall b :: b in added ==> b.run != a.run)
    requires forall b :: b in added && b.run == a.run ==> b == a
    ensures a in MergeAll(r, added).value.attempts
    decreases |added|
  {
    if added != [] {
      MergeOne(r, added[0]);
      var one := Merge(r, added[0]).value;
      assert added == [added[0]] + added[1..];
      if a in added[1..] || added[0] == a {
        if a !in added[1..] {
          assert forall b :: b in added[1..] ==> b.run != a.run;
        }
      }
      MergeAllHolds(one, added[1..], a);
    }
  }

  lemma OtherRunStays(r: Report, m: Report, phase: Phase, added: seq<Attempt>, c: Attempt)
    requires Extends(r, m, phase, added) && c in r.attempts && DistinctRuns(r.attempts)
    requires forall b :: b in added ==> b.run.cell != c.run.cell
    ensures c in m.attempts
  {
    hide DistinctRuns;
    var d :| d in m.attempts && Continues(c, d);
    assert d in r.attempts;
    SlotHoldsOne(r.attempts, c, d);
  }

  lemma SlotHoldsOne(attempts: seq<Attempt>, a: Attempt, b: Attempt)
    requires DistinctRuns(attempts) && a in attempts && b in attempts && SameSlot(a.run, b.run)
    ensures a == b
  {
    var i :| 0 <= i < |attempts| && attempts[i] == a;
    var j :| 0 <= j < |attempts| && attempts[j] == b;
    assert i == j;
  }

  // The registered rule.

  lemma BeatsIsTransitive(a: Comparison, b: Comparison, c: Comparison)
    requires Beats(a, b) && Beats(b, c)
    ensures Beats(a, c)
  {
    if a.mean == b.mean == c.mean {
      LessIsTransitive(a.treatment, b.treatment, c.treatment);
    }
  }

  lemma {:induction false} BestIsUnbeaten(pool: seq<Comparison>)
    requires pool != []
    ensures Best(pool) in pool
    ensures forall c :: c in pool ==> c == Best(pool) || !Beats(c, Best(pool))
    ensures forall c :: c in pool && c.treatment != Best(pool).treatment ==> Beats(Best(pool), c)
  {
    if |pool| > 1 {
      var rest := Best(pool[1..]);
      BestIsUnbeaten(pool[1..]);
      LessIsStrict(rest.treatment, pool[0].treatment);
      assert pool == [pool[0]] + pool[1..];
      forall c | c in pool
        ensures c == Best(pool) || !Beats(c, Best(pool))
        ensures c.treatment != Best(pool).treatment ==> Beats(Best(pool), c)
      {
        BestAgainst(rest, pool[0], c, pool[1..]);
      }
    }
  }

  lemma BestAgainst(rest: Comparison, head: Comparison, c: Comparison, tail: seq<Comparison>)
    requires c == head || (c in tail && (c == rest || !Beats(c, rest)) && (c.treatment != rest.treatment ==> Beats(rest, c)))
    ensures var best := if Beats(rest, head) then rest else head;
            && (c == best || !Beats(c, best))
            && (c.treatment != best.treatment ==> Beats(best, c))
  {
    LessIsStrict(rest.treatment, head.treatment);
    LessIsStrict(c.treatment, rest.treatment);
    LessIsStrict(c.treatment, head.treatment);
    if !Beats(rest, head) && c != head && Beats(c, head) {
      if c.treatment != rest.treatment {
        BeatsIsTransitive(rest, c, head);
      }
    }
    if !Beats(rest, head) && c.treatment != head.treatment && !Beats(head, c) {
      assert Beats(c, head);
    }
  }

  /** The challenger is the registered one: eligible, a candidate, clearing the constraints if any does, and ahead of every other such cell. */
  lemma ChallengerIsTheRegisteredOne(cs: seq<Comparison>, candidates: seq<string>)
    ensures Choose(cs, candidates).None? <==> forall c :: c in cs ==> !(c.eligible && c.treatment in candidates)
    ensures Choose(cs, candidates).Some? ==>
              exists best :: best in cs && best.eligible && best.treatment in candidates && best.treatment == Choose(cs, candidates).value
                && ((exists c :: c in cs && c.eligible && c.treatment in candidates && c.clears) ==> best.clears)
                && forall c :: c in cs && c.eligible && c.treatment in candidates && (best.clears ==> c.clears) && c.treatment != best.treatment ==> Beats(best, c)
  {
    var keep := (c: Comparison) => c.treatment in candidates && c.eligible;
    var clears := (c: Comparison) => c.clears;
    var own := Only(cs, keep);
    OnlyKeeps(cs, keep);
    OnlyKeeps(own, clears);
    if own == [] {
      forall c | c in cs
        ensures !(c.eligible && c.treatment in candidates)
      {
        assert c !in own;
      }
    } else {
      assert own[0] in own;
      var clearing := Only(own, clears);
      var pool := if clearing == [] then own else clearing;
      BestIsUnbeaten(pool);
      var best := Best(pool);
      forall c | c in cs && c.eligible && c.treatment in candidates && (best.clears ==> c.clears) && c.treatment != best.treatment
        ensures Beats(best, c)
      {
        assert c in own;
        assert c in pool;
      }
    }
  }
}
