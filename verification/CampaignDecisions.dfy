/** What a run of the policy experiment settles: the comparisons it records, the challenger it freezes, the default it decides. */
module CampaignDecisions {
  import opened Options
  import opened Text
  import opened Campaign

  /** A comparison carries the cell and the phase of the attempt that was judged. */
  ghost predicate Names(judge: Judge) {
    forall a, b :: judge.compare(a, b).treatment == a.run.cell && judge.compare(a, b).phase == a.run.phase
  }

  predicate OfPhase(a: Attempt, phase: Phase) {
    a.run.live && a.run.phase == phase
  }

  /** A live attempt of a cell in a phase, in this report. */
  predicate Ran(r: Report, phase: Phase, cell: string, a: Attempt) {
    a in r.attempts && OfPhase(a, phase) && a.run.cell == cell
  }

  /** The judge's comparison of two live attempts of a phase, another cell's against the inert one's. */
  ghost predicate Judged(judge: Judge, r: Report, phase: Phase, x: Comparison) {
    exists a: Attempt, b: Attempt :: a.run.cell != r.inert && Ran(r, phase, a.run.cell, a) && Ran(r, phase, r.inert, b) && x == judge.compare(a, b)
  }

  lemma {:induction false} FindIs(attempts: seq<Attempt>, cell: string)
    ensures Find(attempts, cell).Some? <==> exists a :: a in attempts && a.run.cell == cell
    ensures Find(attempts, cell).Some? ==> Find(attempts, cell).value in attempts && Find(attempts, cell).value.run.cell == cell
  {
    if attempts != [] {
      FindIs(attempts[1..], cell);
      assert attempts == [attempts[0]] + attempts[1..];
    }
  }

  lemma {:induction false} CompareAllIs(judge: Judge, attempts: seq<Attempt>, inert: Attempt)
    ensures forall x :: x in CompareAll(judge, attempts, inert) <==>
              exists a :: a in attempts && a.run.cell != inert.run.cell && x == judge.compare(a, inert)
  {
    if attempts != [] {
      CompareAllIs(judge, attempts[1..], inert);
      assert attempts == [attempts[0]] + attempts[1..];
    }
  }

  /** The comparisons of a phase are the judge's, of each other cell's attempt against the inert one's. */
  lemma ComparisonsAreJudged(judge: Judge, r: Report, phase: Phase)
    requires DistinctRuns(r.attempts)
    ensures forall x :: x in ComparisonsOf(judge, r, phase) <==> Judged(judge, r, phase, x)
  {
    var own := LiveOf(r.attempts, phase);
    LiveAre(r.attempts, phase);
    FindIs(own, r.inert);
    var inert := Find(own, r.inert);
    if inert.Some? {
      CompareAllIs(judge, own, inert.value);
      hide DistinctRuns, LiveOf, Find, CompareAll;
      forall b | Ran(r, phase, r.inert, b)
        ensures b == inert.value
      {
        SlotHoldsOne(r.attempts, b, inert.value);
      }
      assert Ran(r, phase, r.inert, inert.value);
    }
  }

  lemma {:induction false} AgainstIs(cs: seq<Comparison>, cell: string)
    ensures Against(cs, cell).Some? <==> exists c :: c in cs && c.treatment == cell
    ensures Against(cs, cell).Some? ==> Against(cs, cell).value in cs && Against(cs, cell).value.treatment == cell
  {
    if cs != [] {
      AgainstIs(cs[1..], cell);
      assert cs == [cs[0]] + cs[1..];
    }
  }

  // What a run records.

  /** What a buying run leaves besides the challenger and the decision. */
  lemma RunRecords(r: Report, phase: Phase, attempts: seq<Attempt>, judge: Judge)
    requires Advance(r, phase, Bought(attempts), judge).Some?
    ensures MergeAll(r, attempts).Some?
    ensures var s, m := Advance(r, phase, Bought(attempts), judge).value, MergeAll(r, attempts).value;
            && s.attempts == m.attempts
            && s.comparisons == Keep(r, phase) + ComparisonsOf(judge, m, phase)
            && s.cells == m.cells && s.inert == m.inert && s.shipped == m.shipped && s.shortlist == m.shortlist
  {
    hide MergeAll, ComparisonsOf, Choose, Against, Complete, Keep;
  }

  lemma MergedIs(r: Report, phase: Phase, request: Request, attempts: seq<Attempt>)
    requires Sound(r) && Planned(r, phase, request).Some? && Fits(r, phase, Planned(r, phase, request).value, Bought(attempts))
    requires MergeAll(r, attempts).Some?
    ensures var m := MergeAll(r, attempts).value; DistinctRuns(m.attempts) && m == r.(attempts := m.attempts)
  {
    assert DistinctRuns(r.attempts);
    hide Sound, Planned, MergeAll;
    MergeAllExtends(r, attempts, phase);
  }

  /** The comparisons a run leaves for its phase are exactly the judge's of that phase's attempts; those of other phases are as they were. */
  lemma RunRecordsItsComparisons(r: Report, phase: Phase, request: Request, attempts: seq<Attempt>, judge: Judge)
    requires Sound(r) && Planned(r, phase, request).Some? && Fits(r, phase, Planned(r, phase, request).value, Bought(attempts))
    requires Names(judge) && Advance(r, phase, Bought(attempts), judge).Some?
    ensures var s := Advance(r, phase, Bought(attempts), judge).value;
            && DistinctRuns(s.attempts) && s.inert == r.inert && s.shipped == r.shipped && s.shortlist == r.shortlist
            && (forall x :: x in s.comparisons && x.phase == phase <==> Judged(judge, s, phase, x))
            && (forall x: Comparison :: x.phase != phase ==> (x in s.comparisons <==> x in r.comparisons))
  {
    RunRecords(r, phase, attempts, judge);
    MergedIs(r, phase, request, attempts);
    var s, m := Advance(r, phase, Bought(attempts), judge).value, MergeAll(r, attempts).value;
    ComparisonsAreJudged(judge, m, phase);
    OnlyKeeps(r.comparisons, (c: Comparison) => c.phase != phase);
    hide Advance, MergeAll, ComparisonsOf, Only, DistinctRuns, Sound, Planned, Judged;
    JudgedElsewhere(judge, m, s, phase);
  }

  lemma JudgedElsewhere(judge: Judge, m: Report, s: Report, phase: Phase)
    requires Names(judge) && s.attempts == m.attempts && s.inert == m.inert
    ensures forall x :: Judged(judge, m, phase, x) ==> Judged(judge, s, phase, x) && x.phase == phase
    ensures forall x :: Judged(judge, s, phase, x) ==> Judged(judge, m, phase, x)
  {
    forall a, phase, cell
      ensures Ran(m, phase, cell, a) == Ran(s, phase, cell, a)
    {
    }
  }

  // The decision.

  /** A decision as its comparison has it: the judge compared the live confirmation attempts of challenger and inert cell, and the challenger is the default exactly if that promotes it. */
  ghost predicate DecidedBy(s: Report, judge: Judge) {
    && s.state == Confirmed && s.transition.Some?
    && exists a, b :: Ran(s, Confirmation, s.transition.value, a) && Ran(s, Confirmation, s.inert, b) && a.eligible && b.eligible
         && var x := judge.compare(a, b);
            && x in s.comparisons && x.eligible
            && (s.decision == Some(s.transition.value) <==> x.promotes)
            && (s.decision == Some(s.inert) <==> !x.promotes)
  }

  /** The three cells of the confirmation are answered. */
  predicate AllThreeAnswered(s: Report) {
    && s.transition.Some?
    && Answered(s, Confirmation, s.inert) && Answered(s, Confirmation, s.shipped) && Answered(s, Confirmation, s.transition.value)
  }

  /** What a confirmation run makes of the merged report. */
  lemma ConfirmationOf(r: Report, attempts: seq<Attempt>, judge: Judge)
    requires r.transition.Some? && MergeAll(r, attempts).Some? && MergeAll(r, attempts).value == r.(attempts := MergeAll(r, attempts).value.attempts)
    ensures var m := MergeAll(r, attempts).value; var c := Against(ComparisonsOf(judge, m, Confirmation), r.transition.value);
            var out := Advance(r, Confirmation, Bought(attempts), judge);
            && (out.None? <==> AllThreeAnswered(m) && !(c.Some? && c.value.eligible))
            && (out.Some? ==>
                  && (AllThreeAnswered(out.value) <==> AllThreeAnswered(m)) && out.value.transition == r.transition
                  && (AllThreeAnswered(m) ==>
                        && out.value.state == Confirmed
                        && out.value.decision == Some(if c.value.promotes then r.transition.value else r.inert))
                  && (!AllThreeAnswered(m) ==> out.value.state == r.state && out.value.decision == r.decision))
  {
    hide MergeAll, ComparisonsOf, Against, Keep;
    var m := MergeAll(r, attempts).value;
    var next := m.(comparisons := Keep(r, Confirmation) + ComparisonsOf(judge, m, Confirmation));
    assert PhaseCells(r, Confirmation) == [r.inert, r.shipped, r.transition.value];
    SameAnswers(m, next);
    ThreeCells(next);
    var out := Advance(r, Confirmation, Bought(attempts), judge);
    if out.Some? {
      SameThree(m, out.value);
    }
    SameThree(m, next);
  }

  lemma ThreeCells(m: Report)
    requires m.transition.Some?
    ensures Complete(m, [m.inert, m.shipped, m.transition.value], Confirmation) <==> AllThreeAnswered(m)
  {
    var cells := [m.inert, m.shipped, m.transition.value];
    assert cells[0] in cells && cells[1] in cells && cells[2] in cells;
    hide Answered;
  }

  lemma SameThree(m: Report, s: Report)
    requires s.attempts == m.attempts && s.inert == m.inert && s.shipped == m.shipped && s.transition == m.transition
    ensures AllThreeAnswered(s) <==> AllThreeAnswered(m)
  {
    if m.transition.Some? {
      SameAttempts(m, s, Confirmation, m.inert);
      SameAttempts(m, s, Confirmation, m.shipped);
      SameAttempts(m, s, Confirmation, m.transition.value);
    }
    hide Answered;
  }

  lemma AnsweredRan(r: Report, phase: Phase, cell: string)
    requires Answered(r, phase, cell)
    ensures exists a :: Ran(r, phase, cell, a) && a.eligible
  {
    var a :| a in r.attempts && Counts(a, phase, cell);
    assert Ran(r, phase, cell, a);
  }

  /** With all three cells answered, the comparison of the challenger is the judge's of its attempt and the inert one's. */
  lemma ChallengerIsCompared(m: Report, judge: Judge, challenger: string)
    requires DistinctRuns(m.attempts) && Names(judge) && challenger != m.inert
    requires Answered(m, Confirmation, m.inert) && Answered(m, Confirmation, challenger)
    ensures var c := Against(ComparisonsOf(judge, m, Confirmation), challenger);
            && c.Some? && c.value in ComparisonsOf(judge, m, Confirmation)
            && exists a, b :: Ran(m, Confirmation, challenger, a) && Ran(m, Confirmation, m.inert, b) && a.eligible && b.eligible && c.value == judge.compare(a, b)
  {
    AnsweredRan(m, Confirmation, m.inert);
    AnsweredRan(m, Confirmation, challenger);
    ComparisonsAreJudged(judge, m, Confirmation);
    var cs := ComparisonsOf(judge, m, Confirmation);
    AgainstIs(cs, challenger);
    hide Answered, ComparisonsOf, Against, DistinctRuns;
    var a :| Ran(m, Confirmation, challenger, a) && a.eligible;
    var b :| Ran(m, Confirmation, m.inert, b) && b.eligible;
    assert Judged(judge, m, Confirmation, judge.compare(a, b));
    assert judge.compare(a, b) in cs;
    var c := Against(cs, challenger).value;
    assert Judged(judge, m, Confirmation, c);
    var a': Attempt, b': Attempt :| a'.run.cell != m.inert && Ran(m, Confirmation, a'.run.cell, a') && Ran(m, Confirmation, m.inert, b') && c == judge.compare(a', b');
    assert a'.run.cell == challenger;
    SlotHoldsOne(m.attempts, a, a');
    SlotHoldsOne(m.attempts, b, b');
  }

  /** A confirmation run decides exactly when its three cells are answered, and then as the comparison of the challenger has it. */
  lemma ConfirmationDecides(r: Report, request: Request, attempts: seq<Attempt>, judge: Judge)
    requires Sound(r) && PhaseIsOpen(r, Confirmation) && Planned(r, Confirmation, request).Some?
    requires Fits(r, Confirmation, Planned(r, Confirmation, request).value, Bought(attempts))
    requires Names(judge) && Advance(r, Confirmation, Bought(attempts), judge).Some?
    ensures var s := Advance(r, Confirmation, Bought(attempts), judge).value;
            && s.transition == r.transition
            && (s.decision.Some? <==> AllThreeAnswered(s))
            && (s.decision.Some? ==> DecidedBy(s, judge))
            && (s.decision.None? ==> s.state == r.state)
  {
    RunRecords(r, Confirmation, attempts, judge);
    MergedIs(r, Confirmation, request, attempts);
    ConfirmationOf(r, attempts, judge);
    ChallengerIsNoControl(r);
    assert r.decision.None?;
    hide Sound, PhaseIsOpen, Planned, Advance, MergeAll, ComparisonsOf, Against, Keep, DistinctRuns, Answered, Names;
    var s, m := Advance(r, Confirmation, Bought(attempts), judge).value, MergeAll(r, attempts).value;
    SameThree(m, s);
    if AllThreeAnswered(m) {
      ChallengerIsCompared(m, judge, r.transition.value);
      var c := Against(ComparisonsOf(judge, m, Confirmation), r.transition.value).value;
      var a, b :| Ran(m, Confirmation, r.transition.value, a) && Ran(m, Confirmation, m.inert, b) && a.eligible && b.eligible && c == judge.compare(a, b);
      assert Ran(s, Confirmation, s.transition.value, a) && Ran(s, Confirmation, s.inert, b);
      assert c in s.comparisons;
    }
  }

  lemma ChallengerIsNoControl(r: Report)
    requires Sound(r) && PhaseIsOpen(r, Confirmation)
    ensures r.transition.Some? && r.transition.value != r.inert && r.transition.value != r.shipped
  {
  }

  /** A confirmation run fails exactly when an attempt is refused, or all three cells are answered and the comparison is not eligible. */
  lemma ConfirmationFailsIff(r: Report, request: Request, attempts: seq<Attempt>, judge: Judge)
    requires Sound(r) && PhaseIsOpen(r, Confirmation) && Planned(r, Confirmation, request).Some?
    requires Fits(r, Confirmation, Planned(r, Confirmation, request).value, Bought(attempts)) && Names(judge)
    ensures Advance(r, Confirmation, Bought(attempts), judge).None? <==>
              || MergeAll(r, attempts).None?
              || (var m := MergeAll(r, attempts).value;
                  AllThreeAnswered(m) && exists a, b :: Ran(m, Confirmation, r.transition.value, a) && Ran(m, Confirmation, r.inert, b) && !judge.compare(a, b).eligible)
  {
    ChallengerIsNoControl(r);
    if MergeAll(r, attempts).None? {
      hide MergeAll;
    } else {
      MergedIs(r, Confirmation, request, attempts);
      ConfirmationOf(r, attempts, judge);
      hide Sound, PhaseIsOpen, Planned, Advance, MergeAll, ComparisonsOf, Against, Answered, Names;
      var m := MergeAll(r, attempts).value;
      if AllThreeAnswered(m) {
        ChallengerIsCompared(m, judge, r.transition.value);
        forall a, b, a', b' | Ran(m, Confirmation, r.transition.value, a) && Ran(m, Confirmation, r.inert, b)
                              && Ran(m, Confirmation, r.transition.value, a') && Ran(m, Confirmation, r.inert, b')
          ensures a == a' && b == b'
        {
          SlotHoldsOne(m.attempts, a, a');
          SlotHoldsOne(m.attempts, b, b');
        }
      }
    }
  }

  // The challenger.

  /** A comparison a challenger may come from. */
  predicate Nominates(s: Report, x: Comparison) {
    && x in s.comparisons && x.phase == Selection && x.eligible
    && x.treatment in s.shortlist && x.treatment != s.inert && x.treatment != s.shipped
  }

  /** Ahead by the delta, then by the cell. */
  predicate Ahead(x: Comparison, y: Comparison) {
    x.mean > y.mean || (x.mean == y.mean && Less(x.treatment, y.treatment))
  }

  /** The registered rule: among those that clear the constraints if any does, the one ahead of all others. */
  ghost predicate IsRegisteredChoice(s: Report, best: Comparison) {
    && Nominates(s, best)
    && ((exists c :: Nominates(s, c) && c.clears) ==> best.clears)
    && forall c :: Nominates(s, c) && (best.clears ==> c.clears) && c.treatment != best.treatment ==> Ahead(best, c)
  }

  /** What a selection run makes of the merged report. */
  lemma SelectionOf(r: Report, attempts: seq<Attempt>, judge: Judge)
    requires PhaseIsOpen(r, Selection) && MergeAll(r, attempts).Some?
    requires MergeAll(r, attempts).value == r.(attempts := MergeAll(r, attempts).value.attempts)
    ensures var m := MergeAll(r, attempts).value; var out := Advance(r, Selection, Bought(attempts), judge);
            && out.Some? && out.value.state == r.state && out.value.decision == r.decision && out.value.census
            && (Complete(out.value, r.shortlist, Selection) ==> out.value.transition == Choose(ComparisonsOf(judge, m, Selection), Candidates(r)))
            && (!Complete(out.value, r.shortlist, Selection) ==> out.value.transition.None?)
  {
    hide MergeAll, ComparisonsOf, Choose, Keep, Candidates;
    var m := MergeAll(r, attempts).value;
    var next := m.(comparisons := Keep(r, Selection) + ComparisonsOf(judge, m, Selection));
    assert PhaseCells(r, Selection) == r.shortlist;
    SameAnswers(next, Advance(r, Selection, Bought(attempts), judge).value);
  }

  lemma CandidatesAre(r: Report)
    requires r.census
    ensures forall id :: id in Candidates(r) <==> id in r.shortlist && id != r.inert && id != r.shipped
  {
    FilterKeeps(PhaseCells(r, Selection), id => id != r.inert && id != r.shipped);
  }

  /** A selection run never fails but on a refused attempt; it freezes a challenger exactly when every surviving cell is answered and some comparison nominates one, and that is the registered choice. */
  lemma SelectionFreezes(r: Report, request: Request, attempts: seq<Attempt>, judge: Judge)
    requires Sound(r) && PhaseIsOpen(r, Selection) && Planned(r, Selection, request).Some?
    requires Fits(r, Selection, Planned(r, Selection, request).value, Bought(attempts)) && Names(judge)
    ensures Advance(r, Selection, Bought(attempts), judge).Some? <==> MergeAll(r, attempts).Some?
    ensures MergeAll(r, attempts).Some? ==>
              var s := Advance(r, Selection, Bought(attempts), judge).value;
              && s.state == r.state && s.decision.None?
              && (s.transition.Some? <==> (forall id :: id in s.shortlist ==> Answered(s, Selection, id)) && exists x :: Nominates(s, x))
              && (s.transition.Some? ==> exists best :: IsRegisteredChoice(s, best) && s.transition == Some(best.treatment))
  {
    if MergeAll(r, attempts).Some? {
      MergedIs(r, Selection, request, attempts);
      SelectionOf(r, attempts, judge);
      RunRecordsItsComparisons(r, Selection, request, attempts, judge);
      var s, m := Advance(r, Selection, Bought(attempts), judge).value, MergeAll(r, attempts).value;
      var cs := ComparisonsOf(judge, m, Selection);
      assert s.decision.None?;
      RunRecords(r, Selection, attempts, judge);
      ComparisonsAreJudged(judge, m, Selection);
      JudgedElsewhere(judge, m, s, Selection);
      CandidatesAre(s);
      hide Advance, MergeAll, ComparisonsOf, Keep, DistinctRuns, Sound, Planned, Answered, Judged, Candidates, PhaseIsOpen, Names, Choose;
      CandidatesOfSame(r, s);
      forall x
        ensures Nominates(s, x) <==> x in cs && x.eligible && x.treatment in Candidates(r)
      {
      }
      if Complete(s, r.shortlist, Selection) {
        ChoiceIsRegistered(s, cs, Candidates(r));
      }
    }
  }

  lemma CandidatesOfSame(r: Report, s: Report)
    requires r.census && s.census && s.shortlist == r.shortlist && s.inert == r.inert && s.shipped == r.shipped
    ensures forall id :: id in Candidates(s) <==> id in Candidates(r)
  {
    CandidatesAre(r);
    CandidatesAre(s);
  }

  lemma ChoiceIsRegistered(s: Report, cs: seq<Comparison>, candidates: seq<string>)
    requires forall x :: Nominates(s, x) <==> x in cs && x.eligible && x.treatment in candidates
    ensures Choose(cs, candidates).Some? <==> exists x :: Nominates(s, x)
    ensures Choose(cs, candidates).Some? ==> exists best :: IsRegisteredChoice(s, best) && Choose(cs, candidates) == Some(best.treatment)
  {
    ChallengerIsTheRegisteredOne(cs, candidates);
    hide Choose, Nominates;
    if Choose(cs, candidates).Some? {
      var best :| best in cs && best.eligible && best.treatment in candidates && best.treatment == Choose(cs, candidates).value
        && ((exists c :: c in cs && c.eligible && c.treatment in candidates && c.clears) ==> best.clears)
        && forall c :: c in cs && c.eligible && c.treatment in candidates && (best.clears ==> c.clears) && c.treatment != best.treatment ==> Beats(best, c);
      assert IsRegisteredChoice(s, best);
    }
  }

  // What joins a report.

  /** Every attempt is of a registered cell, and none is of the confirmation while the report is open. */
  predicate Registered(r: Report) {
    forall a :: a in r.attempts ==> a.run.cell in r.cells && (a.run.phase == Confirmation ==> r.state != Open)
  }

  lemma {:induction false} MergedIsRegistered(r: Report, added: seq<Attempt>)
    requires DistinctRuns(r.attempts) && Registered(r) && MergeAll(r, added).Some?
    ensures Registered(MergeAll(r, added).value) && MergeAll(r, added).value.cells == r.cells
    decreases |added|
  {
    if added != [] {
      MergeOne(r, added[0]);
      MergedIsRegistered(Merge(r, added[0]).value, added[1..]);
    }
  }

  /** Every run keeps the attempts registered, and never answers a held-out question while the report is open. */
  lemma AdvanceKeepsRegistered(r: Report, phase: Phase, outcome: Outcome, judge: Judge)
    requires DistinctRuns(r.attempts) && Registered(r) && r.state != Confirmed && Advance(r, phase, outcome, judge).Some?
    ensures Registered(Advance(r, phase, outcome, judge).value)
  {
    if outcome.Bought? {
      RunRecords(r, phase, outcome.attempts, judge);
      MergedIsRegistered(r, outcome.attempts);
      MergeKeepsState(r, outcome.attempts);
      StateOnlyAdvances(r, phase, outcome.attempts, judge);
      hide Advance, MergeAll, ComparisonsOf, Keep, DistinctRuns;
    }
  }

  lemma StateOnlyAdvances(r: Report, phase: Phase, attempts: seq<Attempt>, judge: Judge)
    requires MergeAll(r, attempts).Some? && Advance(r, phase, Bought(attempts), judge).Some?
    ensures var s := Advance(r, phase, Bought(attempts), judge).value; s.state == MergeAll(r, attempts).value.state || s.state == Confirmed
  {
    hide MergeAll, ComparisonsOf, Choose, Complete, Keep, Against;
  }

  /** A cell is answered by a live, eligible attempt of its phase, and by nothing else. */
  lemma AnsweredIff(r: Report, phase: Phase, cell: string)
    ensures Answered(r, phase, cell) <==>
              exists a :: a in r.attempts && a.run.live && a.eligible && a.run.phase == phase && a.run.cell == cell
  {
    if Answered(r, phase, cell) {
      var a :| a in r.attempts && Counts(a, phase, cell);
    }
    if a :| a in r.attempts && a.run.live && a.eligible && a.run.phase == phase && a.run.cell == cell {
      assert Counts(a, phase, cell);
    }
  }

  /** What must have happened before a phase, and must not. */
  lemma PhasesFollow(r: Report)
    ensures forall phase :: PhaseIsOpen(r, phase) ==> r.frozen.Some? && r.decision.None? && r.state != Confirmed
    ensures PhaseIsOpen(r, Census) ==> !r.census && forall a :: a in r.attempts ==> !a.run.live
    ensures PhaseIsOpen(r, Selection) ==> r.census && r.transition.None?
    ensures PhaseIsOpen(r, Confirmation) ==> r.census && r.transition.Some?
    ensures r.frozen.Some? && r.decision.None? && r.state != Confirmed && r.census ==> PhaseIsOpen(r, Selection) || PhaseIsOpen(r, Confirmation)
  {
  }

  // Plans and the census.

  /** A census run drops exactly the named cells and buys nothing. */
  lemma CensusDrops(r: Report, ids: set<string>, judge: Judge)
    ensures Advance(r, Census, Dropped(ids), judge).Some?
    ensures var s := Advance(r, Census, Dropped(ids), judge).value;
            && s.census && (forall id :: id in s.shortlist <==> id in r.shortlist && id !in ids)
            && s == r.(census := true, shortlist := s.shortlist)
  {
    FilterKeeps(r.shortlist, NotIn(ids));
  }

  /** A default confirmation run answers the inert cell first, then the shipped one, then the challenger. */
  lemma ConfirmationGoesInOrder(r: Report)
    requires r.transition.Some? && Planned(r, Confirmation, Default).Some?
    ensures var plan := Planned(r, Confirmation, Default).value;
            if !Answered(r, Confirmation, r.inert) then plan == [r.inert]
            else if !Answered(r, Confirmation, r.shipped) then plan == [r.shipped]
            else plan == [r.transition.value] && !Answered(r, Confirmation, r.transition.value)
  {
    var cells, open := [r.inert, r.shipped, r.transition.value], id => !Answered(r, Confirmation, id);
    assert PhaseCells(r, Confirmation) == cells;
    assert cells[1..] == [r.shipped, r.transition.value] && cells[1..][1..] == [r.transition.value] && cells[1..][1..][1..] == [];
    hide Answered;
    FilterOfThree(r.inert, r.shipped, r.transition.value, open);
  }

  lemma FilterOfThree(a: string, b: string, c: string, keep: string -> bool)
    ensures Filter([a, b, c], keep) == (if keep(a) then [a] else []) + (if keep(b) then [b] else []) + (if keep(c) then [c] else [])
  {
    assert [a, b, c][1..] == [b, c] && [b, c][1..] == [c] && [c][1..] == [];
    assert Filter([c], keep) == if keep(c) then [c] else [];
    assert Filter([b, c], keep) == (if keep(b) then [b] else []) + Filter([c], keep);
  }

  /** A named request plans the named cells or nothing; all plans the phase's. */
  lemma RequestsArePlanned(r: Report, phase: Phase, ids: seq<string>)
    requires phase != Census
    ensures Planned(r, phase, These(ids)).Some? ==> Planned(r, phase, These(ids)).value == ids && ids != [] && forall id :: id in ids ==> id in PhaseCells(r, phase)
    ensures Planned(r, phase, All).Some? ==> Planned(r, phase, All).value == PhaseCells(r, phase)
    ensures (r.census ==> PhaseCells(r, Selection) == r.shortlist) && (r.transition.Some? ==> PhaseCells(r, Confirmation) == [r.inert, r.shipped, r.transition.value])
  {
  }

  // A campaign as it was published.

  lemma SelectionKeepsState(r: Report, attempts: seq<Attempt>, judge: Judge)
    requires Advance(r, Selection, Bought(attempts), judge).Some?
    ensures Advance(r, Selection, Bought(attempts), judge).value.state == r.state
  {
    RunRecords(r, Selection, attempts, judge);
    hide MergeAll, ComparisonsOf, Choose, Complete, Keep;
    MergeKeepsState(r, attempts);
  }

  lemma {:induction false} MergeKeepsState(r: Report, added: seq<Attempt>)
    requires MergeAll(r, added).Some?
    ensures MergeAll(r, added).value.state == r.state
    decreases |added|
  {
    hide MayJoin;
    if added != [] {
      MergeKeepsState(Merge(r, added[0]).value, added[1..]);
    }
  }

  /** The run that confirms is a confirmation run that decided. */
  lemma ConfirmingRunDecides(r: Report, phase: Phase, request: Request, outcome: Outcome, judge: Judge)
    requires Sound(r) && PhaseIsOpen(r, phase) && Planned(r, phase, request).Some?
    requires Fits(r, phase, Planned(r, phase, request).value, outcome)
    requires Advance(r, phase, outcome, judge).Some? && r.state != Confirmed
    requires Advance(r, phase, outcome, judge).value.state == Confirmed && Advance(r, phase, outcome, judge).value.decision.Some?
    ensures phase == Confirmation && outcome.Bought? && r.decision.None?
    ensures Names(judge) ==> DecidedBy(Advance(r, phase, outcome, judge).value, judge)
  {
    if outcome.Bought? {
      if phase == Selection {
        SelectionKeepsState(r, outcome.attempts, judge);
      } else if Names(judge) && phase == Confirmation {
        ConfirmationDecides(r, request, outcome.attempts, judge);
      }
    }
    hide Sound, Planned, MergeAll, Settle, ComparisonsOf, DecidedBy, Names;
  }

  lemma SameDecision(a: Report, b: Report, judge: Judge)
    requires DecidedBy(a, judge)
    requires b.state == a.state && b.transition == a.transition && b.decision == a.decision && b.attempts == a.attempts && b.comparisons == a.comparisons && b.inert == a.inert
    ensures DecidedBy(b, judge)
  {
    forall cell, x
      ensures Ran(a, Confirmation, cell, x) == Ran(b, Confirmation, cell, x)
    {
    }
  }
}
