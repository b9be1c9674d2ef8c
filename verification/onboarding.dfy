/** The onboarding quiz wizard: steps 0 to 9 show the primary questions,
    step 10 shows the secondary question of the current primary type, and
    finishing hands the chosen plant id to the plant-assignment screen.
    The `loading` flag only disables Next while the finish step runs and
    is not modelled. */
module Onboarding {
  import opened Common
  import opened Quiz

  /** The index of the secondary question, one past the last primary one. */
  const SecondaryStep: nat := 10

  datatype Wizard = Wizard(step: nat, answers: Answers)

  /** The screen's initial state: `currentStep = 0`, `selectedAnswers = {}`. */
  const Start: Wizard := Wizard(0, map[])

  /** `isSecondaryQuestion()`. */
  predicate IsSecondaryQuestion(z: Wizard): (b: bool)
    ensures b <==> z.step >= |PrimaryQuestions|
  {
    z.step >= SecondaryStep
  }

  /** `getCurrentQuestion()`: the primary question of the step, or at the
      secondary step the secondary question of the current primary type,
      falling back to q10 when the primary type has none. */
  function CurrentQuestion(z: Wizard): (q: Question)
    ensures q in PrimaryQuestions || exists t :: IsLetter(t) && q == SecondaryQuestion(t).value
    ensures z.step < SecondaryStep ==> q == PrimaryQuestions[z.step]
    ensures z.step >= SecondaryStep && IsLetter(PrimaryType(z.answers)) ==>
              q == SecondaryQuestion(PrimaryType(z.answers)).value
    ensures z.step >= SecondaryStep && !IsLetter(PrimaryType(z.answers)) ==> q.id == "q10"
  {
    if !IsSecondaryQuestion(z) then PrimaryQuestions[z.step]
    else
      var t := PrimaryType(z.answers);
      match SecondaryQuestion(t)
      case Some(q) => q
      case None => PrimaryQuestions[|PrimaryQuestions| - 1]
  }

  /** `handleSelect(optionId)`: records the option under the current
      question's id and changes nothing else. */
  function Select(z: Wizard, optionId: string): (r: Wizard)
    ensures r.step == z.step
    ensures CurrentQuestion(z).id in r.answers && r.answers[CurrentQuestion(z).id] == optionId
    ensures forall k :: k != CurrentQuestion(z).id ==>
              (k in r.answers <==> k in z.answers) && (k in z.answers ==> r.answers[k] == z.answers[k])
  {
    Wizard(z.step, z.answers[CurrentQuestion(z).id := optionId])
  }

  /** `hasSelection()`: the current question has an answer. */
  predicate HasSelection(z: Wizard): (b: bool)
    ensures z.step < SecondaryStep ==> (b <==> PrimaryQuestions[z.step].id in z.answers)
  {
    CurrentQuestion(z).id in z.answers
  }

  /** `isOptionSelected(optionId)`. */
  predicate IsOptionSelected(z: Wizard, optionId: string): (b: bool)
    ensures b ==> HasSelection(z)
  {
    CurrentQuestion(z).id in z.answers && z.answers[CurrentQuestion(z).id] == optionId
  }

  datatype NextOutcome =
    | Moved(next: Wizard)
    | Completed(plantMatch: string, surveyAnswers: Answers)  // navigate to PlantAssignment
    | Aborted                                                // "Unable to complete survey"

  /** `handleNext()`: advance through the primary questions, move to the
      secondary question after q10, and at the secondary question finish
      with the recorded secondary answer as the plant match. */
  function Next(z: Wizard): (r: NextOutcome)
    ensures r.Moved? <==> z.step < SecondaryStep
    ensures r.Moved? ==> r.next == Wizard(z.step + 1, z.answers)
    ensures r.Completed? ==> r.plantMatch != "" && r.plantMatch in z.answers.Values && r.surveyAnswers == z.answers
  {
    if z.step < |PrimaryQuestions| - 1 then Moved(z.(step := z.step + 1))
    else if !IsSecondaryQuestion(z) then Moved(z.(step := SecondaryStep))
    else
      match SecondaryQuestion(PrimaryType(z.answers))
      case None => Aborted
      case Some(q) =>
        if q.id !in z.answers || z.answers[q.id] == "" then Aborted
        else Completed(z.answers[q.id], z.answers)
  }

  datatype BackOutcome = SteppedBack(previous: Wizard) | LeftScreen

  /** `handleBack()`: one step back, or leave the screen from step 0. */
  function Back(z: Wizard): (r: BackOutcome)
    ensures r.SteppedBack? <==> z.step > 0
    ensures r.SteppedBack? ==> r.previous.step < z.step && r.previous.answers == z.answers
  {
    if z.step > 0 then SteppedBack(z.(step := z.step - 1)) else LeftScreen
  }

  // ---- transitions -------------------------------------------------------

  /** Next moves forward by exactly one step below the secondary question
      (from step 9 to step 10 included), and from the secondary question
      it finishes or aborts instead of moving; Back moves back by one
      above step 0. So the step never leaves 0..10. */
  lemma StepTransitions(z: Wizard)
    requires z.step <= SecondaryStep
    ensures z.step < SecondaryStep ==> Next(z).Moved? && Next(z).next.step == z.step + 1
    ensures z.step == SecondaryStep ==> !Next(z).Moved?
    ensures Next(z).Moved? ==> Next(z).next.answers == z.answers && Next(z).next.step <= SecondaryStep
    ensures Back(z).SteppedBack? <==> z.step > 0
    ensures Back(z).SteppedBack? ==> Back(z).previous == Wizard(z.step - 1, z.answers)
  {
  }

  /** Finishing aborts exactly when the primary type has no secondary
      question or its secondary answer is missing or empty, and otherwise
      yields the recorded secondary answer verbatim as the plant match. */
  lemma FinishOutcome(z: Wizard)
    requires IsSecondaryQuestion(z)
    ensures var t := PrimaryType(z.answers);
            Next(z).Aborted? <==>
              (!IsLetter(t) || SecondaryQuestion(t).value.id !in z.answers
               || z.answers[SecondaryQuestion(t).value.id] == "")
    ensures Next(z).Completed? ==>
              var t := PrimaryType(z.answers);
              && Next(z).plantMatch == z.answers[SecondaryQuestion(t).value.id]
              && Next(z).surveyAnswers == z.answers
  {
  }

  // ---- the wizard invariant ----------------------------------------------

  /** The states the screen can reach: the step is at most 10; every
      primary question below the step is answered; primary questions only
      ever hold letters; a secondary question only ever holds one of its
      own options. */
  predicate Inv(z: Wizard): (b: bool)
    ensures z == Start ==> b
    ensures b ==> z.step <= SecondaryStep
  {
    && z.step <= SecondaryStep
    && (forall i :: 0 <= i < |PrimaryQuestions| && i < z.step ==> PrimaryQuestions[i].id in z.answers)
    && (forall i :: 0 <= i < |PrimaryQuestions| && PrimaryQuestions[i].id in z.answers ==>
          IsLetter(z.answers[PrimaryQuestions[i].id]))
    && (forall j :: 0 <= j < |Letters| ==>
          var q := SecondaryQuestion(Letters[j]).value;
          q.id in z.answers ==> z.answers[q.id] in q.options)
  }

  /** At the secondary step every primary question has a letter answer, so
      the primary type is a real letter and the question shown is its
      secondary question (never the q10 fallback). */
  lemma PrimaryTypeAtSecondaryStep(z: Wizard)
    requires Inv(z) && z.step == SecondaryStep
    ensures IsLetter(PrimaryType(z.answers))
    ensures CurrentQuestion(z) == SecondaryQuestion(PrimaryType(z.answers)).value
  {
    var q1 := PrimaryQuestions[0].id;
    assert q1 in z.answers && IsLetter(z.answers[q1]);
    PrimaryTypeIsLetterIff(z.answers);
  }

  /** What a user can do on the screen: press one of the options shown,
      press Next, press Back. */
  datatype Event = Choose(optionId: string) | PressNext | PressBack

  /** Only shown options can be pressed, and Next is disabled until the
      current question has an answer. */
  predicate Enabled(z: Wizard, e: Event): (b: bool)
    ensures e.PressBack? ==> b
    ensures b && e.Choose? ==> e.optionId != ""
  {
    match e
    case Choose(o) => OptionsNonEmpty(z); o in CurrentQuestion(z).options
    case PressNext => HasSelection(z)
    case PressBack => true
  }

  /** The wizard state after an event; finishing, aborting and leaving the
      screen keep the state as it was. */
  function Apply(z: Wizard, e: Event): (r: Wizard)
    ensures z.answers.Keys <= r.answers.Keys
    ensures !e.Choose? ==> r.answers == z.answers
  {
    match e
    case Choose(o) => Select(z, o)
    case PressNext => (match Next(z) case Moved(n) => n case _ => z)
    case PressBack => (match Back(z) case SteppedBack(p) => p case LeftScreen => z)
  }

  /** Every option the screen can show is a non-empty id. */
  lemma OptionsNonEmpty(z: Wizard)
    ensures forall o :: o in CurrentQuestion(z).options ==> o != ""
  {
    var q := CurrentQuestion(z);
    if q !in PrimaryQuestions {
      var t :| IsLetter(t) && q == SecondaryQuestion(t).value;
      forall o | o in q.options
        ensures o != ""
      {
        SecondaryOptionIsPlant(t, o);
      }
    }
  }

  /** At most one option shows as selected. */
  lemma OneOptionSelected(z: Wizard, o1: string, o2: string)
    requires IsOptionSelected(z, o1) && IsOptionSelected(z, o2)
    ensures o1 == o2
  {
  }

  /** Choosing an option the screen shows keeps the invariant. */
  lemma SelectKeepsInv(z: Wizard, o: string)
    requires Inv(z) && o in CurrentQuestion(z).options
    ensures Inv(Select(z, o))
  {
    var key := CurrentQuestion(z).id;
    var r := Select(z, o);
    if z.step < SecondaryStep {
      forall j | 0 <= j < |Letters|
        ensures SecondaryQuestion(Letters[j]).value.id != key
      {
        SecondaryIdNotPrimary(Letters[j], z.step);
      }
    } else {
      PrimaryTypeAtSecondaryStep(z);
      var t := PrimaryType(z.answers);
      forall i | 0 <= i < |PrimaryQuestions|
        ensures PrimaryQuestions[i].id != key
      {
        SecondaryIdNotPrimary(t, i);
      }
      forall j | 0 <= j < |Letters| && SecondaryQuestion(Letters[j]).value.id == key
        ensures Letters[j] == t
      {
        if Letters[j] != t {
          SecondaryIdsDistinct(Letters[j], t);
        }
      }
    }
  }

  /** Every enabled event keeps the invariant, and no event removes an
      answer. */
  lemma ApplyKeepsInv(z: Wizard, e: Event)
    requires Inv(z) && Enabled(z, e)
    ensures Inv(Apply(z, e))
    ensures z.answers.Keys <= Apply(z, e).answers.Keys
  {
    match e
    case Choose(o) => SelectKeepsInv(z, o);
    case PressNext =>
      if z.step < SecondaryStep {
        assert PrimaryQuestions[z.step].id in z.answers;
      }
    case PressBack =>
  }

  /** The screen state after a sequence of user actions; actions the screen
      does not offer (a disabled Next, an option not shown) do nothing. */
  function Run(z: Wizard, events: seq<Event>): (r: Wizard)
    ensures z.answers.Keys <= r.answers.Keys
    ensures (forall i :: 0 <= i < |events| ==> !events[i].Choose?) ==> r.answers == z.answers
    decreases |events|
  {
    if events == [] then z
    else Run(if Enabled(z, events[0]) then Apply(z, events[0]) else z, events[1..])
  }

  /** Every state reachable from the start satisfies the invariant. */
  lemma {:induction false} RunKeepsInv(z: Wizard, events: seq<Event>)
    requires Inv(z)
    ensures Inv(Run(z, events))
    decreases |events|
  {
    if events != [] {
      var z' := if Enabled(z, events[0]) then Apply(z, events[0]) else z;
      if Enabled(z, events[0]) {
        ApplyKeepsInv(z, events[0]);
      }
      RunKeepsInv(z', events[1..]);
    }
  }

  /** Whatever the user did, on reaching the secondary question the primary
      type is one of A to F. */
  lemma ReachedSecondaryStepHasPrimaryType(events: seq<Event>)
    requires Run(Start, events).step == SecondaryStep
    ensures forall i :: 0 <= i < |PrimaryQuestions| ==> PrimaryQuestions[i].id in Run(Start, events).answers
    ensures IsLetter(PrimaryType(Run(Start, events).answers))
  {
    RunKeepsInv(Start, events);
    PrimaryTypeAtSecondaryStep(Run(Start, events));
  }

  /** On a reachable screen the abort branch of Finish is dead: once Finish
      is enabled it completes, with a plant id offered by the primary type's
      secondary question. */
  lemma FinishCompletes(z: Wizard)
    requires Inv(z) && z.step == SecondaryStep && HasSelection(z)
    ensures Next(z).Completed?
    ensures Next(z).plantMatch in SecondaryQuestion(PrimaryType(z.answers)).value.options
    ensures Next(z).plantMatch in SecondaryOptions
  {
    PrimaryTypeAtSecondaryStep(z);
    var t := PrimaryType(z.answers);
    var j :| 0 <= j < |Letters| && Letters[j] == t;
    var q := SecondaryQuestion(t).value;
    assert z.answers[q.id] in q.options;
    SecondaryOptionIsPlant(t, z.answers[q.id]);
  }

  /** Choosing the same shown option twice gives the same state as
      choosing it once. */
  lemma SelectIdempotent(z: Wizard, o: string)
    requires Inv(z) && o in CurrentQuestion(z).options
    ensures Select(Select(z, o), o) == Select(z, o)
    ensures IsOptionSelected(Select(z, o), o) && HasSelection(Select(z, o))
  {
    var once := Select(z, o);
    SameQuestionAfterSelect(z, o);
    assert once.answers[CurrentQuestion(z).id := o] == once.answers;
  }

  /** Choosing a shown option does not change which question is shown. */
  lemma SameQuestionAfterSelect(z: Wizard, o: string)
    requires Inv(z) && o in CurrentQuestion(z).options
    ensures CurrentQuestion(Select(z, o)) == CurrentQuestion(z)
  {
    if z.step >= SecondaryStep {
      PrimaryTypeAtSecondaryStep(z);
      var t := PrimaryType(z.answers);
      var q := SecondaryQuestion(t).value;
      var j :| 0 <= j < |Letters| && Letters[j] == t;
      SecondaryOptionIsPlant(t, o);
      if q.id in z.answers {
        SecondaryOptionIsPlant(t, z.answers[q.id]);
      }
      NonLetterAnswerIgnored(z.answers, q.id, o);
      assert PrimaryType(Select(z, o).answers) == t;
    }
  }

  /** A mixed quiz: seven nurturing answers, two social, one
      intellectual, and aloe vera for the nurturing follow-up. */
  const NurturingAnswers: Answers := map[
    "q1" := "C", "q2" := "C", "q3" := "C", "q4" := "C", "q5" := "C",
    "q6" := "C", "q7" := "C", "q8" := "D", "q9" := "D", "q10" := "B",
    "secondaryC" := "aloeVera"
  ]

  /** C wins the vote against D and B. */
  lemma NurturingPrimaryType()
    ensures PrimaryType(NurturingAnswers) == "C"
  {
    NurturingCounts();
    StrictWinnerWins(NurturingAnswers, 2);
  }

  lemma NurturingCounts()
    ensures Count(NurturingAnswers, "C") == 7
    ensures Count(NurturingAnswers, "D") == 2
    ensures Count(NurturingAnswers, "B") == 1
    ensures forall j :: 0 <= j < |Letters| && j != 1 && j != 2 && j != 3 ==> Count(NurturingAnswers, Letters[j]) == 0
  {
    NurturingVotesC();
    var a := NurturingAnswers;
    assert (set q | q in a && a[q] == "D") == {"q8", "q9"};
    assert (set q | q in a && a[q] == "B") == {"q10"};
    forall j | 0 <= j < |Letters| && j != 1 && j != 2 && j != 3
      ensures Count(a, Letters[j]) == 0
    {
      assert (set q | q in a && a[q] == Letters[j]) == {};
    }
  }

  lemma NurturingVotesC()
    ensures Count(NurturingAnswers, "C") == 7
  {
    var a := NurturingAnswers;
    var votersC := set q | q in a && a[q] == "C";
    var seven := {"q1", "q2", "q3", "q4", "q5", "q6", "q7"};
    assert votersC == seven;
    assert |seven| == 7;
  }

  lemma NurturingInv()
    ensures Inv(Wizard(SecondaryStep, NurturingAnswers))
  {
    var a := NurturingAnswers;
    forall i | 0 <= i < |PrimaryQuestions|
      ensures PrimaryQuestions[i].id in a && IsLetter(a[PrimaryQuestions[i].id])
    {
    }
    forall j | 0 <= j < |Letters|
      ensures var q := SecondaryQuestion(Letters[j]).value;
              q.id in a ==> a[q.id] in q.options
    {
      var q := SecondaryQuestion(Letters[j]).value;
      if j == 2 {
        assert q.id == "secondaryC" && a[q.id] == "aloeVera";
      } else {
        assert q.id[9] != 'C';
        assert q.id !in a;
      }
    }
  }

  /** A concrete finish: the primary type is C, the nurturing follow-up is
      shown and answered, and Next completes with "aloeVera". */
  lemma NurturingFinish()
    ensures var z := Wizard(SecondaryStep, NurturingAnswers);
            && Inv(z) && HasSelection(z)
            && PrimaryType(z.answers) == "C"
            && Next(z) == Completed("aloeVera", NurturingAnswers)
  {
    NurturingPrimaryType();
    NurturingInv();
    NurturingFollowUp();
    FinishWithAnswer(Wizard(SecondaryStep, NurturingAnswers), "C");
  }

  lemma NurturingFollowUp()
    ensures SecondaryQuestion("C").value.id in NurturingAnswers
    ensures NurturingAnswers[SecondaryQuestion("C").value.id] == "aloeVera"
  {
  }

  /** At the secondary step, with the follow-up of the primary type
      answered, the question shown is that follow-up and Next completes
      with its answer. */
  lemma FinishWithAnswer(z: Wizard, t: string)
    requires z.step == SecondaryStep && PrimaryType(z.answers) == t && IsLetter(t)
    requires SecondaryQuestion(t).value.id in z.answers && z.answers[SecondaryQuestion(t).value.id] != ""
    ensures HasSelection(z)
    ensures Next(z) == Completed(z.answers[SecondaryQuestion(t).value.id], z.answers)
  {
  }
}
