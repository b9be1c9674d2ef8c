/** The two-step profile survey: personal information (full name, age),
    then interests. Next advances from the first step without checking
    anything; on the last step it submits, and submitting checks only the
    fields of the step it is on. Saving the profile is a call into the
    authentication layer and is represented by the payload it receives. */
module ProfileSurvey {
  import opened Common
  import opened JsText

  datatype Field = FullName | Age | Interests

  datatype StepDef = StepDef(title: string, fields: seq<Field>)

  /** The `steps` table. */
  const Steps: seq<StepDef> := [
    StepDef("Personal Information", [FullName, Age]),
    StepDef("Interests", [Interests])
  ]

  function Label(f: Field): string {
    match f
    case FullName => "Full Name"
    case Age => "Age"
    case Interests => "What are your interests?"
  }

  /** The screen state: the step index and the three text inputs. */
  datatype Form = Form(step: nat, name: string, age: string, interests: string)

  const Start: Form := Form(0, "", "", "")

  function Value(form: Form, f: Field): string {
    match f
    case FullName => form.name
    case Age => form.age
    case Interests => form.interests
  }

  predicate InRange(form: Form) {
    form.step < |Steps|
  }

  /** The index of the first field with an empty value, or `|fields|` when
      all are filled in: the `for ... of` loop that returns at the first
      empty field. */
  function FirstEmpty(form: Form, fields: seq<Field>): (k: nat)
    ensures k <= |fields|
    ensures k < |fields| ==> Value(form, fields[k]) == ""
    ensures forall i :: 0 <= i < k ==> Value(form, fields[i]) != ""
  {
    if fields == [] then 0
    else if Value(form, fields[0]) == "" then 0
    else 1 + FirstEmpty(form, fields[1..])
  }

  /** `fields[k]` is the first field of `fields` with an empty value. */
  predicate FirstEmptyAt(form: Form, fields: seq<Field>, k: int) {
    && 0 <= k < |fields|
    && Value(form, fields[k]) == ""
    && (forall i :: 0 <= i < k ==> Value(form, fields[i]) != "")
  }

  datatype Check = Valid | Missing(fieldLabel: string)  // "Please fill in <label>"

  /** `validateCurrentStep()`: valid exactly when every field of the
      current step is filled in; otherwise it names the first empty one. */
  function ValidateCurrentStep(form: Form): (c: Check)
    requires InRange(form)
    ensures c == Valid <==> forall f :: f in Steps[form.step].fields ==> Value(form, f) != ""
    ensures c.Missing? ==>
              exists k :: FirstEmptyAt(form, Steps[form.step].fields, k)
                          && c.fieldLabel == Label(Steps[form.step].fields[k])
  {
    var fields := Steps[form.step].fields;
    var k := FirstEmpty(form, fields);
    if k == |fields| then Valid else Missing(Label(fields[k]))
  }

  /** What `updateUserProfile` receives; `age` is `parseInt(age)`, `None`
      standing for `NaN`. */
  datatype Payload = Payload(name: string, age: Option<int>, interests: string, surveyCompleted: bool)

  datatype SubmitOutcome = Saved(payload: Payload) | Rejected(fieldLabel: string)

  /** `handleSubmit()`: validate the current step, then save. */
  function Submit(form: Form): (out: SubmitOutcome)
    requires InRange(form)
    ensures out.Saved? <==> ValidateCurrentStep(form) == Valid
    ensures out.Saved? ==> out.payload == Payload(form.name, ParseInt(form.age), form.interests, true)
  {
    match ValidateCurrentStep(form)
    case Missing(l) => Rejected(l)
    case Valid => Saved(Payload(form.name, ParseInt(form.age), form.interests, true))
  }

  datatype NextOutcome = Moved(next: Form) | Submitted(outcome: SubmitOutcome)

  /** `handleNext()`. */
  function Next(form: Form): (r: NextOutcome)
    requires InRange(form)
    ensures form.step == 0 ==> r == Moved(form.(step := 1))
    ensures form.step == |Steps| - 1 ==> r == Submitted(Submit(form))
  {
    if form.step < |Steps| - 1 then Moved(form.(step := form.step + 1)) else Submitted(Submit(form))
  }

  /** `handleBack()`: one step back, nothing at the first step. */
  function Back(form: Form): (r: Form)
    ensures r.step == if form.step == 0 then 0 else form.step - 1
    ensures r.name == form.name && r.age == form.age && r.interests == form.interests
  {
    if form.step > 0 then form.(step := form.step - 1) else form
  }

  /** Next and Back keep the step inside the table; Next on the first step
      moves on whatever the inputs hold; Back on the first step does
      nothing. */
  lemma StepStaysInRange(form: Form)
    requires InRange(form)
    ensures Next(form).Moved? ==> InRange(Next(form).next) && Next(form).next.step == form.step + 1
    ensures Next(form).Moved? <==> form.step == 0
    ensures InRange(Back(form))
    ensures form.step == 0 ==> Back(form) == form
  {
  }

  /** Submitting from the last step saves whenever the interests are filled
      in, even with an empty name and age: the first step's fields are
      never checked, and an empty age is stored as `NaN`. */
  lemma SubmitIgnoresFirstStep(form: Form)
    requires form.step == |Steps| - 1 && form.interests != ""
    ensures Next(form) == Submitted(Saved(Payload(form.name, ParseInt(form.age), form.interests, true)))
    ensures form.age == "" ==> Next(form).outcome.payload.age == None
  {
    assert Steps[form.step].fields == [Interests];
    assert ValidateCurrentStep(form) == Valid;
    if form.age == "" {
      NoDigitIsNaN(form.age);
    }
  }

  /** Hence the "Full Name" and "Age" messages can never be shown: no Next
      press is rejected for a first-step field. */
  lemma FirstStepFieldsNeverReported(form: Form)
    requires InRange(form)
    ensures Next(form).Submitted? && Next(form).outcome.Rejected? ==>
              Next(form).outcome.fieldLabel == Label(Interests)
  {
  }

  /** An age typed as a decimal number reaches the payload as that number. */
  lemma AgeRoundTrip(form: Form, n: nat)
    requires form.step == |Steps| - 1 && form.interests != ""
    requires form.age == DecimalString(n)
    ensures Next(form).Submitted? && Next(form).outcome.Saved?
    ensures Next(form).outcome.payload.age == Some(n)
  {
    SubmitIgnoresFirstStep(form);
    ParseIntDecimal(n, "");
    assert DecimalString(n) + "" == DecimalString(n);
  }
}
