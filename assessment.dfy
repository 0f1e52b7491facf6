/**
 * The onboarding assessment wizard: a step counter over seven screens
 * (welcome, five question steps, results), the answers record with its
 * partial-update merge, the per-step "can continue" test, and the mirror
 * of the answers and the step kept in browser storage.
 */
module Assessment {
  import opened JsText

  /** The answers collected by the wizard. */
  datatype AssessmentData = AssessmentData(
    background: string,
    backgroundDetails: string,
    experience: string,
    languages: seq<string>,
    otherLanguages: string,
    goals: seq<string>,
    specificGoals: string,
    timeline: string,
    weeklyHours: string,
    preferredDays: seq<string>,
    preferredTime: string,
    scenario1: string,
    scenario2: string,
    scenario3: string)

  function InitialData(): AssessmentData {
    AssessmentData("", "", "", [], "", [], "", "", "", [], "", "", "", "")
  }

  /** `Partial<AssessmentData>`: each field is either given or absent. */
  datatype Patch = Patch(
    background: Option<string>,
    backgroundDetails: Option<string>,
    experience: Option<string>,
    languages: Option<seq<string>>,
    otherLanguages: Option<string>,
    goals: Option<seq<string>>,
    specificGoals: Option<string>,
    timeline: Option<string>,
    weeklyHours: Option<string>,
    preferredDays: Option<seq<string>>,
    preferredTime: Option<string>,
    scenario1: Option<string>,
    scenario2: Option<string>,
    scenario3: Option<string>)

  function NoChanges(): Patch {
    Patch(None, None, None, None, None, None, None, None, None, None, None, None, None, None)
  }

  /** Every field the patch gives already holds that value in `d`. */
  predicate Carries(u: Patch, d: AssessmentData) {
    && (u.background.Some? ==> d.background == u.background.value)
    && (u.backgroundDetails.Some? ==> d.backgroundDetails == u.backgroundDetails.value)
    && (u.experience.Some? ==> d.experience == u.experience.value)
    && (u.languages.Some? ==> d.languages == u.languages.value)
    && (u.otherLanguages.Some? ==> d.otherLanguages == u.otherLanguages.value)
    && (u.goals.Some? ==> d.goals == u.goals.value)
    && (u.specificGoals.Some? ==> d.specificGoals == u.specificGoals.value)
    && (u.timeline.Some? ==> d.timeline == u.timeline.value)
    && (u.weeklyHours.Some? ==> d.weeklyHours == u.weeklyHours.value)
    && (u.preferredDays.Some? ==> d.preferredDays == u.preferredDays.value)
    && (u.preferredTime.Some? ==> d.preferredTime == u.preferredTime.value)
    && (u.scenario1.Some? ==> d.scenario1 == u.scenario1.value)
    && (u.scenario2.Some? ==> d.scenario2 == u.scenario2.value)
    && (u.scenario3.Some? ==> d.scenario3 == u.scenario3.value)
  }

  /**
   * `{ ...prev, ...updates }`: a given field overwrites, an absent one keeps
   * the old value. The result carries the whole patch, and data that already
   * carries it is left as it is.
   */
  function Merge(d: AssessmentData, u: Patch): (r: AssessmentData)
    ensures Carries(u, r)
    ensures Carries(u, d) ==> r == d
  {
    AssessmentData(
      u.background.GetOr(d.background),
      u.backgroundDetails.GetOr(d.backgroundDetails),
      u.experience.GetOr(d.experience),
      u.languages.GetOr(d.languages),
      u.otherLanguages.GetOr(d.otherLanguages),
      u.goals.GetOr(d.goals),
      u.specificGoals.GetOr(d.specificGoals),
      u.timeline.GetOr(d.timeline),
      u.weeklyHours.GetOr(d.weeklyHours),
      u.preferredDays.GetOr(d.preferredDays),
      u.preferredTime.GetOr(d.preferredTime),
      u.scenario1.GetOr(d.scenario1),
      u.scenario2.GetOr(d.scenario2),
      u.scenario3.GetOr(d.scenario3))
  }

  /** The later of two given values wins. */
  function Later<T>(a: Option<T>, b: Option<T>): Option<T> {
    if b.Some? then b else a
  }

  /** One patch followed by another, as a single patch. */
  function Then(u: Patch, v: Patch): Patch {
    Patch(
      Later(u.background, v.background),
      Later(u.backgroundDetails, v.backgroundDetails),
      Later(u.experience, v.experience),
      Later(u.languages, v.languages),
      Later(u.otherLanguages, v.otherLanguages),
      Later(u.goals, v.goals),
      Later(u.specificGoals, v.specificGoals),
      Later(u.timeline, v.timeline),
      Later(u.weeklyHours, v.weeklyHours),
      Later(u.preferredDays, v.preferredDays),
      Later(u.preferredTime, v.preferredTime),
      Later(u.scenario1, v.scenario1),
      Later(u.scenario2, v.scenario2),
      Later(u.scenario3, v.scenario3))
  }

  /** An empty update changes nothing. */
  lemma MergeNothing(d: AssessmentData)
    ensures Merge(d, NoChanges()) == d
  {
  }

  /** Applying the same update twice is the same as applying it once. */
  lemma MergeIdempotent(d: AssessmentData, u: Patch)
    ensures Merge(Merge(d, u), u) == Merge(d, u)
  {
  }

  /** Two successive updates act like their combination. */
  lemma MergeThen(d: AssessmentData, u: Patch, v: Patch)
    ensures Merge(Merge(d, u), v) == Merge(d, Then(u, v))
  {
  }

  /** An update giving only the goals changes only the goals. */
  lemma MergeOnlyGoals(d: AssessmentData, goals: seq<string>)
    ensures Merge(d, NoChanges().(goals := Some(goals))) == d.(goals := goals)
  {
  }

  // ---------------------------------------------------------------------
  // The step counter
  // ---------------------------------------------------------------------

  const TotalSteps := 7
  const LastStep := TotalSteps - 1

  /**
   * The current step. Restored from storage with `parseInt`, it can be any
   * integer or `NaN`.
   */
  datatype Step = At(n: int) | NaN

  predicate InRange(s: Step) {
    s.At? && 0 <= s.n <= LastStep
  }

  /** `nextStep`: advances unless already at the results step. */
  function NextOf(s: Step): (r: Step)
    ensures r.At? <==> s.At?
    ensures r.At? ==> s.n <= r.n <= s.n + 1
    ensures InRange(s) ==> InRange(r)
  {
    if s.At? && s.n < LastStep then At(s.n + 1) else s
  }

  /** `prevStep`: goes back unless already at the welcome step. */
  function PrevOf(s: Step): (r: Step)
    ensures r.At? <==> s.At?
    ensures r.At? ==> s.n - 1 <= r.n <= s.n
    ensures InRange(s) ==> InRange(r)
  {
    if s.At? && s.n > 0 then At(s.n - 1) else s
  }

  /** Both moves keep a step in 0..6 and change it by at most one. */
  lemma MovesStayInRange(s: Step)
    requires InRange(s)
    ensures InRange(NextOf(s)) && InRange(PrevOf(s))
    ensures NextOf(s).n == (if s.n == 6 then 6 else s.n + 1)
    ensures PrevOf(s).n == (if s.n == 0 then 0 else s.n - 1)
  {
  }

  /** A restored `NaN` step can neither advance nor go back. */
  lemma NaNIsStuck()
    ensures NextOf(NaN) == NaN && PrevOf(NaN) == NaN
  {
  }

  /** `canProceed()`: whether the answers needed on this step are given. */
  function CanProceed(s: Step, d: AssessmentData): (r: bool)
    ensures !InRange(s) ==> !r
    ensures s == At(0) || s == At(6) ==> r
  {
    match s
    case NaN => false
    case At(n) =>
      if n == 0 then true
      else if n == 1 then d.background != ""
      else if n == 2 then d.experience != ""
      else if n == 3 then |d.goals| > 0
      else if n == 4 then d.weeklyHours != ""
      else if n == 5 then d.scenario1 != "" && d.scenario2 != "" && d.scenario3 != ""
      else if n == 6 then true
      else false
  }

  /** The answers every question step asks for, in full. */
  predicate Complete(d: AssessmentData) {
    d.background != "" && d.experience != "" && |d.goals| > 0 && d.weeklyHours != ""
    && d.scenario1 != "" && d.scenario2 != "" && d.scenario3 != ""
  }

  /** With every answer given, every step in 0..6 lets the user continue, and no other step does. */
  lemma CanProceedWhenComplete(d: AssessmentData, s: Step)
    requires Complete(d)
    ensures CanProceed(s, d) <==> InRange(s)
  {
  }

  /** With nothing answered, only the welcome and results steps let the user continue. */
  lemma CanProceedInitially(s: Step)
    ensures CanProceed(s, InitialData()) <==> s == At(0) || s == At(6)
  {
  }

  /** `d` and `e` agree on the answers that step `n` asks for. */
  predicate SameAnswersFor(n: int, d: AssessmentData, e: AssessmentData) {
    if n == 1 then d.background == e.background
    else if n == 2 then d.experience == e.experience
    else if n == 3 then d.goals == e.goals
    else if n == 4 then d.weeklyHours == e.weeklyHours
    else if n == 5 then d.scenario1 == e.scenario1 && d.scenario2 == e.scenario2 && d.scenario3 == e.scenario3
    else true
  }

  /**
   * Continuing from step `n` depends only on the answers step `n` asks
   * for: two answer records that agree on those, whatever they hold in
   * every other field, get the same verdict.
   */
  lemma CanProceedIgnoresOtherSteps(n: int, d: AssessmentData, e: AssessmentData)
    requires SameAnswersFor(n, d, e)
    ensures CanProceed(At(n), d) == CanProceed(At(n), e)
  {
  }

  /** The progress header and the Back/Continue footer appear on steps 1..5 only. */
  predicate ShowsChrome(s: Step) {
    s.At? && s.n > 0 && s.n < LastStep
  }

  /** The header's "Step k of 5" and "m min remaining" numbers. */
  datatype Header = Header(stepNumber: int, minutesRemaining: int)

  function HeaderOf(s: Step): (r: Option<Header>)
    ensures r.Some? <==> ShowsChrome(s)
    ensures r.Some? ==>
      1 <= r.value.stepNumber <= 5 && 0 <= r.value.minutesRemaining <= 4
      && r.value.stepNumber + r.value.minutesRemaining == 5
    ensures r.Some? ==> r.value.stepNumber == s.n && r.value.minutesRemaining == 5 - s.n
  {
    if ShowsChrome(s) then Some(Header(s.n, 5 - s.n)) else None
  }

  /** The forward button says "View Results" on step 5 and "Continue" elsewhere. */
  function ForwardLabel(s: Step): (r: string)
    ensures r == "View Results" <==> s == At(5)
    ensures s != At(5) ==> r == "Continue"
  {
    if s == At(5) then "View Results" else "Continue"
  }

  // ---------------------------------------------------------------------
  // Storage
  // ---------------------------------------------------------------------

  const ProgressKey := "assessment-progress"
  const StepKey := "assessment-step"

  /**
   * A stored value: the answers record as written by the save effect (its
   * JSON text is never empty), or any other text.
   */
  datatype Stored = Record(data: AssessmentData) | Text(text: string)

  /** `currentStep.toString()`. */
  function StepText(s: Step): (r: string)
    ensures r != []
    ensures r[0] == '-' <==> s.At? && s.n < 0
    ensures s.At? && s.n >= 0 ==> forall i :: 0 <= i < |r| ==> IsDigit(r[i])
  {
    match s
    case At(n) => IntToString(n)
    case NaN => "NaN"
  }

  /** `parseInt` of a stored step text; a record's JSON text starts with `{` and parses to `NaN`. */
  function ParseStep(v: Stored): (r: Step)
    ensures r.At? <==> v.Text? && ParseInt(v.text).Some?
    ensures r.At? ==> ParseInt(v.text) == Some(r.n)
  {
    match v
    case Record(_) => NaN
    case Text(t) => if ParseInt(t).Some? then At(ParseInt(t).value) else NaN
  }

  /**
   * Blank text, and text opening with anything but white space, a sign or a
   * decimal digit, reads as NaN.
   */
  lemma NonNumericStepIsNaN(t: string)
    ensures IsBlank(t) ==> ParseStep(Text(t)) == NaN
    ensures (t != [] && !IsWhite(t[0]) && !('0' <= t[0] <= '9') && t[0] != '-' && t[0] != '+')
            ==> ParseStep(Text(t)) == NaN
  {
  }

  lemma StepTextRoundTrip(s: Step)
    ensures ParseStep(Text(StepText(s))) == s
  {
    if s.NaN? {
      var t := StepText(s);
      assert t[0] == 'N';
      ParseIntNoDigits(t);
    } else {
      ParseIntToString(s.n);
    }
  }

  /** A stored value is truthy unless it is the empty string. */
  predicate Truthy(v: Stored) {
    v.Record? || v.text != ""
  }

  /** The outcome of the mount effect. */
  datatype Loaded = Loaded(data: AssessmentData, step: Step)
                  | ParseFailure(data: AssessmentData, step: Step)

  /**
   * The mount effect: a truthy saved record replaces the answers, then a
   * truthy saved step replaces the step. Non-empty text under the progress
   * key stands for a value `JSON.parse` rejects; the exception aborts the
   * effect before the step is read.
   */
  function Load(storage: map<string, Stored>, d: AssessmentData, s: Step): (r: Loaded)
    ensures ProgressKey !in storage && StepKey !in storage ==> r == Loaded(d, s)
  {
    var d' := if ProgressKey in storage && storage[ProgressKey].Record? then storage[ProgressKey].data else d;
    if ProgressKey in storage && storage[ProgressKey].Text? && storage[ProgressKey].text != "" then
      ParseFailure(d, s)
    else
      Loaded(d', if StepKey in storage && Truthy(storage[StepKey]) then ParseStep(storage[StepKey]) else s)
  }

  /** The save effect: both keys are written. */
  function Save(storage: map<string, Stored>, d: AssessmentData, s: Step): (r: map<string, Stored>)
    ensures r.Keys == storage.Keys + {ProgressKey, StepKey}
    ensures StepKey in r && ParseStep(r[StepKey]) == s
  {
    StepTextRoundTrip(s);
    storage[ProgressKey := Record(d)][StepKey := Text(StepText(s))]
  }

  /** Storage holds exactly the given answers and step under the two keys. */
  predicate Mirrors(storage: map<string, Stored>, d: AssessmentData, s: Step) {
    ProgressKey in storage && storage[ProgressKey] == Record(d)
    && StepKey in storage && storage[StepKey] == Text(StepText(s))
  }

  /** What was saved is what a fresh mount reads back, whatever the starting state. */
  lemma SaveThenLoad(storage: map<string, Stored>, d: AssessmentData, s: Step, d0: AssessmentData, s0: Step)
    ensures Load(Save(storage, d, s), d0, s0) == Loaded(d, s)
  {
    StepTextRoundTrip(s);
    var st := Save(storage, d, s);
    assert st[ProgressKey] == Record(d);
    assert st[StepKey] == Text(StepText(s));
    assert Truthy(st[StepKey]) by {
      if s.At? {
        assert |NatToString(if s.n < 0 then -s.n else s.n)| > 0;
      }
    }
  }

  /** Writing the pair makes storage mirror it, and other keys are kept. */
  lemma SaveMirrors(storage: map<string, Stored>, d: AssessmentData, s: Step)
    ensures Mirrors(Save(storage, d, s), d, s)
    ensures forall k :: k in storage && k != ProgressKey && k != StepKey ==> k in Save(storage, d, s) && Save(storage, d, s)[k] == storage[k]
  {
  }

  /**
   * The wizard page's state. Each update is taken together with the save
   * effect it triggers.
   */
  class Wizard {
    var currentStep: Step
    var data: AssessmentData
    var isCompleted: bool
    var storage: map<string, Stored>

    /** Until completion, storage mirrors the answers and the step. */
    ghost predicate Valid()
      reads this
    {
      !isCompleted ==> Mirrors(storage, data, currentStep)
    }

    /**
     * Mount: the state starts at step 0 with empty answers, the load effect
     * restores what storage holds, and the save effect writes the result.
     */
    constructor (saved: map<string, Stored>)
      ensures Valid() && !isCompleted
      ensures currentStep == Load(saved, InitialData(), At(0)).step
      ensures data == Load(saved, InitialData(), At(0)).data
      ensures storage == Save(saved, data, currentStep)
    {
      var loaded := Load(saved, InitialData(), At(0));
      currentStep := loaded.step;
      data := loaded.data;
      isCompleted := false;
      storage := Save(saved, loaded.data, loaded.step);
      new;
      SaveMirrors(saved, data, currentStep);
    }

    method NextStep()
      requires Valid()
      modifies this
      ensures Valid()
      ensures currentStep == NextOf(old(currentStep))
      ensures data == old(data) && isCompleted == old(isCompleted)
      ensures currentStep != old(currentStep) ==> storage == Save(old(storage), data, currentStep)
      ensures currentStep == old(currentStep) ==> storage == old(storage)
    {
      if currentStep.At? && currentStep.n < TotalSteps - 1 {
        currentStep := At(currentStep.n + 1);
        storage := Save(storage, data, currentStep);
        SaveMirrors(old(storage), data, currentStep);
      }
    }

    method PrevStep()
      requires Valid()
      modifies this
      ensures Valid()
      ensures currentStep == PrevOf(old(currentStep))
      ensures data == old(data) && isCompleted == old(isCompleted)
      ensures currentStep != old(currentStep) ==> storage == Save(old(storage), data, currentStep)
      ensures currentStep == old(currentStep) ==> storage == old(storage)
    {
      if currentStep.At? && currentStep.n > 0 {
        currentStep := At(currentStep.n - 1);
        storage := Save(storage, data, currentStep);
        SaveMirrors(old(storage), data, currentStep);
      }
    }

    /** `updateAssessmentData(updates)`: the merged record is always a new object, so it is always saved. */
    method UpdateAssessmentData(updates: Patch)
      requires Valid()
      modifies this
      ensures Valid()
      ensures data == Merge(old(data), updates)
      ensures currentStep == old(currentStep) && isCompleted == old(isCompleted)
      ensures storage == Save(old(storage), data, currentStep)
    {
      data := Merge(data, updates);
      storage := Save(storage, data, currentStep);
      SaveMirrors(old(storage), data, currentStep);
    }

    /** `completeAssessment()`: marks completion and forgets both saved keys. */
    method CompleteAssessment()
      requires Valid()
      modifies this
      ensures Valid()
      ensures isCompleted
      ensures data == old(data) && currentStep == old(currentStep)
      ensures storage == old(storage) - {ProgressKey, StepKey}
      ensures ProgressKey !in storage && StepKey !in storage
    {
      isCompleted := true;
      storage := storage - {ProgressKey, StepKey};
    }
  }

  /** After completion a new visit starts from scratch. */
  lemma CompletedVisitStartsFresh(storage: map<string, Stored>)
    ensures Load(storage - {ProgressKey, StepKey}, InitialData(), At(0)) == Loaded(InitialData(), At(0))
  {
  }
}
