/**
 * The list-valued answers of the assessment's question steps: goals,
 * known languages and preferred days are edited with checkboxes, each
 * click adding the item at the end or removing every copy of it, and each
 * step shows its follow-up inputs only once the leading answer is given.
 */
module AssessmentSteps {
  import opened JsText
  import opened SeqUtil
  import opened Assessment

  const GoalOptions: seq<string> := ["job", "startup", "skills", "personal", "freelance", "academic"]
  const ExperienceOptions: seq<string> := ["none", "basic", "projects", "professional"]
  const LanguageOptions: seq<string> :=
    ["Python", "JavaScript", "Java", "C++", "Go", "PHP", "Ruby", "C#", "TypeScript", "Rust"]
  const WeeklyHoursOptions: seq<string> := ["casual", "steady", "intensive", "accelerated"]
  const DaysOfWeek: seq<string> :=
    ["Monday", "Tuesday", "Wednesday", "Thursday", "Friday", "Saturday", "Sunday"]

  /** `x => x !== item`. */
  function Other(item: string): string -> bool {
    (x: string) => x != item
  }

  /**
   * A checkbox click on `item`: checked appends it at the end (an item
   * already present is added again), unchecked filters out every copy.
   */
  function Toggle(list: seq<string>, item: string, checked: bool): (r: seq<string>)
    ensures checked ==> |r| == |list| + 1 && r[..|list|] == list && r[|list|] == item
    ensures !checked ==> item !in r && |r| <= |list|
  {
    if checked then list + [item] else Filter(Other(item), list)
  }

  /** Unchecking keeps every other item with its multiplicity, in the original order. */
  lemma ToggleOffKeepsOthers(list: seq<string>, item: string)
    ensures IsSubseq(Toggle(list, item, false), list)
    ensures forall x :: x != item ==> multiset(Toggle(list, item, false))[x] == multiset(list)[x]
  {
    FilterIsSubseq(Other(item), list);
    forall x | x != item
      ensures multiset(Toggle(list, item, false))[x] == multiset(list)[x]
    {
      FilterMultiset(Other(item), list, x);
    }
  }

  /** Unchecking an item that is not in the list leaves the list as it is. */
  lemma ToggleOffAbsent(list: seq<string>, item: string)
    requires item !in list
    ensures Toggle(list, item, false) == list
  {
    FilterAllKept(Other(item), list);
  }

  /** Checking an item already present adds a second copy. */
  lemma ToggleOnNoDedup(list: seq<string>, item: string)
    ensures multiset(Toggle(list, item, true))[item] == multiset(list)[item] + 1
  {
  }

  /** Checking and then unchecking an item leaves no copy of it and nothing else changed. */
  lemma ToggleOnThenOff(list: seq<string>, item: string)
    ensures Toggle(Toggle(list, item, true), item, false) == Toggle(list, item, false)
  {
    FilterAppend(Other(item), list, [item]);
    assert Filter(Other(item), [item]) == [];
    assert Filter(Other(item), list) + [] == Filter(Other(item), list);
  }

  /** `handleGoalChange(goal, checked)`: the update it sends. */
  function GoalChange(d: AssessmentData, goal: string, checked: bool): (r: Patch)
    ensures r == NoChanges().(goals := r.goals) && r.goals.Some?
    ensures checked <==> goal in r.goals.value
  {
    NoChanges().(goals := Some(Toggle(d.goals, goal, checked)))
  }

  /** `handleLanguageChange(language, checked)`: the update it sends. */
  function LanguageChange(d: AssessmentData, language: string, checked: bool): (r: Patch)
    ensures r == NoChanges().(languages := r.languages) && r.languages.Some?
    ensures checked <==> language in r.languages.value
  {
    NoChanges().(languages := Some(Toggle(d.languages, language, checked)))
  }

  /** `handleDayChange(day, checked)`: the update it sends. */
  function DayChange(d: AssessmentData, day: string, checked: bool): (r: Patch)
    ensures r == NoChanges().(preferredDays := r.preferredDays) && r.preferredDays.Some?
    ensures checked <==> day in r.preferredDays.value
  {
    NoChanges().(preferredDays := Some(Toggle(d.preferredDays, day, checked)))
  }

  /** Each handler's update changes its own list and no other answer. */
  lemma ChangesTouchOneField(d: AssessmentData, item: string, checked: bool)
    ensures Merge(d, GoalChange(d, item, checked)) == d.(goals := Toggle(d.goals, item, checked))
    ensures Merge(d, LanguageChange(d, item, checked)) == d.(languages := Toggle(d.languages, item, checked))
    ensures Merge(d, DayChange(d, item, checked)) == d.(preferredDays := Toggle(d.preferredDays, item, checked))
  {
  }

  /** "None" is an ordinary checkbox: checking it keeps the languages already chosen. */
  lemma NoneKeepsOtherLanguages(d: AssessmentData)
    ensures var after := Merge(d, LanguageChange(d, "None", true));
      after.languages[..|d.languages|] == d.languages && "None" in after.languages
  {
    ChangesTouchOneField(d, "None", true);
    var after := Merge(d, LanguageChange(d, "None", true));
    assert after.languages[|d.languages|] == "None";
  }

  /** The goal detail and timeline inputs show once a goal is chosen. */
  predicate ShowsGoalDetails(d: AssessmentData) {
    |d.goals| > 0
  }

  /** The language checkboxes show once an experience other than "none" is chosen. */
  predicate ShowsLanguages(d: AssessmentData) {
    d.experience != "" && d.experience != "none"
  }

  /** The day and time-of-day inputs show once a weekly commitment is chosen. */
  predicate ShowsSchedule(d: AssessmentData) {
    d.weeklyHours != ""
  }

  /** The goal details appear exactly when the goals step may be left. */
  lemma GoalDetailsIffCanProceed(d: AssessmentData)
    ensures ShowsGoalDetails(d) <==> CanProceed(At(3), d)
    ensures ShowsSchedule(d) <==> CanProceed(At(4), d)
  {
  }

  /** Checking any goal shows the details; unchecking the only chosen goal hides them again. */
  lemma GoalDetailsFollowToggle(d: AssessmentData, goal: string)
    ensures ShowsGoalDetails(Merge(d, GoalChange(d, goal, true)))
    ensures (forall i :: 0 <= i < |d.goals| ==> d.goals[i] == goal) ==>
      !ShowsGoalDetails(Merge(d, GoalChange(d, goal, false)))
  {
    ChangesTouchOneField(d, goal, true);
    ChangesTouchOneField(d, goal, false);
    if forall i :: 0 <= i < |d.goals| ==> d.goals[i] == goal {
      FilterNoneKept(Other(goal), d.goals);
    }
  }

  /** The language section shows for every experience option but "none". */
  lemma LanguagesShownForExperience(d: AssessmentData, option: string)
    requires option in ExperienceOptions
    ensures ShowsLanguages(d.(experience := option)) <==> option != "none"
  {
  }

  /** `day.slice(0, 3)`. */
  function DayLabel(day: string): (r: string)
    ensures |r| == if |day| < 3 then |day| else 3
    ensures r == day[..|r|]
  {
    if |day| < 3 then day else day[..3]
  }

  /** The seven days get the short labels Mon..Sun, all different. */
  lemma DayLabelsOfWeek()
    ensures forall i :: 0 <= i < |DaysOfWeek| ==> |DayLabel(DaysOfWeek[i])| == 3
    ensures DayLabel(DaysOfWeek[0]) == "Mon" && DayLabel(DaysOfWeek[6]) == "Sun"
    ensures forall i, j :: 0 <= i < j < |DaysOfWeek| ==> DayLabel(DaysOfWeek[i]) != DayLabel(DaysOfWeek[j])
  {
    assert DayLabel(DaysOfWeek[0]) == "Mon";
    assert DayLabel(DaysOfWeek[1]) == "Tue";
    assert DayLabel(DaysOfWeek[2]) == "Wed";
    assert DayLabel(DaysOfWeek[3]) == "Thu";
    assert DayLabel(DaysOfWeek[4]) == "Fri";
    assert DayLabel(DaysOfWeek[5]) == "Sat";
    assert DayLabel(DaysOfWeek[6]) == "Sun";
  }
}
