/**
 * The assessment's results screen: the learning path chosen from the
 * experience answer, its duration adjusted to the weekly commitment, the
 * display labels of the answers, and when the language badges show.
 */
module Results {
  import opened JsText
  import opened Assessment
  import opened AssessmentSteps

  datatype Level = Beginner | Intermediate | Advanced

  datatype LearningPath = LearningPath(
    title: string,
    level: Level,
    duration: string,
    description: string,
    projects: seq<string>,
    skills: seq<string>)

  /** `getRecommendedPath()`: decided by the experience answer alone. */
  function RecommendedPath(d: AssessmentData): (p: LearningPath)
    ensures p.level == Beginner <==> d.experience == "none" || d.experience == "basic"
    ensures p.level == Intermediate <==> d.experience == "projects"
    ensures p.duration == if p.level == Beginner then "3-4 months" else "2-3 months"
  {
    if d.experience == "none" || d.experience == "basic" then
      LearningPath("Backend Fundamentals", Beginner, "3-4 months",
        "Start with the basics and build a solid foundation",
        ["Task Manager API", "Personal Blog Backend"],
        ["HTTP/REST APIs", "Database Basics", "Authentication"])
    else if d.experience == "projects" then
      LearningPath("Professional Backend Development", Intermediate, "2-3 months",
        "Level up your skills with real-world projects",
        ["E-commerce Platform", "Social Media API"],
        ["Advanced APIs", "Database Design", "Security", "Testing"])
    else
      LearningPath("Enterprise Backend Systems", Advanced, "2-3 months",
        "Master scalable, production-ready systems",
        ["Microservices Platform", "Real-time Chat System"],
        ["Microservices", "System Design", "Performance", "DevOps"])
  }

  /** Any answer other than the three named ones, the unanswered "" included, gives the advanced path. */
  lemma UnknownExperienceIsAdvanced(d: AssessmentData)
    requires d.experience !in ["none", "basic", "projects"]
    ensures RecommendedPath(d).level == Advanced
    ensures RecommendedPath(d.(experience := "")).level == Advanced
  {
  }

  /** `getTimeEstimate()`: chained first-occurrence replaces on the path's duration. */
  function TimeEstimate(duration: string, weeklyHours: string): (r: string)
    ensures |r| == |duration|
    ensures !Includes(duration, "2-3") && !Includes(duration, "3-4") ==> r == duration
  {
    if weeklyHours == "accelerated" then ReplaceFirst(ReplaceFirst(duration, "3-4", "2-3"), "2-3", "1-2")
    else if weeklyHours == "casual" then ReplaceFirst(ReplaceFirst(duration, "2-3", "4-5"), "3-4", "5-6")
    else duration
  }

  lemma ReplaceAtStart(s: string, pat: string, rep: string)
    requires |pat| > 0 && |s| >= |pat| && s[..|pat|] == pat
    ensures ReplaceFirst(s, pat, rep) == rep + s[|pat|..]
  {
    assert OccursAt(s, pat, 0);
    var r := ReplaceFirst(s, pat, rep);
    assert r == rep + s[|pat|..] by {
      assert r[..|rep|] == rep;
    }
  }

  /** A pattern holding a character the text lacks is not replaced. */
  lemma ReplaceMissing(s: string, pat: string, rep: string, k: nat)
    requires k < |pat| && forall i :: 0 <= i < |s| ==> s[i] != pat[k]
    ensures ReplaceFirst(s, pat, rep) == s
  {
    LacksCharNotIncluded(s, pat, k);
  }

  /** The accelerated pace turns either path duration into one to two months. */
  lemma AcceleratedBeginner()
    ensures TimeEstimate("3-4 months", "accelerated") == "1-2 months"
  {
    ReplaceAtStart("3-4 months", "3-4", "2-3");
    assert "2-3" + "3-4 months"[3..] == "2-3 months";
    ReplaceAtStart("2-3 months", "2-3", "1-2");
    assert "1-2" + "2-3 months"[3..] == "1-2 months";
  }

  lemma AcceleratedOthers()
    ensures TimeEstimate("2-3 months", "accelerated") == "1-2 months"
  {
    ReplaceMissing("2-3 months", "3-4", "2-3", 2);
    ReplaceAtStart("2-3 months", "2-3", "1-2");
    assert "1-2" + "2-3 months"[3..] == "1-2 months";
  }

  /** The casual pace lengthens the paths to five to six and four to five months. */
  lemma CasualBeginner()
    ensures TimeEstimate("3-4 months", "casual") == "5-6 months"
  {
    ReplaceMissing("3-4 months", "2-3", "4-5", 0);
    ReplaceAtStart("3-4 months", "3-4", "5-6");
    assert "5-6" + "3-4 months"[3..] == "5-6 months";
  }

  lemma CasualOthers()
    ensures TimeEstimate("2-3 months", "casual") == "4-5 months"
  {
    ReplaceAtStart("2-3 months", "2-3", "4-5");
    assert "4-5" + "2-3 months"[3..] == "4-5 months";
    ReplaceMissing("4-5 months", "3-4", "5-6", 0);
  }

  /**
   * The estimate shown for an assessment: one to two months at the
   * accelerated pace whatever the path, four to six months at the casual
   * pace, and the path's own duration at every other pace.
   */
  lemma EstimateForAnswers(d: AssessmentData)
    ensures var p := RecommendedPath(d);
      var e := TimeEstimate(p.duration, d.weeklyHours);
      && (d.weeklyHours == "accelerated" ==> e == "1-2 months")
      && (d.weeklyHours == "casual" ==> e == (if p.level == Beginner then "5-6 months" else "4-5 months"))
      && (d.weeklyHours != "accelerated" && d.weeklyHours != "casual" ==> e == p.duration)
  {
    AcceleratedBeginner();
    AcceleratedOthers();
    CasualBeginner();
    CasualOthers();
  }

  /** `labels[key] || key` over an own-property table: an empty label would also fall back to the key. */
  function Label(labels: map<string, string>, key: string): (r: string)
    ensures key in labels && labels[key] != "" ==> r == labels[key]
    ensures key !in labels || labels[key] == "" ==> r == key
    ensures r == "" ==> key == ""
  {
    if key in labels && labels[key] != "" then labels[key] else key
  }

  const BackgroundLabels: map<string, string> := map[
    "student" := "Student",
    "professional" := "Working Professional",
    "career-changer" := "Career Changer",
    "self-taught" := "Self-taught Developer",
    "beginner" := "Complete Beginner"]

  const ExperienceLabels: map<string, string> := map[
    "none" := "New to Programming",
    "basic" := "Basic Understanding",
    "projects" := "Some Projects Completed",
    "professional" := "Professional Experience"]

  const GoalLabels: map<string, string> := map[
    "job" := "Get First Developer Job",
    "startup" := "Build Startup/Product",
    "skills" := "Add Backend Skills",
    "personal" := "Personal Projects",
    "freelance" := "Freelancing",
    "academic" := "Academic/Research"]

  function BackgroundLabel(background: string): string {
    Label(BackgroundLabels, background)
  }

  function ExperienceLabel(experience: string): string {
    Label(ExperienceLabels, experience)
  }

  /** `getGoalsLabels(goals)`: one label per goal, in order, an unknown goal shown as itself. */
  function GoalsLabels(goals: seq<string>): (r: seq<string>)
    ensures |r| == |goals|
    ensures forall i :: 0 <= i < |goals| ==> r[i] == Label(GoalLabels, goals[i])
  {
    if goals == [] then [] else [Label(GoalLabels, goals[0])] + GoalsLabels(goals[1..])
  }

  /** A label is the table's label for a known key and the key itself otherwise. */
  lemma LabelIsTableValueOrKey(labels: map<string, string>, key: string)
    ensures Label(labels, key) in labels.Values || Label(labels, key) == key
  {
  }

  /**
   * Every choice the experience and goals steps offer has its own label, so
   * the raw-key fallback only shows for answers not offered there.
   */
  lemma OfferedChoicesAreLabelled()
    ensures forall o :: o in ExperienceOptions ==> o in ExperienceLabels && ExperienceLabel(o) != o
    ensures forall o :: o in GoalOptions ==> o in GoalLabels && Label(GoalLabels, o) != o
  {
  }

  /** Goal labels distribute over concatenation, so each chosen goal keeps its place. */
  lemma {:induction false} GoalsLabelsAppend(a: seq<string>, b: seq<string>)
    ensures GoalsLabels(a + b) == GoalsLabels(a) + GoalsLabels(b)
  {
    if a == [] {
      assert a + b == b;
    } else {
      assert (a + b)[1..] == a[1..] + b;
      GoalsLabelsAppend(a[1..], b);
    }
  }

  /** The language badges show when languages were chosen and "None" is not among them. */
  predicate ShowsLanguageBadges(d: AssessmentData) {
    |d.languages| > 0 && "None" !in d.languages
  }

  /** Checking "None" hides the badges whatever else is chosen; checking another language on a list without "None" shows them. */
  lemma BadgesFollowLanguageToggles(d: AssessmentData, language: string)
    ensures !ShowsLanguageBadges(Merge(d, LanguageChange(d, "None", true)))
    ensures "None" !in d.languages && language != "None" ==>
      ShowsLanguageBadges(Merge(d, LanguageChange(d, language, true)))
  {
    ChangesTouchOneField(d, "None", true);
    ChangesTouchOneField(d, language, true);
    var after := Merge(d, LanguageChange(d, "None", true));
    assert after.languages[|d.languages|] == "None";
    if "None" !in d.languages && language != "None" {
      var l := Merge(d, LanguageChange(d, language, true)).languages;
      assert l == d.languages + [language];
      assert "None" !in l;
    }
  }
}
