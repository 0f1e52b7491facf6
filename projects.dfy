/**
 * The project catalogue page: the fixed list of guided projects, the
 * filter combining a case-insensitive search with category, difficulty
 * and status-tab selections, and the badge variant and icon of each card.
 */
module Projects {
  import opened JsText
  import opened SeqUtil

  /** The fields of a catalogue entry the page filters and decorates on. */
  datatype Project = Project(
    id: string,
    title: string,
    description: string,
    difficulty: string,
    category: string,
    status: string)

  const TaskManager := Project("task-manager", "Task Manager API",
    "Build a complete RESTful API with user authentication, CRUD operations, and real-time updates using WebSocket connections.",
    "Beginner", "Web APIs", "available")
  const Ecommerce := Project("ecommerce-backend", "E-commerce Backend",
    "Create a scalable e-commerce platform with payment processing, inventory management, and order tracking.",
    "Intermediate", "E-commerce", "in-progress")
  const SocialMedia := Project("social-platform", "Social Media Platform",
    "Develop a complete social platform with feeds, messaging, content moderation, and scalable architecture.",
    "Advanced", "Social Media", "available")
  const ApiGateway := Project("api-gateway", "API Gateway Service",
    "Build a robust API gateway with rate limiting, authentication, load balancing, and monitoring.",
    "Advanced", "Infrastructure", "available")
  const BlockchainApi := Project("blockchain-api", "Blockchain Data API",
    "Create a high-performance API for blockchain data with caching, WebSocket feeds, and analytics.",
    "Advanced", "Blockchain", "available")
  const MlApi := Project("ml-api", "Machine Learning API",
    "Build a scalable ML inference API with model versioning, A/B testing, and performance monitoring.",
    "Intermediate", "Machine Learning", "available")

  const Catalogue: seq<Project> := [TaskManager, Ecommerce, SocialMedia, ApiGateway, BlockchainApi, MlApi]

  /** The page's four filter controls. */
  datatype Filters = Filters(searchTerm: string, category: string, difficulty: string, activeTab: string)

  const InitialFilters := Filters("", "All", "All", "all")

  predicate MatchesSearch(p: Project, searchTerm: string) {
    Includes(Lower(p.title), Lower(searchTerm)) || Includes(Lower(p.description), Lower(searchTerm))
  }

  predicate MatchesTab(p: Project, tab: string) {
    tab == "all"
    || (tab == "in-progress" && p.status == "in-progress")
    || (tab == "available" && p.status == "available")
    || (tab == "completed" && p.status == "completed")
  }

  /** The filter callback: all four tests must pass. */
  predicate Matches(p: Project, f: Filters) {
    MatchesSearch(p, f.searchTerm)
    && (f.category == "All" || p.category == f.category)
    && (f.difficulty == "All" || p.difficulty == f.difficulty)
    && MatchesTab(p, f.activeTab)
  }

  function Keep(f: Filters): Project -> bool {
    (p: Project) => Matches(p, f)
  }

  /** `filteredProjects`. */
  function FilteredProjects(projects: seq<Project>, f: Filters): (r: seq<Project>)
    ensures forall i :: 0 <= i < |r| ==> Matches(r[i], f) && r[i] in projects
    ensures forall i :: 0 <= i < |projects| && Matches(projects[i], f) ==> projects[i] in r
  {
    Filter(Keep(f), projects)
  }

  /** A project is listed exactly when it is in the catalogue and passes every test, in catalogue order. */
  lemma FilteredMembership(projects: seq<Project>, f: Filters, p: Project)
    ensures p in FilteredProjects(projects, f) <==> p in projects && Matches(p, f)
    ensures IsSubseq(FilteredProjects(projects, f), projects)
  {
    FilterIsSubseq(Keep(f), projects);
    if p in FilteredProjects(projects, f) {
      var i :| 0 <= i < |FilteredProjects(projects, f)| && FilteredProjects(projects, f)[i] == p;
    }
    if p in projects && Matches(p, f) {
      var i :| 0 <= i < |projects| && projects[i] == p;
    }
  }

  /** The "No projects found" card shows exactly when no project passes every test. */
  lemma EmptyCardIffNoMatch(projects: seq<Project>, f: Filters)
    ensures |FilteredProjects(projects, f)| == 0 <==> forall i :: 0 <= i < |projects| ==> !Matches(projects[i], f)
  {
    if forall i :: 0 <= i < |projects| ==> !Matches(projects[i], f) {
      FilterNoneKept(Keep(f), projects);
    } else {
      var i :| 0 <= i < |projects| && Matches(projects[i], f);
      FilteredMembership(projects, f, projects[i]);
    }
  }

  /** The empty search matches every project. */
  lemma EmptySearchMatchesAll(p: Project)
    ensures MatchesSearch(p, "")
  {
    IncludesEmpty(Lower(p.title));
  }

  /** The search ignores letter case in the search term. */
  lemma SearchIgnoresCase(p: Project, f: Filters)
    ensures Matches(p, f) == Matches(p, f.(searchTerm := Lower(f.searchTerm)))
  {
    LowerIdempotent(f.searchTerm);
  }

  /** With every control at its "All" setting and an empty search, the whole catalogue is listed. */
  lemma InitialFiltersListEverything(projects: seq<Project>)
    ensures FilteredProjects(projects, InitialFilters) == projects
  {
    forall i | 0 <= i < |projects| ensures Matches(projects[i], InitialFilters) {
      EmptySearchMatchesAll(projects[i]);
    }
    FilterAllKept(Keep(InitialFilters), projects);
  }

  /** A tab value other than the four the filter tests matches nothing. */
  lemma UnknownTabListsNothing(projects: seq<Project>, f: Filters)
    requires f.activeTab !in ["all", "in-progress", "available", "completed"]
    ensures FilteredProjects(projects, f) == []
  {
    FilterNoneKept(Keep(f), projects);
  }

  /** Narrowing a category never adds projects: the result is a subsequence of the unrestricted one. */
  lemma CategoryNarrows(projects: seq<Project>, f: Filters, category: string)
    requires f.category == "All"
    ensures IsSubseq(FilteredProjects(projects, f.(category := category)), FilteredProjects(projects, f))
  {
    NarrowerFilter(projects, f, f.(category := category));
  }

  /** A filter that only ever keeps what another keeps gives a subsequence of its result. */
  lemma {:induction false} NarrowerFilter(projects: seq<Project>, wide: Filters, narrow: Filters)
    requires forall p :: Matches(p, narrow) ==> Matches(p, wide)
    ensures IsSubseq(FilteredProjects(projects, narrow), FilteredProjects(projects, wide))
  {
    if projects != [] {
      NarrowerFilter(projects[1..], wide, narrow);
      var n := FilteredProjects(projects[1..], narrow);
      var w := FilteredProjects(projects[1..], wide);
      if Matches(projects[0], narrow) {
        SubseqRefl([projects[0]]);
        SubseqConcat([projects[0]], [projects[0]], n, w);
      } else if Matches(projects[0], wide) {
        SubseqSkipFront(n, projects[0], w);
      }
    }
  }

  /**
   * With an empty search and both selectors at "All", a status tab lists
   * exactly the projects with that status.
   */
  lemma StatusTabSelectsStatus(projects: seq<Project>, tab: string, p: Project)
    requires tab in ["in-progress", "available", "completed"]
    ensures p in FilteredProjects(projects, InitialFilters.(activeTab := tab)) <==> p in projects && p.status == tab
  {
    FilteredMembership(projects, InitialFilters.(activeTab := tab), p);
    EmptySearchMatchesAll(p);
  }

  datatype BadgeVariant = Secondary | Default | Destructive

  /** `getDifficultyColor(difficulty)`. */
  function DifficultyColor(difficulty: string): (r: BadgeVariant)
    ensures r == Destructive <==> difficulty == "Advanced"
    ensures r == Default <==> difficulty == "Intermediate"
  {
    match difficulty
    case "Beginner" => Secondary
    case "Intermediate" => Default
    case "Advanced" => Destructive
    case _ => Secondary
  }

  datatype StatusIcon = CheckCircle | Play | BookOpen

  /** `getStatusIcon(status)`. */
  function StatusIconOf(status: string): (r: StatusIcon)
    ensures r == CheckCircle <==> status == "completed"
    ensures r == Play <==> status == "in-progress"
  {
    match status
    case "completed" => CheckCircle
    case "in-progress" => Play
    case _ => BookOpen
  }

  /** On the catalogue's cards only the in-progress project shows the play icon, and only advanced projects a destructive badge. */
  lemma CatalogueDecorations()
    ensures forall i :: 0 <= i < |Catalogue| ==>
      (StatusIconOf(Catalogue[i].status) == Play <==> i == 1)
    ensures forall i :: 0 <= i < |Catalogue| ==>
      (DifficultyColor(Catalogue[i].difficulty) == Destructive <==> 2 <= i <= 4)
  {
  }
}
