/** The discovery query: which opportunities a set of filters selects, in which order, and page by page. */
module Discovery {
  import opened Domain
  import opened Text
  import opened Workflow
  import opened LikePattern
  import opened Ordering

  datatype SortField = ByCreatedAt | ByUpdatedAt | ByStatus | ByType | ByProjectName | ByTitle | ByStartDate

  datatype Direction = Asc | Desc

  /** Normalized filters. An empty list, an empty string and the number 0 stand for a filter that is not set. */
  datatype Filters = Filters(
    page: nat,
    perPage: nat,
    sortField: SortField,
    direction: Direction,
    noGrouping: bool,
    search: string,
    statuses: seq<OpportunityStatus>,
    projectId: Id,
    projectName: string,
    types: seq<OpportunityType>,
    skills: seq<string>,
    startDateFrom: string,
    startDateTo: string,
    createdAtFrom: Option<int>,
    createdAtTo: Option<int>,
    applied: Option<bool>,
    applicationStatuses: seq<ApplicationStatus>,
    currentUserId: nat)

  // ----- the joined row -----

  function StatusName(status: OpportunityStatus): string {
    match status
    case Active => "active"
    case Completed => "completed"
    case Canceled => "canceled"
  }

  /** Data of the request that an opportunity is joined with; the join does not look at deletedAt. */
  function JoinedData(t: Tables, o: Id): Option<RequestData>
    requires o in t.opportunities
  {
    var link := t.opportunities[o].requestId;
    if link.Some? && link.value in t.requests then Some(t.requests[link.value].data) else None
  }

  /** The `->>` operator: the text of a field, or None for a missing or null one. */
  function FieldText(t: Tables, o: Id, key: string): Option<string>
    requires o in t.opportunities
  {
    var data := JoinedData(t, o);
    if data.Some? && key in data.value.fields && !data.value.fields[key].JsonNull?
    then Some(data.value.fields[key].text) else None
  }

  function OrEmpty(s: Option<string>): string {
    if s.Some? then s.value else ""
  }

  function ProjectName(t: Tables, o: Id): string
    requires o in t.opportunities
  {
    var link := t.opportunities[o].projectId;
    if link.Some? && link.value in t.projects then t.projects[link.value].name else ""
  }

  /** The skills value as JSON text; a missing value counts as the empty array. */
  function SkillsText(t: Tables, o: Id): string
    requires o in t.opportunities
  {
    var data := JoinedData(t, o);
    if data.Some? && "skills" in data.value.fields then
      match data.value.fields["skills"]
      case JsonNull => "null"
      case JsonNumber(text) => text
      case JsonString(text) => "\"" + text + "\""
      case JsonSkills(text, _) => text
    else "[]"
  }

  function SkillsOf(t: Tables, o: Id): seq<Skill>
    requires o in t.opportunities
  {
    var data := JoinedData(t, o);
    if data.Some? && "skills" in data.value.fields && data.value.fields["skills"].JsonSkills?
    then data.value.fields["skills"].skills else []
  }

  // ----- filtering -----

  datatype Column = TitleColumn | OverviewColumn | ProjectNameColumn | TypeColumn | SkillsColumn

  /** The text of a column that a search looks at, folded to lower case. */
  function Folded(t: Tables, o: Id, column: Column): string
    requires o in t.opportunities
  {
    Lower(match column
          case TitleColumn => OrEmpty(FieldText(t, o, "opportunityTitle"))
          case OverviewColumn => OrEmpty(FieldText(t, o, "overview"))
          case ProjectNameColumn => ProjectName(t, o)
          case TypeColumn => TypeName(t.opportunities[o].kind)
          case SkillsColumn => SkillsText(t, o))
  }

  const SEARCH_COLUMNS: seq<Column> := [TitleColumn, OverviewColumn, ProjectNameColumn, TypeColumn, SkillsColumn]

  /** One SQL predicate of the WHERE clause. */
  datatype Condition =
    | NotDeleted
    | AnyStatus(statuses: seq<OpportunityStatus>)
    | AnyType(types: seq<OpportunityType>)
    | InProject(projectId: Id)
    | AnyLike(columns: seq<Column>, pattern: string)
    | AnySkill(lowered: seq<string>)
    | StartsFrom(bound: string)
    | StartsTo(bound: string)
    | CreatedFrom(instant: int)
    | CreatedTo(instant: int)
    | Exists(userId: nat, applicationStatuses: seq<ApplicationStatus>)
    | NotExists(userId: nat, applicationStatuses: seq<ApplicationStatus>)

  predicate ApplicationExists(t: Tables, o: Id, u: nat, statuses: seq<ApplicationStatus>) {
    exists a | a in t.applications ::
      ApplicationOf(t.applications, a, o, u) && (statuses == [] || t.applications[a].status in statuses)
  }

  /** What the database makes of a condition; a comparison with null selects nothing. */
  predicate Eval(t: Tables, o: Id, c: Condition)
    requires o in t.opportunities
    requires c.AnyLike? ==> WellFormed(c.pattern)
  {
    var opp := t.opportunities[o];
    match c
    case NotDeleted => !opp.deleted
    case AnyStatus(statuses) => opp.status in statuses
    case AnyType(types) => opp.kind in types
    case InProject(p) => opp.projectId == Some(p)
    case AnyLike(columns, pattern) => exists column | column in columns :: Like(Folded(t, o, column), pattern)
    case AnySkill(lowered) =>
      exists skill | skill in SkillsOf(t, o) :: Lower(skill.id) in lowered || Lower(skill.name) in lowered
    case StartsFrom(bound) =>
      FieldText(t, o, "startDate").Some? && TextAtMost(bound, FieldText(t, o, "startDate").value)
    case StartsTo(bound) =>
      FieldText(t, o, "startDate").Some? && TextAtMost(FieldText(t, o, "startDate").value, bound)
    case CreatedFrom(instant) => opp.createdAt >= instant
    case CreatedTo(instant) => opp.createdAt <= instant
    case Exists(u, statuses) => ApplicationExists(t, o, u, statuses)
    case NotExists(u, statuses) => !ApplicationExists(t, o, u, statuses)
  }

  predicate Sound(cs: seq<Condition>) {
    forall c | c in cs :: c.AnyLike? ==> WellFormed(c.pattern)
  }

  /** All conditions hold: the WHERE clause joins them with AND. */
  predicate Holds(t: Tables, o: Id, cs: seq<Condition>)
    requires o in t.opportunities && Sound(cs)
  {
    forall c | c in cs :: Eval(t, o, c)
  }

  predicate SkillWanted(skill: Skill, wanted: string) {
    Lower(skill.id) == Lower(wanted) || Lower(skill.name) == Lower(wanted)
  }

  /** The filters on columns of the opportunity row. */
  predicate RowMatches(t: Tables, f: Filters, o: Id)
    requires o in t.opportunities
  {
    var opp := t.opportunities[o];
    && !opp.deleted
    && (f.statuses != [] ==> opp.status in f.statuses)
    && (f.types != [] ==> opp.kind in f.types)
    && (f.projectId != 0 ==> opp.projectId == Some(f.projectId))
  }

  /** The request that the opportunity is linked with has value `v` under `key`. */
  predicate HasField(t: Tables, o: Id, key: string, v: Json)
    requires o in t.opportunities
  {
    exists r | r in t.requests :: t.opportunities[o].requestId == Some(r)
      && key in t.requests[r].data.fields && t.requests[r].data.fields[key] == v
  }

  /** That value is not null and reads `text`. */
  ghost predicate FieldReads(t: Tables, o: Id, key: string, text: string)
    requires o in t.opportunities
  {
    exists v :: HasField(t, o, key, v) && !v.JsonNull? && v.text == text
  }

  /** The opportunity's project has this name. */
  predicate InProjectNamed(t: Tables, o: Id, name: string)
    requires o in t.opportunities
  {
    exists p | p in t.projects :: t.opportunities[o].projectId == Some(p) && t.projects[p].name == name
  }

  /** The JSON text of the skills; without that key it is the text of an empty array. */
  ghost predicate SkillsRead(t: Tables, o: Id, text: string)
    requires o in t.opportunities
  {
    || (text == "[]" && forall v :: !HasField(t, o, "skills", v))
    || (text == "null" && HasField(t, o, "skills", JsonNull))
    || HasField(t, o, "skills", JsonNumber(text))
    || (exists word :: HasField(t, o, "skills", JsonString(word)) && text == "\"" + word + "\"")
    || (exists skills :: HasField(t, o, "skills", JsonSkills(text, skills)))
  }

  /** `text` is one of the five texts that a search looks at: title, overview, project name, type and skills. */
  ghost predicate Searchable(t: Tables, o: Id, text: string)
    requires o in t.opportunities
  {
    || FieldReads(t, o, "opportunityTitle", text)
    || FieldReads(t, o, "overview", text)
    || InProjectNamed(t, o, text)
    || text == TypeName(t.opportunities[o].kind)
    || SkillsRead(t, o, text)
  }

  /** The request asks for this skill. */
  ghost predicate AsksForSkill(t: Tables, o: Id, skill: Skill)
    requires o in t.opportunities
  {
    exists text, skills :: HasField(t, o, "skills", JsonSkills(text, skills)) && skill in skills
  }

  /** The filters on text: a partial project name, a search over five texts, and skills by id or name, all of them
      in any letter case. */
  ghost predicate TextMatches(t: Tables, f: Filters, o: Id)
    requires o in t.opportunities
  {
    && (f.projectName != "" ==>
          exists name :: InProjectNamed(t, o, name) && Contains(Lower(name), Lower(f.projectName)))
    && (f.search != "" ==> exists text :: Searchable(t, o, text) && Contains(Lower(text), Lower(f.search)))
    && (f.skills != [] ==>
          exists skill, wanted | wanted in f.skills :: AsksForSkill(t, o, skill) && SkillWanted(skill, wanted))
  }

  /** The inclusive date ranges. */
  ghost predicate DateMatches(t: Tables, f: Filters, o: Id)
    requires o in t.opportunities
  {
    && ((f.startDateFrom == "" && f.startDateTo == "")
        || exists start :: FieldReads(t, o, "startDate", start)
                           && StartWithin(Some(start), f.startDateFrom, f.startDateTo))
    && (f.createdAtFrom.Some? ==> f.createdAtFrom.value <= t.opportunities[o].createdAt)
    && (f.createdAtTo.Some? ==> t.opportunities[o].createdAt <= f.createdAtTo.value)
  }

  /** The filter on the current user's applications. */
  predicate ApplicationMatches(t: Tables, f: Filters, o: Id) {
    ByApplication(f) ==>
      (ApplicationExists(t, o, f.currentUserId, f.applicationStatuses) <==> f.applied != Some(false))
  }

  /** What the filters promise: every filter that is set admits the opportunity. */
  ghost predicate Matches(t: Tables, f: Filters, o: Id)
    requires o in t.opportunities
  {
    RowMatches(t, f, o) && TextMatches(t, f, o) && DateMatches(t, f, o) && ApplicationMatches(t, f, o)
  }

  /** The text bounds on the requested start; an empty bound is no bound. */
  predicate StartWithin(start: Option<string>, from: string, to: string) {
    && (from != "" ==> start.Some? && TextAtMost(from, start.value))
    && (to != "" ==> start.Some? && TextAtMost(start.value, to))
  }

  /** A filter on the current user's applications is set. */
  predicate ByApplication(f: Filters) {
    f.currentUserId != 0 && (f.applied.Some? || f.applicationStatuses != [])
  }

  function LoweredAll(skills: seq<string>): seq<string> {
    seq(|skills|, i requires 0 <= i < |skills| => Lower(skills[i]))
  }

  /** Pushing a condition narrows the selection by it. */
  lemma Pushed(cs: seq<Condition>, c: Condition)
    requires Sound(cs) && (c.AnyLike? ==> WellFormed(c.pattern))
    ensures Sound(cs + [c])
    ensures forall t: Tables, o: Id | o in t.opportunities ::
      Holds(t, o, cs + [c]) <==> Holds(t, o, cs) && Eval(t, o, c)
  {
    hide Eval;
    assert forall d | d in cs + [c] :: d in cs || d == c;
    assert c in cs + [c] && forall d | d in cs :: d in cs + [c];
  }

  method PushRowConditions(f: Filters, conditions: seq<Condition>) returns (pushed: seq<Condition>)
    requires Sound(conditions)
    ensures Sound(pushed)
    ensures forall t: Tables, o: Id | o in t.opportunities ::
      Holds(t, o, pushed) <==> Holds(t, o, conditions) && RowMatches(t, f, o)
  {
    hide Holds, Sound;
    Pushed(conditions, NotDeleted);
    pushed := conditions + [NotDeleted];
    if |f.statuses| > 0 {
      Pushed(pushed, AnyStatus(f.statuses));
      pushed := pushed + [AnyStatus(f.statuses)];
    }
    if |f.types| > 0 {
      Pushed(pushed, AnyType(f.types));
      pushed := pushed + [AnyType(f.types)];
    }
    if f.projectId != 0 {
      Pushed(pushed, InProject(f.projectId));
      pushed := pushed + [InProject(f.projectId)];
    }
  }

  method PushTextConditions(f: Filters, conditions: seq<Condition>) returns (pushed: seq<Condition>)
    requires Sound(conditions)
    ensures Sound(pushed)
    ensures forall t: Tables, o: Id | o in t.opportunities ::
      Holds(t, o, pushed) <==> Holds(t, o, conditions) && TextMatches(t, f, o)
  {
    TextConditionsMean(f);
    hide Holds, Sound, Eval, SearchPattern, WellFormed, LoweredAll, TextMatches;
    pushed := conditions;
    if f.projectName != "" {
      Pushed(pushed, AnyLike([ProjectNameColumn], SearchPattern(Lower(f.projectName))));
      pushed := pushed + [AnyLike([ProjectNameColumn], SearchPattern(Lower(f.projectName)))];
    }
    if f.search != "" {
      Pushed(pushed, AnyLike(SEARCH_COLUMNS, SearchPattern(Lower(f.search))));
      pushed := pushed + [AnyLike(SEARCH_COLUMNS, SearchPattern(Lower(f.search)))];
    }
    if |f.skills| > 0 {
      Pushed(pushed, AnySkill(LoweredAll(f.skills)));
      pushed := pushed + [AnySkill(LoweredAll(f.skills))];
    }
  }

  /** The text of a field, as the tables have it. */
  lemma FieldTextReads(t: Tables, o: Id, key: string)
    requires o in t.opportunities
    ensures forall text :: FieldReads(t, o, key, text) <==> FieldText(t, o, key) == Some(text)
  {
    var link := t.opportunities[o].requestId;
    if FieldText(t, o, key).Some? {
      assert HasField(t, o, key, t.requests[link.value].data.fields[key]);
    }
  }

  lemma StartConditionsMean(t: Tables, f: Filters, o: Id)
    requires o in t.opportunities
    ensures (f.startDateFrom == "" && f.startDateTo == "")
            || (exists start :: FieldReads(t, o, "startDate", start)
                                && StartWithin(Some(start), f.startDateFrom, f.startDateTo))
       <==> && (f.startDateFrom != "" ==> Eval(t, o, StartsFrom(f.startDateFrom)))
            && (f.startDateTo != "" ==> Eval(t, o, StartsTo(f.startDateTo)))
  {
    FieldTextReads(t, o, "startDate");
    hide FieldText, FieldReads, TextAtMost;
    if FieldText(t, o, "startDate").Some? {
      assert FieldReads(t, o, "startDate", FieldText(t, o, "startDate").value);
    }
  }

  /** The four date conditions mean what the filters promise. */
  lemma DateConditionsMean(f: Filters)
    ensures forall t: Tables, o: Id | o in t.opportunities ::
      DateMatches(t, f, o) <==>
      && (f.startDateFrom != "" ==> Eval(t, o, StartsFrom(f.startDateFrom)))
      && (f.startDateTo != "" ==> Eval(t, o, StartsTo(f.startDateTo)))
      && (f.createdAtFrom.Some? ==> Eval(t, o, CreatedFrom(f.createdAtFrom.value)))
      && (f.createdAtTo.Some? ==> Eval(t, o, CreatedTo(f.createdAtTo.value)))
  {
    hide FieldReads, FieldText, StartWithin, TextAtMost;
    forall t: Tables, o: Id | o in t.opportunities
      ensures DateMatches(t, f, o) <==>
        && (f.startDateFrom != "" ==> Eval(t, o, StartsFrom(f.startDateFrom)))
        && (f.startDateTo != "" ==> Eval(t, o, StartsTo(f.startDateTo)))
        && (f.createdAtFrom.Some? ==> Eval(t, o, CreatedFrom(f.createdAtFrom.value)))
        && (f.createdAtTo.Some? ==> Eval(t, o, CreatedTo(f.createdAtTo.value)))
    {
      StartConditionsMean(t, f, o);
    }
  }

  method PushDateConditions(f: Filters, conditions: seq<Condition>) returns (pushed: seq<Condition>)
    requires Sound(conditions)
    ensures Sound(pushed)
    ensures forall t: Tables, o: Id | o in t.opportunities ::
      Holds(t, o, pushed) <==> Holds(t, o, conditions) && DateMatches(t, f, o)
  {
    DateConditionsMean(f);
    hide Holds, Sound, DateMatches, Eval;
    pushed := conditions;
    if f.startDateFrom != "" {
      Pushed(pushed, StartsFrom(f.startDateFrom));
      pushed := pushed + [StartsFrom(f.startDateFrom)];
    }
    if f.startDateTo != "" {
      Pushed(pushed, StartsTo(f.startDateTo));
      pushed := pushed + [StartsTo(f.startDateTo)];
    }
    if f.createdAtFrom.Some? {
      Pushed(pushed, CreatedFrom(f.createdAtFrom.value));
      pushed := pushed + [CreatedFrom(f.createdAtFrom.value)];
    }
    if f.createdAtTo.Some? {
      Pushed(pushed, CreatedTo(f.createdAtTo.value));
      pushed := pushed + [CreatedTo(f.createdAtTo.value)];
    }
  }

  method PushApplicationConditions(f: Filters, conditions: seq<Condition>) returns (pushed: seq<Condition>)
    requires Sound(conditions)
    ensures Sound(pushed)
    ensures forall t: Tables, o: Id | o in t.opportunities ::
      Holds(t, o, pushed) <==> Holds(t, o, conditions) && ApplicationMatches(t, f, o)
  {
    hide Holds, Sound, ApplicationExists;
    pushed := conditions;
    if f.currentUserId != 0 && (f.applied.Some? || |f.applicationStatuses| > 0) {
      if f.applied == Some(false) {
        Pushed(pushed, NotExists(f.currentUserId, f.applicationStatuses));
        pushed := pushed + [NotExists(f.currentUserId, f.applicationStatuses)];
      } else {
        Pushed(pushed, Exists(f.currentUserId, f.applicationStatuses));
        pushed := pushed + [Exists(f.currentUserId, f.applicationStatuses)];
      }
    }
  }

  /** Builds the WHERE clause by pushing one condition for each filter that is set; together the conditions
      select exactly the opportunities that the filters promise. */
  method BuildOpportunityConditions(f: Filters) returns (conditions: seq<Condition>)
    ensures Sound(conditions)
    ensures forall t: Tables, o: Id | o in t.opportunities :: Holds(t, o, conditions) <==> Matches(t, f, o)
  {
    assert Sound([]) && forall t: Tables, o: Id | o in t.opportunities :: Holds(t, o, []);
    hide RowMatches, TextMatches, DateMatches, ApplicationMatches, Holds, Sound;
    conditions := PushRowConditions(f, []);
    conditions := PushTextConditions(f, conditions);
    conditions := PushDateConditions(f, conditions);
    conditions := PushApplicationConditions(f, conditions);
  }

  lemma SearchedColumns(t: Tables, o: Id, columns: seq<Column>, s: string)
    requires o in t.opportunities
    ensures WellFormed(SearchPattern(s))
    ensures Eval(t, o, AnyLike(columns, SearchPattern(s))) <==> exists c | c in columns :: Contains(Folded(t, o, c), s)
  {
    SearchPatternWellFormed(s);
    forall c | c in columns
      ensures Like(Folded(t, o, c), SearchPattern(s)) <==> Contains(Folded(t, o, c), s)
    {
      SearchIsLiteral(Folded(t, o, c), s);
    }
  }

  lemma SkillsAmong(t: Tables, o: Id, skills: seq<string>)
    requires o in t.opportunities
    ensures Eval(t, o, AnySkill(LoweredAll(skills))) <==>
      exists skill, wanted | skill in SkillsOf(t, o) && wanted in skills :: SkillWanted(skill, wanted)
  {
    var lowered := LoweredAll(skills);
    forall x: string
      ensures x in lowered <==> exists wanted | wanted in skills :: Lower(wanted) == x
    {
      if x in lowered {
        var i :| 0 <= i < |lowered| && lowered[i] == x;
        assert skills[i] in skills && Lower(skills[i]) == x;
      }
      if wanted :| wanted in skills && Lower(wanted) == x {
        var i :| 0 <= i < |skills| && skills[i] == wanted;
        assert lowered[i] == x;
      }
    }
    if Eval(t, o, AnySkill(lowered)) {
      var skill :| skill in SkillsOf(t, o) && (Lower(skill.id) in lowered || Lower(skill.name) in lowered);
      var wanted :| wanted in skills && (Lower(wanted) == Lower(skill.id) || Lower(wanted) == Lower(skill.name));
      assert SkillWanted(skill, wanted);
    }
  }

  lemma AllColumns(c: Column)
    ensures c in SEARCH_COLUMNS
  {
    assert SEARCH_COLUMNS[match c
                          case TitleColumn => 0
                          case OverviewColumn => 1
                          case ProjectNameColumn => 2
                          case TypeColumn => 3
                          case SkillsColumn => 4] == c;
  }

  lemma ProjectNameIs(t: Tables, o: Id)
    requires o in t.opportunities
    ensures forall name | InProjectNamed(t, o, name) :: name == ProjectName(t, o)
    ensures ProjectName(t, o) != "" ==> InProjectNamed(t, o, ProjectName(t, o))
  {
  }

  lemma SkillsAre(t: Tables, o: Id)
    requires o in t.opportunities
    ensures forall text :: SkillsRead(t, o, text) <==> text == SkillsText(t, o)
    ensures forall skill :: AsksForSkill(t, o, skill) <==> skill in SkillsOf(t, o)
  {
    var link := t.opportunities[o].requestId;
    if link.Some? && link.value in t.requests && "skills" in t.requests[link.value].data.fields {
      var v := t.requests[link.value].data.fields["skills"];
      assert forall w :: HasField(t, o, "skills", w) <==> w == v;
      hide HasField;
      match v
      case JsonNull =>
        assert HasField(t, o, "skills", JsonNull);
        assert SkillsText(t, o) == "null";
      case JsonNumber(text) =>
        assert HasField(t, o, "skills", JsonNumber(text));
      case JsonString(word) =>
        assert HasField(t, o, "skills", JsonString(word));
      case JsonSkills(text, skills) =>
        assert HasField(t, o, "skills", JsonSkills(text, skills));
    } else {
      assert forall w :: !HasField(t, o, "skills", w);
      hide HasField;
    }
  }

  /** A folded text that is not empty occurs in some column if and only if it occurs in a searchable text. */
  lemma ColumnsHoldTexts(t: Tables, o: Id, s: string)
    requires o in t.opportunities && s != ""
    ensures (exists column :: Contains(Folded(t, o, column), s))
       <==> (exists text :: Searchable(t, o, text) && Contains(Lower(text), s))
    ensures Contains(Folded(t, o, ProjectNameColumn), s)
       <==> exists name :: InProjectNamed(t, o, name) && Contains(Lower(name), s)
  {
    FieldTextReads(t, o, "opportunityTitle");
    FieldTextReads(t, o, "overview");
    ProjectNameIs(t, o);
    SkillsAre(t, o);
    assert !Contains("", s);
    hide FieldText, FieldReads, InProjectNamed, ProjectName, SkillsRead, SkillsText, Contains, Lower;
    EmptyLower();
    if column :| Contains(Folded(t, o, column), s) {
      var text := match column
        case TitleColumn => OrEmpty(FieldText(t, o, "opportunityTitle"))
        case OverviewColumn => OrEmpty(FieldText(t, o, "overview"))
        case ProjectNameColumn => ProjectName(t, o)
        case TypeColumn => TypeName(t.opportunities[o].kind)
        case SkillsColumn => SkillsText(t, o);
      assert Contains(Lower(text), s) && Searchable(t, o, text);
    }
    if text :| Searchable(t, o, text) && Contains(Lower(text), s) {
      assert Contains(Folded(t, o, TitleColumn), s) || Contains(Folded(t, o, OverviewColumn), s)
        || Contains(Folded(t, o, ProjectNameColumn), s) || Contains(Folded(t, o, TypeColumn), s)
        || Contains(Folded(t, o, SkillsColumn), s);
    }
  }

  lemma EmptyLower()
    ensures Lower("") == ""
  {
  }

  /** The three text conditions mean what the filters promise. */
  lemma TextConditionsMean(f: Filters)
    ensures WellFormed(SearchPattern(Lower(f.projectName))) && WellFormed(SearchPattern(Lower(f.search)))
    ensures forall t: Tables, o: Id | o in t.opportunities ::
      TextMatches(t, f, o) <==>
      && (f.projectName != "" ==> Eval(t, o, AnyLike([ProjectNameColumn], SearchPattern(Lower(f.projectName)))))
      && (f.search != "" ==> Eval(t, o, AnyLike(SEARCH_COLUMNS, SearchPattern(Lower(f.search)))))
      && (f.skills != [] ==> Eval(t, o, AnySkill(LoweredAll(f.skills))))
  {
    SearchPatternWellFormed(Lower(f.projectName));
    SearchPatternWellFormed(Lower(f.search));
    assert |Lower(f.projectName)| == |f.projectName| && |Lower(f.search)| == |f.search|;
    hide Eval, Contains, SearchPattern, WellFormed, LoweredAll, SkillWanted, SkillsOf, Folded, Searchable;
    hide InProjectNamed, AsksForSkill, Lower, SkillsRead, SkillsText;
    assert ProjectNameColumn in [ProjectNameColumn];
    forall c ensures c in SEARCH_COLUMNS { AllColumns(c); }
    forall t: Tables, o: Id | o in t.opportunities
      ensures TextMatches(t, f, o) <==>
        && (f.projectName != "" ==> Eval(t, o, AnyLike([ProjectNameColumn], SearchPattern(Lower(f.projectName)))))
        && (f.search != "" ==> Eval(t, o, AnyLike(SEARCH_COLUMNS, SearchPattern(Lower(f.search)))))
        && (f.skills != [] ==> Eval(t, o, AnySkill(LoweredAll(f.skills))))
    {
      SearchedColumns(t, o, [ProjectNameColumn], Lower(f.projectName));
      SearchedColumns(t, o, SEARCH_COLUMNS, Lower(f.search));
      SkillsAmong(t, o, f.skills);
      SkillsAre(t, o);
      if f.projectName != "" {
        ColumnsHoldTexts(t, o, Lower(f.projectName));
      }
      if f.search != "" {
        ColumnsHoldTexts(t, o, Lower(f.search));
      }
    }
  }
}
