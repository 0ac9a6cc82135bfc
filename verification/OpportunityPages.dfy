/** The order of the discovery query and its pages. */
module OpportunityPages {
  import opened Domain
  import opened Text
  import opened Ordering
  import opened Discovery

  datatype SortKey = Missing | Instant(at: int) | Name(text: string)

  function NullIfEmpty(s: string): SortKey {
    if s == "" then Missing else Name(s)
  }

  /** The value that an opportunity is ordered by; a missing one is a database null. */
  function KeyOf(t: Tables, field: SortField, o: Id): SortKey
    requires o in t.opportunities
  {
    match field
    case ByCreatedAt => Instant(t.opportunities[o].createdAt)
    case ByUpdatedAt => Instant(t.opportunities[o].updatedAt)
    case ByStatus => Name(StatusName(t.opportunities[o].status))
    case ByType => Name(TypeName(t.opportunities[o].kind))
    case ByProjectName => NullIfEmpty(Lower(ProjectName(t, o)))
    case ByTitle => NullIfEmpty(Lower(OrEmpty(FieldText(t, o, "opportunityTitle"))))
    case ByStartDate => NullIfEmpty(OrEmpty(FieldText(t, o, "startDate")))
  }

  /** Keys of one sort field: instants or names, some of them missing. */
  predicate Comparable(x: SortKey, y: SortKey) {
    x.Missing? || y.Missing? || x.Instant? == y.Instant?
  }

  predicate KeyLess(x: SortKey, y: SortKey) {
    if x.Instant? && y.Instant? then x.at < y.at
    else x.Name? && y.Name? && TextLess(x.text, y.text)
  }

  /** `x` comes before `y`: missing values are last in both directions. */
  predicate KeyBefore(direction: Direction, x: SortKey, y: SortKey) {
    if x.Missing? || y.Missing? then !x.Missing? && y.Missing?
    else if direction.Asc? then KeyLess(x, y)
    else KeyLess(y, x)
  }

  datatype Ranking = Ranking(field: SortField, direction: Direction, noGrouping: bool)

  function GroupRank(r: Ranking, status: OpportunityStatus): nat {
    if r.noGrouping then 0
    else match status
      case Active => 0
      case Canceled => 1
      case Completed => 2
  }

  /** The ORDER BY clause: the status group, then the sort field, then the id. */
  predicate Before(t: Tables, r: Ranking, a: Id, b: Id)
    requires a in t.opportunities && b in t.opportunities
  {
    var ga, gb := GroupRank(r, t.opportunities[a].status), GroupRank(r, t.opportunities[b].status);
    var ka, kb := KeyOf(t, r.field, a), KeyOf(t, r.field, b);
    ga < gb || (ga == gb && (
      KeyBefore(r.direction, ka, kb) || (ka == kb && if r.direction.Asc? then a < b else b < a)))
  }

  function OrderBy(t: Tables, r: Ranking): (Id, Id) -> bool {
    (a, b) => a in t.opportunities && b in t.opportunities && Before(t, r, a, b)
  }

  function Order(t: Tables, f: Filters): (Id, Id) -> bool {
    OrderBy(t, Ranking(f.sortField, f.direction, f.noGrouping))
  }

  lemma KeyBeforeTotal(direction: Direction, x: SortKey, y: SortKey)
    requires Comparable(x, y)
    ensures KeyBefore(direction, x, y) || x == y || KeyBefore(direction, y, x)
    ensures !KeyBefore(direction, x, x)
  {
    if x.Name? {
      TextLessTotal(x.text, x.text);
      if y.Name? {
        TextLessTotal(x.text, y.text);
      }
    }
  }

  lemma KeyBeforeTransitive(direction: Direction, x: SortKey, y: SortKey, z: SortKey)
    requires KeyBefore(direction, x, y) && KeyBefore(direction, y, z)
    ensures KeyBefore(direction, x, z)
  {
    if x.Name? && z.Name? {
      if direction.Asc? {
        TextLessTransitive(x.text, y.text, z.text);
      } else {
        TextLessTransitive(z.text, y.text, x.text);
      }
    }
  }

  /** Every sort field, direction and grouping gives a strict total order on the opportunities. */
  lemma OrderIsStrictTotal(t: Tables, f: Filters)
    ensures StrictTotal(Order(t, f), t.opportunities.Keys)
  {
    var less := Order(t, f);
    forall x, y | x in t.opportunities && y in t.opportunities
      ensures !less(x, x) && (less(x, y) || x == y || less(y, x))
    {
      hide KeyBefore;
      KeyBeforeTotal(f.direction, KeyOf(t, f.sortField, x), KeyOf(t, f.sortField, y));
    }
    forall x, y, z | x in t.opportunities && y in t.opportunities && z in t.opportunities && less(x, y) && less(y, z)
      ensures less(x, z)
    {
      hide KeyOf, KeyBefore;
      var kx, ky, kz := KeyOf(t, f.sortField, x), KeyOf(t, f.sortField, y), KeyOf(t, f.sortField, z);
      if KeyBefore(f.direction, kx, ky) && KeyBefore(f.direction, ky, kz) {
        KeyBeforeTransitive(f.direction, kx, ky, kz);
      }
    }
  }

  // ----- the query -----

  /** `scan` lists every row of the opportunity table once, in whatever order the table is read. */
  ghost predicate Scans(t: Tables, scan: seq<Id>) {
    Distinct(scan) && Elements(scan) == t.opportunities.Keys
  }

  ghost function Selected(t: Tables, f: Filters, scan: seq<Id>): (ids: seq<Id>)
    requires forall o | o in scan :: o in t.opportunities
    ensures forall o | o in ids :: o in scan
  {
    if scan == [] then []
    else (if Matches(t, f, scan[0]) then [scan[0]] else []) + Selected(t, f, scan[1..])
  }

  /** All selected ids in order. */
  ghost function Ordered(t: Tables, f: Filters, scan: seq<Id>): seq<Id>
    requires forall o | o in scan :: o in t.opportunities
  {
    Sort(Order(t, f), Selected(t, f, scan))
  }

  datatype QueryResult = QueryResult(ids: seq<string>, total: nat)

  function Texts(ids: seq<Id>): seq<string> {
    seq(|ids|, i requires 0 <= i < |ids| => Decimal(ids[i]))
  }

  /** One page of ids as decimal text, and the count of all selected rows. */
  ghost function QueryPage(t: Tables, f: Filters, scan: seq<Id>): QueryResult
    requires forall o | o in scan :: o in t.opportunities
    requires f.page >= 1
  {
    QueryResult(Texts(Page(Ordered(t, f, scan), f.page, f.perPage)), |Selected(t, f, scan)|)
  }

  ghost function Matching(t: Tables, f: Filters): set<Id> {
    set o | o in t.opportunities && Matches(t, f, o)
  }

  lemma {:induction false} SelectedExactly(t: Tables, f: Filters, scan: seq<Id>)
    requires Distinct(scan) && forall o | o in scan :: o in t.opportunities
    ensures Distinct(Selected(t, f, scan))
    ensures forall o :: o in Selected(t, f, scan) <==> o in scan && Matches(t, f, o)
  {
    hide Matches;
    if scan != [] {
      assert scan == [scan[0]] + scan[1..];
      SelectedExactly(t, f, scan[1..]);
      assert scan[0] !in scan[1..];
    }
  }

  /** The ordered ids are the matching opportunities, each exactly once, in strictly ascending query order. */
  lemma OrderedExactly(t: Tables, f: Filters, scan: seq<Id>)
    requires Scans(t, scan)
    ensures forall o | o in scan :: o in t.opportunities
    ensures Sorted(Order(t, f), Ordered(t, f, scan)) && Distinct(Ordered(t, f, scan))
    ensures Elements(Ordered(t, f, scan)) == Matching(t, f)
    ensures |Ordered(t, f, scan)| == |Selected(t, f, scan)| == |Matching(t, f)|
  {
    hide Matches, Order;
    assert forall o | o in scan :: o in Elements(scan);
    SelectedExactly(t, f, scan);
    var selected := Selected(t, f, scan);
    forall o
      ensures o in Elements(selected) <==> o in Matching(t, f)
    {
      assert o in scan <==> o in Elements(scan);
    }
    assert Elements(selected) == Matching(t, f);
    OrderIsStrictTotal(t, f);
    SortSorts(Order(t, f), selected);
    SortedDistinct(Order(t, f), Ordered(t, f, scan));
    DistinctCount(selected);
  }

  lemma {:induction false} DistinctCount(xs: seq<nat>)
    requires Distinct(xs)
    ensures |Elements(xs)| == |xs|
  {
    if xs != [] {
      assert xs == [xs[0]] + xs[1..];
      DistinctCount(xs[1..]);
      assert Elements(xs) == {xs[0]} + Elements(xs[1..]);
    }
  }

  /** What the order promises about two entries, the first of which is listed earlier. */
  predicate ListedRightly(t: Tables, f: Filters, a: Id, b: Id)
    requires a in t.opportunities && b in t.opportunities
  {
    var sa, sb := t.opportunities[a].status, t.opportunities[b].status;
    var ka, kb := KeyOf(t, f.sortField, a), KeyOf(t, f.sortField, b);
    // Active opportunities come first and completed ones last, unless grouping is off.
    && (!f.noGrouping ==> !(sb.Active? && !sa.Active?) && !(sa.Completed? && !sb.Completed?))
    // Within a group missing values are last, the rest ascends or descends, and ties go by id.
    && (f.noGrouping || sa == sb ==>
          && (ka.Missing? ==> kb.Missing?)
          && (f.direction.Asc? ==> !KeyLess(kb, ka))
          && (f.direction.Desc? ==> !KeyLess(ka, kb))
          && (ka == kb ==> if f.direction.Asc? then a < b else b < a))
  }

  lemma OrderedRightly(t: Tables, f: Filters, scan: seq<Id>, i: nat, j: nat)
    requires Scans(t, scan)
    ensures forall o | o in scan :: o in t.opportunities
    ensures var ids := Ordered(t, f, scan); i < j < |ids| ==>
      ids[i] in t.opportunities && ids[j] in t.opportunities && ListedRightly(t, f, ids[i], ids[j])
  {
    OrderedExactly(t, f, scan);
    hide Matches, Ordered, ListedRightly, Order, Selected;
    var ids := Ordered(t, f, scan);
    if i < j < |ids| {
      assert ids[i] in Elements(ids) && ids[j] in Elements(ids);
      OrderListsRightly(t, f, ids[i], ids[j]);
    }
  }

  lemma OrderListsRightly(t: Tables, f: Filters, a: Id, b: Id)
    requires a in t.opportunities && b in t.opportunities && Order(t, f)(a, b)
    ensures ListedRightly(t, f, a, b)
  {
    hide KeyOf;
    var ka, kb := KeyOf(t, f.sortField, a), KeyOf(t, f.sortField, b);
    if ka.Name? && kb.Name? {
      TextLessTotal(ka.text, kb.text);
    }
  }

  // ----- the order, read from the rows -----

  /** The text that an opportunity is ordered by: the project's name or the title, folded, or the start as stored;
      never an empty one. */
  ghost predicate Reads(t: Tables, field: SortField, o: Id, text: string)
    requires o in t.opportunities
  {
    text != "" && match field
      case ByProjectName => exists name :: InProjectNamed(t, o, name) && text == Lower(name)
      case ByTitle => exists title :: FieldReads(t, o, "opportunityTitle", title) && text == Lower(title)
      case ByStartDate => FieldReads(t, o, "startDate", text)
      case _ => false
  }

  /** The time of the row, or the place of its status or type in the alphabet. */
  function NumberOf(field: SortField, row: Opportunity): int {
    match field
    case ByCreatedAt => row.createdAt
    case ByUpdatedAt => row.updatedAt
    case ByStatus => (match row.status case Active => 0 case Canceled => 1 case Completed => 2)
    case ByType => TypeRank(row.kind)
    case _ => 0
  }

  function TypeRank(kind: OpportunityType): nat {
    match kind
    case Ai => 0
    case DataScience => 1
    case Design => 2
    case Dev => 3
    case Qa => 4
  }

  predicate IsTextField(field: SortField) {
    field.ByProjectName? || field.ByTitle? || field.ByStartDate?
  }

  /** Two entries of one group, the first listed earlier: numbers and texts ascend or descend, an entry without a
      text comes last, and ties go by id. */
  ghost predicate InRowOrder(t: Tables, f: Filters, a: Id, b: Id)
    requires a in t.opportunities && b in t.opportunities
  {
    var tie := if f.direction.Asc? then a < b else b < a;
    if IsTextField(f.sortField) then
      && (forall y | Reads(t, f.sortField, b, y) :: exists x ::
            Reads(t, f.sortField, a, x)
            && ((x == y && tie) || if f.direction.Asc? then TextLess(x, y) else TextLess(y, x)))
      && ((forall y :: !Reads(t, f.sortField, a, y) && !Reads(t, f.sortField, b, y)) ==> tie)
    else
      var x, y := NumberOf(f.sortField, t.opportunities[a]), NumberOf(f.sortField, t.opportunities[b]);
      (x == y && tie) || if f.direction.Asc? then x < y else y < x
  }

  lemma KeyReads(t: Tables, field: SortField, o: Id)
    requires o in t.opportunities && IsTextField(field)
    ensures !KeyOf(t, field, o).Instant?
    ensures forall text :: Reads(t, field, o, text) <==> KeyOf(t, field, o) == Name(text)
  {
    ProjectNameIs(t, o);
    FieldTextReads(t, o, "opportunityTitle");
    FieldTextReads(t, o, "startDate");
    var name, title := ProjectName(t, o), FieldText(t, o, "opportunityTitle");
    hide FieldText, FieldReads, InProjectNamed, ProjectName, Lower;
    assert |Lower(name)| == |name| && (title.Some? ==> |Lower(title.value)| == |title.value|);
    assert Lower("") == "" by { EmptyLower(); }
    if title.Some? {
      assert FieldReads(t, o, "opportunityTitle", title.value);
    }
    if name != "" {
      assert InProjectNamed(t, o, name);
    }
  }

  lemma NameOrder(field: SortField, a: Opportunity, b: Opportunity)
    ensures TextLess(StatusName(a.status), StatusName(b.status)) <==> NumberOf(ByStatus, a) < NumberOf(ByStatus, b)
    ensures StatusName(a.status) == StatusName(b.status) <==> a.status == b.status
    ensures TextLess(TypeName(a.kind), TypeName(b.kind)) <==> NumberOf(ByType, a) < NumberOf(ByType, b)
    ensures TypeName(a.kind) == TypeName(b.kind) <==> a.kind == b.kind
  {
    StatusOrder(a.status, b.status);
    TypeOrder(a.kind, b.kind);
    hide StatusName, TypeName, TextLess;
  }

  lemma GroupOrder(t: Tables, f: Filters, a: Id, b: Id)
    requires a in t.opportunities && b in t.opportunities && Order(t, f)(a, b)
    requires f.noGrouping || t.opportunities[a].status == t.opportunities[b].status
    ensures var x, y := KeyOf(t, f.sortField, a), KeyOf(t, f.sortField, b);
      KeyBefore(f.direction, x, y) || (x == y && if f.direction.Asc? then a < b else b < a)
  {
    hide KeyOf, KeyBefore;
  }

  lemma TextsInOrder(t: Tables, f: Filters, a: Id, b: Id)
    requires a in t.opportunities && b in t.opportunities && IsTextField(f.sortField)
    requires var x, y := KeyOf(t, f.sortField, a), KeyOf(t, f.sortField, b);
      KeyBefore(f.direction, x, y) || (x == y && if f.direction.Asc? then a < b else b < a)
    ensures InRowOrder(t, f, a, b)
  {
    KeyReads(t, f.sortField, a);
    KeyReads(t, f.sortField, b);
    hide KeyOf, Reads, TextLess;
  }

  lemma NumbersInOrder(t: Tables, f: Filters, a: Id, b: Id)
    requires a in t.opportunities && b in t.opportunities && !IsTextField(f.sortField)
    requires var x, y := KeyOf(t, f.sortField, a), KeyOf(t, f.sortField, b);
      KeyBefore(f.direction, x, y) || (x == y && if f.direction.Asc? then a < b else b < a)
    ensures InRowOrder(t, f, a, b)
  {
    NameOrder(f.sortField, t.opportunities[a], t.opportunities[b]);
    NameOrder(f.sortField, t.opportunities[b], t.opportunities[a]);
    hide Reads, TextLess, StatusName, TypeName;
  }

  lemma OrderReadsRows(t: Tables, f: Filters, a: Id, b: Id)
    requires a in t.opportunities && b in t.opportunities && Order(t, f)(a, b)
    requires f.noGrouping || t.opportunities[a].status == t.opportunities[b].status
    ensures InRowOrder(t, f, a, b)
  {
    GroupOrder(t, f, a, b);
    hide InRowOrder, KeyOf, KeyBefore, Order;
    if IsTextField(f.sortField) {
      TextsInOrder(t, f, a, b);
    } else {
      NumbersInOrder(t, f, a, b);
    }
  }

  /** Within a group, or in the whole list without grouping, the listed rows are in the order of what they say. */
  lemma ListedInRowOrder(t: Tables, f: Filters, scan: seq<Id>, i: nat, j: nat)
    requires Scans(t, scan)
    ensures forall o | o in scan :: o in t.opportunities
    ensures var ids := Ordered(t, f, scan); i < j < |ids| ==>
      && ids[i] in t.opportunities && ids[j] in t.opportunities
      && (f.noGrouping || t.opportunities[ids[i]].status == t.opportunities[ids[j]].status ==>
            InRowOrder(t, f, ids[i], ids[j]))
  {
    OrderedExactly(t, f, scan);
    hide Matches, Ordered, InRowOrder, Order, Selected;
    var ids := Ordered(t, f, scan);
    if i < j < |ids| {
      assert ids[i] in Elements(ids) && ids[j] in Elements(ids);
      if f.noGrouping || t.opportunities[ids[i]].status == t.opportunities[ids[j]].status {
        OrderReadsRows(t, f, ids[i], ids[j]);
      }
    }
  }

  lemma StatusOrder(x: OpportunityStatus, y: OpportunityStatus)
    ensures var a, b := StatusName(x), StatusName(y);
      && (a == b <==> x == y)
      && (TextLess(a, b) <==> x != y && (x.Active? || y.Completed?))
  {
    TextLessTotal("active", "active");
    TextLessTotal("canceled", "canceled");
    TextLessTotal("completed", "completed");
    assert TextLess("canceled"[1..], "completed"[1..]) && !TextLess("completed"[1..], "canceled"[1..]);
  }

  lemma TypeOrder(x: OpportunityType, y: OpportunityType)
    ensures var a, b := TypeName(x), TypeName(y);
      && (a == b <==> x == y)
      && (TextLess(a, b) <==> TypeRank(x) < TypeRank(y))
  {
    TextLessTotal(TypeName(x), TypeName(x));
    assert TypeName(Design)[1..] == "esign" && TypeName(Dev)[1..] == "ev" && TypeName(DataScience)[1..] == "atascience";
    assert TextLess("esign", "ev") by { assert "esign"[1..] == "sign" && "ev"[1..] == "v"; }
    assert !TextLess("ev", "esign") by { TextLessTotal("esign", "ev"); }
  }

  /** The default query lists active before canceled before completed opportunities, each group newest first. */
  lemma DefaultOrder(t: Tables, f: Filters, scan: seq<Id>, i: nat, j: nat)
    requires Scans(t, scan) && f.sortField.ByCreatedAt? && f.direction.Desc? && !f.noGrouping
    ensures forall o | o in scan :: o in t.opportunities
    ensures var ids := Ordered(t, f, scan); i < j < |ids| ==>
      && ids[i] in t.opportunities && ids[j] in t.opportunities
      && var a, b := t.opportunities[ids[i]], t.opportunities[ids[j]];
         && (a.status.Canceled? ==> !b.status.Active?) && (a.status.Completed? ==> b.status.Completed?)
         && (a.status == b.status ==> a.createdAt > b.createdAt || (a.createdAt == b.createdAt && ids[i] > ids[j]))
  {
    OrderedRightly(t, f, scan, i, j);
    hide Ordered;
  }

  /** Any list of the matching opportunities that obeys the ORDER BY clause is the query's list: neither the
      order in which the table is read nor the sort algorithm shows in the result. */
  lemma OrderIsUnique(t: Tables, f: Filters, scan: seq<Id>, ids: seq<Id>)
    requires Scans(t, scan)
    requires Sorted(Order(t, f), ids) && Elements(ids) == Matching(t, f)
    ensures forall o | o in scan :: o in t.opportunities
    ensures ids == Ordered(t, f, scan)
  {
    hide Matches, Order;
    OrderedExactly(t, f, scan);
    OrderIsStrictTotal(t, f);
    SortedUnique(Order(t, f), Ordered(t, f, scan), ids);
  }

  /** `scans(n)` is how the query of page `n` reads the table; every query may read it in another order. */
  ghost predicate ScansEach(t: Tables, scans: nat -> seq<Id>) {
    (forall n :: Scans(t, scans(n))) && forall n, o | o in scans(n) :: o in t.opportunities
  }

  /** The ids of the first `count` pages, each fetched by a query of its own. */
  ghost function QueriedPages(t: Tables, f: Filters, scans: nat -> seq<Id>, count: nat): seq<string>
    requires ScansEach(t, scans)
  {
    if count == 0 then []
    else QueriedPages(t, f, scans, count - 1) + QueryPage(t, f.(page := count), scans(count)).ids
  }

  /** Neither the page number nor the order of reading changes the list that pages are cut from. */
  lemma SameList(t: Tables, f: Filters, page: nat, scan: seq<Id>, other: seq<Id>)
    requires Scans(t, scan) && Scans(t, other)
    ensures forall o | o in scan + other :: o in t.opportunities
    ensures Ordered(t, f.(page := page), other) == Ordered(t, f, scan)
    ensures |Selected(t, f.(page := page), other)| == |Matching(t, f)|
  {
    var g := f.(page := page);
    SameMatching(t, f, page);
    OrderedExactly(t, f, scan);
    OrderedExactly(t, g, other);
    assert Order(t, g) == Order(t, f) by {
      hide OrderBy;
    }
    hide Matching, OrderBy, Order, Selected, Ordered;
    OrderIsUnique(t, f, scan, Ordered(t, g, other));
  }

  lemma SameMatching(t: Tables, f: Filters, page: nat)
    ensures Matching(t, f.(page := page)) == Matching(t, f)
  {
    var g := f.(page := page);
    forall o | o in t.opportunities
      ensures Matches(t, g, o) == Matches(t, f, o)
    {
    }
  }

  lemma {:induction false} QueriedPagesAre(t: Tables, f: Filters, scan: seq<Id>, scans: nat -> seq<Id>, count: nat)
    requires Scans(t, scan) && ScansEach(t, scans)
    ensures forall o | o in scan :: o in t.opportunities
    ensures QueriedPages(t, f, scans, count) == Texts(Pages(Ordered(t, f, scan), count, f.perPage))
  {
    SameList(t, f, count, scan, scans(count));
    hide Scans, Matches, Selected, Ordered, Page, Decimal;
    if count > 0 {
      QueriedPagesAre(t, f, scan, scans, count - 1);
    }
  }

  /** Fetching the pages 1 to ceil(total / perPage) one by one yields every matching opportunity exactly once,
      in query order, whatever order each of the queries reads the table in; every page has the same total. */
  lemma PagesAreComplete(t: Tables, f: Filters, scan: seq<Id>, scans: nat -> seq<Id>)
    requires Scans(t, scan) && ScansEach(t, scans) && f.perPage >= 1
    ensures forall o | o in scan :: o in t.opportunities
    ensures QueriedPages(t, f, scans, PageCount(|Matching(t, f)|, f.perPage)) == Texts(Ordered(t, f, scan))
    ensures forall page: nat | page >= 1 ::
      QueryPage(t, f.(page := page), scans(page)).total == |Matching(t, f)|
  {
    hide Matching, Matches, PageCount, Page, Ordered, Order;
    OrderedExactly(t, f, scan);
    var count := PageCount(|Matching(t, f)|, f.perPage);
    QueriedPagesAre(t, f, scan, scans, count);
    PagesPartition(Ordered(t, f, scan), f.perPage);
    forall page: nat | page >= 1
      ensures QueryPage(t, f.(page := page), scans(page)).total == |Matching(t, f)|
    {
      SameList(t, f, page, scan, scans(page));
    }
  }
}
