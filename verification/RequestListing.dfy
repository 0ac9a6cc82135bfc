/** Listing requests: an in-memory sort that is not a total order, and its pages. */
module RequestListing {
  import opened Domain
  import opened Text
  import opened Workflow
  import opened Ordering

  /** A value that a request is sorted by. */
  datatype Value = DateValue(millis: int) | StringValue(text: string) | NumberValue(text: string) | OtherValue

  datatype RequestSort = ByCreated | ByProject | ByTitle | ByType | ByStatus

  datatype Direction = Ascending | Descending

  /** The folded text of a string or number, and the empty text of anything else. */
  function FoldedText(v: Value): string {
    match v
    case StringValue(text) => Lower(text)
    case NumberValue(text) => Lower(text)
    case _ => ""
  }

  function CompareValues(x: Value, y: Value): int {
    if x.DateValue? && y.DateValue? then x.millis - y.millis
    else if TextLess(FoldedText(x), FoldedText(y)) then -1
    else if TextLess(FoldedText(y), FoldedText(x)) then 1
    else 0
  }

  function Compare(direction: Direction, x: Value, y: Value): int {
    CompareValues(x, y) * (if direction.Ascending? then 1 else -1)
  }

  /** All values are dates, or none is. */
  predicate Homogeneous(values: seq<Value>) {
    (forall v | v in values :: v.DateValue?) || (forall v | v in values :: !v.DateValue?)
  }

  /** On dates alone, and on other values alone, the comparison is a total preorder in both directions. */
  lemma CompareIsPreorder(direction: Direction, x: Value, y: Value, z: Value)
    requires Homogeneous([x, y, z])
    ensures Compare(direction, x, x) == 0
    ensures Compare(direction, x, y) < 0 <==> Compare(direction, y, x) > 0
    ensures Compare(direction, x, y) <= 0 && Compare(direction, y, z) <= 0 ==> Compare(direction, x, z) <= 0
    ensures Compare(direction, x, y) < 0 && Compare(direction, y, z) <= 0 ==> Compare(direction, x, z) < 0
    ensures Compare(direction, x, y) <= 0 && Compare(direction, y, z) < 0 ==> Compare(direction, x, z) < 0
  {
    assert [x, y, z][0] == x && [x, y, z][1] == y && [x, y, z][2] == z;
    if !x.DateValue? {
      TextPreorder(FoldedText(x), FoldedText(y), FoldedText(z));
      TextPreorder(FoldedText(z), FoldedText(y), FoldedText(x));
    }
  }

  lemma TextPreorder(a: string, b: string, c: string)
    ensures !TextLess(a, a) && !(TextLess(a, b) && TextLess(b, a))
    ensures TextLess(a, b) && TextLess(b, c) ==> TextLess(a, c)
    ensures TextLess(a, b) && !TextLess(c, b) ==> TextLess(a, c)
    ensures !TextLess(b, a) && TextLess(b, c) ==> TextLess(a, c)
    ensures !TextLess(b, a) && !TextLess(c, b) ==> !TextLess(c, a)
  {
    TextLessTotal(a, a);
    TextLessTotal(a, b);
    TextLessTotal(b, c);
    TextLessTotal(a, c);
    if TextLess(a, b) && TextLess(b, c) {
      TextLessTransitive(a, b, c);
    }
  }

  /** Mixing dates with other values would break transitivity. */
  lemma MixedIsNotAPreorder() returns (x: Value, y: Value, z: Value)
    ensures Compare(Ascending, x, y) <= 0 && Compare(Ascending, y, z) <= 0 && Compare(Ascending, x, z) > 0
  {
    x, y, z := DateValue(2), OtherValue, DateValue(1);
  }

  // ----- the keys of requests -----

  function StatusName(status: RequestStatus): string {
    match status
    case New => "new"
    case Approved => "approved"
    case Rejected => "rejected"
    case Seeking => "seeking"
    case Canceled => "canceled"
    case Fulfilled => "fulfilled"
  }

  function FieldValue(data: RequestData, key: string): Value {
    if key !in data.fields then OtherValue
    else
      match data.fields[key]
      case JsonString(text) => StringValue(text)
      case JsonNumber(text) => NumberValue(text)
      case _ => OtherValue
  }

  function SortValue(t: Tables, field: RequestSort, r: Id): Value
    requires r in t.requests
  {
    var row := t.requests[r];
    match field
    case ByCreated => DateValue(row.createdAt)
    case ByProject =>
      if row.projectId.Some? && row.projectId.value in t.projects
      then StringValue(t.projects[row.projectId.value].name) else OtherValue
    case ByTitle => FieldValue(row.data, "opportunityTitle")
    case ByType => if row.data.projectType.Some? then StringValue(TypeName(row.data.projectType.value)) else OtherValue
    case ByStatus => StringValue(StatusName(row.status))
  }

  function SortValues(t: Tables, field: RequestSort, rows: seq<Id>): (values: seq<Value>)
    requires forall r | r in rows :: r in t.requests
    ensures |values| == |rows|
  {
    seq(|rows|, i requires 0 <= i < |rows| => SortValue(t, field, rows[i]))
  }

  /** A sort field never mixes dates with other values. */
  lemma SortValuesHomogeneous(t: Tables, field: RequestSort, rows: seq<Id>)
    requires forall r | r in rows :: r in t.requests
    ensures Homogeneous(SortValues(t, field, rows))
  {
    forall v | v in SortValues(t, field, rows)
      ensures v.DateValue? <==> field.ByCreated?
    {
      var i :| 0 <= i < |rows| && SortValues(t, field, rows)[i] == v;
    }
  }

  // ----- the stable sort -----

  /** Position `i` goes before position `j`: by the comparison, and by fetch order when it is 0. */
  function Earlier(values: seq<Value>, direction: Direction): (nat, nat) -> bool {
    (i: nat, j: nat) => i < |values| && j < |values|
              && (Compare(direction, values[i], values[j]) < 0
                  || (Compare(direction, values[i], values[j]) == 0 && i < j))
  }

  function Positions(n: nat): seq<nat> {
    seq(n, i requires 0 <= i < n => i)
  }

  /** A stable sort (section 23.1.3.30 of ECMA-262), as the list of positions it puts in order. */
  ghost predicate StablySorted(values: seq<Value>, direction: Direction, positions: seq<nat>) {
    && |positions| == |values|
    && Elements(positions) == Elements(Positions(|values|))
    && forall i, j | 0 <= i < j < |positions| && positions[i] < |values| && positions[j] < |values| ::
         var c := Compare(direction, values[positions[i]], values[positions[j]]);
         c < 0 || (c == 0 && positions[i] < positions[j])
  }

  function SortPositions(values: seq<Value>, direction: Direction): seq<nat> {
    Sort(Earlier(values, direction), Positions(|values|))
  }

  lemma EarlierIsStrictTotal(values: seq<Value>, direction: Direction)
    requires Homogeneous(values)
    ensures StrictTotal(Earlier(values, direction), Elements(Positions(|values|)))
  {
    var less := Earlier(values, direction);
    forall i: nat, j: nat, k: nat | i < |values| && j < |values| && k < |values|
      ensures !less(i, i) && (less(i, j) || i == j || less(j, i))
      ensures less(i, j) && less(j, k) ==> less(i, k)
    {
      assert values[i] in values && values[j] in values && values[k] in values;
      CompareIsPreorder(direction, values[i], values[j], values[k]);
    }
  }

  lemma PositionsAre(n: nat)
    ensures Distinct(Positions(n)) && forall i: nat :: i in Elements(Positions(n)) <==> i < n
  {
    forall i: nat | i < n
      ensures i in Positions(n)
    {
      assert Positions(n)[i] == i;
    }
  }

  /** The sort is stable in both directions, and no other list of positions is. */
  lemma StableSort(values: seq<Value>, direction: Direction)
    requires Homogeneous(values)
    ensures StablySorted(values, direction, SortPositions(values, direction))
    ensures forall positions | StablySorted(values, direction, positions) ::
      positions == SortPositions(values, direction)
  {
    hide Compare;
    var less := Earlier(values, direction);
    PositionsAre(|values|);
    EarlierIsStrictTotal(values, direction);
    SortSorts(less, Positions(|values|));
    var sorted := SortPositions(values, direction);
    hide Sort, SortPositions;
    assert forall i | 0 <= i < |sorted| :: sorted[i] in Elements(sorted);
    assert StablySorted(values, direction, sorted);
    forall positions | StablySorted(values, direction, positions)
      ensures positions == sorted
    {
      assert forall i | 0 <= i < |positions| :: positions[i] in Elements(positions);
      SortedUnique(less, sorted, positions);
    }
  }

  // ----- the list -----

  /** The live requests, of one project unless `projectId` is 0, in the order in which they were fetched. */
  ghost predicate Fetched(t: Tables, projectId: Id, rows: seq<Id>) {
    Distinct(rows) && forall r :: r in rows <==>
      LiveRequest(t.requests, r) && (projectId != 0 ==> t.requests[r].projectId == Some(projectId))
  }

  function SortRequests(t: Tables, rows: seq<Id>, field: RequestSort, direction: Direction): seq<Id>
    requires forall r | r in rows :: r in t.requests
  {
    var positions := SortPositions(SortValues(t, field, rows), direction);
    seq(|positions|, i requires 0 <= i < |positions| => if positions[i] < |rows| then rows[positions[i]] else 0)
  }

  /** Where a row was in the fetched list. */
  ghost function FetchIndex(rows: seq<Id>, r: Id): (i: nat)
    requires r in rows
    ensures i < |rows| && rows[i] == r
  {
    var i: nat :| i < |rows| && rows[i] == r;
    i
  }

  lemma SortedBySlots(t: Tables, rows: seq<Id>, field: RequestSort, direction: Direction)
    requires forall r | r in rows :: r in t.requests
    ensures var values := SortValues(t, field, rows);
      var positions, sorted := SortPositions(values, direction), SortRequests(t, rows, field, direction);
      && StablySorted(values, direction, positions)
      && |sorted| == |rows| == |positions|
      && forall i | 0 <= i < |sorted| :: positions[i] < |rows| && sorted[i] == rows[positions[i]]
  {
    var values := SortValues(t, field, rows);
    SortValuesHomogeneous(t, field, rows);
    StableSort(values, direction);
    PositionsAre(|rows|);
    hide SortValues, Compare, SortPositions;
    var positions := SortPositions(values, direction);
    assert forall i | 0 <= i < |positions| :: positions[i] in Elements(positions);
  }

  lemma EverySlot(values: seq<Value>, direction: Direction, positions: seq<nat>, p: nat) returns (i: nat)
    requires StablySorted(values, direction, positions) && p < |values|
    ensures i < |positions| && positions[i] == p
  {
    PositionsAre(|values|);
    assert p in Elements(positions);
    i :| i < |positions| && positions[i] == p;
  }

  /** The sorted list has the fetched requests, each exactly once, in the order of the comparison; requests that
      compare equal keep their fetch order whatever the direction. */
  lemma SortedRequests(t: Tables, projectId: Id, rows: seq<Id>, field: RequestSort, direction: Direction)
    requires Fetched(t, projectId, rows)
    ensures forall r | r in rows :: r in t.requests
    ensures var sorted := SortRequests(t, rows, field, direction);
      && |sorted| == |rows| && (forall r :: r in sorted <==> r in rows)
      && forall i, j | 0 <= i < j < |sorted| ::
           && sorted[i] in rows && sorted[j] in rows
           && var c := Compare(direction, SortValue(t, field, sorted[i]), SortValue(t, field, sorted[j]));
              c < 0 || (c == 0 && FetchIndex(rows, sorted[i]) < FetchIndex(rows, sorted[j]))
  {
    var values := SortValues(t, field, rows);
    SortedBySlots(t, rows, field, direction);
    hide SortValue, Compare, SortPositions, SortRequests;
    var positions := SortPositions(values, direction);
    var sorted := SortRequests(t, rows, field, direction);
    forall r
      ensures r in sorted <==> r in rows
    {
      if r in rows {
        var i := EverySlot(values, direction, positions, FetchIndex(rows, r));
        assert sorted[i] == r;
      }
    }
    forall i, j | 0 <= i < j < |sorted|
      ensures sorted[i] in rows && sorted[j] in rows
      ensures var c := Compare(direction, SortValue(t, field, sorted[i]), SortValue(t, field, sorted[j]));
              c < 0 || (c == 0 && FetchIndex(rows, sorted[i]) < FetchIndex(rows, sorted[j]))
    {
      assert FetchIndex(rows, sorted[i]) == positions[i] && FetchIndex(rows, sorted[j]) == positions[j];
    }
  }

  // ----- the order, read from the rows -----

  /** The folded text that a request has for a text field. */
  predicate Reads(t: Tables, field: RequestSort, r: Id, text: string)
    requires r in t.requests
  {
    var row := t.requests[r];
    match field
    case ByProject =>
      row.projectId.Some? && row.projectId.value in t.projects && text == Lower(t.projects[row.projectId.value].name)
    case ByTitle =>
      && "opportunityTitle" in row.data.fields
      && (row.data.fields["opportunityTitle"].JsonString? || row.data.fields["opportunityTitle"].JsonNumber?)
      && text == Lower(row.data.fields["opportunityTitle"].text)
    case ByType => row.data.projectType.Some? && text == TypeName(row.data.projectType.value)
    case _ => false
  }

  /** That text, or the empty one for a request that has none. */
  ghost predicate ReadsOrEmpty(t: Tables, field: RequestSort, r: Id, text: string)
    requires r in t.requests
  {
    Reads(t, field, r, text) || (text == "" && forall other :: !Reads(t, field, r, other))
  }

  /** Where a status stands in the alphabet. */
  function Alphabetical(status: RequestStatus): nat {
    match status
    case Approved => 0
    case Canceled => 1
    case Fulfilled => 2
    case New => 3
    case Rejected => 4
    case Seeking => 5
  }

  /** Request `r` may be listed before `q`, of which `earlier` says that it was fetched first: creation times,
      statuses or folded texts ascend or descend, and equal ones keep the order in which they were fetched. */
  ghost predicate InRowOrder(t: Tables, field: RequestSort, direction: Direction, r: Id, q: Id, earlier: bool)
    requires r in t.requests && q in t.requests
  {
    match field
    case ByCreated => NumbersInOrder(direction, t.requests[r].createdAt, t.requests[q].createdAt, earlier)
    case ByStatus =>
      NumbersInOrder(direction, Alphabetical(t.requests[r].status), Alphabetical(t.requests[q].status), earlier)
    case _ =>
      exists x, y :: ReadsOrEmpty(t, field, r, x) && ReadsOrEmpty(t, field, q, y)
        && if direction.Ascending? then TextLess(x, y) || (x == y && earlier)
           else TextLess(y, x) || (x == y && earlier)
  }

  predicate NumbersInOrder(direction: Direction, x: int, y: int, earlier: bool) {
    if direction.Ascending? then x < y || (x == y && earlier) else x > y || (x == y && earlier)
  }

  lemma StatusText(x: RequestStatus, y: RequestStatus)
    ensures TextLess(Lower(StatusName(x)), Lower(StatusName(y))) <==> Alphabetical(x) < Alphabetical(y)
  {
    FirstLetters(x);
    FirstLetters(y);
    var a, b := Lower(StatusName(x)), Lower(StatusName(y));
    if x == y {
      TextLessTotal(a, b);
    } else {
      assert a[0] != b[0];
    }
  }

  lemma FirstLetters(x: RequestStatus)
    ensures StatusName(x) != ""
    ensures Lower(StatusName(x))[0] == "acfnrs"[Alphabetical(x)]
  {
  }

  lemma SortValueReads(t: Tables, field: RequestSort, r: Id)
    requires r in t.requests && !field.ByCreated? && !field.ByStatus?
    ensures ReadsOrEmpty(t, field, r, FoldedText(SortValue(t, field, r)))
  {
    var text := FoldedText(SortValue(t, field, r));
    if field.ByType? && t.requests[r].data.projectType.Some? {
      LowTypeName(t.requests[r].data.projectType.value);
    }
    hide Lower;
    if !Reads(t, field, r, text) {
      assert forall other :: !Reads(t, field, r, other);
    }
  }

  lemma LowTypeName(k: OpportunityType)
    ensures Lower(TypeName(k)) == TypeName(k)
  {
  }

  lemma CompareReadsRows(t: Tables, field: RequestSort, direction: Direction, r: Id, q: Id, earlier: bool)
    requires r in t.requests && q in t.requests
    requires var c := Compare(direction, SortValue(t, field, r), SortValue(t, field, q)); c < 0 || (c == 0 && earlier)
    ensures InRowOrder(t, field, direction, r, q, earlier)
  {
    var x, y := SortValue(t, field, r), SortValue(t, field, q);
    if field.ByCreated? {
    } else if field.ByStatus? {
      StatusText(t.requests[r].status, t.requests[q].status);
      StatusText(t.requests[q].status, t.requests[r].status);
      hide Lower, TextLess, StatusName;
    } else {
      SortValueReads(t, field, r);
      SortValueReads(t, field, q);
      TextLessTotal(FoldedText(x), FoldedText(y));
      hide SortValue, ReadsOrEmpty, TextLess, FoldedText;
    }
  }

  /** The listed rows are in the order of what they say themselves. */
  lemma ListedInRowOrder(t: Tables, projectId: Id, rows: seq<Id>, field: RequestSort, direction: Direction)
    requires Fetched(t, projectId, rows)
    ensures forall r | r in rows :: r in t.requests
    ensures var sorted := SortRequests(t, rows, field, direction);
      forall i, j | 0 <= i < j < |sorted| ::
        sorted[i] in rows && sorted[j] in rows
        && InRowOrder(t, field, direction, sorted[i], sorted[j],
                      FetchIndex(rows, sorted[i]) < FetchIndex(rows, sorted[j]))
  {
    SortedRequests(t, projectId, rows, field, direction);
    hide SortRequests, Compare, SortValue, InRowOrder;
    var sorted := SortRequests(t, rows, field, direction);
    forall i, j | 0 <= i < j < |sorted|
      ensures sorted[i] in rows && sorted[j] in rows
      ensures InRowOrder(t, field, direction, sorted[i], sorted[j],
                         FetchIndex(rows, sorted[i]) < FetchIndex(rows, sorted[j]))
    {
      CompareReadsRows(t, field, direction, sorted[i], sorted[j],
                       FetchIndex(rows, sorted[i]) < FetchIndex(rows, sorted[j]));
    }
  }

  // ----- pages -----

  datatype RequestPage = RequestPage(data: seq<Id>, total: nat)

  /** A missing page number counts as 1 and a missing page size as 20. */
  function ListRequests(t: Tables, rows: seq<Id>, field: RequestSort, direction: Direction,
                        page: nat, pageSize: nat): RequestPage
    requires forall r | r in rows :: r in t.requests
  {
    var sorted := SortRequests(t, rows, field, direction);
    RequestPage(Page(sorted, if page == 0 then 1 else page, if pageSize == 0 then 20 else pageSize), |sorted|)
  }

  ghost function ListedPages(t: Tables, rows: seq<Id>, field: RequestSort, direction: Direction,
                             count: nat, pageSize: nat): seq<Id>
    requires forall r | r in rows :: r in t.requests
  {
    if count == 0 then []
    else ListedPages(t, rows, field, direction, count - 1, pageSize)
         + ListRequests(t, rows, field, direction, count, pageSize).data
  }

  lemma {:induction false} ListedPagesAre(t: Tables, rows: seq<Id>, field: RequestSort, direction: Direction,
                                          count: nat, pageSize: nat)
    requires pageSize >= 1 && forall r | r in rows :: r in t.requests
    ensures ListedPages(t, rows, field, direction, count, pageSize)
         == Pages(SortRequests(t, rows, field, direction), count, pageSize)
  {
    hide SortRequests, Page;
    if count > 0 {
      ListedPagesAre(t, rows, field, direction, count - 1, pageSize);
    }
  }

  /** The pages 1 to ceil(total / pageSize) put together are the sorted list, and the total is its length. */
  lemma RequestPagesPartition(t: Tables, projectId: Id, rows: seq<Id>, field: RequestSort, direction: Direction,
                              pageSize: nat)
    requires Fetched(t, projectId, rows) && pageSize >= 1
    ensures forall r | r in rows :: r in t.requests
    ensures ListedPages(t, rows, field, direction, PageCount(|rows|, pageSize), pageSize)
         == SortRequests(t, rows, field, direction)
    ensures forall page :: ListRequests(t, rows, field, direction, page, pageSize).total == |rows|
  {
    hide PageCount, SortRequests, Compare, SortValue;
    SortedRequests(t, projectId, rows, field, direction);
    ListedPagesAre(t, rows, field, direction, PageCount(|rows|, pageSize), pageSize);
    PagesPartition(SortRequests(t, rows, field, direction), pageSize);
  }

  /** How many requests come before a page. */
  function Skipped(page: nat, size: nat): nat {
    if page <= 1 then 0 else (page - 1) * size
  }

  /** Without a page number the first page is returned, without a page size 20 requests; a page starts after the
      requests of the pages before it. */
  lemma PageOfRequests(t: Tables, rows: seq<Id>, field: RequestSort, direction: Direction, page: nat, pageSize: nat)
    requires forall r | r in rows :: r in t.requests
    ensures var sorted := SortRequests(t, rows, field, direction);
      var data := ListRequests(t, rows, field, direction, page, pageSize).data;
      var size := if pageSize == 0 then 20 else pageSize;
      && |data| == Min(size, |sorted| - Min(Skipped(page, size), |sorted|))
      && forall i | 0 <= i < |data| && Skipped(page, size) + i < |sorted| ::
           data[i] == sorted[Skipped(page, size) + i]
  {
    hide SortRequests, Page;
    var size := if pageSize == 0 then 20 else pageSize;
    PageIs(SortRequests(t, rows, field, direction), if page == 0 then 1 else page, size);
  }
}
