/** The lead routes of backend/src/routes/leads.js: `GET /` reads its query
    string, builds a conjunctive filter (day window, search, stage, status)
    and a one-field sort, and returns one page of the sorted matches with the
    total and the page count; `GET /:id` returns one lead or "not found".
    The document store is a sequence of leads; find, sort, skip, limit and
    countDocuments are the sequence functions below. */
module LeadsRoute {
  import opened Wrappers
  import opened Text
  import opened Calendar
  import opened LeadModel

  // ---------------------------------------------------------------------
  // Reading the request
  // ---------------------------------------------------------------------

  /** The value of a query-string key, the pairs standing for the parsed
      query string (one string per key). */
  function Lookup(params: seq<(string, string)>, key: string): (r: Option<string>)
    ensures r.Some? ==> (key, r.value) in params
    ensures r.None? <==> forall i :: 0 <= i < |params| ==> params[i].0 != key
  {
    if params == [] then None
    else if params[0].0 == key then Some(params[0].1)
    else Lookup(params[1..], key)
  }

  function LookupOr(params: seq<(string, string)>, key: string, default: string): string {
    match Lookup(params, key)
    case Some(v) => v
    case None => default
  }

  /** No pair of params has the key. */
  predicate KeyAbsent(params: seq<(string, string)>, key: string) {
    forall i :: 0 <= i < |params| ==> params[i].0 != key
  }

  /** v is what the destructuring gives for key: the default when the key
      is absent, else a value sent with the key. */
  predicate ReadsAs(params: seq<(string, string)>, key: string, default: string, v: string) {
    && (KeyAbsent(params, key) ==> v == default)
    && (!KeyAbsent(params, key) ==> (key, v) in params)
  }

  /** The query string after the destructuring with defaults. The defaults
      of page and limit are the numbers 1 and 10, which parseInt reads as it
      reads the strings "1" and "10". */
  datatype RawQuery = RawQuery(
    search: string, stage: string, status: string, day: string,
    sortBy: string, sortOrder: string, page: string, limit: string)

  function ReadQuery(params: seq<(string, string)>): (q: RawQuery)
    ensures ReadsAs(params, "search", "", q.search)
    ensures ReadsAs(params, "stage", "", q.stage)
    ensures ReadsAs(params, "status", "", q.status)
    ensures ReadsAs(params, "day", "", q.day)
    ensures ReadsAs(params, "sortBy", "createdAt", q.sortBy)
    ensures ReadsAs(params, "sortOrder", "desc", q.sortOrder)
    ensures ReadsAs(params, "page", "1", q.page)
    ensures ReadsAs(params, "limit", "10", q.limit)
  {
    RawQuery(
      LookupOr(params, "search", ""),
      LookupOr(params, "stage", ""),
      LookupOr(params, "status", ""),
      LookupOr(params, "day", ""),
      LookupOr(params, "sortBy", "createdAt"),
      LookupOr(params, "sortOrder", "desc"),
      LookupOr(params, "page", "1"),
      LookupOr(params, "limit", "10"))
  }

  /** The request once page, limit and (when non-empty) day are parsed. */
  datatype ListRequest = ListRequest(
    search: string, stage: string, status: string, day: Option<int>,
    sortBy: string, sortOrder: string, page: int, limit: int)

  /** parseInt on page, limit and a non-empty day; None when one of them is
      not a number. */
  function ParseRequest(q: RawQuery): (r: Option<ListRequest>)
    ensures r.Some? <==> ParseInt(q.page).Some? && ParseInt(q.limit).Some?
                         && (q.day != "" ==> ParseInt(q.day).Some?)
    ensures r.Some? ==> && r.value.page == ParseInt(q.page).value
                        && r.value.limit == ParseInt(q.limit).value
                        && r.value.day == (if q.day == "" then None else Some(ParseInt(q.day).value))
    ensures r.Some? ==> && r.value.search == q.search && r.value.stage == q.stage
                        && r.value.status == q.status
                        && r.value.sortBy == q.sortBy && r.value.sortOrder == q.sortOrder
  {
    var page := ParseInt(q.page);
    var limit := ParseInt(q.limit);
    var day := if q.day == "" then Some(None) else MapOption(ParseInt(q.day), (d: int) => Some(d));
    if page.None? || limit.None? || day.None? then None
    else Some(ListRequest(q.search, q.stage, q.status, day.value, q.sortBy, q.sortOrder, page.value, limit.value))
  }

  /** The requests the model covers: page and limit at least 1, a day of the
      month from 1 to 31. */
  predicate ValidRequest(req: ListRequest) {
    && req.page >= 1
    && req.limit >= 1
    && (req.day.Some? ==> 1 <= req.day.value <= 31)
  }

  // ---------------------------------------------------------------------
  // The filter
  // ---------------------------------------------------------------------

  /** The filter document: a key the handler leaves unset is None. */
  datatype Query = Query(
    createdAt: Option<(DateTime, DateTime)>,
    searchAny: Option<string>,
    stage: Option<string>,
    status: Option<string>)

  /** The `$or` of the three case-insensitive searches. */
  predicate SearchHit(l: Lead, text: string) {
    || ContainsIgnoringCase(l.name, text)
    || ContainsIgnoringCase(l.email, text)
    || (l.company.Some? && ContainsIgnoringCase(l.company.value, text))
  }

  /** How the store evaluates a filter on one document: every key that is
      set must hold. */
  predicate Matches(q: Query, l: Lead) {
    && (q.createdAt.Some? ==> NotAfter(q.createdAt.value.0, l.createdAt) && NotAfter(l.createdAt, q.createdAt.value.1))
    && (q.searchAny.Some? ==> SearchHit(l, q.searchAny.value))
    && (q.stage.Some? ==> StageLabel(l.stage) == q.stage.value)
    && (q.status.Some? ==> StatusLabel(l.status) == q.status.value)
  }

  /** What the route selects, stated without the filter document: the lead
      falls on the requested day of the current month and year, contains the
      search text in name, email or company, and has the requested stage and
      status; an empty parameter imposes nothing. */
  predicate Selected(req: ListRequest, now: Timestamp, l: Lead) {
    && (req.day.None? || (l.createdAt.year == now.year && l.createdAt.month == now.month
                          && l.createdAt.day == req.day.value))
    && (req.search == "" || SearchHit(l, req.search))
    && (req.stage == "" || StageLabel(l.stage) == req.stage)
    && (req.status == "" || StatusLabel(l.status) == req.status)
  }

  /** `{ $gte: startDate, $lte: endDate }` for a day of the current month. */
  function DayWindow(day: int, now: Timestamp): (DateTime, DateTime) {
    (DayStart(now.year, now.month, day), DayEnd(now.year, now.month, day))
  }

  /** The window test is the calendar-day test. */
  lemma DayWindowIsDay(day: int, now: Timestamp, t: Timestamp)
    ensures NotAfter(DayWindow(day, now).0, t) && NotAfter(t, DayWindow(day, now).1)
            <==> t.year == now.year && t.month == now.month && t.day == day
  {
    assert InDayWindow(t, now.year, now.month, day) <==> t.year == now.year && t.month == now.month && t.day == day;
  }

  /** The sort document: one field, 1 for ascending and -1 otherwise. */
  datatype SortSpec = SortSpec(field: Field, ascending: bool)

  /** Builds the filter by setting one key per non-empty parameter, and the
      sort from sortBy and sortOrder. */
  method BuildQuery(req: ListRequest, now: Timestamp) returns (q: Query, sort: SortSpec)
    ensures forall l :: Matches(q, l) <==> Selected(req, now, l)
    ensures sort.field == FieldNamed(req.sortBy)
    ensures sort.ascending <==> req.sortOrder == "asc"
  {
    q := Query(None, None, None, None);
    if req.day.Some? {
      q := q.(createdAt := Some(DayWindow(req.day.value, now)));
    }
    if req.search != "" {
      q := q.(searchAny := Some(req.search));
    }
    if req.stage != "" {
      q := q.(stage := Some(req.stage));
    }
    if req.status != "" {
      q := q.(status := Some(req.status));
    }
    sort := SortSpec(FieldNamed(req.sortBy), req.sortOrder == "asc");
    forall l: Lead ensures Matches(q, l) <==> Selected(req, now, l) {
      if req.day.Some? {
        DayWindowIsDay(req.day.value, now, l.createdAt);
      }
    }
  }

  /** The leads of s that satisfy p, as often as they occur in s, in the
      order of s (with FilterAppend). */
  function Filter(s: seq<Lead>, p: Lead -> bool): (r: seq<Lead>)
    ensures |r| <= |s|
    ensures forall l :: l in r <==> l in s && p(l)
    ensures forall l {:trigger multiset(r)[l]} :: multiset(r)[l] == if p(l) then multiset(s)[l] else 0
  {
    if s == [] then []
    else
      var r := (if p(s[0]) then [s[0]] else []) + Filter(s[1..], p);
      assert s == [s[0]] + s[1..];
      r
  }

  /** Filtering keeps the order: the filter of a concatenation is the
      concatenation of the filters. */
  lemma {:induction false} FilterAppend(a: seq<Lead>, b: seq<Lead>, p: Lead -> bool)
    ensures Filter(a + b, p) == Filter(a, p) + Filter(b, p)
  {
    if a == [] {
      assert a + b == b;
    } else {
      var c := a + b;
      assert c[0] == a[0] && c[1..] == a[1..] + b;
      FilterAppend(a[1..], b, p);
      var x, y := Filter(a[1..], p), Filter(b, p);
      if p(a[0]) {
        assert Filter(c, p) == [a[0]] + (x + y);
        assert Filter(a, p) == [a[0]] + x;
      } else {
        assert Filter(c, p) == [] + (x + y);
        assert Filter(a, p) == [] + x;
      }
    }
  }

  lemma {:induction false} FilterSamePredicate(s: seq<Lead>, p: Lead -> bool, p': Lead -> bool)
    requires forall l :: p(l) == p'(l)
    ensures Filter(s, p) == Filter(s, p')
  {
    if s != [] { FilterSamePredicate(s[1..], p, p'); }
  }

  /** `Lead.find(query)` before sorting: the matches in store order. */
  function Find(store: seq<Lead>, q: Query): seq<Lead> {
    Filter(store, l => Matches(q, l))
  }

  /** The leads the route promises to select, in store order. */
  function Selection(store: seq<Lead>, req: ListRequest, now: Timestamp): seq<Lead> {
    Filter(store, l => Selected(req, now, l))
  }

  /** With no day, search, stage or status every lead is selected. */
  lemma {:induction false} NoFilterSelectsAll(store: seq<Lead>, req: ListRequest, now: Timestamp)
    requires req.day.None? && req.search == "" && req.stage == "" && req.status == ""
    ensures Selection(store, req, now) == store
  {
    if store != [] {
      NoFilterSelectsAll(store[1..], req, now);
    }
  }

  // ---------------------------------------------------------------------
  // The sort
  // ---------------------------------------------------------------------

  /** The value a document holds for a sort field, in the store's order of
      types: a missing field first, then strings, object ids and dates. */
  datatype SortValue = Missing | Str(s: string) | ObjectId(n: nat) | Date(t: DateTime)

  function Rank(v: SortValue): nat {
    match v
    case Missing => 0
    case Str(_) => 1
    case ObjectId(_) => 2
    case Date(_) => 3
  }

  predicate KeyLe(a: SortValue, b: SortValue) {
    Rank(a) < Rank(b)
    || (Rank(a) == Rank(b) &&
        match a
        case Missing => true
        case Str(x) => LexLe(x, b.s)
        case ObjectId(n) => n <= b.n
        case Date(t) => NotAfter(t, b.t))
  }

  lemma KeyLeTotal(a: SortValue, b: SortValue)
    ensures KeyLe(a, b) || KeyLe(b, a)
  {
    if a.Str? && b.Str? { LexLeTotal(a.s, b.s); }
    if a.Date? && b.Date? { NotAfterTotalPreorder(a.t, b.t, b.t); }
  }

  lemma KeyLeTransitive(a: SortValue, b: SortValue, c: SortValue)
    requires KeyLe(a, b) && KeyLe(b, c)
    ensures KeyLe(a, c)
  {
    if a.Str? && b.Str? && c.Str? { LexLeTransitive(a.s, b.s, c.s); }
    if a.Date? && b.Date? && c.Date? { NotAfterTotalPreorder(a.t, b.t, c.t); }
  }

  /** The field named by sortBy; a name that is not a field of the schema
      is Absent, a field no document has. */
  datatype Field = CreatedAt | Name | Email | Phone | Company | StageField | StatusField | Notes | Id | Absent

  function FieldNamed(name: string): Field {
    if name == "createdAt" then CreatedAt
    else if name == "name" then Name
    else if name == "email" then Email
    else if name == "phone" then Phone
    else if name == "company" then Company
    else if name == "stage" then StageField
    else if name == "status" then StatusField
    else if name == "notes" then Notes
    else if name == "_id" then Id
    else Absent
  }

  /** The value a lead holds for a field; an absent one sorts as missing. */
  function SortKey(l: Lead, field: Field): SortValue {
    match field
    case CreatedAt => Date(l.createdAt)
    case Name => Str(l.name)
    case Email => Str(l.email)
    case Phone => if l.phone.Some? then Str(l.phone.value) else Missing
    case Company => if l.company.Some? then Str(l.company.value) else Missing
    case StageField => Str(StageLabel(l.stage))
    case StatusField => Str(StatusLabel(l.status))
    case Notes => Str(l.notes)
    case Id => ObjectId(l.id)
    case Absent => Missing
  }

  /** a may come before b: its key is not greater (ascending) or not smaller
      (descending). */
  predicate InOrder(a: Lead, b: Lead, sort: SortSpec) {
    if sort.ascending then KeyLe(SortKey(a, sort.field), SortKey(b, sort.field))
    else KeyLe(SortKey(b, sort.field), SortKey(a, sort.field))
  }

  ghost predicate SortedBy(s: seq<Lead>, sort: SortSpec) {
    forall i, j :: 0 <= i < j < |s| ==> InOrder(s[i], s[j], sort)
  }

  /** Inserts x after every element that may come before it. */
  function InsertByKey(x: Lead, s: seq<Lead>, sort: SortSpec): seq<Lead> {
    if s == [] || !InOrder(s[0], x, sort) then [x] + s
    else [s[0]] + InsertByKey(x, s[1..], sort)
  }

  /** Putting in front an element that may precede every element keeps a
      sorted sequence sorted. */
  lemma PrependSorted(x: Lead, s: seq<Lead>, sort: SortSpec)
    requires SortedBy(s, sort)
    requires forall j :: 0 <= j < |s| ==> InOrder(x, s[j], sort)
    ensures SortedBy([x] + s, sort)
  {
    var r := [x] + s;
    forall i, j | 0 <= i < j < |r| ensures InOrder(r[i], r[j], sort) {
      if i > 0 { assert r[i] == s[i - 1] && r[j] == s[j - 1]; }
    }
  }

  /** An element that may not precede the first of a sorted sequence may
      precede all of it. */
  lemma AheadOfAll(x: Lead, s: seq<Lead>, sort: SortSpec)
    requires SortedBy(s, sort) && s != [] && !InOrder(s[0], x, sort)
    ensures forall j :: 0 <= j < |s| ==> InOrder(x, s[j], sort)
  {
    var f := sort.field;
    KeyLeTotal(SortKey(s[0], f), SortKey(x, f));
    forall j | 0 <= j < |s| ensures InOrder(x, s[j], sort) {
      if j > 0 {
        if sort.ascending {
          KeyLeTransitive(SortKey(x, f), SortKey(s[0], f), SortKey(s[j], f));
        } else {
          KeyLeTransitive(SortKey(s[j], f), SortKey(s[0], f), SortKey(x, f));
        }
      }
    }
  }

  /** Insertion adds x and keeps every other element. */
  lemma {:induction false} InsertByKeyPermutes(x: Lead, s: seq<Lead>, sort: SortSpec)
    ensures multiset(InsertByKey(x, s, sort)) == multiset(s) + multiset{x}
  {
    if s != [] && InOrder(s[0], x, sort) {
      InsertByKeyPermutes(x, s[1..], sort);
      assert s == [s[0]] + s[1..];
    }
  }

  lemma {:induction false} InsertByKeySorted(x: Lead, s: seq<Lead>, sort: SortSpec)
    requires SortedBy(s, sort)
    ensures SortedBy(InsertByKey(x, s, sort), sort)
  {
    if s == [] {
    } else if !InOrder(s[0], x, sort) {
      AheadOfAll(x, s, sort);
      PrependSorted(x, s, sort);
    } else {
      var tail := s[1..];
      InsertByKeySorted(x, tail, sort);
      InsertByKeyPermutes(x, tail, sort);
      var t := InsertByKey(x, tail, sort);
      forall k | 0 <= k < |t| ensures InOrder(s[0], t[k], sort) {
        assert t[k] in multiset(t);
        if t[k] != x {
          assert t[k] in multiset(tail);
          var m :| 0 <= m < |tail| && tail[m] == t[k];
          assert s[m + 1] == t[k];
        }
      }
      PrependSorted(s[0], t, sort);
    }
  }

  /** `.sort(sort)`: an insertion sort, which returns the leads ordered by
      the sort field and is a permutation of its input. */
  function SortLeads(s: seq<Lead>, sort: SortSpec): (r: seq<Lead>)
    ensures SortedBy(r, sort)
    ensures multiset(r) == multiset(s)
  {
    if s == [] then []
    else
      var last := s[|s| - 1];
      assert s == s[..|s| - 1] + [last];
      var init := SortLeads(s[..|s| - 1], sort);
      InsertByKeySorted(last, init, sort);
      InsertByKeyPermutes(last, init, sort);
      InsertByKey(last, init, sort)
  }

  // ---------------------------------------------------------------------
  // Pagination
  // ---------------------------------------------------------------------

  /** `Math.ceil(total / limit)`. */
  function CeilDiv(total: nat, limit: int): (pages: nat)
    requires limit >= 1
    ensures pages * limit >= total
    ensures total > 0 ==> (pages - 1) * limit < total
    ensures pages == 0 <==> total == 0
  {
    var p := (total + limit - 1) / limit;
    assert p * limit <= total + limit - 1 < p * limit + limit;
    p
  }

  /** At most limit elements of s, from position skip on. */
  function Window<T>(s: seq<T>, skip: nat, limit: nat): (r: seq<T>)
    ensures |r| == Max(0, Min(limit, |s| - skip))
    ensures forall k :: 0 <= k < |r| ==> r[k] == s[skip + k]
    ensures forall x :: x in r ==> x in s
  {
    if skip >= |s| then []
    else
      var r := s[skip..Min(skip + limit, |s|)];
      assert forall x :: x in r ==> x in s by {
        forall x | x in r ensures x in s {
          var k :| 0 <= k < |r| && r[k] == x;
          assert s[skip + k] == x;
        }
      }
      r
  }

  /** `.skip((page - 1) * limit).limit(limit)`: at most limit elements,
      those from position (page - 1) * limit on. */
  function PageSlice<T>(s: seq<T>, page: int, limit: int): (r: seq<T>)
    requires page >= 1 && limit >= 1
    ensures |r| <= limit
    ensures |r| == Max(0, Min(limit, |s| - (page - 1) * limit))
    ensures forall k :: 0 <= k < |r| ==> r[k] == s[(page - 1) * limit + k]
    ensures forall x :: x in r ==> x in s
  {
    NonNegativeProduct(page - 1, limit);
    Window(s, (page - 1) * limit, limit)
  }

  lemma NonNegativeProduct(a: nat, b: nat)
    ensures a * b >= 0
  {
  }

  /** A page of a sorted sequence is sorted. */
  lemma PageOfSortedIsSorted(s: seq<Lead>, page: int, limit: int, sort: SortSpec)
    requires page >= 1 && limit >= 1
    requires SortedBy(s, sort)
    ensures SortedBy(PageSlice(s, page, limit), sort)
  {
    NonNegativeProduct(page - 1, limit);
    WindowOfSortedIsSorted(s, (page - 1) * limit, limit, sort);
  }

  lemma WindowOfSortedIsSorted(s: seq<Lead>, skip: nat, limit: nat, sort: SortSpec)
    requires SortedBy(s, sort)
    ensures SortedBy(Window(s, skip, limit), sort)
  {
    var r := Window(s, skip, limit);
    forall i, j | 0 <= i < j < |r| ensures InOrder(r[i], r[j], sort) {
      assert r[i] == s[skip + i] && r[j] == s[skip + j];
    }
  }

  /** Pages 1 to n, one after the other. */
  function ConcatPages<T>(s: seq<T>, limit: int, n: nat): seq<T>
    requires limit >= 1
  {
    if n == 0 then [] else ConcatPages(s, limit, n - 1) + PageSlice(s, n, limit)
  }

  lemma {:induction false} ConcatPagesIsPrefix<T>(s: seq<T>, limit: int, n: nat)
    requires limit >= 1
    ensures ConcatPages(s, limit, n) == s[..Min(n * limit, |s|)]
  {
    if n > 0 {
      ConcatPagesIsPrefix(s, limit, n - 1);
      NextPageStart(n, limit);
      NonNegativeProduct(n - 1, limit);
      PrefixThenWindow(s, (n - 1) * limit, limit);
    }
  }

  /** The first skip elements followed by the window at skip are the first
      skip + limit elements. */
  lemma PrefixThenWindow<T>(s: seq<T>, skip: nat, limit: nat)
    ensures s[..Min(skip, |s|)] + Window(s, skip, limit) == s[..Min(skip + limit, |s|)]
  {
    if skip < |s| {
      assert s[..skip] + s[skip..Min(skip + limit, |s|)] == s[..Min(skip + limit, |s|)];
    }
  }

  lemma NextPageStart(n: nat, limit: int)
    ensures (n - 1) * limit + limit == n * limit
  {
  }

  /** Fetching pages 1 to `pages` in order gives back every match once, in
      sorted order. */
  lemma PagesPartition<T>(s: seq<T>, limit: int)
    requires limit >= 1
    ensures ConcatPages(s, limit, CeilDiv(|s|, limit)) == s
  {
    ConcatPagesIsPrefix(s, limit, CeilDiv(|s|, limit));
  }

  /** A page number beyond `pages` returns no lead; one within returns at
      least one. */
  lemma PageNonEmptyIff<T>(s: seq<T>, page: int, limit: int)
    requires page >= 1 && limit >= 1
    ensures PageSlice(s, page, limit) != [] <==> page <= CeilDiv(|s|, limit)
  {
    var pages := CeilDiv(|s|, limit);
    var skip := (page - 1) * limit;
    assert PageSlice(s, page, limit) != [] <==> skip < |s|;
    if page <= pages {
      ScaleLe(page - 1, pages - 1, limit);
    } else {
      ScaleLe(pages, page - 1, limit);
    }
  }

  lemma ScaleLe(a: int, b: int, c: nat)
    requires a <= b
    ensures a * c <= b * c
  {
  }

  // ---------------------------------------------------------------------
  // GET /
  // ---------------------------------------------------------------------

  datatype Pagination = Pagination(total: nat, page: int, limit: int, pages: nat)

  datatype ListResponse = ListResponse(data: seq<Lead>, pagination: Pagination)

  /** The sort the route applies for a request. */
  function SortOf(req: ListRequest): SortSpec {
    SortSpec(FieldNamed(req.sortBy), req.sortOrder == "asc")
  }

  /** The list handler: page `page` of the selected leads in sort order,
      the number of all selected leads, and the page count. */
  method GetLeads(store: seq<Lead>, req: ListRequest, now: Timestamp) returns (resp: ListResponse)
    requires ValidRequest(req)
    ensures resp.data == PageSlice(SortLeads(Selection(store, req, now), SortOf(req)), req.page, req.limit)
    ensures resp.pagination.total == |Selection(store, req, now)|
    ensures resp.pagination.pages == CeilDiv(resp.pagination.total, req.limit)
    ensures resp.pagination.page == req.page && resp.pagination.limit == req.limit
    ensures |resp.data| <= req.limit
    ensures forall l :: l in resp.data ==> l in store && Selected(req, now, l)
    ensures forall i, j :: 0 <= i < j < |resp.data| ==>
              if req.sortOrder == "asc" then KeyLe(SortKey(resp.data[i], FieldNamed(req.sortBy)), SortKey(resp.data[j], FieldNamed(req.sortBy)))
              else KeyLe(SortKey(resp.data[j], FieldNamed(req.sortBy)), SortKey(resp.data[i], FieldNamed(req.sortBy)))
  {
    var q, sort := BuildQuery(req, now);
    FilterSamePredicate(store, l => Matches(q, l), l => Selected(req, now, l));
    var matches := Find(store, q);
    var sorted := SortLeads(matches, sort);
    var leads := PageSlice(sorted, req.page, req.limit);
    var total := |matches|;
    resp := ListResponse(leads, Pagination(total, req.page, req.limit, CeilDiv(total, req.limit)));
    PageOfSortedIsSorted(sorted, req.page, req.limit, sort);
    forall l | l in leads ensures l in store && Selected(req, now, l) {
      assert l in multiset(sorted);
    }
  }

  // ---------------------------------------------------------------------
  // GET /:id
  // ---------------------------------------------------------------------

  /** `Lead.findById(id)`. */
  function FindById(store: seq<Lead>, id: nat): (r: Option<Lead>)
    ensures r.Some? ==> r.value in store && r.value.id == id
    ensures r.None? <==> forall l :: l in store ==> l.id != id
  {
    if store == [] then None
    else if store[0].id == id then Some(store[0])
    else FindById(store[1..], id)
  }

  datatype DetailResponse = Found(lead: Lead) | NotFound(message: string)

  /** The detail handler: the lead with that id, or a 404 "Lead not found"
      when there is none. */
  function GetLeadById(store: seq<Lead>, id: nat): (r: DetailResponse)
    ensures r.Found? ==> r.lead in store && r.lead.id == id
    ensures r.NotFound? <==> forall l :: l in store ==> l.id != id
    ensures r.NotFound? ==> r.message == "Lead not found"
  {
    match FindById(store, id)
    case None => NotFound("Lead not found")
    case Some(lead) => Found(lead)
  }

  /** With unique ids the lead found is the one stored under that id. */
  lemma FoundIsTheLead(store: seq<Lead>, l: Lead)
    requires IdsUnique(store) && l in store
    ensures GetLeadById(store, l.id) == Found(l)
  {
    var r := GetLeadById(store, l.id);
    var i :| 0 <= i < |store| && store[i] == l;
    var j :| 0 <= j < |store| && store[j] == r.lead;
    assert i == j;
  }
}
