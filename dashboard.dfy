/** The client logic of frontend/src/components/Dashboard.jsx: the initials
    helper, the sort-order toggle, the previous/next page buttons, the reset
    to page 1 when the search or the stage filter changes, and the query
    parameters sent to the list route. */
module Dashboard {
  import opened Wrappers
  import opened Text
  import opened LeadsRoute

  // ---------------------------------------------------------------------
  // getInitials
  // ---------------------------------------------------------------------

  /** `n[0]` of a word, joined by `join('')`: the first character, or
      nothing for an empty word (undefined joins as the empty string). */
  function FirstChar(w: string): (r: string)
    ensures w == [] ==> r == []
    ensures w != [] ==> r == [w[0]]
  {
    if w == [] then [] else [w[0]]
  }

  /** `words.map(n => n[0]).join('')`. */
  function Heads(words: seq<string>): string {
    if words == [] then [] else FirstChar(words[0]) + Heads(words[1..])
  }

  /** The characters of s that begin a word: not a space, and at the start
      (when atStart) or right after a space. */
  function WordStarts(s: string, atStart: bool): string {
    if s == [] then []
    else (if s[0] != ' ' && atStart then [s[0]] else []) + WordStarts(s[1..], s[0] == ' ')
  }

  /** Splitting on single spaces and taking each piece's first character
      gives exactly the characters that begin a word; empty pieces, from
      leading, trailing or repeated spaces, give nothing. */
  lemma {:induction false} HeadsOfSplit(s: string)
    ensures Heads(SplitSpaces(s)) == WordStarts(s, true)
    ensures |SplitSpaces(s)| >= 1 && Heads(SplitSpaces(s)[1..]) == WordStarts(s, false)
  {
    if s != [] {
      HeadsOfSplit(s[1..]);
      var rest := SplitSpaces(s[1..]);
      if s[0] == ' ' {
        assert SplitSpaces(s) == [""] + rest;
        assert ([""] + rest)[1..] == rest;
      } else {
        var w := [s[0]] + rest[0];
        assert SplitSpaces(s) == [w] + rest[1..];
        assert ([w] + rest[1..])[1..] == rest[1..];
      }
    }
  }

  /** `name ? name.split(' ').map(n => n[0]).join('').toUpperCase().substring(0, 2) : '??'`:
      "??" for an absent or empty name, otherwise the first two of the
      upper-cased characters that begin a word. */
  function GetInitials(name: Option<string>): (r: string)
    ensures name.None? || name.value == [] ==> r == "??"
    ensures name.Some? && name.value != [] ==>
              var starts := Upper(WordStarts(name.value, true));
              r == starts[..Min(2, |starts|)]
    ensures |r| <= 2
  {
    if name.None? || name.value == [] then "??"
    else
      var joined := Upper(Heads(SplitSpaces(name.value)));
      HeadsOfSplit(name.value);
      joined[..Min(2, |joined|)]
  }

  /** Where a word-start scan of a + b stands when it reaches b. */
  function AtStartAfter(a: string, atStart: bool): bool {
    if a == [] then atStart else a[|a| - 1] == ' '
  }

  /** The scan of a stands after its last character where the scan of
      its tail does. */
  lemma AtStartAfterTail(a: string, atStart: bool)
    requires a != []
    ensures AtStartAfter(a[1..], a[0] == ' ') == AtStartAfter(a, atStart)
  {
    if a[1..] != [] {
      assert a[1..][|a[1..]| - 1] == a[|a| - 1];
    }
  }

  lemma {:induction false} WordStartsAppend(a: string, b: string, atStart: bool)
    ensures WordStarts(a + b, atStart) == WordStarts(a, atStart) + WordStarts(b, AtStartAfter(a, atStart))
  {
    if a == [] {
      assert a + b == b;
    } else {
      var next := a[0] == ' ';
      var h := if a[0] != ' ' && atStart then [a[0]] else [];
      assert (a + b)[0] == a[0] && (a + b)[1..] == a[1..] + b;
      assert WordStarts(a + b, atStart) == h + WordStarts(a[1..] + b, next);
      assert WordStarts(a, atStart) == h + WordStarts(a[1..], next);
      WordStartsAppend(a[1..], b, next);
      AtStartAfterTail(a, atStart);
      var x, y := WordStarts(a[1..], next), WordStarts(b, AtStartAfter(a, atStart));
      assert h + (x + y) == (h + x) + y;
    }
  }

  /** A repeated space changes nothing: "Jane  Doe" has the initials of
      "Jane Doe". */
  lemma RepeatedSpaceIgnored(a: string, b: string)
    ensures GetInitials(Some(a + "  " + b)) == GetInitials(Some(a + " " + b))
  {
    WordStartsAppend(a, "  " + b, true);
    WordStartsAppend(a, " " + b, true);
    assert ("  " + b)[1..] == " " + b;
    assert (" " + b)[1..] == b;
    assert a + "  " + b == a + ("  " + b);
    assert a + " " + b == a + (" " + b);
  }

  /** A leading space changes nothing either. */
  lemma LeadingSpaceIgnored(s: string)
    requires s != []
    ensures GetInitials(Some(" " + s)) == GetInitials(Some(s))
  {
    assert (" " + s)[1..] == s;
  }

  /** A word: non-empty and without a space. */
  predicate Word(w: string) {
    w != [] && forall i :: 0 <= i < |w| ==> w[i] != ' '
  }

  /** Inside a word no character begins one. */
  lemma {:induction false} OneWord(w: string, atStart: bool)
    requires Word(w)
    ensures WordStarts(w, atStart) == (if atStart then [w[0]] else [])
    decreases |w|
  {
    if |w| > 1 {
      assert Word(w[1..]) by {
        forall i | 0 <= i < |w[1..]| ensures w[1..][i] != ' ' {
          assert w[1..][i] == w[i + 1];
        }
      }
      OneWord(w[1..], false);
    } else {
      assert w[1..] == [];
    }
  }

  /** A word, a space and the rest: the word contributes its first
      character and the scan starts afresh on the rest. */
  lemma WordThen(w: string, t: string)
    requires Word(w)
    ensures WordStarts(w + ([' '] + t), true) == [w[0]] + WordStarts(t, true)
  {
    WordStartsAppend(w, [' '] + t, true);
    assert !AtStartAfter(w, true) by {
      assert w[|w| - 1] != ' ';
    }
    OneWord(w, true);
    SpaceThen(t);
  }

  /** After a space a scan is at the start of a word. */
  lemma SpaceThen(t: string)
    ensures WordStarts([' '] + t, false) == WordStarts(t, true)
  {
    var u := [' '] + t;
    assert u[0] == ' ' && u[1..] == t;
  }

  lemma InitialsOfAbsentName()
    ensures GetInitials(None) == "??" && GetInitials(Some("")) == "??"
  {
  }

  /** "Ada Lovelace" gives "AL": the upper-cased first characters of the
      two words. */
  lemma InitialsOfTwoWords(first: string, last: string)
    requires Word(first) && Word(last)
    ensures GetInitials(Some(first + ([' '] + last))) == [UpperChar(first[0]), UpperChar(last[0])]
  {
    WordThen(first, last);
    OneWord(last, true);
    assert WordStarts(first + ([' '] + last), true) == [first[0], last[0]];
  }

  /** Only the first two initials are kept: "Mary Ann Lee" gives "MA". */
  lemma InitialsOfThreeWords(a: string, b: string, c: string)
    requires Word(a) && Word(b) && Word(c)
    ensures GetInitials(Some(a + ([' '] + (b + ([' '] + c))))) == [UpperChar(a[0]), UpperChar(b[0])]
  {
    WordThen(a, b + ([' '] + c));
    WordThen(b, c);
    OneWord(c, true);
    var starts := WordStarts(a + ([' '] + (b + ([' '] + c))), true);
    assert starts == [a[0], b[0], c[0]];
    assert Upper(starts)[..2] == [UpperChar(a[0]), UpperChar(b[0])];
  }

  /** A name of spaces only is present but has no initials. */
  lemma InitialsOfBlankName()
    ensures GetInitials(Some(" ")) == ""
  {
    assert WordStarts(" ", true) == "";
  }

  // ---------------------------------------------------------------------
  // The sort-order toggle
  // ---------------------------------------------------------------------

  /** `sortOrder === 'desc' ? 'asc' : 'desc'`. */
  function ToggleOrder(order: string): (r: string)
    ensures r == "asc" <==> order == "desc"
    ensures r == "asc" || r == "desc"
  {
    if order == "desc" then "asc" else "desc"
  }

  /** Toggling twice restores the order exactly when it was one of the two
      the toggle produces. */
  lemma ToggleTwice(order: string)
    ensures ToggleOrder(ToggleOrder(order)) == order <==> order == "asc" || order == "desc"
  {
  }

  // ---------------------------------------------------------------------
  // The page buttons
  // ---------------------------------------------------------------------

  /** `disabled={page === 1}` on the previous button. */
  predicate PrevEnabled(page: int) { page != 1 }

  /** `disabled={page === totalPages}` on the next button, as written. */
  predicate NextEnabledAsWritten(page: int, totalPages: int) { page != totalPages }

  /** The next button as evidently intended: disabled on the last page and
      beyond it. */
  predicate NextEnabled(page: int, totalPages: int) { page < totalPages }

  datatype Click = PrevClick | NextClick

  /** The page after one click with the as-written guards. */
  function StepAsWritten(page: int, totalPages: int, c: Click): int {
    match c
    case PrevClick => if PrevEnabled(page) then page - 1 else page
    case NextClick => if NextEnabledAsWritten(page, totalPages) then page + 1 else page
  }

  /** The page after one click with the corrected next guard. */
  function Step(page: int, totalPages: int, c: Click): int {
    match c
    case PrevClick => if PrevEnabled(page) then page - 1 else page
    case NextClick => if NextEnabled(page, totalPages) then page + 1 else page
  }

  function NavigateAsWritten(page: int, totalPages: int, clicks: seq<Click>): int
    decreases clicks
  {
    if clicks == [] then page else NavigateAsWritten(StepAsWritten(page, totalPages, clicks[0]), totalPages, clicks[1..])
  }

  function Navigate(page: int, totalPages: int, clicks: seq<Click>): int
    decreases clicks
  {
    if clicks == [] then page else Navigate(Step(page, totalPages, clicks[0]), totalPages, clicks[1..])
  }

  /** With at least one page and a page in range, any clicks on the
      as-written buttons keep the page in 1 .. totalPages. */
  lemma {:induction false} AsWrittenStaysInRange(page: int, totalPages: int, clicks: seq<Click>)
    requires 1 <= page <= totalPages
    ensures 1 <= NavigateAsWritten(page, totalPages, clicks) <= totalPages
    decreases clicks
  {
    if clicks != [] {
      AsWrittenStaysInRange(StepAsWritten(page, totalPages, clicks[0]), totalPages, clicks[1..]);
    }
  }

  /** With no matching leads the list route reports 0 pages, the dashboard
      still shows page 1, and the as-written next button stays enabled:
      every click moves one page further past the end. */
  lemma {:induction false} AsWrittenRunsPastEnd(n: nat)
    ensures NavigateAsWritten(1, 0, seq(n, _ => NextClick)) == 1 + n
  {
    RunsPastEnd(1, n);
  }

  lemma {:induction false} RunsPastEnd(page: int, n: nat)
    requires page >= 1
    ensures NavigateAsWritten(page, 0, seq(n, _ => NextClick)) == page + n
    decreases n
  {
    if n > 0 {
      var clicks := seq(n, _ => NextClick);
      assert clicks[0] == NextClick;
      assert clicks[1..] == seq(n - 1, _ => NextClick);
      RunsPastEnd(page + 1, n - 1);
    }
  }

  /** The corrected buttons keep the page in 1 .. max(1, totalPages) for
      every page count, 0 included. */
  lemma {:induction false} StaysInRange(page: int, totalPages: int, clicks: seq<Click>)
    requires 1 <= page <= Max(1, totalPages)
    ensures 1 <= Navigate(page, totalPages, clicks) <= Max(1, totalPages)
    decreases clicks
  {
    if clicks != [] {
      StaysInRange(Step(page, totalPages, clicks[0]), totalPages, clicks[1..]);
    }
  }

  /** Where both are defined by a sensible page count and page, the two
      guards agree. */
  lemma GuardsAgreeInRange(page: int, totalPages: int)
    requires 1 <= page <= totalPages
    ensures NextEnabled(page, totalPages) <==> NextEnabledAsWritten(page, totalPages)
  {
  }

  // ---------------------------------------------------------------------
  // The query parameters
  // ---------------------------------------------------------------------

  /** `...(value && { key: value })`: the pair when the value is non-empty,
      nothing otherwise. */
  function Optional(key: string, value: string): (r: seq<(string, string)>)
    ensures r == [] <==> value == ""
    ensures value != "" ==> r == [(key, value)]
  {
    if value != "" then [(key, value)] else []
  }

  /** The search, stage and day pairs, each sent only when set. */
  function Filters(searchTerm: string, stageFilter: string, selectedDate: string): seq<(string, string)> {
    Optional("search", searchTerm) + Optional("stage", stageFilter) + Optional("day", selectedDate)
  }

  /** `new URLSearchParams({ page, limit: 10, sortBy, sortOrder,
      ...(searchTerm && { search }), ...(stageFilter && { stage }),
      ...(selectedDate && { day }) })`, as (name, value) pairs in order. */
  function BuildParams(page: nat, sortBy: string, sortOrder: string, searchTerm: string,
                       stageFilter: string, selectedDate: string): (r: seq<(string, string)>)
    ensures |r| >= 4 && r[..4] == [("page", Decimal(page)), ("limit", "10"), ("sortBy", sortBy), ("sortOrder", sortOrder)]
    ensures ("search", searchTerm) in r <==> searchTerm != ""
    ensures ("stage", stageFilter) in r <==> stageFilter != ""
    ensures ("day", selectedDate) in r <==> selectedDate != ""
    ensures forall p :: p in r[4..] ==> p.0 in ["search", "stage", "day"] && p.1 != ""
    ensures |r| == 4 + (if searchTerm != "" then 1 else 0) + (if stageFilter != "" then 1 else 0)
                     + (if selectedDate != "" then 1 else 0)
  {
    var head := [("page", Decimal(page)), ("limit", "10"), ("sortBy", sortBy), ("sortOrder", sortOrder)];
    var t := Filters(searchTerm, stageFilter, selectedDate);
    var r := head + t;
    assert r[..4] == head && r[4..] == t;
    FiltersMembers(searchTerm, stageFilter, selectedDate);
    HeadKeys(head, Decimal(page), sortBy, sortOrder);
    r
  }

  /** None of the four pairs always sent has an optional key. */
  lemma HeadKeys(head: seq<(string, string)>, page: string, sortBy: string, sortOrder: string)
    requires head == [("page", page), ("limit", "10"), ("sortBy", sortBy), ("sortOrder", sortOrder)]
    ensures forall p :: p in head ==> p.0 !in ["search", "stage", "day"]
  {
  }

  /** The optional pairs carry only their three keys, each with a non-empty
      value, and a value is sent exactly when it is set. */
  lemma FiltersMembers(searchTerm: string, stageFilter: string, selectedDate: string)
    ensures var t := Filters(searchTerm, stageFilter, selectedDate);
      && (forall p :: p in t ==> p.0 in ["search", "stage", "day"] && p.1 != "")
      && (("search", searchTerm) in t <==> searchTerm != "")
      && (("stage", stageFilter) in t <==> stageFilter != "")
      && (("day", selectedDate) in t <==> selectedDate != "")
  {
    var a, b, c := Optional("search", searchTerm), Optional("stage", stageFilter), Optional("day", selectedDate);
    assert forall p :: p in a + b + c <==> p in a || p in b || p in c;
  }

  /** A lookup checks the first pair, then the rest. */
  lemma ConsLookup(p: (string, string), rest: seq<(string, string)>, key: string)
    ensures Lookup([p] + rest, key) == if p.0 == key then Some(p.1) else Lookup(rest, key)
  {
    assert ([p] + rest)[1..] == rest;
  }

  /** A lookup in four pairs followed by more: the first of the four with
      the key, else the lookup in the rest. */
  lemma FourLookup(a: (string, string), b: (string, string), c: (string, string), d: (string, string),
                   rest: seq<(string, string)>, key: string)
    ensures Lookup([a, b, c, d] + rest, key)
            == if a.0 == key then Some(a.1) else if b.0 == key then Some(b.1)
               else if c.0 == key then Some(c.1) else if d.0 == key then Some(d.1)
               else Lookup(rest, key)
  {
    assert [a, b, c, d] + rest == [a] + ([b] + ([c] + ([d] + rest)));
    ConsLookup(a, [b] + ([c] + ([d] + rest)), key);
    ConsLookup(b, [c] + ([d] + rest), key);
    ConsLookup(c, [d] + rest, key);
    ConsLookup(d, rest, key);
  }

  /** A lookup past an optional pair. */
  lemma OptionalLookup(k: string, v: string, rest: seq<(string, string)>, key: string)
    ensures Lookup(Optional(k, v) + rest, key) == if k == key && v != "" then Some(v) else Lookup(rest, key)
  {
    if v != "" {
      ConsLookup((k, v), rest, key);
    } else {
      assert Optional(k, v) + rest == rest;
    }
  }

  /** A lookup in the optional pairs: the value of the set pair with the
      key, else nothing. */
  lemma FiltersLookup(searchTerm: string, stageFilter: string, selectedDate: string, key: string)
    ensures Lookup(Filters(searchTerm, stageFilter, selectedDate), key)
            == if key == "search" && searchTerm != "" then Some(searchTerm)
               else if key == "stage" && stageFilter != "" then Some(stageFilter)
               else if key == "day" && selectedDate != "" then Some(selectedDate)
               else None
  {
    var d := Optional("day", selectedDate);
    assert Filters(searchTerm, stageFilter, selectedDate) == Optional("search", searchTerm) + (Optional("stage", stageFilter) + d);
    OptionalLookup("search", searchTerm, Optional("stage", stageFilter) + d, key);
    OptionalLookup("stage", stageFilter, d, key);
    assert d + [] == d;
    OptionalLookup("day", selectedDate, [], key);
  }

  /** The list route reads back what the dashboard sends: its page, a limit
      of 10, its sort, search and stage, no status, and the number in the
      selected day. */
  lemma ParamsRoundTrip(page: nat, sortBy: string, sortOrder: string, searchTerm: string,
                        stageFilter: string, selectedDate: string)
    requires selectedDate != "" ==> ParseInt(selectedDate).Some?
    ensures ParseRequest(ReadQuery(BuildParams(page, sortBy, sortOrder, searchTerm, stageFilter, selectedDate)))
            == Some(ListRequest(searchTerm, stageFilter, "",
                                if selectedDate == "" then None else ParseInt(selectedDate),
                                sortBy, sortOrder, page, 10))
  {
    ReadParams(page, sortBy, sortOrder, searchTerm, stageFilter, selectedDate);
    ParseSent(RawQuery(searchTerm, stageFilter, "", selectedDate, sortBy, sortOrder, Decimal(page), "10"), page);
  }

  /** Parsing a query with the dashboard's page and limit. */
  lemma ParseSent(q: RawQuery, page: nat)
    requires q.page == Decimal(page) && q.limit == "10"
    requires q.day != "" ==> ParseInt(q.day).Some?
    ensures ParseRequest(q) == Some(ListRequest(q.search, q.stage, q.status,
                                                if q.day == "" then None else ParseInt(q.day),
                                                q.sortBy, q.sortOrder, page, 10))
  {
    ParseDecimal(page);
    ParseTen();
    assert ParseInt(q.page) == Some(page) && ParseInt(q.limit) == Some(10);
  }

  /** The limit the dashboard sends reads as 10. */
  lemma ParseTen()
    ensures ParseInt("10") == Some(10)
  {
    assert Decimal(10) == "10";
    ParseDecimal(10);
  }

  /** The raw query the list route reads from the dashboard's parameters. */
  lemma ReadParams(page: nat, sortBy: string, sortOrder: string, searchTerm: string,
                   stageFilter: string, selectedDate: string)
    ensures ReadQuery(BuildParams(page, sortBy, sortOrder, searchTerm, stageFilter, selectedDate))
            == RawQuery(searchTerm, stageFilter, "", selectedDate, sortBy, sortOrder, Decimal(page), "10")
  {
    var a, b, c, d := ("page", Decimal(page)), ("limit", "10"), ("sortBy", sortBy), ("sortOrder", sortOrder);
    var t := Filters(searchTerm, stageFilter, selectedDate);
    var r := BuildParams(page, sortBy, sortOrder, searchTerm, stageFilter, selectedDate);
    assert r == [a, b, c, d] + t;
    FourLookup(a, b, c, d, t, "page");
    FourLookup(a, b, c, d, t, "limit");
    FourLookup(a, b, c, d, t, "sortBy");
    FourLookup(a, b, c, d, t, "sortOrder");
    FourLookup(a, b, c, d, t, "search");
    FourLookup(a, b, c, d, t, "stage");
    FourLookup(a, b, c, d, t, "status");
    FourLookup(a, b, c, d, t, "day");
    FiltersLookup(searchTerm, stageFilter, selectedDate, "search");
    FiltersLookup(searchTerm, stageFilter, selectedDate, "stage");
    FiltersLookup(searchTerm, stageFilter, selectedDate, "status");
    FiltersLookup(searchTerm, stageFilter, selectedDate, "day");
  }

  // ---------------------------------------------------------------------
  // The component state
  // ---------------------------------------------------------------------

  /** The dashboard's paging, sort and filter state, updated by its buttons,
      inputs and fetch results. */
  class DashboardState {
    var page: int
    var totalPages: int
    var searchTerm: string
    var sortBy: string
    var sortOrder: string
    var stageFilter: string
    var selectedDate: string

    ghost predicate Valid()
      reads this
    {
      page >= 1
    }

    /** The initial `useState` values. */
    constructor()
      ensures Valid()
      ensures page == 1 && totalPages == 1
      ensures searchTerm == "" && sortBy == "createdAt" && sortOrder == "desc"
      ensures stageFilter == "" && selectedDate == "07"
    {
      page := 1;
      totalPages := 1;
      searchTerm := "";
      sortBy := "createdAt";
      sortOrder := "desc";
      stageFilter := "";
      selectedDate := "07";
    }

    /** The previous button: one page back unless on page 1. */
    method ClickPrev()
      requires Valid()
      modifies this
      ensures Valid()
      ensures page == Step(old(page), totalPages, PrevClick)
      ensures totalPages == old(totalPages) && searchTerm == old(searchTerm) && sortBy == old(sortBy)
      ensures sortOrder == old(sortOrder) && stageFilter == old(stageFilter) && selectedDate == old(selectedDate)
    {
      if PrevEnabled(page) {
        page := page - 1;
      }
    }

    /** The next button, with the corrected guard: one page on unless on
        the last page or past it. */
    method ClickNext()
      requires Valid()
      modifies this
      ensures Valid()
      ensures page == Step(old(page), totalPages, NextClick)
      ensures totalPages == old(totalPages) && searchTerm == old(searchTerm) && sortBy == old(sortBy)
      ensures sortOrder == old(sortOrder) && stageFilter == old(stageFilter) && selectedDate == old(selectedDate)
    {
      if NextEnabled(page, totalPages) {
        page := page + 1;
      }
    }

    /** Typing in the search box; a changed term runs the reset effect and
        goes back to page 1. */
    method SetSearchTerm(term: string)
      requires Valid()
      modifies this
      ensures Valid()
      ensures searchTerm == term
      ensures page == (if term != old(searchTerm) then 1 else old(page))
      ensures totalPages == old(totalPages) && sortBy == old(sortBy) && sortOrder == old(sortOrder)
      ensures stageFilter == old(stageFilter) && selectedDate == old(selectedDate)
    {
      if term != searchTerm {
        searchTerm := term;
        page := 1;
      }
    }

    /** Choosing a stage; a changed filter goes back to page 1. */
    method SetStageFilter(stage: string)
      requires Valid()
      modifies this
      ensures Valid()
      ensures stageFilter == stage
      ensures page == (if stage != old(stageFilter) then 1 else old(page))
      ensures totalPages == old(totalPages) && searchTerm == old(searchTerm) && sortBy == old(sortBy)
      ensures sortOrder == old(sortOrder) && selectedDate == old(selectedDate)
    {
      if stage != stageFilter {
        stageFilter := stage;
        page := 1;
      }
    }

    /** Choosing the sort field keeps the page. */
    method SetSortBy(field: string)
      requires Valid()
      modifies this
      ensures Valid()
      ensures sortBy == field
      ensures page == old(page) && totalPages == old(totalPages) && searchTerm == old(searchTerm)
      ensures sortOrder == old(sortOrder) && stageFilter == old(stageFilter) && selectedDate == old(selectedDate)
    {
      sortBy := field;
    }

    /** The order button keeps the page. */
    method ToggleSortOrder()
      requires Valid()
      modifies this
      ensures Valid()
      ensures sortOrder == ToggleOrder(old(sortOrder))
      ensures page == old(page) && totalPages == old(totalPages) && searchTerm == old(searchTerm)
      ensures sortBy == old(sortBy) && stageFilter == old(stageFilter) && selectedDate == old(selectedDate)
    {
      sortOrder := ToggleOrder(sortOrder);
    }

    /** Picking a day in the analytics strip keeps the page. */
    method SetSelectedDate(date: string)
      requires Valid()
      modifies this
      ensures Valid()
      ensures selectedDate == date
      ensures page == old(page) && totalPages == old(totalPages) && searchTerm == old(searchTerm)
      ensures sortBy == old(sortBy) && sortOrder == old(sortOrder) && stageFilter == old(stageFilter)
    {
      selectedDate := date;
    }

    /** A successful fetch stores `pagination.pages`. */
    method ReceivePages(pages: nat)
      requires Valid()
      modifies this
      ensures Valid()
      ensures totalPages == pages
      ensures page == old(page) && searchTerm == old(searchTerm) && sortBy == old(sortBy)
      ensures sortOrder == old(sortOrder) && stageFilter == old(stageFilter) && selectedDate == old(selectedDate)
    {
      totalPages := pages;
    }

    /** The parameters of the next fetch, from the current state. */
    method RequestParams() returns (r: seq<(string, string)>)
      requires Valid()
      ensures r == BuildParams(page, sortBy, sortOrder, searchTerm, stageFilter, selectedDate)
    {
      r := BuildParams(page, sortBy, sortOrder, searchTerm, stageFilter, selectedDate);
    }
  }

  /** The initial state asks for page 1 of 10, newest first, on day 7. */
  lemma InitialRequest()
    ensures ParseRequest(ReadQuery(BuildParams(1, "createdAt", "desc", "", "", "07")))
            == Some(ListRequest("", "", "", Some(7), "createdAt", "desc", 1, 10))
  {
    ParseSeven();
    ParamsRoundTrip(1, "createdAt", "desc", "", "", "07");
  }

  /** The initial day reads as 7. */
  lemma ParseSeven()
    ensures ParseInt("07") == Some(7)
  {
    var s := "07";
    assert TrimStart(s) == s;
    assert DigitPrefix(s) == s;
    assert DigitsValue(s) == 7;
  }
}
