/** The summary route of backend/src/routes/analytics.js: an optional day
    filter (the list route's window), the total and converted counts, the
    counts grouped by stage and by status (`$group` then `$sort` by key), and
    the conversion rate with its zero guard. */
module AnalyticsRoute {
  import opened Wrappers
  import opened Text
  import opened Calendar
  import opened LeadModel
  import opened LeadsRoute

  // ---------------------------------------------------------------------
  // The day filter
  // ---------------------------------------------------------------------

  /** The lead falls on the requested day of the current month, or no day
      was requested. */
  predicate OnDay(day: Option<int>, now: Timestamp, l: Lead) {
    day.None? || (l.createdAt.year == now.year && l.createdAt.month == now.month && l.createdAt.day == day.value)
  }

  /** Sets createdAt to the day window when a day is given, and nothing else. */
  method BuildSummaryQuery(day: Option<int>, now: Timestamp) returns (q: Query)
    ensures forall l :: Matches(q, l) <==> OnDay(day, now, l)
  {
    q := Query(None, None, None, None);
    if day.Some? {
      q := q.(createdAt := Some(DayWindow(day.value, now)));
    }
    forall l: Lead ensures Matches(q, l) <==> OnDay(day, now, l) {
      if day.Some? {
        DayWindowIsDay(day.value, now, l.createdAt);
      }
    }
  }

  /** The summary counts exactly the leads the list route returns for the
      same day and no other filter. */
  lemma SameDayFilterAsList(store: seq<Lead>, req: ListRequest, now: Timestamp)
    requires req.search == "" && req.stage == "" && req.status == ""
    ensures Filter(store, l => OnDay(req.day, now, l)) == Selection(store, req, now)
  {
    FilterSamePredicate(store, l => OnDay(req.day, now, l), l => Selected(req, now, l));
  }

  // ---------------------------------------------------------------------
  // $group: one bucket per distinct key
  // ---------------------------------------------------------------------

  /** A group `{ _id: key, count }`. */
  datatype Bucket = Bucket(key: string, count: nat)

  /** The number of occurrences of k in keys. */
  function Occurrences(keys: seq<string>, k: string): nat {
    if keys == [] then 0
    else Occurrences(keys[..|keys| - 1], k) + (if keys[|keys| - 1] == k then 1 else 0)
  }

  lemma {:induction false} OccurrencesPositive(keys: seq<string>, k: string)
    ensures Occurrences(keys, k) >= 1 <==> k in keys
  {
    if keys != [] {
      var init := keys[..|keys| - 1];
      assert keys == init + [keys[|keys| - 1]];
      OccurrencesPositive(init, k);
    }
  }

  function SumCounts(g: seq<Bucket>): nat {
    if g == [] then 0 else g[0].count + SumCounts(g[1..])
  }

  function KeySet(g: seq<Bucket>): set<string> {
    set b | b in g :: b.key
  }

  predicate DistinctKeys(g: seq<Bucket>) {
    forall i, j :: 0 <= i < j < |g| ==> g[i].key != g[j].key
  }

  predicate Distinct(s: seq<string>) {
    forall i, j :: 0 <= i < j < |s| ==> s[i] != s[j]
  }

  /** The distinct keys in the order of their first occurrence, the order in
      which the grouping stage meets them. */
  function FirstSeen(keys: seq<string>): (d: seq<string>)
    ensures Distinct(d)
    ensures forall k :: k in d <==> k in keys
  {
    if keys == [] then []
    else
      var init := keys[..|keys| - 1];
      var last := keys[|keys| - 1];
      assert keys == init + [last];
      var d := FirstSeen(init);
      if last in d then d else d + [last]
  }

  /** One bucket for each of the keys d, counting its occurrences in keys. */
  function CountEach(d: seq<string>, keys: seq<string>): (g: seq<Bucket>)
    ensures |g| == |d|
    ensures forall i :: 0 <= i < |d| ==> g[i] == Bucket(d[i], Occurrences(keys, d[i]))
  {
    if d == [] then [] else [Bucket(d[0], Occurrences(keys, d[0]))] + CountEach(d[1..], keys)
  }

  /** Adding one more key adds one to the total of the buckets for d when
      the key is among d, and nothing otherwise. */
  lemma {:induction false} CountEachPush(d: seq<string>, keys: seq<string>, x: string)
    requires Distinct(d)
    ensures SumCounts(CountEach(d, keys + [x])) == SumCounts(CountEach(d, keys)) + (if x in d then 1 else 0)
  {
    if d != [] {
      assert (keys + [x])[..|keys + [x]| - 1] == keys;
      assert x in d <==> x == d[0] || x in d[1..] by { assert d == [d[0]] + d[1..]; }
      CountEachPush(d[1..], keys, x);
    }
  }

  /** The buckets over d count every key exactly once when d holds every key
      without repetition. */
  lemma {:induction false} CountEachTotal(d: seq<string>, keys: seq<string>)
    requires Distinct(d)
    requires forall k :: k in keys ==> k in d
    ensures SumCounts(CountEach(d, keys)) == |keys|
  {
    if keys == [] {
      CountEachEmpty(d, keys);
    } else {
      var init := keys[..|keys| - 1];
      var last := keys[|keys| - 1];
      assert keys == init + [last];
      CountEachTotal(d, init);
      CountEachPush(d, init, last);
    }
  }

  lemma {:induction false} CountEachEmpty(d: seq<string>, keys: seq<string>)
    requires keys == []
    ensures SumCounts(CountEach(d, keys)) == 0
  {
    if d != [] {
      CountEachEmpty(d[1..], keys);
    }
  }

  /** `$group: { _id: key, count: { $sum: 1 } }` over the keys in store
      order: the buckets have distinct keys, one for each key that occurs,
      with the number of its occurrences as count, and the counts add up to
      the number of keys. */
  function Group(keys: seq<string>): (g: seq<Bucket>)
    ensures DistinctKeys(g)
    ensures forall k :: k in KeySet(g) <==> k in keys
    ensures forall b :: b in g ==> b.count == Occurrences(keys, b.key) && b.count >= 1
    ensures SumCounts(g) == |keys|
  {
    var d := FirstSeen(keys);
    var g := CountEach(d, keys);
    CountEachTotal(d, keys);
    assert forall k :: k in KeySet(g) <==> k in d by {
      forall k ensures k in KeySet(g) <==> k in d {
        if k in d {
          var i :| 0 <= i < |d| && d[i] == k;
          assert g[i] in g;
        }
      }
    }
    forall b | b in g ensures b.count == Occurrences(keys, b.key) && b.count >= 1 {
      OccurrencesPositive(keys, b.key);
    }
    g
  }

  // ---------------------------------------------------------------------
  // $sort: { _id: 1 }
  // ---------------------------------------------------------------------

  /** Keys strictly ascending in the store's string order. */
  predicate StrictlyAscending(g: seq<Bucket>) {
    forall i, j :: 0 <= i < j < |g| ==> LexLt(g[i].key, g[j].key)
  }

  function InsertBucket(b: Bucket, s: seq<Bucket>): (r: seq<Bucket>)
    requires StrictlyAscending(s) && b.key !in KeySet(s)
    ensures StrictlyAscending(r)
    ensures forall c :: c in r <==> c == b || c in s
    ensures KeySet(r) == KeySet(s) + {b.key}
    ensures SumCounts(r) == b.count + SumCounts(s)
  {
    if s == [] then [b]
    else
      AscendingTail(s);
      KeySetCons(s[0], s[1..]);
      if LexLe(b.key, s[0].key) then
        BelowAll(b.key, s);
        ConsAscending(b, s);
        KeySetCons(b, s);
        [b] + s
      else
        LexLeTotal(b.key, s[0].key);
        var rest := InsertBucket(b, s[1..]);
        ConsAscending(s[0], rest);
        KeySetCons(s[0], rest);
        [s[0]] + rest
  }

  /** An ascending sequence is its first bucket, below all the others,
      followed by an ascending tail. */
  lemma AscendingTail(s: seq<Bucket>)
    requires StrictlyAscending(s) && s != []
    ensures s == [s[0]] + s[1..]
    ensures StrictlyAscending(s[1..])
    ensures forall c :: c in s[1..] ==> LexLt(s[0].key, c.key)
  {
    forall c | c in s[1..] ensures LexLt(s[0].key, c.key) {
      var m :| 0 <= m < |s[1..]| && s[1..][m] == c;
      assert s[m + 1] == c;
    }
  }

  /** A key not in an ascending sequence and at most its first key is
      below all its keys. */
  lemma BelowAll(k: string, s: seq<Bucket>)
    requires StrictlyAscending(s) && s != [] && k !in KeySet(s)
    requires LexLe(k, s[0].key)
    ensures forall c :: c in s ==> LexLt(k, c.key)
  {
    forall c | c in s ensures LexLt(k, c.key) {
      assert c.key in KeySet(s);
      var m :| 0 <= m < |s| && s[m] == c;
      if m > 0 {
        assert LexLt(s[0].key, s[m].key);
        LexLeTransitive(k, s[0].key, c.key);
      }
    }
  }

  /** A bucket below every key of an ascending sequence can go in front. */
  lemma ConsAscending(x: Bucket, s: seq<Bucket>)
    requires StrictlyAscending(s)
    requires forall c :: c in s ==> LexLt(x.key, c.key)
    ensures StrictlyAscending([x] + s)
  {
    var r := [x] + s;
    forall i, j | 0 <= i < j < |r| ensures LexLt(r[i].key, r[j].key) {
      assert r[j] == s[j - 1];
      if i > 0 {
        assert r[i] == s[i - 1];
      }
    }
  }

  lemma KeySetCons(x: Bucket, s: seq<Bucket>)
    ensures KeySet([x] + s) == {x.key} + KeySet(s)
  {
    assert forall c :: c in [x] + s <==> c == x || c in s;
  }

  /** `{ $sort: { _id: 1 } }`: the same buckets, keys strictly ascending. */
  function SortBuckets(g: seq<Bucket>): (r: seq<Bucket>)
    requires DistinctKeys(g)
    ensures StrictlyAscending(r)
    ensures forall b :: b in r <==> b in g
    ensures KeySet(r) == KeySet(g)
    ensures SumCounts(r) == SumCounts(g)
  {
    if g == [] then []
    else
      var init := g[..|g| - 1];
      var last := g[|g| - 1];
      assert g == init + [last];
      DistinctInit(g);
      var s := SortBuckets(init);
      SumCountsAppend(init, last);
      KeySetAppend(init, last);
      InsertBucket(last, s)
  }

  /** Without its last bucket g keeps distinct keys, none of them the last
      bucket's. */
  lemma DistinctInit(g: seq<Bucket>)
    requires DistinctKeys(g) && g != []
    ensures DistinctKeys(g[..|g| - 1]) && g[|g| - 1].key !in KeySet(g[..|g| - 1])
  {
    var init := g[..|g| - 1];
    forall c | c in init ensures c.key != g[|g| - 1].key {
      var j :| 0 <= j < |init| && init[j] == c;
      assert g[j] == c;
    }
  }

  lemma {:induction false} SumCountsAppend(g: seq<Bucket>, b: Bucket)
    ensures SumCounts(g + [b]) == SumCounts(g) + b.count
  {
    if g != [] {
      assert (g + [b])[1..] == g[1..] + [b];
      SumCountsAppend(g[1..], b);
    }
  }

  lemma KeySetAppend(g: seq<Bucket>, b: Bucket)
    ensures KeySet(g + [b]) == KeySet(g) + {b.key}
  {
    assert forall c :: c in g + [b] <==> c in g || c == b;
  }

  /** The aggregation pipeline `[$match, $group, $sort]` on the matched keys. */
  function GroupSorted(keys: seq<string>): (r: seq<Bucket>)
    ensures StrictlyAscending(r)
    ensures forall k :: k in KeySet(r) <==> k in keys
    ensures forall b :: b in r ==> b.count == Occurrences(keys, b.key) && b.count >= 1
    ensures SumCounts(r) == |keys|
  {
    SortBuckets(Group(keys))
  }

  // ---------------------------------------------------------------------
  // Conversion rate
  // ---------------------------------------------------------------------

  /** `totalLeads > 0 ? ((converted / total) * 100).toFixed(2) : 0`, in
      hundredths of a percent: the integer nearest to 10000 * converted /
      total, the larger one on a tie, and 0 for an empty set. */
  function ConversionRate(converted: nat, total: nat): (rate: nat)
    ensures total == 0 ==> rate == 0
    ensures total > 0 ==> 2 * rate * total <= 20000 * converted + total < 2 * (rate + 1) * total
    ensures converted <= total ==> rate <= 10000
  {
    if total == 0 then 0
    else
      var rate := (20000 * converted + total) / (2 * total);
      RateNearest(converted, total);
      rate
  }

  lemma RateNearest(converted: nat, total: nat)
    requires total > 0
    ensures var rate := (20000 * converted + total) / (2 * total);
      && 2 * rate * total <= 20000 * converted + total < 2 * (rate + 1) * total
      && (converted <= total ==> rate <= 10000)
  {
    var n := 20000 * converted + total;
    var d := 2 * total;
    var rate := n / d;
    DivBounds(n, d);
    Scale(rate, total);
    if converted <= total {
      assert n < d * 10001;
      if rate > 10000 {
        MulMonotone(rate, 10001, d);
      }
    }
  }

  lemma DivBounds(n: nat, d: nat)
    requires d > 0
    ensures d * (n / d) <= n < d * (n / d) + d
  {
  }

  lemma Scale(rate: nat, total: nat)
    ensures 2 * rate * total == (2 * total) * rate
    ensures 2 * (rate + 1) * total == (2 * total) * rate + 2 * total
  {
  }

  lemma MulMonotone(a: nat, b: nat, d: nat)
    requires a >= b
    ensures d * a >= d * b
  {
  }

  /** One converted lead of three gives 33.33 percent. */
  lemma OneOfThree()
    ensures ConversionRate(1, 3) == 3333
  {
  }

  // ---------------------------------------------------------------------
  // GET /summary
  // ---------------------------------------------------------------------

  /** The response data; leadsByStage holds `{ stage, count }` and
      leadsByStatus `{ status, count }` as Bucket(key, count). The rate is in
      hundredths of a percent. */
  datatype Summary = Summary(
    totalLeads: nat,
    convertedLeads: nat,
    conversionRate: nat,
    leadsByStage: seq<Bucket>,
    leadsByStatus: seq<Bucket>)

  /** The $group keys: the stage label of each matched lead, in order. */
  function StageLabels(leads: seq<Lead>): (r: seq<string>)
    ensures |r| == |leads|
    ensures forall i :: 0 <= i < |leads| ==> r[i] == StageLabel(leads[i].stage)
    ensures forall k :: k in r <==> exists l :: l in leads && StageLabel(l.stage) == k
  {
    if leads == [] then [] else [StageLabel(leads[0].stage)] + StageLabels(leads[1..])
  }

  /** The status label of each matched lead, in order. */
  function StatusLabels(leads: seq<Lead>): (r: seq<string>)
    ensures |r| == |leads|
    ensures forall i :: 0 <= i < |leads| ==> r[i] == StatusLabel(leads[i].status)
    ensures forall k :: k in r <==> exists l :: l in leads && StatusLabel(l.status) == k
  {
    if leads == [] then [] else [StatusLabel(leads[0].status)] + StatusLabels(leads[1..])
  }

  /** leadsByStage: one bucket for each stage that some matched lead is in,
      sorted by name, counting the leads in it; the counts add up to the
      number of matched leads. */
  function StageGroups(matches: seq<Lead>): (r: seq<Bucket>)
    ensures StrictlyAscending(r)
    ensures forall st :: StageLabel(st) in KeySet(r) <==> exists l :: l in matches && l.stage == st
    ensures forall b :: b in r ==> b.count >= 1 && b.count == Occurrences(StageLabels(matches), b.key)
    ensures SumCounts(r) == |matches|
  {
    var r := GroupSorted(StageLabels(matches));
    forall st ensures StageLabel(st) in KeySet(r) <==> exists l :: l in matches && l.stage == st {
      if l :| l in matches && StageLabel(l.stage) == StageLabel(st) {
        StageLabelRoundTrip(st);
        StageLabelRoundTrip(l.stage);
      }
    }
    r
  }

  /** leadsByStatus, likewise for the statuses. */
  function StatusGroups(matches: seq<Lead>): (r: seq<Bucket>)
    ensures StrictlyAscending(r)
    ensures forall st :: StatusLabel(st) in KeySet(r) <==> exists l :: l in matches && l.status == st
    ensures forall b :: b in r ==> b.count >= 1 && b.count == Occurrences(StatusLabels(matches), b.key)
    ensures SumCounts(r) == |matches|
  {
    var r := GroupSorted(StatusLabels(matches));
    forall st ensures StatusLabel(st) in KeySet(r) <==> exists l :: l in matches && l.status == st {
      if l :| l in matches && StatusLabel(l.status) == StatusLabel(st) {
        StatusLabelRoundTrip(st);
        StatusLabelRoundTrip(l.status);
      }
    }
    r
  }

  predicate IsConverted(l: Lead) { l.stage == Converted }

  /** convertedLeads: the number of matched leads in stage Converted (the
      count of the positions holding one), no more than all of them, and
      none exactly when no matched lead is converted. */
  function ConvertedCount(matches: seq<Lead>): (n: nat)
    ensures n == |set i | 0 <= i < |matches| && matches[i].stage == Converted|
    ensures n <= |matches|
    ensures n == 0 <==> forall l :: l in matches ==> l.stage != Converted
  {
    var c := Filter(matches, IsConverted);
    assert c != [] ==> c[0] in c;
    ConvertedPositions(matches);
    |c|
  }

  /** The converted matches are as many as the positions holding one. */
  lemma {:induction false} ConvertedPositions(matches: seq<Lead>)
    ensures |Filter(matches, IsConverted)| == |set i | 0 <= i < |matches| && matches[i].stage == Converted|
  {
    if matches != [] {
      var n := |matches| - 1;
      var init := matches[..n];
      ConvertedPositions(init);
      FilterLast(matches);
      PositionsLast(matches);
    }
  }

  /** Filtering a non-empty sequence: the filter of all but the last, then
      the last when it is converted. */
  lemma FilterLast(m: seq<Lead>)
    requires m != []
    ensures Filter(m, IsConverted) == Filter(m[..|m| - 1], IsConverted)
                                      + (if IsConverted(m[|m| - 1]) then [m[|m| - 1]] else [])
  {
    var n := |m| - 1;
    assert m == m[..n] + [m[n]];
    FilterAppend(m[..n], [m[n]], IsConverted);
    assert [m[n]][1..] == [];
  }

  /** The converted positions of a non-empty sequence: those of all but the
      last, and one more when the last is converted. */
  lemma PositionsLast(m: seq<Lead>)
    requires m != []
    ensures var n := |m| - 1;
      |set i | 0 <= i < |m| && m[i].stage == Converted|
      == |set i | 0 <= i < n && m[..n][i].stage == Converted| + (if IsConverted(m[n]) then 1 else 0)
  {
    var n := |m| - 1;
    var s0 := set i | 0 <= i < n && m[..n][i].stage == Converted;
    var s1 := set i | 0 <= i < |m| && m[i].stage == Converted;
    if IsConverted(m[n]) {
      assert s1 == s0 + {n};
      assert n !in s0;
    } else {
      assert s1 == s0;
    }
  }

  /** The summary of the matched leads: their number, the converted count
      and the rate it gives, and the stage and status groups. */
  function Summarize(matches: seq<Lead>): (s: Summary)
    ensures s.totalLeads == |matches|
    ensures s.convertedLeads == ConvertedCount(matches) <= s.totalLeads
    ensures s.conversionRate == ConversionRate(s.convertedLeads, s.totalLeads)
    ensures s.conversionRate <= 10000
    ensures s.totalLeads == 0 ==> s.conversionRate == 0
    ensures s.leadsByStage == StageGroups(matches) && s.leadsByStatus == StatusGroups(matches)
    ensures SumCounts(s.leadsByStage) == s.totalLeads
    ensures SumCounts(s.leadsByStatus) == s.totalLeads
  {
    var total := |matches|;
    var converted := ConvertedCount(matches);
    Summary(total, converted, ConversionRate(converted, total), StageGroups(matches), StatusGroups(matches))
  }

  /** The summary handler: the day query, then the summary of the leads it
      matches. */
  method GetSummary(store: seq<Lead>, day: Option<int>, now: Timestamp) returns (s: Summary)
    requires day.Some? ==> 1 <= day.value <= 31
    ensures s == Summarize(Filter(store, l => OnDay(day, now, l)))
  {
    var q := BuildSummaryQuery(day, now);
    FilterSamePredicate(store, l => Matches(q, l), l => OnDay(day, now, l));
    s := Summarize(Find(store, q));
  }

  /** Two new leads and a converted one: three leads, one converted, a rate
      of 33.33 percent, and the groups in name order. */
  lemma SummaryExample(a: Lead, b: Lead, c: Lead)
    requires a.stage == New && b.stage == New && c.stage == Converted
    requires a.status == Active && b.status == Active && c.status == Pending
    ensures Summarize([a, b, c]) == Summary(3, 1, 3333,
                                            [Bucket("Converted", 1), Bucket("New", 2)],
                                            [Bucket("Active", 2), Bucket("Pending", 1)])
  {
    StageExample(a, b, c);
    StatusExample(a, b, c);
    ConvertedExample(a, b, c);
    OneOfThree();
  }

  lemma ConvertedExample(a: Lead, b: Lead, c: Lead)
    requires a.stage == New && b.stage == New && c.stage == Converted
    ensures ConvertedCount([a, b, c]) == 1
  {
    assert [a, b, c][1..] == [b, c] && [b, c][1..] == [c];
    assert Filter([c], IsConverted) == [c];
    assert Filter([b, c], IsConverted) == [c];
    assert Filter([a, b, c], IsConverted) == [c];
  }

  lemma StageExample(a: Lead, b: Lead, c: Lead)
    requires a.stage == New && b.stage == New && c.stage == Converted
    ensures StageGroups([a, b, c]) == [Bucket("Converted", 1), Bucket("New", 2)]
  {
    StageKeysExample(a, b, c);
    TwoThenOne(["New", "New", "Converted"], "New", "Converted");
    assert LexLe("Converted", "New");
    SortTwo(Bucket("New", 2), Bucket("Converted", 1));
  }

  lemma StageKeysExample(a: Lead, b: Lead, c: Lead)
    requires a.stage == New && b.stage == New && c.stage == Converted
    ensures StageLabels([a, b, c]) == ["New", "New", "Converted"]
  {
    var m := [a, b, c];
    assert m[1..] == [b, c] && m[1..][1..] == [c];
    assert StageLabels([c]) == ["Converted"];
    assert StageLabels([b, c]) == ["New", "Converted"];
  }

  lemma StatusExample(a: Lead, b: Lead, c: Lead)
    requires a.status == Active && b.status == Active && c.status == Pending
    ensures StatusGroups([a, b, c]) == [Bucket("Active", 2), Bucket("Pending", 1)]
  {
    StatusKeysExample(a, b, c);
    TwoThenOne(["Active", "Active", "Pending"], "Active", "Pending");
    assert !LexLe("Pending", "Active");
    SortTwo(Bucket("Active", 2), Bucket("Pending", 1));
  }

  lemma StatusKeysExample(a: Lead, b: Lead, c: Lead)
    requires a.status == Active && b.status == Active && c.status == Pending
    ensures StatusLabels([a, b, c]) == ["Active", "Active", "Pending"]
  {
    var m := [a, b, c];
    assert m[1..] == [b, c] && m[1..][1..] == [c];
    assert StatusLabels([c]) == ["Pending"];
    assert StatusLabels([b, c]) == ["Active", "Pending"];
  }

  /** Sorting two buckets with different keys puts the smaller key first. */
  lemma SortTwo(p: Bucket, q: Bucket)
    requires p.key != q.key
    ensures SortBuckets([p, q]) == if LexLe(q.key, p.key) then [q, p] else [p, q]
  {
    var g := [p, q];
    assert g[..1] == [p] && [p][..0] == [];
    assert SortBuckets([p]) == [p];
    assert SortBuckets(g) == InsertBucket(q, [p]);
    if !LexLe(q.key, p.key) {
      assert [p][1..] == [];
      assert InsertBucket(q, [p]) == [p] + InsertBucket(q, []);
    }
  }

  /** Grouping [x, x, y] gives x twice, then y once. */
  lemma TwoThenOne(keys: seq<string>, x: string, y: string)
    requires x != y && keys == [x, x, y]
    ensures Group(keys) == [Bucket(x, 2), Bucket(y, 1)]
  {
    assert keys[..2] == [x, x] && keys[..2][..1] == [x] && keys[..1] == [x];
    assert FirstSeen(keys[..1]) == [x];
    assert FirstSeen(keys[..2]) == [x];
    assert FirstSeen(keys) == [x, y];
    assert Occurrences(keys[..1], x) == 1 && Occurrences(keys[..2], x) == 2;
    assert Occurrences(keys[..1], y) == 0 && Occurrences(keys[..2], y) == 0;
    assert Occurrences(keys, x) == 2 && Occurrences(keys, y) == 1;
  }
}
