/** The seed generator of backend/scripts/seed.js: `generateLeads(count)`
    builds count plain lead documents, lead i on day (i % 13) + 1 of the
    current month at a random time, with random person data and a stage and
    status drawn from the schema's values. The random and faker values and
    the clock readings are inputs. */
module Seed {
  import opened Wrappers
  import opened Text
  import opened Calendar
  import opened LeadModel

  const Stages: seq<string> := ["New", "Contacted", "Qualified", "Converted", "Lost"]
  const Statuses: seq<string> := ["Active", "Inactive", "Pending"]

  /** The seed draws from exactly the schema's stage and status values. */
  lemma SeedValuesAreSchemaValues()
    ensures Stages == StageEnum && Statuses == StatusEnum
  {
  }

  /** What one iteration takes from outside: the `new Date()` reading, the
      faker values, the indices `arrayElement` picks, the paragraph `maybe`
      yields (None for undefined) and the three `Math.random()` results. */
  datatype Draw = Draw(
    now: Timestamp,
    fullName: string,
    email: string,
    phone: string,
    company: string,
    stagePick: nat,
    statusPick: nat,
    paragraph: Option<string>,
    hourRoll: real,
    minuteRoll: real,
    secondRoll: real)

  /** The picks index the arrays and the rolls lie in [0, 1). */
  predicate ValidDraw(d: Draw) {
    && d.stagePick < |Stages|
    && d.statusPick < |Statuses|
    && 0.0 <= d.hourRoll < 1.0
    && 0.0 <= d.minuteRoll < 1.0
    && 0.0 <= d.secondRoll < 1.0
  }

  /** `Math.floor(Math.random() * n)`: an integer in 0 .. n - 1. */
  function Roll(r: real, n: nat): (v: int)
    requires 0.0 <= r < 1.0 && n >= 1
    ensures 0 <= v < n
    ensures v as real <= r * n as real < v as real + 1.0
  {
    (r * n as real).Floor
  }

  /** `new Date(year, month, (i % 13) + 1, hour, minute, second)` with the
      year and month of this iteration's clock reading. */
  function SeedDate(i: nat, d: Draw): (t: Timestamp)
    requires ValidDraw(d)
    ensures t.year == d.now.year && t.month == d.now.month
    ensures 1 <= t.day <= 13 && t.day == i % 13 + 1
  {
    DateTime(d.now.year, d.now.month, i % 13 + 1, Roll(d.hourRoll, 24), Roll(d.minuteRoll, 60), Roll(d.secondRoll, 60))
  }

  /** The document pushed for lead i. */
  predicate SeededFrom(i: nat, d: Draw, x: LeadInput)
    requires ValidDraw(d)
  {
    x == LeadInput(
      Some(d.fullName),
      Some(Lower(d.email)),
      Some(d.phone),
      Some(d.company),
      Some(Stages[d.stagePick]),
      Some(Statuses[d.statusPick]),
      Some(if d.paragraph.Some? then d.paragraph.value else ""),
      Some(SeedDate(i, d)))
  }

  /** The loop of generateLeads: exactly count documents, the i-th built
      from the i-th draw, created on day (i % 13) + 1 of its clock's month,
      with a stage and status of the schema and a lowercased email. */
  method GenerateLeads(count: nat, draws: seq<Draw>) returns (leads: seq<LeadInput>)
    requires |draws| >= count
    requires forall i :: 0 <= i < count ==> ValidDraw(draws[i])
    ensures |leads| == count
    ensures forall i :: 0 <= i < count ==> SeededFrom(i, draws[i], leads[i])
    ensures forall i :: 0 <= i < count ==>
              && leads[i].createdAt.Some?
              && leads[i].createdAt.value.day == i % 13 + 1
              && leads[i].createdAt.value.year == draws[i].now.year
              && leads[i].createdAt.value.month == draws[i].now.month
    ensures forall i :: 0 <= i < count ==>
              && leads[i].stage.Some? && leads[i].stage.value in StageEnum
              && leads[i].status.Some? && leads[i].status.value in StatusEnum
              && leads[i].email.Some? && IsLowerCase(leads[i].email.value)
  {
    leads := [];
    var i := 0;
    while i < count
      invariant 0 <= i <= count
      invariant |leads| == i
      invariant forall j :: 0 <= j < i ==> SeededFrom(j, draws[j], leads[j])
    {
      var d := draws[i];
      var createdDate := DateTime(d.now.year, d.now.month, i % 13 + 1,
                                  Roll(d.hourRoll, 24), Roll(d.minuteRoll, 60), Roll(d.secondRoll, 60));
      var notes := if d.paragraph.Some? then d.paragraph.value else "";
      leads := leads + [LeadInput(
        Some(d.fullName),
        Some(Lower(d.email)),
        Some(d.phone),
        Some(d.company),
        Some(Stages[d.stagePick]),
        Some(Statuses[d.statusPick]),
        Some(notes),
        Some(createdDate))];
      i := i + 1;
    }
    forall i | 0 <= i < count
      ensures leads[i].stage.Some? && leads[i].stage.value in StageEnum
      ensures leads[i].status.Some? && leads[i].status.value in StatusEnum
      ensures leads[i].email.Some? && IsLowerCase(leads[i].email.value)
    {
      LowerIsLowerCase(draws[i].email);
    }
  }

  /** A seeded document with a non-blank name and email passes the schema:
      it is stored with the drawn stage and status, the normalised email,
      the generated notes and the generated date. */
  lemma SeededIsAccepted(i: nat, d: Draw, x: LeadInput, id: nat, now: Timestamp)
    requires ValidDraw(d) && SeededFrom(i, d, x)
    requires Trim(d.fullName) != [] && NormalizeEmail(Lower(d.email)) != []
    ensures CastLead(x, id, now).Ok?
    ensures var l := CastLead(x, id, now).value;
      && StageLabel(l.stage) == Stages[d.stagePick]
      && StatusLabel(l.status) == Statuses[d.statusPick]
      && l.email == NormalizeEmail(d.email)
      && l.notes == (if d.paragraph.Some? then d.paragraph.value else "")
      && l.createdAt == SeedDate(i, d)
  {
    assert Stages[d.stagePick] in StageEnum;
    assert Statuses[d.statusPick] in StatusEnum;
    assert FieldErrors(x) == [] by {
      assert NamePresent(x) && EmailPresent(x);
    }
    var r := CastLead(x, id, now);
    assert r.Ok?;
    LowerIsLowerCase(d.email);
    LowerOfLowerCase(Lower(d.email));
    assert r.value.email == NormalizeEmail(d.email);
  }

  // ---------------------------------------------------------------------
  // The day distribution
  // ---------------------------------------------------------------------

  /** The number of documents created on day d. */
  function CountOnDay(leads: seq<LeadInput>, d: int): nat {
    if leads == [] then 0
    else
      var last := leads[|leads| - 1];
      CountOnDay(leads[..|leads| - 1], d) + (if last.createdAt.Some? && last.createdAt.value.day == d then 1 else 0)
  }

  /** With lead i on day (i % 13) + 1, day d of 1 .. 13 gets one lead per
      full cycle of 13, and one more when the last cycle reaches it. */
  lemma {:induction false} CyclicDays(leads: seq<LeadInput>, d: int)
    requires 1 <= d <= 13
    requires forall i :: 0 <= i < |leads| ==> leads[i].createdAt.Some? && leads[i].createdAt.value.day == i % 13 + 1
    ensures CountOnDay(leads, d) == |leads| / 13 + (if d - 1 < |leads| % 13 then 1 else 0)
  {
    if leads != [] {
      var n := |leads| - 1;
      var init := leads[..n];
      assert forall i :: 0 <= i < |init| ==> init[i] == leads[i];
      CyclicDays(init, d);
      NextInCycle(n);
    }
  }

  /** Stepping from n to n + 1 either advances the remainder or completes a
      cycle. */
  lemma NextInCycle(n: nat)
    ensures n % 13 < 12 ==> (n + 1) / 13 == n / 13 && (n + 1) % 13 == n % 13 + 1
    ensures n % 13 == 12 ==> (n + 1) / 13 == n / 13 + 1 && (n + 1) % 13 == 0
  {
    var q, r := n / 13, n % 13;
    assert n == 13 * q + r;
    if r < 12 {
      assert n + 1 == 13 * q + (r + 1);
    } else {
      assert n + 1 == 13 * (q + 1);
    }
  }

  /** seedDatabase's 750 leads: 58 on each of days 1 to 9 and 57 on each of
      days 10 to 13. */
  lemma SevenHundredFifty(leads: seq<LeadInput>, d: int)
    requires |leads| == 750 && 1 <= d <= 13
    requires forall i :: 0 <= i < 750 ==> leads[i].createdAt.Some? && leads[i].createdAt.value.day == i % 13 + 1
    ensures CountOnDay(leads, d) == (if d <= 9 then 58 else 57)
  {
    CyclicDays(leads, d);
  }
}
