/** The lead record of backend/src/models/Lead.js: its two closed
    enumerations, the defaults, the trim/lowercase normalisation the schema
    applies when a document is cast, the required-field and enumeration
    validation, and the store insert that the unique index on email guards. */
module LeadModel {
  import opened Wrappers
  import opened Text
  import opened Calendar

  // ---------------------------------------------------------------------
  // Enumerations
  // ---------------------------------------------------------------------

  datatype Stage = New | Contacted | Qualified | Converted | Lost

  datatype Status = Active | Inactive | Pending

  /** The schema's `enum` arrays, in declaration order. */
  const StageEnum: seq<string> := ["New", "Contacted", "Qualified", "Converted", "Lost"]
  const StatusEnum: seq<string> := ["Active", "Inactive", "Pending"]

  /** The string a stage is stored as. */
  function StageLabel(s: Stage): string {
    match s
    case New => "New"
    case Contacted => "Contacted"
    case Qualified => "Qualified"
    case Converted => "Converted"
    case Lost => "Lost"
  }

  function StatusLabel(s: Status): string {
    match s
    case Active => "Active"
    case Inactive => "Inactive"
    case Pending => "Pending"
  }

  /** The enum validator: a string is accepted exactly when it is one of the
      schema's stage values, and then it denotes the stage with that label. */
  function ParseStage(name: string): (r: Option<Stage>)
    ensures r.Some? <==> name in StageEnum
    ensures r.Some? ==> StageLabel(r.value) == name
  {
    if name == "New" then Some(New)
    else if name == "Contacted" then Some(Contacted)
    else if name == "Qualified" then Some(Qualified)
    else if name == "Converted" then Some(Converted)
    else if name == "Lost" then Some(Lost)
    else None
  }

  function ParseStatus(name: string): (r: Option<Status>)
    ensures r.Some? <==> name in StatusEnum
    ensures r.Some? ==> StatusLabel(r.value) == name
  {
    if name == "Active" then Some(Active)
    else if name == "Inactive" then Some(Inactive)
    else if name == "Pending" then Some(Pending)
    else None
  }

  /** Every stage is stored as one of the five enum strings, and reading that
      string back gives the same stage. */
  lemma StageLabelRoundTrip(s: Stage)
    ensures StageLabel(s) in StageEnum
    ensures ParseStage(StageLabel(s)) == Some(s)
  {
  }

  lemma StatusLabelRoundTrip(s: Status)
    ensures StatusLabel(s) in StatusEnum
    ensures ParseStatus(StatusLabel(s)) == Some(s)
  {
  }

  // ---------------------------------------------------------------------
  // The record
  // ---------------------------------------------------------------------

  /** A stored lead. The id is the store-assigned identifier. */
  datatype Lead = Lead(
    id: nat,
    name: string,
    email: string,
    phone: Option<string>,
    company: Option<string>,
    stage: Stage,
    status: Status,
    notes: string,
    createdAt: Timestamp)

  /** A document as handed to the model before casting: every field may be
      absent, and stage and status are arbitrary strings. */
  datatype LeadInput = LeadInput(
    name: Option<string>,
    email: Option<string>,
    phone: Option<string>,
    company: Option<string>,
    stage: Option<string>,
    status: Option<string>,
    notes: Option<string>,
    createdAt: Option<Timestamp>)

  /** The `lowercase: true, trim: true` setters on email: the lower-cased
      value without its surrounding whitespace. */
  function NormalizeEmail(s: string): (r: string)
    ensures IsTrimmed(r) && IsLowerCase(r)
    ensures StripsWhitespace(Lower(s), r)
  {
    LowerIsLowerCase(s);
    Trim(Lower(s))
  }

  /** Normalising an already normalised email changes nothing. */
  lemma NormalizeEmailIdempotent(s: string)
    ensures NormalizeEmail(NormalizeEmail(s)) == NormalizeEmail(s)
  {
    var t := NormalizeEmail(s);
    LowerOfLowerCase(t);
  }

  /** The invariant of every stored lead: name and email present and
      normalised, the optional strings trimmed. */
  predicate WellFormed(l: Lead) {
    && l.name != [] && IsTrimmed(l.name)
    && l.email != [] && IsTrimmed(l.email) && IsLowerCase(l.email)
    && (l.phone.Some? ==> IsTrimmed(l.phone.value))
    && (l.company.Some? ==> IsTrimmed(l.company.value))
  }

  // ---------------------------------------------------------------------
  // Casting and validation
  // ---------------------------------------------------------------------

  datatype FieldError =
    | NameRequired
    | EmailRequired
    | StageNotInEnum(stage: string)
    | StatusNotInEnum(status: string)

  /** `required: true` on a trimmed string: the value is present and not
      empty once trimmed. */
  predicate NamePresent(input: LeadInput) {
    input.name.Some? && Trim(input.name.value) != []
  }

  predicate EmailPresent(input: LeadInput) {
    input.email.Some? && NormalizeEmail(input.email.value) != []
  }

  /** The error list of a document, given which of its paths passed: one
      error per failing path, in schema order. */
  function CollectErrors(nameOk: bool, emailOk: bool, badStage: Option<string>, badStatus: Option<string>)
    : (errs: seq<FieldError>)
    ensures errs == [] <==> nameOk && emailOk && badStage.None? && badStatus.None?
    ensures NameRequired in errs <==> !nameOk
    ensures EmailRequired in errs <==> !emailOk
    ensures forall v :: StageNotInEnum(v) in errs <==> badStage == Some(v)
    ensures forall v :: StatusNotInEnum(v) in errs <==> badStatus == Some(v)
  {
    (if nameOk then [] else [NameRequired])
    + (if emailOk then [] else [EmailRequired])
    + (match badStage case None => [] case Some(v) => [StageNotInEnum(v)])
    + (match badStatus case None => [] case Some(v) => [StatusNotInEnum(v)])
  }

  /** The validation errors of a document: a missing or blank name or
      email, and a stage or status outside the schema's values. */
  function FieldErrors(input: LeadInput): (errs: seq<FieldError>)
    ensures errs == [] <==> && NamePresent(input) && EmailPresent(input)
                            && (input.stage.Some? ==> input.stage.value in StageEnum)
                            && (input.status.Some? ==> input.status.value in StatusEnum)
    ensures NameRequired in errs <==> !NamePresent(input)
    ensures EmailRequired in errs <==> !EmailPresent(input)
    ensures forall v :: StageNotInEnum(v) in errs <==> input.stage == Some(v) && v !in StageEnum
    ensures forall v :: StatusNotInEnum(v) in errs <==> input.status == Some(v) && v !in StatusEnum
  {
    CollectErrors(
      NamePresent(input),
      EmailPresent(input),
      if input.stage.Some? && ParseStage(input.stage.value).None? then input.stage else None,
      if input.status.Some? && ParseStatus(input.status.value).None? then input.status else None)
  }

  /** Casting a document with the schema: the setters trim (and lowercase the
      email), absent stage, status, notes and createdAt take their defaults
      (New, Active, "", the creation time `now`), and a document with a
      validation error is refused with all its errors. */
  function CastLead(input: LeadInput, id: nat, now: Timestamp): (r: Result<Lead, seq<FieldError>>)
    ensures r.Err? <==> FieldErrors(input) != []
    ensures r.Err? ==> r.error == FieldErrors(input)
    ensures r.Ok? ==> WellFormed(r.value)
    ensures r.Ok? ==> && r.value.id == id
                      && r.value.name == Trim(input.name.value)
                      && r.value.email == NormalizeEmail(input.email.value)
                      && r.value.phone == MapOption(input.phone, Trim)
                      && r.value.company == MapOption(input.company, Trim)
    ensures r.Ok? ==> (input.stage.None? ==> r.value.stage == New)
                      && (input.stage.Some? ==> StageLabel(r.value.stage) == input.stage.value)
    ensures r.Ok? ==> (input.status.None? ==> r.value.status == Active)
                      && (input.status.Some? ==> StatusLabel(r.value.status) == input.status.value)
    ensures r.Ok? ==> r.value.notes == (if input.notes.None? then "" else input.notes.value)
    ensures r.Ok? ==> r.value.createdAt == (if input.createdAt.None? then now else input.createdAt.value)
  {
    var errs := FieldErrors(input);
    if errs != [] then Err(errs)
    else
      var stage := if input.stage.None? then New else ParseStage(input.stage.value).value;
      var status := if input.status.None? then Active else ParseStatus(input.status.value).value;
      Ok(Lead(
        id,
        Trim(input.name.value),
        NormalizeEmail(input.email.value),
        MapOption(input.phone, Trim),
        MapOption(input.company, Trim),
        stage,
        status,
        if input.notes.None? then "" else input.notes.value,
        if input.createdAt.None? then now else input.createdAt.value))
  }

  // ---------------------------------------------------------------------
  // The store and its unique email index
  // ---------------------------------------------------------------------

  datatype InsertError = ValidationFailed(errors: seq<FieldError>) | DuplicateKey(email: string)

  predicate EmailTaken(leads: seq<Lead>, email: string) {
    exists l :: l in leads && l.email == email
  }

  /** No two stored leads share an email. */
  predicate EmailsUnique(leads: seq<Lead>) {
    forall i, j :: 0 <= i < j < |leads| ==> leads[i].email != leads[j].email
  }

  /** No two stored leads share an id, and every id is below the next one
      to be assigned. */
  predicate IdsBelow(leads: seq<Lead>, nextId: nat) {
    forall i :: 0 <= i < |leads| ==> leads[i].id < nextId
  }

  predicate IdsUnique(leads: seq<Lead>) {
    forall i, j :: 0 <= i < j < |leads| ==> leads[i].id != leads[j].id
  }

  /** The outcome of inserting a document: a validation failure, a duplicate
      key on the normalised email, or the cast lead. */
  function InsertOutcome(leads: seq<Lead>, id: nat, input: LeadInput, now: Timestamp): (r: Result<Lead, InsertError>)
    ensures r.Ok? ==> CastLead(input, id, now) == Ok(r.value) && !EmailTaken(leads, r.value.email)
    ensures r.Err? && r.error.ValidationFailed? <==> CastLead(input, id, now).Err?
  {
    match CastLead(input, id, now)
    case Err(errs) => Err(ValidationFailed(errs))
    case Ok(lead) => if EmailTaken(leads, lead.email) then Err(DuplicateKey(lead.email)) else Ok(lead)
  }

  /** A valid document is refused as a duplicate exactly when a stored lead
      already has its normalised email. */
  lemma DuplicateRejectedIff(leads: seq<Lead>, id: nat, input: LeadInput, now: Timestamp)
    requires CastLead(input, id, now).Ok?
    ensures InsertOutcome(leads, id, input, now).Err?
            <==> exists l :: l in leads && l.email == NormalizeEmail(input.email.value)
  {
  }

  /** Inserting what InsertOutcome accepts keeps the store's invariants:
      unique emails, unique ids below the counter, well-formed leads. */
  lemma InsertKeepsInvariant(leads: seq<Lead>, nextId: nat, input: LeadInput, now: Timestamp)
    requires EmailsUnique(leads) && IdsUnique(leads) && IdsBelow(leads, nextId)
    requires forall l :: l in leads ==> WellFormed(l)
    requires InsertOutcome(leads, nextId, input, now).Ok?
    ensures var s := leads + [InsertOutcome(leads, nextId, input, now).value];
            EmailsUnique(s) && IdsUnique(s) && IdsBelow(s, nextId + 1) && forall l :: l in s ==> WellFormed(l)
  {
    var lead := InsertOutcome(leads, nextId, input, now).value;
    assert lead.id == nextId && WellFormed(lead) && !EmailTaken(leads, lead.email);
    AppendKeepsInvariant(leads, nextId, lead);
  }

  /** Appending a well-formed lead with a new email and the next id keeps
      the invariants. */
  lemma AppendKeepsInvariant(leads: seq<Lead>, nextId: nat, lead: Lead)
    requires EmailsUnique(leads) && IdsUnique(leads) && IdsBelow(leads, nextId)
    requires forall l :: l in leads ==> WellFormed(l)
    requires lead.id == nextId && WellFormed(lead) && !EmailTaken(leads, lead.email)
    ensures var s := leads + [lead];
            EmailsUnique(s) && IdsUnique(s) && IdsBelow(s, nextId + 1) && forall l :: l in s ==> WellFormed(l)
  {
    var s := leads + [lead];
    forall i, j | 0 <= i < j < |s| ensures s[i].email != s[j].email && s[i].id != s[j].id {
      if j == |leads| {
        assert s[i] == leads[i] && s[j] == lead;
        assert leads[i] in leads;
      } else {
        assert s[i] == leads[i] && s[j] == leads[j];
      }
    }
    assert forall l :: l in s ==> l in leads || l == lead;
  }

  /** The lead collection: the documents in insertion order and the counter
      that hands out identifiers. */
  class LeadStore {
    var leads: seq<Lead>
    var nextId: nat

    ghost predicate Valid()
      reads this
    {
      && EmailsUnique(leads)
      && IdsUnique(leads)
      && IdsBelow(leads, nextId)
      && (forall l :: l in leads ==> WellFormed(l))
    }

    constructor ()
      ensures Valid() && leads == [] && nextId == 0
    {
      leads := [];
      nextId := 0;
    }

    /** Casts and inserts one document; a refused document leaves the store
        as it was. */
    method Insert(input: LeadInput, now: Timestamp) returns (r: Result<Lead, InsertError>)
      requires Valid()
      modifies this
      ensures Valid()
      ensures r == InsertOutcome(old(leads), old(nextId), input, now)
      ensures r.Ok? ==> leads == old(leads) + [r.value] && nextId == old(nextId) + 1
      ensures r.Err? ==> leads == old(leads) && nextId == old(nextId)
    {
      r := InsertOutcome(leads, nextId, input, now);
      if r.Ok? {
        InsertKeepsInvariant(leads, nextId, input, now);
        leads := leads + [r.value];
        nextId := nextId + 1;
      }
    }
  }
}
