/**
 * `BuyerFormSchema`: the server-side validator of a submitted lead form.
 * Field rules (lengths, optional allow-lists, the email alternative) and the two
 * cross-field refinements (bhk for apartments and villas; budget order).
 * The input is what the form submits, already split into fields: strings that
 * may be absent, and budgets already coerced to integers.
 */
module BuyerSchema {
  import opened Wrappers

  /** A submitted form, field by field. */
  datatype RawLead = RawLead(
    fullName: Option<string>, email: Option<string>, phone: Option<string>,
    city: Option<string>, propertyType: Option<string>, purpose: Option<string>,
    timeline: Option<string>, source: Option<string>, bhk: Option<string>,
    budgetMin: Option<int>, budgetMax: Option<int>,
    notes: Option<string>, tags: Option<string>)

  /** A lead the schema accepted. Strings are kept exactly as submitted (no trimming);
      `tags` is still the unsplit text. */
  datatype Lead = Lead(
    fullName: string, email: Option<string>, phone: string,
    city: Option<string>, propertyType: Option<string>, purpose: Option<string>,
    timeline: Option<string>, source: Option<string>, bhk: Option<string>,
    budgetMin: Option<int>, budgetMax: Option<int>,
    notes: Option<string>, tags: Option<string>)

  /** `error.flatten().fieldErrors`: field name to its messages, in order. */
  type FieldErrors = map<string, seq<string>>

  const Cities: seq<string> := ["Chandigarh", "Mohali", "Zirakpur", "Panchkula", "Other"]
  const PropertyTypes: seq<string> := ["Apartment", "Villa", "Plot", "Office", "Retail"]
  const Purposes: seq<string> := ["Buy", "Rent"]
  const Timelines: seq<string> := ["IMMEDIATE", "THREE_TO_SIX_MONTHS", "MORE_THAN_SIX_MONTHS", "Exploring"]
  const Sources: seq<string> := ["Website", "Referral", "Walk_in", "Call", "Other"]
  const BhkValues: seq<string> := ["ONE", "TWO", "THREE", "FOUR", "Studio"]

  const RequiredMessage := "Required"
  const FullNameShortMessage := "Full name must be at least 2 characters"
  const FullNameLongMessage := "String must contain at most 80 character(s)"
  const EmailMessage := "Please enter a valid email"
  const PhoneShortMessage := "Phone must be at least 10 digits"
  const PhoneLongMessage := "String must contain at most 15 character(s)"
  const EnumMessage := "Invalid enum value"
  const NotesMessage := "Notes must be 1000 characters or less"
  const BhkMessage := "BHK is required for this property type"
  const BudgetMessage := "Max budget must be greater than or equal to min budget"

  // ---------------------------------------------------------------- field rules

  /** A required string of bounded length: `z.string().min(lo).max(hi)`. */
  function LengthIssue(v: Option<string>, lo: nat, hi: nat, short: string, long: string): Option<string> {
    if v.None? then Some(RequiredMessage)
    else if |v.value| < lo then Some(short)
    else if |v.value| > hi then Some(long)
    else None
  }

  /** `z.enum(allowed).optional()`: absent, or exactly one of the literals. */
  function EnumIssue(v: Option<string>, allowed: seq<string>): Option<string> {
    if v.Some? && v.value !in allowed then Some(EnumMessage) else None
  }

  /** `z.string().email().optional().or(z.literal(''))`; `isEmail` stands for
      zod's address check. */
  function EmailIssue(v: Option<string>, isEmail: string -> bool): Option<string> {
    if v.None? || v.value == "" || isEmail(v.value) then None else Some(EmailMessage)
  }

  function NotesIssue(v: Option<string>): Option<string> {
    if v.Some? && |v.value| > 1000 then Some(NotesMessage) else None
  }

  /** The fields checked one by one, before the refinements. */
  const FieldNames: set<string> :=
    {"fullName", "email", "phone", "city", "propertyType", "purpose", "timeline", "source", "bhk", "notes"}

  /** The issue, if any, of one field's own check. */
  function FieldIssue(raw: RawLead, isEmail: string -> bool, field: string): Option<string> {
    match field
    case "fullName" => LengthIssue(raw.fullName, 2, 80, FullNameShortMessage, FullNameLongMessage)
    case "email" => EmailIssue(raw.email, isEmail)
    case "phone" => LengthIssue(raw.phone, 10, 15, PhoneShortMessage, PhoneLongMessage)
    case "city" => EnumIssue(raw.city, Cities)
    case "propertyType" => EnumIssue(raw.propertyType, PropertyTypes)
    case "purpose" => EnumIssue(raw.purpose, Purposes)
    case "timeline" => EnumIssue(raw.timeline, Timelines)
    case "source" => EnumIssue(raw.source, Sources)
    case "bhk" => EnumIssue(raw.bhk, BhkValues)
    case "notes" => NotesIssue(raw.notes)
    case _ => None
  }

  /** The issues of the per-field checks, keyed by field. */
  function FieldIssues(raw: RawLead, isEmail: string -> bool): FieldErrors {
    map f | f in FieldNames && FieldIssue(raw, isEmail, f).Some? :: [FieldIssue(raw, isEmail, f).value]
  }

  // ---------------------------------------------------------------- refinements

  /** JavaScript truthiness of an optional string and of an optional number. */
  predicate TruthyString(v: Option<string>) { v.Some? && v.value != "" }
  predicate TruthyNumber(v: Option<int>) { v.Some? && v.value != 0 }

  /** First refinement: an apartment or a villa needs a bhk. */
  predicate BhkRule(l: Lead) {
    !((l.propertyType == Some("Apartment") || l.propertyType == Some("Villa")) && !TruthyString(l.bhk))
  }

  /** Second refinement: when both budgets are truthy, max is at least min. */
  predicate BudgetRule(l: Lead) {
    TruthyNumber(l.budgetMin) && TruthyNumber(l.budgetMax) ==> l.budgetMax.value >= l.budgetMin.value
  }

  function LeadOf(raw: RawLead): Lead
    requires raw.fullName.Some? && raw.phone.Some?
  {
    Lead(raw.fullName.value, raw.email, raw.phone.value, raw.city, raw.propertyType, raw.purpose,
         raw.timeline, raw.source, raw.bhk, raw.budgetMin, raw.budgetMax, raw.notes, raw.tags)
  }

  /** The field rules, stated directly. */
  predicate FieldsValid(raw: RawLead, isEmail: string -> bool) {
    && raw.fullName.Some? && 2 <= |raw.fullName.value| <= 80
    && (raw.email.None? || raw.email.value == "" || isEmail(raw.email.value))
    && raw.phone.Some? && 10 <= |raw.phone.value| <= 15
    && (raw.city.None? || raw.city.value in Cities)
    && (raw.propertyType.None? || raw.propertyType.value in PropertyTypes)
    && (raw.purpose.None? || raw.purpose.value in Purposes)
    && (raw.timeline.None? || raw.timeline.value in Timelines)
    && (raw.source.None? || raw.source.value in Sources)
    && (raw.bhk.None? || raw.bhk.value in BhkValues)
    && (raw.notes.None? || |raw.notes.value| <= 1000)
  }

  /** Each field's check reports an issue exactly when its rule fails. */
  lemma FieldIssueIff(raw: RawLead, isEmail: string -> bool)
    ensures FieldIssue(raw, isEmail, "fullName").None? <==> raw.fullName.Some? && 2 <= |raw.fullName.value| <= 80
    ensures FieldIssue(raw, isEmail, "email").None? <==> raw.email.None? || raw.email.value == "" || isEmail(raw.email.value)
    ensures FieldIssue(raw, isEmail, "phone").None? <==> raw.phone.Some? && 10 <= |raw.phone.value| <= 15
    ensures FieldIssue(raw, isEmail, "city").None? <==> raw.city.None? || raw.city.value in Cities
    ensures FieldIssue(raw, isEmail, "propertyType").None? <==> raw.propertyType.None? || raw.propertyType.value in PropertyTypes
    ensures FieldIssue(raw, isEmail, "purpose").None? <==> raw.purpose.None? || raw.purpose.value in Purposes
    ensures FieldIssue(raw, isEmail, "timeline").None? <==> raw.timeline.None? || raw.timeline.value in Timelines
    ensures FieldIssue(raw, isEmail, "source").None? <==> raw.source.None? || raw.source.value in Sources
    ensures FieldIssue(raw, isEmail, "bhk").None? <==> raw.bhk.None? || raw.bhk.value in BhkValues
    ensures FieldIssue(raw, isEmail, "notes").None? <==> raw.notes.None? || |raw.notes.value| <= 1000
  {
  }

  /** The per-field checks report nothing exactly when the field rules hold. */
  lemma FieldIssuesEmptyIff(raw: RawLead, isEmail: string -> bool)
    ensures FieldIssues(raw, isEmail) == map[] <==> FieldsValid(raw, isEmail)
  {
    FieldIssueIff(raw, isEmail);
    var m := FieldIssues(raw, isEmail);
    if m == map[] {
      forall f | f in FieldNames ensures FieldIssue(raw, isEmail, f).None? {
        assert f !in m;
      }
      assert "fullName" in FieldNames && "email" in FieldNames && "phone" in FieldNames;
      assert "city" in FieldNames && "propertyType" in FieldNames && "purpose" in FieldNames;
      assert "timeline" in FieldNames && "source" in FieldNames && "bhk" in FieldNames && "notes" in FieldNames;
    }
  }

  /** The refinement issues, keyed by their paths. */
  function RefinementIssues(lead: Lead): FieldErrors {
    var bhk: FieldErrors := if BhkRule(lead) then map[] else map["bhk" := [BhkMessage]];
    if BudgetRule(lead) then bhk else bhk["budgetMax" := [BudgetMessage]]
  }

  /** Two error maps combined: a path's messages from `a` come before those from `b`. */
  function Merge(a: FieldErrors, b: FieldErrors): (r: FieldErrors)
    ensures r.Keys == a.Keys + b.Keys
    ensures forall k :: k in a ==> r[k] == a[k] + (if k in b then b[k] else [])
    ensures forall k :: k in b && k !in a ==> r[k] == b[k]
  {
    map k | k in a.Keys + b.Keys :: (if k in a then a[k] else []) + (if k in b then b[k] else [])
  }

  /** No field issue aborts the object: a missing `fullName` or `phone` and a value
      outside an allow-list stop the parse before the refinements, whereas a
      length, email or notes issue lets them run. */
  predicate NoAbortingIssue(raw: RawLead) {
    && raw.fullName.Some? && raw.phone.Some?
    && EnumIssue(raw.city, Cities).None? && EnumIssue(raw.propertyType, PropertyTypes).None?
    && EnumIssue(raw.purpose, Purposes).None? && EnumIssue(raw.timeline, Timelines).None?
    && EnumIssue(raw.source, Sources).None? && EnumIssue(raw.bhk, BhkValues).None?
  }

  /** `BuyerFormSchema.safeParse(raw)`. Once every field check passes, both
      refinements are evaluated and each adds its own message under its own path.
      A field issue that aborts the object hides the refinements. Whether they run
      after the other field issues is zod's own behaviour:
      `refinesAfterFieldIssues` stands for it, and what is stated for that case
      holds either way. */
  function Validate(raw: RawLead, isEmail: string -> bool, refinesAfterFieldIssues: bool)
    : (r: Result<Lead, FieldErrors>)
    ensures r.Success? <==> FieldsValid(raw, isEmail) && BhkRule(LeadOf(raw)) && BudgetRule(LeadOf(raw))
    ensures r.Success? ==> r.value == LeadOf(raw)
    ensures r.Failure? ==> r.error != map[] && forall f :: f in r.error ==> r.error[f] != []
    ensures r.Failure? ==> forall f :: f in r.error ==>
              (f in FieldNames && FieldIssue(raw, isEmail, f).Some?) || f == "bhk" || f == "budgetMax"
    // a field rule fails: every failing field is reported, its own message first
    ensures r.Failure? ==> forall f :: f in FieldNames && FieldIssue(raw, isEmail, f).Some? ==>
              f in r.error && r.error[f][0] == FieldIssue(raw, isEmail, f).value
    ensures r.Failure? && !FieldsValid(raw, isEmail) && !refinesAfterFieldIssues ==>
              r.error == FieldIssues(raw, isEmail)
    ensures r.Failure? && !FieldsValid(raw, isEmail) && !NoAbortingIssue(raw) ==>
              r.error == FieldIssues(raw, isEmail)
    // every field rule holds: exactly the failing refinements are reported
    ensures r.Failure? && FieldsValid(raw, isEmail) ==>
      && ("bhk" in r.error <==> !BhkRule(LeadOf(raw)))
      && ("bhk" in r.error ==> r.error["bhk"] == [BhkMessage])
      && ("budgetMax" in r.error <==> !BudgetRule(LeadOf(raw)))
      && ("budgetMax" in r.error ==> r.error["budgetMax"] == [BudgetMessage])
      && r.error.Keys <= {"bhk", "budgetMax"}
  {
    FieldIssuesEmptyIff(raw, isEmail);
    var issues := FieldIssues(raw, isEmail);
    if issues != map[] then
      if refinesAfterFieldIssues && NoAbortingIssue(raw)
      then Failure(Merge(issues, RefinementIssues(LeadOf(raw))))
      else Failure(issues)
    else
      var lead := LeadOf(raw);
      if BhkRule(lead) && BudgetRule(lead) then Success(lead)
      else
        var refined := RefinementIssues(lead);
        assert "bhk" in refined || "budgetMax" in refined;
        Failure(refined)
  }

  // ---------------------------------------------------------------- properties

  /** When every field rule holds, an apartment or villa without a bhk is rejected
      on the path `bhk` with the refinement's message; adding any listed bhk lifts
      that rejection. */
  lemma BhkRequiredForApartmentAndVilla(raw: RawLead, isEmail: string -> bool, refinesAfterFieldIssues: bool)
    requires FieldsValid(raw, isEmail)
    requires raw.propertyType == Some("Apartment") || raw.propertyType == Some("Villa")
    ensures raw.bhk.None? ==> var r := Validate(raw, isEmail, refinesAfterFieldIssues);
      r.Failure? && "bhk" in r.error && r.error["bhk"] == [BhkMessage]
    ensures raw.bhk.Some? ==> var r := Validate(raw, isEmail, refinesAfterFieldIssues);
      r.Success? || "bhk" !in r.error
  {
  }

  /** When every field rule holds, other property types (or none) never trigger
      the bhk refinement. */
  lemma BhkNotRequiredOtherwise(raw: RawLead, isEmail: string -> bool, refinesAfterFieldIssues: bool)
    requires FieldsValid(raw, isEmail)
    requires raw.propertyType != Some("Apartment") && raw.propertyType != Some("Villa")
    ensures var r := Validate(raw, isEmail, refinesAfterFieldIssues); r.Success? || "bhk" !in r.error
  {
  }

  /** When every field rule holds: both budgets non-zero with max below min is
      rejected on the path `budgetMax`; equal budgets pass; a zero budget switches
      the check off. */
  lemma BudgetOrder(raw: RawLead, isEmail: string -> bool, refinesAfterFieldIssues: bool)
    requires FieldsValid(raw, isEmail)
    requires raw.budgetMin.Some? && raw.budgetMax.Some?
    ensures raw.budgetMin.value != 0 && raw.budgetMax.value != 0 && raw.budgetMax.value < raw.budgetMin.value
            ==> var r := Validate(raw, isEmail, refinesAfterFieldIssues);
                r.Failure? && "budgetMax" in r.error && r.error["budgetMax"] == [BudgetMessage]
    ensures raw.budgetMax.value == raw.budgetMin.value
            ==> var r := Validate(raw, isEmail, refinesAfterFieldIssues); r.Success? || "budgetMax" !in r.error
    ensures raw.budgetMin.value == 0 || raw.budgetMax.value == 0
            ==> var r := Validate(raw, isEmail, refinesAfterFieldIssues); r.Success? || "budgetMax" !in r.error
  {
  }

  /** An absent budget switches the check off as well. */
  lemma BudgetAbsentUnchecked(raw: RawLead, isEmail: string -> bool, refinesAfterFieldIssues: bool)
    requires FieldsValid(raw, isEmail)
    requires raw.budgetMin.None? || raw.budgetMax.None?
    ensures var r := Validate(raw, isEmail, refinesAfterFieldIssues); r.Success? || "budgetMax" !in r.error
  {
  }

  /** An email of `""` is accepted whatever the address check says, and so is an
      absent one. */
  lemma EmptyEmailAccepted(raw: RawLead, isEmail: string -> bool, refinesAfterFieldIssues: bool)
    requires raw.email == Some("") || raw.email.None?
    ensures var r := Validate(raw, isEmail, refinesAfterFieldIssues); r.Success? || "email" !in r.error
  {
  }

  /** The schema does not trim: a name of two spaces is accepted as it stands. */
  lemma UntrimmedNameAccepted(isEmail: string -> bool, refinesAfterFieldIssues: bool)
    ensures var r := Validate(RawLead(Some("  "), None, Some("9876543210"), None, None, None,
                                      None, None, None, None, None, None, None), isEmail, refinesAfterFieldIssues);
            r.Success? && r.value.fullName == "  "
  {
  }

  /** When the field rules and the budget refinement hold but the bhk
      refinement fails, the bhk message is the only error. */
  lemma OnlyBhkFails(raw: RawLead, isEmail: string -> bool, refinesAfterFieldIssues: bool)
    requires FieldsValid(raw, isEmail)
    requires !BhkRule(LeadOf(raw)) && BudgetRule(LeadOf(raw))
    ensures Validate(raw, isEmail, refinesAfterFieldIssues) == Failure(map["bhk" := [BhkMessage]])
  {
    var r := Validate(raw, isEmail, refinesAfterFieldIssues);
    assert r.error.Keys == {"bhk"};
  }

  /** "Jo Lee" with a phone and an apartment but no bhk fails on `bhk` alone. */
  lemma ApartmentWithoutBhk(raw: RawLead, isEmail: string -> bool, refinesAfterFieldIssues: bool)
    requires raw == RawLead(Some("Jo Lee"), None, Some("9876543210"), None, Some("Apartment"),
                            None, None, None, None, None, None, None, None)
    ensures Validate(raw, isEmail, refinesAfterFieldIssues) == Failure(map["bhk" := [BhkMessage]])
  {
    assert "Apartment" in PropertyTypes;
    assert FieldsValid(raw, isEmail);
    OnlyBhkFails(raw, isEmail, refinesAfterFieldIssues);
  }

  /** The same lead with bhk `TWO` passes. */
  lemma ApartmentWithBhk(raw: RawLead, isEmail: string -> bool, refinesAfterFieldIssues: bool)
    requires raw == RawLead(Some("Jo Lee"), None, Some("9876543210"), None, Some("Apartment"),
                            None, None, None, Some("TWO"), None, None, None, None)
    ensures Validate(raw, isEmail, refinesAfterFieldIssues) == Success(LeadOf(raw))
  {
    assert "Apartment" in PropertyTypes && "TWO" in BhkValues;
    assert FieldsValid(raw, isEmail);
  }

  /** A city outside the allow-list aborts the object: only `city` is reported,
      and the missing bhk of the apartment is not, however the refinements are
      scheduled. */
  lemma InvalidCityHidesBhk(raw: RawLead, isEmail: string -> bool, refinesAfterFieldIssues: bool)
    requires raw == RawLead(Some("Jo Lee"), None, Some("9876543210"), Some("Delhi"), Some("Apartment"),
                            None, None, None, None, None, None, None, None)
    ensures var r := Validate(raw, isEmail, refinesAfterFieldIssues);
      r.Failure? && "city" in r.error && r.error["city"][0] == EnumMessage && "bhk" !in r.error
  {
    assert "Delhi" !in Cities;
    assert FieldIssue(raw, isEmail, "city") == Some(EnumMessage);
    assert FieldIssue(raw, isEmail, "bhk").None?;
  }

  /** A name that is too short does not abort the object: when zod goes on to the
      refinements, the missing bhk is reported beside it. */
  lemma ShortNameKeepsBhk(raw: RawLead, isEmail: string -> bool)
    requires raw == RawLead(Some("J"), None, Some("9876543210"), None, Some("Apartment"),
                            None, None, None, None, None, None, None, None)
    ensures var r := Validate(raw, isEmail, true);
      r.Failure? && "fullName" in r.error && "bhk" in r.error && r.error["bhk"] == [BhkMessage]
  {
    assert "Apartment" in PropertyTypes;
    assert NoAbortingIssue(raw);
    assert FieldIssue(raw, isEmail, "fullName") == Some(FullNameShortMessage);
    assert FieldIssue(raw, isEmail, "bhk").None?;
    assert !BhkRule(LeadOf(raw));
  }
}
