/**
 * The new-lead page's own client-side checks: `validateForm`, the tag preview
 * of `handleTagsChange`, the `isFormValid` expression that enables the submit
 * button, and the submit gate of `handleSubmit`. These rules differ from the
 * server schema and are modelled on their own.
 */
module NewLeadPage {
  import opened Text
  import opened Tags

  // ---------------------------------------------------------------- the email pattern

  predicate NonSpaceRange(s: string, lo: int, hi: int)
    requires 0 <= lo && hi <= |s|
  {
    forall t :: lo <= t < hi ==> !IsSpace(s[t])
  }

  /** `/\S+@\S+\.\S+/` matches with its `@` at `j` and its `.` at `k`: a
      non-space character precedes the `@`, a non-empty run of non-space
      characters separates it from the `.`, and a non-space character follows. */
  predicate PatternAt(s: string, j: int, k: int) {
    0 < j && j + 1 < k && k + 1 < |s| && s[j] == '@' && s[k] == '.'
    && !IsSpace(s[j - 1]) && NonSpaceRange(s, j + 1, k) && !IsSpace(s[k + 1])
  }

  /** The pattern is not anchored: it matches somewhere in `s`. */
  ghost predicate HasEmailPattern(s: string) {
    exists j, k :: PatternAt(s, j, k)
  }

  /** Scanning right from `k` over non-space characters, a `.` followed by a
      non-space character is reached. */
  function ScanDot(s: string, k: nat): bool
    decreases |s| - k
  {
    if k + 1 >= |s| then false
    else if s[k] == '.' && !IsSpace(s[k + 1]) then true
    else if IsSpace(s[k]) then false
    else ScanDot(s, k + 1)
  }

  predicate DotAt(s: string, k: nat, d: int) {
    k <= d && d + 1 < |s| && s[d] == '.' && !IsSpace(s[d + 1]) && NonSpaceRange(s, k, d)
  }

  lemma {:induction false} ScanDotIff(s: string, k: nat)
    ensures ScanDot(s, k) <==> exists d :: DotAt(s, k, d)
    decreases |s| - k
  {
    if k + 1 < |s| {
      ScanDotIff(s, k + 1);
      if ScanDot(s, k) {
        if s[k] == '.' && !IsSpace(s[k + 1]) {
          assert DotAt(s, k, k);
        } else {
          var d :| DotAt(s, k + 1, d);
          assert DotAt(s, k, d);
        }
      }
      if exists d :: DotAt(s, k, d) {
        var d :| DotAt(s, k, d);
        if d > k {
          assert !IsSpace(s[k]);
          assert DotAt(s, k + 1, d);
        }
      }
    }
  }

  /** The pattern matches with its `@` at position `j`. */
  function AtMatches(s: string, j: nat): bool {
    0 < j && j + 1 < |s| && s[j] == '@' && !IsSpace(s[j - 1]) && !IsSpace(s[j + 1]) && ScanDot(s, j + 2)
  }

  function ScanAt(s: string, j: nat): bool
    decreases |s| - j
  {
    if j >= |s| then false else AtMatches(s, j) || ScanAt(s, j + 1)
  }

  lemma {:induction false} ScanAtIff(s: string, j: nat)
    ensures ScanAt(s, j) <==> exists a :: j <= a < |s| && AtMatches(s, a)
    decreases |s| - j
  {
    if j < |s| {
      ScanAtIff(s, j + 1);
    }
  }

  lemma AtMatchesIff(s: string, j: nat)
    ensures AtMatches(s, j) <==> exists k :: PatternAt(s, j, k)
  {
    if 0 < j && j + 1 < |s| {
      ScanDotIff(s, j + 2);
      if AtMatches(s, j) {
        var d :| DotAt(s, j + 2, d);
        assert PatternAt(s, j, d);
      }
      if exists k :: PatternAt(s, j, k) {
        var k :| PatternAt(s, j, k);
        assert DotAt(s, j + 2, k);
      }
    }
  }

  lemma ScanAtPattern(s: string)
    ensures ScanAt(s, 0) <==> HasEmailPattern(s)
  {
    ScanAtIff(s, 0);
    if ScanAt(s, 0) {
      var a :| 0 <= a < |s| && AtMatches(s, a);
      AtMatchesIff(s, a);
    }
    if HasEmailPattern(s) {
      var j, k :| PatternAt(s, j, k);
      AtMatchesIff(s, j);
    }
  }

  /** `/\S+@\S+\.\S+/.test(s)`. */
  function MatchesEmail(s: string): (r: bool)
    ensures r <==> HasEmailPattern(s)
  {
    ScanAtPattern(s);
    ScanAt(s, 0)
  }

  /** The match may sit anywhere, but its parts admit no white space. */
  lemma EmailExamples()
    ensures MatchesEmail("a@b.c")
    ensures MatchesEmail("x y@z.w")
    ensures !MatchesEmail("a@b")
    ensures !MatchesEmail("a @b.c")
  {
    assert PatternAt("a@b.c", 1, 3);
    assert PatternAt("x y@z.w", 3, 5);
    assert forall j, k :: !PatternAt("a @b.c", j, k);
  }

  // ---------------------------------------------------------------- the form

  /** The page's `formData`: every control holds a string. */
  datatype LeadForm = LeadForm(
    fullName: string, email: string, phone: string, city: string, propertyType: string,
    bhk: string, purpose: string, budgetMin: string, budgetMax: string, timeline: string,
    leadSource: string, tags: string, notes: string)

  const EmptyForm := LeadForm("", "", "", "", "", "", "", "", "", "", "", "", "")

  const NameMessage := "Full name is required and must be at least 2 characters"
  const PhoneMessage := "Phone number is required"
  const EmailMessage := "Please enter a valid email address"
  const BhkMessage := "BHK is required for apartments and villas"
  const BuyersPath := "/buyers"

  /** `!fullName.trim() || fullName.length < 2`. */
  predicate NameRejected(f: LeadForm) {
    Trim(f.fullName) == "" || |f.fullName| < 2
  }

  /** `!phone.trim()`. */
  predicate PhoneRejected(f: LeadForm) {
    Trim(f.phone) == ""
  }

  /** `email && !pattern.test(email)`. */
  predicate EmailRejected(f: LeadForm) {
    f.email != "" && !MatchesEmail(f.email)
  }

  /** An apartment or villa with an empty bhk. */
  predicate BhkMissing(f: LeadForm) {
    (f.propertyType == "Apartment" || f.propertyType == "Villa") && f.bhk == ""
  }

  /** `m` holds an entry for exactly the checks that failed, each with its
      message. */
  predicate ReportsFlags(m: map<string, string>, nameBad: bool, phoneBad: bool, emailBad: bool, bhkBad: bool) {
    && ("fullName" in m <==> nameBad) && ("fullName" in m ==> m["fullName"] == NameMessage)
    && ("phone" in m <==> phoneBad) && ("phone" in m ==> m["phone"] == PhoneMessage)
    && ("email" in m <==> emailBad) && ("email" in m ==> m["email"] == EmailMessage)
    && ("bhk" in m <==> bhkBad) && ("bhk" in m ==> m["bhk"] == BhkMessage)
    && m.Keys <= {"fullName", "phone", "email", "bhk"}
  }

  /** `m` reports exactly the failing checks of `f`. */
  predicate Reports(m: map<string, string>, f: LeadForm) {
    ReportsFlags(m, NameRejected(f), PhoneRejected(f), EmailRejected(f), BhkMissing(f))
  }

  /** The error record for a given set of failing checks. */
  function ErrorsOf(nameBad: bool, phoneBad: bool, emailBad: bool, bhkBad: bool): (r: map<string, string>)
    ensures ReportsFlags(r, nameBad, phoneBad, emailBad, bhkBad)
  {
    var a: map<string, string> := if nameBad then map["fullName" := NameMessage] else map[];
    var b := if phoneBad then a["phone" := PhoneMessage] else a;
    var c := if emailBad then b["email" := EmailMessage] else b;
    if bhkBad then c["bhk" := BhkMessage] else c
  }

  /** Only one record reports a given set of failing checks. */
  lemma FlagsDetermine(m: map<string, string>, nameBad: bool, phoneBad: bool, emailBad: bool, bhkBad: bool)
    requires ReportsFlags(m, nameBad, phoneBad, emailBad, bhkBad)
    ensures m == ErrorsOf(nameBad, phoneBad, emailBad, bhkBad)
  {
    var r := ErrorsOf(nameBad, phoneBad, emailBad, bhkBad);
    assert m.Keys == r.Keys;
  }

  /** The errors `validateForm` reports for `f`. */
  function FormErrors(f: LeadForm): (r: map<string, string>)
    ensures Reports(r, f)
  {
    ErrorsOf(NameRejected(f), PhoneRejected(f), EmailRejected(f), BhkMissing(f))
  }

  /** A record that reports the checks of `f` is the validator's. */
  lemma ReportsDetermined(m: map<string, string>, f: LeadForm)
    requires Reports(m, f)
    ensures m == FormErrors(f)
  {
    FlagsDetermine(m, NameRejected(f), PhoneRejected(f), EmailRejected(f), BhkMissing(f));
  }

  /** Every check passes. */
  predicate Passes(f: LeadForm) {
    !NameRejected(f) && !PhoneRejected(f) && !EmailRejected(f) && !BhkMissing(f)
  }

  /** `isFormValid`, which enables the submit button. */
  predicate FormValid(f: LeadForm) {
    |Trim(f.fullName)| >= 2 && |Trim(f.phone)| > 0
  }

  // ---------------------------------------------------------------- properties

  /** A name is rejected exactly when it is blank (all white space) or shorter
      than two characters as typed; a phone exactly when it is blank. No length
      bound applies to the phone. */
  lemma RejectionMeaning(f: LeadForm)
    ensures NameRejected(f) <==> AllSpace(f.fullName) || |f.fullName| < 2
    ensures PhoneRejected(f) <==> AllSpace(f.phone)
  {
    TrimEmptyIffAllSpace(f.fullName);
    TrimEmptyIffAllSpace(f.phone);
  }

  /** The validator reports nothing exactly when every check passes. */
  lemma NoErrorsIff(f: LeadForm)
    ensures FormErrors(f) == map[] <==> Passes(f)
  {
    var r := FormErrors(f);
    if NameRejected(f) { assert "fullName" in r; }
    if PhoneRejected(f) { assert "phone" in r; }
    if EmailRejected(f) { assert "email" in r; }
    if BhkMissing(f) { assert "bhk" in r; }
  }

  /** When the submit button is enabled, neither a name nor a phone error can be
      reported. */
  lemma FormValidImpliesNameAndPhone(f: LeadForm)
    requires FormValid(f)
    ensures !NameRejected(f) && !PhoneRejected(f)
  {
    TrimShorter(f.fullName);
  }

  /** The converse fails: `" a "` passes the name check (three characters, not
      blank) yet its trimmed length is 1, so the button stays disabled. A
      one-digit phone passes the phone check. */
  lemma NameCheckWeakerThanButton(f: LeadForm)
    requires f.fullName == " a " && f.phone == "1"
    ensures !NameRejected(f) && !PhoneRejected(f) && !FormValid(f)
  {
    assert Trim(" a ") == "a" by {
      assert TrimStart(" a ") == "a ";
      assert TrimEnd("a ") == "a";
    }
    TrimOneChar('1');
    assert "1" == ['1'];
  }

  lemma TrimOneChar(c: char)
    requires !IsSpace(c)
    ensures Trim([c]) == [c]
  {
    assert IsTrimmed([c]);
    TrimFixesTrimmed([c]);
  }

  // ---------------------------------------------------------------- the page state

  class NewLeadPage {
    var formData: LeadForm
    var errors: map<string, string>
    var tagList: seq<string>
    /** The paths handed to `router.push`, oldest first. */
    var navigations: seq<string>

    constructor()
      ensures formData == EmptyForm && errors == map[] && tagList == [] && navigations == []
    {
      formData := EmptyForm;
      errors := map[];
      tagList := [];
      navigations := [];
    }

    /** `validateForm()`: collect the failing checks into a fresh error record,
        store it, and report whether it is empty. */
    method ValidateForm() returns (ok: bool)
      modifies this
      ensures Reports(errors, formData)
      ensures ok <==> Passes(formData)
      ensures unchanged(this`formData, this`tagList, this`navigations)
    {
      var f := formData;
      var nameBad, phoneBad, emailBad, bhkBad := NameRejected(f), PhoneRejected(f), EmailRejected(f), BhkMissing(f);
      var newErrors: map<string, string> := map[];
      if nameBad {
        newErrors := newErrors["fullName" := NameMessage];
      }
      if phoneBad {
        newErrors := newErrors["phone" := PhoneMessage];
      }
      if emailBad {
        newErrors := newErrors["email" := EmailMessage];
      }
      if bhkBad {
        newErrors := newErrors["bhk" := BhkMessage];
      }
      assert ReportsFlags(newErrors, nameBad, phoneBad, emailBad, bhkBad);
      errors := newErrors;
      ok := newErrors == map[];
      assert nameBad ==> "fullName" in newErrors;
      assert phoneBad ==> "phone" in newErrors;
      assert emailBad ==> "email" in newErrors;
      assert bhkBad ==> "bhk" in newErrors;
    }

    /** `handleTagsChange(value)`: store the text, then preview its tags. */
    method HandleTagsChange(value: string)
      modifies this
      ensures formData == old(formData).(tags := value)
      ensures tagList == ParseTags(value)
      ensures unchanged(this`errors, this`navigations)
    {
      SetTagsText(value);
      PreviewTags(value);
    }

    /** `setFormData({...formData, tags: value})`. */
    method SetTagsText(value: string)
      modifies this
      ensures formData == old(formData).(tags := value)
      ensures unchanged(this`errors, this`navigations, this`tagList)
    {
      formData := formData.(tags := value);
    }

    /** `setTagList(...)` with the parsed tags. */
    method PreviewTags(value: string)
      modifies this
      ensures tagList == ParseTags(value)
      ensures unchanged(this`errors, this`navigations, this`formData)
    {
      tagList := ParseTags(value);
    }

    /** `handleSubmit`: validate, and navigate to the leads list only when every
        check passed. */
    method HandleSubmit()
      modifies this
      ensures Reports(errors, formData)
      ensures navigations == old(navigations) + (if Passes(formData) then [BuyersPath] else [])
      ensures unchanged(this`formData, this`tagList)
    {
      var ok := ValidateForm();
      if ok {
        navigations := navigations + [BuyersPath];
      }
      assert navigations == old(navigations) + (if ok then [BuyersPath] else []);
    }
  }
}
