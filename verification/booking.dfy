/** The reservation form of `SimpleBookingModal.tsx`: its fields, the
    validator and its messages, the edit handler that clears a field's
    error, the cost estimate, and the gate in front of the database insert. */
module Booking {

  import opened Wrappers
  import opened Strings
  import opened QuizAnswers
  import opened Catalog
  import opened EmailPattern

  // ---------------------------------------------------------------------
  // The form

  /** The preferred date as `new Date(text)` sees it: the empty text, a text
      that does not parse (an invalid date), or an instant in milliseconds. */
  datatype DateInput = NoDate | Unparseable | Instant(ms: int)

  /** `BookingFormData`. The team size comes from a list of positive options. */
  datatype Form = Form(
    workEmail: string,
    companyName: string,
    contactName: string,
    phone: string,
    teamSize: nat,
    preferredDate: DateInput,
    alternateDate: string,
    specialRequests: string
  )

  datatype Field =
    | WorkEmailField | CompanyNameField | ContactNameField | PhoneField
    | TeamSizeField | PreferredDateField | AlternateDateField | SpecialRequestsField

  /** The value of one field, whatever its type. */
  datatype FieldValue = Text(text: string) | Count(count: nat) | When(date: DateInput)

  function Get(f: Form, field: Field): FieldValue {
    match field
    case WorkEmailField => Text(f.workEmail)
    case CompanyNameField => Text(f.companyName)
    case ContactNameField => Text(f.contactName)
    case PhoneField => Text(f.phone)
    case TeamSizeField => Count(f.teamSize)
    case PreferredDateField => When(f.preferredDate)
    case AlternateDateField => Text(f.alternateDate)
    case SpecialRequestsField => Text(f.specialRequests)
  }

  /** The form the modal opens with. With quiz answers, the team size is the
      number before the bracket's '-' and the special requests summarise
      the answers; without them, eight people and no requests. */
  function InitialForm(quiz: Option<Answers>): (f: Form)
    ensures quiz.Some? && quiz.value.teamSize.Some? ==> f.teamSize == quiz.value.teamSize.value.Lower()
    ensures quiz.None? || quiz.value.teamSize.None? ==> f.teamSize == 8
    ensures quiz.None? ==> f.specialRequests == ""
    ensures f.workEmail == f.companyName == f.contactName == f.phone == f.alternateDate == ""
    ensures f.preferredDate == NoDate
  {
    var teamSize: nat :=
      if quiz.Some? && TeamSizeText(quiz.value) != "" then
        TeamNumParses(quiz.value);
        quiz.value.teamSize.value.Lower()
      else 8;
    var requests :=
      if quiz.Some? then
        "Event type: " + EventTypeText(quiz.value) + ", Budget range: " + BudgetText(quiz.value)
        + ", Preferred vibe: " + VibeText(quiz.value)
      else "";
    Form("", "", "", "", teamSize, NoDate, "", requests)
  }

  /** The team size really is what the source computes: `parseInt` of the
      text before the first '-' of the bracket answer. */
  lemma InitialTeamSizeParsed(a: Answers)
    requires a.teamSize.Some?
    ensures Some(InitialForm(Some(a)).teamSize as int) == ParseTeamSize(TeamSizeText(a))
  {
    TeamNumParses(a);
  }

  // ---------------------------------------------------------------------
  // Validation

  const MissingEmail := "We'll need your work email to send venue details"
  const BadEmail := "Please enter a valid email address"
  const MissingCompany := "Company name helps us prepare the perfect experience"
  const MissingContact := "Who should we contact about this booking?"
  const MissingDate := "When would you like to have your team event?"
  const TooSoon := "Please choose a date at least 2 weeks ahead"

  const DayMs := 86_400_000
  const LeadDays := 14

  /** Fourteen days after `now`, in milliseconds. */
  function Cutoff(now: int): int {
    now + LeadDays * DayMs
  }

  /** `isDateAvailable`: the date is at or after the cutoff. An invalid date
      compares false. */
  predicate IsDateAvailable(d: DateInput, now: int)
    ensures IsDateAvailable(d, now) ==> d.Instant? && d.ms - now >= 14 * 24 * 60 * 60 * 1000
    ensures d.Instant? && d.ms - now >= 14 * 24 * 60 * 60 * 1000 ==> IsDateAvailable(d, now)
  {
    d.Instant? && d.ms >= Cutoff(now)
  }

  /** `validateForm`'s error map: four independent checks, each adding at
      most one message for its own field. */
  function Validate(f: Form, now: int): (errors: map<Field, string>)
    ensures WorkEmailField in errors <==> f.workEmail == "" || !Matches(f.workEmail)
    ensures WorkEmailField in errors ==>
              errors[WorkEmailField] == if f.workEmail == "" then MissingEmail else BadEmail
    ensures CompanyNameField in errors <==> f.companyName == ""
    ensures CompanyNameField in errors ==> errors[CompanyNameField] == MissingCompany
    ensures ContactNameField in errors <==> f.contactName == ""
    ensures ContactNameField in errors ==> errors[ContactNameField] == MissingContact
    ensures PreferredDateField in errors <==> !IsDateAvailable(f.preferredDate, now)
    ensures PreferredDateField in errors ==>
              errors[PreferredDateField] == if f.preferredDate == NoDate then MissingDate else TooSoon
    ensures PhoneField !in errors && TeamSizeField !in errors
    ensures AlternateDateField !in errors && SpecialRequestsField !in errors
  {
    var e1: map<Field, string> :=
      if f.workEmail == "" then map[WorkEmailField := MissingEmail]
      else if !Matches(f.workEmail) then map[WorkEmailField := BadEmail]
      else map[];
    var e2 := if f.companyName == "" then e1[CompanyNameField := MissingCompany] else e1;
    var e3 := if f.contactName == "" then e2[ContactNameField := MissingContact] else e2;
    if f.preferredDate == NoDate then e3[PreferredDateField := MissingDate]
    else if !IsDateAvailable(f.preferredDate, now) then e3[PreferredDateField := TooSoon]
    else e3
  }

  /** What a complete form is, stated field by field. */
  predicate Complete(f: Form, now: int) {
    && f.workEmail != "" && Matches(f.workEmail)
    && f.companyName != ""
    && f.contactName != ""
    && IsDateAvailable(f.preferredDate, now)
  }

  /** `Object.keys(newErrors).length === 0` exactly when the form is complete. */
  lemma ValidIffComplete(f: Form, now: int)
    ensures |Validate(f, now)| == 0 <==> Complete(f, now)
  {
    var errors := Validate(f, now);
    if Complete(f, now) {
      assert errors.Keys == {};
    } else {
      assert WorkEmailField in errors || CompanyNameField in errors
             || ContactNameField in errors || PreferredDateField in errors;
    }
  }

  /** Each field's message depends on that field alone (and the clock, for
      the date): the four checks do not interfere. */
  lemma ChecksIndependent(f: Form, g: Form, now: int, field: Field)
    requires Get(f, field) == Get(g, field)
    ensures (field in Validate(f, now)) == (field in Validate(g, now))
    ensures field in Validate(f, now) ==> Validate(f, now)[field] == Validate(g, now)[field]
  {
  }

  /** The lead-time check at its boundary: exactly fourteen days ahead is
      accepted, one millisecond earlier is refused. */
  lemma CutoffBoundary(now: int)
    ensures IsDateAvailable(Instant(now + 1_209_600_000), now)
    ensures !IsDateAvailable(Instant(now + 1_209_600_000 - 1), now)
  {
  }

  // ---------------------------------------------------------------------
  // Editing

  /** The modal's state: the form and the error map shown under the fields.
      A cleared error is kept with the empty message, as the source does. */
  datatype Modal = Modal(form: Form, errors: map<Field, string>)

  /** An error is shown when its message is a non-empty string. */
  predicate Shows(errors: map<Field, string>, field: Field) {
    field in errors && errors[field] != ""
  }

  /** One `onChange`: the field and its new value. */
  datatype Edit =
    | SetWorkEmail(s: string) | SetCompanyName(s: string) | SetContactName(s: string)
    | SetPhone(s: string) | SetTeamSize(n: nat) | SetPreferredDate(d: DateInput)
    | SetAlternateDate(s: string) | SetSpecialRequests(s: string)
  {
    function Field(): Field {
      match this
      case SetWorkEmail(_) => WorkEmailField
      case SetCompanyName(_) => CompanyNameField
      case SetContactName(_) => ContactNameField
      case SetPhone(_) => PhoneField
      case SetTeamSize(_) => TeamSizeField
      case SetPreferredDate(_) => PreferredDateField
      case SetAlternateDate(_) => AlternateDateField
      case SetSpecialRequests(_) => SpecialRequestsField
    }

    function Value(): FieldValue {
      match this
      case SetWorkEmail(s) => Text(s)
      case SetCompanyName(s) => Text(s)
      case SetContactName(s) => Text(s)
      case SetPhone(s) => Text(s)
      case SetTeamSize(n) => Count(n)
      case SetPreferredDate(d) => When(d)
      case SetAlternateDate(s) => Text(s)
      case SetSpecialRequests(s) => Text(s)
    }
  }

  function Apply(f: Form, e: Edit): Form {
    match e
    case SetWorkEmail(s) => f.(workEmail := s)
    case SetCompanyName(s) => f.(companyName := s)
    case SetContactName(s) => f.(contactName := s)
    case SetPhone(s) => f.(phone := s)
    case SetTeamSize(n) => f.(teamSize := n)
    case SetPreferredDate(d) => f.(preferredDate := d)
    case SetAlternateDate(s) => f.(alternateDate := s)
    case SetSpecialRequests(s) => f.(specialRequests := s)
  }

  /** `updateFormData`: the edited field takes the new value and its shown
      error is blanked; every other field and every other error stays. */
  function UpdateFormData(m: Modal, e: Edit): (r: Modal)
    ensures Get(r.form, e.Field()) == e.Value()
    ensures forall field: Field | field != e.Field() :: Get(r.form, field) == Get(m.form, field)
    ensures !Shows(r.errors, e.Field())
    ensures r.errors.Keys == m.errors.Keys
    ensures forall field | field in m.errors && field != e.Field() :: r.errors[field] == m.errors[field]
  {
    var errors := if Shows(m.errors, e.Field()) then m.errors[e.Field() := ""] else m.errors;
    Modal(Apply(m.form, e), errors)
  }

  // ---------------------------------------------------------------------
  // The estimate

  /** `Math.ceil(a / d)` for whole numbers: the fewest `d`-sized groups that
      hold `a`. */
  function CeilDiv(a: nat, d: nat): (r: nat)
    requires d > 0
    ensures r * d >= a
    ensures r == 0 || (r - 1) * d < a
  {
    (a + d - 1) / d
  }

  /** `estimatedCost`: one night's price for every venue-load the team needs. */
  function EstimatedCost(e: Experience, teamSize: nat): (r: nat)
    requires e.maxGuests > 0
    ensures teamSize == 0 ==> r == 0
    ensures 1 <= teamSize <= e.maxGuests ==> r == e.pricePerNight
    ensures teamSize > e.maxGuests ==> r >= 2 * e.pricePerNight
  {
    CeilDivCases(teamSize, e.maxGuests);
    var groups := CeilDiv(teamSize, e.maxGuests);
    MulMono(if groups < 2 then groups else 2, groups, e.pricePerNight);
    e.pricePerNight * groups
  }

  /** `CeilDiv` is the least count that covers `a`. */
  lemma CeilDivLeast(a: nat, d: nat, n: nat)
    requires d > 0 && n * d >= a
    ensures CeilDiv(a, d) <= n
  {
    var r := CeilDiv(a, d);
    if r > n {
      MulMono(n, r - 1, d);
    }
  }

  lemma MulMono(x: nat, y: nat, d: nat)
    requires x <= y
    ensures x * d <= y * d
  {
  }

  /** A larger team never costs less. */
  lemma EstimateMonotone(e: Experience, t1: nat, t2: nat)
    requires e.maxGuests > 0 && t1 <= t2
    ensures EstimatedCost(e, t1) <= EstimatedCost(e, t2)
  {
    CeilDivLeast(t1, e.maxGuests, CeilDiv(t2, e.maxGuests));
  }

  /** No team needs no group, a team that fits needs one, a larger one at
      least two. */
  lemma CeilDivCases(a: nat, d: nat)
    requires d > 0
    ensures a == 0 ==> CeilDiv(a, d) == 0
    ensures 1 <= a <= d ==> CeilDiv(a, d) == 1
    ensures a > d ==> CeilDiv(a, d) >= 2
  {
    if a <= d {
      CeilDivLeast(a, d, 1);
    } else if CeilDiv(a, d) <= 1 {
      MulMono(CeilDiv(a, d), 1, d);
    }
  }

  // ---------------------------------------------------------------------
  // Submitting

  /** The row sent to `booking_inquiries`. */
  datatype Inquiry = Inquiry(
    workEmail: string,
    companyName: string,
    contactName: string,
    phone: string,
    teamSize: nat,
    preferredDate: DateInput,
    alternateDate: string,
    specialRequests: string,
    experienceId: string,
    experienceTitle: string,
    estimatedCost: nat,
    status: string
  )

  datatype Submission = Rejected(errors: map<Field, string>) | Insert(inquiry: Inquiry)

  /** `handleSubmit` up to the insert: an invalid form stops with its error
      map; a valid one produces the pending inquiry carrying the estimate. */
  function Submit(f: Form, e: Experience, now: int): (r: Submission)
    requires e.maxGuests > 0
    ensures r.Insert? <==> Complete(f, now)
    ensures r.Rejected? ==> r.errors == Validate(f, now) && |r.errors| > 0
    ensures r.Insert? ==>
              && r.inquiry.status == "pending"
              && r.inquiry.estimatedCost == EstimatedCost(e, f.teamSize)
              && r.inquiry.experienceId == e.id && r.inquiry.experienceTitle == e.title
              && r.inquiry.workEmail == f.workEmail && r.inquiry.companyName == f.companyName
              && r.inquiry.contactName == f.contactName && r.inquiry.phone == f.phone
              && r.inquiry.teamSize == f.teamSize && r.inquiry.preferredDate == f.preferredDate
              && r.inquiry.alternateDate == f.alternateDate && r.inquiry.specialRequests == f.specialRequests
  {
    var errors := Validate(f, now);
    ValidIffComplete(f, now);
    if |errors| != 0 then Rejected(errors)
    else
      Insert(Inquiry(f.workEmail, f.companyName, f.contactName, f.phone, f.teamSize, f.preferredDate,
                     f.alternateDate, f.specialRequests, e.id, e.title, EstimatedCost(e, f.teamSize), "pending"))
  }
}
