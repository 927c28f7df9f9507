/**
  The Bean Validation constraints on the request records, written out as
  validators that return the set of violations (field and message) a
  validator reports. `@NotBlank` and `@NotNull` reject null; `@Pattern`,
  `@Min`, `@Size` and `@Email` accept null and check only present values.
 */
module RequestValidation {
  import opened Wrappers
  import opened DeliveryStatuses
  import opened Entities

  datatype Violation = Violation(field: string, message: string)

  /** `@NotBlank`: present, and something other than leading/trailing characters up to U+0020 (what `trim` removes). */
  predicate NotBlank(s: Option<string>) {
    s.Some? && exists i :: 0 <= i < |s.value| && s.value[i] > ' '
  }

  predicate IsAsciiAlphanumeric(c: char) {
    ('A' <= c <= 'Z') || ('a' <= c <= 'z') || ('0' <= c <= '9')
  }

  /** `@Pattern(regexp = "^[A-Za-z0-9]+$")`: null, or one or more ASCII letters and digits and nothing else. */
  predicate MatchesAlphanumeric(s: Option<string>) {
    s.None? || (|s.value| > 0 && forall i :: 0 <= i < |s.value| ==> IsAsciiAlphanumeric(s.value[i]))
  }

  /** Length as Java's `String.length()` counts it: characters outside the Basic Multilingual Plane take two UTF-16 units. */
  function Utf16Length(s: string): (n: nat)
    ensures |s| <= n <= 2 * |s|
  {
    if |s| == 0 then 0 else (if s[0] as int > 0xFFFF then 2 else 1) + Utf16Length(s[1..])
  }

  /** `@Size(max = m)`: null, or at most `m` UTF-16 units. */
  predicate AtMost(s: Option<string>, m: nat) {
    s.None? || Utf16Length(s.value) <= m
  }

  /** One violation when the constraint fails, none when it holds. */
  function Check(ok: bool, v: Violation): set<Violation> {
    if ok then {} else {v}
  }

  /** CargoRequestDto. */
  datatype CargoRequest = CargoRequest(
    vehicleNumber: Option<string>,
    description: Option<string>,
    weight: Option<real>,
    status: Option<DeliveryStatus>)

  const CargoVehicleNumberBlank := Violation("vehicleNumber", "Vehicle number must not be blank")
  const CargoVehicleNumberPattern := Violation("vehicleNumber", "Vehicle number must contain only alphanumeric characters")
  const DescriptionBlank := Violation("description", "Description must not be blank")
  const WeightNull := Violation("weight", "Weight must not be null")
  const WeightNegative := Violation("weight", "Weight must be greater than or equal to 0")
  const StatusNull := Violation("status", "Status must not be null")

  function ValidateCargoRequest(r: CargoRequest): (vs: set<Violation>)
    ensures CargoVehicleNumberBlank in vs <==> !NotBlank(r.vehicleNumber)
    ensures CargoVehicleNumberPattern in vs <==> !MatchesAlphanumeric(r.vehicleNumber)
    ensures DescriptionBlank in vs <==> !NotBlank(r.description)
    ensures WeightNull in vs <==> r.weight.None?
    ensures WeightNegative in vs <==> r.weight.Some? && r.weight.value < 0.0
    ensures StatusNull in vs <==> r.status.None?
    ensures vs <= {CargoVehicleNumberBlank, CargoVehicleNumberPattern, DescriptionBlank, WeightNull, WeightNegative, StatusNull}
    ensures vs == {} <==>
      && r.vehicleNumber.Some? && |r.vehicleNumber.value| > 0
      && (forall i :: 0 <= i < |r.vehicleNumber.value| ==> IsAsciiAlphanumeric(r.vehicleNumber.value[i]))
      && NotBlank(r.description)
      && r.weight.Some? && r.weight.value >= 0.0
      && r.status.Some?
  {
    var vs :=
      Check(NotBlank(r.vehicleNumber), CargoVehicleNumberBlank)
      + Check(MatchesAlphanumeric(r.vehicleNumber), CargoVehicleNumberPattern)
      + Check(NotBlank(r.description), DescriptionBlank)
      + Check(r.weight.Some?, WeightNull)
      + Check(r.weight.None? || r.weight.value >= 0.0, WeightNegative)
      + Check(r.status.Some?, StatusNull);
    if r.vehicleNumber.Some? && MatchesAlphanumeric(r.vehicleNumber) then
      AlphanumericIsNotBlank(r.vehicleNumber.value);
      vs
    else
      vs
  }

  /** A vehicle number that matches the pattern is never blank, so the two constraints together mean "non-null and only [A-Za-z0-9]+". */
  lemma AlphanumericIsNotBlank(s: string)
    requires MatchesAlphanumeric(Some(s))
    ensures NotBlank(Some(s))
  {
    assert IsAsciiAlphanumeric(s[0]);
  }

  /** VehicleRequestDto. */
  datatype VehicleRequest = VehicleRequest(
    vehicleType: Option<VehicleType>,
    vehicleNumber: Option<string>,
    routeFrom: Option<string>,
    routeTo: Option<string>)

  const TypeNull := Violation("type", "Type must not be null")
  const VehicleNumberBlank := Violation("vehicleNumber", "Vehicle number must not be blank")
  const VehicleNumberPattern := Violation("vehicleNumber", "Vehicle number must contain only alphanumeric characters")
  const RouteFromBlank := Violation("routeFrom", "Route from must not be blank")
  const RouteToBlank := Violation("routeTo", "Route to must not be blank")

  function ValidateVehicleRequest(r: VehicleRequest): (vs: set<Violation>)
    ensures TypeNull in vs <==> r.vehicleType.None?
    ensures VehicleNumberBlank in vs <==> !NotBlank(r.vehicleNumber)
    ensures VehicleNumberPattern in vs <==> !MatchesAlphanumeric(r.vehicleNumber)
    ensures RouteFromBlank in vs <==> !NotBlank(r.routeFrom)
    ensures RouteToBlank in vs <==> !NotBlank(r.routeTo)
    ensures vs <= {TypeNull, VehicleNumberBlank, VehicleNumberPattern, RouteFromBlank, RouteToBlank}
    ensures vs == {} <==>
      && r.vehicleType.Some?
      && r.vehicleNumber.Some? && |r.vehicleNumber.value| > 0
      && (forall i :: 0 <= i < |r.vehicleNumber.value| ==> IsAsciiAlphanumeric(r.vehicleNumber.value[i]))
      && NotBlank(r.routeFrom)
      && NotBlank(r.routeTo)
  {
    var vs :=
      Check(r.vehicleType.Some?, TypeNull)
      + Check(NotBlank(r.vehicleNumber), VehicleNumberBlank)
      + Check(MatchesAlphanumeric(r.vehicleNumber), VehicleNumberPattern)
      + Check(NotBlank(r.routeFrom), RouteFromBlank)
      + Check(NotBlank(r.routeTo), RouteToBlank);
    if r.vehicleNumber.Some? && MatchesAlphanumeric(r.vehicleNumber) then
      AlphanumericIsNotBlank(r.vehicleNumber.value);
      vs
    else
      vs
  }

  /** EmailMessageDto of the email service. */
  datatype EmailMessageRequest = EmailMessageRequest(to: Option<string>, subject: Option<string>, content: Option<string>)

  const MaxSubjectLength: nat := 255

  const RecipientBlank := Violation("to", "Recipient email address must not be blank")
  const RecipientInvalid := Violation("to", "Invalid email address")
  const SubjectBlank := Violation("subject", "Email subject must not be blank")
  const SubjectTooLong := Violation("subject", "Email subject must not exceed 255 characters")
  const ContentBlank := Violation("content", "Email content must not be blank")

  /** `isEmail` is the address-format check of `@Email`, applied only to a present value. */
  function ValidateEmailMessage(m: EmailMessageRequest, isEmail: string -> bool): (vs: set<Violation>)
    ensures RecipientBlank in vs <==> !NotBlank(m.to)
    ensures RecipientInvalid in vs <==> m.to.Some? && !isEmail(m.to.value)
    ensures SubjectBlank in vs <==> !NotBlank(m.subject)
    ensures SubjectTooLong in vs <==> !AtMost(m.subject, MaxSubjectLength)
    ensures ContentBlank in vs <==> !NotBlank(m.content)
    ensures vs <= {RecipientBlank, RecipientInvalid, SubjectBlank, SubjectTooLong, ContentBlank}
    ensures vs == {} <==>
      && NotBlank(m.to) && isEmail(m.to.value)
      && NotBlank(m.subject) && Utf16Length(m.subject.value) <= MaxSubjectLength
      && NotBlank(m.content)
  {
    Check(NotBlank(m.to), RecipientBlank)
    + Check(m.to.None? || isEmail(m.to.value), RecipientInvalid)
    + Check(NotBlank(m.subject), SubjectBlank)
    + Check(AtMost(m.subject, MaxSubjectLength), SubjectTooLong)
    + Check(NotBlank(m.content), ContentBlank)
  }

  /** A message without recipient is rejected for the blank recipient alone, not for the address format. */
  lemma NullRecipientRejected(subject: Option<string>, content: Option<string>, isEmail: string -> bool)
    ensures var vs := ValidateEmailMessage(EmailMessageRequest(None, subject, content), isEmail);
      RecipientBlank in vs && RecipientInvalid !in vs
  {
  }

  /** Sample vehicle numbers: letters and digits pass; a dash, an empty string or blanks do not. */
  lemma VehicleNumberExamples()
    ensures MatchesAlphanumeric(Some("AB1234")) && NotBlank(Some("AB1234"))
    ensures !MatchesAlphanumeric(Some("AB-12"))
    ensures !MatchesAlphanumeric(Some("")) && !NotBlank(Some(""))
    ensures !NotBlank(Some("   "))
  {
    assert "AB-12"[2] == '-';
    AlphanumericIsNotBlank("AB1234");
  }
}
