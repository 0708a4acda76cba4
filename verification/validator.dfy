/**
 * The business validator of the worker: four groups of checks run one after the
 * other on a parsed contract, each failing check appending one VALIDATION_ERROR.
 * No check short-circuits another, so errors from independent checks accumulate.
 * The regular expressions of the source are written out as character-class
 * predicates, and "today" is a parameter rather than a clock read.
 */
module Validator {
  import opened Wrappers
  import opened Text
  import opened ContractModel
  import opened ErrorModel

  const MinAmount: real := 0.0
  const MaxAmount: real := 1000000.0
  const MinDurationMonths: int := 1
  const MaxDurationMonths: int := 120

  /** The twelve regions of Morocco, compared against the upper-cased region. */
  const ValidRegions: seq<string> := [
    "CASABLANCA-SETTAT", "RABAT-SALE-KENITRA", "MARRAKECH-SAFI",
    "FES-MEKNES", "TANGER-TETOUAN-AL HOCEIMA", "ORIENTAL",
    "SOUSS-MASSA", "DRAA-TAFILALET", "BENI MELLAL-KHENIFRA",
    "LAAYOUNE-SAKIA EL HAMRA", "DAKHLA-OUED ED-DAHAB", "GUELMIM-OUED NOUN"
  ]

  /** The fields whose errors `countCriticalErrors` counts. */
  const CriticalFields: seq<string> := ["contractId", "clientId", "amount", "contractType", "status"]

  // ---------------------------------------------------------------------------
  // the patterns, matched against the whole string

  predicate IsUpperAlnum(c: char) {
    'A' <= c <= 'Z' || '0' <= c <= '9'
  }

  /** `^[A-Z0-9]{lo,hi}$` */
  predicate IsUpperAlnumOfLength(s: string, lo: nat, hi: nat) {
    lo <= |s| <= hi && forall i :: 0 <= i < |s| ==> IsUpperAlnum(s[i])
  }

  /** `^[A-Z0-9]{5,50}$` */
  predicate IsContractIdFormat(s: string) {
    IsUpperAlnumOfLength(s, 5, 50)
  }

  /** `^[A-Z0-9]{3,30}$` */
  predicate IsClientIdFormat(s: string) {
    IsUpperAlnumOfLength(s, 3, 30)
  }

  /** `^(\+212|0)[0-9]{9}$` */
  predicate IsPhoneFormat(s: string) {
    || (|s| == 13 && s[..4] == "+212" && AllDigits(s[4..]))
    || (|s| == 10 && s[0] == '0' && AllDigits(s[1..]))
  }

  /** `\d{5}`, where `\d` is the ASCII digit class. */
  predicate IsPostalCodeFormat(s: string) {
    |s| == 5 && AllDigits(s)
  }

  /** The class `[A-Za-z0-9+_.-]` of the email's local part. */
  predicate IsLocalPartChar(c: char) {
    || 'A' <= c <= 'Z' || 'a' <= c <= 'z' || '0' <= c <= '9'
    || c == '+' || c == '_' || c == '.' || c == '-'
  }

  /** The chars `.` does not match without DOTALL. */
  predicate IsLineTerminator(c: char) {
    c == '\n' || c == '\r' || c == '\U{0085}' || c == '\U{2028}' || c == '\U{2029}'
  }

  /** Length of the longest prefix made of local-part chars. */
  function LocalPartLength(s: string): (k: nat)
    ensures k <= |s|
    ensures forall i :: 0 <= i < k ==> IsLocalPartChar(s[i])
    ensures k < |s| ==> !IsLocalPartChar(s[k])
  {
    if |s| > 0 && IsLocalPartChar(s[0]) then 1 + LocalPartLength(s[1..]) else 0
  }

  /**
   * `^[A-Za-z0-9+_.-]+@(.+)$`: since '@' is not a local-part char, the '@' must follow
   * the longest local-part prefix, and the rest must be non-empty and single-line.
   */
  predicate IsEmailFormat(s: string) {
    var k := LocalPartLength(s);
    && 1 <= k && k + 1 < |s| && s[k] == '@'
    && forall i :: k < i < |s| ==> !IsLineTerminator(s[i])
  }

  /** The email predicate accepts exactly the strings the regular expression describes. */
  lemma EmailFormatIff(s: string)
    ensures IsEmailFormat(s) <==>
              exists k :: 1 <= k && k + 1 < |s| && s[k] == '@'
                && (forall i :: 0 <= i < k ==> IsLocalPartChar(s[i]))
                && (forall i :: k < i < |s| ==> !IsLineTerminator(s[i]))
  {
    var n := LocalPartLength(s);
    if exists k :: 1 <= k && k + 1 < |s| && s[k] == '@'
                   && (forall i :: 0 <= i < k ==> IsLocalPartChar(s[i]))
                   && (forall i :: k < i < |s| ==> !IsLineTerminator(s[i])) {
      var k :| 1 <= k && k + 1 < |s| && s[k] == '@'
               && (forall i :: 0 <= i < k ==> IsLocalPartChar(s[i]))
               && (forall i :: k < i < |s| ==> !IsLineTerminator(s[i]));
      assert !IsLocalPartChar(s[k]);
      assert n == k;
    }
  }

  predicate IsValidRegion(region: string) {
    Upper(region) in ValidRegions
  }

  /** Case is ignored, but surrounding spaces are not trimmed away. */
  lemma RegionExamples()
    ensures IsValidRegion("Casablanca-Settat")
    ensures !IsValidRegion(" ORIENTAL")
  {
    assert Upper("Casablanca-Settat") == "CASABLANCA-SETTAT";
    assert ValidRegions[0] == "CASABLANCA-SETTAT";
    var u := Upper(" ORIENTAL");
    assert u[0] == ' ';
  }

  // ---------------------------------------------------------------------------
  // the checks and the errors they append

  /** The field an error names. */
  datatype Field =
    | ContractField | ContractIdField | ClientIdField | ClientNameField | ContractTypeField
    | AmountField | CreationDateField | StatusField | RegionField | PhoneNumberField
    | EmailField | PostalCodeField | DurationMonthsField | DiscountPercentageField
    | ActivationDateField | ExpirationDateField | SalesChannelField

  function FieldName(f: Field): string {
    match f
    case ContractField => "contract"
    case ContractIdField => "contractId"
    case ClientIdField => "clientId"
    case ClientNameField => "clientName"
    case ContractTypeField => "contractType"
    case AmountField => "amount"
    case CreationDateField => "creationDate"
    case StatusField => "status"
    case RegionField => "region"
    case PhoneNumberField => "phoneNumber"
    case EmailField => "email"
    case PostalCodeField => "postalCode"
    case DurationMonthsField => "durationMonths"
    case DiscountPercentageField => "discountPercentage"
    case ActivationDateField => "activationDate"
    case ExpirationDateField => "expirationDate"
    case SalesChannelField => "salesChannel"
  }

  function FieldFromName(s: string): (r: Option<Field>)
    ensures r.Some? ==> FieldName(r.value) == s
  {
    if s == "contract" then Some(ContractField)
    else if s == "contractId" then Some(ContractIdField)
    else if s == "clientId" then Some(ClientIdField)
    else if s == "clientName" then Some(ClientNameField)
    else if s == "contractType" then Some(ContractTypeField)
    else if s == "amount" then Some(AmountField)
    else if s == "creationDate" then Some(CreationDateField)
    else if s == "status" then Some(StatusField)
    else if s == "region" then Some(RegionField)
    else if s == "phoneNumber" then Some(PhoneNumberField)
    else if s == "email" then Some(EmailField)
    else if s == "postalCode" then Some(PostalCodeField)
    else if s == "durationMonths" then Some(DurationMonthsField)
    else if s == "discountPercentage" then Some(DiscountPercentageField)
    else if s == "activationDate" then Some(ActivationDateField)
    else if s == "expirationDate" then Some(ExpirationDateField)
    else if s == "salesChannel" then Some(SalesChannelField)
    else None
  }

  /** Reading a field's name back gives the field. */
  lemma FieldNameRoundTrip(f: Field)
    ensures FieldFromName(FieldName(f)) == Some(f)
  {
    match f {
      case ContractField =>
      case ContractIdField =>
      case ClientIdField =>
      case ClientNameField =>
      case ContractTypeField =>
      case AmountField =>
      case CreationDateField =>
      case StatusField =>
      case RegionField =>
      case PhoneNumberField =>
      case EmailField =>
      case PostalCodeField =>
      case DurationMonthsField =>
      case DiscountPercentageField =>
      case ActivationDateField =>
      case ExpirationDateField =>
      case SalesChannelField =>
    }
  }

  /** Field names are distinct, so an error's field name identifies its field. */
  lemma FieldNamesAreDistinct(a: Field, b: Field)
    ensures FieldFromName(FieldName(a)) == Some(a)
    ensures FieldName(a) == FieldName(b) ==> a == b
  {
    FieldNameRoundTrip(a);
    FieldNameRoundTrip(b);
  }

  /** Every check the validator runs, named after the condition it reports. */
  datatype CheckKind =
    | ContractIdRequired | ClientIdRequired | ClientNameRequired | ContractTypeRequired
    | AmountRequired | CreationDateRequired | StatusRequired | RegionRequired
    | ContractIdMalformed | ClientIdMalformed | PhoneMalformed | EmailMalformed | PostalCodeMalformed
    | AmountNegative | AmountTooLarge | DurationTooShort | DurationTooLong | RegionUnknown
    | DiscountNegative | DiscountTooLarge
    | CreationInFuture | ActivationBeforeCreation | ExpirationBeforeActivation
    | ActiveWithoutActivation | ActiveButExpired | EnterpriseSoldOnline

  function FieldOf(k: CheckKind): Field {
    match k
    case ContractIdRequired | ContractIdMalformed => ContractIdField
    case ClientIdRequired | ClientIdMalformed => ClientIdField
    case ClientNameRequired => ClientNameField
    case ContractTypeRequired => ContractTypeField
    case AmountRequired | AmountNegative | AmountTooLarge => AmountField
    case CreationDateRequired | CreationInFuture => CreationDateField
    case StatusRequired | ActiveButExpired => StatusField
    case RegionRequired | RegionUnknown => RegionField
    case PhoneMalformed => PhoneNumberField
    case EmailMalformed => EmailField
    case PostalCodeMalformed => PostalCodeField
    case DurationTooShort | DurationTooLong => DurationMonthsField
    case DiscountNegative | DiscountTooLarge => DiscountPercentageField
    case ActivationBeforeCreation | ActiveWithoutActivation => ActivationDateField
    case ExpirationBeforeActivation => ExpirationDateField
    case EnterpriseSoldOnline => SalesChannelField
  }

  function MessageOf(k: CheckKind): string {
    match k
    case ContractIdRequired => "L'ID du contrat est obligatoire"
    case ClientIdRequired => "L'ID du client est obligatoire"
    case ClientNameRequired => "Le nom du client est obligatoire"
    case ContractTypeRequired => "Le type de contrat est obligatoire"
    case AmountRequired => "Le montant est obligatoire"
    case CreationDateRequired => "La date de création est obligatoire"
    case StatusRequired => "Le statut est obligatoire"
    case RegionRequired => "La région est obligatoire"
    case ContractIdMalformed => "Format d'ID de contrat invalide (5-50 caractères alphanumériques)"
    case ClientIdMalformed => "Format d'ID de client invalide (3-30 caractères alphanumériques)"
    case PhoneMalformed => "Format de téléphone marocain invalide (+212xxxxxxxxx ou 0xxxxxxxxx)"
    case EmailMalformed => "Format d'email invalide"
    case PostalCodeMalformed => "Le code postal doit contenir 5 chiffres"
    case AmountNegative => "Le montant doit être positif"
    case AmountTooLarge => "Le montant ne peut pas dépasser 1000000 DH"
    case DurationTooShort => "La durée doit être d'au moins 1 mois"
    case DurationTooLong => "La durée ne peut pas dépasser 120 mois"
    case RegionUnknown => "Région marocaine invalide"
    case DiscountNegative => "La remise doit être positive"
    case DiscountTooLarge => "La remise ne peut pas dépasser 100%"
    case CreationInFuture => "La date de création ne peut pas être dans le futur"
    case ActivationBeforeCreation => "La date d'activation ne peut pas être antérieure à la création"
    case ExpirationBeforeActivation => "La date d'expiration ne peut pas être antérieure à l'activation"
    case ActiveWithoutActivation => "Un contrat actif doit avoir une date d'activation"
    case ActiveButExpired => "Un contrat expiré ne peut pas être actif"
    case EnterpriseSoldOnline => "Les contrats entreprise ne peuvent pas être vendus en ligne"
  }

  /** Whether check `k` fails on contract `c`, "today" being the day of validation. */
  predicate Fails(k: CheckKind, c: Contract, today: int) {
    match k
    case ContractIdRequired => IsBlank(c.contractId)
    case ClientIdRequired => IsBlank(c.clientId)
    case ClientNameRequired => IsBlank(c.clientName)
    case ContractTypeRequired => c.contractType.None?
    case AmountRequired => c.amount.None?
    case CreationDateRequired => c.creationDate.None?
    case StatusRequired => c.status.None?
    case RegionRequired => IsBlank(c.region)
    case ContractIdMalformed => !IsBlank(c.contractId) && !IsContractIdFormat(c.contractId.value)
    case ClientIdMalformed => !IsBlank(c.clientId) && !IsClientIdFormat(c.clientId.value)
    case PhoneMalformed => !IsBlank(c.phoneNumber) && !IsPhoneFormat(c.phoneNumber.value)
    case EmailMalformed => !IsBlank(c.email) && !IsEmailFormat(c.email.value)
    case PostalCodeMalformed => !IsBlank(c.postalCode) && !IsPostalCodeFormat(c.postalCode.value)
    case AmountNegative => c.amount.Some? && c.amount.value < MinAmount
    case AmountTooLarge => c.amount.Some? && c.amount.value > MaxAmount
    case DurationTooShort => c.durationMonths.Some? && c.durationMonths.value < MinDurationMonths
    case DurationTooLong => c.durationMonths.Some? && c.durationMonths.value > MaxDurationMonths
    case RegionUnknown => !IsBlank(c.region) && !IsValidRegion(c.region.value)
    case DiscountNegative => c.discountPercentage.Some? && c.discountPercentage.value < 0.0
    case DiscountTooLarge => c.discountPercentage.Some? && c.discountPercentage.value > 100.0
    case CreationInFuture => c.creationDate.Some? && c.creationDate.value > today
    case ActivationBeforeCreation =>
      c.activationDate.Some? && c.creationDate.Some? && c.activationDate.value < c.creationDate.value
    case ExpirationBeforeActivation =>
      c.expirationDate.Some? && c.activationDate.Some? && c.expirationDate.value < c.activationDate.value
    case ActiveWithoutActivation => c.status == Some(Active) && c.activationDate.None?
    case ActiveButExpired => c.status == Some(Active) && c.expirationDate.Some? && c.expirationDate.value < today
    case EnterpriseSoldOnline => c.contractType == Some(Enterprise) && c.salesChannel == Some(Online)
  }

  /** The text the source passes as the offending value. */
  function TextOf(s: Option<string>): Option<FieldValue> {
    if s.None? then None else Some(TextValue(s.value))
  }

  const NullText: Option<FieldValue> := Some(TextValue("null"))

  function DecimalText(v: Option<real>): Option<FieldValue> {
    if v.None? then None else Some(DecimalValue(v.value))
  }

  function DateText(v: Option<int>): Option<FieldValue> {
    if v.None? then None else Some(DateValue(v.value))
  }

  function IntText(v: Option<int>): Option<FieldValue> {
    if v.None? then None else Some(TextValue(IntToString(v.value)))
  }

  /** The offending value check `k` reports: the field's text, or "null" for a missing non-text field. */
  function ValueOf(k: CheckKind, c: Contract): Option<FieldValue> {
    match k
    case ContractIdRequired | ContractIdMalformed => TextOf(c.contractId)
    case ClientIdRequired | ClientIdMalformed => TextOf(c.clientId)
    case ClientNameRequired => TextOf(c.clientName)
    case ContractTypeRequired | AmountRequired | CreationDateRequired | StatusRequired
       | ActiveWithoutActivation => NullText
    case RegionRequired | RegionUnknown => TextOf(c.region)
    case PhoneMalformed => TextOf(c.phoneNumber)
    case EmailMalformed => TextOf(c.email)
    case PostalCodeMalformed => TextOf(c.postalCode)
    case AmountNegative | AmountTooLarge => DecimalText(c.amount)
    case DurationTooShort | DurationTooLong => IntText(c.durationMonths)
    case DiscountNegative | DiscountTooLarge => DecimalText(c.discountPercentage)
    case CreationInFuture => DateText(c.creationDate)
    case ActivationBeforeCreation => DateText(c.activationDate)
    case ExpirationBeforeActivation => DateText(c.expirationDate)
    case ActiveButExpired => if c.status.None? then None else Some(TextValue(StatusName(c.status.value)))
    case EnterpriseSoldOnline =>
      if c.salesChannel.None? then None else Some(TextValue(ChannelName(c.salesChannel.value)))
  }

  /** The error check `k` appends when it fails. */
  function ErrorOf(k: CheckKind, c: Contract, line: Option<int>): ErrorInfo {
    ValidationError(FieldName(FieldOf(k)), ValueOf(k, c), MessageOf(k), line)
  }

  /** `validateMandatoryFields`, `validateFieldFormats`, `validateBusinessRules`, `validateDataConstraints`. */
  const MandatoryChecks: seq<CheckKind> := [
    ContractIdRequired, ClientIdRequired, ClientNameRequired, ContractTypeRequired,
    AmountRequired, CreationDateRequired, StatusRequired, RegionRequired ]
  const FormatChecks: seq<CheckKind> := [
    ContractIdMalformed, ClientIdMalformed, PhoneMalformed, EmailMalformed, PostalCodeMalformed ]
  const BusinessChecks: seq<CheckKind> := [
    AmountNegative, AmountTooLarge, DurationTooShort, DurationTooLong, RegionUnknown,
    DiscountNegative, DiscountTooLarge ]
  const DataChecks: seq<CheckKind> := [
    CreationInFuture, ActivationBeforeCreation, ExpirationBeforeActivation,
    ActiveWithoutActivation, ActiveButExpired, EnterpriseSoldOnline ]

  /** Every check of `validate`, in the order the source runs them. */
  const AllChecks: seq<CheckKind> := MandatoryChecks + FormatChecks + BusinessChecks + DataChecks

  /** Every kind of check is run by `validate`. */
  lemma EveryCheckRuns(k: CheckKind)
    ensures k in AllChecks
  {
    assert AllChecks == [
      ContractIdRequired, ClientIdRequired, ClientNameRequired, ContractTypeRequired,
      AmountRequired, CreationDateRequired, StatusRequired, RegionRequired,
      ContractIdMalformed, ClientIdMalformed, PhoneMalformed, EmailMalformed, PostalCodeMalformed,
      AmountNegative, AmountTooLarge, DurationTooShort, DurationTooLong, RegionUnknown,
      DiscountNegative, DiscountTooLarge,
      CreationInFuture, ActivationBeforeCreation, ExpirationBeforeActivation,
      ActiveWithoutActivation, ActiveButExpired, EnterpriseSoldOnline ];
  }

  /** Every error is a non-recoverable validation error on a named field, at the given line. */
  predicate AllValidationErrorsAt(errors: seq<ErrorInfo>, line: Option<int>) {
    forall e :: e in errors ==>
      e.errorType == Some(Validation) && e.lineNumber == line && e.fieldName.Some? && e.recoverable == Some(false)
  }

  /** Running checks in order: each failing check appends its error, none stops the others. */
  function Emit(checks: seq<CheckKind>, c: Contract, line: Option<int>, today: int): (r: seq<ErrorInfo>)
    ensures |r| <= |checks|
    ensures r == [] <==> forall k :: k in checks ==> !Fails(k, c, today)
    ensures forall e :: e in r <==> exists k :: k in checks && Fails(k, c, today) && e == ErrorOf(k, c, line)
    ensures AllValidationErrorsAt(r, line)
  {
    if |checks| == 0 then []
    else
      assert checks == [checks[0]] + checks[1..];
      (if Fails(checks[0], c, today) then [ErrorOf(checks[0], c, line)] else []) + Emit(checks[1..], c, line, today)
  }

  // ---------------------------------------------------------------------------
  // validate

  /** The mandatory fields are present (non-blank for text). */
  predicate MandatoryPresent(c: Contract) {
    && !IsBlank(c.contractId) && !IsBlank(c.clientId) && !IsBlank(c.clientName)
    && c.contractType.Some? && c.amount.Some? && c.creationDate.Some? && c.status.Some?
    && !IsBlank(c.region)
  }

  /** Every non-blank patterned field matches its pattern. */
  predicate FormatsMatch(c: Contract) {
    && (IsBlank(c.contractId) || IsContractIdFormat(c.contractId.value))
    && (IsBlank(c.clientId) || IsClientIdFormat(c.clientId.value))
    && (IsBlank(c.phoneNumber) || IsPhoneFormat(c.phoneNumber.value))
    && (IsBlank(c.email) || IsEmailFormat(c.email.value))
    && (IsBlank(c.postalCode) || IsPostalCodeFormat(c.postalCode.value))
  }

  /** Amount, duration and discount lie within their bounds, and a present region is a known one. */
  predicate WithinBusinessBounds(c: Contract) {
    && (c.amount.None? || MinAmount <= c.amount.value <= MaxAmount)
    && (c.durationMonths.None? || MinDurationMonths <= c.durationMonths.value <= MaxDurationMonths)
    && (IsBlank(c.region) || IsValidRegion(c.region.value))
    && (c.discountPercentage.None? || 0.0 <= c.discountPercentage.value <= 100.0)
  }

  /** Creation is not in the future, dates are ordered, ACTIVE is consistent, no ENTERPRISE sold ONLINE. */
  predicate DataConsistent(c: Contract, today: int) {
    && (c.creationDate.None? || c.creationDate.value <= today)
    && (c.activationDate.None? || c.creationDate.None? || c.creationDate.value <= c.activationDate.value)
    && (c.expirationDate.None? || c.activationDate.None? || c.activationDate.value <= c.expirationDate.value)
    && (c.status == Some(Active) ==>
          c.activationDate.Some? && (c.expirationDate.None? || today <= c.expirationDate.value))
    && !(c.contractType == Some(Enterprise) && c.salesChannel == Some(Online))
  }

  /** The conditions under which the validator reports nothing. */
  predicate IsAcceptable(c: Contract, today: int) {
    MandatoryPresent(c) && FormatsMatch(c) && WithinBusinessBounds(c) && DataConsistent(c, today)
  }

  /** An acceptable contract fails no check. */
  lemma AcceptableFailsNoCheck(c: Contract, today: int, k: CheckKind)
    requires IsAcceptable(c, today)
    ensures !Fails(k, c, today)
  {
  }

  lemma NoFailureMeansMandatoryPresent(c: Contract, today: int)
    requires forall k :: !Fails(k, c, today)
    ensures MandatoryPresent(c)
  {
    assert !Fails(ContractIdRequired, c, today) && !Fails(ClientIdRequired, c, today);
    assert !Fails(ClientNameRequired, c, today) && !Fails(ContractTypeRequired, c, today);
    assert !Fails(AmountRequired, c, today) && !Fails(CreationDateRequired, c, today);
    assert !Fails(StatusRequired, c, today) && !Fails(RegionRequired, c, today);
  }

  lemma NoFailureMeansFormatsMatch(c: Contract, today: int)
    requires forall k :: !Fails(k, c, today)
    ensures FormatsMatch(c)
  {
    assert !Fails(ContractIdMalformed, c, today) && !Fails(ClientIdMalformed, c, today);
    assert !Fails(PhoneMalformed, c, today) && !Fails(EmailMalformed, c, today);
    assert !Fails(PostalCodeMalformed, c, today);
  }

  lemma NoFailureMeansWithinBounds(c: Contract, today: int)
    requires forall k :: !Fails(k, c, today)
    ensures WithinBusinessBounds(c)
  {
    assert !Fails(AmountNegative, c, today) && !Fails(AmountTooLarge, c, today);
    assert !Fails(DurationTooShort, c, today) && !Fails(DurationTooLong, c, today);
    assert !Fails(RegionUnknown, c, today);
    assert !Fails(DiscountNegative, c, today) && !Fails(DiscountTooLarge, c, today);
  }

  lemma NoFailureMeansConsistent(c: Contract, today: int)
    requires forall k :: !Fails(k, c, today)
    ensures DataConsistent(c, today)
  {
    assert !Fails(CreationInFuture, c, today) && !Fails(ActivationBeforeCreation, c, today);
    assert !Fails(ExpirationBeforeActivation, c, today) && !Fails(ActiveWithoutActivation, c, today);
    assert !Fails(ActiveButExpired, c, today) && !Fails(EnterpriseSoldOnline, c, today);
  }

  /** A contract that fails no check is acceptable. */
  lemma NoFailureMeansAcceptable(c: Contract, today: int)
    requires forall k :: !Fails(k, c, today)
    ensures IsAcceptable(c, today)
  {
    NoFailureMeansMandatoryPresent(c, today);
    NoFailureMeansFormatsMatch(c, today);
    NoFailureMeansWithinBounds(c, today);
    NoFailureMeansConsistent(c, today);
  }

  /** No check of the run fails exactly when the contract is acceptable. */
  lemma NoCheckFailsIff(c: Contract, today: int)
    ensures (forall k :: k in AllChecks ==> !Fails(k, c, today)) <==> IsAcceptable(c, today)
  {
    if forall k :: k in AllChecks ==> !Fails(k, c, today) {
      forall k | true ensures !Fails(k, c, today) {
        EveryCheckRuns(k);
      }
      NoFailureMeansAcceptable(c, today);
    }
    if IsAcceptable(c, today) {
      forall k | k in AllChecks ensures !Fails(k, c, today) {
        AcceptableFailsNoCheck(c, today, k);
      }
    }
  }

  /**
   * `validate`: a null contract gives the single "contract" error; otherwise the four
   * groups of checks run in order and all their errors are kept.
   */
  function Validate(contract: Option<Contract>, line: Option<int>, today: int): (r: seq<ErrorInfo>)
    ensures AllValidationErrorsAt(r, line)
    ensures contract.None? ==> |r| == 1 && r[0].fieldName == Some(FieldName(ContractField))
                               && r[0].message == Some("Le contrat ne peut pas être null")
    ensures contract.Some? ==> (r == [] <==> IsAcceptable(contract.value, today))
  {
    match contract
    case None => [ValidationError(FieldName(ContractField), NullText, "Le contrat ne peut pas être null", line)]
    case Some(c) =>
      NoCheckFailsIff(c, today);
      Emit(AllChecks, c, line, today)
  }

  /** Each error of a contract's validation is the error of a failing check, and each failing check is reported. */
  lemma ErrorsAreFailingChecks(c: Contract, line: Option<int>, today: int)
    ensures forall e :: e in Validate(Some(c), line, today) <==>
              exists k :: Fails(k, c, today) && e == ErrorOf(k, c, line)
  {
    forall k | true ensures k in AllChecks {
      EveryCheckRuns(k);
    }
  }

  /** Some error of the list is about `field`. */
  predicate Flags(errors: seq<ErrorInfo>, field: Field) {
    exists e :: e in errors && e.fieldName == Some(FieldName(field))
  }

  /** A field is flagged exactly when one of its checks fails. */
  lemma FlagsIff(c: Contract, line: Option<int>, today: int, field: Field)
    ensures Flags(Validate(Some(c), line, today), field) <==> exists k :: Fails(k, c, today) && FieldOf(k) == field
  {
    ErrorsAreFailingChecks(c, line, today);
    var r := Validate(Some(c), line, today);
    if Flags(r, field) {
      var e :| e in r && e.fieldName == Some(FieldName(field));
      var k :| Fails(k, c, today) && e == ErrorOf(k, c, line);
      FieldNamesAreDistinct(FieldOf(k), field);
    }
    if exists k :: Fails(k, c, today) && FieldOf(k) == field {
      var k :| Fails(k, c, today) && FieldOf(k) == field;
      assert ErrorOf(k, c, line) in r;
    }
  }

  /** The checks about the amount fail exactly when it is missing or outside [0, 1,000,000]. */
  lemma AmountChecksFailIff(c: Contract, today: int)
    ensures (exists k :: Fails(k, c, today) && FieldOf(k) == AmountField) <==>
              c.amount.None? || c.amount.value < MinAmount || c.amount.value > MaxAmount
  {
    if c.amount.None? {
      assert Fails(AmountRequired, c, today);
    } else if c.amount.value < MinAmount {
      assert Fails(AmountNegative, c, today);
    } else if c.amount.value > MaxAmount {
      assert Fails(AmountTooLarge, c, today);
    }
  }

  /** The amount is flagged exactly when it is missing or outside [0, 1,000,000]. */
  lemma AmountFlaggedIff(c: Contract, line: Option<int>, today: int)
    ensures Flags(Validate(Some(c), line, today), AmountField) <==>
              c.amount.None? || c.amount.value < MinAmount || c.amount.value > MaxAmount
  {
    FlagsIff(c, line, today, AmountField);
    AmountChecksFailIff(c, today);
  }

  lemma SalesChannelChecksFailIff(c: Contract, today: int)
    ensures (exists k :: Fails(k, c, today) && FieldOf(k) == SalesChannelField) <==>
              c.contractType == Some(Enterprise) && c.salesChannel == Some(Online)
  {
    if c.contractType == Some(Enterprise) && c.salesChannel == Some(Online) {
      assert Fails(EnterpriseSoldOnline, c, today);
    }
  }

  /** The sales channel is flagged exactly for ENTERPRISE contracts sold ONLINE. */
  lemma SalesChannelFlaggedIff(c: Contract, line: Option<int>, today: int)
    ensures Flags(Validate(Some(c), line, today), SalesChannelField) <==>
              c.contractType == Some(Enterprise) && c.salesChannel == Some(Online)
  {
    FlagsIff(c, line, today, SalesChannelField);
    SalesChannelChecksFailIff(c, today);
  }

  /** On a blank id, the only failing check about the id is the mandatory one. */
  lemma BlankIdChecks(c: Contract, today: int, k: CheckKind)
    requires Fails(k, c, today)
    ensures FieldOf(k) == ContractIdField && IsBlank(c.contractId) ==> k == ContractIdRequired
    ensures FieldOf(k) == ClientIdField && IsBlank(c.clientId) ==> k == ClientIdRequired
  {
  }

  /** A blank contract id gets the mandatory-field error and never the format error. */
  lemma BlankContractIdIsOnlyMandatory(c: Contract, line: Option<int>, today: int)
    requires IsBlank(c.contractId)
    ensures ErrorOf(ContractIdRequired, c, line) in Validate(Some(c), line, today)
    ensures forall e :: e in Validate(Some(c), line, today) && e.fieldName == Some(FieldName(ContractIdField)) ==>
              e.message == Some(MessageOf(ContractIdRequired))
  {
    ErrorsAreFailingChecks(c, line, today);
    forall e | e in Validate(Some(c), line, today) && e.fieldName == Some(FieldName(ContractIdField))
      ensures e.message == Some(MessageOf(ContractIdRequired))
    {
      var k :| Fails(k, c, today) && e == ErrorOf(k, c, line);
      FieldNamesAreDistinct(FieldOf(k), ContractIdField);
      BlankIdChecks(c, today, k);
    }
  }

  /** A blank client id gets the mandatory-field error and never the format error. */
  lemma BlankClientIdIsOnlyMandatory(c: Contract, line: Option<int>, today: int)
    requires IsBlank(c.clientId)
    ensures ErrorOf(ClientIdRequired, c, line) in Validate(Some(c), line, today)
    ensures forall e :: e in Validate(Some(c), line, today) && e.fieldName == Some(FieldName(ClientIdField)) ==>
              e.message == Some(MessageOf(ClientIdRequired))
  {
    ErrorsAreFailingChecks(c, line, today);
    forall e | e in Validate(Some(c), line, today) && e.fieldName == Some(FieldName(ClientIdField))
      ensures e.message == Some(MessageOf(ClientIdRequired))
    {
      var k :| Fails(k, c, today) && e == ErrorOf(k, c, line);
      FieldNamesAreDistinct(FieldOf(k), ClientIdField);
      BlankIdChecks(c, today, k);
    }
  }

  /** An ACTIVE contract without an activation date is flagged on "activationDate". */
  lemma ActiveNeedsActivationDate(c: Contract, line: Option<int>, today: int)
    requires c.status == Some(Active) && c.activationDate.None?
    ensures ErrorOf(ActiveWithoutActivation, c, line) in Validate(Some(c), line, today)
    ensures Flags(Validate(Some(c), line, today), ActivationDateField)
  {
    ErrorsAreFailingChecks(c, line, today);
    assert Fails(ActiveWithoutActivation, c, today);
  }

  /** Checks do not stop at the first failure: a negative amount and a too-long duration are both reported. */
  lemma ErrorsAccumulate(c: Contract, line: Option<int>, today: int)
    requires c.amount.Some? && c.amount.value < MinAmount
    requires c.durationMonths.Some? && c.durationMonths.value > MaxDurationMonths
    ensures ErrorOf(AmountNegative, c, line) in Validate(Some(c), line, today)
    ensures ErrorOf(DurationTooLong, c, line) in Validate(Some(c), line, today)
    ensures |Validate(Some(c), line, today)| >= 2
  {
    ErrorsAreFailingChecks(c, line, today);
    assert Fails(AmountNegative, c, today) && Fails(DurationTooLong, c, today);
    var r := Validate(Some(c), line, today);
    var a, d := ErrorOf(AmountNegative, c, line), ErrorOf(DurationTooLong, c, line);
    assert a != d by {
      assert a.message != d.message;
    }
    TwoDistinctMembers(r, a, d);
  }

  lemma TwoDistinctMembers<T>(s: seq<T>, a: T, b: T)
    requires a in s && b in s && a != b
    ensures |s| >= 2
  {
    var i :| 0 <= i < |s| && s[i] == a;
    var j :| 0 <= j < |s| && s[j] == b;
    assert i != j;
  }

  // ---------------------------------------------------------------------------
  // quick check and critical errors

  /** `isValidBasic`: present ids, a strictly positive amount, a type and a status. */
  predicate IsValidBasic(contract: Option<Contract>) {
    && contract.Some?
    && !IsBlank(contract.value.contractId)
    && !IsBlank(contract.value.clientId)
    && contract.value.amount.Some? && contract.value.amount.value > 0.0
    && contract.value.contractType.Some?
    && contract.value.status.Some?
  }

  /** A contract the full validation accepts passes the quick check unless its amount is exactly zero. */
  lemma FullValidationImpliesBasic(c: Contract, line: Option<int>, today: int)
    requires Validate(Some(c), line, today) == []
    ensures IsValidBasic(Some(c)) <==> c.amount.value != 0.0
  {
  }

  /** `isCriticalField` */
  predicate IsCriticalField(name: string) {
    name in CriticalFields
  }

  /** The critical fields, as fields. */
  lemma CriticalFieldsAre(f: Field)
    ensures IsCriticalField(FieldName(f)) <==>
              f == ContractIdField || f == ClientIdField || f == AmountField || f == ContractTypeField || f == StatusField
  {
    FieldNamesAreDistinct(f, ContractIdField);
    FieldNamesAreDistinct(f, ClientIdField);
    FieldNamesAreDistinct(f, AmountField);
    FieldNamesAreDistinct(f, ContractTypeField);
    FieldNamesAreDistinct(f, StatusField);
    assert CriticalFields == [FieldName(ContractIdField), FieldName(ClientIdField), FieldName(AmountField),
                              FieldName(ContractTypeField), FieldName(StatusField)];
  }

  /**
   * The source compares field names with `List.contains`, which throws on a null name,
   * so every validation-typed error handed to `countCriticalErrors` must name its field.
   */
  predicate ValidationErrorsNamed(errors: seq<ErrorInfo>) {
    forall e :: e in errors && e.errorType == Some(Validation) ==> e.fieldName.Some?
  }

  predicate IsCritical(e: ErrorInfo)
    requires e.errorType == Some(Validation) ==> e.fieldName.Some?
  {
    e.errorType == Some(Validation) && IsCriticalField(e.fieldName.value)
  }

  /** `countCriticalErrors`: the validation errors on contractId, clientId, amount, contractType or status. */
  function CountCriticalErrors(errors: seq<ErrorInfo>): (n: nat)
    requires ValidationErrorsNamed(errors)
    ensures n <= |errors|
    ensures n == 0 <==> forall e :: e in errors ==> !IsCritical(e)
    ensures n == |errors| <==> forall e :: e in errors ==> IsCritical(e)
    ensures |errors| == 1 ==> (n == 1 <==> IsCritical(errors[0]))
  {
    if |errors| == 0 then 0
    else
      var last := errors[|errors| - 1];
      assert errors == errors[..|errors| - 1] + [last];
      CountCriticalErrors(errors[..|errors| - 1]) + (if IsCritical(last) then 1 else 0)
  }

  /** The positions of the critical errors in a list. */
  function CriticalPositions(errors: seq<ErrorInfo>): set<nat>
    requires ValidationErrorsNamed(errors)
  {
    set i: nat | i < |errors| && IsCritical(errors[i])
  }

  /** A prefix of a list whose validation errors name their fields has the same property. */
  lemma NamedPrefix(errors: seq<ErrorInfo>, n: nat)
    requires ValidationErrorsNamed(errors) && n <= |errors|
    ensures ValidationErrorsNamed(errors[..n])
  {
    forall e | e in errors[..n] ensures e in errors {
    }
  }

  /** The critical positions of a list are those of its front plus, perhaps, the last index. */
  lemma CriticalPositionsSnoc(errors: seq<ErrorInfo>)
    requires |errors| > 0 && ValidationErrorsNamed(errors)
    ensures ValidationErrorsNamed(errors[..|errors| - 1])
    ensures CriticalPositions(errors) == CriticalPositions(errors[..|errors| - 1])
              + (if IsCritical(errors[|errors| - 1]) then {|errors| - 1} else {})
  {
    var front := errors[..|errors| - 1];
    NamedPrefix(errors, |errors| - 1);
    forall i: nat | i < |front| ensures errors[i] == front[i] {
    }
  }

  /** The count is the number of positions that hold a critical error. */
  lemma {:induction false} CountCriticalErrorsIsCardinality(errors: seq<ErrorInfo>)
    requires ValidationErrorsNamed(errors)
    ensures CountCriticalErrors(errors) == |CriticalPositions(errors)|
  {
    if |errors| == 0 {
      assert CriticalPositions(errors) == {};
    } else {
      var front := errors[..|errors| - 1];
      CriticalPositionsSnoc(errors);
      CountCriticalErrorsIsCardinality(front);
      var extra: set<nat> := if IsCritical(errors[|errors| - 1]) then {|errors| - 1} else {};
      assert CriticalPositions(front) !! extra;
    }
  }

  /** Counting is additive over the concatenation of two error lists. */
  lemma {:induction false} CountCriticalErrorsAppend(a: seq<ErrorInfo>, b: seq<ErrorInfo>)
    requires ValidationErrorsNamed(a) && ValidationErrorsNamed(b)
    ensures ValidationErrorsNamed(a + b)
    ensures CountCriticalErrors(a + b) == CountCriticalErrors(a) + CountCriticalErrors(b)
    decreases |b|
  {
    if |b| > 0 {
      var b' := b[..|b| - 1];
      assert (a + b)[..|a + b| - 1] == a + b';
      NamedPrefix(b, |b| - 1);
      CountCriticalErrorsAppend(a, b');
    } else {
      assert a + b == a;
    }
  }

  /** The critical fields pass every check that concerns them. */
  predicate CriticalFieldsAcceptable(c: Contract, today: int) {
    && !IsBlank(c.contractId) && IsContractIdFormat(c.contractId.value)
    && !IsBlank(c.clientId) && IsClientIdFormat(c.clientId.value)
    && c.contractType.Some?
    && c.amount.Some? && MinAmount <= c.amount.value <= MaxAmount
    && c.status.Some?
    && !(c.status == Some(Active) && c.expirationDate.Some? && c.expirationDate.value < today)
  }

  /** A check about contractId, clientId, amount, contractType or status. */
  predicate IsCriticalCheck(k: CheckKind) {
    FieldOf(k) in {ContractIdField, ClientIdField, AmountField, ContractTypeField, StatusField}
  }

  /** Some critical check fails exactly when the critical fields are not acceptable. */
  lemma CriticalChecksFailIff(c: Contract, today: int)
    ensures (exists k :: Fails(k, c, today) && IsCriticalCheck(k)) <==> !CriticalFieldsAcceptable(c, today)
  {
    if !CriticalFieldsAcceptable(c, today) {
      if IsBlank(c.contractId) {
        assert Fails(ContractIdRequired, c, today);
      } else if !IsContractIdFormat(c.contractId.value) {
        assert Fails(ContractIdMalformed, c, today);
      } else if IsBlank(c.clientId) {
        assert Fails(ClientIdRequired, c, today);
      } else if !IsClientIdFormat(c.clientId.value) {
        assert Fails(ClientIdMalformed, c, today);
      } else if c.contractType.None? {
        assert Fails(ContractTypeRequired, c, today);
      } else if c.amount.None? {
        assert Fails(AmountRequired, c, today);
      } else if c.amount.value < MinAmount {
        assert Fails(AmountNegative, c, today);
      } else if c.amount.value > MaxAmount {
        assert Fails(AmountTooLarge, c, today);
      } else if c.status.None? {
        assert Fails(StatusRequired, c, today);
      } else {
        assert Fails(ActiveButExpired, c, today);
      }
    }
  }

  /** An error of the validator is critical exactly when its check is. */
  lemma CriticalErrorIffCriticalCheck(c: Contract, line: Option<int>, k: CheckKind)
    ensures IsCritical(ErrorOf(k, c, line)) <==> IsCriticalCheck(k)
  {
    CriticalFieldsAre(FieldOf(k));
  }

  /** The validator's output has no critical error exactly when the critical fields are acceptable. */
  lemma NoCriticalErrorsIff(c: Contract, line: Option<int>, today: int)
    ensures ValidationErrorsNamed(Validate(Some(c), line, today))
    ensures CountCriticalErrors(Validate(Some(c), line, today)) == 0 <==> CriticalFieldsAcceptable(c, today)
  {
    ErrorsAreFailingChecks(c, line, today);
    CriticalChecksFailIff(c, today);
    var r := Validate(Some(c), line, today);
    if exists k :: Fails(k, c, today) && IsCriticalCheck(k) {
      var k :| Fails(k, c, today) && IsCriticalCheck(k);
      CriticalErrorIffCriticalCheck(c, line, k);
      assert ErrorOf(k, c, line) in r;
    }
    forall e | e in r && IsCritical(e)
      ensures exists k :: Fails(k, c, today) && IsCriticalCheck(k)
    {
      var k :| Fails(k, c, today) && e == ErrorOf(k, c, line);
      CriticalErrorIffCriticalCheck(c, line, k);
    }
  }
}
