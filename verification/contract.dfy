/**
 * The contract record read from each data line: its enumerations, builder defaults,
 * and the date and discount helpers. Amounts and percentages are exact decimals
 * (`real`), dates are epoch days, and "today" is a parameter rather than a clock read.
 */
module ContractModel {
  import opened Wrappers
  import opened Text

  datatype ContractType =
    | Mobile | Fixe | Internet | Adsl | Fibre | Satellite | Enterprise | Government

  datatype ContractStatus =
    | Draft | Pending | Active | Suspended | Cancelled | Expired | Renewed
  {
    predicate IsActive() {
      this == Active
    }

    predicate IsInactive() {
      this == Cancelled || this == Expired || this == Suspended
    }
  }

  datatype SalesChannel = Online | Boutique | Telephone | Partenaire | Direct

  /** The Java constant name of each enumeration value (`Enum.name()`). */
  function TypeName(t: ContractType): string {
    match t
    case Mobile => "MOBILE"
    case Fixe => "FIXE"
    case Internet => "INTERNET"
    case Adsl => "ADSL"
    case Fibre => "FIBRE"
    case Satellite => "SATELLITE"
    case Enterprise => "ENTERPRISE"
    case Government => "GOVERNMENT"
  }

  function StatusName(s: ContractStatus): string {
    match s
    case Draft => "DRAFT"
    case Pending => "PENDING"
    case Active => "ACTIVE"
    case Suspended => "SUSPENDED"
    case Cancelled => "CANCELLED"
    case Expired => "EXPIRED"
    case Renewed => "RENEWED"
  }

  function ChannelName(c: SalesChannel): string {
    match c
    case Online => "ONLINE"
    case Boutique => "BOUTIQUE"
    case Telephone => "TELEPHONE"
    case Partenaire => "PARTENAIRE"
    case Direct => "DIRECT"
  }

  /** `ContractType.valueOf`: exact, case-sensitive match of a constant name. */
  function TypeFromName(s: string): (r: Option<ContractType>)
    ensures r.Some? ==> TypeName(r.value) == s
  {
    if s == "MOBILE" then Some(Mobile)
    else if s == "FIXE" then Some(Fixe)
    else if s == "INTERNET" then Some(Internet)
    else if s == "ADSL" then Some(Adsl)
    else if s == "FIBRE" then Some(Fibre)
    else if s == "SATELLITE" then Some(Satellite)
    else if s == "ENTERPRISE" then Some(Enterprise)
    else if s == "GOVERNMENT" then Some(Government)
    else None
  }

  function StatusFromName(s: string): (r: Option<ContractStatus>)
    ensures r.Some? ==> StatusName(r.value) == s
  {
    if s == "DRAFT" then Some(Draft)
    else if s == "PENDING" then Some(Pending)
    else if s == "ACTIVE" then Some(Active)
    else if s == "SUSPENDED" then Some(Suspended)
    else if s == "CANCELLED" then Some(Cancelled)
    else if s == "EXPIRED" then Some(Expired)
    else if s == "RENEWED" then Some(Renewed)
    else None
  }

  function ChannelFromName(s: string): (r: Option<SalesChannel>)
    ensures r.Some? ==> ChannelName(r.value) == s
  {
    if s == "ONLINE" then Some(Online)
    else if s == "BOUTIQUE" then Some(Boutique)
    else if s == "TELEPHONE" then Some(Telephone)
    else if s == "PARTENAIRE" then Some(Partenaire)
    else if s == "DIRECT" then Some(Direct)
    else None
  }

  /** `valueOf` accepts exactly the constant names: lookup inverts naming. */
  lemma EnumNamesRoundTrip(t: ContractType, s: ContractStatus, c: SalesChannel)
    ensures TypeFromName(TypeName(t)) == Some(t)
    ensures StatusFromName(StatusName(s)) == Some(s)
    ensures ChannelFromName(ChannelName(c)) == Some(c)
  {
  }

  /** At most one of `isActive` / `isInactive` holds; DRAFT, PENDING and RENEWED satisfy neither. */
  lemma ActiveAndInactiveAreExclusive(s: ContractStatus)
    ensures !(s.IsActive() && s.IsInactive())
    ensures s in {Draft, Pending, Renewed} <==> !s.IsActive() && !s.IsInactive()
  {
  }

  datatype Contract = Contract(
    contractId: Option<string>,
    clientId: Option<string>,
    clientName: Option<string>,
    contractType: Option<ContractType>,
    amount: Option<real>,
    creationDate: Option<int>,
    activationDate: Option<int>,
    expirationDate: Option<int>,
    status: Option<ContractStatus>,
    region: Option<string>,
    city: Option<string>,
    postalCode: Option<string>,
    phoneNumber: Option<string>,
    email: Option<string>,
    durationMonths: Option<int>,
    salesChannel: Option<SalesChannel>,
    salesAgentId: Option<string>,
    comments: Option<string>,
    externalReference: Option<string>,
    version: Option<int>,
    isPrepaid: Option<bool>,
    discountPercentage: Option<real>)

  /** `Contract.builder().build()`: every field null except the three builder defaults. */
  function Builder(): (c: Contract)
    ensures c.discountPercentage == Some(0.0) && c.version == Some(1) && c.isPrepaid == Some(false)
    ensures c.contractId.None? && c.clientId.None? && c.clientName.None? && c.contractType.None?
    ensures c.amount.None? && c.creationDate.None? && c.activationDate.None? && c.expirationDate.None?
    ensures c.status.None? && c.region.None? && c.city.None? && c.postalCode.None?
    ensures c.phoneNumber.None? && c.email.None? && c.durationMonths.None? && c.salesChannel.None?
    ensures c.salesAgentId.None? && c.comments.None? && c.externalReference.None?
  {
    Contract(None, None, None, None, None, None, None, None, None, None, None,
             None, None, None, None, None, None, None, None, Some(1), Some(false), Some(0.0))
  }

  /** `getDiscountedAmount`: the amount less `discountPercentage` percent of it. */
  function DiscountedAmount(c: Contract): (r: Option<real>)
    ensures c.amount.None? || c.discountPercentage.None? ==> r == c.amount
    ensures c.amount.Some? && c.discountPercentage == Some(0.0) ==> r == c.amount
    ensures c.amount.Some? && c.discountPercentage == Some(100.0) ==> r == Some(0.0)
    ensures c.amount.Some? && c.discountPercentage.Some?
            && c.amount.value >= 0.0 && 0.0 <= c.discountPercentage.value <= 100.0
            ==> r.Some? && 0.0 <= r.value <= c.amount.value
    ensures c.amount.Some? && c.discountPercentage.Some? ==>
              r == Some(c.amount.value * (100.0 - c.discountPercentage.value) / 100.0)
  {
    if c.amount.None? || c.discountPercentage.None? then c.amount
    else
      var a := c.amount.value;
      var discount := a * c.discountPercentage.value / 100.0;
      assert 0.0 <= c.discountPercentage.value <= 100.0 && a >= 0.0 ==>
               0.0 <= a * c.discountPercentage.value <= a * 100.0;
      assert a - discount == c.amount.value * (100.0 - c.discountPercentage.value) / 100.0;
      Some(a - discount)
  }

  /** `isValid`: a contract without expiration is always valid, otherwise until its expiration day inclusive. */
  predicate IsValidOn(c: Contract, today: int) {
    c.expirationDate.None? || today < c.expirationDate.value || today == c.expirationDate.value
  }

  /** `getAgeInDays`: days elapsed since creation, 0 when the creation date is unknown. */
  function AgeInDays(c: Contract, today: int): (r: int)
    ensures c.creationDate.None? ==> r == 0
    ensures c.creationDate.Some? ==> c.creationDate.value + r == today
  {
    if c.creationDate.None? then 0 else today - c.creationDate.value
  }

  /** `isEligibleForRenewal`: expiring within the next 30 days and still valid. */
  predicate IsEligibleForRenewal(c: Contract, today: int) {
    c.expirationDate.Some? && today + 30 > c.expirationDate.value && IsValidOn(c, today)
  }

  /** Validity is exactly "no expiration, or today is not past it". */
  lemma ValidityWindow(c: Contract, today: int)
    ensures IsValidOn(c, today) <==> c.expirationDate.None? || today <= c.expirationDate.value
  {
  }

  /** Renewal eligibility is the 30-day window `today <= expiration < today + 30`, so it implies validity. */
  lemma RenewalWindow(c: Contract, today: int)
    ensures IsEligibleForRenewal(c, today) <==>
              c.expirationDate.Some? && today <= c.expirationDate.value < today + 30
    ensures IsEligibleForRenewal(c, today) ==> IsValidOn(c, today)
  {
  }
}
