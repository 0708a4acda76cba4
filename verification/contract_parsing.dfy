/**
 * The row-level half of the partition processor: the expected header row and the
 * parsing of one 17-column data row into a contract. The decimal and date grammars
 * (`new BigDecimal(text)` and `LocalDate.parse(text, "yyyy-MM-dd")`) are parameters:
 * the model fixes where and on what text they are called, not what they accept.
 */
module ContractParsing {
  import opened Wrappers
  import opened Text
  import CM = ContractModel

  const ExpectedHeaders: seq<string> := [
    "contractId", "clientId", "clientName", "contractType", "amount",
    "creationDate", "activationDate", "expirationDate", "status",
    "region", "city", "postalCode", "phoneNumber", "email",
    "durationMonths", "salesChannel", "salesAgentId"]

  /** The number of columns a data row must have at least. */
  const ColumnCount: nat := 17

  // ---------------------------------------------------------------------------
  // header row

  /** Column `i` of `headers` names `expected[i]`, up to surrounding blanks and case. */
  predicate HeaderMatches(expected: seq<string>, headers: seq<string>, i: nat)
    requires i < |expected| <= |headers|
  {
    EqualsIgnoreCase(expected[i], Trim(headers[i]))
  }

  /** At least as many columns as expected, each expected name matched in its position. */
  predicate HeadersMatch(expected: seq<string>, headers: seq<string>) {
    |headers| >= |expected| && forall i :: 0 <= i < |expected| ==> HeaderMatches(expected, headers, i)
  }

  /** `validateHeaders`: the first 17 columns carry the expected names; extra columns are allowed. */
  predicate HeadersAccepted(headers: seq<string>) {
    HeadersMatch(ExpectedHeaders, headers)
  }

  /** The scan of `validateHeaders`: stop at the first column that does not match. */
  method MatchHeaders(expected: seq<string>, headers: seq<string>) returns (ok: bool)
    ensures ok <==> HeadersMatch(expected, headers)
  {
    if |headers| < |expected| {
      return false;
    }
    var i := 0;
    while i < |expected|
      invariant 0 <= i <= |expected|
      invariant forall j :: 0 <= j < i ==> HeaderMatches(expected, headers, j)
    {
      if !HeaderMatches(expected, headers, i) {
        return false;
      }
      i := i + 1;
    }
    return true;
  }

  /** `validateHeaders` as written: the scan run against the 17 expected names. */
  method ValidateHeaders(headers: seq<string>) returns (ok: bool)
    ensures ok <==> HeadersAccepted(headers)
    ensures ok ==> |headers| >= ColumnCount
  {
    ok := MatchHeaders(ExpectedHeaders, headers);
  }

  /** Only the first 17 columns are examined: extra columns never change the verdict, missing ones always reject. */
  lemma HeadersIgnoreExtraColumns(headers: seq<string>, extra: seq<string>)
    ensures |headers| >= ColumnCount ==> (HeadersAccepted(headers + extra) <==> HeadersAccepted(headers))
    ensures |headers| < ColumnCount ==> !HeadersAccepted(headers)
  {
    if |headers| >= ColumnCount {
      forall i | 0 <= i < ColumnCount
        ensures HeaderMatches(ExpectedHeaders, headers + extra, i) <==> HeaderMatches(ExpectedHeaders, headers, i)
      {
        assert (headers + extra)[i] == headers[i];
      }
    }
  }

  // ---------------------------------------------------------------------------
  // cells

  /** The two text grammars the row parser delegates to. */
  datatype Grammars = Grammars(decimal: string -> Option<real>, date: string -> Option<int>)

  /** `getValue`: the trimmed cell (the CSV reader never yields a null cell). */
  function Cell(line: seq<string>, i: nat): string
    requires i < |line|
  {
    Trim(line[i])
  }

  /** `value.trim().isEmpty()` */
  predicate Empty(v: string) {
    Trim(v) == []
  }

  /** `value.replace(",", ".")` */
  function ReplaceCommas(s: string): (r: string)
    ensures |r| == |s|
    ensures forall i :: 0 <= i < |s| ==> r[i] != ','
    ensures (forall i :: 0 <= i < |s| ==> s[i] != ',') ==> r == s
  {
    seq(|s|, i requires 0 <= i < |s| => if s[i] == ',' then '.' else s[i])
  }

  // ---------------------------------------------------------------------------
  // column parsers: a `Failure` carries the IllegalArgumentException message

  function ParseContractType(v: string): (r: Result<CM.ContractType, string>)
    ensures r.Success? <==> !Empty(v) && CM.TypeFromName(Upper(v)).Some?
    ensures r.Success? ==> CM.TypeName(r.value) == Upper(v)
  {
    if Empty(v) then Failure("Type de contrat requis")
    else match CM.TypeFromName(Upper(v))
      case Some(t) => Success(t)
      case None => Failure("Type de contrat invalide: " + v)
  }

  function ParseAmount(v: string, g: Grammars): (r: Result<real, string>)
    ensures r.Success? <==> !Empty(v) && g.decimal(ReplaceCommas(v)).Some?
    ensures r.Success? ==> g.decimal(ReplaceCommas(v)) == Some(r.value)
  {
    if Empty(v) then Failure("Montant requis")
    else match g.decimal(ReplaceCommas(v))
      case Some(a) => Success(a)
      case None => Failure("Montant invalide: " + v)
  }

  /** A blank date cell is a missing date, not an error. */
  function ParseDate(v: string, g: Grammars): (r: Result<Option<int>, string>)
    ensures r.Success? <==> Empty(v) || g.date(v).Some?
    ensures r.Success? ==> r.value == (if Empty(v) then None else g.date(v))
  {
    if Empty(v) then Success(None)
    else match g.date(v)
      case Some(d) => Success(Some(d))
      case None => Failure("Date invalide: " + v + " (format attendu: yyyy-MM-dd)")
  }

  function ParseContractStatus(v: string): (r: Result<CM.ContractStatus, string>)
    ensures r.Success? <==> !Empty(v) && CM.StatusFromName(Upper(v)).Some?
    ensures r.Success? ==> CM.StatusName(r.value) == Upper(v)
  {
    if Empty(v) then Failure("Statut requis")
    else match CM.StatusFromName(Upper(v))
      case Some(s) => Success(s)
      case None => Failure("Statut invalide: " + v)
  }

  function ParseInteger(v: string): (r: Result<Option<int>, string>)
    ensures r.Success? <==> Empty(v) || ParseInt(v).Some?
    ensures r.Success? ==> r.value == (if Empty(v) then None else ParseInt(v))
  {
    if Empty(v) then Success(None)
    else match ParseInt(v)
      case Some(n) => Success(Some(n))
      case None => Failure("Nombre invalide: " + v)
  }

  function ParseSalesChannel(v: string): (r: Result<Option<CM.SalesChannel>, string>)
    ensures r.Success? <==> Empty(v) || CM.ChannelFromName(Upper(v)).Some?
    ensures r.Success? ==> r.value == (if Empty(v) then None else CM.ChannelFromName(Upper(v)))
  {
    if Empty(v) then Success(None)
    else match CM.ChannelFromName(Upper(v))
      case Some(c) => Success(Some(c))
      case None => Failure("Canal de vente invalide: " + v)
  }

  // ---------------------------------------------------------------------------
  // whole row

  /** A thrown exception as the row loop sees it: its simple class name and its message. */
  datatype Thrown = Thrown(className: string, message: string)

  /** Columns 3 and 4: contract type, then amount. */
  function ParseHead(line: seq<string>, g: Grammars): (r: Result<(CM.ContractType, real), string>)
    requires |line| >= ColumnCount
    ensures r.Success? <==> HeadIsWellFormed(line, g)
    ensures r.Success? ==> r.value == (ParseContractType(Cell(line, 3)).value, ParseAmount(Cell(line, 4), g).value)
  {
    var contractType :- ParseContractType(Cell(line, 3));
    var amount :- ParseAmount(Cell(line, 4), g);
    Success((contractType, amount))
  }

  /** Columns 5 to 7: creation, activation and expiration dates. */
  function ParseDates(line: seq<string>, g: Grammars): (r: Result<(Option<int>, Option<int>, Option<int>), string>)
    requires |line| >= ColumnCount
    ensures r.Success? <==> DatesAreWellFormed(line, g)
    ensures r.Success? ==> r.value == (ParseDate(Cell(line, 5), g).value, ParseDate(Cell(line, 6), g).value,
                                       ParseDate(Cell(line, 7), g).value)
  {
    var creation :- ParseDate(Cell(line, 5), g);
    var activation :- ParseDate(Cell(line, 6), g);
    var expiration :- ParseDate(Cell(line, 7), g);
    Success((creation, activation, expiration))
  }

  /** Columns 8, 14 and 15: status, duration and sales channel. */
  function ParseTail(line: seq<string>): (r: Result<(CM.ContractStatus, Option<int>, Option<CM.SalesChannel>), string>)
    requires |line| >= ColumnCount
    ensures r.Success? <==> TailIsWellFormed(line)
    ensures r.Success? ==> r.value == (ParseContractStatus(Cell(line, 8)).value, ParseInteger(Cell(line, 14)).value,
                                       ParseSalesChannel(Cell(line, 15)).value)
  {
    var status :- ParseContractStatus(Cell(line, 8));
    var duration :- ParseInteger(Cell(line, 14));
    var channel :- ParseSalesChannel(Cell(line, 15));
    Success((status, duration, channel))
  }

  /** The contract the builder chain assembles from the text columns and the parsed ones. */
  function Assemble(line: seq<string>, head: (CM.ContractType, real),
                    dates: (Option<int>, Option<int>, Option<int>),
                    tail: (CM.ContractStatus, Option<int>, Option<CM.SalesChannel>)): CM.Contract
    requires |line| >= ColumnCount
  {
    CM.Builder().(
      contractId := Some(Cell(line, 0)), clientId := Some(Cell(line, 1)),
      clientName := Some(Cell(line, 2)), contractType := Some(head.0),
      amount := Some(head.1), creationDate := dates.0, activationDate := dates.1,
      expirationDate := dates.2, status := Some(tail.0), region := Some(Cell(line, 9)),
      city := Some(Cell(line, 10)), postalCode := Some(Cell(line, 11)),
      phoneNumber := Some(Cell(line, 12)), email := Some(Cell(line, 13)),
      durationMonths := tail.1, salesChannel := tail.2, salesAgentId := Some(Cell(line, 16)))
  }

  /** The builder chain of `parseContract`: typed columns are parsed in column order and the first failure wins. */
  function ParseFields(line: seq<string>, g: Grammars): (r: Result<CM.Contract, string>)
    requires |line| >= ColumnCount
    ensures r.Success? <==> HeadIsWellFormed(line, g) && DatesAreWellFormed(line, g) && TailIsWellFormed(line)
  {
    var head :- ParseHead(line, g);
    var dates :- ParseDates(line, g);
    var tail :- ParseTail(line);
    Success(Assemble(line, head, dates, tail))
  }

  /** Columns 3 and 4 hold a contract type name and an amount. */
  predicate HeadIsWellFormed(line: seq<string>, g: Grammars)
    requires |line| >= ColumnCount
  {
    && !Empty(Cell(line, 3)) && CM.TypeFromName(Upper(Cell(line, 3))).Some?
    && !Empty(Cell(line, 4)) && g.decimal(ReplaceCommas(Cell(line, 4))).Some?
  }

  /** Columns 5 to 7 are blank or dates. */
  predicate DatesAreWellFormed(line: seq<string>, g: Grammars)
    requires |line| >= ColumnCount
  {
    && (Empty(Cell(line, 5)) || g.date(Cell(line, 5)).Some?)
    && (Empty(Cell(line, 6)) || g.date(Cell(line, 6)).Some?)
    && (Empty(Cell(line, 7)) || g.date(Cell(line, 7)).Some?)
  }

  /** Column 8 holds a status name; columns 14 and 15 are blank or a 32-bit integer and a channel name. */
  predicate TailIsWellFormed(line: seq<string>)
    requires |line| >= ColumnCount
  {
    && !Empty(Cell(line, 8)) && CM.StatusFromName(Upper(Cell(line, 8))).Some?
    && (Empty(Cell(line, 14)) || ParseInt(Cell(line, 14)).Some?)
    && (Empty(Cell(line, 15)) || CM.ChannelFromName(Upper(Cell(line, 15))).Some?)
  }

  /** Every typed column holds text its parser accepts. */
  predicate RowIsWellFormed(line: seq<string>, g: Grammars) {
    |line| >= ColumnCount && HeadIsWellFormed(line, g) && DatesAreWellFormed(line, g) && TailIsWellFormed(line)
  }

  predicate Trimmed(s: string) {
    Trim(s) == s
  }

  predicate TrimmedText(s: Option<string>) {
    s.Some? && Trimmed(s.value)
  }

  /**
   * The shape of every contract `parseContract` builds: all text fields present and
   * trimmed, type, amount and status present, a 32-bit duration, and the builder defaults.
   */
  predicate IsParsedShape(c: CM.Contract) {
    && TrimmedText(c.contractId) && TrimmedText(c.clientId) && TrimmedText(c.clientName)
    && TrimmedText(c.region) && TrimmedText(c.city) && TrimmedText(c.postalCode)
    && TrimmedText(c.phoneNumber) && TrimmedText(c.email) && TrimmedText(c.salesAgentId)
    && c.contractType.Some? && c.amount.Some? && c.status.Some?
    && (c.durationMonths.Some? ==> MinInt32 <= c.durationMonths.value <= MaxInt32)
    && c.comments.None? && c.externalReference.None?
    && c.version == Some(1) && c.isPrepaid == Some(false) && c.discountPercentage == Some(0.0)
  }

  /** The contract's fields are the row's trimmed cells, read through the column parsers. */
  predicate ReadsCells(c: CM.Contract, line: seq<string>, g: Grammars)
    requires |line| >= ColumnCount
  {
    && c.contractId == Some(Cell(line, 0)) && c.clientId == Some(Cell(line, 1))
    && c.clientName == Some(Cell(line, 2)) && c.region == Some(Cell(line, 9))
    && c.city == Some(Cell(line, 10)) && c.postalCode == Some(Cell(line, 11))
    && c.phoneNumber == Some(Cell(line, 12)) && c.email == Some(Cell(line, 13))
    && c.salesAgentId == Some(Cell(line, 16))
    && c.contractType.Some? && CM.TypeName(c.contractType.value) == Upper(Cell(line, 3))
    && c.amount == g.decimal(ReplaceCommas(Cell(line, 4)))
    && c.status.Some? && CM.StatusName(c.status.value) == Upper(Cell(line, 8))
    && c.creationDate == (if Empty(Cell(line, 5)) then None else g.date(Cell(line, 5)))
    && c.activationDate == (if Empty(Cell(line, 6)) then None else g.date(Cell(line, 6)))
    && c.expirationDate == (if Empty(Cell(line, 7)) then None else g.date(Cell(line, 7)))
    && c.durationMonths == (if Empty(Cell(line, 14)) then None else ParseInt(Cell(line, 14)))
    && c.salesChannel == (if Empty(Cell(line, 15)) then None else CM.ChannelFromName(Upper(Cell(line, 15))))
  }

  function ParsingPrefix(lineNumber: int): string {
    "Erreur de parsing ligne " + IntToString(lineNumber) + ": "
  }

  function IncompleteLineMessage(columns: nat): string {
    "Ligne incomplète: " + IntToString(columns) + " colonnes, " + IntToString(ColumnCount) + " attendues"
  }

  /**
   * `parseContract`: a short row throws IllegalArgumentException("Ligne incomplète: …");
   * a column parser's failure is rethrown as RuntimeException("Erreur de parsing ligne N: …").
   */
  function ParseContract(line: seq<string>, lineNumber: int, g: Grammars): (r: Result<CM.Contract, Thrown>)
    ensures |line| < ColumnCount ==>
              r == Failure(Thrown("IllegalArgumentException", IncompleteLineMessage(|line|)))
    ensures |line| >= ColumnCount && r.Failure? ==>
              r.error.className == "RuntimeException"
              && |r.error.message| >= |ParsingPrefix(lineNumber)|
              && r.error.message[..|ParsingPrefix(lineNumber)|] == ParsingPrefix(lineNumber)
    ensures r.Success? <==> RowIsWellFormed(line, g)
    ensures r.Success? ==> ReadsCells(r.value, line, g) && IsParsedShape(r.value)
  {
    if |line| < ColumnCount then Failure(Thrown("IllegalArgumentException", IncompleteLineMessage(|line|)))
    else match ParseFields(line, g)
      case Success(c) =>
        ParsedFieldsFacts(line, g);
        Success(c)
      case Failure(message) =>
        Failure(Thrown("RuntimeException", ParsingPrefix(lineNumber) + message))
  }

  lemma ParsedFieldsFacts(line: seq<string>, g: Grammars)
    requires |line| >= ColumnCount
    ensures ParseFields(line, g).Success? ==>
              ReadsCells(ParseFields(line, g).value, line, g) && IsParsedShape(ParseFields(line, g).value)
  {
    if ParseFields(line, g).Success? {
      var head, dates, tail := ParseHead(line, g).value, ParseDates(line, g).value, ParseTail(line).value;
      assert ParseFields(line, g).value == Assemble(line, head, dates, tail);
      AssembleFacts(line, g, head, dates, tail);
    }
  }

  lemma AssembleFacts(line: seq<string>, g: Grammars, head: (CM.ContractType, real),
                      dates: (Option<int>, Option<int>, Option<int>),
                      tail: (CM.ContractStatus, Option<int>, Option<CM.SalesChannel>))
    requires |line| >= ColumnCount
    requires CM.TypeName(head.0) == Upper(Cell(line, 3)) && g.decimal(ReplaceCommas(Cell(line, 4))) == Some(head.1)
    requires dates.0 == (if Empty(Cell(line, 5)) then None else g.date(Cell(line, 5)))
    requires dates.1 == (if Empty(Cell(line, 6)) then None else g.date(Cell(line, 6)))
    requires dates.2 == (if Empty(Cell(line, 7)) then None else g.date(Cell(line, 7)))
    requires CM.StatusName(tail.0) == Upper(Cell(line, 8))
    requires tail.1 == (if Empty(Cell(line, 14)) then None else ParseInt(Cell(line, 14)))
    requires tail.2 == (if Empty(Cell(line, 15)) then None else CM.ChannelFromName(Upper(Cell(line, 15))))
    ensures ReadsCells(Assemble(line, head, dates, tail), line, g)
    ensures IsParsedShape(Assemble(line, head, dates, tail))
  {
    var c := Assemble(line, head, dates, tail);
    assert ReadsCells(c, line, g);
    AssembledTextIsTrimmed(line, c);
  }

  lemma AssembledTextIsTrimmed(line: seq<string>, c: CM.Contract)
    requires |line| >= ColumnCount
    requires c.contractId == Some(Cell(line, 0)) && c.clientId == Some(Cell(line, 1))
    requires c.clientName == Some(Cell(line, 2)) && c.region == Some(Cell(line, 9))
    requires c.city == Some(Cell(line, 10)) && c.postalCode == Some(Cell(line, 11))
    requires c.phoneNumber == Some(Cell(line, 12)) && c.email == Some(Cell(line, 13))
    requires c.salesAgentId == Some(Cell(line, 16))
    ensures TrimmedText(c.contractId) && TrimmedText(c.clientId) && TrimmedText(c.clientName)
    ensures TrimmedText(c.region) && TrimmedText(c.city) && TrimmedText(c.postalCode)
    ensures TrimmedText(c.phoneNumber) && TrimmedText(c.email) && TrimmedText(c.salesAgentId)
  {
    forall i | 0 <= i < ColumnCount ensures Trimmed(Cell(line, i)) {
      TrimIsIdempotent(line[i]);
    }
  }

  /** The contract type is checked first: a blank type column is reported whatever the other columns hold. */
  lemma BlankTypeReportedFirst(line: seq<string>, lineNumber: int, g: Grammars)
    requires |line| >= ColumnCount && Empty(Cell(line, 3))
    ensures ParseContract(line, lineNumber, g) ==
              Failure(Thrown("RuntimeException", ParsingPrefix(lineNumber) + "Type de contrat requis"))
  {
  }

  /** A valid type followed by a blank amount reports the missing amount, whatever comes later. */
  lemma BlankAmountReportedSecond(line: seq<string>, lineNumber: int, g: Grammars)
    requires |line| >= ColumnCount && ParseContractType(Cell(line, 3)).Success? && Empty(Cell(line, 4))
    ensures ParseContract(line, lineNumber, g) ==
              Failure(Thrown("RuntimeException", ParsingPrefix(lineNumber) + "Montant requis"))
  {
  }

  // ---------------------------------------------------------------------------
  // writing a row and reading it back

  /** The text forms a writer of the input file uses for amounts and dates. */
  datatype Printers = Printers(decimal: real -> string, date: int -> string)

  /** A constant name as written: non-empty upper-case ASCII letters. */
  predicate IsConstantName(s: string) {
    |s| > 0 && forall i :: 0 <= i < |s| ==> 'A' <= s[i] <= 'Z'
  }

  /** A constant name survives `getValue` unchanged and is not blank. */
  lemma ConstantNameIsTrimmed(s: string)
    requires IsConstantName(s)
    ensures Trim(s) == s && !Empty(s)
  {
    TrimOfUntrimmed(s);
  }

  /** A constant name is its own upper-case form. */
  lemma ConstantNameIsUpper(s: string)
    requires IsConstantName(s)
    ensures Upper(s) == s
  {
    var u := Upper(s);
    assert |u| == |s| && forall i :: 0 <= i < |s| ==> u[i] == UpperChar(s[i]) == s[i];
  }

  lemma TypeNameIsConstantName(t: CM.ContractType)
    ensures IsConstantName(CM.TypeName(t))
  {
  }

  lemma StatusNameIsConstantName(st: CM.ContractStatus)
    ensures IsConstantName(CM.StatusName(st))
  {
  }

  lemma ChannelNameIsConstantName(ch: CM.SalesChannel)
    ensures IsConstantName(CM.ChannelName(ch))
  {
  }

  /** An amount text the parser reads back: no surrounding blanks, no comma, and the grammar yields `value`. */
  predicate AmountPrintsBack(text: string, g: Grammars, value: real) {
    text != [] && Trimmed(text) && (forall i :: 0 <= i < |text| ==> text[i] != ',') && g.decimal(text) == Some(value)
  }

  /** A date text the parser reads back: no surrounding blanks, and the grammar yields `value`. */
  predicate DatePrintsBack(text: string, g: Grammars, value: int) {
    text != [] && Trimmed(text) && g.date(text) == Some(value)
  }

  function OptionalDate(d: Option<int>, p: Printers): string {
    if d.Some? then p.date(d.value) else ""
  }

  /** Cell `i` of the data row describing `c`, in header order; a missing optional value is an empty cell. */
  function RowCell(c: CM.Contract, p: Printers, i: nat): string
    requires IsParsedShape(c) && i < ColumnCount
  {
    match i
    case 0 => c.contractId.value
    case 1 => c.clientId.value
    case 2 => c.clientName.value
    case 3 => CM.TypeName(c.contractType.value)
    case 4 => p.decimal(c.amount.value)
    case 5 => OptionalDate(c.creationDate, p)
    case 6 => OptionalDate(c.activationDate, p)
    case 7 => OptionalDate(c.expirationDate, p)
    case 8 => CM.StatusName(c.status.value)
    case 9 => c.region.value
    case 10 => c.city.value
    case 11 => c.postalCode.value
    case 12 => c.phoneNumber.value
    case 13 => c.email.value
    case 14 => if c.durationMonths.Some? then IntToString(c.durationMonths.value) else ""
    case 15 => if c.salesChannel.Some? then CM.ChannelName(c.salesChannel.value) else ""
    case _ => c.salesAgentId.value
  }

  /** The 17 cells of a data row describing `c`. */
  function RowOf(c: CM.Contract, p: Printers): (line: seq<string>)
    requires IsParsedShape(c)
    ensures |line| == ColumnCount
  {
    seq(ColumnCount, i requires 0 <= i < ColumnCount => RowCell(c, p, i))
  }

  /** The printers agree with the grammars on the values `c` holds. */
  predicate PrintersAgree(c: CM.Contract, p: Printers, g: Grammars)
    requires IsParsedShape(c)
  {
    && AmountPrintsBack(p.decimal(c.amount.value), g, c.amount.value)
    && (c.creationDate.Some? ==> DatePrintsBack(p.date(c.creationDate.value), g, c.creationDate.value))
    && (c.activationDate.Some? ==> DatePrintsBack(p.date(c.activationDate.value), g, c.activationDate.value))
    && (c.expirationDate.Some? ==> DatePrintsBack(p.date(c.expirationDate.value), g, c.expirationDate.value))
  }

  lemma OptionalDateReadsBack(d: Option<int>, p: Printers, g: Grammars)
    requires d.Some? ==> DatePrintsBack(p.date(d.value), g, d.value)
    ensures Trim(OptionalDate(d, p)) == OptionalDate(d, p)
    ensures (if Empty(OptionalDate(d, p)) then None else g.date(OptionalDate(d, p))) == d
    ensures Empty(OptionalDate(d, p)) <==> d.None?
  {
    if d.None? {
      TrimOfUntrimmed("");
    }
  }

  /** A constant-name cell is trimmed and reads back, ignoring case, as the constant. */
  lemma NameCellReadsBack(s: string)
    requires IsConstantName(s)
    ensures Trim(s) == s && !Empty(s) && Upper(s) == s
  {
    ConstantNameIsTrimmed(s);
    ConstantNameIsUpper(s);
  }

  /** Each cell of a written row is already trimmed, and the typed cells read back as the contract's values. */
  lemma RowOfCells(c: CM.Contract, p: Printers, g: Grammars, line: seq<string>)
    requires IsParsedShape(c) && PrintersAgree(c, p, g) && line == RowOf(c, p)
    ensures forall i :: 0 <= i < ColumnCount ==> Cell(line, i) == line[i]
    ensures ParseHead(line, g) == Success((c.contractType.value, c.amount.value))
    ensures ParseDates(line, g) == Success((c.creationDate, c.activationDate, c.expirationDate))
    ensures ParseTail(line) == Success((c.status.value, c.durationMonths, c.salesChannel))
  {
    TextCellsOfRow(c, p, line);
    TypedCellsOfRow(c, p, g, line);
    CellsOfTrimmedRow(line);
    NamedCellsOfRow(c, p, line);
    HeadOfRow(c, p, g, line);
    DatesOfRow(c, g, line);
    TailOfRow(c, line);
  }

  /** When each of the 17 cells is its own trim, every cell reads as written. */
  lemma CellsOfTrimmedRow(line: seq<string>)
    requires |line| == ColumnCount
    requires Trim(line[0]) == line[0] && Trim(line[1]) == line[1] && Trim(line[2]) == line[2]
    requires Trim(line[3]) == line[3] && Trim(line[4]) == line[4] && Trim(line[5]) == line[5]
    requires Trim(line[6]) == line[6] && Trim(line[7]) == line[7] && Trim(line[8]) == line[8]
    requires Trim(line[9]) == line[9] && Trim(line[10]) == line[10] && Trim(line[11]) == line[11]
    requires Trim(line[12]) == line[12] && Trim(line[13]) == line[13] && Trim(line[14]) == line[14]
    requires Trim(line[15]) == line[15] && Trim(line[16]) == line[16]
    ensures forall i :: 0 <= i < ColumnCount ==> Cell(line, i) == line[i]
  {
  }

  lemma NamedCellsOfRow(c: CM.Contract, p: Printers, line: seq<string>)
    requires IsParsedShape(c) && line == RowOf(c, p)
    ensures line[3] == CM.TypeName(c.contractType.value) && line[4] == p.decimal(c.amount.value)
    ensures line[8] == CM.StatusName(c.status.value)
    ensures c.salesChannel.Some? ==> line[15] == CM.ChannelName(c.salesChannel.value)
  {
    assert line[3] == RowCell(c, p, 3) && line[4] == RowCell(c, p, 4);
    assert line[8] == RowCell(c, p, 8) && line[15] == RowCell(c, p, 15);
  }

  lemma DatesOfRow(c: CM.Contract, g: Grammars, line: seq<string>)
    requires |line| == ColumnCount
    requires Cell(line, 5) == line[5] && Cell(line, 6) == line[6] && Cell(line, 7) == line[7]
    requires (if Empty(line[5]) then None else g.date(line[5])) == c.creationDate
    requires (if Empty(line[6]) then None else g.date(line[6])) == c.activationDate
    requires (if Empty(line[7]) then None else g.date(line[7])) == c.expirationDate
    requires c.creationDate.None? ==> Empty(line[5])
    requires c.activationDate.None? ==> Empty(line[6])
    requires c.expirationDate.None? ==> Empty(line[7])
    ensures ParseDates(line, g) == Success((c.creationDate, c.activationDate, c.expirationDate))
  {
  }

  lemma HeadOfRow(c: CM.Contract, p: Printers, g: Grammars, line: seq<string>)
    requires IsParsedShape(c) && PrintersAgree(c, p, g) && |line| == ColumnCount
    requires line[3] == CM.TypeName(c.contractType.value) && line[4] == p.decimal(c.amount.value)
    requires Cell(line, 3) == line[3] && Cell(line, 4) == line[4]
    requires Trim(line[3]) == line[3] && !Empty(line[3]) && Upper(line[3]) == line[3]
    requires Trim(line[4]) == line[4] && !Empty(line[4]) && ReplaceCommas(line[4]) == line[4]
    ensures ParseHead(line, g) == Success((c.contractType.value, c.amount.value))
  {
    CM.EnumNamesRoundTrip(c.contractType.value, c.status.value, c.salesChannel.GetOr(CM.Online));
    assert ParseContractType(Cell(line, 3)) == Success(c.contractType.value);
  }

  lemma TailOfRow(c: CM.Contract, line: seq<string>)
    requires IsParsedShape(c) && |line| == ColumnCount
    requires line[8] == CM.StatusName(c.status.value)
    requires c.salesChannel.Some? ==> line[15] == CM.ChannelName(c.salesChannel.value)
    requires Cell(line, 8) == line[8] && Cell(line, 14) == line[14] && Cell(line, 15) == line[15]
    requires !Empty(line[8]) && Upper(line[8]) == line[8]
    requires Empty(line[14]) <==> c.durationMonths.None?
    requires c.durationMonths.Some? ==> line[14] == IntToString(c.durationMonths.value)
    requires Upper(line[15]) == line[15]
    requires Empty(line[15]) <==> c.salesChannel.None?
    ensures ParseTail(line) == Success((c.status.value, c.durationMonths, c.salesChannel))
  {
    CM.EnumNamesRoundTrip(c.contractType.value, c.status.value, c.salesChannel.GetOr(CM.Online));
    var status := ParseContractStatus(Cell(line, 8));
    assert status == Success(c.status.value);
    if c.durationMonths.Some? {
      ParseIntRoundTrip(c.durationMonths.value);
    }
    var duration := ParseInteger(Cell(line, 14));
    assert duration == Success(c.durationMonths);
    var channel := ParseSalesChannel(Cell(line, 15));
    assert channel == Success(c.salesChannel);
    assert TailIsWellFormed(line);
  }

  lemma TextCellsOfRow(c: CM.Contract, p: Printers, line: seq<string>)
    requires IsParsedShape(c) && line == RowOf(c, p)
    ensures Trim(line[0]) == line[0] && Trim(line[1]) == line[1] && Trim(line[2]) == line[2]
    ensures Trim(line[9]) == line[9] && Trim(line[10]) == line[10] && Trim(line[11]) == line[11]
    ensures Trim(line[12]) == line[12] && Trim(line[13]) == line[13] && Trim(line[16]) == line[16]
  {
    assert forall i :: 0 <= i < ColumnCount ==> line[i] == RowCell(c, p, i);
  }

  lemma TypedCellsOfRow(c: CM.Contract, p: Printers, g: Grammars, line: seq<string>)
    requires IsParsedShape(c) && PrintersAgree(c, p, g) && line == RowOf(c, p)
    ensures Trim(line[3]) == line[3] && !Empty(line[3]) && Upper(line[3]) == line[3]
    ensures Trim(line[4]) == line[4] && !Empty(line[4]) && ReplaceCommas(line[4]) == line[4]
    ensures Trim(line[5]) == line[5] && (if Empty(line[5]) then None else g.date(line[5])) == c.creationDate
    ensures Trim(line[6]) == line[6] && (if Empty(line[6]) then None else g.date(line[6])) == c.activationDate
    ensures Trim(line[7]) == line[7] && (if Empty(line[7]) then None else g.date(line[7])) == c.expirationDate
    ensures (Empty(line[5]) <==> c.creationDate.None?) && (Empty(line[6]) <==> c.activationDate.None?)
    ensures Empty(line[7]) <==> c.expirationDate.None?
    ensures Trim(line[8]) == line[8] && !Empty(line[8]) && Upper(line[8]) == line[8]
    ensures Trim(line[14]) == line[14]
    ensures Empty(line[14]) <==> c.durationMonths.None?
    ensures c.durationMonths.Some? ==> line[14] == IntToString(c.durationMonths.value)
    ensures Trim(line[15]) == line[15] && Upper(line[15]) == line[15]
    ensures Empty(line[15]) <==> c.salesChannel.None?
  {
    NameCellsOfRow(c, p, line);
    ValueCellsOfRow(c, p, g, line);
  }

  lemma NameCellsOfRow(c: CM.Contract, p: Printers, line: seq<string>)
    requires IsParsedShape(c) && line == RowOf(c, p)
    ensures Trim(line[3]) == line[3] && !Empty(line[3]) && Upper(line[3]) == line[3]
    ensures Trim(line[8]) == line[8] && !Empty(line[8]) && Upper(line[8]) == line[8]
    ensures Trim(line[15]) == line[15] && Upper(line[15]) == line[15]
    ensures Empty(line[15]) <==> c.salesChannel.None?
  {
    assert line[3] == RowCell(c, p, 3) && line[8] == RowCell(c, p, 8) && line[15] == RowCell(c, p, 15);
    TypeNameIsConstantName(c.contractType.value);
    NameCellReadsBack(line[3]);
    StatusNameIsConstantName(c.status.value);
    NameCellReadsBack(line[8]);
    if c.salesChannel.Some? {
      ChannelNameIsConstantName(c.salesChannel.value);
      NameCellReadsBack(line[15]);
    } else {
      TrimOfUntrimmed("");
      assert Upper("") == "";
    }
  }

  lemma ValueCellsOfRow(c: CM.Contract, p: Printers, g: Grammars, line: seq<string>)
    requires IsParsedShape(c) && PrintersAgree(c, p, g) && line == RowOf(c, p)
    ensures Trim(line[4]) == line[4] && !Empty(line[4]) && ReplaceCommas(line[4]) == line[4]
    ensures Trim(line[5]) == line[5] && (if Empty(line[5]) then None else g.date(line[5])) == c.creationDate
    ensures Trim(line[6]) == line[6] && (if Empty(line[6]) then None else g.date(line[6])) == c.activationDate
    ensures Trim(line[7]) == line[7] && (if Empty(line[7]) then None else g.date(line[7])) == c.expirationDate
    ensures (Empty(line[5]) <==> c.creationDate.None?) && (Empty(line[6]) <==> c.activationDate.None?)
    ensures Empty(line[7]) <==> c.expirationDate.None?
    ensures Trim(line[14]) == line[14]
    ensures Empty(line[14]) <==> c.durationMonths.None?
    ensures c.durationMonths.Some? ==> line[14] == IntToString(c.durationMonths.value)
  {
    assert line[4] == RowCell(c, p, 4) && line[5] == RowCell(c, p, 5) && line[6] == RowCell(c, p, 6);
    assert line[7] == RowCell(c, p, 7) && line[14] == RowCell(c, p, 14);
    OptionalDateReadsBack(c.creationDate, p, g);
    OptionalDateReadsBack(c.activationDate, p, g);
    OptionalDateReadsBack(c.expirationDate, p, g);
    if c.durationMonths.Some? {
      IntToStringIsTrimmed(c.durationMonths.value);
    } else {
      TrimOfUntrimmed("");
    }
  }

  /**
   * Writing a contract of the parsed shape as a row and parsing it back gives the same
   * contract, whenever the printers and the grammars agree on its amount and dates.
   */
  lemma ParseRowOfRoundTrip(c: CM.Contract, p: Printers, g: Grammars, lineNumber: int)
    requires IsParsedShape(c) && PrintersAgree(c, p, g)
    ensures ParseContract(RowOf(c, p), lineNumber, g) == Success(c)
  {
    var line := RowOf(c, p);
    RowOfCells(c, p, g, line);
    var head, dates, tail := (c.contractType.value, c.amount.value), (c.creationDate, c.activationDate, c.expirationDate),
                             (c.status.value, c.durationMonths, c.salesChannel);
    assert ParseFields(line, g) == Success(Assemble(line, head, dates, tail));
    assert Assemble(line, head, dates, tail) == c;
  }
}
