/**
 * Importing a bank account from the bank-data provider: one row recording
 * the import and one bank account row pointing at it, with the balances
 * taken from the provider's balance list.
 */
module BankAccountFactory {
  import opened Wrappers
  import opened Bits
  import opened Decimal
  import opened Orm
  import opened AppErrors
  import opened SnowflakeGenerator

  datatype BalanceType = Expected | InterimAvailable

  /** One balance entry; its reference date plays no part here. */
  datatype Balance = Balance(amount: string, currency: string, balanceType: BalanceType)

  /** The parts of the provider's account information and details that the import uses. */
  datatype BankAccountInformation = BankAccountInformation(id: string, iban: string)
  datatype BankAccountDetails = BankAccountDetails(currency: string, name: string)

  datatype ImportedBankAccount = ImportedBankAccount(id: I64, externalId: string, provider: string,
                                                     lastImport: Option<Instant>)

  datatype BankAccount = BankAccount(
    id: I64,
    currencyId: I64,
    importedBankAccountId: Option<I64>,
    name: string,
    description: Option<string>,
    iban: Option<string>,
    availableBalance: I64,
    originalBalance: I64,
    expectedBalance: I64)

  /** The position of the last balance of a type, if any. */
  function LastOfType(balances: seq<Balance>, t: BalanceType): (r: Option<nat>)
    ensures r.Some? ==> r.value < |balances| && balances[r.value].balanceType == t &&
                        forall j :: r.value < j < |balances| ==> balances[j].balanceType != t
    ensures r.None? ==> forall j :: 0 <= j < |balances| ==> balances[j].balanceType != t
  {
    if balances == [] then None
    else if balances[|balances| - 1].balanceType == t then Some(|balances| - 1)
    else LastOfType(balances[..|balances| - 1], t)
  }

  /** An amount as `str::parse::<i64>().ok()` reads it, with `unwrap_or(0)` applied. */
  function AmountOrZero(amount: string): (v: I64)
    ensures ParseI64(amount).Ok? ==> v == ParseI64(amount).value
    ensures ParseI64(amount).Err? ==> v == 0
  {
    ParseIntSpec(amount, true, I64_MIN, I64_MAX);
    match ParseI64(amount)
    case Ok(x) => x
    case Err(_) => 0
  }

  /** The filter / last / parse / default pipeline for one balance type. */
  function SelectBalance(balances: seq<Balance>, t: BalanceType): (v: I64)
    ensures LastOfType(balances, t).None? ==> v == 0
    ensures LastOfType(balances, t).Some? ==> v == AmountOrZero(balances[LastOfType(balances, t).value].amount)
  {
    match LastOfType(balances, t)
    case None => 0
    case Some(i) => AmountOrZero(balances[i].amount)
  }

  /** A later balance of the type decides alone: whatever came before is not consulted. */
  lemma LastOneDecides(earlier: seq<Balance>, b: Balance, later: seq<Balance>, t: BalanceType)
    requires b.balanceType == t
    requires forall j :: 0 <= j < |later| ==> later[j].balanceType != t
    ensures SelectBalance(earlier + [b] + later, t) == AmountOrZero(b.amount)
  {
    var all := earlier + [b] + later;
    var i := LastOfType(all, t);
    assert all[|earlier|] == b;
    assert forall j :: |earlier| < j < |all| ==> all[j] == later[j - |earlier| - 1];
  }

  /** Entries of the other type make no difference. */
  lemma {:induction false} OtherTypesIgnored(balances: seq<Balance>, b: Balance, t: BalanceType)
    requires b.balanceType != t
    ensures SelectBalance(balances + [b], t) == SelectBalance(balances, t)
  {
    assert (balances + [b])[..|balances|] == balances;
  }

  /** A decimal fraction does not parse as an integer, so it counts as zero even after a good entry. */
  lemma FractionCountsAsZero(earlier: seq<Balance>, currency: string, t: BalanceType)
    ensures SelectBalance(earlier + [Balance("12.34", currency, t)], t) == 0
  {
    var s := "12.34";
    ParseIntSpec(s, true, I64_MIN, I64_MAX);
    assert s[2] == '.';
    assert !AllDigits(s) && !AllDigits(s[1..]) && s[0] != '+' && s[0] != '-';
    LastOneDecides(earlier, Balance(s, currency, t), [], t);
    assert earlier + [Balance(s, currency, t)] + [] == earlier + [Balance(s, currency, t)];
  }

  /** A plain integer amount is taken as it is. */
  lemma IntegerAmountTaken(b: Balance, n: nat)
    requires n <= I64_MAX && b.amount == Digits(n)
    ensures SelectBalance([b], b.balanceType) == n
  {
    ParseIntSpec(b.amount, true, I64_MIN, I64_MAX);
    DigitsRoundTrip(n);
  }

  /** Some stored import already has the id. */
  predicate ImportedIdTaken(rows: seq<ImportedBankAccount>, id: int) {
    exists i :: 0 <= i < |rows| && rows[i].id == id
  }

  /** Some stored account already has the id. */
  predicate AccountIdTaken(rows: seq<BankAccount>, id: int) {
    exists i :: 0 <= i < |rows| && rows[i].id == id
  }

  class Factory {
    /** The provider name recorded on imports, the crate's GoCardless provider constant. */
    const provider: string
    var importedAccounts: seq<ImportedBankAccount>
    var bankAccounts: seq<BankAccount>

    constructor (provider: string)
      ensures this.provider == provider && importedAccounts == [] && bankAccounts == []
    {
      this.provider := provider;
      importedAccounts, bankAccounts := [], [];
    }

    /**
     * `from_go_cardless`: two ids are drawn from `generator`, one per row;
     * `currencyId` is the currency the ISO-code lookup (with its default)
     * produced.  An insert fails on a taken id.
     */
    method FromGoCardless(generator: Generator, firstClock: seq<U64>, secondClock: seq<U64>,
                          information: BankAccountInformation, details: BankAccountDetails,
                          balances: seq<Balance>, currencyId: I64)
      returns (r: Result<BankAccount, ApiError>)
      requires generator.Valid() && ClockSupports(generator.Snapshot(), firstClock)
      requires ClockSupports(NextIdSpec(generator.nodeId, generator.Snapshot(), firstClock).state, secondClock)
      modifies this, generator
      ensures generator.Valid()
      ensures r.Ok? ==>
                && r.value.importedBankAccountId.Some?
                && importedAccounts == old(importedAccounts) +
                     [ImportedBankAccount(r.value.importedBankAccountId.value, information.id, provider, None)]
                && bankAccounts == old(bankAccounts) + [r.value]
      ensures r.Ok? ==>
                && r.value.currencyId == currencyId && r.value.name == details.name
                && r.value.description.None? && r.value.iban == Some(information.iban)
                && r.value.availableBalance == SelectBalance(balances, InterimAvailable)
                && r.value.originalBalance == SelectBalance(balances, Expected)
                && r.value.expectedBalance == SelectBalance(balances, Expected)
      ensures NextIdSpec(generator.nodeId, old(generator.Snapshot()), firstClock).result.Err? ==>
                r == Err(NEXT_ID_FAILED) && importedAccounts == old(importedAccounts) &&
                bankAccounts == old(bankAccounts)
      ensures var first := NextIdSpec(generator.nodeId, old(generator.Snapshot()), firstClock);
              first.result.Ok? && ImportedIdTaken(old(importedAccounts), first.result.value) ==>
                r == Err(DatabaseError) && importedAccounts == old(importedAccounts) &&
                bankAccounts == old(bankAccounts)
      // Past the first insert, a failure leaves the imported row in place.
      ensures var first := NextIdSpec(generator.nodeId, old(generator.Snapshot()), firstClock);
              var second := NextIdSpec(generator.nodeId, first.state, secondClock);
              first.result.Ok? && !ImportedIdTaken(old(importedAccounts), first.result.value) ==>
                && importedAccounts ==
                     old(importedAccounts) + [ImportedBankAccount(first.result.value, information.id, provider, None)]
                && (second.result.Err? ==> r == Err(NEXT_ID_FAILED) && bankAccounts == old(bankAccounts))
                && (second.result.Ok? && AccountIdTaken(old(bankAccounts), second.result.value) ==>
                      r == Err(DatabaseError) && bankAccounts == old(bankAccounts))
                && (second.result.Ok? && !AccountIdTaken(old(bankAccounts), second.result.value) ==>
                      r.Ok? && r.value.id == second.result.value)
      ensures r.Ok? && generator.nodeId <= MAX_NODE_ID &&
              NonDecreasing(firstClock) && Below(firstClock, TIMESTAMP_LIMIT) &&
              NonDecreasing(secondClock) && Below(secondClock, TIMESTAMP_LIMIT) ==>
                r.value.importedBankAccountId.Some? &&
                r.value.importedBankAccountId.value < r.value.id
      ensures bankAccounts == old(bankAccounts) || r.Ok?
      ensures r == Err(NEXT_ID_FAILED) ==> r.error.error == AppError(500, GENERAL_INTERNAL_SERVER_ERROR, UNKNOWN_ERROR_DETAILS)
    {
      NextIdFailedIsUnknownError();
      ghost var start := generator.Snapshot();
      var firstId, used1 := generator.NextId(firstClock);
      if firstId.Err? {
        return Err(NEXT_ID_FAILED);
      }
      var taken := FirstWhere(importedAccounts, (a: ImportedBankAccount) => a.id == firstId.value);
      if taken.Some? {
        return Err(DatabaseError);
      }
      var imported := ImportedBankAccount(firstId.value, information.id, provider, None);
      importedAccounts := importedAccounts + [imported];

      var available := SelectBalance(balances, InterimAvailable);
      var expected := SelectBalance(balances, Expected);

      var secondId, used2 := generator.NextId(secondClock);
      if secondId.Err? {
        return Err(NEXT_ID_FAILED);
      }
      var clash := FirstWhere(bankAccounts, (a: BankAccount) => a.id == secondId.value);
      if clash.Some? {
        return Err(DatabaseError);
      }
      var account := BankAccount(secondId.value, currencyId, Some(imported.id), details.name, None,
                                 Some(information.iban), available, expected, expected);
      bankAccounts := bankAccounts + [account];
      r := Ok(account);
      if generator.nodeId <= MAX_NODE_ID && NonDecreasing(firstClock) && Below(firstClock, TIMESTAMP_LIMIT) &&
         NonDecreasing(secondClock) && Below(secondClock, TIMESTAMP_LIMIT) {
        SuccessiveIdsIncrease(generator.nodeId, start, firstClock, secondClock);
      }
    }
  }
}
