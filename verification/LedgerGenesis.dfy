/** The ledger that a chain starts from. */
module LedgerGenesis {
  import opened Basics
  import opened Transactions
  import opened TxMessage
  import opened Marks
  import opened Ledger
  import LedgerInvariant
  import opened LedgerSupply
  import opened LedgerRules

  datatype FundingRow = FundingRow(acct: AccountId, pubkey: Bytes32, derIdx: u32, bal: u128)

  function FundedAccount(row: FundingRow): Account {
    var marks := Meter(Min(row.bal / PWM_RAW_SCALE, MARKS_CAP), 0);
    BlankAccount(row.pubkey, row.derIdx).(initialized := true, balance := row.bal, marks := marks)
  }

  function FundFrom(accounts: map<AccountId, Account>, rows: seq<FundingRow>): map<AccountId, Account>
    decreases |rows|
  {
    if rows == [] then accounts else FundFrom(accounts[rows[0].acct := FundedAccount(rows[0])], rows[1..])
  }

  function LedgerOf(accounts: map<AccountId, Account>): Ledger { Ledger(accounts, 0, {}, map[], [], []) }

  method State0(rows: seq<FundingRow>) returns (l: Ledger)
    ensures l == LedgerOf(FundFrom(map[], rows))
  {
    var accounts: map<AccountId, Account> := map[];
    var i := 0;
    assert rows[0..] == rows;
    while i < |rows|
      invariant 0 <= i <= |rows|
      invariant FundFrom(accounts, rows[i..]) == FundFrom(map[], rows)
    {
      assert rows[i..][0] == rows[i] && rows[i..][1..] == rows[i + 1..];
      accounts := accounts[rows[i].acct := FundedAccount(rows[i])];
      i := i + 1;
    }
    l := LedgerOf(accounts);
  }

  ghost function Funded(rows: seq<FundingRow>): set<AccountId> { set row | row in rows :: row.acct }

  /** What the funding rows grant: a later row for the same account replaces an earlier one. */
  ghost function Funding(rows: seq<FundingRow>): nat {
    if rows == [] then 0
    else (if rows[0].acct in Funded(rows[1..]) then 0 else rows[0].bal) + Funding(rows[1..])
  }

  /** The accounts that no row replaces. */
  ghost function Untouched(accounts: map<AccountId, Account>, rows: seq<FundingRow>): map<AccountId, Account> {
    accounts - Funded(rows)
  }

  lemma {:induction false} FundingTotal(accounts: map<AccountId, Account>, rows: seq<FundingRow>)
    ensures Total(FundFrom(accounts, rows)) == Total(Untouched(accounts, rows)) + Funding(rows)
    decreases |rows|
  {
    if rows != [] {
      var (row, rest) := (rows[0], rows[1..]);
      var next := accounts[row.acct := FundedAccount(row)];
      FundingTotal(next, rest);
      assert rows == [row] + rest && Funded(rows) == {row.acct} + Funded(rest);
      if row.acct in Funded(rest) {
        assert Untouched(next, rest) == Untouched(accounts, rows);
      } else {
        assert Untouched(next, rest) == Untouched(accounts, rows)[row.acct := FundedAccount(row)];
        TotalUpdate(Untouched(accounts, rows), row.acct, FundedAccount(row));
      }
    } else {
      assert Untouched(accounts, rows) == accounts;
    }
  }

  /** Genesis keeps the invariants, and its supply is the sum over the last row of each account. */
  lemma GenesisSupply(rows: seq<FundingRow>)
    ensures var genesis := LedgerOf(FundFrom(map[], rows));
      && LedgerInvariant.Inv(genesis) && genesis.locks == [] && Supply(genesis) == Funding(rows)
      && AllPoliciesOk(genesis, 0)
  {
    FundingTotal(map[], rows);
    assert Untouched(map[], rows) == map[];
    FundedPolicies(map[], rows);
  }

  lemma {:induction false} FundedPolicies(accounts: map<AccountId, Account>, rows: seq<FundingRow>)
    requires AllPoliciesOk(LedgerOf(accounts), 0)
    ensures AllPoliciesOk(LedgerOf(FundFrom(accounts, rows)), 0)
    decreases |rows|
  {
    if rows != [] {
      FundedPolicies(accounts[rows[0].acct := FundedAccount(rows[0])], rows[1..]);
    }
  }

  /** The last funding row of an account. */
  function LastRow(rows: seq<FundingRow>, k: AccountId): Option<FundingRow> {
    if rows == [] then None
    else match LastRow(rows[1..], k)
      case Some(row) => Some(row)
      case None => if rows[0].acct == k then Some(rows[0]) else None
  }

  /** An account as a row funds it: open under the row's key, with its balance, a mark for each whole coin, no
      stake, no policies and no history. */
  predicate FundedBy(a: Account, row: FundingRow) {
    && a.initialized && a.signingPk == row.pubkey && a.derivationIndex == row.derIdx && a.balance == row.bal
    && a.staked == 0 && a.nonce == 0 && a.rescue == None && !a.finalized && a.claimedPhase == None
    && a.active == {} && a.dormant == {} && a.deferred == []
    && a.marks.lastBlock == 0 && a.marks.stored == Min(row.bal / 1_000_000, U32_MAX)
  }

  lemma {:induction false} FundedExactly(accounts: map<AccountId, Account>, rows: seq<FundingRow>, k: AccountId)
    ensures match LastRow(rows, k)
      case Some(row) => k in FundFrom(accounts, rows) && FundedBy(FundFrom(accounts, rows)[k], row)
      case None =>
        && (k in FundFrom(accounts, rows) <==> k in accounts)
        && (k in accounts ==> FundFrom(accounts, rows)[k] == accounts[k])
    decreases |rows|
  {
    if rows != [] {
      FundedExactly(accounts[rows[0].acct := FundedAccount(rows[0])], rows[1..], k);
    }
  }

  /** The genesis ledger has exactly the funded accounts, each as its last row funds it. */
  lemma GenesisAccounts(rows: seq<FundingRow>, k: AccountId)
    ensures var m := LedgerOf(FundFrom(map[], rows)).accounts;
      match LastRow(rows, k) case Some(row) => k in m && FundedBy(m[k], row) case None => k !in m
  {
    FundedExactly(map[], rows, k);
  }
}
