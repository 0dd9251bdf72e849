/** Concrete runs from genesis on which the code falls short of what one would expect of it. */
module LedgerExamples {
  import opened Basics
  import Utf8
  import opened Transactions
  import opened TxMessage
  import opened Marks
  import opened Ledger
  import opened LedgerInvariant
  import opened LedgerSupply
  import opened LedgerRuns
  import opened LedgerNonces
  import opened LedgerSafety
  import opened LedgerPaths
  import opened LedgerGenesis

  // ----- accounts and keys -----

  const PAYEE: AccountId := ZEROS32

  /** An account whose id demands the delay. */
  function Delayed(): (id: AccountId)
    ensures ConservationFlag(id) && !CosignNonDisableable(id) && DomainOf(id) == 0 && DomainHi(id) == 0 && id != PAYEE
  {
    assert ZEROS32[5 := 2][5] == 2;
    ZEROS32[5 := 2]
  }

  /** A plain account of the same domain. */
  function Other(b: byte): (id: AccountId)
    requires b > 0
    ensures !ConservationFlag(id) && !CosignNonDisableable(id) && DomainOf(id) == 0 && DomainHi(id) == 0
    ensures id != PAYEE && id != Delayed() && id[31] == b
  {
    assert ZEROS32[31 := b][5] == 0 && ZEROS32[31 := b][0] == 0 && ZEROS32[31 := b][1] == 0;
    assert ZEROS32[31 := b][31] == b && PAYEE[31] == 0 && Delayed()[5] == 2;
    ZEROS32[31 := b]
  }

  function Key(n: byte): (pk: Bytes32)
    ensures pk[0] == n
  {
    ZEROS32[0 := n]
  }

  /** Key 1 is the payee's, key 2 its rescue account's, and the others are the payer's. No delay, no claims
      and no marks; `valid` says of all signatures whether they verify. */
  function Keyed(rescue: AccountId, valid: bool): LedgerCfg {
    LedgerCfg(
      Crypto(
        (b: seq<byte>) => if b == [] || b[0] > 2 then Other(1) else if b[0] == 1 then PAYEE else rescue,
        (sk: SigningKey, m: seq<byte>) => ZEROS32 + ZEROS32,
        (pk: Bytes32, m: seq<byte>, sig: Bytes64) => valid),
      Accrual(0, 0), [], 0, 0)
  }

  function Signed(key: byte, nonce: u64, body: TxBody): SignedTx {
    SignedTx(0, Key(key), 0, nonce, body, None, None, None, None, [], ZEROS32 + ZEROS32)
  }

  lemma KeySenders(rescue: AccountId, valid: bool, tx: SignedTx)
    ensures var hash := Keyed(rescue, valid).c.hash;
      && (tx.signerPk == Key(1) ==> SenderOf(hash, tx) == PAYEE)
      && (tx.signerPk == Key(2) ==> SenderOf(hash, tx) == rescue)
      && (tx.signerPk == Key(3) ==> SenderOf(hash, tx) == Other(1))
  {
  }

  /** Funded at genesis, and touched last at `at`. */
  function Holder(key: byte, balance: u128, at: u64): Account {
    BlankAccount(Key(key), 0).(initialized := true, balance := balance, marks := Meter(0, at))
  }

  function Bare(accounts: map<AccountId, Account>, feePool: u128, pending: seq<Pending>): Ledger {
    Ledger(accounts, feePool, {}, map[], [], pending)
  }

  lemma OneFunded(row: FundingRow)
    ensures FundFrom(map[], [row]) == map[row.acct := FundedAccount(row)]
  {
    assert [row][1..] == [];
  }

  lemma TwoFunded(row: FundingRow, other: FundingRow)
    requires row.acct != other.acct
    ensures FundFrom(map[], [row, other]) == map[row.acct := FundedAccount(row), other.acct := FundedAccount(other)]
  {
    assert [row, other][1..] == [other] && [other][1..] == [];
    var (a, b) := (FundedAccount(row), FundedAccount(other));
    assert FundFrom(map[row.acct := a], [other]) == FundFrom(map[row.acct := a][other.acct := b], []);
    assert map[row.acct := a][other.acct := b] == map[row.acct := a, other.acct := b];
  }

  lemma RunPair(cfg: LedgerCfg, l: Ledger, tx: SignedTx, other: SignedTx, mid: Ledger, next: Ledger)
    requires ApplyTx(cfg, l, tx, 1, true) == Applied(mid) && ApplyTx(cfg, mid, other, 1, true) == Applied(next)
    ensures RunOps(cfg, l, [Apply(tx, 1, true), Apply(other, 1, true)]) == Some(next)
  {
    var ops := [Apply(tx, 1, true), Apply(other, 1, true)];
    RunHead(cfg, mid, ops[1..], next);
    RunHead(cfg, l, ops, mid);
    assert ops[1..][1..] == [];
  }

  lemma RunHead(cfg: LedgerCfg, l: Ledger, ops: seq<Op>, next: Ledger)
    requires ops != [] && Perform(cfg, l, ops[0]) == Some(next)
    ensures RunOps(cfg, l, ops) == RunOps(cfg, next, ops[1..])
  {
  }

  lemma Overwritten(l: Ledger, id: AccountId, a: Account, b: Account)
    ensures var mid := l.(accounts := l.accounts[id := a]);
      mid.(accounts := mid.accounts[id := b]) == l.(accounts := l.accounts[id := b])
  {
    assert l.accounts[id := a][id := b] == l.accounts[id := b];
  }

  // ----- the payee's account is finalized -----

  /** The payee's first transaction names its rescue account and installs the redirect; the second one, with
      the rescue account's signature, activates it. */
  function InitTx(rescue: AccountId): SignedTx {
    Signed(1, 0, Init(0, 0)).(
      initV4 := Some(InitV4Extension(
        "a", "b", "c", ZEROS32, "", 0, Some(rescue), [InitPolicyEntry(RoutingEmergencyRedirect, Dormant)], None)))
  }

  function ActivateTx(rescue: AccountId): SignedTx {
    Signed(1, 1, Policy(PAYEE, ActivatePolicy(1, Some(rescue)), 0)).(
      cosigns := [Cosignature(Key(2), Rescue, ZEROS32 + ZEROS32)])
  }

  function Closing(rescue: AccountId): seq<Op> {
    [Apply(InitTx(rescue), 1, true), Apply(ActivateTx(rescue), 1, true)]
  }

  function Opened(rescue: AccountId): Account {
    BlankAccount(Key(1), 0).(
      initialized := true, marks := Meter(0, 1), nonce := 1, rescue := Some(rescue),
      dormant := {RoutingEmergencyRedirect},
      profile := Profile(0, 0, "a", "b", "c", Some(ZEROS32), Some(""), Some(0)))
  }

  function Closed(rescue: AccountId, balance: u128): Account {
    Opened(rescue).(
      balance := balance, nonce := 2, dormant := {}, active := {RoutingEmergencyRedirect}, finalized := true)
  }

  lemma ShortExtension(rescue: AccountId)
    ensures ValidateInitExt(InitTx(rescue).initV4.value).Ok?
  {
    OneByte('a');
    OneByte('b');
    OneByte('c');
  }

  lemma OneByte(c: char)
    requires c < '\U{0080}'
    ensures ByteLength([c]) == 1
  {
    assert [c][1..] == [] && Utf8.Encode([]) == [];
    assert Utf8.Encode([c]) == Utf8.EncodeChar(c) + [];
  }

  lemma OpenedAtOnce(rescue: AccountId)
    ensures InitAccount(BlankAccount(Key(1), 0), InitTx(rescue), 1) == Opened(rescue)
  {
    var entries := InitTx(rescue).initV4.value.initialPolicies;
    assert entries[1..] == [];
    var a := Declared(BlankAccount(Key(1), 0), InitTx(rescue), InitTx(rescue).initV4.value);
    assert SetModes(a, entries, 1) == SetMode(a, RoutingEmergencyRedirect, Dormant, 1);
    assert a.dormant - {RoutingEmergencyRedirect} + {RoutingEmergencyRedirect} == {RoutingEmergencyRedirect};
    assert a.active - {RoutingEmergencyRedirect} == {};
  }

  /** A signed transaction of this sender, with a body that passes the structural checks. */
  ghost predicate Sends(cfg: LedgerCfg, tx: SignedTx, id: AccountId) {
    && SenderOf(cfg.c.hash, tx) == id && SigValid(cfg.c, tx)
    && DomainOf(id) == tx.domainCode && ValidateBody(id, tx).Ok?
  }

  lemma InitApplies(cfg: LedgerCfg, l: Ledger, tx: SignedTx, first: Account)
    requires Sends(cfg, tx, PAYEE) && PAYEE !in l.accounts && l.pending == []
    requires tx.body.Init? && tx.nonce == 0
    requires first == InitAccount(BlankAccount(tx.signerPk, tx.derivationIndex), tx, 1)
    ensures ApplyTx(cfg, l, tx, 1, true) == Applied(l.(accounts := l.accounts[PAYEE := first]))
  {
    var stubbed := WithStub(l, PAYEE, tx);
    var blank := BlankAccount(tx.signerPk, tx.derivationIndex);
    assert Admit(cfg, stubbed, PAYEE, tx, 1, true) == Ok((blank, None));
    assert ApplyBody(cfg, stubbed, PAYEE, blank, tx, None, 1)
        == Done(stubbed.(accounts := stubbed.accounts[PAYEE := first]));
    assert stubbed.accounts[PAYEE := first] == l.accounts[PAYEE := first];
  }

  lemma InitRuns(cfg: LedgerCfg, l: Ledger, rescue: AccountId)
    requires cfg == Keyed(rescue, true) && PAYEE !in l.accounts && l.pending == []
    ensures ApplyTx(cfg, l, InitTx(rescue), 1, true) == Applied(l.(accounts := l.accounts[PAYEE := Opened(rescue)]))
  {
    var tx := InitTx(rescue);
    KeySenders(rescue, true, tx);
    ShortExtension(rescue);
    OpenedAtOnce(rescue);
    InitApplies(cfg, l, tx, Opened(rescue));
  }

  lemma ActivateEffect(rescue: AccountId, action: PolicyAction)
    requires action == ActivatePolicy(1, Some(rescue))
    ensures ApplyPolicyAction(Opened(rescue), action, 1).Ok?
    ensures Debited(ApplyPolicyAction(Opened(rescue), action, 1).value, 0) == Closed(rescue, 0)
  {
    var a := Opened(rescue);
    assert a.dormant - {RoutingEmergencyRedirect} == {};
    assert a.active + {RoutingEmergencyRedirect} == {RoutingEmergencyRedirect};
  }

  /** An emergency activation that the rescue account has signed, on an account without coins. */
  lemma ActivateApplies(cfg: LedgerCfg, l: Ledger, tx: SignedTx, a: Account, rescue: AccountId)
    requires tx.body == Policy(PAYEE, ActivatePolicy(1, Some(rescue)), 0)
    requires SenderOf(cfg.c.hash, tx) == PAYEE && rescue != PAYEE && DomainHi(rescue) == DomainHi(PAYEE)
    requires a == Opened(rescue) && Recipient(l, rescue).Ok?
    requires HasRescueCosign(cfg.c, tx, l.accounts[rescue].signingPk)
    ensures PolicyBody(cfg, l, PAYEE, a, tx, 1) == Done(l.(
      accounts := l.accounts[PAYEE := Closed(rescue, 0)], pending := WithoutSender(l.pending, PAYEE)))
  {
    var action := tx.body.action;
    ActivateEffect(rescue, action);
    assert TouchAccount(cfg, a, 1) == a;
    assert ValidatePolicyAction(cfg, l, a, action, tx).Ok?;
    NothingEvacuated(l.accounts, rescue, Closed(rescue, 0));
  }

  lemma NothingEvacuated(m: map<AccountId, Account>, rescue: AccountId, a: Account)
    requires rescue in m && rescue != PAYEE && a.balance == 0 && a.staked == 0
    ensures Evacuate(m, PAYEE, a, rescue) == m[PAYEE := a]
  {
    assert Credit(Credit(m[rescue], 0), 0) == m[rescue];
    assert m[rescue := m[rescue]] == m;
  }

  /** Admission of a checked policy transaction of an account that is neither finalized nor cosigned. */
  lemma PolicyAdmitted(cfg: LedgerCfg, l: Ledger, tx: SignedTx, a: Account)
    requires SenderOf(cfg.c.hash, tx) == PAYEE && PAYEE in l.accounts && l.accounts[PAYEE] == a && l.pending == []
    requires tx.body.Policy? && tx.body.target == PAYEE
    requires a.signingPk == tx.signerPk && a.derivationIndex == tx.derivationIndex && a.nonce == tx.nonce
    requires !a.finalized && !PolicyActive(a, CosignRequired, 1)
    ensures Admit(cfg, l, PAYEE, tx, 1, true) == Ok((a, None))
  {
    assert !CosignNonDisableable(PAYEE);
    assert Evaluate(cfg, l, tx, 1) == Ok(None);
  }

  lemma ActivateStep(cfg: LedgerCfg, l: Ledger, tx: SignedTx, a: Account, rescue: AccountId, next: Ledger)
    requires tx.body == Policy(PAYEE, ActivatePolicy(1, Some(rescue)), 0) && Sends(cfg, tx, PAYEE)
    requires rescue != PAYEE && DomainHi(rescue) == DomainHi(PAYEE) && Recipient(l, rescue).Ok? && l.pending == []
    requires HasRescueCosign(cfg.c, tx, l.accounts[rescue].signingPk)
    requires PAYEE in l.accounts && l.accounts[PAYEE] == a && a == Opened(rescue)
    requires tx.signerPk == a.signingPk && tx.derivationIndex == a.derivationIndex && tx.nonce == a.nonce
    requires next == l.(accounts := l.accounts[PAYEE := Closed(rescue, 0)])
    ensures ApplyTx(cfg, l, tx, 1, true) == Applied(next)
  {
    PolicyAdmitted(cfg, l, tx, a);
    ActivateApplies(cfg, l, tx, a, rescue);
    AppliedFrom(cfg, l, tx, PAYEE, 1, true, a, None, next);
  }

  lemma ActivateRuns(cfg: LedgerCfg, l: Ledger, rescue: AccountId)
    requires cfg == Keyed(rescue, true) && rescue != PAYEE && DomainHi(rescue) == 0 && l.pending == []
    requires rescue in l.accounts && l.accounts[rescue].initialized && l.accounts[rescue].signingPk == Key(2)
    requires PAYEE in l.accounts && l.accounts[PAYEE] == Opened(rescue)
    ensures ApplyTx(cfg, l, ActivateTx(rescue), 1, true)
      == Applied(l.(accounts := l.accounts[PAYEE := Closed(rescue, 0)]))
  {
    var tx := ActivateTx(rescue);
    KeySenders(rescue, true, tx);
    RescueSigned(rescue, tx);
    ActivateStep(cfg, l, tx, Opened(rescue), rescue, l.(accounts := l.accounts[PAYEE := Closed(rescue, 0)]));
  }

  lemma RescueSigned(rescue: AccountId, tx: SignedTx)
    requires tx == ActivateTx(rescue)
    ensures HasRescueCosign(Keyed(rescue, true).c, tx, Key(2)) && SigValid(Keyed(rescue, true).c, tx)
    ensures ValidateBody(PAYEE, tx).Ok?
  {
    assert tx.cosigns[0].role == Rescue;
  }

  /** A transaction's stages put together. */
  lemma AppliedFrom(cfg: LedgerCfg, l: Ledger, tx: SignedTx, id: AccountId, height: u64, checked: bool, acc: Account,
                    redirect: Option<AccountId>, next: Ledger)
    requires SenderOf(cfg.c.hash, tx) == id && DomainOf(id) == tx.domainCode && ValidateBody(id, tx).Ok?
    requires checked ==> SigValid(cfg.c, tx)
    requires id in l.accounts && Admit(cfg, l, id, tx, height, checked) == Ok((acc, redirect))
    requires ApplyBody(cfg, l, id, acc, tx, redirect, height) == Done(next)
    ensures ApplyTx(cfg, l, tx, height, checked) == Applied(next)
  {
  }

  /** From any ledger with a rescue account and without the payee, the payee's account ends up finalized. */
  lemma CloseRuns(cfg: LedgerCfg, l: Ledger, rescue: AccountId, mid: Ledger, next: Ledger)
    requires cfg == Keyed(rescue, true) && rescue != PAYEE && DomainHi(rescue) == 0 && l.pending == []
    requires rescue in l.accounts && l.accounts[rescue].initialized && l.accounts[rescue].signingPk == Key(2)
    requires PAYEE !in l.accounts && mid == l.(accounts := l.accounts[PAYEE := Opened(rescue)])
    requires next == l.(accounts := l.accounts[PAYEE := Closed(rescue, 0)])
    ensures RunOps(cfg, l, Closing(rescue)) == Some(next)
  {
    InitRuns(cfg, l, rescue);
    ActivateRuns(cfg, mid, rescue);
    Overwritten(l, PAYEE, Opened(rescue), Closed(rescue, 0));
    RunPair(cfg, l, InitTx(rescue), ActivateTx(rescue), mid, next);
  }

  // ----- a delayed transfer that returns -----

  /** The payer waits to pay an account that is finalized, and whose rescue account is the payer. */
  function Circle(balance: u128, feePool: u128, at: u64, pending: seq<Pending>): Ledger {
    Bare(map[Delayed() := Holder(2, balance, at), PAYEE := Closed(Delayed(), 0)], feePool, pending)
  }

  function CircleRow(): FundingRow { FundingRow(Delayed(), Key(2), 0, 10) }

  function CirclePayment(): SignedTx { Signed(2, 0, Transfer(PAYEE, 5, 1)) }

  function Waiting(h: u64): Pending {
    Pending(Delayed(), Delayed(), 5, 1, 0, h, h, TxHash(Keyed(Delayed(), true).c.hash, CirclePayment()))
  }

  /** Closing the payee's account makes the circle. */
  lemma CircleBegins(cfg: LedgerCfg)
    requires cfg == Keyed(Delayed(), true)
    ensures RunOps(cfg, LedgerOf(FundFrom(map[], [CircleRow()])), Closing(Delayed())) == Some(Circle(10, 0, 0, []))
  {
    OneFunded(CircleRow());
    var l := Bare(map[Delayed() := Holder(2, 10, 0)], 0, []);
    assert FundedAccount(CircleRow()) == Holder(2, 10, 0);
    assert l.accounts[PAYEE := Closed(Delayed(), 0)] == Circle(10, 0, 0, []).accounts;
    CloseRuns(cfg, l, Delayed(), l.(accounts := l.accounts[PAYEE := Opened(Delayed())]), Circle(10, 0, 0, []));
  }

  lemma CircleSupply(balance: u128, feePool: u128, at: u64, pending: seq<Pending>)
    ensures Supply(Circle(balance, feePool, at, pending)) == balance + feePool
  {
    var m := Circle(balance, feePool, at, pending).accounts;
    TotalWithout(m, Delayed());
    TotalWithout(m - {Delayed()}, PAYEE);
    assert m - {Delayed()} - {PAYEE} == map[];
  }

  lemma CirclePaid(cfg: LedgerCfg, balance: u128, feePool: u128, at: u64, row: Pending, l: Ledger, h: u64)
    requires 6 <= balance < 100 && feePool < 100 && at <= h && l == Circle(balance, feePool, at, [])
    requires row == Waiting(h)
    ensures ReturnsToSender(l, row, h) && ApplyDue(cfg, l, row, h) == Done(Circle(balance + 5, feePool + 1, h, []))
  {
    assert CheckDue(l, row, h) == Ok(Delayed());
    var from := Debited(TouchAccount(cfg, Holder(2, balance, at), h), 6);
    assert Credit(TouchAccount(cfg, Holder(2, balance, at), h), 5) == Holder(2, balance + 5, h);
    assert l.accounts[Delayed() := from][Delayed() := Holder(2, balance + 5, h)]
        == Circle(balance + 5, feePool + 1, h, []).accounts;
  }

  lemma CircleAdmitted(cfg: LedgerCfg, l: Ledger, balance: u128, feePool: u128, at: u64, tx: SignedTx, h: u64)
    requires l == Circle(balance, feePool, at, []) && tx == CirclePayment()
    requires SenderOf(cfg.c.hash, tx) == Delayed()
    ensures Admit(cfg, l, Delayed(), tx, h, true) == Ok((Holder(2, balance, at), Some(Delayed())))
  {
    assert Recipient(l, PAYEE).Ok?;
    assert Evaluate(cfg, l, tx, h) == Ok(Some(Delayed()));
  }

  lemma CircleEnqueued(cfg: LedgerCfg, l: Ledger, tx: SignedTx, acc: Account, h: u64)
    requires tx == CirclePayment() && l.pending == [] && acc.initialized && acc.balance >= 6
    requires TxHash(cfg.c.hash, tx) == Waiting(h).txHash && cfg.conservationDelay == 0
    ensures TransferBody(cfg, l, Delayed(), acc, tx, Some(Delayed()), h) == Done(l.(pending := [Waiting(h)]))
  {
    assert !HasPending(l, Delayed());
    assert l.pending + [Waiting(h)] == [Waiting(h)];
  }

  lemma CircleQueued(cfg: LedgerCfg, balance: u128, feePool: u128, at: u64, h: u64)
    requires 6 <= balance < 100 && feePool < 100 && at <= h && cfg == Keyed(Delayed(), true)
    ensures ApplyTx(cfg, Circle(balance, feePool, at, []), CirclePayment(), h, true)
      == Applied(Circle(balance, feePool, at, [Waiting(h)]))
    ensures SenderOf(cfg.c.hash, CirclePayment()) == Delayed()
  {
    var (l, tx, acc) := (Circle(balance, feePool, at, []), CirclePayment(), Holder(2, balance, at));
    KeySenders(Delayed(), true, tx);
    CircleAdmitted(cfg, l, balance, feePool, at, tx, h);
    CircleEnqueued(cfg, l, tx, acc, h);
    AppliedFrom(cfg, l, tx, Delayed(), h, true, acc, Some(Delayed()), l.(pending := [Waiting(h)]));
  }

  lemma CircleDrained(cfg: LedgerCfg, balance: u128, feePool: u128, at: u64, queued: Ledger, h: u64)
    requires 6 <= balance < 100 && feePool < 100 && at <= h && queued == Circle(balance, feePool, at, [Waiting(h)])
    ensures Drain(cfg, queued, h) == Some(Circle(balance + 5, feePool + 1, h, []))
    ensures Executed(cfg, queued, DrainDue(h)) == [Execution(Delayed(), 0, true)]
  {
    var (row, l) := (Waiting(h), Circle(balance, feePool, at, []));
    CirclePaid(cfg, balance, feePool, at, row, l, h);
    assert queued.(pending := []) == l;
    DrainedOne(cfg, queued, row, h, Circle(balance + 5, feePool + 1, h, []));
  }

  lemma DrainedOne(cfg: LedgerCfg, l: Ledger, row: Pending, h: u64, next: Ledger)
    requires l.pending == [row] && h >= row.executeAt && next.pending == []
    requires ApplyDue(cfg, l.(pending := []), row, h) == Done(next) && ReturnsToSender(l.(pending := []), row, h)
    ensures Drain(cfg, l, h) == Some(next)
    ensures Executed(cfg, l, DrainDue(h)) == [Execution(row.sender, row.nonce, true)]
  {
    assert [row][1..] == [] && [row][0] == row;
    assert DrainRows(cfg, next, [], h) == Some((next, [])) && RowsExecuted(cfg, next, [], h) == [];
    assert next.(pending := []) == next;
  }

  lemma QueuedFromGenesis(cfg: LedgerCfg, op: Op, queued: Ledger)
    requires cfg == Keyed(Delayed(), true) && op == Apply(CirclePayment(), 1, true)
    requires queued == Circle(10, 0, 0, [Waiting(1)])
    ensures RunOps(cfg, LedgerOf(FundFrom(map[], [CircleRow()])), Closing(Delayed()) + [op]) == Some(queued)
  {
    CircleBegins(cfg);
    CircleQueued(cfg, 10, 0, 0, 1);
    RunConcat(cfg, LedgerOf(FundFrom(map[], [CircleRow()])), Closing(Delayed()), [op]);
    RunOne(cfg, Circle(10, 0, 0, []), op, queued);
  }

  /** The transfer leaves the payer richer by its amount, fills the fee pool, and leaves the nonce unspent. */
  lemma ReturningTransfer(cfg: LedgerCfg) returns (l: Ledger, row: Pending, next: Ledger)
    requires cfg == Keyed(Delayed(), true)
    ensures var ops := Closing(Delayed()) + [Apply(CirclePayment(), 1, true)];
      RunOps(cfg, LedgerOf(FundFrom(map[], [CircleRow()])), ops) == Some(l)
    ensures l.pending == [row] && ReturnsToSender(l, row, 1) && ApplyDue(cfg, l, row, 1) == Done(next)
    ensures Supply(next) == Supply(l) + 6 && NonceOf(next.accounts, row.sender) == row.nonce
  {
    row, l, next := Waiting(1), Circle(10, 0, 0, [Waiting(1)]), Circle(15, 1, 1, [Waiting(1)]);
    QueuedFromGenesis(cfg, Apply(CirclePayment(), 1, true), l);
    CirclePaid(cfg, 10, 0, 0, row, Circle(10, 0, 0, []), 1);
    CircleSupply(10, 0, 0, [row]);
    CircleSupply(15, 1, 1, [row]);
    DueIgnoresRows(cfg, Circle(10, 0, 0, []), row, 1, [row]);
  }

  lemma RunOne(cfg: LedgerCfg, l: Ledger, op: Op, next: Ledger)
    requires Perform(cfg, l, op) == Some(next)
    ensures RunOps(cfg, l, [op]) == Some(next)
  {
    RunHead(cfg, l, [op], next);
    assert [op][1..] == [];
  }

  lemma DueIgnoresRows(cfg: LedgerCfg, l: Ledger, row: Pending, height: u64, rows: seq<Pending>)
    requires ApplyDue(cfg, l, row, height).Done?
    ensures CheckDue(l.(pending := rows), row, height) == CheckDue(l, row, height)
    ensures ApplyDue(cfg, l.(pending := rows), row, height)
      == Done(ApplyDue(cfg, l, row, height).value.(pending := rows))
  {
  }

  /** One round: the same signed payment is queued and drained, and the payer gains by it. */
  function Round(h: u64): seq<Op> { [Apply(CirclePayment(), h, true), DrainDue(h)] }

  lemma RoundRuns(cfg: LedgerCfg, l: Ledger, next: Ledger, balance: u128, feePool: u128, at: u64,
                  h: u64)
    requires 6 <= balance < 100 && feePool < 100 && at <= h && cfg == Keyed(Delayed(), true)
    requires l == Circle(balance, feePool, at, []) && next == Circle(balance + 5, feePool + 1, h, [])
    ensures RunOps(cfg, l, Round(h)) == Some(next)
    ensures RunExecuted(cfg, l, Round(h)) == [Execution(Delayed(), 0, true)]
  {
    var queued := Circle(balance, feePool, at, [Waiting(h)]);
    CircleQueued(cfg, balance, feePool, at, h);
    CircleDrained(cfg, balance, feePool, at, queued, h);
    RoundLog(cfg, l, queued, next, Round(h));
  }

  lemma RoundLog(cfg: LedgerCfg, l: Ledger, queued: Ledger, next: Ledger, ops: seq<Op>)
    requires |ops| == 2 && Perform(cfg, l, ops[0]) == Some(queued) && Perform(cfg, queued, ops[1]) == Some(next)
    ensures RunOps(cfg, l, ops) == Some(next)
    ensures RunExecuted(cfg, l, ops) == Executed(cfg, l, ops[0]) + Executed(cfg, queued, ops[1])
  {
    assert ops[1..] == [ops[1]] && ops[1..][1..] == [];
    RunHead(cfg, queued, ops[1..], next);
    RunHead(cfg, l, ops, queued);
    assert RunExecuted(cfg, next, []) == [];
    assert RunExecuted(cfg, queued, ops[1..]) == Executed(cfg, queued, ops[1]) + [];
  }

  lemma BothRounds(cfg: LedgerCfg, l: Ledger, mid: Ledger, last: Ledger)
    requires cfg == Keyed(Delayed(), true) && l == Circle(10, 0, 0, [])
    requires mid == Circle(15, 1, 1, []) && last == Circle(20, 2, 2, [])
    ensures RunOps(cfg, l, Round(1) + Round(2)) == Some(last)
    ensures RunExecuted(cfg, l, Round(1) + Round(2))
      == [Execution(Delayed(), 0, true)] + [Execution(Delayed(), 0, true)]
  {
    RoundRuns(cfg, l, mid, 10, 0, 0, 1);
    RoundRuns(cfg, mid, last, 15, 1, 1, 2);
    RunLogConcat(cfg, l, Round(1), Round(2));
  }

  /** One signed transfer, queued and drained in each of two blocks: both times it executes under nonce 0, and
      the payer has doubled its coins. */
  lemma ReplayedTransfer() returns (cfg: LedgerCfg, genesis: Ledger, last: Ledger, tx: SignedTx)
    ensures genesis == LedgerOf(FundFrom(map[], [CircleRow()])) && SenderOf(cfg.c.hash, tx) == CircleRow().acct
    ensures var ops := Closing(Delayed())
                       + ([Apply(tx, 1, true), DrainDue(1)] + [Apply(tx, 2, true), DrainDue(2)]);
      RunOps(cfg, genesis, ops) == Some(last) && Repeats(RunExecuted(cfg, genesis, ops))
    ensures Delayed() in last.accounts && last.accounts[Delayed()].balance == 20 && CircleRow().bal == 10
  {
    cfg, tx, last := Keyed(Delayed(), true), CirclePayment(), Circle(20, 2, 2, []);
    genesis := LedgerOf(FundFrom(map[], [CircleRow()]));
    var l := Circle(10, 0, 0, []);
    KeySenders(Delayed(), true, tx);
    CircleBegins(cfg);
    BothRounds(cfg, l, Circle(15, 1, 1, []), last);
    RunLogConcat(cfg, genesis, Closing(Delayed()), Round(1) + Round(2));
    TwiceRepeats(RunExecuted(cfg, genesis, Closing(Delayed())), Execution(Delayed(), 0, true));
  }

  lemma TwiceRepeats(earlier: seq<Execution>, e: Execution)
    ensures Repeats(earlier + ([e] + [e]))
  {
    var log := earlier + ([e] + [e]);
    assert log[|earlier|] == e && log[|earlier| + 1] == e;
    assert SameNonce(log[|earlier|], log[|earlier| + 1]);
  }

  // ----- the fast path -----

  function DetourRows(): seq<FundingRow> {
    [FundingRow(Other(1), Key(3), 0, 10), FundingRow(Other(2), Key(2), 0, 0)]
  }

  /** A payer, the rescue account of the payee, and the finalized payee. */
  function Detour(payer: Account, rescue: u128, at: u64, payee: u128, feePool: u128): Ledger {
    Bare(map[Other(1) := payer, Other(2) := Holder(2, rescue, at), PAYEE := Closed(Other(2), payee)], feePool, [])
  }

  function DetourPayment(): SignedTx { Signed(3, 0, Transfer(PAYEE, 5, 1)) }

  /** The payer after its payment. */
  function Paid(): Account { Holder(3, 4, 1).(nonce := 1) }

  lemma DetourFunded()
    ensures FundFrom(map[], DetourRows()) == map[Other(1) := Holder(3, 10, 0), Other(2) := Holder(2, 0, 0)]
  {
    assert Other(1)[31] != Other(2)[31];
    TwoFunded(DetourRows()[0], DetourRows()[1]);
    assert FundedAccount(DetourRows()[0]) == Holder(3, 10, 0) && FundedAccount(DetourRows()[1]) == Holder(2, 0, 0);
  }

  lemma DetourBegins(cfg: LedgerCfg)
    requires cfg == Keyed(Other(2), true)
    ensures RunOps(cfg, LedgerOf(FundFrom(map[], DetourRows())), Closing(Other(2)))
      == Some(Detour(Holder(3, 10, 0), 0, 0, 0, 0))
  {
    DetourFunded();
    assert Other(1)[31] != Other(2)[31];
    var l := Bare(map[Other(1) := Holder(3, 10, 0), Other(2) := Holder(2, 0, 0)], 0, []);
    var next := Detour(Holder(3, 10, 0), 0, 0, 0, 0);
    assert l.accounts[PAYEE := Closed(Other(2), 0)] == next.accounts;
    CloseRuns(cfg, l, Other(2), l.(accounts := l.accounts[PAYEE := Opened(Other(2))]), next);
  }

  /** A transfer settled at once, by an account with the coins for it. */
  lemma Settles(cfg: LedgerCfg, l: Ledger, id: AccountId, tx: SignedTx, redirect: Option<AccountId>, dst: AccountId,
                from: Account, to: Account)
    requires tx.body.Transfer? && !ConservationFlag(id)
    requires dst == match redirect case Some(r) => r case None => tx.body.to
    requires id in l.accounts && l.accounts[id].initialized && dst != id && Recipient(l, dst).Ok?
    requires tx.body.amount + tx.body.fee <= l.accounts[id].balance && l.accounts[id].nonce < U64_MAX
    requires from == Debited(TouchAccount(cfg, l.accounts[id], 1), tx.body.amount + tx.body.fee)
    requires to == Credit(TouchAccount(cfg, l.accounts[dst], 1), tx.body.amount)
    ensures TransferBody(cfg, l, id, l.accounts[id], tx, redirect, 1)
      == Done(l.(accounts := l.accounts[id := from][dst := to], feePool := SatAdd128(l.feePool, tx.body.fee)))
  {
  }

  /** An account with this signer and nonce, and nothing waiting. */
  lemma FastAdmitted(cfg: LedgerCfg, l: Ledger, id: AccountId, tx: SignedTx)
    requires id in l.accounts && l.pending == [] && l.accounts[id].nonce == tx.nonce
    requires l.accounts[id].signingPk == tx.signerPk && l.accounts[id].derivationIndex == tx.derivationIndex
    ensures Admit(cfg, l, id, tx, 1, false) == Ok((l.accounts[id], None))
    ensures Evaluate(cfg, l, tx, 1).Ok? ==>
      Admit(cfg, l, id, tx, 1, true) == Ok((l.accounts[id], Evaluate(cfg, l, tx, 1).value))
  {
  }

  lemma DetourEvaluated(cfg: LedgerCfg, l: Ledger, tx: SignedTx)
    requires tx == DetourPayment() && SenderOf(cfg.c.hash, tx) == Other(1) && l == Detour(Holder(3, 10, 0), 0, 0, 0, 0)
    ensures Evaluate(cfg, l, tx, 1) == Ok(Some(Other(2)))
  {
    assert Recipient(l, PAYEE).Ok? && Recipient(l, Other(2)).Ok?;
  }

  lemma DetourChecked(cfg: LedgerCfg, l: Ledger, tx: SignedTx)
    requires cfg == Keyed(Other(2), true) && tx == DetourPayment() && l == Detour(Holder(3, 10, 0), 0, 0, 0, 0)
    ensures Diverted(cfg, l, tx, 1) && ApplyTx(cfg, l, tx, 1, true) == Applied(Detour(Paid(), 5, 1, 0, 1))
  {
    KeySenders(Other(2), true, tx);
    assert Other(1)[31] != Other(2)[31];
    DetourEvaluated(cfg, l, tx);
    FastAdmitted(cfg, l, Other(1), tx);
    Settles(cfg, l, Other(1), tx, Some(Other(2)), Other(2), Paid(), Holder(2, 5, 1));
    assert l.accounts[Other(1) := Paid()][Other(2) := Holder(2, 5, 1)] == Detour(Paid(), 5, 1, 0, 1).accounts;
    AppliedFrom(cfg, l, tx, Other(1), 1, true, l.accounts[Other(1)], Some(Other(2)), Detour(Paid(), 5, 1, 0, 1));
  }

  lemma DetourFast(cfg: LedgerCfg, l: Ledger, tx: SignedTx)
    requires cfg == Keyed(Other(2), true) && tx == DetourPayment() && l == Detour(Holder(3, 10, 0), 0, 0, 0, 0)
    ensures ApplyTx(cfg, l, tx, 1, false) == Applied(Detour(Paid(), 0, 0, 5, 1))
  {
    KeySenders(Other(2), true, tx);
    assert Other(1)[31] != Other(2)[31];
    FastAdmitted(cfg, l, Other(1), tx);
    Settles(cfg, l, Other(1), tx, None, PAYEE, Paid(), Closed(Other(2), 5));
    assert l.accounts[Other(1) := Paid()][PAYEE := Closed(Other(2), 5)] == Detour(Paid(), 0, 0, 5, 1).accounts;
    AppliedFrom(cfg, l, tx, Other(1), 1, false, l.accounts[Other(1)], None, Detour(Paid(), 0, 0, 5, 1));
  }

  lemma DetourHolds(l: Ledger, payer: Account, rescue: u128, at: u64, payee: u128, feePool: u128)
    requires l == Detour(payer, rescue, at, payee, feePool)
    ensures Other(2) in l.accounts && l.accounts[Other(2)].balance == rescue
    ensures PAYEE in l.accounts && l.accounts[PAYEE].balance == payee
  {
  }

  /** A transfer that the checked path pays to the rescue account, and the fast path to the finalized one. */
  lemma DivertedTransfer() returns (cfg: LedgerCfg, l: Ledger, tx: SignedTx, full: Ledger, fast: Ledger)
    ensures RunOps(cfg, LedgerOf(FundFrom(map[], DetourRows())), Closing(Other(2))) == Some(l)
    ensures Diverted(cfg, l, tx, 1)
    ensures ApplyTx(cfg, l, tx, 1, true) == Applied(full) && ApplyTx(cfg, l, tx, 1, false) == Applied(fast)
    ensures Other(2) in full.accounts && full.accounts[Other(2)].balance == 5
    ensures PAYEE in full.accounts && full.accounts[PAYEE].balance == 0
    ensures PAYEE in fast.accounts && fast.accounts[PAYEE].balance == 5
  {
    cfg, tx, l := Keyed(Other(2), true), DetourPayment(), Detour(Holder(3, 10, 0), 0, 0, 0, 0);
    full, fast := Detour(Paid(), 5, 1, 0, 1), Detour(Paid(), 0, 0, 5, 1);
    DetourBegins(cfg);
    DetourChecked(cfg, l, tx);
    DetourFast(cfg, l, tx);
    DetourHolds(full, Paid(), 5, 1, 0, 1);
    DetourHolds(fast, Paid(), 0, 0, 5, 1);
  }

  /** A finalized account that was paid by the fast path spends by it too, and could not by the checked one. */
  lemma FinalizedSpends() returns (cfg: LedgerCfg, l: Ledger, tx: SignedTx, next: Ledger)
    ensures var ops := Closing(Other(2)) + [Apply(DetourPayment(), 1, false)];
      RunOps(cfg, LedgerOf(FundFrom(map[], DetourRows())), ops) == Some(l)
    ensures Sealed(l, PAYEE) && l.accounts[PAYEE].balance == 5 && SenderOf(cfg.c.hash, tx) == PAYEE
    ensures !ApplyTx(cfg, l, tx, 1, true).Applied? && ApplyTx(cfg, l, tx, 1, false) == Applied(next)
    ensures PAYEE in next.accounts && next.accounts[PAYEE].balance == 1 && !StaysSealed(l, next, PAYEE)
  {
    cfg, tx, l := Keyed(Other(2), true), Signed(1, 2, Transfer(Other(2), 3, 1)), Detour(Paid(), 0, 0, 5, 1);
    var before := Detour(Holder(3, 10, 0), 0, 0, 0, 0);
    DetourBegins(cfg);
    DetourFast(cfg, before, DetourPayment());
    RunConcat(cfg, LedgerOf(FundFrom(map[], DetourRows())), Closing(Other(2)), [Apply(DetourPayment(), 1, false)]);
    RunOne(cfg, before, Apply(DetourPayment(), 1, false), l);
    next := SpentFast(cfg, l, tx);
    SealedSendsNothing(cfg, l, tx, 1);
  }

  lemma SpentFast(cfg: LedgerCfg, l: Ledger, tx: SignedTx) returns (next: Ledger)
    requires cfg == Keyed(Other(2), true) && tx == Signed(1, 2, Transfer(Other(2), 3, 1))
    requires l == Detour(Paid(), 0, 0, 5, 1)
    ensures SenderOf(cfg.c.hash, tx) == PAYEE && ApplyTx(cfg, l, tx, 1, false) == Applied(next)
    ensures PAYEE in next.accounts && next.accounts[PAYEE].balance == 1
  {
    KeySenders(Other(2), true, tx);
    FastAdmitted(cfg, l, PAYEE, tx);
    var (from, to) := (Closed(Other(2), 1).(nonce := 3), Holder(2, 3, 1));
    Settles(cfg, l, PAYEE, tx, None, Other(2), from, to);
    next := l.(accounts := l.accounts[PAYEE := from][Other(2) := to], feePool := 2);
    AppliedFrom(cfg, l, tx, PAYEE, 1, false, l.accounts[PAYEE], None, next);
  }

  /** A transfer that nobody signed: the fast path applies it, and the checked one refuses it. */
  lemma UnsignedTransfer() returns (cfg: LedgerCfg, l: Ledger, tx: SignedTx, next: Ledger)
    ensures l == LedgerOf(FundFrom(map[], DetourRows())) && !SigValid(cfg.c, tx)
    ensures ApplyTx(cfg, l, tx, 1, true) == Rejected(l, BadSignature) && ApplyTx(cfg, l, tx, 1, false) == Applied(next)
    ensures Other(1) in next.accounts && next.accounts[Other(1)].balance == 4
    ensures Other(2) in next.accounts && next.accounts[Other(2)].balance == 5
  {
    cfg, tx := Keyed(Other(2), false), Signed(3, 0, Transfer(Other(2), 5, 1));
    KeySenders(Other(2), false, tx);
    DetourFunded();
    l := LedgerOf(FundFrom(map[], DetourRows()));
    assert Other(1)[31] != Other(2)[31];
    FastAdmitted(cfg, l, Other(1), tx);
    Settles(cfg, l, Other(1), tx, None, Other(2), Paid(), Holder(2, 5, 1));
    next := l.(accounts := l.accounts[Other(1) := Paid()][Other(2) := Holder(2, 5, 1)], feePool := 1);
    AppliedFrom(cfg, l, tx, Other(1), 1, false, l.accounts[Other(1)], None, next);
  }

  // ----- a refused Init -----

  /** A first Init under a wrong nonce is refused, and leaves a blank row behind. */
  lemma RefusedInit()
    ensures var (cfg, l, tx) := (Keyed(Other(2), true), LedgerOf(FundFrom(map[], [])), Signed(1, 1, Init(0, 0)));
      ApplyTx(cfg, l, tx, 1, true) == Rejected(Bare(map[PAYEE := BlankAccount(Key(1), 0)], 0, []), BadNonce)
  {
    var (cfg, tx) := (Keyed(Other(2), true), Signed(1, 1, Init(0, 0)));
    KeySenders(Other(2), true, tx);
    assert ValidateShape(cfg.c, tx, true).Ok?;
  }
}
