/** Conservation of coins: what each ledger operation does to the total supply. */
module LedgerSupply {
  import opened Basics
  import opened Transactions
  import opened TxMessage
  import opened Marks
  import opened Ledger
  import opened LedgerInvariant

  function Worth(a: Account): nat { a.balance + a.staked }

  /** The worth of all accounts together. */
  ghost function Total(m: map<AccountId, Account>): nat
    decreases |m|
  {
    if m == map[] then 0
    else
      var k :| k in m;
      Worth(m[k]) + Total(m - {k})
  }

  function Held(locks: seq<Lock>): nat {
    if locks == [] then 0 else Held(locks[1..]) + if locks[0].state.Locked? then locks[0].amount else 0
  }

  /** Every coin: in accounts, in the fee pool, or held by an unsettled lock. */
  ghost function Supply(l: Ledger): nat { Total(l.accounts) + l.feePool + Held(l.locks) }

  // ----- sums over a map -----

  lemma {:induction false} TotalWithout(m: map<AccountId, Account>, k: AccountId)
    requires k in m
    ensures Total(m) == Worth(m[k]) + Total(m - {k})
    decreases |m|
  {
    var j :| j in m && Total(m) == Worth(m[j]) + Total(m - {j});
    if j != k {
      TotalWithout(m - {j}, k);
      TotalWithout(m - {k}, j);
      assert (m - {j}) - {k} == (m - {k}) - {j};
    }
  }

  lemma TotalUpdate(m: map<AccountId, Account>, k: AccountId, a: Account)
    ensures Total(m[k := a]) + (if k in m then Worth(m[k]) else 0) == Total(m) + Worth(a)
    ensures k in m ==> Worth(m[k]) <= Total(m)
  {
    TotalWithout(m[k := a], k);
    assert m[k := a] - {k} == m - {k};
    if k in m {
      TotalWithout(m, k);
    } else {
      assert m - {k} == m;
    }
  }

  lemma {:induction false} HeldAfter(locks: seq<Lock>, at: nat, s: LockState)
    requires at < |locks| && locks[at].state.Locked? && !s.Locked?
    ensures Held(locks[at := locks[at].(state := s)]) + locks[at].amount == Held(locks)
  {
    var after := locks[at := locks[at].(state := s)];
    if at > 0 {
      HeldAfter(locks[1..], at - 1, s);
      assert after[1..] == locks[1..][at - 1 := locks[at].(state := s)];
    } else {
      assert after[1..] == locks[1..];
    }
  }

  lemma {:induction false} HeldAppend(locks: seq<Lock>, lock: Lock)
    ensures Held(locks + [lock]) == Held(locks) + if lock.state.Locked? then lock.amount else 0
  {
    if locks != [] {
      HeldAppend(locks[1..], lock);
      assert (locks + [lock])[1..] == locks[1..] + [lock];
    }
  }

  // ----- moves between accounts -----

  /** Settling replaces the sender's row and credits the destination. */
  lemma SettleTotal(m: map<AccountId, Account>, id: AccountId, from: Account, dst: AccountId, to: Account, amount: u128)
    requires id in m && (dst != id ==> dst in m && Worth(to) == Worth(m[dst]))
    requires Worth(from) <= Worth(m[id]) && Total(m) - Worth(m[id]) + Worth(from) + amount <= U128_MAX
    ensures Total(Settle(m, id, from, dst, to, amount)) == Total(m) - Worth(m[id]) + Worth(from) + amount
  {
    if dst == id {
      TotalUpdate(m, id, Credit(from, amount));
    } else {
      TotalUpdate(m, id, from);
      TotalUpdate(m[id := from], dst, Credit(to, amount));
    }
  }

  lemma TwoAccounts(m: map<AccountId, Account>, j: AccountId, k: AccountId)
    requires j in m && k in m && j != k
    ensures Worth(m[j]) + Worth(m[k]) <= Total(m)
  {
    TotalWithout(m, j);
    TotalWithout(m - {j}, k);
  }

  lemma EvacuateTotal(m: map<AccountId, Account>, id: AccountId, a: Account, target: AccountId)
    requires id in m && (target != id ==> target in m)
    requires Worth(a) <= Worth(m[id]) && Total(m) <= U128_MAX
    ensures Total(Evacuate(m, id, a, target)) == Total(m) - Worth(m[id]) + Worth(a)
  {
    TotalUpdate(m, id, a);
    if target != id {
      TwoAccounts(m, id, target);
      var to := Credit(Credit(m[target], a.balance), a.staked);
      TotalUpdate(m, target, to);
      TotalUpdate(m[target := to], id, a.(balance := 0, staked := 0));
    }
  }

  // ----- one transaction -----

  /** Coins a transaction creates: a claim's allocation, and an import that no lock here pays for. */
  ghost function Minted(cfg: LedgerCfg, l: Ledger, tx: SignedTx): nat {
    match tx.body
    case ClaimIPv4Batch(phase, _, _) =>
      (match FindPhase(cfg.claimPhases, phase) case Some(row) => row.allocation case None => 0)
    case Import(_, amount, exportId) => if HasLock(l, exportId) then 0 else amount
    case _ => 0
  }

  /** Coins a transaction destroys: an export under an id that already has a lock. */
  ghost function Burned(cfg: LedgerCfg, l: Ledger, tx: SignedTx): nat {
    if tx.body.Export? && HasLock(l, ExportId(cfg.c.hash, tx).value) then tx.body.amount else 0
  }

  /** The supply after a step is the supply before it, plus what it creates and minus what it destroys. */
  ghost predicate Balances(l: Ledger, next: Ledger, minted: nat, burned: nat) {
    Supply(next) + burned == Supply(l) + minted
  }

  lemma OwnSupply(cfg: LedgerCfg, l: Ledger, id: AccountId, acc: Account, tx: SignedTx, height: u64)
    requires Admitted(l, id, acc, tx) && IsOwn(tx.body) && OwnBody(cfg, l, id, acc, tx, height).Done?
    requires Supply(l) + Minted(cfg, l, tx) <= U128_MAX
    ensures Balances(l, l.(accounts := l.accounts[id := OwnBody(cfg, l, id, acc, tx, height).value]),
                     Minted(cfg, l, tx), 0)
  {
    TotalUpdate(l.accounts, id, OwnBody(cfg, l, id, acc, tx, height).value);
    OwnWorth(cfg, l, id, acc, tx, height);
  }

  lemma OwnWorth(cfg: LedgerCfg, l: Ledger, id: AccountId, acc: Account, tx: SignedTx, height: u64)
    requires IsOwn(tx.body) && OwnBody(cfg, l, id, acc, tx, height).Done?
    requires Worth(acc) + Minted(cfg, l, tx) <= U128_MAX
    ensures Worth(OwnBody(cfg, l, id, acc, tx, height).value) == Worth(acc) + Minted(cfg, l, tx)
  {
    if tx.body.Init? {
      InitKeeps(acc, tx, height);
    }
  }

  lemma TransferSupply(cfg: LedgerCfg, l: Ledger, id: AccountId, acc: Account, tx: SignedTx,
                       redirect: Option<AccountId>, height: u64)
    requires Admitted(l, id, acc, tx) && tx.body.Transfer? && TransferBody(cfg, l, id, acc, tx, redirect, height).Done?
    requires Supply(l) <= U128_MAX
    ensures Balances(l, TransferBody(cfg, l, id, acc, tx, redirect, height).value, 0, 0)
  {
    if !ConservationFlag(id) {
      TotalUpdate(l.accounts, id, acc);
      var dst, from, to := TransferSettles(cfg, l, id, acc, tx, redirect, height);
      SettleTotal(l.accounts, id, from, dst, to, tx.body.amount);
    }
  }

  lemma ExportSupply(cfg: LedgerCfg, l: Ledger, id: AccountId, acc: Account, tx: SignedTx, height: u64)
    requires Admitted(l, id, acc, tx) && tx.body.Export? && ExportBody(cfg, l, id, acc, tx, height).Done?
    requires Supply(l) <= U128_MAX
    ensures Balances(l, ExportBody(cfg, l, id, acc, tx, height).value, 0, Burned(cfg, l, tx))
  {
    var next := ExportBody(cfg, l, id, acc, tx, height).value;
    TotalUpdate(l.accounts, id, Debited(acc, tx.body.amount + tx.body.fee));
    if next.locks != l.locks {
      HeldAppend(l.locks, next.locks[|l.locks|]);
    }
  }

  lemma ImportSupply(cfg: LedgerCfg, l: Ledger, id: AccountId, acc: Account, tx: SignedTx)
    requires LocksOk(l) && Admitted(l, id, acc, tx) && tx.body.Import? && ImportBody(l, id, acc, tx).Done?
    requires Supply(l) + Minted(cfg, l, tx) <= U128_MAX
    ensures Balances(l, ImportBody(l, id, acc, tx).value, Minted(cfg, l, tx), 0)
  {
    var (exportId, to, amount, fee) := (tx.body.exportId, tx.body.to, tx.body.amount, tx.importFee.value);
    TotalUpdate(l.accounts, id, acc);
    if HasLock(l, exportId) {
      ImportFindsLock(l, id, acc, tx);
      HeldAfter(l.locks, LockIndex(l.locks, exportId), Released);
    }
    var from := Debited(acc, fee);
    SettleTotal(l.accounts, id, from, to, if to == id then from else l.accounts[to], amount);
  }

  lemma PolicySupply(cfg: LedgerCfg, l: Ledger, id: AccountId, acc: Account, tx: SignedTx, height: u64)
    requires Admitted(l, id, acc, tx) && tx.body.Policy? && PolicyBody(cfg, l, id, acc, tx, height).Done?
    requires Supply(l) <= U128_MAX
    ensures Balances(l, PolicyBody(cfg, l, id, acc, tx, height).value, 0, 0)
  {
    var touched := TouchAccount(cfg, acc, height);
    var a := ApplyPolicyAction(touched, tx.body.action, height).value;
    ActionKeeps(touched, tx.body.action, height);
    var paid := Debited(a, tx.body.fee);
    TotalUpdate(l.accounts, id, paid);
    if IsEmergency(tx.body.action) {
      EmergencyTarget(cfg, l, touched, tx.body.action, tx);
      EvacuateTotal(l.accounts, id, paid, tx.body.action.activationTarget.value);
    }
  }

  lemma BodySupply(cfg: LedgerCfg, l: Ledger, id: AccountId, acc: Account, tx: SignedTx, redirect: Option<AccountId>,
                   height: u64)
    requires Inv(l) && Admitted(l, id, acc, tx) && ApplyBody(cfg, l, id, acc, tx, redirect, height).Done?
    requires Supply(l) + Minted(cfg, l, tx) <= U128_MAX
    ensures Balances(l, ApplyBody(cfg, l, id, acc, tx, redirect, height).value, Minted(cfg, l, tx), Burned(cfg, l, tx))
  {
    match tx.body
    case Transfer(_, _, _) => TransferSupply(cfg, l, id, acc, tx, redirect, height);
    case Export(_, _, _, _) => ExportSupply(cfg, l, id, acc, tx, height);
    case Import(_, _, _) => ImportSupply(cfg, l, id, acc, tx);
    case Policy(_, _, _) => PolicySupply(cfg, l, id, acc, tx, height);
    case _ => OwnSupply(cfg, l, id, acc, tx, height);
  }

  /** An applied transaction moves coins, and creates or destroys only what `Minted` and `Burned` say. */
  lemma TxSupply(cfg: LedgerCfg, l: Ledger, tx: SignedTx, height: u64, checked: bool)
    requires Inv(l) && ApplyTx(cfg, l, tx, height, checked).Applied?
    requires Supply(l) + Minted(cfg, l, tx) <= U128_MAX
    ensures Balances(l, ApplyTx(cfg, l, tx, height, checked).ledger, Minted(cfg, l, tx), Burned(cfg, l, tx))
  {
    var id, stubbed, acc, redirect := AppliedTrace(cfg, l, tx, height, checked);
    StubKeepsInv(l, id, tx);
    TotalUpdate(l.accounts, id, BlankAccount(tx.signerPk, tx.derivationIndex));
    BodySupply(cfg, stubbed, id, acc, tx, redirect, height);
  }

  // ----- block work -----

  lemma RefundLockSupply(l: Ledger, at: nat, height: u64)
    requires Inv(l) && at < |l.locks| && Supply(l) <= U128_MAX
    ensures Balances(l, RefundLock(l, at, height), 0, 0)
  {
    var lock := l.locks[at];
    assert LockOk(l, lock);
    if lock.state.Locked? {
      HeldAfter(l.locks, at, Refunded);
      TotalUpdate(l.accounts, lock.refundAccount, Credit(l.accounts[lock.refundAccount], lock.amount));
    }
  }

  /** Expired locks only give back what they held. */
  lemma {:induction false} RefundSupply(l: Ledger, at: nat, height: u64)
    requires Inv(l) && at <= |l.locks| && Supply(l) <= U128_MAX
    ensures Balances(l, RefundFrom(l, at, height), 0, 0)
    decreases |l.locks| - at
  {
    if at < |l.locks| {
      RefundLockKeepsInv(l, at, height);
      RefundLockSupply(l, at, height);
      RefundSupply(RefundLock(l, at, height), at + 1, height);
    }
  }

  /** Coins a due transfer creates: none, unless it returns to its sender. */
  function DueMinted(l: Ledger, row: Pending, height: u64): nat {
    if ReturnsToSender(l, row, height) then row.amount + row.fee else 0
  }

  /** The destination's row is written over the sender's when they are one. */
  lemma DueTotal(m: map<AccountId, Account>, id: AccountId, from: Account, dst: AccountId, to: Account, amount: u128)
    requires id in m && dst in m && Worth(to) == Worth(m[dst]) && Worth(from) + amount <= Worth(m[id])
    requires Total(m) + (if dst == id then amount else 0) <= U128_MAX
    ensures Total(m[id := from][dst := Credit(to, amount)])
      == Total(m) + amount - if dst == id then 0 else Worth(m[id]) - Worth(from)
  {
    TotalUpdate(m, id, from);
    TotalUpdate(m, dst, m[dst]);
    TotalUpdate(m[id := from], dst, Credit(to, amount));
  }

  lemma DueSupply(cfg: LedgerCfg, l: Ledger, row: Pending, height: u64)
    requires ApplyDue(cfg, l, row, height).Done? && Supply(l) + DueMinted(l, row, height) <= U128_MAX
    ensures Balances(l, ApplyDue(cfg, l, row, height).value, DueMinted(l, row, height), 0)
  {
    var acc, dst := l.accounts[row.sender], CheckDue(l, row, height).value;
    DueTotal(l.accounts, row.sender, Debited(TouchAccount(cfg, acc, height), row.amount + row.fee),
             dst, TouchAccount(cfg, l.accounts[dst], height), row.amount);
  }

  /** A delayed transfer conserves coins exactly when it is empty or goes to somebody else. */
  lemma DueConserves(cfg: LedgerCfg, l: Ledger, row: Pending, height: u64)
    requires ApplyDue(cfg, l, row, height).Done? && Supply(l) + row.amount + row.fee <= U128_MAX
    ensures Supply(ApplyDue(cfg, l, row, height).value) == Supply(l)
      <==> !ReturnsToSender(l, row, height) || row.amount + row.fee == 0
  {
    DueSupply(cfg, l, row, height);
  }

  lemma RewardSupply(l: Ledger, producer: AccountId, amount: u128, stakeMin: u128)
    requires Supply(l) + amount <= U128_MAX
    ensures var paid := if producer in l.accounts && l.accounts[producer].staked >= stakeMin then amount else 0;
      Balances(l, Reward(l, producer, amount, stakeMin), paid, 0)
  {
    if producer in l.accounts {
      TotalUpdate(l.accounts, producer, Credit(l.accounts[producer], amount));
    }
  }
}
