/** Who pays, what a refusal leaves, when arithmetic can abort, and what finalizing an account means. */
module LedgerSafety {
  import opened Basics
  import opened Transactions
  import opened TxMessage
  import opened Division
  import opened Marks
  import opened Ledger
  import opened LedgerInvariant
  import opened LedgerSupply

  // ----- only the sender pays -----

  /** The same account, with coins and marks credited and none of either taken. */
  ghost predicate Received(a: Account, b: Account) {
    && b == a.(balance := b.balance, marks := b.marks)
    && b.balance >= a.balance && b.marks.stored >= a.marks.stored
  }

  ghost predicate OthersReceive(m: map<AccountId, Account>, n: map<AccountId, Account>, id: AccountId) {
    forall k :: k in m && k != id ==> k in n && Received(m[k], n[k])
  }

  /** Bringing marks up to a height takes none away. */
  lemma TouchGives(cfg: LedgerCfg, a: Account, height: u64, amount: u128)
    ensures Received(a, TouchAccount(cfg, a, height)) && Received(a, Credit(TouchAccount(cfg, a, height), amount))
  {
    LazyMarksAreExact(a.marks, a.staked, height, cfg.accrual);
    MulNat(PerHour(a.staked, cfg.accrual), Hours(a.marks.lastBlock, height, cfg.accrual));
  }

  lemma TransferOthers(cfg: LedgerCfg, l: Ledger, id: AccountId, acc: Account, tx: SignedTx,
                       redirect: Option<AccountId>, height: u64)
    requires tx.body.Transfer? && TransferBody(cfg, l, id, acc, tx, redirect, height).Done?
    ensures OthersReceive(l.accounts, TransferBody(cfg, l, id, acc, tx, redirect, height).value.accounts, id)
  {
    if !ConservationFlag(id) {
      var dst := match redirect case Some(r) => r case None => tx.body.to;
      if dst != id {
        TouchGives(cfg, l.accounts[dst], height, tx.body.amount);
      }
    }
  }

  lemma ImportOthers(l: Ledger, id: AccountId, acc: Account, tx: SignedTx)
    requires tx.body.Import? && ImportBody(l, id, acc, tx).Done?
    ensures OthersReceive(l.accounts, ImportBody(l, id, acc, tx).value.accounts, id)
  {
  }

  lemma PolicyOthers(cfg: LedgerCfg, l: Ledger, id: AccountId, acc: Account, tx: SignedTx, height: u64)
    requires tx.body.Policy? && PolicyBody(cfg, l, id, acc, tx, height).Done?
    ensures OthersReceive(l.accounts, PolicyBody(cfg, l, id, acc, tx, height).value.accounts, id)
  {
  }

  lemma BodyOthers(cfg: LedgerCfg, l: Ledger, id: AccountId, acc: Account, tx: SignedTx, redirect: Option<AccountId>,
                   height: u64)
    requires ApplyBody(cfg, l, id, acc, tx, redirect, height).Done?
    ensures OthersReceive(l.accounts, ApplyBody(cfg, l, id, acc, tx, redirect, height).value.accounts, id)
  {
    match tx.body
    case Transfer(_, _, _) => TransferOthers(cfg, l, id, acc, tx, redirect, height);
    case Export(_, _, _, _) =>
    case Import(_, _, _) => ImportOthers(l, id, acc, tx);
    case Policy(_, _, _) => PolicyOthers(cfg, l, id, acc, tx, height);
    case _ =>
  }

  /** A transaction takes nothing from any account but the one its signer's key derives, and changes
      nothing else about the others; on the checked path that key has signed it. */
  lemma OnlySenderPays(cfg: LedgerCfg, l: Ledger, tx: SignedTx, height: u64, checked: bool)
    requires ApplyTx(cfg, l, tx, height, checked).Applied?
    ensures OthersReceive(l.accounts, ApplyTx(cfg, l, tx, height, checked).ledger.accounts, SenderOf(cfg.c.hash, tx))
    ensures checked ==> cfg.c.verify(tx.signerPk, EncTx(tx), tx.signature)
  {
    var id, stubbed, acc, redirect := AppliedTrace(cfg, l, tx, height, checked);
    BodyOthers(cfg, stubbed, id, acc, tx, redirect, height);
  }

  // ----- refusals and aborts -----

  /** The sender's first Init, well formed: the one transaction that can leave something behind. */
  predicate FirstInit(cfg: LedgerCfg, l: Ledger, tx: SignedTx, checked: bool) {
    tx.body.Init? && SenderOf(cfg.c.hash, tx) !in l.accounts && ValidateShape(cfg.c, tx, checked).Ok?
  }

  /** A refused transaction changes nothing if and only if it is not a well-formed first Init, which leaves
      its blank row behind. */
  lemma RefusalKeeps(cfg: LedgerCfg, l: Ledger, tx: SignedTx, height: u64, checked: bool)
    requires ApplyTx(cfg, l, tx, height, checked).Rejected?
    ensures var after := ApplyTx(cfg, l, tx, height, checked).ledger;
      && (after == l <==> !FirstInit(cfg, l, tx, checked))
      && (FirstInit(cfg, l, tx, checked) ==>
           var id := SenderOf(cfg.c.hash, tx);
           after == l.(accounts := l.accounts[id := BlankAccount(tx.signerPk, tx.derivationIndex)]))
  {
  }

  lemma BodyNeverAborts(cfg: LedgerCfg, l: Ledger, id: AccountId, acc: Account, tx: SignedTx,
                        redirect: Option<AccountId>, height: u64)
    requires acc.nonce < U64_MAX && Worth(acc) <= U128_MAX
    ensures !ApplyBody(cfg, l, id, acc, tx, redirect, height).Abort?
  {
  }

  /** With a supply that fits 128 bits and a nonce to spare, no transaction overflows. */
  lemma NeverAborts(cfg: LedgerCfg, l: Ledger, tx: SignedTx, height: u64, checked: bool)
    requires Supply(l) <= U128_MAX && NonceOf(l.accounts, SenderOf(cfg.c.hash, tx)) < U64_MAX
    ensures !ApplyTx(cfg, l, tx, height, checked).Aborted?
  {
    var id := SenderOf(cfg.c.hash, tx);
    var stubbed := WithStub(l, id, tx);
    if ValidateShape(cfg.c, tx, checked).Ok? && Admit(cfg, stubbed, id, tx, height, checked).Ok? {
      var (acc, redirect) := Admit(cfg, stubbed, id, tx, height, checked).value;
      if id in l.accounts {
        TotalUpdate(l.accounts, id, acc);
      }
      BodyNeverAborts(cfg, stubbed, id, acc, tx, redirect, height);
    }
  }

  lemma {:induction false} RowsNeverAbort(cfg: LedgerCfg, l: Ledger, rows: seq<Pending>, height: u64)
    requires forall i :: 0 <= i < |rows| ==> rows[i].nonce < U64_MAX
    ensures DrainRows(cfg, l, rows, height).Some?
    decreases |rows|
  {
    if rows != [] {
      assert forall i :: 0 <= i < |rows[1..]| ==> rows[1..][i] == rows[i + 1];
      if height >= rows[0].executeAt && ApplyDue(cfg, l, rows[0], height).Done? {
        RowsNeverAbort(cfg, ApplyDue(cfg, l, rows[0], height).value, rows[1..], height);
      } else {
        RowsNeverAbort(cfg, l, rows[1..], height);
      }
    }
  }

  /** A drain overflows nothing when every waiting transfer's sender has a nonce to spare. */
  lemma DrainNeverAborts(cfg: LedgerCfg, l: Ledger, height: u64)
    requires Inv(l)
    requires forall i :: 0 <= i < |l.pending| ==> NonceOf(l.accounts, l.pending[i].sender) < U64_MAX
    ensures Drain(cfg, l, height).Some?
  {
    forall i | 0 <= i < |l.pending|
      ensures l.pending[i].nonce < U64_MAX
    {
      assert RowOk(l, l.pending[i]);
    }
    RowsNeverAbort(cfg, l.(pending := []), l.pending, height);
  }

  // ----- other accounts' marks -----

  /** Marks left alone, or brought up to the height. */
  ghost predicate MarksFollow(cfg: LedgerCfg, a: Account, b: Account, height: u64) {
    b.staked == a.staked && (b.marks == a.marks || b.marks == TouchAccount(cfg, a, height).marks)
  }

  lemma BodyMarks(cfg: LedgerCfg, l: Ledger, id: AccountId, acc: Account, tx: SignedTx, redirect: Option<AccountId>,
                  height: u64, k: AccountId)
    requires ApplyBody(cfg, l, id, acc, tx, redirect, height).Done? && k in l.accounts && k != id
    ensures var next := ApplyBody(cfg, l, id, acc, tx, redirect, height).value;
      k in next.accounts && MarksFollow(cfg, l.accounts[k], next.accounts[k], height)
  {
    if tx.body.Transfer? {
      TransferMarks(cfg, l, id, acc, tx, redirect, height, k);
    } else if tx.body.Import? {
      ImportMarks(cfg, l, id, acc, tx, height, k);
    } else if tx.body.Policy? {
      PolicyMarks(cfg, l, id, acc, tx, height, k);
    }
  }

  lemma TransferMarks(cfg: LedgerCfg, l: Ledger, id: AccountId, acc: Account, tx: SignedTx,
                      redirect: Option<AccountId>, height: u64, k: AccountId)
    requires tx.body.Transfer? && TransferBody(cfg, l, id, acc, tx, redirect, height).Done?
    requires k in l.accounts && k != id
    ensures var next := TransferBody(cfg, l, id, acc, tx, redirect, height).value;
      k in next.accounts && MarksFollow(cfg, l.accounts[k], next.accounts[k], height)
  {
  }

  lemma ImportMarks(cfg: LedgerCfg, l: Ledger, id: AccountId, acc: Account, tx: SignedTx, height: u64, k: AccountId)
    requires tx.body.Import? && ImportBody(l, id, acc, tx).Done? && k in l.accounts && k != id
    ensures var next := ImportBody(l, id, acc, tx).value;
      k in next.accounts && MarksFollow(cfg, l.accounts[k], next.accounts[k], height)
  {
  }

  lemma PolicyMarks(cfg: LedgerCfg, l: Ledger, id: AccountId, acc: Account, tx: SignedTx, height: u64, k: AccountId)
    requires tx.body.Policy? && PolicyBody(cfg, l, id, acc, tx, height).Done? && k in l.accounts && k != id
    ensures var next := PolicyBody(cfg, l, id, acc, tx, height).value;
      k in next.accounts && MarksFollow(cfg, l.accounts[k], next.accounts[k], height)
  {
  }

  /** The marks an account would have at a later height, were nothing more to happen. */
  function MarksAt(cfg: LedgerCfg, a: Account, later: u64): u32 {
    ComputeLazyMarks(a.marks, a.staked, later, cfg.accrual)
  }

  /** A transaction by somebody else never raises the marks an account will have, and costs it at most the
      hour it had begun. */
  lemma OthersLaterMarks(cfg: LedgerCfg, l: Ledger, tx: SignedTx, height: u64, checked: bool, k: AccountId, later: u64)
    requires ApplyTx(cfg, l, tx, height, checked).Applied? && k in l.accounts && k != SenderOf(cfg.c.hash, tx)
    requires l.accounts[k].marks.lastBlock <= height <= later
    ensures var (a, n) := (l.accounts[k], ApplyTx(cfg, l, tx, height, checked).ledger.accounts);
      && k in n
      && MarksAt(cfg, n[k], later) <= MarksAt(cfg, a, later)
      && MarksAt(cfg, a, later) <= MarksAt(cfg, n[k], later) + PerHour(a.staked, cfg.accrual)
  {
    var id, stubbed, acc, redirect := AppliedTrace(cfg, l, tx, height, checked);
    BodyMarks(cfg, stubbed, id, acc, tx, redirect, height, k);
    OneCut(l.accounts[k].marks, l.accounts[k].staked, height, later, cfg.accrual);
    MulNat(PerHour(l.accounts[k].staked, cfg.accrual), 1);
  }

  // ----- finalized accounts -----

  /** Finalized by an emergency activation. */
  ghost predicate Sealed(l: Ledger, k: AccountId) {
    && k in l.accounts
    && l.accounts[k].initialized && l.accounts[k].finalized && RoutingEmergencyRedirect in l.accounts[k].active
  }

  /** Still sealed, and no poorer. */
  ghost predicate StaysSealed(l: Ledger, next: Ledger, k: AccountId) {
    k in l.accounts && Sealed(next, k) && Received(l.accounts[k], next.accounts[k])
  }

  lemma SealedSendsNothing(cfg: LedgerCfg, l: Ledger, tx: SignedTx, height: u64)
    requires Sealed(l, SenderOf(cfg.c.hash, tx))
    ensures !ApplyTx(cfg, l, tx, height, true).Applied?
  {
  }

  /** On the checked path a finalized account stays finalized and pays for nothing. */
  lemma TxKeepsSealed(cfg: LedgerCfg, l: Ledger, tx: SignedTx, height: u64, k: AccountId)
    requires Sealed(l, k) && ApplyTx(cfg, l, tx, height, true).Applied?
    ensures StaysSealed(l, ApplyTx(cfg, l, tx, height, true).ledger, k)
  {
    if k == SenderOf(cfg.c.hash, tx) {
      SealedSendsNothing(cfg, l, tx, height);
    } else {
      OnlySenderPays(cfg, l, tx, height, true);
    }
  }

  lemma {:induction false} RefundKeepsSealed(l: Ledger, at: nat, height: u64, k: AccountId)
    requires Sealed(l, k) && at <= |l.locks|
    ensures StaysSealed(l, RefundFrom(l, at, height), k)
    decreases |l.locks| - at
  {
    if at < |l.locks| {
      RefundKeepsSealed(RefundLock(l, at, height), at + 1, height, k);
    }
  }

  lemma {:induction false} RowsKeepSealed(cfg: LedgerCfg, l: Ledger, rows: seq<Pending>, height: u64, k: AccountId)
    requires Sealed(l, k) && DrainRows(cfg, l, rows, height).Some?
    ensures StaysSealed(l, DrainRows(cfg, l, rows, height).value.0, k)
    decreases |rows|
  {
    if rows != [] {
      if height >= rows[0].executeAt && ApplyDue(cfg, l, rows[0], height).Done? {
        var next := ApplyDue(cfg, l, rows[0], height).value;
        DueKeepsSealed(cfg, l, rows[0], height, k);
        RowsKeepSealed(cfg, next, rows[1..], height, k);
      } else {
        RowsKeepSealed(cfg, l, rows[1..], height, k);
      }
    }
  }

  lemma DueKeepsSealed(cfg: LedgerCfg, l: Ledger, row: Pending, height: u64, k: AccountId)
    requires Sealed(l, k) && ApplyDue(cfg, l, row, height).Done?
    ensures StaysSealed(l, ApplyDue(cfg, l, row, height).value, k)
  {
    TouchGives(cfg, l.accounts[k], height, row.amount);
  }

  /** What an emergency activation does: the account pays its fee, everything left goes to the rescue
      account, its waiting transfers are dropped, and it is finalized unless the redirect was already on. */
  lemma EmergencyEffect(cfg: LedgerCfg, l: Ledger, tx: SignedTx, height: u64, checked: bool)
    requires ApplyTx(cfg, l, tx, height, checked).Applied? && tx.body.Policy? && IsEmergency(tx.body.action)
    requires Supply(l) <= U128_MAX
    ensures var id := SenderOf(cfg.c.hash, tx);
      var next := ApplyTx(cfg, l, tx, height, checked).ledger;
      && id in l.accounts && l.accounts[id].rescue.Some? && id in next.accounts
      && var target := l.accounts[id].rescue.value;
      && target in l.accounts && target in next.accounts
      && (target != id ==>
            Worth(next.accounts[id]) == 0
            && next.accounts[target].balance == l.accounts[target].balance + Worth(l.accounts[id]) - tx.body.fee)
      && (target == id ==> Worth(next.accounts[id]) == Worth(l.accounts[id]) - tx.body.fee)
      && (forall i :: 0 <= i < |next.pending| ==> next.pending[i].sender != id)
      && RoutingEmergencyRedirect in next.accounts[id].active
      && (next.accounts[id].finalized
          <==> l.accounts[id].finalized || RoutingEmergencyRedirect !in l.accounts[id].active)
  {
    var id, stubbed, acc, redirect := AppliedTrace(cfg, l, tx, height, checked);
    EvacuationEffect(cfg, l, id, acc, tx, height);
  }

  lemma EvacuationEffect(cfg: LedgerCfg, l: Ledger, id: AccountId, acc: Account, tx: SignedTx, height: u64)
    requires tx.body.Policy? && IsEmergency(tx.body.action) && Supply(l) <= U128_MAX
    requires id in l.accounts && acc.balance == l.accounts[id].balance && acc.staked == l.accounts[id].staked
    requires PolicyBody(cfg, l, id, acc, tx, height).Done?
    ensures var next := PolicyBody(cfg, l, id, acc, tx, height).value;
      && acc.rescue.Some? && id in next.accounts
      && var target := acc.rescue.value;
      && target in l.accounts && target in next.accounts
      && (target != id ==>
            Worth(next.accounts[id]) == 0
            && next.accounts[target].balance == l.accounts[target].balance + Worth(acc) - tx.body.fee)
      && (target == id ==> Worth(next.accounts[id]) == Worth(acc) - tx.body.fee)
      && (forall i :: 0 <= i < |next.pending| ==> next.pending[i].sender != id)
      && RoutingEmergencyRedirect in next.accounts[id].active
      && (next.accounts[id].finalized <==> acc.finalized || RoutingEmergencyRedirect !in acc.active)
  {
    var touched := TouchAccount(cfg, acc, height);
    EmergencyTarget(cfg, l, touched, tx.body.action, tx);
    ActionKeeps(touched, tx.body.action, height);
    WithoutSenderWithin(l.pending, id);
    if acc.rescue.value != id {
      TwoAccounts(l.accounts, id, acc.rescue.value);
    }
  }
}
