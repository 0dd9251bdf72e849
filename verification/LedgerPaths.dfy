/** The checked path against the fast one: where they agree, and what each does for a finalized account. */
module LedgerPaths {
  import opened Basics
  import opened Transactions
  import opened TxMessage
  import opened Ledger
  import opened LedgerInvariant
  import opened LedgerSupply
  import opened LedgerRuns
  import opened LedgerNonces
  import opened LedgerSafety

  // ----- the fast path -----

  /** The recipient's policy sends the transfer somewhere else. */
  predicate Diverted(cfg: LedgerCfg, l: Ledger, tx: SignedTx, height: u64) {
    tx.body.Transfer?
    && match Evaluate(cfg, l, tx, height)
      case Ok(Some(to)) => to != tx.body.to
      case _ => false
  }

  /** The marks of this account were already brought up to this height. */
  predicate UpToDate(l: Ledger, k: AccountId, height: u64)
  {
    k in l.accounts && l.accounts[k].marks.lastBlock == height
  }

  /** A diverted transfer that does not tell its two destinations apart: it moves nothing at once, and
      touching either destination changes nothing. */
  predicate Idle(l: Ledger, id: AccountId, tx: SignedTx, to: AccountId, height: u64)
    requires tx.body.Transfer?
  {
    && !ConservationFlag(id) && tx.body.amount == 0
    && UpToDate(l, tx.body.to, height) && (to == id || UpToDate(l, to, height))
  }

  lemma EvaluateStub(cfg: LedgerCfg, l: Ledger, tx: SignedTx, height: u64)
    requires Evaluate(cfg, WithStub(l, SenderOf(cfg.c.hash, tx), tx), tx, height).Ok?
    ensures Evaluate(cfg, WithStub(l, SenderOf(cfg.c.hash, tx), tx), tx, height).value.Some?
      ==> tx.body.Transfer? && Recipient(l, tx.body.to).Ok?
  {
  }

  lemma TouchIdle(cfg: LedgerCfg, a: Account, height: u64)
    ensures TouchAccount(cfg, a, height) == a <==> a.marks.lastBlock == height
  {
  }

  lemma DifferAt(m: map<AccountId, Account>, n: map<AccountId, Account>, k: AccountId)
    requires k in m && k in n && m[k] != n[k]
    ensures m != n
  {
  }

  /** A queued transfer names its destination, whatever the amount. */
  lemma QueuedElsewhere(cfg: LedgerCfg, l: Ledger, id: AccountId, acc: Account, tx: SignedTx, to: AccountId,
                        height: u64)
    requires tx.body.Transfer? && ConservationFlag(id) && to != tx.body.to && tx.body.to != id
    requires Recipient(l, tx.body.to).Ok? && TransferBody(cfg, l, id, acc, tx, Some(to), height).Done?
    ensures TransferBody(cfg, l, id, acc, tx, None, height).Done?
    ensures TransferBody(cfg, l, id, acc, tx, Some(to), height) != TransferBody(cfg, l, id, acc, tx, None, height)
  {
    var full := TransferBody(cfg, l, id, acc, tx, Some(to), height).value;
    var fast := TransferBody(cfg, l, id, acc, tx, None, height).value;
    assert full.pending[|l.pending|].recipient == to && fast.pending[|l.pending|].recipient == tx.body.to;
  }

  /** A transfer settled elsewhere is the same one exactly when it is idle. */
  lemma SettledElsewhere(cfg: LedgerCfg, l: Ledger, id: AccountId, acc: Account, tx: SignedTx, to: AccountId,
                         height: u64)
    requires tx.body.Transfer? && !ConservationFlag(id) && to != tx.body.to && tx.body.to != id
    requires id in l.accounts && Worth(acc) == Worth(l.accounts[id]) && Supply(l) <= U128_MAX
    requires Recipient(l, tx.body.to).Ok? && TransferBody(cfg, l, id, acc, tx, Some(to), height).Done?
    ensures TransferBody(cfg, l, id, acc, tx, None, height).Done?
    ensures TransferBody(cfg, l, id, acc, tx, Some(to), height) == TransferBody(cfg, l, id, acc, tx, None, height)
      <==> Idle(l, id, tx, to, height)
  {
    var (there, amount) := (tx.body.to, tx.body.amount);
    var full := TransferBody(cfg, l, id, acc, tx, Some(to), height).value;
    var fast := TransferBody(cfg, l, id, acc, tx, None, height).value;
    TwoAccounts(l.accounts, id, there);
    assert full.accounts[there] == l.accounts[there];
    assert fast.accounts[there] == Credit(TouchAccount(cfg, l.accounts[there], height), amount);
    TouchIdle(cfg, l.accounts[there], height);
    if amount > 0 || !UpToDate(l, there, height) {
      DifferAt(full.accounts, fast.accounts, there);
    } else if to != id {
      TouchIdle(cfg, l.accounts[to], height);
      assert fast.accounts[to] == l.accounts[to];
      assert full.accounts[to] == TouchAccount(cfg, l.accounts[to], height);
      if !UpToDate(l, to, height) {
        DifferAt(full.accounts, fast.accounts, to);
      } else {
        assert full.accounts == fast.accounts;
      }
    } else {
      assert full.accounts == fast.accounts;
    }
  }

  lemma SameDestination(cfg: LedgerCfg, l: Ledger, id: AccountId, acc: Account, tx: SignedTx, height: u64)
    requires tx.body.Transfer?
    ensures TransferBody(cfg, l, id, acc, tx, Some(tx.body.to), height)
      == TransferBody(cfg, l, id, acc, tx, None, height)
  {
  }

  /** What the checked path applies has the same effect on the fast path if and only if no policy diverts it,
      or the diversion is idle. */
  lemma FastPathAgrees(cfg: LedgerCfg, l: Ledger, tx: SignedTx, height: u64)
    requires ApplyTx(cfg, l, tx, height, true).Applied? && Supply(l) <= U128_MAX
    ensures ApplyTx(cfg, l, tx, height, false).Applied?
    ensures ApplyTx(cfg, l, tx, height, false) == ApplyTx(cfg, l, tx, height, true)
      <==> (Diverted(cfg, l, tx, height) ==>
             Idle(l, SenderOf(cfg.c.hash, tx), tx, Evaluate(cfg, l, tx, height).value.value, height))
  {
    var id, stubbed, acc, redirect := AppliedTrace(cfg, l, tx, height, true);
    EvaluateStub(cfg, l, tx, height);
    if tx.body.Transfer? {
      if redirect == Some(tx.body.to) {
        SameDestination(cfg, stubbed, id, acc, tx, height);
      } else if redirect.Some? {
        if ConservationFlag(id) {
          QueuedElsewhere(cfg, l, id, acc, tx, redirect.value, height);
        } else {
          SettledElsewhere(cfg, l, id, acc, tx, redirect.value, height);
        }
      }
    }
  }

  /** A policy that redirects names an initialized destination. */
  lemma RedirectIsRecipient(cfg: LedgerCfg, l: Ledger, tx: SignedTx, height: u64)
    requires Evaluate(cfg, l, tx, height).Ok? && Evaluate(cfg, l, tx, height).value.Some?
    ensures tx.body.Transfer? && Recipient(l, Evaluate(cfg, l, tx, height).value.value).Ok?
  {
  }

  lemma RedirectedToo(cfg: LedgerCfg, l: Ledger, id: AccountId, acc: Account, tx: SignedTx, to: AccountId, height: u64)
    requires tx.body.Transfer? && Recipient(l, to).Ok? && TransferBody(cfg, l, id, acc, tx, None, height).Done?
    ensures TransferBody(cfg, l, id, acc, tx, Some(to), height).Done?
  {
  }

  /** What the fast path applies the checked path applies too if and only if it is signed and no policy
      refuses it. */
  lemma CheckedPathAccepts(cfg: LedgerCfg, l: Ledger, tx: SignedTx, height: u64)
    requires ApplyTx(cfg, l, tx, height, false).Applied?
    ensures ApplyTx(cfg, l, tx, height, true).Applied?
      <==> cfg.c.verify(tx.signerPk, EncTx(tx), tx.signature)
           && Evaluate(cfg, WithStub(l, SenderOf(cfg.c.hash, tx), tx), tx, height).Ok?
  {
    var id, stubbed, acc, redirect := AppliedTrace(cfg, l, tx, height, false);
    if SigValid(cfg.c, tx) && Evaluate(cfg, stubbed, tx, height).Ok? {
      var other := Evaluate(cfg, stubbed, tx, height).value;
      if other.Some? {
        RedirectIsRecipient(cfg, stubbed, tx, height);
        RedirectedToo(cfg, stubbed, id, acc, tx, other.value, height);
      }
    }
  }

  // ----- finalized accounts over runs -----

  predicate SentBy(cfg: LedgerCfg, op: Op, k: AccountId) { op.Apply? && SenderOf(cfg.c.hash, op.tx) == k }

  /** What a finalized account itself sends on the fast path; a transfer that waits is never paid. */
  predicate Slips(cfg: LedgerCfg, op: Op, k: AccountId) { SentBy(cfg, op, k) && !Waits(k, op.tx) }

  lemma WaitingKeepsSealed(cfg: LedgerCfg, l: Ledger, tx: SignedTx, height: u64, checked: bool)
    requires Sealed(l, SenderOf(cfg.c.hash, tx)) && Waits(SenderOf(cfg.c.hash, tx), tx)
    requires ApplyTx(cfg, l, tx, height, checked).Applied?
    ensures ApplyTx(cfg, l, tx, height, checked).ledger.accounts == l.accounts
  {
    var id, stubbed, acc, redirect := AppliedTrace(cfg, l, tx, height, checked);
    BodyQuiet(cfg, stubbed, id, acc, tx, redirect, height);
  }

  lemma StepKeepsSealed(cfg: LedgerCfg, l: Ledger, op: Op, k: AccountId)
    requires Sealed(l, k) && Perform(cfg, l, op).Some? && !Slips(cfg, op, k)
    ensures StaysSealed(l, Perform(cfg, l, op).value, k)
  {
    match op
    case Refund(height) => RefundKeepsSealed(l, 0, height, k);
    case Apply(tx, height, checked) =>
      if SentBy(cfg, op, k) {
        WaitingKeepsSealed(cfg, l, tx, height, checked);
      } else {
        OnlySenderPays(cfg, l, tx, height, checked);
      }
    case DrainDue(height) => RowsKeepSealed(cfg, l.(pending := []), l.pending, height, k);
    case Pay(_, _, _) =>
  }

  /** A finalized account stays finalized and loses nothing, over any run in which whatever it sends itself is
      checked: whoever else sends what, by either path. */
  lemma {:induction false} RunKeepsSealed(cfg: LedgerCfg, l: Ledger, ops: seq<Op>, k: AccountId)
    requires Sealed(l, k) && RunOps(cfg, l, ops).Some?
    requires forall i :: 0 <= i < |ops| && SentBy(cfg, ops[i], k) ==> ops[i].checked || Waits(k, ops[i].tx)
    ensures StaysSealed(l, RunOps(cfg, l, ops).value, k)
    ensures forall i :: 0 <= i < |ops| ==> !Slips(cfg, ops[i], k)
    decreases |ops|
  {
    if ops != [] {
      var (op, rest) := (ops[0], ops[1..]);
      if SentBy(cfg, op, k) && op.checked {
        SealedSendsNothing(cfg, l, op.tx, op.height);
      }
      StepKeepsSealed(cfg, l, op, k);
      assert forall i :: 0 <= i < |rest| ==> rest[i] == ops[i + 1];
      RunKeepsSealed(cfg, Perform(cfg, l, op).value, rest, k);
      assert forall i :: 1 <= i < |ops| ==> ops[i] == rest[i - 1];
    }
  }

  lemma {:induction false} RunNonceRises(cfg: LedgerCfg, l: Ledger, ops: seq<Op>, k: AccountId)
    requires Inv(l) && RunOps(cfg, l, ops).Some?
    ensures NonceOf(l.accounts, k) <= NonceOf(RunOps(cfg, l, ops).value.accounts, k)
    ensures (exists i :: 0 <= i < |ops| && Slips(cfg, ops[i], k)) ==>
      NonceOf(l.accounts, k) < NonceOf(RunOps(cfg, l, ops).value.accounts, k)
    decreases |ops|
  {
    if ops != [] {
      StepKeepsInv(cfg, l, ops[0]);
      NonceRises(cfg, l, ops[0], k);
      RunNonceRises(cfg, Perform(cfg, l, ops[0]).value, ops[1..], k);
      if i :| 0 <= i < |ops| && Slips(cfg, ops[i], k) {
        assert i > 0 ==> ops[1..][i - 1] == ops[i];
      }
    }
  }

  lemma {:induction false} UnslippedKeepsSealed(cfg: LedgerCfg, l: Ledger, ops: seq<Op>, k: AccountId)
    requires Sealed(l, k) && RunOps(cfg, l, ops).Some?
    requires forall i :: 0 <= i < |ops| ==> !Slips(cfg, ops[i], k)
    ensures StaysSealed(l, RunOps(cfg, l, ops).value, k)
    decreases |ops|
  {
    if ops != [] {
      StepKeepsSealed(cfg, l, ops[0], k);
      assert forall i :: 0 <= i < |ops[1..]| ==> ops[1..][i] == ops[i + 1];
      UnslippedKeepsSealed(cfg, Perform(cfg, l, ops[0]).value, ops[1..], k);
    }
  }

  /** The exact condition over runs: a finalized account is left as it was, credits apart, if and only if it
      gets nothing through by itself but transfers that wait. */
  lemma SealedExactly(cfg: LedgerCfg, l: Ledger, ops: seq<Op>, k: AccountId)
    requires Inv(l) && Sealed(l, k) && RunOps(cfg, l, ops).Some?
    ensures StaysSealed(l, RunOps(cfg, l, ops).value, k) <==> forall i :: 0 <= i < |ops| ==> !Slips(cfg, ops[i], k)
  {
    RunNonceRises(cfg, l, ops, k);
    if forall i :: 0 <= i < |ops| ==> !Slips(cfg, ops[i], k) {
      UnslippedKeepsSealed(cfg, l, ops, k);
    }
  }
}
