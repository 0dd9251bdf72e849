/** Transactions applied in a row, as within one block: when two of them can use one nonce. */
module LedgerTurns {
  import opened Basics
  import opened Transactions
  import opened TxMessage
  import opened Ledger
  import opened LedgerInvariant
  import opened LedgerRuns
  import opened LedgerExports

  /** The nonce of `tx` is spent, or a delayed transfer waits with it. */
  ghost predicate Gone(cfg: LedgerCfg, l: Ledger, tx: SignedTx) {
    var k := SenderOf(cfg.c.hash, tx);
    || NonceOf(l.accounts, k) > tx.nonce
    || (NonceOf(l.accounts, k) == tx.nonce && Waits(k, tx) && HasPending(l, k))
  }

  predicate SameTurn(cfg: LedgerCfg, tx: SignedTx, other: SignedTx) {
    SenderOf(cfg.c.hash, tx) == SenderOf(cfg.c.hash, other) && tx.nonce == other.nonce
  }

  /** The one way to use a nonce twice: a delayed transfer, and the emergency activation that drops it. */
  predicate DropsWaiting(cfg: LedgerCfg, tx: SignedTx, other: SignedTx) {
    Waits(SenderOf(cfg.c.hash, tx), tx) && other.body.Policy? && IsEmergency(other.body.action)
  }

  lemma AppliedIsGone(cfg: LedgerCfg, l: Ledger, tx: SignedTx, height: u64, checked: bool)
    requires ApplyTx(cfg, l, tx, height, checked).Applied?
    ensures Gone(cfg, ApplyTx(cfg, l, tx, height, checked).ledger, tx)
  {
    var id, stubbed, acc, redirect := AppliedTrace(cfg, l, tx, height, checked);
    BodyQuiet(cfg, stubbed, id, acc, tx, redirect, height);
    if Waits(id, tx) {
      var next := ApplyTx(cfg, l, tx, height, checked).ledger;
      assert next.pending[|stubbed.pending|].sender == id;
    }
  }

  /** What is applied under a nonce that is gone. */
  lemma GoneRefuses(cfg: LedgerCfg, l: Ledger, tx: SignedTx, other: SignedTx, height: u64, checked: bool)
    requires Gone(cfg, l, tx) && SameTurn(cfg, tx, other) && ApplyTx(cfg, l, other, height, checked).Applied?
    ensures DropsWaiting(cfg, tx, other)
  {
    var id, stubbed, acc, redirect := AppliedTrace(cfg, l, other, height, checked);
    assert HasPending(stubbed, id);
  }

  lemma {:induction false} WithoutSenderHas(rows: seq<Pending>, id: AccountId, i: nat)
    requires i < |rows| && rows[i].sender != id
    ensures rows[i] in WithoutSender(rows, id)
  {
    if i > 0 {
      WithoutSenderHas(rows[1..], id, i - 1);
    }
  }

  lemma BodyKeepsRows(cfg: LedgerCfg, l: Ledger, id: AccountId, acc: Account, tx: SignedTx,
                      redirect: Option<AccountId>, height: u64)
    requires ApplyBody(cfg, l, id, acc, tx, redirect, height).Done?
    requires !(tx.body.Policy? && IsEmergency(tx.body.action))
    ensures l.pending <= ApplyBody(cfg, l, id, acc, tx, redirect, height).value.pending
  {
  }

  /** A waiting transfer waits on, unless its own sender activates the emergency. */
  lemma BodyKeepsWaiting(cfg: LedgerCfg, l: Ledger, id: AccountId, acc: Account, tx: SignedTx,
                         redirect: Option<AccountId>, height: u64, k: AccountId)
    requires ApplyBody(cfg, l, id, acc, tx, redirect, height).Done? && HasPending(l, k)
    requires !(id == k && tx.body.Policy? && IsEmergency(tx.body.action))
    ensures HasPending(ApplyBody(cfg, l, id, acc, tx, redirect, height).value, k)
  {
    var next := ApplyBody(cfg, l, id, acc, tx, redirect, height).value;
    var i :| 0 <= i < |l.pending| && l.pending[i].sender == k;
    if tx.body.Policy? && IsEmergency(tx.body.action) {
      WithoutSenderHas(l.pending, id, i);
      assert l.pending[i] in next.pending;
    } else {
      BodyKeepsRows(cfg, l, id, acc, tx, redirect, height);
      assert next.pending[i] == l.pending[i];
    }
  }

  lemma GoneStays(cfg: LedgerCfg, l: Ledger, tx: SignedTx, other: SignedTx, height: u64, checked: bool)
    requires Gone(cfg, l, tx) && ApplyTx(cfg, l, other, height, checked).Applied?
    ensures Gone(cfg, ApplyTx(cfg, l, other, height, checked).ledger, tx)
  {
    var k := SenderOf(cfg.c.hash, tx);
    var id, stubbed, acc, redirect := AppliedTrace(cfg, l, other, height, checked);
    BodyQuiet(cfg, stubbed, id, acc, other, redirect, height);
    assert NonceOf(stubbed.accounts, k) == NonceOf(l.accounts, k);
    if NonceOf(l.accounts, k) == tx.nonce && !(id == k && other.body.Policy? && IsEmergency(other.body.action)) {
      BodyKeepsWaiting(cfg, stubbed, id, acc, other, redirect, height, k);
    }
  }

  ghost predicate OnlyTxs(ops: seq<Op>) { forall i :: 0 <= i < |ops| ==> ops[i].Apply? }

  lemma TailApplies(cfg: LedgerCfg, l: Ledger, ops: seq<Op>) returns (next: Ledger, rest: seq<Op>)
    requires OnlyTxs(ops) && RunOps(cfg, l, ops).Some? && ops != []
    ensures ApplyTx(cfg, l, ops[0].tx, ops[0].height, ops[0].checked) == Applied(next)
    ensures rest == ops[1..] && OnlyTxs(rest) && RunOps(cfg, next, rest).Some?
  {
    next, rest := Perform(cfg, l, ops[0]).value, ops[1..];
  }

  lemma {:induction false} GoneBefore(cfg: LedgerCfg, l: Ledger, tx: SignedTx, ops: seq<Op>, j: nat)
    requires Gone(cfg, l, tx) && OnlyTxs(ops) && RunOps(cfg, l, ops).Some?
    requires j < |ops| && SameTurn(cfg, tx, ops[j].tx)
    ensures DropsWaiting(cfg, tx, ops[j].tx)
    decreases j
  {
    if j == 0 {
      GoneRefuses(cfg, l, tx, ops[0].tx, ops[0].height, ops[0].checked);
    } else {
      GoneStays(cfg, l, tx, ops[0].tx, ops[0].height, ops[0].checked);
      GoneBefore(cfg, Perform(cfg, l, ops[0]).value, tx, ops[1..], j - 1);
    }
  }

  /** A transaction and a later one in a row, applied from whatever ledger, share a sender and a nonce only when
      the first is a delayed transfer and the later one the emergency activation that drops it. */
  lemma NeverTwiceInARow(cfg: LedgerCfg, l: Ledger, ops: seq<Op>, j: nat, tx: SignedTx, other: SignedTx)
    requires OnlyTxs(ops) && RunOps(cfg, l, ops).Some?
    requires 0 < j < |ops| && tx == ops[0].tx && other == ops[j].tx && SameTurn(cfg, tx, other)
    ensures DropsWaiting(cfg, tx, other)
  {
    var next, rest := TailApplies(cfg, l, ops);
    AppliedIsGone(cfg, l, tx, ops[0].height, ops[0].checked);
    GoneBefore(cfg, next, tx, rest, j - 1);
  }

  /** A run of transactions, cut in two. */
  lemma CutAt(cfg: LedgerCfg, l: Ledger, ops: seq<Op>, i: nat) returns (mid: Ledger, rest: seq<Op>)
    requires OnlyTxs(ops) && RunOps(cfg, l, ops).Some? && i <= |ops|
    ensures rest == ops[i..] && OnlyTxs(rest) && RunOps(cfg, mid, rest).Some?
  {
    rest := ops[i..];
    assert ops == ops[..i] + rest;
    RunConcat(cfg, l, ops[..i], rest);
    mid := RunOps(cfg, l, ops[..i]).value;
  }

  lemma AppliedShape(cfg: LedgerCfg, l: Ledger, tx: SignedTx, height: u64, checked: bool)
    requires ApplyTx(cfg, l, tx, height, checked).Applied?
    ensures ValidateShape(cfg.c, tx, false).Ok?
  {
    ValidWithoutSignature(cfg.c, tx, checked);
  }

  lemma {:induction false} AppliedShapes(cfg: LedgerCfg, l: Ledger, ops: seq<Op>, i: nat)
    requires OnlyTxs(ops) && RunOps(cfg, l, ops).Some? && i < |ops|
    ensures ValidateShape(cfg.c, ops[i].tx, false).Ok?
    decreases i
  {
    if i == 0 {
      AppliedShape(cfg, l, ops[0].tx, ops[0].height, ops[0].checked);
    } else {
      AppliedShapes(cfg, Perform(cfg, l, ops[0]).value, ops[1..], i - 1);
    }
  }
}
