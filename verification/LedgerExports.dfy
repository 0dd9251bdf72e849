/** Cross-shard transfers over whole runs: the fate of a lock, imports at most once, and exports that are
    never lost. */
module LedgerExports {
  import opened Basics
  import opened Transactions
  import opened TxMessage
  import opened TxDecoding
  import opened Ledger
  import opened LedgerInvariant
  import opened LedgerSupply
  import opened LedgerRuns
  import opened LedgerNonces

  // ----- the fate of a lock -----

  predicate Imports(op: Op, exportId: Bytes32) { op.Apply? && op.tx.body.Import? && op.tx.body.exportId == exportId }

  /** What one operation does to one lock. */
  function Fate(op: Op, lock: Lock): LockState {
    if !lock.state.Locked? then lock.state
    else if op.Refund? && op.height >= lock.unlockHeight then Refunded
    else if Imports(op, lock.exportId) then Released
    else Locked
  }

  function FateOver(ops: seq<Op>, lock: Lock): LockState
    decreases |ops|
  {
    if ops == [] then lock.state else FateOver(ops[1..], lock.(state := Fate(ops[0], lock)))
  }

  lemma {:induction false} RefundFate(l: Ledger, at: nat, height: u64, i: nat)
    requires at <= |l.locks| && i < |l.locks|
    ensures var after := RefundFrom(l, at, height).locks;
      && |after| == |l.locks|
      && after[i] == if i < at then l.locks[i] else l.locks[i].(state := Fate(Refund(height), l.locks[i]))
    decreases |l.locks| - at
  {
    if at < |l.locks| {
      RefundFate(RefundLock(l, at, height), at + 1, height, i);
    }
  }

  lemma {:induction false} RowsKeepLocks(cfg: LedgerCfg, l: Ledger, rows: seq<Pending>, height: u64)
    requires DrainRows(cfg, l, rows, height).Some?
    ensures var last := DrainRows(cfg, l, rows, height).value.0;
      last.locks == l.locks && last.imported == l.imported && last.exported == l.exported
    decreases |rows|
  {
    if rows != [] {
      if height >= rows[0].executeAt && ApplyDue(cfg, l, rows[0], height).Done? {
        RowsKeepLocks(cfg, ApplyDue(cfg, l, rows[0], height).value, rows[1..], height);
      } else {
        RowsKeepLocks(cfg, l, rows[1..], height);
      }
    }
  }

  lemma BodyFate(cfg: LedgerCfg, l: Ledger, id: AccountId, acc: Account, tx: SignedTx, redirect: Option<AccountId>,
                 height: u64, i: nat)
    requires DistinctIds(l.locks) && i < |l.locks| && ApplyBody(cfg, l, id, acc, tx, redirect, height).Done?
    ensures var next := ApplyBody(cfg, l, id, acc, tx, redirect, height).value;
      && |l.locks| <= |next.locks|
      && next.locks[i] == l.locks[i].(state := Fate(Apply(tx, height, true), l.locks[i]))
  {
    match tx.body
    case Transfer(_, _, _) =>
    case Export(_, _, _, _) =>
    case Import(_, _, _) => ImportFate(l, id, acc, tx, i);
    case Policy(_, _, _) =>
    case _ =>
  }

  lemma ImportFate(l: Ledger, id: AccountId, acc: Account, tx: SignedTx, i: nat)
    requires DistinctIds(l.locks) && i < |l.locks| && tx.body.Import? && ImportBody(l, id, acc, tx).Done?
    ensures var next := ImportBody(l, id, acc, tx).value;
      && |l.locks| == |next.locks|
      && next.locks[i] == l.locks[i].(state := Fate(Apply(tx, 0, true), l.locks[i]))
  {
  }

  /** One step's effect on each lock. */
  lemma StepFate(cfg: LedgerCfg, l: Ledger, op: Op, i: nat)
    requires DistinctIds(l.locks) && i < |l.locks| && Perform(cfg, l, op).Some?
    ensures var next := Perform(cfg, l, op).value;
      |l.locks| <= |next.locks| && next.locks[i] == l.locks[i].(state := Fate(op, l.locks[i]))
  {
    match op
    case Refund(height) => RefundFate(l, 0, height, i);
    case Apply(tx, height, checked) =>
      var id, stubbed, acc, redirect := AppliedTrace(cfg, l, tx, height, checked);
      BodyFate(cfg, stubbed, id, acc, tx, redirect, height, i);
      assert Fate(op, l.locks[i]) == Fate(Apply(tx, height, true), l.locks[i]);
    case DrainDue(height) => RowsKeepLocks(cfg, l.(pending := []), l.pending, height);
    case Pay(_, _, _) =>
  }

  /** The fate of a lock over a run depends on the operations alone: it goes back to its sender at the
      first refund pass at or past its height, or is released by the first import of its id, whichever
      comes first, and then never changes again. */
  lemma {:induction false} LockFate(cfg: LedgerCfg, l: Ledger, ops: seq<Op>, i: nat)
    requires Inv(l) && i < |l.locks| && RunOps(cfg, l, ops).Some?
    ensures var last := RunOps(cfg, l, ops).value;
      i < |last.locks| && last.locks[i] == l.locks[i].(state := FateOver(ops, l.locks[i]))
    decreases |ops|
  {
    if ops != [] {
      StepKeepsInv(cfg, l, ops[0]);
      StepFate(cfg, l, ops[0], i);
      LockFate(cfg, Perform(cfg, l, ops[0]).value, ops[1..], i);
    }
  }

  // ----- imports at most once -----

  lemma {:induction false} RefundImported(l: Ledger, at: nat, height: u64)
    requires at <= |l.locks|
    ensures l.imported <= RefundFrom(l, at, height).imported
    decreases |l.locks| - at
  {
    if at < |l.locks| {
      RefundImported(RefundLock(l, at, height), at + 1, height);
    }
  }

  lemma StepImported(cfg: LedgerCfg, l: Ledger, op: Op, exportId: Bytes32)
    requires Perform(cfg, l, op).Some?
    ensures var next := Perform(cfg, l, op).value;
      && l.imported <= next.imported
      && (Imports(op, exportId) ==> exportId !in l.imported && exportId in next.imported)
  {
    match op
    case Refund(height) => RefundImported(l, 0, height);
    case Apply(tx, height, checked) =>
      var id, stubbed, acc, redirect := AppliedTrace(cfg, l, tx, height, checked);
      BodyImported(cfg, stubbed, id, acc, tx, redirect, height);
    case DrainDue(height) => RowsKeepLocks(cfg, l.(pending := []), l.pending, height);
    case Pay(_, _, _) =>
  }

  lemma BodyImported(cfg: LedgerCfg, l: Ledger, id: AccountId, acc: Account, tx: SignedTx, redirect: Option<AccountId>,
                     height: u64)
    requires ApplyBody(cfg, l, id, acc, tx, redirect, height).Done?
    ensures var next := ApplyBody(cfg, l, id, acc, tx, redirect, height).value;
      && l.imported <= next.imported
      && (tx.body.Import? ==> tx.body.exportId !in l.imported && tx.body.exportId in next.imported)
  {
  }

  /** Nothing imported or refunded before a run is imported in it. */
  lemma {:induction false} ImportedStays(cfg: LedgerCfg, l: Ledger, ops: seq<Op>, exportId: Bytes32)
    requires RunOps(cfg, l, ops).Some? && exportId in l.imported
    ensures exportId in RunOps(cfg, l, ops).value.imported
    ensures forall i :: 0 <= i < |ops| ==> !Imports(ops[i], exportId)
    decreases |ops|
  {
    if ops != [] {
      StepImported(cfg, l, ops[0], exportId);
      ImportedStays(cfg, Perform(cfg, l, ops[0]).value, ops[1..], exportId);
      assert forall i :: 1 <= i < |ops| ==> ops[i] == ops[1..][i - 1];
    }
  }

  /** No export id is imported twice in a run. */
  lemma {:induction false} ImportedAtMostOnce(cfg: LedgerCfg, l: Ledger, ops: seq<Op>, i: nat, j: nat,
                                              exportId: Bytes32)
    requires RunOps(cfg, l, ops).Some? && i < j < |ops| && Imports(ops[i], exportId)
    ensures !Imports(ops[j], exportId)
    decreases |ops|
  {
    var next := Perform(cfg, l, ops[0]).value;
    if i == 0 {
      StepImported(cfg, l, ops[0], exportId);
      ImportedStays(cfg, next, ops[1..], exportId);
    } else {
      ImportedAtMostOnce(cfg, next, ops[1..], i - 1, j - 1, exportId);
    }
  }

  // ----- exports are never lost -----

  predicate Exports(op: Op) { op.Apply? && op.tx.body.Export? }

  /** Everything whose hash an export id rests on. */
  ghost function HashedBy(cfg: LedgerCfg, tx: SignedTx): set<seq<byte>> { {EncTx(tx), ExportIdInput(cfg.c.hash, tx)} }

  ghost function AllHashed(cfg: LedgerCfg, txs: set<SignedTx>): set<seq<byte>> {
    set tx, b | tx in txs && b in HashedBy(cfg, tx) :: b
  }

  ghost function ExportsIn(ops: seq<Op>): set<SignedTx> { set op | op in ops && Exports(op) :: op.tx }

  ghost function IdsOf(cfg: LedgerCfg, txs: set<SignedTx>): set<Bytes32> {
    set tx | tx in txs :: cfg.c.hash(ExportIdInput(cfg.c.hash, tx))
  }

  ghost function LockIds(locks: seq<Lock>): set<Bytes32> { set lock | lock in locks :: lock.exportId }

  /** Every lock was made by one of `done`, each well formed, with a nonce its sender has spent. */
  ghost predicate MadeBy(cfg: LedgerCfg, l: Ledger, done: set<SignedTx>) {
    AllMade(cfg, l, done) && LockIds(l.locks) <= IdsOf(cfg, done)
  }

  ghost predicate AllMade(cfg: LedgerCfg, l: Ledger, done: set<SignedTx>)
  {
    forall tx :: tx in done ==> Made(cfg, l, tx)
  }

  ghost predicate Made(cfg: LedgerCfg, l: Ledger, tx: SignedTx) {
    && tx.body.Export? && ValidateShape(cfg.c, tx, false).Ok?
    && tx.nonce < NonceOf(l.accounts, SenderOf(cfg.c.hash, tx))
  }

  /** An export about to be applied carries an unspent nonce, so its id has no lock yet. */
  lemma FreshExport(cfg: LedgerCfg, l: Ledger, done: set<SignedTx>, tx: SignedTx)
    requires MadeBy(cfg, l, done) && CollisionFree(cfg.c.hash, AllHashed(cfg, done + {tx}))
    requires tx.body.Export? && ValidateShape(cfg.c, tx, false).Ok?
    requires NonceOf(l.accounts, SenderOf(cfg.c.hash, tx)) == tx.nonce
    ensures !HasLock(l, ExportId(cfg.c.hash, tx).value)
  {
    var exportId := ExportId(cfg.c.hash, tx).value;
    if HasLock(l, exportId) {
      assert l.locks[LockIndex(l.locks, exportId)] in l.locks;
      assert exportId in LockIds(l.locks) && exportId in IdsOf(cfg, done);
      var prior :| prior in done && cfg.c.hash(ExportIdInput(cfg.c.hash, prior)) == exportId;
      var hashed := {EncTx(prior), EncTx(tx), ExportIdInput(cfg.c.hash, prior), ExportIdInput(cfg.c.hash, tx)};
      forall b | b in hashed
        ensures b in AllHashed(cfg, done + {tx})
      {
        assert b in HashedBy(cfg, prior) || b in HashedBy(cfg, tx);
      }
      FewerCollide(cfg.c.hash, hashed, AllHashed(cfg, done + {tx}));
      assert Made(cfg, l, prior);
      ExportIdBinds(cfg.c, prior, tx);
    }
  }

  lemma StepIds(cfg: LedgerCfg, l: Ledger, op: Op)
    requires !Exports(op) && Perform(cfg, l, op).Some?
    ensures LockIds(Perform(cfg, l, op).value.locks) == LockIds(l.locks)
  {
    match op
    case Refund(height) => RefundIds(l, 0, height);
    case Apply(tx, height, checked) =>
      var id, stubbed, acc, redirect := AppliedTrace(cfg, l, tx, height, checked);
      BodyIds(cfg, stubbed, id, acc, tx, redirect, height);
    case DrainDue(height) => RowsKeepLocks(cfg, l.(pending := []), l.pending, height);
    case Pay(_, _, _) =>
  }

  lemma SettledIds(locks: seq<Lock>, at: nat, s: LockState)
    requires at < |locks|
    ensures LockIds(locks[at := locks[at].(state := s)]) == LockIds(locks)
  {
    var after := locks[at := locks[at].(state := s)];
    forall k | k in LockIds(locks)
      ensures k in LockIds(after)
    {
      var i :| 0 <= i < |locks| && locks[i].exportId == k;
      assert after[i] in after && after[i].exportId == k;
    }
  }

  lemma BodyIds(cfg: LedgerCfg, l: Ledger, id: AccountId, acc: Account, tx: SignedTx, redirect: Option<AccountId>,
                height: u64)
    requires !tx.body.Export? && ApplyBody(cfg, l, id, acc, tx, redirect, height).Done?
    ensures LockIds(ApplyBody(cfg, l, id, acc, tx, redirect, height).value.locks) == LockIds(l.locks)
  {
    if tx.body.Import? {
      ReleasedIds(l.locks, tx.body.exportId);
    }
  }

  lemma ReleasedIds(locks: seq<Lock>, exportId: Bytes32)
    ensures LockIds(ReleaseLock(locks, exportId)) == LockIds(locks)
  {
  }

  lemma {:induction false} RefundIds(l: Ledger, at: nat, height: u64)
    requires at <= |l.locks|
    ensures LockIds(RefundFrom(l, at, height).locks) == LockIds(l.locks)
    decreases |l.locks| - at
  {
    if at < |l.locks| {
      SettledIds(l.locks, at, Refunded);
      RefundIds(RefundLock(l, at, height), at + 1, height);
    }
  }

  lemma StepNonces(cfg: LedgerCfg, l: Ledger, op: Op, next: Ledger, done: set<SignedTx>)
    requires Inv(l) && Perform(cfg, l, op) == Some(next) && AllMade(cfg, l, done)
    ensures AllMade(cfg, next, done)
  {
    forall tx | tx in done
      ensures Made(cfg, next, tx)
    {
      NonceRises(cfg, l, op, SenderOf(cfg.c.hash, tx));
    }
  }

  lemma ValidWithoutSignature(c: Crypto, tx: SignedTx, checked: bool)
    requires ValidateShape(c, tx, checked).Ok?
    ensures ValidateShape(c, tx, false).Ok?
  {
  }

  /** An applied export spends its nonce and adds its own lock. */
  lemma ExportStep(cfg: LedgerCfg, l: Ledger, tx: SignedTx, height: u64, checked: bool)
    requires ApplyTx(cfg, l, tx, height, checked).Applied? && tx.body.Export?
    ensures var next := ApplyTx(cfg, l, tx, height, checked).ledger;
      Made(cfg, next, tx) && LockIds(next.locks) <= LockIds(l.locks) + IdsOf(cfg, {tx})
  {
    var id, stubbed, acc, redirect := AppliedTrace(cfg, l, tx, height, checked);
    BodyQuiet(cfg, stubbed, id, acc, tx, redirect, height);
    ValidWithoutSignature(cfg.c, tx, checked);
    assert cfg.c.hash(ExportIdInput(cfg.c.hash, tx)) in IdsOf(cfg, {tx});
  }

  lemma ExportIsFresh(cfg: LedgerCfg, l: Ledger, tx: SignedTx, height: u64, checked: bool, done: set<SignedTx>)
    requires ApplyTx(cfg, l, tx, height, checked).Applied? && tx.body.Export? && MadeBy(cfg, l, done)
    requires CollisionFree(cfg.c.hash, AllHashed(cfg, done + {tx}))
    ensures !HasLock(l, ExportId(cfg.c.hash, tx).value)
  {
    var id, stubbed, acc, redirect := AppliedTrace(cfg, l, tx, height, checked);
    ValidWithoutSignature(cfg.c, tx, checked);
    FreshExport(cfg, l, done, tx);
  }

  lemma IdsOfGrow(cfg: LedgerCfg, xs: set<SignedTx>, ys: set<SignedTx>)
    ensures IdsOf(cfg, xs + ys) == IdsOf(cfg, xs) + IdsOf(cfg, ys)
  {
  }

  /** What `op` adds to the exports done. */
  ghost function Adds(op: Op): set<SignedTx> { if Exports(op) then {op.tx} else {} }

  lemma StepMadeBy(cfg: LedgerCfg, l: Ledger, op: Op, next: Ledger, done: set<SignedTx>)
    requires Inv(l) && Perform(cfg, l, op) == Some(next) && MadeBy(cfg, l, done)
    requires CollisionFree(cfg.c.hash, AllHashed(cfg, done + Adds(op)))
    ensures MadeBy(cfg, next, done + Adds(op)) && Destroyed(cfg, l, op) == 0
  {
    StepNonces(cfg, l, op, next, done);
    IdsOfGrow(cfg, done, Adds(op));
    if Exports(op) {
      ExportIsFresh(cfg, l, op.tx, op.height, op.checked, done);
      ExportStep(cfg, l, op.tx, op.height, op.checked);
    } else {
      StepIds(cfg, l, op);
    }
  }

  lemma AllHashedGrows(cfg: LedgerCfg, small: set<SignedTx>, large: set<SignedTx>)
    requires small <= large && CollisionFree(cfg.c.hash, AllHashed(cfg, large))
    ensures CollisionFree(cfg.c.hash, AllHashed(cfg, small))
  {
  }

  lemma {:induction false} NothingDestroyedFrom(cfg: LedgerCfg, l: Ledger, ops: seq<Op>, done: set<SignedTx>)
    requires Inv(l) && RunOps(cfg, l, ops).Some? && MadeBy(cfg, l, done)
    requires CollisionFree(cfg.c.hash, AllHashed(cfg, done + ExportsIn(ops)))
    ensures RunDestroyed(cfg, l, ops) == 0
    decreases |ops|
  {
    if ops != [] {
      var op, rest := ops[0], ops[1..];
      var next := Perform(cfg, l, op).value;
      StepKeepsInv(cfg, l, op);
      AllHashedGrows(cfg, done + Adds(op), done + ExportsIn(ops));
      StepMadeBy(cfg, l, op, next, done);
      AllHashedGrows(cfg, done + Adds(op) + ExportsIn(rest), done + ExportsIn(ops));
      NothingDestroyedFrom(cfg, next, rest, done + Adds(op));
    }
  }

  /** From a ledger without locks, as genesis is, no export is ever lost, as long as BLAKE3 does not
      collide on the exports' own inputs: the supply is what it was plus what was created. */
  lemma SupplyOnlyGrows(cfg: LedgerCfg, l: Ledger, ops: seq<Op>)
    requires Inv(l) && l.locks == [] && RunOps(cfg, l, ops).Some?
    requires CollisionFree(cfg.c.hash, AllHashed(cfg, ExportsIn(ops)))
    requires Supply(l) + RunCreated(cfg, l, ops) <= U128_MAX
    ensures Supply(RunOps(cfg, l, ops).value) == Supply(l) + RunCreated(cfg, l, ops)
  {
    assert {} + ExportsIn(ops) == ExportsIn(ops);
    NothingDestroyedFrom(cfg, l, ops, {});
    RunSupply(cfg, l, ops);
  }
}
