/** Which transactions a run executes, in what order, and when one can execute twice. */
module LedgerNonces {
  import opened Basics
  import opened Transactions
  import opened TxMessage
  import opened Ledger
  import opened LedgerInvariant
  import opened LedgerRuns

  /** One executed transaction. It `returned` when it was a delayed transfer that came back to its sender. */
  datatype Execution = Execution(account: AccountId, nonce: u64, returned: bool)

  ghost function RowsExecuted(cfg: LedgerCfg, l: Ledger, rows: seq<Pending>, height: u64): seq<Execution>
    decreases |rows|
  {
    if rows == [] then []
    else if height >= rows[0].executeAt && ApplyDue(cfg, l, rows[0], height).Done? then
      [Execution(rows[0].sender, rows[0].nonce, ReturnsToSender(l, rows[0], height))]
      + RowsExecuted(cfg, ApplyDue(cfg, l, rows[0], height).value, rows[1..], height)
    else RowsExecuted(cfg, l, rows[1..], height)
  }

  /** Every transaction an operation executes; a delayed one executes when it is drained. */
  ghost function Executed(cfg: LedgerCfg, l: Ledger, op: Op): seq<Execution> {
    match op
    case Apply(tx, _, _) =>
      var id := SenderOf(cfg.c.hash, tx);
      if Waits(id, tx) then [] else [Execution(id, tx.nonce, false)]
    case DrainDue(height) => RowsExecuted(cfg, l.(pending := []), l.pending, height)
    case _ => []
  }

  ghost function RunExecuted(cfg: LedgerCfg, l: Ledger, ops: seq<Op>): seq<Execution>
    requires RunOps(cfg, l, ops).Some?
    decreases |ops|
  {
    if ops == [] then []
    else Executed(cfg, l, ops[0]) + RunExecuted(cfg, Perform(cfg, l, ops[0]).value, ops[1..])
  }

  lemma {:induction false} RunLogConcat(cfg: LedgerCfg, l: Ledger, xs: seq<Op>, ys: seq<Op>)
    requires RunOps(cfg, l, xs).Some? && RunOps(cfg, RunOps(cfg, l, xs).value, ys).Some?
    ensures RunOps(cfg, l, xs + ys) == RunOps(cfg, RunOps(cfg, l, xs).value, ys)
    ensures RunExecuted(cfg, l, xs + ys)
      == RunExecuted(cfg, l, xs) + RunExecuted(cfg, RunOps(cfg, l, xs).value, ys)
    decreases |xs|
  {
    if xs == [] {
      assert xs + ys == ys;
    } else {
      assert (xs + ys)[1..] == xs[1..] + ys;
      RunLogConcat(cfg, Perform(cfg, l, xs[0]).value, xs[1..], ys);
    }
  }

  function OneFor(e: Execution, k: AccountId): seq<Execution> { if e.account == k then [e] else [] }

  function ForAccount(log: seq<Execution>, k: AccountId): seq<Execution> {
    if log == [] then [] else OneFor(log[0], k) + ForAccount(log[1..], k)
  }

  /** Each execution carries the nonce its account stands at, which it moves up by one unless it returns:
      from `a` before the first to `b` after the last. */
  predicate Counts(log: seq<Execution>, a: nat, b: nat) {
    if log == [] then a == b
    else log[0].nonce == a && Counts(log[1..], if log[0].returned then a else a + 1, b)
  }

  lemma {:induction false} ForAccountConcat(x: seq<Execution>, y: seq<Execution>, k: AccountId)
    ensures ForAccount(x + y, k) == ForAccount(x, k) + ForAccount(y, k)
    decreases |x|
  {
    if x == [] {
      assert x + y == y;
    } else {
      ForAccountConcat(x[1..], y, k);
      assert (x + y)[0] == x[0] && (x + y)[1..] == x[1..] + y;
      var (one, rest, more) := (OneFor(x[0], k), ForAccount(x[1..], k), ForAccount(y, k));
      assert one + (rest + more) == (one + rest) + more;
    }
  }

  lemma {:induction false} CountsConcat(x: seq<Execution>, y: seq<Execution>, a: nat, b: nat, c: nat)
    requires Counts(x, a, b) && Counts(y, b, c)
    ensures Counts(x + y, a, c)
    decreases |x|
  {
    if x == [] {
      assert x + y == y;
    } else {
      CountsConcat(x[1..], y, if x[0].returned then a else a + 1, b, c);
      assert (x + y)[0] == x[0] && (x + y)[1..] == x[1..] + y;
    }
  }

  /** `log` accounts for everything that happened to the nonce of `k` between the two ledgers. */
  ghost predicate Between(log: seq<Execution>, l: Ledger, next: Ledger, k: AccountId) {
    Counts(ForAccount(log, k), NonceOf(l.accounts, k), NonceOf(next.accounts, k))
  }

  lemma BetweenTrans(x: seq<Execution>, y: seq<Execution>, a: Ledger, b: Ledger, c: Ledger, k: AccountId)
    requires Between(x, a, b, k) && Between(y, b, c, k)
    ensures Between(x + y, a, c, k)
  {
    ForAccountConcat(x, y, k);
    CountsConcat(ForAccount(x, k), ForAccount(y, k),
                 NonceOf(a.accounts, k), NonceOf(b.accounts, k), NonceOf(c.accounts, k));
  }

  lemma OneBetween(e: Execution, l: Ledger, next: Ledger, k: AccountId)
    requires Quiet(l.accounts, next.accounts, {e.account})
    requires NonceOf(l.accounts, e.account) == e.nonce
    requires NonceOf(next.accounts, e.account) == e.nonce + if e.returned then 0 else 1
    ensures Between([e], l, next, k)
  {
    assert [e][1..] == [];
  }

  lemma StubQuiet(l: Ledger, id: AccountId, tx: SignedTx)
    ensures Quiet(l.accounts, WithStub(l, id, tx).accounts, {})
  {
  }

  lemma TxExecutes(cfg: LedgerCfg, l: Ledger, tx: SignedTx, height: u64, checked: bool, k: AccountId)
    requires ApplyTx(cfg, l, tx, height, checked).Applied?
    ensures Between(Executed(cfg, l, Apply(tx, height, checked)), l, ApplyTx(cfg, l, tx, height, checked).ledger, k)
  {
    var id, stubbed, acc, redirect := AppliedTrace(cfg, l, tx, height, checked);
    var next := ApplyTx(cfg, l, tx, height, checked).ledger;
    BodyQuiet(cfg, stubbed, id, acc, tx, redirect, height);
    StubQuiet(l, id, tx);
    if !Waits(id, tx) {
      QuietTrans(l.accounts, stubbed.accounts, next.accounts, {}, {id}, {id});
      OneBetween(Execution(id, tx.nonce, false), l, next, k);
    }
  }

  lemma DueExecutes(cfg: LedgerCfg, l: Ledger, row: Pending, height: u64, k: AccountId)
    requires LocksOk(l) && RowOk(l, row) && ApplyDue(cfg, l, row, height).Done?
    ensures Between([Execution(row.sender, row.nonce, ReturnsToSender(l, row, height))], l,
                    ApplyDue(cfg, l, row, height).value, k)
  {
    DueQuiet(cfg, l, row, height);
    OneBetween(Execution(row.sender, row.nonce, ReturnsToSender(l, row, height)), l,
               ApplyDue(cfg, l, row, height).value, k);
  }

  lemma {:induction false} RowsExecute(cfg: LedgerCfg, l: Ledger, rows: seq<Pending>, height: u64, k: AccountId)
    requires LocksOk(l) && RowsOk(l, rows) && DrainRows(cfg, l, rows, height).Some?
    ensures Between(RowsExecuted(cfg, l, rows, height), l, DrainRows(cfg, l, rows, height).value.0, k)
    decreases |rows|
  {
    if rows != [] {
      HeadAndTail(l, rows);
      if height >= rows[0].executeAt && ApplyDue(cfg, l, rows[0], height).Done? {
        var next := ApplyDue(cfg, l, rows[0], height).value;
        DueQuiet(cfg, l, rows[0], height);
        QuietKeepsRows(l, next, {rows[0].sender}, rows[1..]);
        RowsExecute(cfg, next, rows[1..], height, k);
        DueExecutes(cfg, l, rows[0], height, k);
        BetweenTrans([Execution(rows[0].sender, rows[0].nonce, ReturnsToSender(l, rows[0], height))],
                     RowsExecuted(cfg, next, rows[1..], height), l, next, DrainRows(cfg, l, rows, height).value.0, k);
      } else {
        RowsExecute(cfg, l, rows[1..], height, k);
      }
    }
  }

  lemma {:induction false} RefundExecutesNothing(l: Ledger, at: nat, height: u64, k: AccountId)
    requires at <= |l.locks|
    ensures NonceOf(RefundFrom(l, at, height).accounts, k) == NonceOf(l.accounts, k)
    decreases |l.locks| - at
  {
    if at < |l.locks| {
      RefundExecutesNothing(RefundLock(l, at, height), at + 1, height, k);
    }
  }

  lemma DrainExecutes(cfg: LedgerCfg, l: Ledger, height: u64, k: AccountId)
    requires Inv(l) && Drain(cfg, l, height).Some?
    ensures Between(RowsExecuted(cfg, l.(pending := []), l.pending, height), l, Drain(cfg, l, height).value, k)
  {
    var taken := l.(pending := []);
    AccountsKeepLocks(l, taken, {});
    QuietKeepsRows(l, taken, {}, l.pending);
    RowsExecute(cfg, taken, l.pending, height, k);
  }

  lemma StepExecutes(cfg: LedgerCfg, l: Ledger, op: Op, k: AccountId)
    requires Inv(l) && Perform(cfg, l, op).Some?
    ensures Between(Executed(cfg, l, op), l, Perform(cfg, l, op).value, k)
  {
    match op
    case Refund(height) => RefundExecutesNothing(l, 0, height, k);
    case Apply(tx, height, checked) => TxExecutes(cfg, l, tx, height, checked, k);
    case DrainDue(height) => DrainExecutes(cfg, l, height, k);
    case Pay(_, _, _) =>
  }

  lemma {:induction false} RunExecutes(cfg: LedgerCfg, l: Ledger, ops: seq<Op>, k: AccountId)
    requires Inv(l) && RunOps(cfg, l, ops).Some?
    ensures Between(RunExecuted(cfg, l, ops), l, RunOps(cfg, l, ops).value, k)
    decreases |ops|
  {
    if ops != [] {
      var next := Perform(cfg, l, ops[0]).value;
      StepKeepsInv(cfg, l, ops[0]);
      StepExecutes(cfg, l, ops[0], k);
      RunExecutes(cfg, next, ops[1..], k);
      BetweenTrans(Executed(cfg, l, ops[0]), RunExecuted(cfg, next, ops[1..]), l, next, RunOps(cfg, l, ops).value, k);
    }
  }

  /** No operation moves a nonce down, and every execution that does not return moves its own up. */
  lemma NonceRises(cfg: LedgerCfg, l: Ledger, op: Op, k: AccountId)
    requires Inv(l) && Perform(cfg, l, op).Some?
    ensures var next := Perform(cfg, l, op).value;
      && NonceOf(l.accounts, k) <= NonceOf(next.accounts, k)
      && (op.Apply? && SenderOf(cfg.c.hash, op.tx) == k && !Waits(k, op.tx) ==>
           NonceOf(l.accounts, k) < NonceOf(next.accounts, k))
  {
    StepExecutes(cfg, l, op, k);
    var (a, b) := (NonceOf(l.accounts, k), NonceOf(Perform(cfg, l, op).value.accounts, k));
    CountsUp(ForAccount(Executed(cfg, l, op), k), a, b);
    if op.Apply? && SenderOf(cfg.c.hash, op.tx) == k && !Waits(k, op.tx) {
      OneCounts(Execution(k, op.tx.nonce, false), a, b);
    }
  }

  lemma OneCounts(e: Execution, a: nat, b: nat)
    requires Counts(ForAccount([e], e.account), a, b)
    ensures b == if e.returned then a else a + 1
  {
    assert [e][1..] == [] && ForAccount([e], e.account) == [e];
  }

  // ----- what the nonces of a run are -----

  /** The nonces that executions spend, in order. */
  function Spent(log: seq<Execution>): seq<nat> {
    if log == [] then [] else (if log[0].returned then [] else [log[0].nonce]) + Spent(log[1..])
  }

  function UpFrom(a: nat, b: nat): seq<nat>
    requires a <= b
    decreases b - a
  {
    if a == b then [] else [a] + UpFrom(a + 1, b)
  }

  lemma {:induction false} CountsUp(log: seq<Execution>, a: nat, b: nat)
    requires Counts(log, a, b)
    ensures a <= b && Spent(log) == UpFrom(a, b)
  {
    if log != [] {
      CountsUp(log[1..], if log[0].returned then a else a + 1, b);
    }
  }

  /** The nonces that an account spends over a run are exactly those from its first to its last, in order:
      none is skipped and none is spent twice. */
  lemma RunSpends(cfg: LedgerCfg, l: Ledger, ops: seq<Op>, k: AccountId)
    requires Inv(l) && RunOps(cfg, l, ops).Some?
    ensures var (a, b) := (NonceOf(l.accounts, k), NonceOf(RunOps(cfg, l, ops).value.accounts, k));
      a <= b && Spent(ForAccount(RunExecuted(cfg, l, ops), k)) == UpFrom(a, b)
  {
    RunExecutes(cfg, l, ops, k);
    CountsUp(ForAccount(RunExecuted(cfg, l, ops), k),
             NonceOf(l.accounts, k), NonceOf(RunOps(cfg, l, ops).value.accounts, k));
  }

  // ----- when a transaction executes twice -----

  predicate SameNonce(d: Execution, e: Execution) { d.account == e.account && d.nonce == e.nonce }

  /** Two executions under one account and nonce. */
  ghost predicate Repeats(log: seq<Execution>) { exists i, j :: 0 <= i < j < |log| && SameNonce(log[i], log[j]) }

  /** Some account executes again after a transfer of its own came back. */
  ghost predicate GoesOnAfterReturn(log: seq<Execution>) {
    exists i, j :: 0 <= i < j < |log| && log[i].returned && log[j].account == log[i].account
  }

  /** Every account's executions count. */
  ghost predicate AllCount(log: seq<Execution>) { forall k :: CountsSome(ForAccount(log, k)) }

  ghost predicate CountsSome(log: seq<Execution>) { exists a: nat, b: nat :: Counts(log, a, b) }

  lemma {:induction false} ForAccountHas(log: seq<Execution>, k: AccountId)
    ensures forall e :: e in ForAccount(log, k) <==> e in log && e.account == k
  {
    if log != [] {
      ForAccountHas(log[1..], k);
    }
  }

  lemma {:induction false} CountsAbove(log: seq<Execution>, a: nat, b: nat)
    requires Counts(log, a, b)
    ensures forall e :: e in log ==> e.nonce >= a
  {
    if log != [] {
      CountsAbove(log[1..], if log[0].returned then a else a + 1, b);
    }
  }

  /** The first execution of a log against the later ones: its nonce comes up again exactly when it
      returned and its account executes again. */
  lemma HeadRepeats(log: seq<Execution>)
    requires AllCount(log) && log != []
    ensures AllCount(log[1..])
    ensures (exists e :: e in log[1..] && SameNonce(log[0], e))
      <==> (exists e :: e in log[1..] && log[0].returned && e.account == log[0].account)
  {
    var (k, rest) := (log[0].account, log[1..]);
    forall q
      ensures CountsSome(ForAccount(rest, q))
    {
      assert CountsSome(ForAccount(log, q));
      if q == k {
        TailCounts(ForAccount(log, q));
        assert ForAccount(log, q)[1..] == ForAccount(rest, q);
      } else {
        assert ForAccount(log, q) == ForAccount(rest, q);
      }
    }
    assert CountsSome(ForAccount(log, k)) && ForAccount(log, k) == [log[0]] + ForAccount(rest, k);
    HeadCounts(log[0], ForAccount(rest, k));
    ForAccountHas(rest, k);
  }

  lemma TailCounts(log: seq<Execution>)
    requires CountsSome(log) && log != []
    ensures CountsSome(log[1..])
  {
    var a: nat, b: nat :| Counts(log, a, b);
    assert Counts(log[1..], if log[0].returned then a else a + 1, b);
  }

  lemma HeadCounts(e: Execution, rest: seq<Execution>)
    requires CountsSome([e] + rest)
    ensures e.returned && rest != [] ==> rest[0].nonce == e.nonce
    ensures !e.returned ==> forall d :: d in rest ==> d.nonce > e.nonce
  {
    var a: nat, b: nat :| Counts([e] + rest, a, b);
    assert ([e] + rest)[1..] == rest;
    CountsAbove(rest, if e.returned then a else a + 1, b);
  }

  lemma {:induction false} RepeatsExactly(log: seq<Execution>)
    requires AllCount(log)
    ensures Repeats(log) <==> GoesOnAfterReturn(log)
  {
    if log != [] {
      HeadRepeats(log);
      RepeatsExactly(log[1..]);
      RepeatsByHead(log);
      GoesOnByHead(log);
    }
  }

  lemma RepeatsByHead(log: seq<Execution>)
    requires log != []
    ensures Repeats(log) <==> Repeats(log[1..]) || exists e :: e in log[1..] && SameNonce(log[0], e)
  {
    var rest := log[1..];
    if i, j :| 0 <= i < j < |log| && SameNonce(log[i], log[j]) {
      assert log[j] == rest[j - 1];
      if i > 0 {
        assert log[i] == rest[i - 1];
      }
    }
    if i, j :| 0 <= i < j < |rest| && SameNonce(rest[i], rest[j]) {
      assert log[i + 1] == rest[i] && log[j + 1] == rest[j];
    }
    if e :| e in rest && SameNonce(log[0], e) {
      var j :| 0 <= j < |rest| && rest[j] == e;
      assert log[j + 1] == e;
    }
  }

  lemma GoesOnByHead(log: seq<Execution>)
    requires log != []
    ensures GoesOnAfterReturn(log)
      <==> GoesOnAfterReturn(log[1..]) || exists e :: e in log[1..] && log[0].returned && e.account == log[0].account
  {
    var rest := log[1..];
    if i, j :| 0 <= i < j < |log| && log[i].returned && log[j].account == log[i].account {
      assert log[j] == rest[j - 1];
      if i > 0 {
        assert log[i] == rest[i - 1];
      }
    }
    if i, j :| 0 <= i < j < |rest| && rest[i].returned && rest[j].account == rest[i].account {
      assert log[i + 1] == rest[i] && log[j + 1] == rest[j];
    }
    if e :| e in rest && log[0].returned && e.account == log[0].account {
      var j :| 0 <= j < |rest| && rest[j] == e;
      assert log[j + 1] == e;
    }
  }

  /** An account and nonce execute twice in a run if and only if some delayed transfer comes back to its
      sender and that account executes anything afterwards. */
  lemma ExecutedTwice(cfg: LedgerCfg, l: Ledger, ops: seq<Op>)
    requires Inv(l) && RunOps(cfg, l, ops).Some?
    ensures Repeats(RunExecuted(cfg, l, ops)) <==> GoesOnAfterReturn(RunExecuted(cfg, l, ops))
  {
    var log := RunExecuted(cfg, l, ops);
    forall k
      ensures CountsSome(ForAccount(log, k))
    {
      RunExecutes(cfg, l, ops, k);
    }
    RepeatsExactly(log);
  }

  /** In particular nothing executes twice when no drained transfer comes back to its sender. */
  lemma ExecutedAtMostOnce(cfg: LedgerCfg, l: Ledger, ops: seq<Op>)
    requires Inv(l) && RunOps(cfg, l, ops).Some?
    requires forall e :: e in RunExecuted(cfg, l, ops) ==> !e.returned
    ensures !Repeats(RunExecuted(cfg, l, ops))
  {
    ExecutedTwice(cfg, l, ops);
  }
}
