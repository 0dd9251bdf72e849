/** The pool feeding the chain: batches are taken from the front, sealed, and given back on failure. */
module Pipeline {
  import opened Basics
  import opened Transactions
  import opened Mempool
  import opened Blocks
  import opened Chain
  import opened ChainRuns

  // ----- one attempt on the live objects -----

  function RawEntries(txs: seq<SignedTx>): (entries: seq<SealEntry>)
    ensures TxsOf(entries) == txs
  {
    if txs == [] then [] else [Raw(txs[0])] + RawEntries(txs[1..])
  }

  /** Take a batch, seal it, and put back whatever a failed seal returns. A failed attempt changes
      neither the chain nor the pool; a successful one moves exactly the oldest transactions into the
      new block. */
  method SealFromPool<S>(pool: Mpool, chain: ChainNode<S>, max: nat,
                         time: SealTime) returns (failure: Option<SealError>)
    requires chain.Valid() && chain.canonicalH < U64_MAX && |chain.blocks| <= TAIL_BLOCK_CAP
    modifies pool`q, chain
    ensures chain.Valid()
    ensures failure.Some? ==> pool.q == old(pool.q) && chain.View() == old(chain.View())
    ensures failure.None? ==>
      && chain.blocks != [] && chain.canonicalH == old(chain.canonicalH) + 1
      && chain.blocks[|chain.blocks| - 1].txs + pool.q == old(pool.q)
      && |chain.blocks[|chain.blocks| - 1].txs| == Min(max, |old(pool.q)|)
  {
    ghost var before := chain.View();
    var batch := pool.Take(max);
    var entries := RawEntries(batch);
    var r := chain.SealEntries(entries, time);
    match r
    case Err((e, txs)) =>
      pool.PrependBlock(txs);
      failure := Some(e);
    case Ok(_) =>
      failure := None;
      SealedTxs(chain.env, before, entries, time);
  }

  lemma SealedTxs<S>(env: Env<S>, node: Node<S>, entries: seq<SealEntry>, time: SealTime)
    requires Ready(env, node) && node.height < U64_MAX && Seal(env, node, entries, time).Ok?
    ensures var next := Seal(env, node, entries, time).value;
      && next.height == node.height + 1
      && next.blocks != [] && next.blocks[|next.blocks| - 1].txs == TxsOf(entries)
  {
  }

  // ----- runs of the pool and the chain together -----

  /** At most one batch is in flight. `accepted` lists every transaction the pool has let in, in order. */
  datatype Pipe<S> = Pipe(pool: seq<SignedTx>, batch: Option<seq<SignedTx>>, run: Run<S>, accepted: seq<SignedTx>)

  /** A batch is sealed from entries that carry exactly its transactions, prevalidated or not. */
  datatype Event = Push(tx: SignedTx) | Take(max: nat) | SealBatch(entries: seq<SealEntry>, time: SealTime) | GiveBack

  function InFlight<S>(p: Pipe<S>): seq<SignedTx> {
    match p.batch case Some(txs) => txs case None => []
  }

  predicate Seals<S>(p: Pipe<S>, e: Event) {
    e.SealBatch? && p.batch == Some(TxsOf(e.entries))
  }

  function Move<S>(env: Env<S>, cap: nat, limit: nat, p: Pipe<S>, e: Event): Pipe<S>
    requires CanStep(env, p.run)
  {
    match e
    case Push(tx) =>
      if |p.pool| < cap then p.(pool := p.pool + [tx], accepted := p.accepted + [tx]) else p
    case Take(max) =>
      var k := Min(max, |p.pool|);
      if p.batch.None? && max <= limit then p.(pool := p.pool[k..], batch := Some(p.pool[..k])) else p
    case SealBatch(entries, time) =>
      if !Seals(p, e) then p
      else if Seal(env, p.run.node, entries, time).Ok?
      then p.(batch := None, run := Step(env, p.run, Attempt(entries, time)))
      else p
    case GiveBack =>
      p.(pool := InFlight(p) + p.pool, batch := None)
  }

  function RunPipe<S>(env: Env<S>, genesis: S, cap: nat, limit: nat, events: seq<Event>): (p: Pipe<S>)
    requires env.Ok() && |events| <= U64_MAX
    ensures Ready(env, p.run.node) && p.run.node.height <= |events|
    decreases |events|
  {
    if events == [] then
      BootReady(env, genesis);
      Pipe([], None, Run(Boot(env, genesis), [], []), [])
    else
      var last := |events| - 1;
      var p := RunPipe(env, genesis, cap, limit, events[..last]);
      MoveKeepsReady(env, cap, limit, p, events[last]);
      Move(env, cap, limit, p, events[last])
  }

  lemma MoveKeepsReady<S>(env: Env<S>, cap: nat, limit: nat, p: Pipe<S>, e: Event)
    requires CanStep(env, p.run)
    ensures Ready(env, Move(env, cap, limit, p, e).run.node)
    ensures Move(env, cap, limit, p, e).run.node.height <= p.run.node.height + 1
  {
    if e.SealBatch? {
      StepKeepsReady(env, p.run, Attempt(e.entries, e.time));
    }
  }

  ghost predicate Accounted<S>(cap: nat, limit: nat, p: Pipe<S>) {
    && p.accepted == HistoryTxs(p.run.history) + InFlight(p) + p.pool
    && |InFlight(p)| <= limit
    && |p.pool| + |InFlight(p)| <= cap + limit
  }

  lemma SealMoves<S>(env: Env<S>, cap: nat, limit: nat, p: Pipe<S>, e: Event)
    requires CanStep(env, p.run) && Accounted(cap, limit, p) && Seals(p, e)
    requires Seal(env, p.run.node, e.entries, e.time).Ok?
    ensures Accounted(cap, limit, Move(env, cap, limit, p, e))
  {
    SealedTxs(env, p.run.node, e.entries, e.time);
    var next := Step(env, p.run, Attempt(e.entries, e.time));
    HistoryGrows(p.run.history, next.history[|p.run.history|]);
  }

  lemma PushMoves<S>(env: Env<S>, cap: nat, limit: nat, p: Pipe<S>, tx: SignedTx)
    requires CanStep(env, p.run) && Accounted(cap, limit, p)
    ensures Accounted(cap, limit, Move(env, cap, limit, p, Push(tx)))
  {
  }

  lemma TakeMoves<S>(env: Env<S>, cap: nat, limit: nat, p: Pipe<S>, max: nat)
    requires CanStep(env, p.run) && Accounted(cap, limit, p)
    ensures Accounted(cap, limit, Move(env, cap, limit, p, Take(max)))
  {
  }

  lemma GiveBackMoves<S>(env: Env<S>, cap: nat, limit: nat, p: Pipe<S>)
    requires CanStep(env, p.run) && Accounted(cap, limit, p)
    ensures Accounted(cap, limit, Move(env, cap, limit, p, GiveBack))
  {
  }

  lemma MoveKeepsAccounts<S>(env: Env<S>, cap: nat, limit: nat, p: Pipe<S>, e: Event)
    requires CanStep(env, p.run) && Accounted(cap, limit, p)
    ensures Accounted(cap, limit, Move(env, cap, limit, p, e))
  {
    match e
    case Push(tx) => PushMoves(env, cap, limit, p, tx);
    case Take(max) => TakeMoves(env, cap, limit, p, max);
    case SealBatch(entries, time) =>
      if Seals(p, e) && Seal(env, p.run.node, entries, time).Ok? {
        SealMoves(env, cap, limit, p, e);
      }
    case GiveBack => GiveBackMoves(env, cap, limit, p);
  }

  /** Exactly once and in order: after any run, what the pool accepted is what was sealed, then the batch
      in flight, then the pool; and the overshoot beyond the capacity is at most one batch. */
  lemma {:induction false} ExactlyOnce<S>(env: Env<S>, genesis: S, cap: nat, limit: nat, events: seq<Event>)
    requires env.Ok() && |events| <= U64_MAX
    ensures Accounted(cap, limit, RunPipe(env, genesis, cap, limit, events))
    decreases |events|
  {
    if events != [] {
      var last := |events| - 1;
      ExactlyOnce(env, genesis, cap, limit, events[..last]);
      MoveKeepsAccounts(env, cap, limit, RunPipe(env, genesis, cap, limit, events[..last]), events[last]);
    } else {
      assert HistoryTxs(RunPipe(env, genesis, cap, limit, []).run.history) == [];
    }
  }

  /** A failed seal followed by a give-back leaves what a give-back alone would have left. */
  lemma FailedSealIsNoOp<S>(env: Env<S>, cap: nat, limit: nat, p: Pipe<S>, max: nat, entries: seq<SealEntry>,
                            time: SealTime)
    requires CanStep(env, p.run) && p.batch.None? && max <= limit
    requires TxsOf(entries) == p.pool[..Min(max, |p.pool|)]
    requires Seal(env, p.run.node, entries, time).Err?
    ensures var taken := Move(env, cap, limit, p, Take(max));
      var tried := Move(env, cap, limit, taken, SealBatch(entries, time));
      Move(env, cap, limit, tried, GiveBack) == p
  {
    assert p.pool == p.pool[..Min(max, |p.pool|)] + p.pool[Min(max, |p.pool|)..];
  }

  // ----- the chain of a piped run -----

  /** The seal attempts that a run of events makes. */
  function AttemptsOf<S>(env: Env<S>, genesis: S, cap: nat, limit: nat, events: seq<Event>): (attempts: seq<Attempt>)
    requires env.Ok() && |events| <= U64_MAX
    ensures |attempts| <= |events|
    decreases |events|
  {
    if events == [] then []
    else
      var last := |events| - 1;
      var earlier := AttemptsOf(env, genesis, cap, limit, events[..last]);
      if Seals(RunPipe(env, genesis, cap, limit, events[..last]), events[last])
      then earlier + [Attempt(events[last].entries, events[last].time)]
      else earlier
  }

  lemma ReplayOneMore<S>(env: Env<S>, genesis: S, earlier: seq<Attempt>, a: Attempt)
    requires env.Ok() && |earlier| < U64_MAX
    ensures CanStep(env, Replay(env, genesis, earlier))
    ensures Replay(env, genesis, earlier + [a]) == Step(env, Replay(env, genesis, earlier), a)
  {
    assert (earlier + [a])[..|earlier|] == earlier;
  }

  /** Its chain is a plain chain run, so every law of chain runs holds of it. */
  lemma {:induction false} PipedChainIsReplay<S>(env: Env<S>, genesis: S, cap: nat, limit: nat, events: seq<Event>)
    requires env.Ok() && |events| <= U64_MAX
    ensures RunPipe(env, genesis, cap, limit, events).run
      == Replay(env, genesis, AttemptsOf(env, genesis, cap, limit, events))
    decreases |events|
  {
    if events != [] {
      var last := |events| - 1;
      var earlier := AttemptsOf(env, genesis, cap, limit, events[..last]);
      PipedChainIsReplay(env, genesis, cap, limit, events[..last]);
      var p := RunPipe(env, genesis, cap, limit, events[..last]);
      if Seals(p, events[last]) {
        var a := Attempt(events[last].entries, events[last].time);
        ReplayOneMore(env, genesis, earlier, a);
      }
    }
  }
}
