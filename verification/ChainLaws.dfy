/** The laws of a chain over every run: the retained tail, the links, the epochs, and the rotation. */
module ChainLaws {
  import opened Basics
  import opened Division
  import opened Transactions
  import opened Blocks
  import opened Chain
  import opened ChainRuns

  /** A node with as many keys as validators and at least one, hashing and signing as block.rs does. */
  ghost predicate Booted<S>(env: Env<S>, c: Crypto) { env.Ok() && env.fmt == FormatOf(c) }

  /** Boot was also given, for every validator, the key its public key belongs to. */
  ghost predicate KeyedBy<S>(env: Env<S>, c: Crypto) {
    Booted(env, c) && forall i :: 0 <= i < |env.sks| ==> KeyPair(c, env.sks[i], env.cfg.vals[i].pubkey)
  }

  ghost function Accepts(c: Crypto): (Bytes32, BlockHdr) -> bool {
    (pk: Bytes32, h: BlockHdr) => HdrSigValid(c, pk, h)
  }

  /** No demand on signatures: sealing makes none. */
  ghost function Anything(): (Bytes32, BlockHdr) -> bool { (pk: Bytes32, h: BlockHdr) => true }

  lemma BootedKeysMatch<S>(env: Env<S>, c: Crypto)
    requires Booted(env, c)
    ensures KeysMatch(env, Anything())
  {
  }

  lemma BootedInv<S>(env: Env<S>, c: Crypto, genesis: S, attempts: seq<Attempt>)
    requires Booted(env, c) && |attempts| <= U64_MAX
    ensures Inv(env, genesis, Replay(env, genesis, attempts), Anything())
  {
    BootedKeysMatch(env, c);
    ReplayInv(env, genesis, attempts, Anything());
  }

  lemma KeyedKeysMatch<S>(env: Env<S>, c: Crypto)
    requires KeyedBy(env, c)
    ensures KeysMatch(env, Accepts(c))
  {
  }

  lemma KeyedInv<S>(env: Env<S>, c: Crypto, genesis: S, attempts: seq<Attempt>)
    requires KeyedBy(env, c) && |attempts| <= U64_MAX
    ensures Inv(env, genesis, Replay(env, genesis, attempts), Accepts(c))
  {
    KeyedKeysMatch(env, c);
    ReplayInv(env, genesis, attempts, Accepts(c));
  }

  // ----- the retained tail -----

  /** The node keeps exactly the last blocks of its history, up to the cap; their heights are consecutive
      and end at the canonical height. */
  lemma RetainedTail<S>(env: Env<S>, c: Crypto, genesis: S, attempts: seq<Attempt>)
    requires Booted(env, c) && |attempts| <= U64_MAX
    ensures var run := Replay(env, genesis, attempts);
      var kept := run.node.blocks;
      && |run.history| == run.node.height
      && |kept| == Min(run.node.height, 1000)
      && kept == run.history[run.node.height - |kept|..] == Tail(run.history)
      && forall j :: 0 <= j < |kept| ==> kept[j].hdr.height == run.node.height - |kept| + j + 1
  {
    BootedInv(env, c, genesis, attempts);
    TailOfRun(env, genesis, Replay(env, genesis, attempts), Anything());
  }

  lemma TailOfRun<S>(env: Env<S>, genesis: S, run: Run<S>, accepts: (Bytes32, BlockHdr) -> bool)
    requires Inv(env, genesis, run, accepts)
    ensures var kept := run.node.blocks;
      && |run.history| == run.node.height
      && |kept| == Min(run.node.height, 1000)
      && kept == run.history[run.node.height - |kept|..] == Tail(run.history)
      && forall j :: 0 <= j < |kept| ==> kept[j].hdr.height == run.node.height - |kept| + j + 1
  {
    var kept := run.node.blocks;
    forall j | 0 <= j < |kept|
      ensures kept[j].hdr.height == run.node.height - |kept| + j + 1
    {
      var i := run.node.height - |kept| + j;
      assert kept[j] == run.history[i];
      PlacedHeight(env, genesis, run, accepts, i);
    }
  }

  lemma PlacedHeight<S>(env: Env<S>, genesis: S, run: Run<S>, accepts: (Bytes32, BlockHdr) -> bool, i: nat)
    requires Inv(env, genesis, run, accepts) && i < |run.history|
    ensures run.history[i].hdr.height == i + 1
  {
    assert Placed(env, genesis, run, accepts, i);
  }

  // ----- links -----

  ghost predicate Linked(c: Crypto, history: seq<Block>) {
    forall i :: 0 <= i < |history| ==> LinkedAt(c, history, i)
  }

  ghost predicate LinkedAt(c: Crypto, history: seq<Block>, i: nat)
    requires i < |history|
  {
    && history[i].hdr.height == i + 1
    && history[i].hdr.prevHash == (if i == 0 then PrevGen(c.hash) else HdrHash(c.hash, history[i - 1].hdr))
    && history[i].hdr.txRoot == TxsRoot(c.hash, history[i].txs)
  }

  lemma PlacedIsLinked<S>(env: Env<S>, c: Crypto, genesis: S, run: Run<S>, accepts: (Bytes32, BlockHdr) -> bool, i: nat)
    requires Booted(env, c) && i < |run.history| == |run.before| && Placed(env, genesis, run, accepts, i)
    ensures LinkedAt(c, run.history, i)
  {
    assert env.fmt.txsRoot(run.history[i].txs) == TxsRoot(c.hash, run.history[i].txs);
    if i > 0 {
      assert run.history[..i][i - 1] == run.history[i - 1];
      assert env.fmt.hdrHash(run.history[i - 1].hdr) == HdrHash(c.hash, run.history[i - 1].hdr);
    }
  }

  ghost predicate AllSigned<S>(env: Env<S>, c: Crypto, history: seq<Block>)
    requires env.Ok()
  {
    forall i :: 0 <= i < |history| ==> HdrSigValid(c, ProdSlot(env, history[i].hdr.prodIdx).pubkey, history[i].hdr)
  }

  /** Every block of every run links to its predecessor and commits to its own transactions; and when boot
      was given matching keys it verifies under the public key of its producer's slot. */
  lemma RunIsLinked<S>(env: Env<S>, c: Crypto, genesis: S, attempts: seq<Attempt>)
    requires Booted(env, c) && |attempts| <= U64_MAX
    ensures Linked(c, Replay(env, genesis, attempts).history)
    ensures KeyedBy(env, c) ==> AllSigned(env, c, Replay(env, genesis, attempts).history)
  {
    BootedInv(env, c, genesis, attempts);
    var run := Replay(env, genesis, attempts);
    forall i | 0 <= i < |run.history|
      ensures LinkedAt(c, run.history, i)
    {
      assert Placed(env, genesis, run, Anything(), i);
      PlacedIsLinked(env, c, genesis, run, Anything(), i);
    }
    if KeyedBy(env, c) {
      KeyedInv(env, c, genesis, attempts);
      InvIsSigned(env, c, genesis, run);
    }
  }

  lemma InvIsSigned<S>(env: Env<S>, c: Crypto, genesis: S, run: Run<S>)
    requires Inv(env, genesis, run, Accepts(c))
    ensures AllSigned(env, c, run.history)
  {
    forall i | 0 <= i < |run.history|
      ensures HdrSigValid(c, ProdSlot(env, run.history[i].hdr.prodIdx).pubkey, run.history[i].hdr)
    {
      assert Placed(env, genesis, run, Accepts(c), i);
    }
  }

  /** So every block of every run carries a signature of its producer's slot over its own fields, and no other
      header has what was signed, unless BLAKE3 collides on the two. */
  lemma RunSignaturesCover<S>(env: Env<S>, c: Crypto, genesis: S, attempts: seq<Attempt>, i: nat, other: BlockHdr)
    requires KeyedBy(env, c) && |attempts| <= U64_MAX && i < |Replay(env, genesis, attempts).history|
    requires CollisionFree(c.hash, {SigningInput(Replay(env, genesis, attempts).history[i].hdr), SigningInput(other)})
    ensures var h := Replay(env, genesis, attempts).history[i].hdr;
      && c.verify(ProdSlot(env, h.prodIdx).pubkey, c.hash(SigningInput(h)), h.sig)
      && (SignPreimage(c.hash, other) == SignPreimage(c.hash, h) <==> other.(sig := h.sig) == h)
  {
    var h := Replay(env, genesis, attempts).history[i].hdr;
    RunIsLinked(env, c, genesis, attempts);
    assert HdrSigValid(c, ProdSlot(env, h.prodIdx).pubkey, h);
    PreimageBinds(c.hash, h, other);
    PreimageBinds(c.hash, other, h);
  }

  // ----- state roots -----

  /** The ledger that block `i` left behind. */
  function After<S>(run: Run<S>, i: nat): S
    requires i < |run.history| == |run.before|
  {
    if i + 1 < |run.before| then run.before[i + 1] else run.node.st.ledger
  }

  /** Block `i` commits to the ledger it left, and to the epoch and active set of its height. */
  ghost predicate Rooted<S>(env: Env<S>, genesis: S, run: Run<S>, i: nat)
    requires i < |run.history| == |run.before| && |run.history| <= U64_MAX
  {
    run.history[i].hdr.stateRoot
      == env.ops.digest(After(run, i), EpochOf(env.cfg, i + 1), ActiveAt(env, genesis, run.before, i + 1))
  }

  ghost predicate AllRooted<S>(env: Env<S>, genesis: S, run: Run<S>)
    requires |run.history| == |run.before| <= U64_MAX
  {
    forall i :: 0 <= i < |run.history| ==> Rooted(env, genesis, run, i)
  }

  lemma RootedStays<S>(env: Env<S>, genesis: S, run: Run<S>, next: Run<S>, i: nat)
    requires i < |run.history| == |run.before| && |next.history| == |next.before| == |run.history| + 1 <= U64_MAX
    requires next.history[..|run.history|] == run.history && next.before == run.before + [run.node.st.ledger]
    requires Rooted(env, genesis, run, i)
    ensures Rooted(env, genesis, next, i)
  {
    assert next.history[i] == next.history[..|run.history|][i] == run.history[i];
    assert After(next, i) == After(run, i);
  }

  lemma SealRoots<S>(env: Env<S>, genesis: S, run: Run<S>, a: Attempt, accepts: (Bytes32, BlockHdr) -> bool)
    requires Inv(env, genesis, run, accepts) && KeysMatch(env, accepts) && run.node.height < U64_MAX
    requires Seal(env, run.node, a.entries, a.time).Ok?
    ensures var next := Step(env, run, a);
      |next.history| == |next.before| == |run.history| + 1 && Rooted(env, genesis, next, |run.history|)
  {
    var b, active := SealGrows(env, genesis, run, a, accepts);
    assert Step(env, run, a).history[|run.history|] == b;
  }

  /** Every block of every run commits to the ledger it left behind, the epoch and the active set. */
  lemma {:induction false} StateRoots<S>(env: Env<S>, c: Crypto, genesis: S, attempts: seq<Attempt>)
    requires Booted(env, c) && |attempts| <= U64_MAX
    ensures var run := Replay(env, genesis, attempts);
      |run.history| == |run.before| <= U64_MAX && AllRooted(env, genesis, run)
    decreases |attempts|
  {
    BootedInv(env, c, genesis, attempts);
    if attempts != [] {
      var earlier, a := attempts[..|attempts| - 1], attempts[|attempts| - 1];
      var run := Replay(env, genesis, earlier);
      StateRoots(env, c, genesis, earlier);
      BootedInv(env, c, genesis, earlier);
      if Seal(env, run.node, a.entries, a.time).Ok? {
        BootedKeysMatch(env, c);
        SealRoots(env, genesis, run, a, Anything());
        StepRoots(env, genesis, run, Step(env, run, a));
      }
    }
  }

  lemma StepRoots<S>(env: Env<S>, genesis: S, run: Run<S>, next: Run<S>)
    requires |run.history| == |run.before| && |next.history| == |next.before| == |run.history| + 1 <= U64_MAX
    requires next.history[..|run.history|] == run.history && next.before == run.before + [run.node.st.ledger]
    requires AllRooted(env, genesis, run) && Rooted(env, genesis, next, |run.history|)
    ensures AllRooted(env, genesis, next)
  {
    forall i | 0 <= i < |run.history|
      ensures Rooted(env, genesis, next, i)
    {
      RootedStays(env, genesis, run, next, i);
    }
  }

  ghost function Headers(history: seq<Block>): (hs: seq<BlockHdr>)
    ensures |hs| == |history|
    ensures forall i :: 0 <= i < |history| ==> hs[i] == history[i].hdr
  {
    seq(|history|, i requires 0 <= i < |history| => history[i].hdr)
  }

  ghost function HashedHeaders(history: seq<Block>): set<seq<byte>> {
    set b | b in history :: HdrBytes(b.hdr)
  }

  /** Headers with consecutive heights from one, each naming the hash of the one before it. */
  ghost predicate Chained(hdrHash: BlockHdr -> Bytes32, hs: seq<BlockHdr>) {
    forall i :: 0 <= i < |hs| ==> hs[i].height == i + 1 && (i > 0 ==> hs[i].prevHash == hdrHash(hs[i - 1]))
  }

  ghost predicate Separates(hdrHash: BlockHdr -> Bytes32, g: seq<BlockHdr>, h: seq<BlockHdr>) {
    forall x, y :: x in g && y in h && hdrHash(x) == hdrHash(y) ==> x == y
  }

  lemma PrefixChained(hdrHash: BlockHdr -> Bytes32, g: seq<BlockHdr>, h: seq<BlockHdr>, m: nat)
    requires Chained(hdrHash, g) && Chained(hdrHash, h) && Separates(hdrHash, g, h)
    requires m <= |g| && m <= |h|
    ensures Chained(hdrHash, g[..m]) && Chained(hdrHash, h[..m]) && Separates(hdrHash, g[..m], h[..m])
  {
  }

  lemma {:induction false} TipBindsHeaders(hdrHash: BlockHdr -> Bytes32, g: seq<BlockHdr>, h: seq<BlockHdr>)
    requires Chained(hdrHash, g) && Chained(hdrHash, h) && Separates(hdrHash, g, h) && g != [] && h != []
    requires hdrHash(g[|g| - 1]) == hdrHash(h[|h| - 1])
    ensures g == h
    decreases |g|
  {
    var m := |g| - 1;
    assert g[m] in g && h[|h| - 1] in h;
    assert g[m] == h[|h| - 1] && g[m].height == m + 1 && |g| == |h|;
    if m > 0 {
      assert hdrHash(g[m - 1]) == g[m].prevHash == h[m].prevHash == hdrHash(h[m - 1]);
      PrefixChained(hdrHash, g, h, m);
      TipBindsHeaders(hdrHash, g[..m], h[..m]);
    }
    assert g == g[..m] + [g[m]] && h == h[..m] + [h[m]];
  }

  lemma LinkedIsChained(c: Crypto, history: seq<Block>)
    requires Linked(c, history)
    ensures Chained(FormatOf(c).hdrHash, Headers(history))
  {
    forall i | 0 <= i < |history|
      ensures Headers(history)[i].height == i + 1
      ensures i > 0 ==> Headers(history)[i].prevHash == FormatOf(c).hdrHash(Headers(history)[i - 1])
    {
      assert LinkedAt(c, history, i);
    }
  }

  lemma CollisionFreeSeparates(c: Crypto, g: seq<Block>, h: seq<Block>)
    requires CollisionFree(c.hash, HashedHeaders(g) + HashedHeaders(h))
    ensures Separates(FormatOf(c).hdrHash, Headers(g), Headers(h))
  {
    forall x, y | x in Headers(g) && y in Headers(h) && FormatOf(c).hdrHash(x) == FormatOf(c).hdrHash(y)
      ensures x == y
    {
      assert HdrBytes(x) in HashedHeaders(g) && HdrBytes(y) in HashedHeaders(h);
      HdrBytesInjective(x, y);
    }
  }

  /** The tip hash commits to every header of the past: two linked histories with one tip hash have the same
      headers, and so the same length, as long as BLAKE3 does not collide on those headers. */
  lemma TipBindsHistory(c: Crypto, g: seq<Block>, h: seq<Block>)
    requires Linked(c, g) && Linked(c, h) && g != [] && h != []
    requires HdrHash(c.hash, g[|g| - 1].hdr) == HdrHash(c.hash, h[|h| - 1].hdr)
    requires CollisionFree(c.hash, HashedHeaders(g) + HashedHeaders(h))
    ensures Headers(g) == Headers(h)
  {
    LinkedIsChained(c, g);
    LinkedIsChained(c, h);
    CollisionFreeSeparates(c, g, h);
    TipBindsHeaders(FormatOf(c).hdrHash, Headers(g), Headers(h));
  }

  // ----- epochs -----

  /** The eligible validators in increasing order, without the cut to 16 bits. */
  function EligibleFrom<S>(env: Env<S>, ledger: S, i: nat): seq<nat>
    requires i <= |env.cfg.vals|
    decreases |env.cfg.vals| - i
  {
    if i == |env.cfg.vals| then []
    else if Eligible(env, ledger, i) then [i] + EligibleFrom(env, ledger, i + 1)
    else EligibleFrom(env, ledger, i + 1)
  }

  ghost predicate Increasing(e: seq<nat>) { forall j, k :: 0 <= j < k < |e| ==> e[j] < e[k] }

  lemma {:induction false} EligibleFromOrder<S>(env: Env<S>, ledger: S, i: nat)
    requires i <= |env.cfg.vals|
    ensures var e := EligibleFrom(env, ledger, i);
      && Increasing(e)
      && forall k :: 0 <= k < |e| ==> i <= e[k] < |env.cfg.vals| && Eligible(env, ledger, e[k])
    decreases |env.cfg.vals| - i
  {
    if i < |env.cfg.vals| {
      EligibleFromOrder(env, ledger, i + 1);
    }
  }

  lemma {:induction false} EligibleFromAll<S>(env: Env<S>, ledger: S, i: nat, v: nat)
    requires i <= v < |env.cfg.vals| && Eligible(env, ledger, v)
    ensures v in EligibleFrom(env, ledger, i)
    decreases |env.cfg.vals| - i
  {
    if i < v {
      EligibleFromAll(env, ledger, i + 1, v);
    }
  }

  lemma {:induction false} RecomputeVsEligible<S>(env: Env<S>, ledger: S, i: nat)
    requires i <= |env.cfg.vals|
    ensures |RecomputeFrom(env, ledger, i)| == |EligibleFrom(env, ledger, i)|
    ensures RecomputeFrom(env, ledger, i) == EligibleFrom(env, ledger, i)
      <==> forall v :: i <= v < |env.cfg.vals| && Eligible(env, ledger, v) ==> v <= U16_MAX
    decreases |env.cfg.vals| - i
  {
    if i < |env.cfg.vals| {
      RecomputeVsEligible(env, ledger, i + 1);
      var r, e := RecomputeFrom(env, ledger, i), EligibleFrom(env, ledger, i);
      if Eligible(env, ledger, i) {
        assert r[1..] == RecomputeFrom(env, ledger, i + 1) && e[1..] == EligibleFrom(env, ledger, i + 1);
        assert r == [r[0]] + r[1..] && e == [e[0]] + e[1..];
      }
    }
  }

  /** An account that the ledger knows, with at least the minimum at stake. */
  ghost predicate Staked<S>(env: Env<S>, ledger: S, acct: AccountId) {
    var stake := env.ops.stakeOf(ledger, acct);
    stake.Some? && env.cfg.minValidatorStake <= stake.value
  }

  /** The active set lists exactly the validators that meet the minimum, in increasing order, if and only
      if none of those has an index beyond 16 bits. */
  lemma ActiveIsExact<S>(env: Env<S>, ledger: S)
    ensures var e := EligibleFrom(env, ledger, 0);
      && Increasing(e)
      && (forall v :: v in e <==> 0 <= v < |env.cfg.vals| && Staked(env, ledger, env.cfg.vals[v].acct))
    ensures RecomputeActive(env, ledger) == EligibleFrom(env, ledger, 0)
      <==> forall v :: 0 <= v < |env.cfg.vals| && Staked(env, ledger, env.cfg.vals[v].acct) ==> v <= U16_MAX
  {
    assert forall v :: 0 <= v < |env.cfg.vals| ==>
      (Eligible(env, ledger, v) <==> Staked(env, ledger, env.cfg.vals[v].acct));
    EligibleFromOrder(env, ledger, 0);
    forall v | 0 <= v < |env.cfg.vals| && Eligible(env, ledger, v)
      ensures v in EligibleFrom(env, ledger, 0)
    {
      EligibleFromAll(env, ledger, 0, v);
    }
    RecomputeVsEligible(env, ledger, 0);
  }

  /** After any run the epoch counter is the height divided by the epoch length, and the active set is
      what the ledger just before the last boundary block called for: genesis when there was none. */
  lemma EpochRule<S>(env: Env<S>, c: Crypto, genesis: S, attempts: seq<Attempt>)
    requires Booted(env, c) && |attempts| <= U64_MAX && env.cfg.epochLengthBlocks > 0
    ensures var run := Replay(env, genesis, attempts);
      && run.node.st.epochCounter == run.node.height / env.cfg.epochLengthBlocks
      && Boundary(env.cfg, run.node.height) <= |run.before|
      && run.node.st.active == RecomputeActive(env, DecidingLedger(env, genesis, run.before, run.node.height))
  {
    BootedInv(env, c, genesis, attempts);
  }

  /** Heights of one epoch have one validator set. */
  lemma SameEpochSameActive<S>(env: Env<S>, genesis: S, before: seq<S>, g: nat, h: nat)
    requires Boundary(env.cfg, g) <= |before| && Boundary(env.cfg, h) <= |before|
    requires EpochOf(env.cfg, g) == EpochOf(env.cfg, h)
    ensures ActiveAt(env, genesis, before, g) == ActiveAt(env, genesis, before, h)
  {
  }

  // ----- rotation -----

  /** How many of `k` consecutive heights after `a` leave remainder `p` modulo `n`. */
  function Turns(a: nat, k: nat, n: nat, p: nat): nat
    requires n > 0
    decreases k
  {
    if k == 0 then 0 else Turns(a, k - 1, n, p) + if (a + k) % n == p then 1 else 0
  }

  lemma RemainderShift(h: nat, n: nat, p: nat)
    requires p < n
    ensures (h + n - p) % n == 0 <==> h % n == p
  {
    var q, r := h / n, h % n;
    if r >= p {
      assert h + n - p == n * (q + 1) + (r - p);
      DivUnique(h + n - p, n, q + 1, r - p);
    } else {
      DivUnique(h + n - p, n, q, r + n - p);
    }
  }

  lemma {:induction false} TurnsClosed(a: nat, k: nat, n: nat, p: nat)
    requires p < n
    ensures Turns(a, k, n, p) == (a + k + n - p) / n - (a + n - p) / n
    decreases k
  {
    if k > 0 {
      TurnsClosed(a, k - 1, n, p);
      DivStep(a + k - 1 + n - p, n);
      RemainderShift(a + k, n, p);
    }
  }

  lemma TurnsFair(a: nat, k: nat, n: nat, p: nat)
    requires p < n
    ensures k / n <= Turns(a, k, n, p) <= k / n + if k % n == 0 then 0 else 1
  {
    TurnsClosed(a, k, n, p);
    DivAdd(a + n - p, k, n);
  }

  /** Blocks among the `k` after height `a` that validator `v` produced. */
  function Produced(history: seq<Block>, v: nat, a: nat, k: nat): nat
    requires a + k <= |history|
    decreases k
  {
    if k == 0 then 0 else Produced(history, v, a, k - 1) + if history[a + k - 1].hdr.prodIdx == v then 1 else 0
  }

  /** Slots below `upto` that hold `v`, and the heights that fall to them. */
  function Slots(active: seq<u16>, v: nat, upto: nat): nat
    requires upto <= |active|
  {
    if upto == 0 then 0 else Slots(active, v, upto - 1) + if active[upto - 1] == v then 1 else 0
  }

  function SlotTurns(active: seq<u16>, v: nat, a: nat, k: nat, upto: nat): nat
    requires upto <= |active|
    decreases upto
  {
    if upto == 0 then 0
    else SlotTurns(active, v, a, k, upto - 1) + if active[upto - 1] == v then Turns(a, k, |active|, upto - 1) else 0
  }

  lemma {:induction false} SlotTurnsStep(active: seq<u16>, v: nat, a: nat, k: nat, upto: nat)
    requires upto <= |active| && k > 0 && active != []
    ensures var slot := (a + k) % |active|;
      SlotTurns(active, v, a, k, upto)
        == SlotTurns(active, v, a, k - 1, upto) + if slot < upto && active[slot] == v then 1 else 0
    decreases upto
  {
    if upto > 0 {
      SlotTurnsStep(active, v, a, k, upto - 1);
    }
  }

  lemma {:induction false} SlotTurnsNone(active: seq<u16>, v: nat, a: nat, upto: nat)
    requires upto <= |active|
    ensures SlotTurns(active, v, a, 0, upto) == 0
  {
    if upto > 0 {
      SlotTurnsNone(active, v, a, upto - 1);
    }
  }

  lemma {:induction false} ProducedIsTurns(history: seq<Block>, active: seq<u16>, v: nat, a: nat, k: nat)
    requires a + k <= |history| && active != []
    requires forall i :: a <= i < a + k ==> history[i].hdr.prodIdx == active[(i + 1) % |active|]
    ensures Produced(history, v, a, k) == SlotTurns(active, v, a, k, |active|)
    decreases k
  {
    if k > 0 {
      ProducedIsTurns(history, active, v, a, k - 1);
      SlotTurnsStep(active, v, a, k, |active|);
      DivBounds(a + k, |active|);
    } else {
      SlotTurnsNone(active, v, a, |active|);
    }
  }

  /** The share of one slot, rounded up. */
  function ShareUp(k: nat, n: nat): nat
    requires n > 0
  {
    DivBounds(k, n);
    k / n + if k % n == 0 then 0 else 1
  }

  lemma {:induction false} SlotsBetween(active: seq<u16>, v: nat, a: nat, k: nat, upto: nat, low: nat, high: nat)
    requires upto <= |active|
    requires forall p :: 0 <= p < |active| ==> low <= Turns(a, k, |active|, p) <= high
    ensures Slots(active, v, upto) * low <= SlotTurns(active, v, a, k, upto) <= Slots(active, v, upto) * high
    decreases upto
  {
    if upto > 0 {
      SlotsBetween(active, v, a, k, upto - 1, low, high);
      var m := Slots(active, v, upto - 1);
      assert (m + 1) * low == m * low + low && (m + 1) * high == m * high + high;
    }
  }

  lemma SlotsFair(active: seq<u16>, v: nat, a: nat, k: nat)
    requires active != []
    ensures var m := Slots(active, v, |active|);
      m * (k / |active|) <= SlotTurns(active, v, a, k, |active|) <= m * ShareUp(k, |active|)
  {
    DivBounds(k, |active|);
    forall p | 0 <= p < |active|
      ensures k / |active| <= Turns(a, k, |active|, p) <= ShareUp(k, |active|)
    {
      TurnsFair(a, k, |active|, p);
    }
    SlotsBetween(active, v, a, k, |active|, k / |active|, ShareUp(k, |active|));
  }

  lemma {:induction false} SlotsOf(active: seq<u16>, v: nat, upto: nat)
    requires upto <= |active|
    ensures Slots(active, v, upto) > 0 <==> v in active[..upto]
    ensures Distinct(active) ==> Slots(active, v, upto) <= 1
  {
    if upto > 0 {
      SlotsOf(active, v, upto - 1);
      assert active[..upto] == active[..upto - 1] + [active[upto - 1]];
    }
  }

  /** With at most 65536 validators one is active exactly when its account has the minimum at stake. */
  lemma ActiveIsStaked<S>(env: Env<S>, ledger: S, i: nat)
    requires |env.cfg.vals| <= U16_MAX + 1 && i < |env.cfg.vals|
    ensures i in RecomputeActive(env, ledger) <==> Staked(env, ledger, env.cfg.vals[i].acct)
  {
    ActiveIsExact(env, ledger);
    var e := EligibleFrom(env, ledger, 0);
    assert i in RecomputeActive(env, ledger) <==> i in e;
  }

  /** With at most 65536 validators the active set lists none twice. */
  lemma FewAreDistinct<S>(env: Env<S>, ledger: S)
    requires |env.cfg.vals| <= U16_MAX + 1
    ensures Distinct(RecomputeActive(env, ledger))
  {
    ActiveIsExact(env, ledger);
  }

  lemma EpochsGrow(cfg: GenCfg, g: nat, h: nat)
    requires g <= h
    ensures EpochOf(cfg, g) <= EpochOf(cfg, h)
  {
    if cfg.epochLengthBlocks > 0 {
      DivAdd(g, h - g, cfg.epochLengthBlocks);
      DivBounds(h - g, cfg.epochLengthBlocks);
    }
  }

  lemma PlacedInTurn<S>(env: Env<S>, genesis: S, run: Run<S>, accepts: (Bytes32, BlockHdr) -> bool, i: nat)
    requires env.Ok() && i < |run.history| == |run.before| && Placed(env, genesis, run, accepts, i)
    ensures var active := ActiveAt(env, genesis, run.before, i + 1);
      active != [] && run.history[i].hdr.prodIdx == active[(i + 1) % |active|]
  {
  }

  /** Within one epoch every block is produced by the validator whose turn its height is. */
  lemma ProducersInTurn<S>(env: Env<S>, genesis: S, run: Run<S>, accepts: (Bytes32, BlockHdr) -> bool, a: nat, k: nat,
                           i: nat)
    requires Inv(env, genesis, run, accepts) && a <= i < a + k <= |run.history|
    requires EpochOf(env.cfg, a + 1) == EpochOf(env.cfg, a + k) && Boundary(env.cfg, a + 1) <= |run.before|
    ensures var active := ActiveAt(env, genesis, run.before, a + 1);
      active != [] && run.history[i].hdr.prodIdx == active[(i + 1) % |active|]
  {
    EpochsGrow(env.cfg, a + 1, i + 1);
    EpochsGrow(env.cfg, i + 1, a + k);
    assert Boundary(env.cfg, i + 1) <= i + 1;
    SameEpochSameActive(env, genesis, run.before, a + 1, i + 1);
    PlacedInTurn(env, genesis, run, accepts, i);
  }

  /** Two blocks of one epoch have one producer if and only if their heights agree modulo the number of active
      validators, when there are at most 65536 validators in all. */
  lemma SameProducer<S>(env: Env<S>, c: Crypto, genesis: S, attempts: seq<Attempt>, i: nat, j: nat)
    requires Booted(env, c) && |attempts| <= U64_MAX && |env.cfg.vals| <= U16_MAX + 1
    requires i < |Replay(env, genesis, attempts).history| && j < |Replay(env, genesis, attempts).history|
    requires EpochOf(env.cfg, i + 1) == EpochOf(env.cfg, j + 1)
    ensures var run := Replay(env, genesis, attempts);
      && Boundary(env.cfg, i + 1) <= |run.before|
      && var n := |ActiveAt(env, genesis, run.before, i + 1)|;
      && n > 0
      && (run.history[i].hdr.prodIdx == run.history[j].hdr.prodIdx <==> (i + 1) % n == (j + 1) % n)
  {
    BootedInv(env, c, genesis, attempts);
    SameSlot(env, genesis, Replay(env, genesis, attempts), Anything(), i, j);
  }

  lemma SameSlot<S>(env: Env<S>, genesis: S, run: Run<S>, accepts: (Bytes32, BlockHdr) -> bool, i: nat, j: nat)
    requires Inv(env, genesis, run, accepts) && |env.cfg.vals| <= U16_MAX + 1
    requires i < |run.history| && j < |run.history| && EpochOf(env.cfg, i + 1) == EpochOf(env.cfg, j + 1)
    ensures Boundary(env.cfg, i + 1) <= |run.before|
    ensures var n := |ActiveAt(env, genesis, run.before, i + 1)|;
      && n > 0
      && (run.history[i].hdr.prodIdx == run.history[j].hdr.prodIdx <==> (i + 1) % n == (j + 1) % n)
  {
    assert Placed(env, genesis, run, accepts, i) && Placed(env, genesis, run, accepts, j);
    PlacedInTurn(env, genesis, run, accepts, i);
    PlacedInTurn(env, genesis, run, accepts, j);
    SameEpochSameActive(env, genesis, run.before, i + 1, j + 1);
    FewAreDistinct(env, DecidingLedger(env, genesis, run.before, i + 1));
  }

  /** Fair rotation, however many validators there are: over any k consecutive heights of one epoch with n
      active slots, a validator that holds m of them produces m times k/n blocks, each share rounded down
      or up. One that holds none produces none. */
  lemma FairRotation<S>(env: Env<S>, c: Crypto, genesis: S, attempts: seq<Attempt>, a: nat, k: nat, v: nat)
    requires Booted(env, c) && |attempts| <= U64_MAX
    requires k > 0 && a + k <= |Replay(env, genesis, attempts).history|
    requires EpochOf(env.cfg, a + 1) == EpochOf(env.cfg, a + k)
    ensures var run := Replay(env, genesis, attempts);
      && Boundary(env.cfg, a + 1) <= |run.before|
      && var active := ActiveAt(env, genesis, run.before, a + 1);
      && active != []
      && var m := Slots(active, v, |active|);
      && (m > 0 <==> v in active) && (Distinct(active) ==> m <= 1)
      && m * (k / |active|) <= Produced(run.history, v, a, k) <= m * ShareUp(k, |active|)
  {
    BootedInv(env, c, genesis, attempts);
    RotationOfRun(env, genesis, Replay(env, genesis, attempts), Anything(), a, k, v);
  }

  lemma RotationOfRun<S>(env: Env<S>, genesis: S, run: Run<S>, accepts: (Bytes32, BlockHdr) -> bool, a: nat, k: nat,
                         v: nat)
    requires Inv(env, genesis, run, accepts) && k > 0 && a + k <= |run.history|
    requires EpochOf(env.cfg, a + 1) == EpochOf(env.cfg, a + k)
    ensures Boundary(env.cfg, a + 1) <= |run.before|
    ensures var active := ActiveAt(env, genesis, run.before, a + 1);
      && active != []
      && var m := Slots(active, v, |active|);
      && (m > 0 <==> v in active) && (Distinct(active) ==> m <= 1)
      && m * (k / |active|) <= Produced(run.history, v, a, k) <= m * ShareUp(k, |active|)
  {
    var active := ActiveAt(env, genesis, run.before, a + 1);
    forall i | a <= i < a + k
      ensures active != [] && run.history[i].hdr.prodIdx == active[(i + 1) % |active|]
    {
      ProducersInTurn(env, genesis, run, accepts, a, k, i);
    }
    assert run.history[a].hdr.prodIdx == active[(a + 1) % |active|];
    ProducedIsTurns(run.history, active, v, a, k);
    SlotsFair(active, v, a, k);
    SlotsOf(active, v, |active|);
    assert active[..|active|] == active;
  }

  /** Every producer index ever written names a validator and its key, however many validators there are. */
  lemma ProducersInRange<S>(env: Env<S>, c: Crypto, genesis: S, attempts: seq<Attempt>, i: nat)
    requires Booted(env, c) && |attempts| <= U64_MAX && i < |Replay(env, genesis, attempts).history|
    ensures Replay(env, genesis, attempts).history[i].hdr.prodIdx < |env.cfg.vals| == |env.sks|
  {
    BootedInv(env, c, genesis, attempts);
    assert Placed(env, genesis, Replay(env, genesis, attempts), Anything(), i);
  }

  // ----- more validators than indices -----

  /** An environment with 65537 eligible validators, whose active set misses the last one. */
  lemma ManyValidators(c: Crypto, sk: SigningKey) returns (env: Env<()>)
    ensures Booted(env, c) && |env.cfg.vals| == U16_MAX + 2 && Eligible(env, (), U16_MAX + 1)
    ensures U16_MAX + 1 !in RecomputeActive(env, ()) && RecomputeActive(env, ()) != EligibleFrom(env, (), 0)
  {
    var cfg := GenCfg(seq(U16_MAX + 2, _ => VRow(ZEROS32, ZEROS32)), 0, 0);
    var ops: LedgerOps<()> := LedgerOps(
      (l: (), id: AccountId) => Some(0),
      (l: (), h: u64) => (),
      (l: (), tx: SignedTx, h: u64, ts: u64) => Ok(()),
      (l: (), tx: SignedTx, h: u64, ts: u64) => Ok(()),
      (l: (), h: u64) => (),
      (l: (), id: AccountId, h: u64) => (),
      (l: (), e: u64, active: seq<u16>) => ZEROS32);
    env := Env(FormatOf(c), cfg, seq(U16_MAX + 2, _ => sk), ops);
    ActiveIsExact(env, ());
  }
}
