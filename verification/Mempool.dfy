/** The bounded FIFO pool of mempool.rs. */
module Mempool {
  import opened Basics
  import opened Transactions

  class Mpool {
    const cap: nat
    var q: seq<SignedTx>

    constructor (cap: nat)
      ensures this.cap == cap && q == []
    {
      this.cap := cap;
      q := [];
    }

    /** Accepts at the back, unless the pool is full. */
    method Push(tx: SignedTx) returns (accepted: bool)
      modifies this`q
      ensures accepted <==> |old(q)| < cap
      ensures q == if accepted then old(q) + [tx] else old(q)
    {
      if |q| >= cap {
        return false;
      }
      q := q + [tx];
      accepted := true;
    }

    /** Removes up to `max` transactions from the front. */
    method Take(max: nat) returns (out: seq<SignedTx>)
      modifies this`q
      ensures |out| == Min(max, |old(q)|)
      ensures out + q == old(q)
    {
      out := [];
      while |out| < max
        invariant |out| <= max && out + q == old(q)
        decreases max - |out|
      {
        if q == [] {
          break;
        }
        out := out + [q[0]];
        q := q[1..];
      }
    }

    /** The transactions `Take` would remove, left in place. */
    function Snapshot(max: nat): (out: seq<SignedTx>)
      reads this`q
      ensures out <= q && |out| == Min(max, |q|)
    {
      q[..Min(max, |q|)]
    }

    /** Puts a batch back in front, in its own order; the capacity is not consulted. */
    method PrependBlock(txs: seq<SignedTx>)
      modifies this`q
      ensures q == txs + old(q)
    {
      var left := |txs|;
      while left > 0
        invariant 0 <= left <= |txs|
        invariant q == txs[left..] + old(q)
      {
        left := left - 1;
        q := [txs[left]] + q;
        assert txs[left..] == [txs[left]] + txs[left + 1..];
      }
    }
  }
}
