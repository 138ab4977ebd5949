/** The native transition is lawful: it gives the block tree everything its proofs ask for. */
module NativeRules {
  import opened Common
  import opened Types
  import Merkle
  import Conservation
  import opened Transition
  import opened BlockTree
  import opened Blocks

  /** The rules of a chain of native blocks: a transaction is spent once its sender's nonce has passed it. */
  function Native(c: Crypto, g: Genesis, genesis: Entry<Ledger>, maxReorgDepth: nat, maxOrphans: nat): Rules<Ledger> {
    Rules((p, b) => Step(c, g, p, b), (v, tx) => Spent(v, tx), c.txHash, genesis, maxReorgDepth, maxOrphans)
  }

  predicate Spent(v: Ledger, tx: Tx) { tx.nonce < v.Nonce(tx.from) }

  /** What is asked of the hashes: nothing collides, and a transaction hash is not the hash of a pair. */
  ghost predicate NoCollisions(c: Crypto) {
    && (forall h, h' :: c.blockHash(h) == c.blockHash(h') ==> h == h')
    && (forall t, t' :: c.txHash(t) == c.txHash(t') ==> t == t')
    && Merkle.Injective(c.pair)
    && (forall t :: Merkle.IsLeaf(c.pair, c.txHash(t)) && c.txHash(t) != 0)
    && Merkle.IsLeaf(c.pair, 0)
  }

  /** A genesis entry: height zero, no transactions, hashed like any header. */
  predicate GenesisEntry(c: Crypto, e: Entry<Ledger>) {
    && e.block.header.number == 0 && e.block.txs == [] && e.receipts == []
    && e.block.hash == c.blockHash(e.block.header)
  }

  lemma ZeroIsNoRoot(c: Crypto, txs: seq<Tx>)
    requires NoCollisions(c) && txs != []
    ensures TxRoot(c, txs) != 0
  {
    var hs := TxHashes(c, txs);
    if |hs| == 1 {
      assert hs[0] == c.txHash(txs[0]);
    } else {
      RootIsAPair(c.pair, hs);
    }
  }

  lemma {:induction false} RootIsAPair(pair: Merkle.Pair, hs: seq<Merkle.Digest>)
    requires |hs| > 1 && Merkle.IsLeaf(pair, 0)
    ensures Merkle.Root(pair, hs) != 0
    decreases |hs|
  {
    var up := Merkle.Up(pair, hs);
    if |up| > 1 {
      RootIsAPair(pair, up);
    } else {
      assert up[0] == pair(hs[0], hs[1]);
    }
  }

  /** The header's transaction root fixes the transactions. */
  lemma TxRootCommits(c: Crypto, a: seq<Tx>, b: seq<Tx>)
    requires NoCollisions(c) && TxRoot(c, a) == TxRoot(c, b)
    ensures a == b
  {
    if a == [] {
      if b != [] { ZeroIsNoRoot(c, b); }
    } else if b == [] {
      ZeroIsNoRoot(c, a);
    } else {
      var ha, hb := TxHashes(c, a), TxHashes(c, b);
      Merkle.RootCommits(c.pair, ha, hb);
      forall i | 0 <= i < |a|
        ensures a[i] == b[i]
      {
        assert ha[i] == hb[i];
      }
    }
  }

  /** One transaction is run at its sender's nonce and bumps that nonce alone. */
  lemma {:induction false} RunOneNonces(env: Env, p: Progress, tx: Tx, miner: Address, height: nat, limit: nat,
                                        a: Address)
    requires RunOne(env, p, tx, miner, height, limit).Some?
    ensures var p' := RunOne(env, p, tx, miner, height, limit).value;
            && tx.nonce == p.state.Nonce(tx.from)
            && p'.state.Nonce(a) == p.state.Nonce(a) + (if a == tx.from then 1 else 0)
            && |p'.receipts| == |p.receipts| + 1
  {
    hide Apply;
    Conservation.ApplyBumpsOneNonce(env, p.state, tx, miner, height, a);
    Conservation.ApplyBumpsOneNonce(env, p.state, tx, miner, height, tx.from);
  }

  /** Nonces only grow, and there is a receipt for every transaction. */
  lemma {:induction false} ReplayNonces(env: Env, v: Ledger, txs: seq<Tx>, miner: Address, height: nat, limit: nat,
                                        a: Address)
    requires Replayed(env, v, txs, miner, height, limit).Some?
    ensures var p := Replayed(env, v, txs, miner, height, limit).value;
            p.state.Nonce(a) >= v.Nonce(a) && |p.receipts| == |txs|
  {
    hide RunOne;
    if txs != [] {
      ReplayNonces(env, v, txs[..|txs| - 1], miner, height, limit, a);
      var p := Replayed(env, v, txs[..|txs| - 1], miner, height, limit).value;
      RunOneNonces(env, p, txs[|txs| - 1], miner, height, limit, a);
    }
  }

  /** Every transaction of a replay was unspent before it and is spent after. */
  lemma {:induction false} ReplaySpends(env: Env, v: Ledger, txs: seq<Tx>, miner: Address, height: nat, limit: nat,
                                        i: nat)
    requires Replayed(env, v, txs, miner, height, limit).Some? && i < |txs|
    ensures !Spent(v, txs[i]) && Spent(Replayed(env, v, txs, miner, height, limit).value.state, txs[i])
  {
    hide RunOne;
    var before := txs[..|txs| - 1];
    var p := Replayed(env, v, before, miner, height, limit).value;
    RunOneNonces(env, p, txs[|txs| - 1], miner, height, limit, txs[i].from);
    if i < |before| {
      ReplaySpends(env, v, before, miner, height, limit, i);
    } else {
      ReplayNonces(env, v, before, miner, height, limit, txs[i].from);
    }
  }

  /** No transaction runs twice in one replay. */
  lemma {:induction false} ReplayDistinct(env: Env, v: Ledger, txs: seq<Tx>, miner: Address, height: nat, limit: nat,
                                          i: nat, j: nat)
    requires Replayed(env, v, txs, miner, height, limit).Some? && i < j < |txs|
    ensures txs[i] != txs[j]
  {
    hide RunOne;
    var before := txs[..|txs| - 1];
    if j < |before| {
      ReplayDistinct(env, v, before, miner, height, limit, i, j);
    } else {
      var p := Replayed(env, v, before, miner, height, limit).value;
      ReplaySpends(env, v, before, miner, height, limit, i);
      RunOneNonces(env, p, txs[j], miner, height, limit, txs[j].from);
    }
  }

  /** What a verified step went through. */
  lemma {:induction false} StepReplays(c: Crypto, g: Genesis, parent: Entry<Ledger>, b: Block)
    requires Step(c, g, parent, b).Some?
    ensures var h := b.header;
            var replay := Replayed(c.env, parent.state, b.txs, h.miner, h.number, h.gasLimit);
            && HeaderStands(c, g, parent, b) && h.difficulty > 0
            && replay.Some?
            && Step(c, g, parent, b).value ==
               (Rewarded(replay.value.state, h.miner, BlockRewardAt(h.number, g)), replay.value.receipts)
  {
    hide Replayed, NextDifficulty, BlockRewardAt, TxRoot;
  }

  lemma {:induction false} StepSpends(c: Crypto, g: Genesis, parent: Entry<Ledger>, b: Block, i: nat)
    requires Step(c, g, parent, b).Some? && i < |b.txs|
    ensures !Spent(parent.state, b.txs[i]) && Spent(Step(c, g, parent, b).value.0, b.txs[i])
  {
    hide Step, Replayed, BlockRewardAt, HeaderStands;
    var h := b.header;
    StepReplays(c, g, parent, b);
    ReplaySpends(c.env, parent.state, b.txs, h.miner, h.number, h.gasLimit, i);
  }

  lemma {:induction false} StepKeepsSpent(c: Crypto, g: Genesis, parent: Entry<Ledger>, b: Block, tx: Tx)
    requires Step(c, g, parent, b).Some? && Spent(parent.state, tx)
    ensures Spent(Step(c, g, parent, b).value.0, tx)
  {
    hide Step, Replayed, BlockRewardAt, HeaderStands;
    var h := b.header;
    StepReplays(c, g, parent, b);
    ReplayNonces(c.env, parent.state, b.txs, h.miner, h.number, h.gasLimit, tx.from);
  }

  lemma {:induction false} StepDistinct(c: Crypto, g: Genesis, parent: Entry<Ledger>, b: Block, i: nat, j: nat)
    requires Step(c, g, parent, b).Some? && i < j < |b.txs|
    ensures b.txs[i] != b.txs[j]
  {
    hide Step, Replayed, BlockRewardAt, HeaderStands;
    StepReplays(c, g, parent, b);
    ReplayDistinct(c.env, parent.state, b.txs, b.header.miner, b.header.number, b.header.gasLimit, i, j);
  }

  lemma {:induction false} StepIsShaped(c: Crypto, g: Genesis, genesis: Entry<Ledger>, parent: Entry<Ledger>, b: Block)
    requires NoCollisions(c) && GenesisEntry(c, genesis) && Step(c, g, parent, b).Some?
    ensures b.header.number == parent.block.header.number + 1 && b.header.difficulty > 0
    ensures |Step(c, g, parent, b).value.1| == |b.txs| && b.hash != genesis.block.hash
  {
    hide Step, Replayed, BlockRewardAt, ValidSeal, TxRoot;
    StepReplays(c, g, parent, b);
    ReplayNonces(c.env, parent.state, b.txs, b.header.miner, b.header.number, b.header.gasLimit, 0);
  }

  lemma {:induction false} HashFixesBlock(c: Crypto, g: Genesis, p: Entry<Ledger>, b: Block, p': Entry<Ledger>,
                                          b': Block)
    requires NoCollisions(c) && Step(c, g, p, b).Some? && Step(c, g, p', b').Some? && b.hash == b'.hash
    ensures b == b'
  {
    hide Step, Replayed, BlockRewardAt, ValidSeal, TxRoot;
    StepReplays(c, g, p, b);
    StepReplays(c, g, p', b');
    TxRootCommits(c, b.txs, b'.txs);
  }

  /** Every chain of native blocks is a lawful instance of the block tree. */
  lemma {:induction false} NativeIsLawful(c: Crypto, g: Genesis, genesis: Entry<Ledger>, maxReorgDepth: nat,
                                          maxOrphans: nat)
    requires NoCollisions(c) && GenesisEntry(c, genesis)
    ensures Lawful(Native(c, g, genesis, maxReorgDepth, maxOrphans))
  {
    hide Step, NoCollisions;
    NativeShape(c, g, genesis, maxReorgDepth, maxOrphans);
    NativeSpends(c, g, genesis, maxReorgDepth, maxOrphans);
  }

  lemma {:induction false} NativeShape(c: Crypto, g: Genesis, genesis: Entry<Ledger>, maxReorgDepth: nat,
                                       maxOrphans: nat)
    requires NoCollisions(c) && GenesisEntry(c, genesis)
    ensures StepShape(Native(c, g, genesis, maxReorgDepth, maxOrphans))
  {
    hide Step, NoCollisions;
    forall p, b | Step(c, g, p, b).Some?
      ensures b.header.number == p.block.header.number + 1 && b.header.difficulty > 0
      ensures |Step(c, g, p, b).value.1| == |b.txs| && b.hash != genesis.block.hash
    {
      StepIsShaped(c, g, genesis, p, b);
    }
    forall p, b, p', b' | Step(c, g, p, b).Some? && Step(c, g, p', b').Some? && b.hash == b'.hash
      ensures b == b'
    {
      HashFixesBlock(c, g, p, b, p', b');
    }
  }

  lemma {:induction false} NativeSpends(c: Crypto, g: Genesis, genesis: Entry<Ledger>, maxReorgDepth: nat,
                                        maxOrphans: nat)
    requires NoCollisions(c)
    ensures SpendOnce(Native(c, g, genesis, maxReorgDepth, maxOrphans))
  {
    forall t, t' | c.txHash(t) == c.txHash(t')
      ensures t == t'
    {
    }
    hide Step, NoCollisions, Spent;
    forall p, b, t | Step(c, g, p, b).Some? && t in b.txs
      ensures !Spent(p.state, t) && Spent(Step(c, g, p, b).value.0, t)
    {
      var i :| 0 <= i < |b.txs| && b.txs[i] == t;
      StepSpends(c, g, p, b, i);
    }
    forall p, b, t | Step(c, g, p, b).Some? && Spent(p.state, t)
      ensures Spent(Step(c, g, p, b).value.0, t)
    {
      StepKeepsSpent(c, g, p, b, t);
    }
    forall p, b, i, j | Step(c, g, p, b).Some? && 0 <= i < j < |b.txs|
      ensures b.txs[i] != b.txs[j]
    {
      StepDistinct(c, g, p, b, i, j);
    }
  }
}
