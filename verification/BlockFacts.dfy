/** What a verified block tells of itself, and what a chain of them is like (src/chain.js:371-527). */
module BlockFacts {
  import opened Common
  import opened Types
  import Merkle
  import Refusals
  import opened Transition
  import opened BlockTree
  import opened Blocks
  import opened NativeRules

  /** The gas of a block: a base for each transaction, and a price for each byte of its data. */
  function GasOf(txs: seq<Tx>): nat { if txs == [] then 0 else GasOf(txs[..|txs| - 1]) + Refusals.Gas(txs[|txs| - 1]) }

  /** Replaying charges each transaction its gas, within the limit, and gives each a receipt of success. */
  lemma {:induction false} ReplayCharges(env: Env, v: Ledger, txs: seq<Tx>, miner: Address, height: nat, limit: nat)
    requires Replayed(env, v, txs, miner, height, limit).Some?
    ensures var p := Replayed(env, v, txs, miner, height, limit).value;
            && p.used == GasOf(txs) <= limit
            && |p.receipts| == |txs|
            && forall i :: 0 <= i < |txs| ==> p.receipts[i] == TxReceipt(Refusals.Gas(txs[i]), 1)
  {
    hide Apply;
    if txs != [] { ReplayCharges(env, v, txs[..|txs| - 1], miner, height, limit); }
  }

  /** Every transaction of a replay applied to the state the ones before it left. */
  lemma {:induction false} ReplayRuns(env: Env, v: Ledger, txs: seq<Tx>, miner: Address, height: nat, limit: nat,
                                      i: nat)
    requires Replayed(env, v, txs, miner, height, limit).Some? && i < |txs|
    ensures var before := Replayed(env, v, txs[..i], miner, height, limit);
            var after := Replayed(env, v, txs[..i + 1], miner, height, limit);
            && before.Some? && after.Some?
            && Apply(env, before.value.state, txs[i], miner, height) == Some(after.value.state)
    decreases |txs|
  {
    hide Apply;
    var shorter := txs[..|txs| - 1];
    if i < |shorter| {
      ReplayRuns(env, v, shorter, miner, height, limit, i);
      assert shorter[..i] == txs[..i] && shorter[..i + 1] == txs[..i + 1];
    } else {
      assert txs[..i] == shorter && txs[..i + 1] == txs;
    }
  }

  /** What a block that verifies on a parent tells. */
  ghost predicate Tells(c: Crypto, g: Genesis, parent: Entry<Ledger>, e: Entry<Ledger>) {
    var h := e.block.header;
    && h.number == parent.Number() + 1 && h.timestamp > parent.block.header.timestamp
    && |h.extraData| <= 512 && h.nonce < 18_446_744_073_709_551_616 && |e.block.txs| <= 2000
    && h.gasUsed == GasOf(e.block.txs) <= h.gasLimit == g.blockGasLimit
    && h.difficulty == NextDifficulty(parent.block.header, h.timestamp, g) > 0
    && e.td == parent.td + h.difficulty
    && e.block.hash == c.blockHash(h) && h.stateRoot == c.stateRoot(e.state, h.number)
    && c.sealHash(c.sealDigest(h.(nonce := 0)), h.nonce) < TWO_256 / h.difficulty
    && h.txRoot == (if e.block.txs == [] then 0 else Merkle.Root(c.pair, TxHashes(c, e.block.txs)))
    && |e.receipts| == |e.block.txs|
    && forall i :: 0 <= i < |e.receipts| ==> e.receipts[i] == TxReceipt(Refusals.Gas(e.block.txs[i]), 1)
  }

  lemma {:induction false} VerifiedTells(c: Crypto, g: Genesis, r: Rules<Ledger>, parent: Entry<Ledger>,
                                         e: Entry<Ledger>)
    requires r == Native(c, g, r.genesis, r.maxReorgDepth, r.maxOrphans)
    requires r.Verify(parent, e.block) == Some(e)
    ensures Tells(c, g, parent, e)
  {
    hide Replayed, NextDifficulty, BlockRewardAt;
    var h := e.block.header;
    ReplayCharges(c.env, parent.state, e.block.txs, h.miner, h.number, h.gasLimit);
  }

  /** And whatever tells all this, and replays, verifies: nothing else is asked. */
  lemma {:induction false} NothingElseIsAsked(c: Crypto, g: Genesis, parent: Entry<Ledger>, b: Block)
    ensures var h := b.header;
            var replay := Replayed(c.env, parent.state, b.txs, h.miner, h.number, h.gasLimit);
            Step(c, g, parent, b).Some? <==>
              && h.number == parent.Number() + 1 && h.timestamp > parent.block.header.timestamp
              && |h.extraData| <= 512 && h.nonce < 18_446_744_073_709_551_616 && |b.txs| <= 2000
              && h.gasUsed == GasOf(b.txs) && h.gasLimit == g.blockGasLimit
              && h.difficulty == NextDifficulty(parent.block.header, h.timestamp, g) > 0
              && b.hash == c.blockHash(h) && h.txRoot == TxRoot(c, b.txs)
              && c.sealHash(c.sealDigest(h.(nonce := 0)), h.nonce) < TWO_256 / h.difficulty
              && replay.Some?
              && h.stateRoot == c.stateRoot(Rewarded(replay.value.state, h.miner, BlockRewardAt(h.number, g)), h.number)
  {
    hide Replayed, NextDifficulty, BlockRewardAt, TxRoot;
    var h := b.header;
    if Replayed(c.env, parent.state, b.txs, h.miner, h.number, h.gasLimit).Some? {
      ReplayCharges(c.env, parent.state, b.txs, h.miner, h.number, h.gasLimit);
    }
  }

  /** The state after a block is the replay's, with the reward on top for the miner and for nobody else. */
  lemma {:induction false} MinersAreRewarded(c: Crypto, g: Genesis, parent: Entry<Ledger>, b: Block, a: Address)
    requires Step(c, g, parent, b).Some?
    ensures var h, v' := b.header, Step(c, g, parent, b).value.0;
            var replay := Replayed(c.env, parent.state, b.txs, h.miner, h.number, h.gasLimit);
            && replay.Some? && v' == replay.value.state.(accounts := v'.accounts)
            && v'.Nonce(a) == replay.value.state.Nonce(a)
            && v'.Balance(a) == replay.value.state.Balance(a) + if a == h.miner then BlockRewardAt(h.number, g) else 0
  {
    hide Replayed, NextDifficulty, BlockRewardAt, TxRoot, ValidSeal;
  }

  lemma TimeGoesOn(c: Crypto, g: Genesis, parent: Entry<Ledger>, e: Entry<Ledger>)
    requires Tells(c, g, parent, e)
    ensures parent.block.header.timestamp < e.block.header.timestamp
  {
  }

  /** So on every chain: each block tells this of itself on the one before, and time only goes forward. */
  lemma {:induction false} ChainTells(c: Crypto, g: Genesis, r: Rules<Ledger>, path: seq<Entry<Ledger>>, i: nat, j: nat)
    requires r == Native(c, g, r.genesis, r.maxReorgDepth, r.maxOrphans) && FromGenesis(r, path) && i < j < |path|
    ensures Tells(c, g, path[j - 1], path[j])
    ensures path[i].block.header.timestamp < path[j].block.header.timestamp
    decreases j
  {
    hide Native, Tells;
    assert Follows(r, path, j);
    VerifiedTells(c, g, r, path[j - 1], path[j]);
    TimeGoesOn(c, g, path[j - 1], path[j]);
    if i < j - 1 { ChainTells(c, g, r, path, i, j - 1); }
  }

  // ------------------------------------------------------------- composing

  /** A candidate is taken exactly when its gas still fits and it applies to what the ones taken before it left. */
  lemma {:induction false} SelectionIsGreedy(
    env: Env, v: Ledger, candidates: seq<Tx>, miner: Address, height: nat, limit: nat, i: nat)
    requires i < |candidates|
    ensures var (before, p) := Selected(env, v, candidates[..i], miner, height, limit);
            var (after, p') := Selected(env, v, candidates[..i + 1], miner, height, limit);
            var tx := candidates[i];
            && (if p.used + Refusals.Gas(tx) <= limit && Apply(env, p.state, tx, miner, height).Some?
                then after == before + [tx] && Some(p'.state) == Apply(env, p.state, tx, miner, height)
                else (after, p') == (before, p))
            && after <= Selected(env, v, candidates, miner, height, limit).0
    decreases |candidates| - i
  {
    hide Apply;
    assert candidates[..i + 1][..i] == candidates[..i];
    if i + 1 < |candidates| {
      SelectionIsGreedy(env, v, candidates, miner, height, limit, i + 1);
    } else {
      assert candidates[..i + 1] == candidates;
    }
  }

  /** A draft is the miner's own, stands at its clock if that has moved on, and leaves nonce and extra data empty. */
  lemma {:induction false} DraftIsOurs(
    c: Crypto, g: Genesis, parent: Entry<Ledger>, candidates: seq<Tx>, miner: Address, wallClock: nat)
    ensures var (draft, included, p) := Composed(c, g, parent, candidates, miner, wallClock);
            && draft.miner == miner && draft.number == parent.Number() + 1 && draft.parentHash == parent.Hash()
            && draft.timestamp >= wallClock && draft.timestamp > parent.block.header.timestamp
            && (wallClock > parent.block.header.timestamp ==> draft.timestamp == wallClock)
            && (wallClock <= parent.block.header.timestamp ==> draft.timestamp == parent.block.header.timestamp + 1)
            && draft.nonce == 0 && draft.extraData == [] && draft.gasUsed == p.used == GasOf(included)
  {
    hide Apply, Selected, Replayed, NextDifficulty, BlockRewardAt, TxRoot;
    SelectionReplays(c.env, parent.state, candidates, miner, parent.Number() + 1, g.blockGasLimit);
    var (included, p) := Selected(c.env, parent.state, candidates, miner, parent.Number() + 1, g.blockGasLimit);
    ReplayCharges(c.env, parent.state, included, miner, parent.Number() + 1, g.blockGasLimit);
  }
}
