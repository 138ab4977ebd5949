/**
 * Composing, sealing and verifying blocks (src/block.js:79-182, src/chain.js:371-527), over the native
 * transition. Hashes are parameters; what is assumed of them is `NoCollisions` in NativeRules.
 */
module Blocks {
  import opened Common
  import opened Types
  import A = Accounts
  import Merkle
  import opened Transition
  import opened BlockTree
  import S = StateModule

  const TWO_256: nat := Pow2(256)
  const TWO_64: nat := 0x1_0000_0000_0000_0000
  const MAX_EXTRA_DATA_BYTES: nat := 512
  const MAX_TRANSACTIONS_PER_BLOCK: nat := 2000
  const ISSUANCE_ACTIVATION: nat := 80_000
  const REWARD_AFTER: nat := 2_000_000_000_000_000_000
  const HALVING_INTERVAL_AFTER: nat := 5_640_000
  const REWARD_FLOOR_AFTER: nat := 50_000_000_000_000_000

  datatype Genesis = Genesis(
    blockGasLimit: nat, targetSeconds: nat, minimumDifficulty: nat,
    blockReward: nat, halvingInterval: nat, rewardFloor: nat)

  datatype Crypto = Crypto(
    env: Env,
    txHash: Tx -> Hash,
    pair: Merkle.Pair,
    blockHash: Header -> Hash,
    sealDigest: Header -> Hash,
    sealHash: (Hash, nat) -> nat,
    stateRoot: (Ledger, nat) -> Hash)

  // ------------------------------------------------------------- difficulty, seal and reward

  function NextDifficulty(parent: Header, timestamp: nat, g: Genesis): nat {
    var step := if parent.difficulty / 16 == 0 then 1 else parent.difficulty / 16;
    var next := if timestamp - parent.timestamp < g.targetSeconds then parent.difficulty + step
      else parent.difficulty - step;
    Max(next, g.minimumDifficulty)
  }

  /** One block moves the difficulty by a sixteenth at most, and never below the floor. */
  lemma DifficultyMovesSlowly(parent: Header, timestamp: nat, g: Genesis)
    requires parent.difficulty >= g.minimumDifficulty
    ensures NextDifficulty(parent, timestamp, g) >= g.minimumDifficulty
    ensures parent.difficulty >= 16 ==>
              16 * NextDifficulty(parent, timestamp, g) <= 17 * parent.difficulty
    ensures parent.difficulty >= 16 ==>
              15 * parent.difficulty <= 16 * NextDifficulty(parent, timestamp, g)
  {
  }

  /** Blocks that come fast raise the difficulty, blocks that come slow lower it, down to the floor. */
  lemma DifficultySteers(parent: Header, timestamp: nat, g: Genesis)
    requires parent.difficulty >= g.minimumDifficulty
    ensures timestamp < parent.timestamp + g.targetSeconds ==>
              NextDifficulty(parent, timestamp, g) > parent.difficulty
    ensures timestamp >= parent.timestamp + g.targetSeconds ==>
              || NextDifficulty(parent, timestamp, g) < parent.difficulty
              || NextDifficulty(parent, timestamp, g) == g.minimumDifficulty
  {
  }

  /** Waiting longer never gives a higher difficulty. */
  lemma DifficultyFallsWithTime(parent: Header, timestamp: nat, later: nat, g: Genesis)
    requires timestamp <= later
    ensures NextDifficulty(parent, later, g) <= NextDifficulty(parent, timestamp, g)
  {
  }

  /** Off the floor the move is a sixteenth, rounded down, and at least one. */
  lemma DifficultyMovesByASixteenth(parent: Header, timestamp: nat, g: Genesis)
    requires NextDifficulty(parent, timestamp, g) != g.minimumDifficulty
    ensures var next := NextDifficulty(parent, timestamp, g);
            var move := if next >= parent.difficulty then next - parent.difficulty else parent.difficulty - next;
            move >= 1 && parent.difficulty < 16 * (move + 1) && (move > 1 ==> 16 * move <= parent.difficulty)
  {
  }

  /** The header as the seal digest sees it: everything but the nonce. */
  function Unsealed(h: Header): Header { h.(nonce := 0) }

  /** A difficulty of zero throws in the source; here it is never satisfied. */
  predicate ValidSeal(c: Crypto, h: Header) {
    h.difficulty > 0 && c.sealHash(c.sealDigest(Unsealed(h)), h.nonce) < TWO_256 / h.difficulty
  }

  /** The reward after its flag day, halving to a floor (src/monetary.js). */
  function IssuanceOverride(number: nat): Option<nat> {
    if number < ISSUANCE_ACTIVATION then None
    else
      var era := (number - ISSUANCE_ACTIVATION) / HALVING_INTERVAL_AFTER;
      Some(Max(REWARD_AFTER / Pow2(Min(era, 64)), REWARD_FLOOR_AFTER))
  }

  function BlockRewardAt(number: nat, g: Genesis): nat {
    match IssuanceOverride(number)
    case Some(reward) => reward
    case None =>
      if g.halvingInterval == 0 then g.blockReward
      else Max(g.blockReward / Pow2(Min(number / g.halvingInterval, 64)), g.rewardFloor)
  }

  /** The reward never grows from the flag day on, and never falls under its floor. */
  lemma RewardDeclines(n: nat, m: nat, g: Genesis)
    requires ISSUANCE_ACTIVATION <= n <= m
    ensures REWARD_FLOOR_AFTER <= BlockRewardAt(m, g) <= BlockRewardAt(n, g) <= REWARD_AFTER
  {
    var a, b := (n - ISSUANCE_ACTIVATION) / HALVING_INTERVAL_AFTER, (m - ISSUANCE_ACTIVATION) / HALVING_INTERVAL_AFTER;
    DivMonotone(n - ISSUANCE_ACTIVATION, m - ISSUANCE_ACTIVATION, HALVING_INTERVAL_AFTER);
    Pow2Monotone(Min(a, 64), Min(b, 64));
    DivAntitone(REWARD_AFTER, Pow2(Min(a, 64)), Pow2(Min(b, 64)));
    DivAntitone(REWARD_AFTER, 1, Pow2(Min(a, 64)));
  }

  /** From its flag day the reward is 2 MOLI, and half of itself after every 5,640,000 blocks, down to a twentieth. */
  lemma {:induction false} RewardHalves(n: nat, g: Genesis)
    requires n >= 80_000
    ensures n < 5_720_000 ==> BlockRewardAt(n, g) == 2_000_000_000_000_000_000
    ensures BlockRewardAt(n + 5_640_000, g) == Max(BlockRewardAt(n, g) / 2, 50_000_000_000_000_000)
  {
    var era := (n - ISSUANCE_ACTIVATION) / HALVING_INTERVAL_AFTER;
    assert (n + 5_640_000 - ISSUANCE_ACTIVATION) / HALVING_INTERVAL_AFTER == era + 1;
    assert n < 5_720_000 ==> era == 0;
    assert Pow2(0) == 1;
    if era < 64 {
      HalfOfQuotient(REWARD_AFTER, Pow2(era));
      assert Pow2(era + 1) == 2 * Pow2(era);
    } else {
      Pow2Monotone(6, 64);
      assert Pow2(6) == 64 * Pow2(0);
      DivAntitone(REWARD_AFTER, 64, Pow2(64));
    }
  }

  /** Before it, the reward is the genesis one, halved after every interval of that schedule, down to its floor. */
  lemma {:induction false} GenesisRewardHalves(n: nat, g: Genesis)
    requires n < 80_000
    ensures g.halvingInterval == 0 ==> BlockRewardAt(n, g) == g.blockReward
    ensures n < g.halvingInterval ==> BlockRewardAt(n, g) == Max(g.blockReward, g.rewardFloor)
    ensures 0 < g.halvingInterval && n + g.halvingInterval < 80_000 && n < 64 * g.halvingInterval ==>
              BlockRewardAt(n + g.halvingInterval, g) == Max(BlockRewardAt(n, g) / 2, g.rewardFloor)
    ensures 0 < g.halvingInterval && n >= 64 * g.halvingInterval ==>
              BlockRewardAt(n, g) == Max(g.blockReward / Pow2(64), g.rewardFloor)
  {
    assert Pow2(0) == 1;
    if 0 < g.halvingInterval && n >= 64 * g.halvingInterval { QuotientAtLeast(n, g.halvingInterval, 64); }
    if 0 < g.halvingInterval && n < 64 * g.halvingInterval {
      var era := n / g.halvingInterval;
      EraBefore(n, g.halvingInterval, 64);
      NextEra(n, g.halvingInterval);
      HalfOfQuotient(g.blockReward, Pow2(era));
      assert Pow2(era + 1) == 2 * Pow2(era);
    }
  }

  lemma EraBefore(n: nat, d: nat, k: nat)
    requires d > 0 && n < k * d
    ensures n / d < k && (n < d ==> n / d == 0)
  {
    var q := n / d;
    assert d * q <= n;
    assert q >= k ==> d * q >= d * k;
    assert q >= 1 ==> d * q >= d;
  }

  lemma NextEra(n: nat, d: nat)
    requires d > 0
    ensures (n + d) / d == n / d + 1
  {
    var q := n / d;
    assert d * q <= n < d * q + d;
    assert d * (q + 1) == d * q + d && d * (q + 1 + 1) == d * q + d + d;
    QuotientIs(n + d, d, q + 1);
  }

  lemma HalfOfQuotient(x: nat, d: nat)
    requires d > 0
    ensures x / (2 * d) == x / d / 2
  {
    var k := x / d;
    var q := k / 2;
    assert d * k <= x < d * k + d;
    Multiples(d, q, k);
    QuotientIs(x, 2 * d, q);
  }

  lemma Multiples(d: nat, q: nat, k: nat)
    requires 2 * q <= k <= 2 * q + 1
    ensures 2 * d * q <= d * k && d * k + d <= 2 * d * (q + 1)
  {
    assert 2 * d * q == d * (2 * q) && 2 * d * (q + 1) == d * (2 * q) + 2 * d;
    if k == 2 * q + 1 { assert d * k == d * (2 * q) + d; }
  }

  lemma QuotientIs(y: nat, d: nat, q: nat)
    requires d > 0 && d * q <= y < d * (q + 1)
    ensures y / d == q
  {
    QuotientAtLeast(y, d, q);
    var k := y / d;
    assert d * k <= y;
    assert k >= q + 1 ==> d * k >= d * (q + 1);
  }

  /** A quotient is the largest of its kind. */
  lemma QuotientAtLeast(y: nat, d: nat, q: nat)
    requires d > 0 && d * q <= y
    ensures q <= y / d
  {
    var k := q - y / d;
    assert d * k == d * q - d * (y / d) <= y % d < d;
    assert k >= 1 ==> d * k >= d;
  }

  lemma DivMonotone(x: nat, y: nat, d: nat)
    requires x <= y && d > 0
    ensures x / d <= y / d
  {
    QuotientAtLeast(y, d, x / d);
  }

  lemma DivAntitone(x: nat, d: nat, e: nat)
    requires 0 < d <= e
    ensures x / e <= x / d
  {
    var q := x / e;
    assert (e - d) * q >= 0;
    assert d * q <= e * q <= x;
    QuotientAtLeast(x, d, q);
  }

  // ------------------------------------------------------------- running transactions

  function TxHashes(c: Crypto, txs: seq<Tx>): (hs: seq<Hash>)
    ensures |hs| == |txs| && forall i :: 0 <= i < |hs| ==> hs[i] == c.txHash(txs[i])
  {
    seq(|txs|, i requires 0 <= i < |txs| => c.txHash(txs[i]))
  }

  function TxRoot(c: Crypto, txs: seq<Tx>): Hash {
    if txs == [] then 0 else Merkle.Root(c.pair, TxHashes(c, txs))
  }

  /** What has been run so far. */
  datatype Progress = Progress(state: Ledger, receipts: seq<TxReceipt>, used: nat)

  function RunOne(env: Env, p: Progress, tx: Tx, miner: Address, height: nat, limit: nat): Option<Progress> {
    var gas := IntrinsicGas(tx);
    if p.used + gas > limit then None
    else
      match Apply(env, p.state, tx, miner, height)
      case None => None
      case Some(state) => Some(Progress(state, p.receipts + [TxReceipt(gas, 1)], p.used + gas))
  }

  /** Verification: every transaction must run, in order. */
  function Replayed(env: Env, v: Ledger, txs: seq<Tx>, miner: Address, height: nat, limit: nat): Option<Progress> {
    if txs == [] then Some(Progress(v, [], 0))
    else
      match Replayed(env, v, txs[..|txs| - 1], miner, height, limit)
      case None => None
      case Some(p) => RunOne(env, p, txs[|txs| - 1], miner, height, limit)
  }

  /** Composition: whatever does not run where it stands is passed over. */
  function Selected(env: Env, v: Ledger, candidates: seq<Tx>, miner: Address, height: nat, limit: nat)
      : (seq<Tx>, Progress) {
    if candidates == [] then ([], Progress(v, [], 0))
    else
      var (included, p) := Selected(env, v, candidates[..|candidates| - 1], miner, height, limit);
      var tx := candidates[|candidates| - 1];
      match RunOne(env, p, tx, miner, height, limit)
      case None => (included, p)
      case Some(p') => (included + [tx], p')
  }

  /** What was selected replays, to the same state, receipts and gas: the refused left no trace. */
  lemma {:induction false} SelectionReplays(env: Env, v: Ledger, candidates: seq<Tx>, miner: Address, height: nat,
                                            limit: nat)
    ensures var (included, p) := Selected(env, v, candidates, miner, height, limit);
            && Replayed(env, v, included, miner, height, limit) == Some(p)
            && p.used <= limit && 21_000 * |included| <= p.used && |p.receipts| == |included|
  {
    hide Apply;
    if candidates != [] {
      SelectionReplays(env, v, candidates[..|candidates| - 1], miner, height, limit);
      var (included, p) := Selected(env, v, candidates[..|candidates| - 1], miner, height, limit);
      assert (included + [candidates[|candidates| - 1]])[..|included|] == included;
    }
  }

  // ------------------------------------------------------------- composing and verifying

  function Rewarded(v: Ledger, miner: Address, amount: nat): Ledger {
    v.(accounts := A.Credit(v.accounts, miner, amount))
  }

  /** The unsealed candidate and the state it leads to. */
  function Composed(c: Crypto, g: Genesis, parent: Entry<Ledger>, candidates: seq<Tx>, miner: Address, wallClock: nat)
    : (Header, seq<Tx>, Progress)
  {
    var number := parent.Number() + 1;
    var timestamp := Max(wallClock, parent.block.header.timestamp + 1);
    var (included, p) := Selected(c.env, parent.state, candidates, miner, number, g.blockGasLimit);
    var state := Rewarded(p.state, miner, BlockRewardAt(number, g));
    (Header(number, parent.Hash(), timestamp, miner, c.stateRoot(state, number), TxRoot(c, included),
            NextDifficulty(parent.block.header, timestamp, g), g.blockGasLimit, p.used, [], 0),
     included, p.(state := state))
  }

  /** What the header alone must satisfy, the clock aside. */
  predicate HeaderStands(c: Crypto, g: Genesis, parent: Entry<Ledger>, b: Block) {
    var h := b.header;
    && h.number == parent.Number() + 1
    && |h.extraData| <= MAX_EXTRA_DATA_BYTES && h.nonce < TWO_64
    && h.timestamp > parent.block.header.timestamp
    && |b.txs| <= MAX_TRANSACTIONS_PER_BLOCK
    && h.gasUsed <= h.gasLimit
    && h.difficulty == NextDifficulty(parent.block.header, h.timestamp, g)
    && h.gasLimit == g.blockGasLimit
    && c.blockHash(h) == b.hash
    && ValidSeal(c, h)
    && TxRoot(c, b.txs) == h.txRoot
  }

  /** verifyAgainstParent without its clock check: the post-state and receipts, or a refusal. */
  function Step(c: Crypto, g: Genesis, parent: Entry<Ledger>, b: Block): Option<(Ledger, seq<TxReceipt>)> {
    if !HeaderStands(c, g, parent, b) then None
    else
      match Replayed(c.env, parent.state, b.txs, b.header.miner, b.header.number, b.header.gasLimit)
      case None => None
      case Some(p) =>
        var state := Rewarded(p.state, b.header.miner, BlockRewardAt(b.header.number, g));
        if p.used != b.header.gasUsed || c.stateRoot(state, b.header.number) != b.header.stateRoot then None
        else Some((state, p.receipts))
  }

  /** A draft sealed with a nonce. */
  function Sealed(c: Crypto, draft: Header, txs: seq<Tx>, nonce: nat): Block {
    var h := draft.(nonce := nonce);
    Block(h, c.blockHash(h), txs)
  }

  /**
   * A node accepts its own blocks: whatever the candidates, a sealed composition verifies on the same parent,
   * to the very state it was composed to, if and only if its nonce fits 64 bits and it is not overfull.
   */
  lemma {:induction false} OwnBlocksVerify(
    c: Crypto, g: Genesis, parent: Entry<Ledger>, candidates: seq<Tx>, miner: Address, wallClock: nat, nonce: nat)
    requires ValidSeal(c, Composed(c, g, parent, candidates, miner, wallClock).0.(nonce := nonce))
    ensures var (draft, included, p) := Composed(c, g, parent, candidates, miner, wallClock);
            Step(c, g, parent, Sealed(c, draft, included, nonce)) ==
            if nonce < TWO_64 && |included| <= MAX_TRANSACTIONS_PER_BLOCK then Some((p.state, p.receipts)) else None
  {
    hide Apply, Selected, Replayed, NextDifficulty, BlockRewardAt, TxRoot, ValidSeal;
    SelectionReplays(c.env, parent.state, candidates, miner, parent.Number() + 1, g.blockGasLimit);
  }

  /** A gas limit under 2001 transfers makes the transaction count no condition at all. */
  lemma {:induction false} GasBoundsTheCount(
    c: Crypto, g: Genesis, parent: Entry<Ledger>, candidates: seq<Tx>, miner: Address, wallClock: nat)
    requires g.blockGasLimit < 21_000 * (MAX_TRANSACTIONS_PER_BLOCK + 1)
    ensures |Composed(c, g, parent, candidates, miner, wallClock).1| <= MAX_TRANSACTIONS_PER_BLOCK
  {
    hide Apply, Selected, Replayed, NextDifficulty, BlockRewardAt, TxRoot;
    SelectionReplays(c.env, parent.state, candidates, miner, parent.Number() + 1, g.blockGasLimit);
  }

  // ------------------------------------------------------------- the loops

  /**
   * Grind nonces in a bounded slice (src/block.js:104-127): the first nonce that seals, or none in the slice.
   * Nothing here keeps the nonce within 64 bits; a start near the limit can seal a block no node accepts.
   */
  method MineHeader(c: Crypto, draft: Header, start: nat, maxRounds: nat)
    returns (sealed: Option<Header>, nextNonce: nat)
    requires draft.difficulty > 0 && maxRounds > 0
    ensures sealed.Some? ==>
              && sealed.value == draft.(nonce := nextNonce) && ValidSeal(c, sealed.value)
              && start <= nextNonce < start + maxRounds
              && forall n :: start <= n < nextNonce ==> !ValidSeal(c, draft.(nonce := n))
    ensures sealed.None? ==>
              nextNonce == start + maxRounds
              && forall n :: start <= n < start + maxRounds ==> !ValidSeal(c, draft.(nonce := n))
  {
    var digest := c.sealDigest(Unsealed(draft));
    var target := TWO_256 / draft.difficulty;
    var nonce, rounds := start, 0;
    while true
      invariant rounds < maxRounds && nonce == start + rounds
      invariant forall n :: start <= n < nonce ==> !ValidSeal(c, draft.(nonce := n))
      decreases maxRounds - rounds
    {
      assert Unsealed(draft.(nonce := nonce)) == Unsealed(draft);
      var hash := c.sealHash(digest, nonce);
      if hash < target { return Some(draft.(nonce := nonce)), nonce; }
      nonce := nonce + 1;
      rounds := rounds + 1;
      if rounds >= maxRounds { return None, nonce; }
    }
  }

  /** What a parent offers: its entry, and the live state object the entry's post-state stands for. */
  predicate Backs(state: S.State, parent: Entry<Ledger>)
    reads state, state.inbound, state.outbound
  {
    state.Contents() == parent.state
  }

  /** composeBlock: candidates are tried one by one on a copy; the parent's state is not touched. */
  method ComposeBlock(c: Crypto, g: Genesis, parent: Entry<Ledger>, parentState: S.State, candidates: seq<Tx>,
                      miner: Address, wallClock: nat)
    returns (draft: Header, included: seq<Tx>, state: S.State)
    requires c.env.Sums() && Backs(parentState, parent)
    ensures fresh(state) && fresh(state.inbound) && fresh(state.outbound) && Backs(parentState, parent)
    ensures var (h, txs, p) := Composed(c, g, parent, candidates, miner, wallClock);
            draft == h && included == txs && state.Contents() == p.state
  {
    hide Apply, NextDifficulty, BlockRewardAt, TxRoot;
    var timestamp := if wallClock > parent.block.header.timestamp then wallClock else parent.block.header.timestamp + 1;
    var number := parent.Number() + 1;
    state := parentState.Clone();
    included := [];
    var gasUsed := 0;
    ghost var done := Progress(parent.state, [], 0);
    for i := 0 to |candidates|
      invariant fresh(state) && fresh(state.inbound) && fresh(state.outbound)
      invariant (included, done) == Selected(c.env, parent.state, candidates[..i], miner, number, g.blockGasLimit)
      invariant state.Contents() == done.state && gasUsed == done.used
    {
      assert candidates[..i + 1][..i] == candidates[..i];
      var tx := candidates[i];
      var gas := IntrinsicGas(tx);
      if gasUsed + gas <= g.blockGasLimit {
        var ok := state.ApplyTransaction(c.env, tx, miner, number);
        if ok {
          included, gasUsed := included + [tx], gasUsed + gas;
          done := Progress(state.Contents(), done.receipts + [TxReceipt(gas, 1)], gasUsed);
        }
      }
    }
    assert candidates[..|candidates|] == candidates;
    state.Credit(miner, BlockRewardAt(number, g));
    var stateRoot := c.stateRoot(state.Contents(), number);
    var txRoot := Merkle.MerkleRoot(c.pair, TxHashes(c, included), 0);
    var difficulty := NextDifficulty(parent.block.header, timestamp, g);
    draft := Header(number, parent.Hash(), timestamp, miner, stateRoot, txRoot, difficulty, g.blockGasLimit, gasUsed,
      [], 0);
    TxRootIs(c, included);
  }

  lemma TxRootIs(c: Crypto, txs: seq<Tx>)
    ensures TxRoot(c, txs) == if TxHashes(c, txs) == [] then 0 else Merkle.Root(c.pair, TxHashes(c, txs))
  {
  }

  /** Everything verifyAgainstParent asks of the header before it runs anything (src/chain.js:450-490). */
  method CheckHeader(c: Crypto, g: Genesis, parent: Entry<Ledger>, b: Block, now: nat) returns (ok: bool)
    ensures ok <==> b.header.timestamp <= now + MAX_FUTURE_DRIFT && HeaderStands(c, g, parent, b)
  {
    hide NextDifficulty, TxRoot, ValidSeal;
    var header := b.header;
    if header.number != parent.Number() + 1 { return false; }
    if |header.extraData| > MAX_EXTRA_DATA_BYTES || header.nonce >= TWO_64 { return false; }
    if header.timestamp <= parent.block.header.timestamp { return false; }
    if header.timestamp > now + MAX_FUTURE_DRIFT { return false; }
    if |b.txs| > MAX_TRANSACTIONS_PER_BLOCK || header.gasUsed > header.gasLimit { return false; }
    if header.difficulty != NextDifficulty(parent.block.header, header.timestamp, g) { return false; }
    if header.gasLimit != g.blockGasLimit || c.blockHash(header) != b.hash || !ValidSeal(c, header) { return false; }
    var txRoot := Merkle.MerkleRoot(c.pair, TxHashes(c, b.txs), 0);
    TxRootIs(c, b.txs);
    return txRoot == header.txRoot;
  }

  /** Run a block's transactions on a copy of the parent's state, stopping at the first that does not run. */
  method Replay(env: Env, parentState: S.State, b: Block)
    returns (ok: bool, state: S.State, receipts: seq<TxReceipt>, gasUsed: nat)
    requires env.Sums()
    ensures fresh(state) && fresh(state.inbound) && fresh(state.outbound)
    ensures Replayed(env, parentState.Contents(), b.txs, b.header.miner, b.header.number, b.header.gasLimit) ==
            if ok then Some(Progress(state.Contents(), receipts, gasUsed)) else None
  {
    hide Apply;
    var header := b.header;
    state := parentState.Clone();
    receipts, gasUsed := [], 0;
    ghost var v := parentState.Contents();
    for i := 0 to |b.txs|
      invariant fresh(state) && fresh(state.inbound) && fresh(state.outbound)
      invariant Replayed(env, v, b.txs[..i], header.miner, header.number, header.gasLimit) ==
                Some(Progress(state.Contents(), receipts, gasUsed))
    {
      assert b.txs[..i + 1][..i] == b.txs[..i];
      var tx := b.txs[i];
      var gas := IntrinsicGas(tx);
      ok := gasUsed + gas <= header.gasLimit;
      if ok { ok := state.ApplyTransaction(env, tx, header.miner, header.number); }
      if !ok {
        ReplayStops(env, v, b.txs, i + 1, header.miner, header.number, header.gasLimit);
        return;
      }
      receipts, gasUsed := receipts + [TxReceipt(gas, 1)], gasUsed + gas;
    }
    assert b.txs[..|b.txs|] == b.txs;
    ok := true;
  }

  /** verifyAgainstParent: re-executed on a copy, the parent's state never touched, whether or not it is accepted. */
  method VerifyAgainstParent(c: Crypto, g: Genesis, parent: Entry<Ledger>, parentState: S.State, b: Block, now: nat)
    returns (verified: Option<(S.State, seq<TxReceipt>)>)
    requires c.env.Sums() && Backs(parentState, parent)
    ensures Backs(parentState, parent)
    ensures verified.Some? ==>
              fresh(verified.value.0) && fresh(verified.value.0.inbound) && fresh(verified.value.0.outbound)
    ensures verified.Some? <==> b.header.timestamp <= now + MAX_FUTURE_DRIFT && Step(c, g, parent, b).Some?
    ensures verified.Some? ==> Step(c, g, parent, b) == Some((verified.value.0.Contents(), verified.value.1))
  {
    hide HeaderStands, BlockRewardAt, Replayed;
    var stands := CheckHeader(c, g, parent, b, now);
    if !stands { return None; }
    var ran, state, receipts, gasUsed := Replay(c.env, parentState, b);
    if !ran { return None; }
    state.Credit(b.header.miner, BlockRewardAt(b.header.number, g));
    if gasUsed != b.header.gasUsed { return None; }
    if c.stateRoot(state.Contents(), b.header.number) != b.header.stateRoot { return None; }
    return Some((state, receipts));
  }

  /** A replay that has stopped stays stopped. */
  lemma {:induction false} ReplayStops(env: Env, v: Ledger, txs: seq<Tx>, i: nat, miner: Address, height: nat,
                                       limit: nat)
    requires i <= |txs| && Replayed(env, v, txs[..i], miner, height, limit).None?
    ensures Replayed(env, v, txs, miner, height, limit).None?
    decreases |txs| - i
  {
    hide Apply;
    if i == |txs| {
      assert txs[..i] == txs;
    } else {
      assert txs[..i + 1][..i] == txs[..i];
      ReplayStops(env, v, txs, i + 1, miner, height, limit);
    }
  }
}
