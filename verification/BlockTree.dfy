/**
 * The tree of verified blocks and its canonical path, as values (src/chain.js:447-717).
 *
 * Everything here is stated over an abstract deterministic transition (`Rules.step`): what a block does to
 * its own parent. The native transition is one instance; see NativeRules.
 */
module BlockTree {
  import opened Common
  import opened Types
  import opened TxIndex

  /** A verified block with the post-state it was verified to produce. */
  datatype Entry<S> = Entry(block: Block, state: S, receipts: seq<TxReceipt>, td: nat)
  {
    function Number(): nat { block.header.number }
    function Hash(): Hash { block.hash }
    function Parent(): Hash { block.header.parentHash }
  }

  datatype Receipt = Receipt(blockHash: Hash, blockNumber: nat, index: nat, tx: Tx, outcome: TxReceipt)

  datatype Rules<!S> = Rules(
    step: (Entry<S>, Block) -> Option<(S, seq<TxReceipt>)>,
    spent: (S, Tx) -> bool,
    txHash: Tx -> Hash,
    genesis: Entry<S>,
    maxReorgDepth: nat,
    maxOrphans: nat)
  {
    /** The entry a block yields on a given parent, or nothing when it does not verify there. */
    function Verify(parent: Entry<S>, b: Block): Option<Entry<S>> {
      match step(parent, b)
      case None => None
      case Some(r) => Some(Entry(b, r.0, r.1, parent.td + b.header.difficulty))
    }
  }

  /** What the tree needs of a transition: a height, real work, one receipt per transaction, one block per hash. */
  ghost predicate StepShape<S(!new)>(r: Rules<S>) {
    && r.genesis.block.header.number == 0
    && r.genesis.block.txs == []
    && r.genesis.receipts == []
    && (forall p, b :: r.step(p, b).Some? ==>
          && b.header.number == p.block.header.number + 1
          && b.header.difficulty > 0
          && |r.step(p, b).value.1| == |b.txs|
          && b.hash != r.genesis.block.hash)
    && (forall p, b, p', b' ::
          r.step(p, b).Some? && r.step(p', b').Some? && b.hash == b'.hash ==> b == b')
  }

  /** The nonce rule: an applied transaction is spent for ever, and a spent one never applies. */
  ghost predicate SpendOnce<S(!new)>(r: Rules<S>) {
    && (forall t, t' :: r.txHash(t) == r.txHash(t') ==> t == t')
    && (forall p, b, t :: r.step(p, b).Some? && t in b.txs ==>
          !r.spent(p.state, t) && r.spent(r.step(p, b).value.0, t))
    && (forall p, b, t :: r.step(p, b).Some? && r.spent(p.state, t) ==> r.spent(r.step(p, b).value.0, t))
    && (forall p, b, i, j :: r.step(p, b).Some? && 0 <= i < j < |b.txs| ==> b.txs[i] != b.txs[j])
  }

  ghost predicate Lawful<S(!new)>(r: Rules<S>) { StepShape(r) && SpendOnce(r) }

  datatype Tree<S> = Tree(
    blocks: map<Hash, Entry<S>>,
    canonical: seq<Entry<S>>,
    orphans: map<Hash, seq<Block>>,
    mempool: map<Hash, Tx>,
    txIndex: Index,
    receipts: map<Hash, Receipt>,
    state: S,
    refusedReorg: bool)
  {
    function Head(): Entry<S>
      requires canonical != []
    {
      canonical[|canonical| - 1]
    }

    predicate IsCanonical(h: Hash) {
      h in blocks && blocks[h].Number() < |canonical| && canonical[blocks[h].Number()].Hash() == h
    }
  }

  function Hashes<S>(path: seq<Entry<S>>): (hs: seq<Hash>)
    ensures |hs| == |path| && forall i :: 0 <= i < |path| ==> hs[i] == path[i].Hash()
  {
    seq(|path|, i requires 0 <= i < |path| => path[i].Hash())
  }

  // ------------------------------------------------------------- paths

  /** A run of blocks each verified on the one before it. */
  ghost predicate Linked<S>(r: Rules<S>, path: seq<Entry<S>>) {
    forall i :: 0 < i < |path| ==> Follows(r, path, i)
  }

  ghost predicate Follows<S>(r: Rules<S>, path: seq<Entry<S>>, i: nat)
    requires 0 < i < |path|
  {
    && path[i].Parent() == path[i - 1].Hash()
    && r.Verify(path[i - 1], path[i].block) == Some(path[i])
  }

  ghost predicate FromGenesis<S>(r: Rules<S>, path: seq<Entry<S>>) {
    path != [] && path[0] == r.genesis && Linked(r, path)
  }

  /** Every known block is genesis or stands, verified, on a known parent. */
  ghost predicate Connected<S(!new)>(r: Rules<S>, blocks: map<Hash, Entry<S>>) {
    && r.genesis.Hash() in blocks
    && forall h {:trigger Rooted(r, blocks, h)} :: h in blocks ==> Rooted(r, blocks, h)
  }

  ghost predicate Rooted<S>(r: Rules<S>, blocks: map<Hash, Entry<S>>, h: Hash)
    requires h in blocks
  {
    && blocks[h].Hash() == h
    && (if h == r.genesis.Hash() then blocks[h] == r.genesis else Stacked(r, blocks, h))
  }

  ghost predicate Stacked<S>(r: Rules<S>, blocks: map<Hash, Entry<S>>, h: Hash)
    requires h in blocks
  {
    blocks[h].Parent() in blocks && r.Verify(blocks[blocks[h].Parent()], blocks[h].block) == Some(blocks[h])
  }

  /** Height equals index along any path from genesis, and work strictly grows. */
  lemma {:induction false} PathHeights<S(!new)>(r: Rules<S>, path: seq<Entry<S>>, i: nat)
    requires StepShape(r) && FromGenesis(r, path) && i < |path|
    ensures path[i].Number() == i
    ensures i > 0 ==> path[i - 1].td < path[i].td
  {
    if i > 0 {
      PathHeights(r, path, i - 1);
      assert Follows(r, path, i);
    }
  }

  // ------------------------------------------------------------- transactions of a path

  function HashList<S>(r: Rules<S>, e: Entry<S>): (hs: seq<Hash>)
    ensures |hs| == |e.block.txs| && forall i :: 0 <= i < |hs| ==> hs[i] == r.txHash(e.block.txs[i])
  {
    seq(|e.block.txs|, i requires 0 <= i < |e.block.txs| => r.txHash(e.block.txs[i]))
  }

  /** The transaction hashes of a path, height by height. */
  function HashLists<S>(r: Rules<S>, path: seq<Entry<S>>): (L: TxLists)
    ensures |L| == |path| && forall n :: 0 <= n < |L| ==> L[n] == HashList(r, path[n])
  {
    seq(|path|, n requires 0 <= n < |path| => HashList(r, path[n]))
  }

  predicate Stands<S>(path: seq<Entry<S>>, p: Place) {
    p.number < |path| && p.index < |path[p.number].block.txs|
  }

  function TxAt<S>(path: seq<Entry<S>>, p: Place): Tx
    requires Stands(path, p)
  {
    path[p.number].block.txs[p.index]
  }

  /** All transactions standing at or below `end` are spent in the state after `end`. */
  lemma {:induction false} PathSpends<S(!new)>(r: Rules<S>, path: seq<Entry<S>>, p: Place, end: nat)
    requires Lawful(r) && FromGenesis(r, path) && Stands(path, p) && p.number <= end < |path|
    ensures r.spent(path[end].state, TxAt(path, p))
    decreases end
  {
    if end > 0 {
      assert Follows(r, path, end);
      if p.number < end {
        PathSpends(r, path, p, end - 1);
      } else {
        assert TxAt(path, p) in path[end].block.txs;
      }
    }
  }

  lemma IndexStands<S>(r: Rules<S>, path: seq<Entry<S>>, m: Index)
    requires IndexOf(HashLists(r, path), m)
    ensures forall k <- m :: Stands(path, m[k]) && r.txHash(TxAt(path, m[k])) == k
  {
    var L := HashLists(r, path);
    forall k <- m
      ensures Stands(path, m[k]) && r.txHash(TxAt(path, m[k])) == k
    {
      assert At(L, m[k]) && HashAt(L, m[k]) == k;
    }
  }

  /** A transaction standing twice stands in one place. */
  lemma StandsOnce<S(!new)>(r: Rules<S>, path: seq<Entry<S>>, p: Place, q: Place)
    requires Lawful(r) && FromGenesis(r, path) && Stands(path, p) && Stands(path, q) && p.number <= q.number
    requires TxAt(path, p) == TxAt(path, q)
    ensures p == q
  {
    assert Follows(r, path, q.number) && TxAt(path, q) in path[q.number].block.txs;
    if p.number < q.number {
      PathSpends(r, path, p, q.number - 1);
    }
  }

  /** No transaction stands twice on one path: the nonce rule, over whole histories. */
  lemma PathDistinct<S(!new)>(r: Rules<S>, path: seq<Entry<S>>)
    requires Lawful(r) && FromGenesis(r, path)
    ensures Distinct(HashLists(r, path))
  {
    var L := HashLists(r, path);
    forall p, q | At(L, p) && At(L, q) && HashAt(L, p) == HashAt(L, q)
      ensures p == q
    {
      assert r.txHash(TxAt(path, p)) == r.txHash(TxAt(path, q));
      if p.number <= q.number { StandsOnce(r, path, p, q); } else { StandsOnce(r, path, q, p); }
    }
  }

  /** The receipt a chain keeps for the transaction at a place. */
  function ReceiptAt<S>(path: seq<Entry<S>>, p: Place): Receipt
    requires Stands(path, p) && p.index < |path[p.number].receipts|
  {
    var e := path[p.number];
    Receipt(e.Hash(), e.Number(), p.index, e.block.txs[p.index], e.receipts[p.index])
  }

  ghost predicate HasReceipts<S>(path: seq<Entry<S>>) {
    forall n :: 0 <= n < |path| ==> |path[n].block.txs| == |path[n].receipts|
  }

  /** The receipts of the places an index points to. */
  function ReceiptsFor<S>(path: seq<Entry<S>>, index: Index): map<Hash, Receipt> {
    map k | k in index && Stands(path, index[k]) && index[k].index < |path[index[k].number].receipts| ::
      ReceiptAt(path, index[k])
  }

  // ------------------------------------------------------------- fork choice

  /** Below any known block but genesis stands its known parent, one lower. */
  lemma ParentKnown<S(!new)>(r: Rules<S>, blocks: map<Hash, Entry<S>>, h: Hash)
    requires StepShape(r) && Connected(r, blocks) && h in blocks
    ensures blocks[h].Hash() == h
    ensures h == r.genesis.Hash() ==> blocks[h] == r.genesis
    ensures h != r.genesis.Hash() ==>
              && Stacked(r, blocks, h)
              && blocks[blocks[h].Parent()].Hash() == blocks[h].Parent()
              && blocks[h].Number() == blocks[blocks[h].Parent()].Number() + 1
              && blocks[h].block.header.difficulty > 0
              && |blocks[h].block.txs| == |blocks[h].receipts|
  {
    assert Rooted(r, blocks, h);
    if h != r.genesis.Hash() {
      assert Rooted(r, blocks, blocks[h].Parent());
    }
  }

  /** The non-canonical blocks from the canonical chain up to `e` (src/chain.js:632-641). */
  function Branch<S>(t: Tree<S>, e: Entry<S>): seq<Entry<S>>
    decreases e.Number()
  {
    if t.IsCanonical(e.Hash()) then []
    else if e.Parent() in t.blocks && t.blocks[e.Parent()].Number() < e.Number() then
      Branch(t, t.blocks[e.Parent()]) + [e]
    else [e]
  }

  /** The canonical height a branch forks from. */
  function Fork<S>(t: Tree<S>, e: Entry<S>): int { e.Number() - |Branch(t, e)| }

  /** The path `e` would make canonical. */
  function PathTo<S>(t: Tree<S>, e: Entry<S>): seq<Entry<S>> {
    Prefix(t.canonical, Fork(t, e) + 1) + Branch(t, e)
  }

  /** The index after unwinding the canonical chain down to `fork` and applying `path` above it. */
  function NewIndex<S>(r: Rules<S>, t: Tree<S>, path: seq<Entry<S>>, fork: int): Index {
    var kept := t.txIndex - AllHashes(Suffix(HashLists(r, t.canonical), fork + 1));
    if 0 <= fork < |path| then IndexBlocks(kept, HashLists(r, path), fork + 1, |path|) else kept
  }

  /** What the applied branch leaves pending, and what the abandoned one returns, unless the new index holds it. */
  function NewMempool<S>(r: Rules<S>, t: Tree<S>, path: seq<Entry<S>>, fork: int, index: Index): map<Hash, Tx> {
    var reverted := AllHashes(Suffix(HashLists(r, t.canonical), fork + 1));
    var kept := t.mempool - AllHashes(Suffix(HashLists(r, path), fork + 1));
    kept + map k | k in reverted && k !in index && k in t.txIndex && Stands(t.canonical, t.txIndex[k]) ::
      TxAt(t.canonical, t.txIndex[k])
  }

  /** Move the head onto `path`, which leaves the canonical chain at `fork` (src/chain.js:647-717). */
  function SetHead<S>(r: Rules<S>, t: Tree<S>, path: seq<Entry<S>>, fork: int): Tree<S> {
    var index := NewIndex(r, t, path, fork);
    t.(canonical := path,
       txIndex := index,
       receipts := ReceiptsFor(path, index),
       mempool := NewMempool(r, t, path, fork, index),
       state := if path == [] then t.state else path[|path| - 1].state)
  }

  // ------------------------------------------------------------- the invariant

  ghost predicate KnownIn<S>(blocks: map<Hash, Entry<S>>, e: Entry<S>) {
    e.Hash() in blocks && blocks[e.Hash()] == e
  }

  ghost predicate AllKnown<S>(blocks: map<Hash, Entry<S>>, path: seq<Entry<S>>) {
    forall i {:trigger KnownIn(blocks, path[i])} :: 0 <= i < |path| ==> KnownIn(blocks, path[i])
  }

  /** Index, receipts and mempool tell the same story as a path. */
  ghost predicate BooksAgree<S(!new)>(
    r: Rules<S>, path: seq<Entry<S>>, index: Index, receipts: map<Hash, Receipt>, mempool: map<Hash, Tx>)
  {
    && IndexOf(HashLists(r, path), index)
    && HasReceipts(path)
    && (forall k <- index :: Stands(path, index[k]))
    && receipts == ReceiptsFor(path, index)
    && mempool.Keys !! index.Keys
    && (forall k <- mempool :: r.txHash(mempool[k]) == k)
  }

  /** All that holds of a tree, whether or not a reorg was ever refused. */
  ghost predicate Core<S(!new)>(r: Rules<S>, t: Tree<S>) {
    && Connected(r, t.blocks)
    && FromGenesis(r, t.canonical)
    && AllKnown(t.blocks, t.canonical)
    && t.state == t.Head().state
    && BooksAgree(r, t.canonical, t.txIndex, t.receipts, t.mempool)
  }

  ghost predicate Inv<S(!new)>(r: Rules<S>, t: Tree<S>) {
    && Core(r, t)
    && (!t.refusedReorg ==> forall h <- t.blocks :: t.blocks[h].td <= t.Head().td)
  }
}
