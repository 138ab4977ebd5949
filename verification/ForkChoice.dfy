/** What one verified block does to the tree: insertion, fork choice, head movement (src/chain.js:554-607). */
module ForkChoice {
  import opened Common
  import opened Types
  import opened TxIndex
  import opened BlockTree

  /** May this entry be landed: its parent is known and it verifies there. */
  ghost predicate Lands<S(!new)>(r: Rules<S>, t: Tree<S>, e: Entry<S>) {
    e.Parent() in t.blocks && r.Verify(t.blocks[e.Parent()], e.block) == Some(e)
  }

  function Insert<S>(t: Tree<S>, e: Entry<S>): Tree<S> { t.(blocks := t.blocks[e.Hash() := e]) }

  /** The two refusals no amount of work overrides (src/chain.js:571-602). */
  predicate Refuses<S>(r: Rules<S>, t: Tree<S>, fork: int, floor: int) {
    fork < floor || |t.canonical| - 1 - fork > r.maxReorgDepth
  }

  /** Insert a verified entry and re-run fork choice against an anchored floor. */
  function Land<S>(r: Rules<S>, t: Tree<S>, e: Entry<S>, floor: int): Tree<S> {
    var t1 := Insert(t, e);
    if t.canonical != [] && e.td <= t.Head().td then t1
    else if Refuses(r, t, Fork(t1, e), floor) then t1.(refusedReorg := true)
    else SetHead(r, t1, PathTo(t1, e), Fork(t1, e))
  }

  /** A landing adds its block and leaves the pool alone. */
  lemma {:induction false} LandAddsOne<S(!new)>(r: Rules<S>, t: Tree<S>, e: Entry<S>, floor: int)
    ensures Land(r, t, e, floor).blocks == t.blocks[e.Hash() := e] && Land(r, t, e, floor).orphans == t.orphans
  {
    hide Refuses, Fork, PathTo, NewIndex, NewMempool, ReceiptsFor;
  }

  // ------------------------------------------------------------- paths

  lemma PathExtends<S(!new)>(r: Rules<S>, path: seq<Entry<S>>, e: Entry<S>)
    requires FromGenesis(r, path)
    requires var last := path[|path| - 1];
             e.Parent() == last.Hash() && r.Verify(last, e.block) == Some(e)
    ensures FromGenesis(r, path + [e])
  {
    var longer := path + [e];
    forall i | 0 < i < |longer|
      ensures Follows(r, longer, i)
    {
      if i < |path| {
        assert Follows(r, path, i);
      }
    }
  }

  lemma PathPrefix<S(!new)>(r: Rules<S>, path: seq<Entry<S>>, k: nat)
    requires FromGenesis(r, path) && 0 < k <= |path|
    ensures FromGenesis(r, path[..k])
  {
    forall i | 0 < i < k
      ensures Follows(r, path[..k], i)
    {
      assert Follows(r, path, i);
    }
  }

  lemma PathHasReceipts<S(!new)>(r: Rules<S>, path: seq<Entry<S>>)
    requires StepShape(r) && FromGenesis(r, path)
    ensures HasReceipts(path)
  {
    forall n | 0 <= n < |path|
      ensures |path[n].block.txs| == |path[n].receipts|
    {
      if n > 0 { assert Follows(r, path, n); }
    }
  }

  /** A hash already known can only be landed again as the very entry it has: the tree never rewrites a block. */
  lemma {:induction false} InsertKeepsCore<S(!new)>(r: Rules<S>, t: Tree<S>, e: Entry<S>)
    requires StepShape(r) && Core(r, t) && Lands(r, t, e)
    ensures e.Hash() in t.blocks ==> t.blocks[e.Hash()] == e
    ensures Core(r, Insert(t, e)) && KnownIn(Insert(t, e).blocks, e)
  {
    hide BooksAgree, FromGenesis;
    var blocks := Insert(t, e).blocks;
    if e.Hash() in t.blocks {
      SameHashSameEntry(r, t, e);
      assert blocks == t.blocks;
    } else {
      forall h | h in blocks
        ensures Rooted(r, blocks, h)
      {
        if h in t.blocks { assert Rooted(r, t.blocks, h); }
      }
      forall i | 0 <= i < |t.canonical|
        ensures KnownIn(blocks, t.canonical[i])
      {
        assert KnownIn(t.blocks, t.canonical[i]);
      }
    }
  }

  lemma SameHashSameEntry<S(!new)>(r: Rules<S>, t: Tree<S>, e: Entry<S>)
    requires StepShape(r) && Connected(r, t.blocks) && Lands(r, t, e) && e.Hash() in t.blocks
    ensures t.blocks[e.Hash()] == e
  {
    assert Rooted(r, t.blocks, e.Hash());
  }

  /** Walking back from a known block meets the canonical chain, and prefix plus branch is a path ending there. */
  lemma {:induction false} BranchShape<S(!new)>(r: Rules<S>, t: Tree<S>, e: Entry<S>)
    requires StepShape(r) && Connected(r, t.blocks) && FromGenesis(r, t.canonical)
    requires AllKnown(t.blocks, t.canonical) && KnownIn(t.blocks, e)
    ensures var path, fork := PathTo(t, e), Fork(t, e);
            && 0 <= fork < |t.canonical|
            && FromGenesis(r, path) && AllKnown(t.blocks, path)
            && |path| == e.Number() + 1 && path[e.Number()] == e
    decreases e.Number()
  {
    hide Linked;
    if t.IsCanonical(e.Hash()) {
      var c := t.canonical[e.Number()];
      assert KnownIn(t.blocks, c);
      PathPrefix(r, t.canonical, e.Number() + 1);
      assert PathTo(t, e) == t.canonical[..e.Number() + 1];
    } else {
      ParentKnown(r, t.blocks, e.Hash());
      assert KnownIn(t.blocks, t.canonical[0]);
      var p := t.blocks[e.Parent()];
      BranchShape(r, t, p);
      PathExtends(r, PathTo(t, p), e);
      assert PathTo(t, e) == PathTo(t, p) + [e];
    }
  }

  lemma {:induction false} PathToShape<S(!new)>(r: Rules<S>, t: Tree<S>, e: Entry<S>)
    requires StepShape(r) && Core(r, t) && KnownIn(t.blocks, e)
    ensures var path, fork := PathTo(t, e), Fork(t, e);
            && FromGenesis(r, path) && HasReceipts(path) && AllKnown(t.blocks, path)
            && path[|path| - 1] == e
            && 0 <= fork < |t.canonical| && fork < |path| && path[..fork + 1] == t.canonical[..fork + 1]
  {
    hide BooksAgree, Linked, Connected, AllKnown, StepShape, HasReceipts;
    BranchShape(r, t, e);
    PathHasReceipts(r, PathTo(t, e));
    hide Branch;
    SlicePrefix(t.canonical, Fork(t, e) + 1, Branch(t, e));
  }

  lemma SlicePrefix<T>(a: seq<T>, k: nat, b: seq<T>)
    requires k <= |a|
    ensures (a[..k] + b)[..k] == a[..k]
  {
  }

  // ------------------------------------------------------------- one landing keeps everything

  lemma HashListsPrefix<S>(r: Rules<S>, a: seq<Entry<S>>, b: seq<Entry<S>>, k: nat)
    requires k <= |a| && k <= |b| && a[..k] == b[..k]
    ensures HashLists(r, a)[..k] == HashLists(r, b)[..k]
  {
    forall n | 0 <= n < k
      ensures HashLists(r, a)[n] == HashLists(r, b)[n]
    {
      assert a[n] == a[..k][n] == b[..k][n] == b[n];
    }
  }

  lemma NewIndexCorrect<S(!new)>(r: Rules<S>, t: Tree<S>, path: seq<Entry<S>>, fork: nat)
    requires Lawful(r) && FromGenesis(r, t.canonical) && FromGenesis(r, path)
    requires fork < |t.canonical| && fork < |path| && path[..fork + 1] == t.canonical[..fork + 1]
    requires IndexOf(HashLists(r, t.canonical), t.txIndex)
    ensures IndexOf(HashLists(r, path), NewIndex(r, t, path, fork))
  {
    var L := HashLists(r, path);
    PathDistinct(r, t.canonical);
    PathDistinct(r, path);
    UnindexSuffix(HashLists(r, t.canonical), fork + 1, t.txIndex);
    HashListsPrefix(r, t.canonical, path, fork + 1);
    var kept := t.txIndex - AllHashes(HashLists(r, t.canonical)[fork + 1..]);
    PrefixIndex(L, fork + 1, kept);
    IndexBlocksCorrect(L, kept, fork + 1, |L|);
  }

  /** No transaction is lost to a reorg: it is on the new path, or pending again, and never both. */
  lemma {:induction false} MempoolFollows<S(!new)>(r: Rules<S>, t: Tree<S>, path: seq<Entry<S>>, fork: nat,
                                                   index: Index)
    requires BooksAgree(r, t.canonical, t.txIndex, t.receipts, t.mempool)
    requires fork < |t.canonical| && fork < |path| && path[..fork + 1] == t.canonical[..fork + 1]
    requires IndexOf(HashLists(r, path), index)
    ensures var m := NewMempool(r, t, path, fork, index);
            && m.Keys !! index.Keys
            && t.txIndex.Keys + t.mempool.Keys <= index.Keys + m.Keys
  {
    hide IndexUpTo, HashLists;
    SuffixIndexed(HashLists(r, path), fork + 1, index);
    var L, L' := HashLists(r, t.canonical), HashLists(r, path);
    HashListsPrefix(r, t.canonical, path, fork + 1);
    KeysAcross(L, t.txIndex, L', index, fork + 1);
    KeysAcross(L', index, L, t.txIndex, fork + 1);
  }

  lemma {:induction false} MempoolKeyed<S(!new)>(r: Rules<S>, t: Tree<S>, path: seq<Entry<S>>, fork: nat, index: Index)
    requires BooksAgree(r, t.canonical, t.txIndex, t.receipts, t.mempool)
    ensures var m := NewMempool(r, t, path, fork, index);
            forall k <- m :: r.txHash(m[k]) == k
  {
    IndexStands(r, t.canonical, t.txIndex);
    hide IndexUpTo, HashLists, AllHashes;
  }

  /** Unwinding and re-applying leaves index, receipts and mempool telling the new path's story, and loses nothing. */
  lemma {:induction false} SetHeadKeepsBooks<S(!new)>(r: Rules<S>, t: Tree<S>, path: seq<Entry<S>>, fork: nat)
    requires Lawful(r) && FromGenesis(r, t.canonical) && FromGenesis(r, path) && HasReceipts(path)
    requires BooksAgree(r, t.canonical, t.txIndex, t.receipts, t.mempool)
    requires fork < |t.canonical| && fork < |path| && path[..fork + 1] == t.canonical[..fork + 1]
    ensures var t' := SetHead(r, t, path, fork);
            && BooksAgree(r, path, t'.txIndex, t'.receipts, t'.mempool)
            && t.txIndex.Keys + t.mempool.Keys <= t'.txIndex.Keys + t'.mempool.Keys
  {
    hide NewIndex, NewMempool, IndexUpTo, HashLists, FromGenesis, StepShape, SpendOnce;
    NewIndexCorrect(r, t, path, fork);
    var index := NewIndex(r, t, path, fork);
    MempoolFollows(r, t, path, fork, index);
    MempoolKeyed(r, t, path, fork, index);
    IndexStands(r, path, index);
  }

  /** How one tree may follow another, however it got there. */
  ghost predicate Grows<S>(r: Rules<S>, t: Tree<S>, t': Tree<S>)
    requires t.canonical != [] && t'.canonical != []
  {
    // No known block, nor the post-state stored with it, is ever changed.
    && (forall h <- t.blocks :: h in t'.blocks && t'.blocks[h] == t.blocks[h])
    // The head only ever moves to strictly more work.
    && (t'.canonical == t.canonical || t.Head().td < t'.Head().td)
    // A refusal is never forgotten.
    && (t.refusedReorg ==> t'.refusedReorg)
    // Every transaction once canonical or pending still is.
    && (t.txIndex.Keys + t.mempool.Keys <= t'.txIndex.Keys + t'.mempool.Keys)
  }

  /** The canonical chain below `k` blocks is common to both. */
  ghost predicate SharePrefix<S>(t: Tree<S>, t': Tree<S>, k: int) {
    k <= |t.canonical| && k <= |t'.canonical| && (k >= 0 ==> t.canonical[..k] == t'.canonical[..k])
  }

  lemma {:induction false} SetHeadKeepsCore<S(!new)>(r: Rules<S>, t: Tree<S>, e: Entry<S>)
    requires Lawful(r) && Core(r, t) && KnownIn(t.blocks, e)
    ensures var t' := SetHead(r, t, PathTo(t, e), Fork(t, e));
            && Core(r, t') && t'.Head() == e
            && t.txIndex.Keys + t.mempool.Keys <= t'.txIndex.Keys + t'.mempool.Keys
  {
    hide BooksAgree, Connected, AllKnown, StepShape, NewIndex, HasReceipts, Linked, Branch;
    PathToShape(r, t, e);
    SetHeadKeepsBooks(r, t, PathTo(t, e), Fork(t, e));
  }

  /** One landing keeps everything a tree promises, and loses no transaction. */
  lemma {:induction false} LandKeepsCore<S(!new)>(r: Rules<S>, t: Tree<S>, e: Entry<S>, floor: int)
    requires Lawful(r) && Core(r, t) && Lands(r, t, e)
    ensures var t' := Land(r, t, e, floor);
            && Core(r, t')
            && (t.txIndex.Keys + t.mempool.Keys <= t'.txIndex.Keys + t'.mempool.Keys)
  {
    hide BooksAgree, Connected, AllKnown, StepShape, SpendOnce, SetHead, Linked;
    InsertKeepsCore(r, t, e);
    SetHeadKeepsCore(r, Insert(t, e), e);
  }

  /** Where the head may go in one landing: nowhere, or to strictly more work above both bounds. */
  lemma {:induction false} LandMovesUp<S(!new)>(r: Rules<S>, t: Tree<S>, e: Entry<S>, floor: int)
    requires Lawful(r) && Core(r, t) && Lands(r, t, e) && floor < |t.canonical|
    ensures var t' := Land(r, t, e, floor);
            && t'.blocks == t.blocks[e.Hash() := e] && t'.orphans == t.orphans
            && (t.refusedReorg ==> t'.refusedReorg)
            && t'.canonical != []
            && (if t'.canonical == t.canonical then e.td <= t.Head().td || t'.refusedReorg
                else t'.Head() == e && t.Head().td < e.td)
            && SharePrefix(t, t', Max(floor + 1, |t.canonical| - r.maxReorgDepth))
  {
    hide BooksAgree, Connected, AllKnown, StepShape, SpendOnce, NewIndex, NewMempool, ReceiptsFor, Linked, Branch;
    InsertKeepsCore(r, t, e);
    var t1 := Insert(t, e);
    PathToShape(r, t1, e);
    if e.td > t.Head().td && !Refuses(r, t, Fork(t1, e), floor) {
      SharedBelow(t.canonical, PathTo(t1, e), Fork(t1, e) + 1, Max(floor + 1, |t.canonical| - r.maxReorgDepth));
    }
  }

  lemma SharedBelow<T>(a: seq<T>, b: seq<T>, n: nat, k: int)
    requires k <= n <= |a| && n <= |b| && a[..n] == b[..n]
    ensures k >= 0 ==> a[..k] == b[..k]
  {
    if k >= 0 {
      assert a[..k] == a[..n][..k] && b[..k] == b[..n][..k];
    }
  }

  /** One landing keeps the invariant, rewrites no block, and reorganises no further than it may. */
  lemma {:induction false} LandKeepsInv<S(!new)>(r: Rules<S>, t: Tree<S>, e: Entry<S>, floor: int)
    requires Lawful(r) && Inv(r, t) && Lands(r, t, e) && floor < |t.canonical|
    ensures var t' := Land(r, t, e, floor);
            && Inv(r, t')
            && Grows(r, t, t')
            && t'.blocks == t.blocks[e.Hash() := e] && t'.orphans == t.orphans
            && SharePrefix(t, t', Max(floor + 1, |t.canonical| - r.maxReorgDepth))
  {
    hide StepShape, SpendOnce, Land, BooksAgree, Connected, AllKnown, Linked, SharePrefix;
    InsertKeepsCore(r, t, e);
    LandKeepsCore(r, t, e, floor);
    LandMovesUp(r, t, e, floor);
    hide Core, FromGenesis;
  }

  /** Every transaction on the chain has its receipt, and every receipt tells where its transaction stands. */
  lemma {:induction false} ReceiptsTell<S(!new)>(r: Rules<S>, t: Tree<S>, n: nat, i: nat)
    requires Lawful(r) && Core(r, t) && n < |t.canonical| && i < |t.canonical[n].block.txs|
    ensures var e := t.canonical[n];
            var k := r.txHash(e.block.txs[i]);
            && n < |t.canonical| && i < |e.receipts| && k in t.receipts
            && t.receipts[k].blockHash == e.block.hash && t.receipts[k].blockNumber == n && t.receipts[k].index == i
            && t.receipts[k].tx == e.block.txs[i] && t.receipts[k].outcome == e.receipts[i]
  {
    hide Connected, AllKnown, SpendOnce, StepShape;
    var L, p := HashLists(r, t.canonical), Place(n, i);
    PathHeights(r, t.canonical, n);
    assert At(L, p) && HashAt(L, p) == r.txHash(t.canonical[n].block.txs[i]);
  }

  /** And there is no other receipt. */
  lemma {:induction false} ReceiptsStand<S(!new)>(r: Rules<S>, t: Tree<S>, k: Hash)
    requires Core(r, t) && k in t.receipts
    ensures k in t.txIndex && Stands(t.canonical, t.txIndex[k])
    ensures t.receipts[k].tx == TxAt(t.canonical, t.txIndex[k]) && r.txHash(t.receipts[k].tx) == k
  {
    hide Connected, AllKnown, FromGenesis, IndexUpTo, HashLists;
    IndexStands(r, t.canonical, t.txIndex);
  }
}
