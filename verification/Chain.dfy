/** The chain object itself, changed in place, against the value-level tree (src/chain.js:32-717). */
module ChainModule {
  import opened Common
  import opened Types
  import opened TxIndex
  import opened BlockTree
  import opened ForkChoice
  import opened Anchors
  import opened Process

  /** Receipts after the first `i` transactions of `e` were written over `m`. */
  function ReceiptTxs<S>(r: Rules<S>, m: map<Hash, Receipt>, e: Entry<S>, i: nat): map<Hash, Receipt>
    requires i <= |e.block.txs| == |e.receipts|
  {
    if i == 0 then m
    else ReceiptTxs(r, m, e, i - 1)[r.txHash(e.block.txs[i - 1]) :=
        Receipt(e.Hash(), e.Number(), i - 1, e.block.txs[i - 1], e.receipts[i - 1])]
  }

  lemma ReceiptWritten<S>(path: seq<Entry<S>>, m: Index, h: Hash, p: Place)
    requires Stands(path, p) && p.index < |path[p.number].receipts|
    ensures ReceiptsFor(path, m[h := p]) == ReceiptsFor(path, m)[h := ReceiptAt(path, p)]
  {
  }

  lemma {:induction false} ReceiptsFollowIndex<S(!new)>(r: Rules<S>, path: seq<Entry<S>>, m: Index, e: Entry<S>, i: nat)
    requires e.Number() < |path| && path[e.Number()] == e && i <= |e.block.txs| == |e.receipts|
    ensures ReceiptsFor(path, IndexTxs(m, e.Number(), HashList(r, e), i)) == ReceiptTxs(r, ReceiptsFor(path, m), e, i)
    decreases i
  {
    hide ReceiptsFor;
    var hs := HashList(r, e);
    if i > 0 {
      ReceiptsFollowIndex(r, path, m, e, i - 1);
      ReceiptWritten(path, IndexTxs(m, e.Number(), hs, i - 1), hs[i - 1], Place(e.Number(), i - 1));
    }
  }

  /** The mempool after the first `i` transactions of `e` went back to it, unless the index holds them. */
  function RequeueTxs<S>(r: Rules<S>, m: map<Hash, Tx>, index: Index, e: Entry<S>, i: nat): map<Hash, Tx>
    requires i <= |e.block.txs|
  {
    if i == 0 then m
    else
      var before := RequeueTxs(r, m, index, e, i - 1);
      var tx := e.block.txs[i - 1];
      if r.txHash(tx) in index then before else before[r.txHash(tx) := tx]
  }

  function Requeue<S>(r: Rules<S>, m: map<Hash, Tx>, index: Index, es: seq<Entry<S>>, j: nat): map<Hash, Tx>
    requires j <= |es|
  {
    if j == 0 then m else RequeueTxs(r, Requeue(r, m, index, es, j - 1), index, es[j - 1], |es[j - 1].block.txs|)
  }

  /** What putting back amounts to: the hashes not in the index join, everything else stays. */
  ghost predicate PutBack<S>(r: Rules<S>, m: map<Hash, Tx>, back: set<Hash>, m': map<Hash, Tx>) {
    && m'.Keys == m.Keys + back
    && forall k <- m' :: if k in back then r.txHash(m'[k]) == k else m'[k] == m[k]
  }

  lemma {:induction false} RequeueTxsPutsBack<S>(r: Rules<S>, m: map<Hash, Tx>, index: Index, e: Entry<S>, i: nat)
    requires i <= |e.block.txs|
    ensures PutBack(r, m, HashSet(HashList(r, e)[..i]) - index.Keys, RequeueTxs(r, m, index, e, i))
    decreases i
  {
    if i > 0 {
      RequeueTxsPutsBack(r, m, index, e, i - 1);
      HashSetGrows(HashList(r, e), i - 1);
    }
  }

  lemma NoHashSet(hs: seq<Hash>)
    ensures HashSet(hs[..0]) == {}
  {
  }

  lemma HashSetGrows(hs: seq<Hash>, i: nat)
    requires i < |hs|
    ensures HashSet(hs[..i + 1]) == HashSet(hs[..i]) + {hs[i]}
  {
    assert forall k :: 0 <= k < i ==> hs[..i + 1][k] == hs[..i][k];
    assert hs[..i + 1][i] == hs[i];
  }

  lemma PutBackTwice<S>(r: Rules<S>, m: map<Hash, Tx>, b1: set<Hash>, m1: map<Hash, Tx>, b2: set<Hash>,
                        m2: map<Hash, Tx>)
    requires PutBack(r, m, b1, m1) && PutBack(r, m1, b2, m2)
    ensures PutBack(r, m, b1 + b2, m2)
  {
  }

  lemma MinusUnion(a: set<Hash>, b: set<Hash>, c: set<Hash>)
    ensures (a + b) - c == (a - c) + (b - c)
  {
  }

  lemma {:induction false} RequeueStep<S>(r: Rules<S>, m: map<Hash, Tx>, index: Index, es: seq<Entry<S>>, j: nat,
                                          before: map<Hash, Tx>)
    requires j < |es| && PutBack(r, m, AllHashes(HashLists(r, es)[..j]) - index.Keys, before)
    ensures PutBack(r, m, AllHashes(HashLists(r, es)[..j + 1]) - index.Keys,
              RequeueTxs(r, before, index, es[j], |es[j].block.txs|))
  {
    hide AllHashes, HashSet, PutBack, RequeueTxs;
    var e, L := es[j], HashLists(r, es);
    RequeueTxsPutsBack(r, before, index, e, |e.block.txs|);
    AllHashesGrow(L, j);
    assert HashList(r, e)[..|e.block.txs|] == HashList(r, e);
    MinusUnion(AllHashes(L[..j]), HashSet(L[j]), index.Keys);
    PutBackTwice(r, m, AllHashes(L[..j]) - index.Keys, before, HashSet(L[j]) - index.Keys,
      RequeueTxs(r, before, index, e, |e.block.txs|));
  }

  lemma {:induction false} RequeuePutsBack<S>(r: Rules<S>, m: map<Hash, Tx>, index: Index, es: seq<Entry<S>>, j: nat)
    requires j <= |es|
    ensures PutBack(r, m, AllHashes(HashLists(r, es)[..j]) - index.Keys, Requeue(r, m, index, es, j))
    decreases j
  {
    hide AllHashes, PutBack, RequeueTxs, HashLists;
    if j > 0 {
      RequeuePutsBack(r, m, index, es, j - 1);
      RequeueStep(r, m, index, es, j - 1, Requeue(r, m, index, es, j - 1));
    } else {
      NothingPutBack(r, m, index, HashLists(r, es));
    }
  }

  lemma NothingPutBack<S>(r: Rules<S>, m: map<Hash, Tx>, index: Index, L: TxLists)
    ensures PutBack(r, m, AllHashes(L[..0]) - index.Keys, m)
  {
    assert forall p :: !At(L[..0], p);
  }

  lemma PutBackUnique<S(!new)>(r: Rules<S>, m: map<Hash, Tx>, back: set<Hash>, a: map<Hash, Tx>, b: map<Hash, Tx>)
    requires PutBack(r, m, back, a) && PutBack(r, m, back, b)
    requires forall t, t' :: r.txHash(t) == r.txHash(t') ==> t == t'
    ensures a == b
  {
  }

  lemma JoinPutsBack<S>(r: Rules<S>, kept: map<Hash, Tx>, reverted: set<Hash>, index: Index, was: Index,
                        path: seq<Entry<S>>)
    requires forall k <- reverted :: k in was && Stands(path, was[k]) && r.txHash(TxAt(path, was[k])) == k
    ensures PutBack(r, kept, reverted - index.Keys,
              kept + map k | k in reverted && k !in index && k in was && Stands(path, was[k]) :: TxAt(path, was[k]))
  {
  }

  lemma {:induction false} NewMempoolPutsBack<S(!new)>(r: Rules<S>, t: Tree<S>, path: seq<Entry<S>>, fork: nat,
                                                       index: Index)
    requires fork < |t.canonical| && fork < |path|
    requires IndexOf(HashLists(r, t.canonical), t.txIndex)
    ensures PutBack(r, t.mempool - AllHashes(HashLists(r, path)[fork + 1..]),
              AllHashes(HashLists(r, t.canonical)[fork + 1..]) - index.Keys, NewMempool(r, t, path, fork, index))
  {
    hide IndexUpTo, HashLists, AllHashes, PutBack;
    SuffixIndexed(HashLists(r, t.canonical), fork + 1, t.txIndex);
    IndexStands(r, t.canonical, t.txIndex);
    JoinPutsBack(r, t.mempool - AllHashes(HashLists(r, path)[fork + 1..]),
      AllHashes(HashLists(r, t.canonical)[fork + 1..]), index, t.txIndex, t.canonical);
  }

  lemma NoBlocks(m: Index, L: TxLists, from: nat)
    requires from <= |L|
    ensures IndexBlocks(m, L, from, from) == m
  {
  }

  lemma HasReceiptsAt<S>(path: seq<Entry<S>>, n: nat)
    requires HasReceipts(path) && n < |path|
    ensures |path[n].block.txs| == |path[n].receipts|
  {
  }

  lemma IndexOneMore<S>(r: Rules<S>, m: Index, path: seq<Entry<S>>, from: nat, k: nat)
    requires from <= k < |path| && path[k].Number() == k
    ensures IndexBlocks(m, HashLists(r, path), from, k + 1) ==
            IndexTxs(IndexBlocks(m, HashLists(r, path), from, k), k, HashList(r, path[k]), |path[k].block.txs|)
  {
  }

  /** Putting back block by block gives the mempool fork choice asks for. */
  lemma {:induction false} RequeuedIsNewMempool<S(!new)>(r: Rules<S>, t: Tree<S>, path: seq<Entry<S>>, fork: nat,
                                                         index: Index)
    requires SpendOnce(r) && fork < |t.canonical| && fork < |path|
    requires IndexOf(HashLists(r, t.canonical), t.txIndex)
    ensures var kept := t.mempool - AllHashes(HashLists(r, path)[fork + 1..]);
            var reverted := t.canonical[fork + 1..];
            Requeue(r, kept, index, reverted, |reverted|) == NewMempool(r, t, path, fork, index)
  {
    hide IndexUpTo, HashLists, Requeue, AllHashes, NewMempool, PutBack;
    var kept := t.mempool - AllHashes(HashLists(r, path)[fork + 1..]);
    var reverted := t.canonical[fork + 1..];
    var back := AllHashes(HashLists(r, t.canonical)[fork + 1..]) - index.Keys;
    RequeuePutsBack(r, kept, index, reverted, |reverted|);
    SuffixLists(r, t.canonical, fork + 1);
    assert HashLists(r, reverted)[..|reverted|] == HashLists(r, reverted);
    NewMempoolPutsBack(r, t, path, fork, index);
    PutBackUnique(r, kept, back, Requeue(r, kept, index, reverted, |reverted|), NewMempool(r, t, path, fork, index));
  }

  lemma SuffixLists<S>(r: Rules<S>, path: seq<Entry<S>>, k: nat)
    requires k <= |path|
    ensures HashLists(r, path[k..]) == HashLists(r, path)[k..]
  {
  }

  lemma ReceiptsAgree<S>(p: seq<Entry<S>>, q: seq<Entry<S>>, m: Index, gone: set<Hash>)
    requires forall k <- m - gone :: m[k].number < |p| && m[k].number < |q| && p[m[k].number] == q[m[k].number]
    ensures ReceiptsFor(p, m) - gone == ReceiptsFor(q, m - gone)
  {
  }

  /** Forgetting a suffix leaves the receipts of the common prefix, seen from either path. */
  lemma {:induction false} ReceiptsOfPrefix<S(!new)>(r: Rules<S>, t: Tree<S>, path: seq<Entry<S>>, fork: nat)
    requires Lawful(r) && FromGenesis(r, t.canonical) && IndexOf(HashLists(r, t.canonical), t.txIndex)
    requires fork < |t.canonical| && fork < |path| && path[..fork + 1] == t.canonical[..fork + 1]
    ensures var gone := AllHashes(HashLists(r, t.canonical)[fork + 1..]);
            ReceiptsFor(t.canonical, t.txIndex) - gone == ReceiptsFor(path, t.txIndex - gone)
  {
    var L := HashLists(r, t.canonical);
    var gone := AllHashes(L[fork + 1..]);
    PathDistinct(r, t.canonical);
    UnindexSuffix(L, fork + 1, t.txIndex);
    hide FromGenesis, StepShape, SpendOnce, Distinct, HashLists, AllHashes;
    forall k <- t.txIndex - gone
      ensures t.txIndex[k].number <= fork && path[t.txIndex[k].number] == t.canonical[t.txIndex[k].number]
    {
      var n := t.txIndex[k].number;
      assert At(L[..fork + 1], t.txIndex[k]);
      assert path[..fork + 1][n] == t.canonical[..fork + 1][n];
    }
    ReceiptsAgree(t.canonical, path, t.txIndex, gone);
  }

  /** One step back along a branch. */
  lemma {:induction false} BranchStep<S(!new)>(r: Rules<S>, t: Tree<S>, e: Entry<S>)
    requires Lawful(r) && Core(r, t) && KnownIn(t.blocks, e) && !t.IsCanonical(e.Hash())
    ensures e.Parent() in t.blocks && KnownIn(t.blocks, t.blocks[e.Parent()])
    ensures Branch(t, e) == Branch(t, t.blocks[e.Parent()]) + [e]
    ensures t.blocks[e.Parent()].Number() + 1 == e.Number()
  {
    hide BooksAgree, SpendOnce, Linked;
    assert KnownIn(t.blocks, t.canonical[0]);
    ParentKnown(r, t.blocks, e.Hash());
  }

  lemma BranchEnds<S>(t: Tree<S>, e: Entry<S>)
    requires t.IsCanonical(e.Hash())
    ensures Branch(t, e) == []
  {
  }

  class Chain<S(!new)> {
    const rules: Rules<S>
    const anchors: AnchorStore?
    var byHash: map<Hash, Entry<S>>
    var canonical: seq<Entry<S>>
    var orphans: map<Hash, seq<Block>>
    var mempool: map<Hash, Tx>
    var txIndex: Index
    var receipts: map<Hash, Receipt>
    var state: S
    var refusedReorg: bool

    ghost function Contents(): Tree<S>
      reads this
    {
      Tree(byHash, canonical, orphans, mempool, txIndex, receipts, state, refusedReorg)
    }

    function AnchorBook(): Option<Book>
      reads anchors
    {
      if anchors == null then None else Some(anchors.Contents())
    }

    ghost predicate Valid()
      reads this
    {
      Lawful(rules) && Inv(rules, Contents())
    }

    constructor (rules: Rules<S>, anchors: AnchorStore?)
      requires Lawful(rules)
      ensures this.rules == rules && this.anchors == anchors
      ensures byHash == map[rules.genesis.Hash() := rules.genesis] && canonical == [rules.genesis]
      ensures orphans == map[] && mempool == map[] && !refusedReorg
      ensures Valid()
    {
      this.rules, this.anchors := rules, anchors;
      byHash, canonical, orphans := map[rules.genesis.Hash() := rules.genesis], [rules.genesis], map[];
      mempool, txIndex, receipts, state, refusedReorg := map[], map[], map[], rules.genesis.state, false;
      new;
      assert Rooted(rules, byHash, rules.genesis.Hash());
      assert forall p :: !At(HashLists(rules, canonical), p);
    }

    method OrphanTotal() returns (total: int)
      ensures total == OrphanCount(orphans)
    {
      total := 0;
      var sizes := OrphanSizes(orphans);
      while sizes != map[]
        invariant total + Sum(sizes) == OrphanCount(orphans)
        decreases |sizes|
      {
        ghost var some := Pick(sizes.Keys);
        var h: Hash :| h in sizes.Keys;
        SumRemove(sizes, h);
        total, sizes := total + sizes[h], sizes - {h};
      }
    }

    /** Walk back from a known block to the canonical chain, collecting the branch. */
    method PathToCanonical(e: Entry<S>) returns (fork: nat, branch: seq<Entry<S>>)
      requires Lawful(rules) && Core(rules, Contents()) && KnownIn(byHash, e)
      ensures branch == Branch(Contents(), e) && fork == Fork(Contents(), e)
    {
      hide Lawful, Core, Branch;
      branch := [];
      var cursor := e;
      while !IsCanonical(cursor.Hash())
        invariant KnownIn(byHash, cursor)
        invariant Branch(Contents(), cursor) + branch == Branch(Contents(), e)
        invariant cursor.Number() + |branch| == e.Number()
        decreases cursor.Number()
      {
        BranchStep(rules, Contents(), cursor);
        branch := [cursor] + branch;
        cursor := byHash[cursor.Parent()];
      }
      BranchEnds(Contents(), cursor);
      fork := cursor.Number();
    }

    /** Drop one unwound block from the index and the receipts. */
    method Unindex(e: Entry<S>)
      modifies this`txIndex, this`receipts
      ensures txIndex == old(txIndex) - HashSet(HashList(rules, e))
      ensures receipts == old(receipts) - HashSet(HashList(rules, e))
    {
      var hs := HashList(rules, e);
      for i := 0 to |e.block.txs|
        invariant txIndex == old(txIndex) - HashSet(hs[..i])
        invariant receipts == old(receipts) - HashSet(hs[..i])
      {
        HashSetGrows(hs, i);
        txIndex := txIndex - {rules.txHash(e.block.txs[i])};
        receipts := receipts - {rules.txHash(e.block.txs[i])};
      }
      assert hs[..|e.block.txs|] == hs;
    }

    method IndexOne(e: Entry<S>, i: nat)
      requires i < |e.block.txs| == |e.receipts|
      modifies this`txIndex, this`receipts, this`mempool
      ensures txIndex == old(txIndex)[rules.txHash(e.block.txs[i]) := Place(e.Number(), i)]
      ensures receipts == old(receipts)[rules.txHash(e.block.txs[i]) :=
                  Receipt(e.Hash(), e.Number(), i, e.block.txs[i], e.receipts[i])]
      ensures mempool == old(mempool) - {rules.txHash(e.block.txs[i])}
    {
      var tx := e.block.txs[i];
      mempool := mempool - {rules.txHash(tx)};
      txIndex := txIndex[rules.txHash(tx) := Place(e.Number(), i)];
      receipts := receipts[rules.txHash(tx) := Receipt(e.Hash(), e.Number(), i, tx, e.receipts[i])];
    }

    /** Write one applied block into the index and the receipts, and take its transactions out of the mempool. */
    method IndexBlock(e: Entry<S>)
      requires |e.block.txs| == |e.receipts|
      modifies this`txIndex, this`receipts, this`mempool
      ensures txIndex == IndexTxs(old(txIndex), e.Number(), HashList(rules, e), |e.block.txs|)
      ensures receipts == ReceiptTxs(rules, old(receipts), e, |e.block.txs|)
      ensures mempool == old(mempool) - HashSet(HashList(rules, e))
    {
      hide HashSet;
      ghost var hs := HashList(rules, e);
      NoHashSet(hs);
      for i := 0 to |e.block.txs|
        invariant txIndex == IndexTxs(old(txIndex), e.Number(), hs, i)
        invariant receipts == ReceiptTxs(rules, old(receipts), e, i)
        invariant mempool == old(mempool) - HashSet(hs[..i])
      {
        HashSetGrows(hs, i);
        IndexOne(e, i);
      }
      assert hs[..|e.block.txs|] == hs;
    }

    /** Put the transactions of one unwound block back, unless the new branch holds them. */
    method RequeueBlock(e: Entry<S>)
      modifies this`mempool
      ensures mempool == RequeueTxs(rules, old(mempool), txIndex, e, |e.block.txs|)
    {
      for i := 0 to |e.block.txs|
        invariant mempool == RequeueTxs(rules, old(mempool), txIndex, e, i)
      {
        var tx := e.block.txs[i];
        if rules.txHash(tx) !in txIndex {
          mempool := mempool[rules.txHash(tx) := tx];
        }
      }
    }

    method Unwind(reverted: seq<Entry<S>>)
      modifies this`txIndex, this`receipts
      ensures txIndex == old(txIndex) - AllHashes(HashLists(rules, reverted))
      ensures receipts == old(receipts) - AllHashes(HashLists(rules, reverted))
    {
      hide HashSet, AllHashes;
      ghost var L := HashLists(rules, reverted);
      NoHashes(L);
      for j := 0 to |reverted|
        invariant txIndex == old(txIndex) - AllHashes(L[..j])
        invariant receipts == old(receipts) - AllHashes(L[..j])
      {
        AllHashesGrow(L, j);
        Unindex(reverted[j]);
      }
      assert L[..|reverted|] == L;
    }

    /** Push one block of the new branch. */
    method ApplyOne(e: Entry<S>, ghost path: seq<Entry<S>>)
      requires e.Number() < |path| && path[e.Number()] == e && canonical == path[..e.Number()]
      requires |e.block.txs| == |e.receipts| && receipts == ReceiptsFor(path, txIndex)
      modifies this`canonical, this`txIndex, this`receipts, this`mempool
      ensures canonical == path[..e.Number() + 1]
      ensures txIndex == IndexTxs(old(txIndex), e.Number(), HashList(rules, e), |e.block.txs|)
      ensures receipts == ReceiptsFor(path, txIndex)
      ensures mempool == old(mempool) - HashSet(HashList(rules, e))
    {
      hide HashSet, ReceiptsFor;
      ReceiptsFollowIndex(rules, path, txIndex, e, |e.block.txs|);
      canonical := canonical + [e];
      IndexBlock(e);
    }

    method Apply(branch: seq<Entry<S>>, ghost path: seq<Entry<S>>, ghost from: nat)
      requires from <= |path| && canonical == path[..from] && branch == path[from..]
      requires HasReceipts(path) && forall n :: 0 <= n < |path| ==> path[n].Number() == n
      requires receipts == ReceiptsFor(path, txIndex)
      modifies this`canonical, this`txIndex, this`receipts, this`mempool
      ensures canonical == path
      ensures txIndex == IndexBlocks(old(txIndex), HashLists(rules, path), from, |path|)
      ensures receipts == ReceiptsFor(path, txIndex)
      ensures mempool == old(mempool) - AllHashes(HashLists(rules, branch))
    {
      hide HashSet, AllHashes, ReceiptsFor, IndexTxs, IndexBlocks, HasReceipts, HashList, HashLists;
      ghost var L := HashLists(rules, branch);
      NoHashes(L);
      NoBlocks(txIndex, HashLists(rules, path), from);
      for j := 0 to |branch|
        invariant canonical == path[..from + j]
        invariant txIndex == IndexBlocks(old(txIndex), HashLists(rules, path), from, from + j)
        invariant receipts == ReceiptsFor(path, txIndex)
        invariant mempool == old(mempool) - AllHashes(L[..j])
      {
        HasReceiptsAt(path, from + j);
        IndexOneMore(rules, old(txIndex), path, from, from + j);
        AllHashesGrow(L, j);
        ApplyOne(branch[j], path);
      }
      assert L[..|branch|] == L;
    }

    method RequeueAll(reverted: seq<Entry<S>>)
      modifies this`mempool
      ensures mempool == Requeue(rules, old(mempool), txIndex, reverted, |reverted|)
    {
      for j := 0 to |reverted|
        invariant mempool == Requeue(rules, old(mempool), txIndex, reverted, j)
      {
        RequeueBlock(reverted[j]);
      }
    }

    /** Unwind everything above the fork and push the branch in its place. */
    method Replace(fork: nat, branch: seq<Entry<S>>, ghost path: seq<Entry<S>>)
      requires fork < |canonical| && fork < |path| && path[..fork + 1] == canonical[..fork + 1]
               && branch == path[fork + 1..]
      requires HasReceipts(path) && forall n :: 0 <= n < |path| ==> path[n].Number() == n
      requires var gone := AllHashes(HashLists(rules, canonical[fork + 1..]));
               receipts - gone == ReceiptsFor(path, txIndex - gone)
      modifies this`canonical, this`txIndex, this`receipts, this`mempool
      ensures canonical == path
      ensures var gone := AllHashes(HashLists(rules, old(canonical)[fork + 1..]));
              txIndex == IndexBlocks(old(txIndex) - gone, HashLists(rules, path), fork + 1, |path|)
      ensures receipts == ReceiptsFor(path, txIndex)
      ensures mempool == old(mempool) - AllHashes(HashLists(rules, branch))
    {
      hide HasReceipts, ReceiptsFor, AllHashes, IndexBlocks, HashLists;
      Unwind(canonical[fork + 1..]);
      canonical := canonical[..fork + 1];
      Apply(branch, path, fork + 1);
    }

    /** Move the head onto the branch of `e`, unwinding the abandoned suffix first. */
    method SetHead(e: Entry<S>)
      requires Lawful(rules) && Core(rules, Contents()) && KnownIn(byHash, e)
      modifies this
      ensures Contents() ==
              BlockTree.SetHead(rules, old(Contents()), PathTo(old(Contents()), e), Fork(old(Contents()), e))
    {
      hide BooksAgree, Connected, AllKnown, StepShape, SpendOnce, HasReceipts, Linked, Branch, NewMempool, ReceiptsFor,
           AllHashes, IndexBlocks, Requeue, HashLists, FromGenesis;
      ghost var t := Contents();
      ghost var path := PathTo(t, e);
      PathToShape(rules, t, e);
      var fork, branch := PathToCanonical(e);
      var reverted := canonical[fork + 1..];
      SetHeadFacts(rules, t, path, fork);
      Replace(fork, branch, path);
      state := e.state;
      RequeueAll(reverted);
    }

    /** The two bounds no amount of work overrides, the anchored floor first (src/chain.js:571-602). */
    method MayLeaveAt(fork: nat) returns (ok: bool)
      ensures ok == !Refuses(rules, Contents(), fork, FloorOf(AnchorBook(), Contents()))
    {
      if anchors != null && !anchors.Contents().PermitsReorgFrom(Hashes(canonical), fork) { return false; }
      return |canonical| - 1 - fork <= rules.maxReorgDepth;
    }

    /** Everything between the end of verification and the new head: no step of it yields (src/chain.js:555-605). */
    method Adopt(e: Entry<S>) returns (refused: bool)
      requires Valid() && Lands(rules, Contents(), e)
      modifies this
      ensures Contents() == Land(rules, old(Contents()), e, FloorOf(AnchorBook(), old(Contents())))
      ensures refused == RefusedNow(rules, old(Contents()), e, FloorOf(AnchorBook(), old(Contents())))
    {
      hide StepShape, SpendOnce, Connected, AllKnown, BooksAgree, Linked, BlockTree.SetHead, Branch, Fork, PathTo,
           FloorOf;
      ghost var t, floor := Contents(), FloorOf(AnchorBook(), Contents());
      InsertKeepsCore(rules, t, e);
      byHash := byHash[e.Hash() := e];
      SameFloor(t, Contents(), AnchorBook(), e);
      if e.td > canonical[|canonical| - 1].td {
        var fork, branch := PathToCanonical(e);
        var ok := MayLeaveAt(fork);
        if !ok {
          refusedReorg := true;
          return true;
        }
        SetHead(e);
      }
      return false;
    }

    /** The children waiting for a block that is in now, unless the recursion is already too deep
        (src/chain.js:612-620). */
    method Resolve(e: Entry<S>, clock: Block -> nat, depth: nat) returns (ok: bool)
      requires Valid()
      modifies this
      ensures Valid()
      ensures (Contents(), ok) == Resolved(rules, old(Contents()), AnchorBook(), e, clock, depth)
      decreases MAX_ORPHAN_RESOLUTION_DEPTH + 1 - depth, 0, 0
    {
      hide Lawful, Inv, DeliverAll, FloorOf, Evolved, Hold;
      if e.Hash() !in orphans || depth >= MAX_ORPHAN_RESOLUTION_DEPTH { return true; }
      var children := orphans[e.Hash()];
      EvolvedSame(rules, Contents(), AnchorBook(), -1, orphans - {e.Hash()});
      orphans := orphans - {e.Hash()};
      ok := ProcessAll(children, clock, depth + 1);
    }

    /** One delivery, its waiting children included, as the tree of values has it (src/chain.js:537-623). */
    method ProcessBlock(b: Block, clock: Block -> nat, depth: nat) returns (outcome: Outcome)
      requires Valid()
      modifies this
      ensures Valid()
      ensures (Contents(), outcome) == Deliver(rules, old(Contents()), AnchorBook(), b, clock, depth)
      decreases MAX_ORPHAN_RESOLUTION_DEPTH + 1 - depth, 0, 1
    {
      hide Lawful, Inv, Land, OrphanCount, FloorOf, RefusedNow, Evolved, Resolved;
      ghost var t, book := Contents(), AnchorBook();
      if b.hash in byHash { return AlreadyKnown; }
      if b.header.parentHash !in byHash {
        var held := OrphanTotal();
        if held >= rules.maxOrphans { return PoolFull; }
        EvolvedSame(rules, t, book, -1, Hold(orphans, b));
        orphans := Hold(orphans, b);
        return Held;
      }
      var verified := VerifyAt(rules, byHash[b.header.parentHash], b, clock(b));
      if verified.None? { return Failed; }
      var e := verified.value;
      LandEvolves(rules, t, book, e, -1);
      var refused := Adopt(e);
      if refused { return Accepted(false, true); }
      var ok := Resolve(e, clock, depth);
      if !ok { return Failed; }
      return Accepted(IsCanonical(e.Hash()), false);
    }

    /** The waiting children in turn; the first that throws ends it (src/chain.js:616-618). */
    method ProcessAll(bs: seq<Block>, clock: Block -> nat, depth: nat) returns (ok: bool)
      requires Valid()
      modifies this
      ensures Valid()
      ensures (Contents(), ok) == DeliverAll(rules, old(Contents()), AnchorBook(), bs, clock, depth)
      decreases MAX_ORPHAN_RESOLUTION_DEPTH + 1 - depth, 1, |bs|
    {
      hide Lawful, Inv, Deliver;
      for i := 0 to |bs|
        invariant Valid()
        invariant DeliverAll(rules, old(Contents()), AnchorBook(), bs, clock, depth) ==
                  DeliverAll(rules, Contents(), AnchorBook(), bs[i..], clock, depth)
      {
        assert bs[i..][0] == bs[i] && bs[i..][1..] == bs[i + 1..];
        var outcome := ProcessBlock(bs[i], clock, depth);
        if outcome.Failed? { return false; }
      }
      return true;
    }

    predicate IsCanonical(h: Hash)
      reads this
    {
      h in byHash && byHash[h].Number() < |canonical| && canonical[byHash[h].Number()].Hash() == h
    }
  }

  /** Inserting a block moves neither the chain nor its floor. */
  lemma SameFloor<S>(t: Tree<S>, t': Tree<S>, book: Option<Book>, e: Entry<S>)
    requires t' == Insert(t, e)
    ensures FloorOf(book, t') == FloorOf(book, t)
  {
  }

  lemma NoHashes(L: TxLists)
    ensures AllHashes(L[..0]) == {}
  {
    assert forall p :: !At(L[..0], p);
  }

  /** The facts the three passes of SetHead meet on. */
  lemma {:induction false} SetHeadFacts<S(!new)>(r: Rules<S>, t: Tree<S>, path: seq<Entry<S>>, fork: nat)
    requires Lawful(r) && Core(r, t) && FromGenesis(r, path)
    requires fork < |t.canonical| && fork < |path| && path[..fork + 1] == t.canonical[..fork + 1]
    ensures var reverted, branch := t.canonical[fork + 1..], path[fork + 1..];
            var index := NewIndex(r, t, path, fork);
            && (forall n :: 0 <= n < |path| ==> path[n].Number() == n)
            && index == IndexBlocks(t.txIndex - AllHashes(HashLists(r, reverted)), HashLists(r, path), fork + 1, |path|)
            && t.receipts - AllHashes(HashLists(r, reverted)) ==
               ReceiptsFor(path, t.txIndex - AllHashes(HashLists(r, reverted)))
            && Requeue(r, t.mempool - AllHashes(HashLists(r, branch)), index, reverted, |reverted|) ==
               NewMempool(r, t, path, fork, index)
  {
    hide AllHashes, HashLists, Requeue, IndexBlocks, ReceiptsFor;
    SuffixLists(r, t.canonical, fork + 1);
    SuffixLists(r, path, fork + 1);
    forall n | 0 <= n < |path|
      ensures path[n].Number() == n
    {
      PathHeights(r, path, n);
    }
    ReceiptsOfPrefix(r, t, path, fork);
    RequeuedIsNewMempool(r, t, path, fork, NewIndex(r, t, path, fork));
  }
}
