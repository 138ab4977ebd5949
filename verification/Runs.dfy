/**
 * Whole histories of a node: every interleaving of deliveries, admissions and anchor events.
 *
 * Verification awaits, so two deliveries may overlap; from the end of verification to the new head nothing
 * yields (src/chain.js:554-605). The atomic events are therefore: a block is held, a verified block lands,
 * the children of a block are taken out of the orphan pool, a transaction is admitted, Ethereum moves, an
 * anchor is read. Deliver is one particular sequence of them.
 */
module Runs {
  import opened Common
  import opened Types
  import opened TxIndex
  import opened BlockTree
  import opened ForkChoice
  import opened Anchors
  import opened Process

  datatype Node<S> = Node(tree: Tree<S>, book: Option<Book>)

  datatype Event<S> =
    | Parked(block: Block)
    | Landed(entry: Entry<S>)
    | Resolved(parent: Hash)
    | Admitted(tx: Tx, evicted: set<Hash>)
    | EthereumAt(head: int)
    | Anchored(anchor: Anchor)

  function Boot<S>(r: Rules<S>, book: Option<Book>): Node<S> {
    Node(Tree(map[r.genesis.Hash() := r.genesis], [r.genesis], map[], map[], map[], map[], r.genesis.state, false),
      book)
  }

  ghost predicate Enabled<S(!new)>(r: Rules<S>, n: Node<S>, ev: Event<S>) {
    match ev
    case Parked(b) =>
      && b.hash !in n.tree.blocks && b.header.parentHash !in n.tree.blocks
      && OrphanCount(n.tree.orphans) < r.maxOrphans
    case Landed(e) => Lands(r, n.tree, e)
    case Resolved(_) => true
    case Admitted(tx, _) => r.txHash(tx) !in n.tree.txIndex
    case EthereumAt(_) => true
    case Anchored(_) => true
  }

  function Next<S>(r: Rules<S>, n: Node<S>, ev: Event<S>): Node<S> {
    var t := n.tree;
    match ev
    case Parked(b) => n.(tree := t.(orphans := Hold(t.orphans, b)))
    case Landed(e) => n.(tree := Land(r, t, e, FloorOf(n.book, t)))
    case Resolved(h) => n.(tree := t.(orphans := t.orphans - {h}))
    case Admitted(tx, evicted) => n.(tree := t.(mempool := (t.mempool - evicted)[r.txHash(tx) := tx]))
    case EthereumAt(head) => if n.book.Some? then n.(book := Some(n.book.value.SetEthereumHead(head))) else n
    case Anchored(a) => if n.book.Some? then n.(book := Some(n.book.value.Add(a))) else n
  }

  ghost predicate Possible<S(!new)>(r: Rules<S>, n: Node<S>, evs: seq<Event<S>>)
    decreases |evs|
  {
    evs != [] ==> Enabled(r, n, evs[0]) && Possible(r, Next(r, n, evs[0]), evs[1..])
  }

  function Run<S>(r: Rules<S>, n: Node<S>, evs: seq<Event<S>>): Node<S>
    decreases |evs|
  {
    if evs == [] then n else Run(r, Next(r, n, evs[0]), evs[1..])
  }

  // ------------------------------------------------------------- safety

  lemma BootIsSound<S(!new)>(r: Rules<S>, book: Option<Book>)
    requires Lawful(r)
    ensures Inv(r, Boot(r, book).tree)
  {
    var t := Boot(r, book).tree;
    assert Rooted(r, t.blocks, r.genesis.Hash());
    assert forall p :: !At(HashLists(r, t.canonical), p);
  }

  /** What every history keeps: blocks and their post-states never change, the head's weight never falls. */
  ghost predicate Advanced<S(!new)>(t: Tree<S>, t': Tree<S>) {
    && t.canonical != [] && t'.canonical != []
    && (forall h <- t.blocks :: h in t'.blocks && t'.blocks[h] == t.blocks[h])
    && t.Head().td <= t'.Head().td
    && (t.refusedReorg ==> t'.refusedReorg)
  }

  lemma {:induction false} StepAdvances<S(!new)>(r: Rules<S>, n: Node<S>, ev: Event<S>)
    requires Lawful(r) && Inv(r, n.tree) && Enabled(r, n, ev)
    ensures Inv(r, Next(r, n, ev).tree) && Advanced(n.tree, Next(r, n, ev).tree)
  {
    hide Lawful, Land, Connected, AllKnown, Linked, Hold, BooksAgree;
    match ev {
      case Landed(e) => LandKeepsInv(r, n.tree, e, FloorOf(n.book, n.tree));
      case Admitted(tx, evicted) => AdmittedKeepsBooks(r, n.tree, tx, evicted);
      case _ =>
    }
  }

  lemma {:induction false} AdmittedKeepsBooks<S(!new)>(r: Rules<S>, t: Tree<S>, tx: Tx, evicted: set<Hash>)
    requires BooksAgree(r, t.canonical, t.txIndex, t.receipts, t.mempool) && r.txHash(tx) !in t.txIndex
    ensures BooksAgree(r, t.canonical, t.txIndex, t.receipts, (t.mempool - evicted)[r.txHash(tx) := tx])
  {
    hide IndexUpTo, HashLists, ReceiptsFor, HasReceipts;
  }

  lemma AdvancedTransitive<S(!new)>(t: Tree<S>, t1: Tree<S>, t2: Tree<S>)
    requires Advanced(t, t1) && Advanced(t1, t2)
    ensures Advanced(t, t2)
  {
  }

  lemma {:induction false} RunIsSafe<S(!new)>(r: Rules<S>, n: Node<S>, evs: seq<Event<S>>)
    requires Lawful(r) && Inv(r, n.tree) && Possible(r, n, evs)
    ensures Inv(r, Run(r, n, evs).tree) && Advanced(n.tree, Run(r, n, evs).tree)
    decreases |evs|
  {
    hide Lawful, Next, Connected, AllKnown, Linked, BooksAgree, Advanced, Enabled;
    if evs == [] {
      StaysAdvanced(r, n.tree);
    } else {
      StepAdvances(r, n, evs[0]);
      RunIsSafe(r, Next(r, n, evs[0]), evs[1..]);
      AdvancedTransitive(n.tree, Next(r, n, evs[0]).tree, Run(r, n, evs).tree);
    }
  }

  lemma StaysAdvanced<S(!new)>(r: Rules<S>, t: Tree<S>)
    requires Inv(r, t)
    ensures Advanced(t, t)
  {
  }

  // ------------------------------------------------------------- the live state is a replay

  /** Re-execute blocks one after the other from genesis, looking at nothing else. */
  function Replay<S>(r: Rules<S>, blocks: seq<Block>): Option<Entry<S>> {
    if |blocks| <= 1 then (if blocks == [r.genesis.block] then Some(r.genesis) else None)
    else
      var parent := Replay(r, blocks[..|blocks| - 1]);
      if parent.None? then None else r.Verify(parent.value, blocks[|blocks| - 1])
  }

  function BlocksOf<S>(path: seq<Entry<S>>): (bs: seq<Block>)
    ensures |bs| == |path| && forall i :: 0 <= i < |path| ==> bs[i] == path[i].block
  {
    seq(|path|, i requires 0 <= i < |path| => path[i].block)
  }

  lemma {:induction false} PathIsReplay<S(!new)>(r: Rules<S>, path: seq<Entry<S>>)
    requires FromGenesis(r, path)
    ensures Replay(r, BlocksOf(path)) == Some(path[|path| - 1])
    decreases |path|
  {
    var n := |path| - 1;
    if n == 0 {
      assert BlocksOf(path) == [r.genesis.block];
    } else {
      PathPrefix(r, path, n);
      PathIsReplay(r, path[..n]);
      assert BlocksOf(path)[..n] == BlocksOf(path[..n]);
      assert Follows(r, path, n);
    }
  }

  /**
   * From boot, through any history, the canonical chain is a parent-linked path from genesis with height
   * equal to index, and the live state is what re-executing that path alone produces.
   */
  lemma {:induction false} CanonicalIsReplay<S(!new)>(r: Rules<S>, book: Option<Book>, evs: seq<Event<S>>)
    requires Lawful(r) && Possible(r, Boot(r, book), evs)
    ensures var t := Run(r, Boot(r, book), evs).tree;
            && t.canonical != [] && t.canonical[0] == r.genesis
            && (forall i :: 0 <= i < |t.canonical| ==> t.canonical[i].Number() == i)
            && (forall i :: 0 < i < |t.canonical| ==> t.canonical[i].Parent() == t.canonical[i - 1].Hash())
            && Replay(r, BlocksOf(t.canonical)) == Some(t.Head())
            && t.state == Replay(r, BlocksOf(t.canonical)).value.state
  {
    hide StepShape, SpendOnce, Connected, AllKnown, BooksAgree, Next, Replay;
    BootIsSound(r, book);
    RunIsSafe(r, Boot(r, book), evs);
    var t := Run(r, Boot(r, book), evs).tree;
    PathIsReplay(r, t.canonical);
    forall i | 0 <= i < |t.canonical|
      ensures t.canonical[i].Number() == i
      ensures i > 0 ==> t.canonical[i].Parent() == t.canonical[i - 1].Hash()
    {
      PathHeights(r, t.canonical, i);
      if i > 0 { assert Follows(r, t.canonical, i); }
    }
  }

  // ------------------------------------------------------------- anchored finality

  /** Ethereum does not go back, and no anchor event disturbs the binding at `h`. */
  ghost predicate Gentle<S(!new)>(r: Rules<S>, n: Node<S>, evs: seq<Event<S>>, h: int)
    decreases |evs|
  {
    evs != [] ==>
      && GentleEvent(n, evs[0], h)
      && Gentle(r, Next(r, n, evs[0]), evs[1..], h)
  }

  predicate GentleEvent<S>(n: Node<S>, ev: Event<S>, h: int) {
    n.book.Some? ==>
      match ev
      case EthereumAt(head) => head >= n.book.value.ethHead
      case Anchored(a) => LeavesStanding(n.book.value, a, h)
      case _ => true
  }

  predicate BindsAt<S>(n: Node<S>, h: int) {
    n.book.Some? && n.book.value.Binds(Hashes(n.tree.canonical), h)
  }

  lemma {:induction false} StepKeepsFinality<S(!new)>(r: Rules<S>, n: Node<S>, ev: Event<S>, h: nat)
    requires Lawful(r) && Inv(r, n.tree) && Enabled(r, n, ev) && n.book.Some? && n.book.value.Valid()
    requires BindsAt(n, h) && GentleEvent(n, ev, h)
    ensures var n' := Next(r, n, ev);
            && n'.book.Some? && n'.book.value.Valid() && BindsAt(n', h)
            && SharePrefix(n.tree, n'.tree, h + 1)
  {
    hide Lawful, Land, Connected, AllKnown, Linked, BooksAgree, Hold, LeavesStanding;
    var chain := Hashes(n.tree.canonical);
    match ev {
      case Landed(e) =>
        FloorAtLeast(n.book.value, chain, h);
        LandEvolves(r, n.tree, n.book, e, FloorOf(n.book, n.tree));
        ShareLess(n.tree, Next(r, n, ev).tree, FloorOf(n.book, n.tree) + 1, h + 1);
        assert Next(r, n, ev).tree.canonical[h] == Next(r, n, ev).tree.canonical[..h + 1][h] ==
               n.tree.canonical[..h + 1][h];
      case Anchored(a) =>
        AddKeepsBindingExactly(n.book.value, a, chain, h);
      case _ =>
    }
  }

  /**
   * Once an anchor binds at height h it binds for ever, whatever work any branch carries: the canonical
   * chain up to h never changes again and the finalized height never falls below h.
   */
  lemma {:induction false} AnchoredHistoryIsFinal<S(!new)>(r: Rules<S>, n: Node<S>, evs: seq<Event<S>>, h: nat)
    requires Lawful(r) && Inv(r, n.tree) && Possible(r, n, evs) && n.book.Some? && n.book.value.Valid()
    requires BindsAt(n, h) && Gentle(r, n, evs, h)
    ensures var n' := Run(r, n, evs);
            && BindsAt(n', h)
            && SharePrefix(n.tree, n'.tree, h + 1)
            && FloorOf(n'.book, n'.tree) >= h
    decreases |evs|
  {
    hide Lawful, Inv, Next, Enabled, GentleEvent, Book.Binds;
    if evs == [] {
      BindingIsHeld(n, h);
      FloorAtLeast(n.book.value, Hashes(n.tree.canonical), h);
    } else {
      StepKeepsFinality(r, n, evs[0], h);
      StepAdvances(r, n, evs[0]);
      AnchoredHistoryIsFinal(r, Next(r, n, evs[0]), evs[1..], h);
    }
  }

  lemma BindingIsHeld<S>(n: Node<S>, h: nat)
    requires BindsAt(n, h)
    ensures h < |n.tree.canonical|
  {
  }

  // ------------------------------------------------------------- the heaviest head, in any order

  /** While no reorg was refused the head outweighs every known block. */
  lemma {:induction false} HeadIsHeaviest<S(!new)>(r: Rules<S>, book: Option<Book>, evs: seq<Event<S>>)
    requires Lawful(r) && Possible(r, Boot(r, book), evs)
    ensures var t := Run(r, Boot(r, book), evs).tree;
            && t.canonical != [] && t.Head().Hash() in t.blocks
            && (!t.refusedReorg ==> forall h <- t.blocks :: t.blocks[h].td <= t.Head().td)
  {
    hide Lawful, Connected, BooksAgree, Linked, Next;
    BootIsSound(r, book);
    RunIsSafe(r, Boot(r, book), evs);
    var t := Run(r, Boot(r, book), evs).tree;
    assert KnownIn(t.blocks, t.canonical[|t.canonical| - 1]);
  }

  /** Two nodes that know the same hashes know the same blocks, states and weights. */
  lemma {:induction false} EntryDetermined<S(!new)>(r: Rules<S>, a: map<Hash, Entry<S>>, b: map<Hash, Entry<S>>,
                                                    h: Hash)
    requires StepShape(r) && Connected(r, a) && Connected(r, b) && a.Keys == b.Keys && h in a
    ensures a[h] == b[h]
    decreases a[h].Number()
  {
    ParentKnown(r, a, h);
    ParentKnown(r, b, h);
    if h != r.genesis.Hash() {
      assert r.step(a[a[h].Parent()], a[h].block).Some? && r.step(b[b[h].Parent()], b[h].block).Some?;
      assert a[h].block == b[h].block;
      EntryDetermined(r, a, b, a[h].Parent());
    }
  }

  lemma {:induction false} PathDetermined<S(!new)>(
    r: Rules<S>, blocks: map<Hash, Entry<S>>, p: seq<Entry<S>>, q: seq<Entry<S>>, i: nat)
    requires StepShape(r) && FromGenesis(r, p) && FromGenesis(r, q) && AllKnown(blocks, p) && AllKnown(blocks, q)
    requires p[|p| - 1] == q[|q| - 1] && i < |p|
    ensures |p| == |q| && p[i] == q[i]
    decreases |p| - i
  {
    PathHeights(r, p, |p| - 1);
    PathHeights(r, q, |q| - 1);
    if i + 1 < |p| {
      PathDetermined(r, blocks, p, q, i + 1);
      assert Follows(r, p, i + 1) && Follows(r, q, i + 1);
      assert KnownIn(blocks, p[i]) && KnownIn(blocks, q[i]);
    }
  }

  /**
   * Arrival order is immaterial: nodes that know the same blocks and never refused a reorg have equally heavy
   * heads, and when the maximum is unique the very same canonical chain and live state.
   */
  lemma {:induction false} SameKnowledgeSameChain<S(!new)>(r: Rules<S>, t: Tree<S>, t': Tree<S>)
    requires Lawful(r) && Inv(r, t) && Inv(r, t') && !t.refusedReorg && !t'.refusedReorg
    requires t.blocks.Keys == t'.blocks.Keys
    ensures t.blocks == t'.blocks && t.canonical != [] && t'.canonical != [] && t.Head().td == t'.Head().td
    ensures (forall h <- t.blocks :: t.blocks[h].td == t.Head().td ==> h == t.Head().Hash())
            ==> t.canonical == t'.canonical && t.state == t'.state
  {
    hide BooksAgree, SpendOnce, Linked;
    forall h | h in t.blocks
      ensures t.blocks[h] == t'.blocks[h]
    {
      EntryDetermined(r, t.blocks, t'.blocks, h);
    }
    assert t.blocks == t'.blocks;
    assert KnownIn(t.blocks, t.canonical[|t.canonical| - 1]) && KnownIn(t'.blocks, t'.canonical[|t'.canonical| - 1]);
    if forall h <- t.blocks :: t.blocks[h].td == t.Head().td ==> h == t.Head().Hash() {
      assert t'.Head() == t.Head();
      forall i | 0 <= i < |t.canonical|
        ensures |t.canonical| == |t'.canonical| && t.canonical[i] == t'.canonical[i]
      {
        PathDetermined(r, t.blocks, t.canonical, t'.canonical, i);
      }
    }
  }

  // ------------------------------------------------------------- a delivery is one such history

  ghost function Script<S>(r: Rules<S>, t: Tree<S>, book: Option<Book>, b: Block, clock: Block -> nat, depth: nat)
      : seq<Event<S>>
    decreases MAX_ORPHAN_RESOLUTION_DEPTH + 1 - depth, 0, 0
  {
    if b.hash in t.blocks then []
    else if b.header.parentHash !in t.blocks then
      if OrphanCount(t.orphans) >= r.maxOrphans then [] else [Parked(b)]
    else
      match VerifyAt(r, t.blocks[b.header.parentHash], b, clock(b))
      case None => []
      case Some(e) =>
        var t1 := Land(r, t, e, FloorOf(book, t));
        if !RefusedNow(r, t, e, FloorOf(book, t)) && e.Hash() in t1.orphans && depth < MAX_ORPHAN_RESOLUTION_DEPTH then
          [Landed(e), Resolved(e.Hash())] +
          ScriptAll(r, t1.(orphans := t1.orphans - {e.Hash()}), book, t1.orphans[e.Hash()], clock, depth + 1)
        else [Landed(e)]
  }

  ghost function ScriptAll<S>(
    r: Rules<S>, t: Tree<S>, book: Option<Book>, bs: seq<Block>, clock: Block -> nat, depth: nat): seq<Event<S>>
    decreases MAX_ORPHAN_RESOLUTION_DEPTH + 1 - depth, 1, |bs|
  {
    if bs == [] then []
    else
      var (t1, outcome) := Deliver(r, t, book, bs[0], clock, depth);
      Script(r, t, book, bs[0], clock, depth) +
        (if outcome.Failed? then [] else ScriptAll(r, t1, book, bs[1..], clock, depth))
  }

  lemma {:induction false} RunAppend<S(!new)>(r: Rules<S>, n: Node<S>, a: seq<Event<S>>, b: seq<Event<S>>)
    ensures Run(r, n, a + b) == Run(r, Run(r, n, a), b)
    ensures Possible(r, n, a + b) <==> Possible(r, n, a) && Possible(r, Run(r, n, a), b)
    decreases |a|
  {
    if a == [] {
      assert a + b == b;
    } else {
      assert (a + b)[1..] == a[1..] + b;
      RunAppend(r, Next(r, n, a[0]), a[1..], b);
    }
  }

  lemma RunOne<S(!new)>(r: Rules<S>, n: Node<S>, ev: Event<S>, rest: seq<Event<S>>)
    requires Enabled(r, n, ev)
    ensures Run(r, n, [ev] + rest) == Run(r, Next(r, n, ev), rest)
    ensures Possible(r, n, [ev] + rest) <==> Possible(r, Next(r, n, ev), rest)
  {
    assert ([ev] + rest)[1..] == rest;
  }

  /** So all that is proved of histories holds of deliveries, exceptions and orphan recursion included. */
  lemma {:induction false} DeliverIsRun<S(!new)>(
    r: Rules<S>, t: Tree<S>, book: Option<Book>, b: Block, clock: Block -> nat, depth: nat)
    ensures var script := Script(r, t, book, b, clock, depth);
            && Possible(r, Node(t, book), script)
            && Run(r, Node(t, book), script) == Node(Deliver(r, t, book, b, clock, depth).0, book)
    decreases MAX_ORPHAN_RESOLUTION_DEPTH + 1 - depth, 0, 0
  {
    hide Land, FloorOf, RefusedNow, OrphanCount;
    var n := Node(t, book);
    if b.hash in t.blocks {
    } else if b.header.parentHash !in t.blocks {
      if OrphanCount(t.orphans) < r.maxOrphans { RunOne(r, n, Parked(b), []); }
    } else if VerifyAt(r, t.blocks[b.header.parentHash], b, clock(b)).Some? {
      var e := VerifyAt(r, t.blocks[b.header.parentHash], b, clock(b)).value;
      var t1 := Land(r, t, e, FloorOf(book, t));
      var n1 := Node(t1, book);
      assert Enabled(r, n, Landed(e)) && Next(r, n, Landed(e)) == n1;
      if !RefusedNow(r, t, e, FloorOf(book, t)) && e.Hash() in t1.orphans && depth < MAX_ORPHAN_RESOLUTION_DEPTH {
        var t2 := t1.(orphans := t1.orphans - {e.Hash()});
        DeliverAllIsRun(r, t2, book, t1.orphans[e.Hash()], clock, depth + 1);
        var rest := ScriptAll(r, t2, book, t1.orphans[e.Hash()], clock, depth + 1);
        RunOne(r, n1, Resolved(e.Hash()), rest);
        RunOne(r, n, Landed(e), [Resolved(e.Hash())] + rest);
        assert [Landed(e)] + ([Resolved(e.Hash())] + rest) == [Landed(e), Resolved(e.Hash())] + rest;
      } else {
        RunOne(r, n, Landed(e), []);
      }
    }
  }

  lemma {:induction false} DeliverAllIsRun<S(!new)>(
    r: Rules<S>, t: Tree<S>, book: Option<Book>, bs: seq<Block>, clock: Block -> nat, depth: nat)
    ensures var script := ScriptAll(r, t, book, bs, clock, depth);
            && Possible(r, Node(t, book), script)
            && Run(r, Node(t, book), script) == Node(DeliverAll(r, t, book, bs, clock, depth).0, book)
    decreases MAX_ORPHAN_RESOLUTION_DEPTH + 1 - depth, 1, |bs|
  {
    hide Enabled, Next, Deliver, Script;
    if bs != [] {
      var (t1, outcome) := Deliver(r, t, book, bs[0], clock, depth);
      DeliverIsRun(r, t, book, bs[0], clock, depth);
      if !outcome.Failed? {
        DeliverAllIsRun(r, t1, book, bs[1..], clock, depth);
        RunAppend(r, Node(t, book), Script(r, t, book, bs[0], clock, depth),
          ScriptAll(r, t1, book, bs[1..], clock, depth));
      } else {
        RunAppend(r, Node(t, book), Script(r, t, book, bs[0], clock, depth), []);
      }
    }
  }

  /** No history ever has more blocks waiting than the pool may hold. */
  lemma {:induction false} PoolStaysBounded<S(!new)>(r: Rules<S>, n: Node<S>, evs: seq<Event<S>>)
    requires OrphanCount(n.tree.orphans) <= r.maxOrphans && Possible(r, n, evs)
    ensures OrphanCount(Run(r, n, evs).tree.orphans) <= r.maxOrphans
    decreases |evs|
  {
    hide OrphanCount, Next, Enabled;
    if evs != [] {
      StepKeepsPool(r, n, evs[0]);
      PoolStaysBounded(r, Next(r, n, evs[0]), evs[1..]);
    }
  }

  lemma {:induction false} StepKeepsPool<S(!new)>(r: Rules<S>, n: Node<S>, ev: Event<S>)
    requires OrphanCount(n.tree.orphans) <= r.maxOrphans && Enabled(r, n, ev)
    ensures OrphanCount(Next(r, n, ev).tree.orphans) <= r.maxOrphans
  {
    hide OrphanCount, Land, FloorOf, Hold;
    match ev {
      case Parked(b) => HoldAddsOne(n.tree.orphans, b);
      case Landed(e) => LandAddsOne(r, n.tree, e, FloorOf(n.book, n.tree));
      case Resolved(h) => TakingShrinks(n.tree.orphans, h);
      case _ =>
    }
  }

  /** Nor any delivery, wherever it starts from. */
  lemma {:induction false} DeliveryKeepsPool<S(!new)>(
    r: Rules<S>, t: Tree<S>, book: Option<Book>, b: Block, clock: Block -> nat, depth: nat)
    requires OrphanCount(t.orphans) <= r.maxOrphans
    ensures OrphanCount(Deliver(r, t, book, b, clock, depth).0.orphans) <= r.maxOrphans
  {
    hide OrphanCount, Deliver, Script, Possible;
    DeliverIsRun(r, t, book, b, clock, depth);
    PoolStaysBounded(r, Node(t, book), Script(r, t, book, b, clock, depth));
  }

  lemma FloorBelowTip<S(!new)>(r: Rules<S>, t: Tree<S>, book: Option<Book>)
    requires Inv(r, t)
    ensures FloorOf(book, t) < |t.canonical|
  {
  }
}
