/** Catching up from a peer, page by page (src/node.js:570-707, src/rpc.js:1670-1685). */
module Sync {
  import opened Common
  import opened Types
  import opened BlockTree
  import opened ForkChoice
  import opened Anchors
  import opened Process
  import Runs
  import opened ChainModule

  const MAX_BLOCK_RANGE: nat := 512
  const MAX_PAGES: nat := 10_000

  /** One answer of the peer: its blocks from the cursor on, the last height it covers, and whether more remain. */
  datatype Page = Page(blocks: seq<Block>, to: int, truncated: bool)

  /** What a node answers whose canonical chain is `path`. */
  function PageOf<S>(path: seq<Entry<S>>, from: nat): Page
    requires from < |path|
  {
    var to := Min(|path| - 1, from + MAX_BLOCK_RANGE - 1);
    Page(Runs.BlocksOf(path[from..to + 1]), to, to < |path| - 1)
  }

  ghost predicate Honest<S>(page: nat -> Page, peer: seq<Entry<S>>) {
    forall from: nat :: from < |peer| ==> page(from) == PageOf(peer, from)
  }

  /** What waits under a block of the peer is the peer's own next block, pushed early, in any number of copies. */
  ghost predicate WaitsInLine<S>(orphans: Orphans, peer: seq<Entry<S>>, i: nat)
    requires i < |peer|
  {
    forall b <- Waiting(orphans, peer[i].Hash()) :: i + 1 < |peer| && b == peer[i + 1].block
  }

  /** Nothing foreign waits under the peer's blocks, and its clock is not ahead of ours. */
  ghost predicate Clear<S>(t: Tree<S>, peer: seq<Entry<S>>, clock: Block -> nat) {
    && (forall i :: 0 <= i < |peer| ==> WaitsInLine(t.orphans, peer, i))
    && (forall i :: 0 <= i < |peer| ==> peer[i].block.header.timestamp <= clock(peer[i].block) + MAX_FUTURE_DRIFT)
  }

  /** The two chains share `common` blocks: above them ours may be undone, and no anchor binds there. */
  ghost predicate Near<S>(r: Rules<S>, t: Tree<S>, book: Option<Book>, peer: seq<Entry<S>>, common: nat) {
    && 0 < common <= |t.canonical| && common <= |peer| && t.canonical[..common] == peer[..common]
    && |t.canonical| - common <= r.maxReorgDepth
    && FloorOf(book, t) < common
  }

  ghost predicate Converges<S(!new)>(
    r: Rules<S>, t: Tree<S>, book: Option<Book>, peer: seq<Entry<S>>, common: nat, clock: Block -> nat, start: nat)
  {
    && FromGenesis(r, peer) && Near(r, t, book, peer, common) && Clear(t, peer, clock)
    && !t.refusedReorg
    && start <= common
    && |peer| - start <= MAX_PAGES * MAX_BLOCK_RANGE
  }

  /** The peer's first `j` blocks are known, and the rest can still be followed. */
  ghost predicate CaughtUpTo<S(!new)>(
    r: Rules<S>, t: Tree<S>, book: Option<Book>, peer: seq<Entry<S>>, common: nat, clock: Block -> nat, j: nat)
    requires j <= |peer|
  {
    && Inv(r, t) && !t.refusedReorg && Clear(t, peer, clock)
    && AllKnown(t.blocks, peer[..j])
    && (Near(r, t, book, peer, common) || OnPeerChain(t, peer))
  }

  /** Our chain is the peer's, as far as it goes. */
  ghost predicate OnPeerChain<S>(t: Tree<S>, peer: seq<Entry<S>>) {
    exists k :: 0 <= k <= |peer| && t.canonical == peer[..k]
  }

  /** A known block's path from genesis is unique, and it leaves our chain no earlier than the two part. */
  lemma {:induction false} ForkIsHigh<S(!new)>(r: Rules<S>, t: Tree<S>, e: Entry<S>, q: seq<Entry<S>>, k: nat)
    requires StepShape(r) && Core(r, t) && KnownIn(t.blocks, e)
    requires FromGenesis(r, q) && AllKnown(t.blocks, q) && q[|q| - 1] == e
    requires 0 < k <= |q| && k <= |t.canonical| && q[..k] == t.canonical[..k]
    ensures Fork(t, e) >= k - 1
    decreases |q|
  {
    hide BooksAgree, Connected, Linked, StepShape;
    PathHeights(r, q, |q| - 1);
    if !t.IsCanonical(e.Hash()) {
      CommonIsCanonical(t, q, k);
      PathHeights(r, q, |q| - 2);
      PathPrefix(r, q, |q| - 1);
      KnownPrefix(t.blocks, q, |q| - 1);
      FollowsAt(r, q, |q| - 1);
      var p := q[|q| - 2];
      assert KnownIn(t.blocks, q[|q| - 2]);
      assert q[..|q| - 1][..k] == q[..k];
      ForkIsHigh(r, t, p, q[..|q| - 1], k);
    }
  }

  lemma FollowsAt<S(!new)>(r: Rules<S>, path: seq<Entry<S>>, i: nat)
    requires FromGenesis(r, path) && 0 < i < |path|
    ensures Follows(r, path, i)
  {
  }

  /** Where two chains agree, a block of one is canonical in the other. */
  lemma CommonIsCanonical<S>(t: Tree<S>, q: seq<Entry<S>>, k: nat)
    requires 0 < k <= |q| && k <= |t.canonical| && q[..k] == t.canonical[..k]
    requires KnownIn(t.blocks, q[|q| - 1]) && q[|q| - 1].Number() == |q| - 1
    ensures k == |q| ==> t.IsCanonical(q[|q| - 1].Hash())
  {
    if k == |q| { assert q[..k][k - 1] == t.canonical[..k][k - 1]; }
  }

  lemma KnownPrefix<S>(blocks: map<Hash, Entry<S>>, path: seq<Entry<S>>, k: nat)
    requires AllKnown(blocks, path) && k <= |path|
    ensures AllKnown(blocks, path[..k])
  {
    forall i | 0 <= i < k
      ensures KnownIn(blocks, path[..k][i])
    {
      assert KnownIn(blocks, path[i]);
    }
  }

  lemma KnownSnoc<S>(blocks: map<Hash, Entry<S>>, path: seq<Entry<S>>, j: nat)
    requires j < |path| && AllKnown(blocks, path[..j]) && KnownIn(blocks, path[j])
    ensures AllKnown(blocks, path[..j + 1])
  {
    var longer := path[..j + 1];
    forall i | 0 <= i < |longer|
      ensures KnownIn(blocks, longer[i])
    {
      if i < j { assert KnownIn(blocks, path[..j][i]); }
    }
  }

  lemma KnownStays<S>(blocks: map<Hash, Entry<S>>, more: map<Hash, Entry<S>>, path: seq<Entry<S>>)
    requires AllKnown(blocks, path) && forall h <- blocks :: h in more && more[h] == blocks[h]
    ensures AllKnown(more, path)
  {
    forall i | 0 <= i < |path|
      ensures KnownIn(more, path[i])
    {
      assert KnownIn(blocks, path[i]);
    }
  }

  /** The next peer block stands on a known parent; if it is known already it is the very same entry. */
  lemma {:induction false} NextStands<S(!new)>(
    r: Rules<S>, t: Tree<S>, book: Option<Book>, peer: seq<Entry<S>>, common: nat, clock: Block -> nat, j: nat)
    requires Lawful(r) && FromGenesis(r, peer) && 0 < j < |peer|
    requires CaughtUpTo(r, t, book, peer, common, clock, j)
    ensures Lands(r, t, peer[j]) && peer[j - 1].td < peer[j].td && peer[j].block.hash == peer[j].Hash()
    ensures peer[j].Hash() in t.blocks ==> t.blocks[peer[j].Hash()] == peer[j]
  {
    hide BooksAgree, Linked, SpendOnce, Connected, Clear, Near, StepShape;
    PathHeights(r, peer, j);
    FollowsAt(r, peer, j);
    assert KnownIn(t.blocks, peer[..j][j - 1]);
    if peer[j].Hash() in t.blocks { SameHashSameEntry(r, t, peer[j]); }
  }

  /** A peer block known already moves nothing. */
  lemma {:induction false} KnownBlockPasses<S(!new)>(
    r: Rules<S>, t: Tree<S>, book: Option<Book>, peer: seq<Entry<S>>, common: nat, clock: Block -> nat, j: nat)
    requires Lawful(r) && FromGenesis(r, peer) && j < |peer|
    requires CaughtUpTo(r, t, book, peer, common, clock, j)
    requires j == 0 ==> Near(r, t, book, peer, common)
    requires j == 0 || peer[j].Hash() in t.blocks
    ensures CaughtUpTo(r, t, book, peer, common, clock, j + 1)
  {
    hide BooksAgree, Linked, Connected, Clear, FloorOf, Lawful, OnPeerChain;
    if j == 0 {
      assert KnownIn(t.blocks, t.canonical[0]);
      SameBelow(t.canonical, peer, common);
    } else {
      NextStands(r, t, book, peer, common, clock, j);
    }
    KnownSnoc(t.blocks, peer, j);
  }

  /** The path to a known block is the only one there is. */
  lemma {:induction false} PathIsUnique<S(!new)>(r: Rules<S>, t: Tree<S>, e: Entry<S>, q: seq<Entry<S>>)
    requires StepShape(r) && Core(r, t) && KnownIn(t.blocks, e)
    requires FromGenesis(r, q) && AllKnown(t.blocks, q) && q[|q| - 1] == e
    ensures PathTo(t, e) == q
  {
    hide BooksAgree, Connected, Linked, StepShape, AllKnown, Branch;
    PathToShape(r, t, e);
    var path := PathTo(t, e);
    forall i | 0 <= i < |path|
      ensures |path| == |q| && path[i] == q[i]
    {
      Runs.PathDetermined(r, t.blocks, path, q, i);
    }
  }

  /** A block that extends the head is never refused and becomes the head. */
  lemma {:induction false} TipExtensionIsAdopted<S(!new)>(r: Rules<S>, t: Tree<S>, book: Option<Book>, e: Entry<S>)
    requires Lawful(r) && Inv(r, t) && Lands(r, t, e) && e.Hash() !in t.blocks
    requires e.Parent() == t.Head().Hash() && t.Head().td < e.td
    ensures !RefusedNow(r, t, e, FloorOf(book, t))
    ensures Land(r, t, e, FloorOf(book, t)).canonical == t.canonical + [e]
  {
    hide BooksAgree, Linked, Connected, AllKnown, FloorOf, SpendOnce, StepShape, Branch, NewIndex, NewMempool,
         ReceiptsFor;
    var t1, q := Insert(t, e), t.canonical + [e];
    Runs.FloorBelowTip(r, t, book);
    HeadIsKnown(r, t);
    InsertKeepsCore(r, t, e);
    PathExtends(r, t.canonical, e);
    KnownStays(t.blocks, t1.blocks, t.canonical);
    assert q[..|t.canonical|] == t.canonical && q[|t.canonical|] == e;
    assert q[..|t.canonical| + 1] == q;
    KnownSnoc(t1.blocks, q, |t.canonical|);
    PathIsUnique(r, t1, e, q);
    assert t.canonical[..|t.canonical|] == t.canonical;
    ForkIsHigh(r, t1, e, q, |t.canonical|);
  }

  lemma HeadIsKnown<S(!new)>(r: Rules<S>, t: Tree<S>)
    requires Core(r, t)
    ensures t.Head().Hash() in t.blocks && t.blocks[t.Head().Hash()] == t.Head()
  {
    assert KnownIn(t.blocks, t.canonical[|t.canonical| - 1]);
  }

  /** Once inserted, the next peer block ends the peer's own path, and that path leaves our chain where allowed. */
  lemma {:induction false} InsertedPath<S(!new)>(
    r: Rules<S>, t: Tree<S>, book: Option<Book>, peer: seq<Entry<S>>, common: nat, clock: Block -> nat, j: nat)
    requires Lawful(r) && FromGenesis(r, peer) && 0 < j < |peer|
    requires CaughtUpTo(r, t, book, peer, common, clock, j) && peer[j].Hash() !in t.blocks
    ensures var t1 := Insert(t, peer[j]);
            && Core(r, t1) && KnownIn(t1.blocks, peer[j]) && AllKnown(t1.blocks, peer[..j + 1])
            && PathTo(t1, peer[j]) == peer[..j + 1]
            && (forall k :: 0 < k <= j + 1 && k <= |t.canonical| && peer[..k] == t.canonical[..k] ==>
               Fork(t1, peer[j]) >= k - 1)
  {
    hide BooksAgree, Linked, Connected, AllKnown, FloorOf, SpendOnce, Branch, Clear, Near;
    var e := peer[j];
    var t1 := Insert(t, e);
    NextStands(r, t, book, peer, common, clock, j);
    InsertKeepsCore(r, t, e);
    KnownStays(t.blocks, t1.blocks, peer[..j]);
    KnownSnoc(t1.blocks, peer, j);
    PathPrefix(r, peer, j + 1);
    PathIsUnique(r, t1, e, peer[..j + 1]);
    forall k | 0 < k <= j + 1 && k <= |t.canonical| && peer[..k] == t.canonical[..k]
      ensures Fork(t1, e) >= k - 1
    {
      assert peer[..j + 1][..k] == peer[..k];
      ForkIsHigh(r, t1, e, peer[..j + 1], k);
    }
  }

  lemma SameBelow<T>(a: seq<T>, b: seq<T>, k: nat)
    requires k <= |a| && k <= |b| && a[..k] == b[..k]
    ensures forall i :: 0 <= i < k ==> a[i] == b[i]
  {
    forall i | 0 <= i < k
      ensures a[i] == b[i]
    {
      assert a[..k][i] == b[..k][i];
    }
  }

  /** While the chains are near, a peer block not known yet stands above what they share. */
  lemma NewIsAboveCommon<S(!new)>(r: Rules<S>, t: Tree<S>, book: Option<Book>, peer: seq<Entry<S>>, common: nat, j: nat)
    requires Near(r, t, book, peer, common) && AllKnown(t.blocks, t.canonical)
    requires j < |peer| && peer[j].Hash() !in t.blocks
    ensures common <= j
  {
    assert j < |t.canonical| ==> KnownIn(t.blocks, t.canonical[j]);
    SameBelow(t.canonical, peer, common);
  }

  /** Work grows along a path. */
  lemma {:induction false} WorkGrows<S(!new)>(r: Rules<S>, path: seq<Entry<S>>, i: nat, j: nat)
    requires StepShape(r) && FromGenesis(r, path) && i < j < |path|
    ensures path[i].td < path[j].td
  {
    hide StepShape, Linked;
    PathHeights(r, path, j);
    if i < j - 1 { WorkGrows(r, path, i, j - 1); }
  }

  /** On the peer's chain and one block short, our tip is the block before: were it lower, a heavier one would be
      known. */
  lemma {:induction false} TipIsBefore<S(!new)>(
    r: Rules<S>, t: Tree<S>, book: Option<Book>, peer: seq<Entry<S>>, common: nat, clock: Block -> nat, j: nat)
    requires Lawful(r) && FromGenesis(r, peer) && 0 < j < |peer|
    requires CaughtUpTo(r, t, book, peer, common, clock, j) && peer[j].Hash() !in t.blocks
    ensures Near(r, t, book, peer, common) || t.canonical == peer[..j]
  {
    hide BooksAgree, Linked, Connected, FloorOf, StepShape, SpendOnce, Clear, Near;
    if k :| 0 <= k <= |peer| && t.canonical == peer[..k] {
      if j < k {
        assert KnownIn(t.blocks, t.canonical[j]);
      } else if k < j {
        assert KnownIn(t.blocks, peer[..j][j - 1]);
        assert t.canonical[|t.canonical| - 1] == peer[k - 1];
        if k - 1 < j - 1 { WorkGrows(r, peer, k - 1, j - 1); }
      }
    }
  }

  /** The peer's next block is never refused. */
  lemma {:induction false} NextIsNotRefused<S(!new)>(
    r: Rules<S>, t: Tree<S>, book: Option<Book>, peer: seq<Entry<S>>, common: nat, clock: Block -> nat, j: nat)
    requires Lawful(r) && FromGenesis(r, peer) && 0 < j < |peer|
    requires CaughtUpTo(r, t, book, peer, common, clock, j) && peer[j].Hash() !in t.blocks
    ensures !Refuses(r, t, Fork(Insert(t, peer[j]), peer[j]), FloorOf(book, t))
  {
    hide BooksAgree, Linked, Connected, AllKnown, FloorOf, Lawful, Branch, Clear, Fork, OnPeerChain;
    InsertedPath(r, t, book, peer, common, clock, j);
    TipIsBefore(r, t, book, peer, common, clock, j);
    Runs.FloorBelowTip(r, t, book);
    if t.canonical == peer[..j] {
      assert t.canonical[..j] == peer[..j];
    } else {
      NewIsAboveCommon(r, t, book, peer, common, j);
    }
  }

  /** A new peer block lands without refusal, and the rest of the peer's chain stays within reach. */
  lemma {:induction false} NewBlockLands<S(!new)>(
    r: Rules<S>, t: Tree<S>, book: Option<Book>, peer: seq<Entry<S>>, common: nat, clock: Block -> nat, j: nat)
    requires Lawful(r) && FromGenesis(r, peer) && 0 < j < |peer|
    requires CaughtUpTo(r, t, book, peer, common, clock, j) && peer[j].Hash() !in t.blocks
    ensures !RefusedNow(r, t, peer[j], FloorOf(book, t))
    ensures CaughtUpTo(r, Land(r, t, peer[j], FloorOf(book, t)), book, peer, common, clock, j + 1)
    ensures Land(r, t, peer[j], FloorOf(book, t)).orphans == t.orphans
  {
    hide BooksAgree, Linked, Connected, AllKnown, FloorOf, Lawful, Branch, Fork, PathTo, NewIndex, NewMempool,
         ReceiptsFor, Core;
    var e, f := peer[j], FloorOf(book, t);
    NextStands(r, t, book, peer, common, clock, j);
    Runs.FloorBelowTip(r, t, book);
    InsertedPath(r, t, book, peer, common, clock, j);
    NextIsNotRefused(r, t, book, peer, common, clock, j);
    LandKeepsInv(r, t, e, f);
    assert peer[..j][j - 1] == peer[j - 1];
    SameChainSameFloor(book, t, Land(r, t, e, f));
  }

  lemma SameChainSameFloor<S>(book: Option<Book>, t: Tree<S>, t': Tree<S>)
    ensures t.canonical == t'.canonical ==> FloorOf(book, t) == FloorOf(book, t')
  {
  }

  /** No hash stands twice on a path. */
  lemma {:induction false} PathHashesDiffer<S(!new)>(r: Rules<S>, path: seq<Entry<S>>, i: nat, k: nat)
    requires StepShape(r) && FromGenesis(r, path) && i < k < |path|
    ensures path[i].Hash() != path[k].Hash()
  {
    PathHeights(r, path, i);
    PathHeights(r, path, k);
    FollowsAt(r, path, k);
    if i > 0 { FollowsAt(r, path, i); }
  }

  /** The peer's own block, pushed before its parent is here, waits without standing in the way of a catch-up. */
  lemma {:induction false} PushedBlockWaitsInLine<S(!new)>(
    r: Rules<S>, t: Tree<S>, peer: seq<Entry<S>>, clock: Block -> nat, j: nat)
    requires Lawful(r) && FromGenesis(r, peer) && Clear(t, peer, clock) && 0 < j < |peer|
    ensures Clear(t.(orphans := Hold(t.orphans, peer[j].block)), peer, clock)
  {
    hide SpendOnce, StepShape, Linked;
    var b, held := peer[j].block, Hold(t.orphans, peer[j].block);
    FollowsAt(r, peer, j);
    forall i | 0 <= i < |peer|
      ensures WaitsInLine(held, peer, i)
    {
      assert WaitsInLine(t.orphans, peer, i);
      if i != j - 1 {
        PathHashesDiffer(r, peer, if i < j - 1 then i else j - 1, if i < j - 1 then j - 1 else i);
        assert Waiting(held, peer[i].Hash()) == Waiting(t.orphans, peer[i].Hash());
      } else {
        assert Waiting(held, peer[i].Hash()) == Waiting(t.orphans, peer[i].Hash()) + [b];
      }
    }
  }

  /** Taking waiting blocks out of the pool leaves a catch-up where it was. */
  lemma {:induction false} PoolShrinks<S(!new)>(
    r: Rules<S>, t: Tree<S>, book: Option<Book>, peer: seq<Entry<S>>, common: nat, clock: Block -> nat, j: nat, h: Hash)
    requires j <= |peer| && CaughtUpTo(r, t, book, peer, common, clock, j)
    ensures CaughtUpTo(r, t.(orphans := t.orphans - {h}), book, peer, common, clock, j)
  {
    hide Inv, AllKnown, Hold, OnPeerChain;
    var t' := t.(orphans := t.orphans - {h});
    EvolvedSame(r, t, book, -1, t'.orphans);
    SameChainSameFloor(book, t, t');
    StillInLine(t.orphans, peer, h);
    if OnPeerChain(t, peer) { SameChainOnPeer(t, t', peer); }
  }

  lemma StillInLine<S>(orphans: Orphans, peer: seq<Entry<S>>, h: Hash)
    requires forall i :: 0 <= i < |peer| ==> WaitsInLine(orphans, peer, i)
    ensures forall i :: 0 <= i < |peer| ==> WaitsInLine(orphans - {h}, peer, i)
  {
    forall i | 0 <= i < |peer|
      ensures WaitsInLine(orphans - {h}, peer, i)
    {
      var here := peer[i].Hash();
      assert WaitsInLine(orphans, peer, i);
      assert Waiting(orphans - {h}, here) == if here == h then [] else Waiting(orphans, here);
    }
  }

  lemma SameChainOnPeer<S>(t: Tree<S>, t': Tree<S>, peer: seq<Entry<S>>)
    requires OnPeerChain(t, peer) && t'.canonical == t.canonical
    ensures OnPeerChain(t', peer)
  {
  }

  /**
   * Delivering the peer's next block: taken in, with its copies and successors that were already waiting, and
   * the catch-up is one further.
   */
  lemma {:induction false} NextDelivered<S(!new)>(
    r: Rules<S>, t: Tree<S>, book: Option<Book>, peer: seq<Entry<S>>, common: nat, clock: Block -> nat, j: nat,
    depth: nat)
    requires Lawful(r) && FromGenesis(r, peer) && 0 < j < |peer|
    requires CaughtUpTo(r, t, book, peer, common, clock, j)
    ensures var (t', outcome) := Deliver(r, t, book, peer[j].block, clock, depth);
            && CaughtUpTo(r, t', book, peer, common, clock, j + 1)
            && (if peer[j].Hash() in t.blocks then outcome.AlreadyKnown? else outcome.Accepted?)
    decreases MAX_ORPHAN_RESOLUTION_DEPTH + 1 - depth, 0, 0
  {
    hide BooksAgree, Linked, Connected, AllKnown, FloorOf, Lawful, Land, RefusedNow, Near, Inv, OnPeerChain;
    NextStands(r, t, book, peer, common, clock, j);
    if peer[j].Hash() in t.blocks {
      KnownBlockPasses(r, t, book, peer, common, clock, j);
    } else {
      NewBlockLands(r, t, book, peer, common, clock, j);
      var t1, h := Land(r, t, peer[j], FloorOf(book, t)), peer[j].Hash();
      if h in t1.orphans && depth < MAX_ORPHAN_RESOLUTION_DEPTH {
        PoolShrinks(r, t1, book, peer, common, clock, j + 1, h);
        assert WaitsInLine(t1.orphans, peer, j) && Waiting(t1.orphans, h) == t1.orphans[h];
        LineDelivered(r, t1.(orphans := t1.orphans - {h}), book, peer, common, clock, j + 1, t1.orphans[h], depth + 1);
      }
    }
  }

  /** Copies of one peer block in a row: the first lands, the others are known. */
  lemma {:induction false} LineDelivered<S(!new)>(
    r: Rules<S>, t: Tree<S>, book: Option<Book>, peer: seq<Entry<S>>, common: nat, clock: Block -> nat, j: nat,
    bs: seq<Block>, depth: nat)
    requires Lawful(r) && FromGenesis(r, peer) && 0 < j <= |peer|
    requires CaughtUpTo(r, t, book, peer, common, clock, j)
    requires forall b <- bs :: j < |peer| && b == peer[j].block
    ensures var (t', ok) := DeliverAll(r, t, book, bs, clock, depth);
            ok && CaughtUpTo(r, t', book, peer, common, clock, j)
    decreases MAX_ORPHAN_RESOLUTION_DEPTH + 1 - depth, 1, |bs|
  {
    hide Lawful, Inv, Deliver, CaughtUpTo;
    if bs != [] {
      assert bs[0] in bs;
      NextDelivered(r, t, book, peer, common, clock, j, depth);
      var t1 := Deliver(r, t, book, bs[0], clock, depth).0;
      OneLess(r, t1, book, peer, common, clock, j);
      assert forall b <- bs[1..] :: b in bs;
      LineDelivered(r, t1, book, peer, common, clock, j, bs[1..], depth);
    }
  }

  lemma OneLess<S(!new)>(
    r: Rules<S>, t: Tree<S>, book: Option<Book>, peer: seq<Entry<S>>, common: nat, clock: Block -> nat, j: nat)
    requires j < |peer| && CaughtUpTo(r, t, book, peer, common, clock, j + 1)
    ensures CaughtUpTo(r, t, book, peer, common, clock, j)
  {
    assert peer[..j + 1][..j] == peer[..j];
    KnownPrefix(t.blocks, peer[..j + 1], j);
  }

  // ------------------------------------------------------------- the loop

  /** The heights a sync starts from: a window below the tip, or genesis on the retry. */
  function StartOf<S>(t: Tree<S>, window: nat, deep: bool): nat {
    if deep then 0 else Max(0, |t.canonical| - 1 - window)
  }

  /** A page of an honest peer, block by block. */
  lemma HonestPage<S>(page: nat -> Page, peer: seq<Entry<S>>, cursor: nat)
    requires Honest(page, peer) && cursor < |peer|
    ensures var p := page(cursor);
            && p.to == Min(|peer| - 1, cursor + MAX_BLOCK_RANGE - 1) && p.truncated == (p.to < |peer| - 1)
            && |p.blocks| == p.to + 1 - cursor > 0
            && forall i :: 0 <= i < |p.blocks| ==> p.blocks[i] == peer[cursor + i].block
  {
    assert page(cursor) == PageOf(peer, cursor);
  }

  lemma Unmoved<S(!new)>(r: Rules<S>, t: Tree<S>, book: Option<Book>)
    requires Inv(r, t)
    ensures Evolved(r, t, t, -1) && -1 <= FloorOf(book, t)
  {
    assert t.(orphans := t.orphans) == t;
    EvolvedSame(r, t, book, -1, t.orphans);
  }

  /** Genesis and known blocks are passed over, anything else is delivered: either way one block further. */
  lemma {:induction false} GoodBlock<S(!new)>(
    r: Rules<S>, t: Tree<S>, book: Option<Book>, peer: seq<Entry<S>>, common: nat, clock: Block -> nat, j: nat)
    requires Lawful(r) && FromGenesis(r, peer) && j < |peer|
    requires CaughtUpTo(r, t, book, peer, common, clock, j) && (j == 0 ==> Near(r, t, book, peer, common))
    ensures peer[j].block.header.number == j
    ensures if j == 0 || peer[j].block.hash in t.blocks then CaughtUpTo(r, t, book, peer, common, clock, j + 1)
            else var (t', outcome) := Deliver(r, t, book, peer[j].block, clock, 0);
                 outcome.Accepted? && CaughtUpTo(r, t', book, peer, common, clock, j + 1)
  {
    hide SpendOnce, StepShape, Deliver, CaughtUpTo, Near, Linked;
    PathHeights(r, peer, j);
    if j == 0 || peer[j].block.hash in t.blocks {
      KnownBlockPasses(r, t, book, peer, common, clock, j);
    } else {
      NextDelivered(r, t, book, peer, common, clock, j, 0);
    }
  }

  /** What a delivery answers tells whether it added its block: accepted adds it, held or turned away adds nothing. */
  lemma {:induction false} AnswerTells<S(!new)>(
    r: Rules<S>, t: Tree<S>, book: Option<Book>, b: Block, clock: Block -> nat)
    requires Lawful(r) && Inv(r, t)
    ensures var (t', outcome) := Deliver(r, t, book, b, clock, 0);
            && (outcome.Accepted? ==> b.hash !in t.blocks && b.hash in t'.blocks)
            && (!outcome.Accepted? && !outcome.Failed? ==> t'.blocks == t.blocks)
            && t.blocks.Keys <= t'.blocks.Keys
  {
    hide Lawful, Inv, FloorOf, Land, RefusedNow, Resolved;
    assert -1 <= FloorOf(book, t);
    DeliverEvolves(r, t, book, b, clock, 0, -1);
  }

  /** With nothing waiting an accepted block is the only one added. */
  lemma {:induction false} AddsOne<S(!new)>(r: Rules<S>, t: Tree<S>, book: Option<Book>, b: Block, clock: Block -> nat)
    requires t.orphans == map[] && Deliver(r, t, book, b, clock, 0).1.Accepted?
    ensures var t' := Deliver(r, t, book, b, clock, 0).0;
            t'.orphans == map[] && t'.blocks.Keys == t.blocks.Keys + {b.hash}
  {
    hide FloorOf, Land, RefusedNow;
    if b.hash !in t.blocks && b.header.parentHash in t.blocks {
      LandAddsOne(r, t, VerifyAt(r, t.blocks[b.header.parentHash], b, clock(b)).value, FloorOf(book, t));
    }
  }

  lemma KeysGrow<K, V>(m: map<K, V>, more: map<K, V>, k: K)
    requires m.Keys <= more.Keys && k !in m && k in more
    ensures |more| > |m|
    ensures more.Keys == m.Keys + {k} ==> |more| == |m| + 1
  {
    assert |m.Keys + {k}| == |m.Keys| + 1 && m.Keys + {k} <= more.Keys;
    SubsetIsSmaller(m.Keys + {k}, more.Keys);
    assert |more| == |more.Keys| && |m| == |m.Keys|;
  }

  lemma {:induction false} SubsetIsSmaller<K>(a: set<K>, b: set<K>)
    requires a <= b
    ensures |a| <= |b|
    decreases |a|
  {
    if a != {} {
      var x := Pick(a);
      SubsetIsSmaller(a - {x}, b - {x});
    }
  }

  /** How many blocks were added, as far as the count of accepted ones tells. */
  ghost predicate Counted<S>(before: map<Hash, Entry<S>>, after: map<Hash, Entry<S>>, accepted: nat) {
    |after| >= |before| + accepted && (accepted == 0 ==> after == before)
  }

  // ------------------------------------------------------------- a start above the fork

  /** No block of the peer from just below the start on is known, and nothing has happened but to the pool. */
  ghost predicate Stranded<S>(t0: Tree<S>, t: Tree<S>, peer: seq<Entry<S>>, clock: Block -> nat, start: nat) {
    && t == t0.(orphans := t.orphans) && Clear(t, peer, clock) && 0 < start <= |peer|
    && forall k :: start - 1 <= k < |peer| ==> peer[k].Hash() !in t.blocks
  }

  /** Then the peer's blocks can only be parked, or turned away where the pool is full. */
  lemma {:induction false} LostBlock<S(!new)>(
    r: Rules<S>, t0: Tree<S>, t: Tree<S>, book: Option<Book>, peer: seq<Entry<S>>, clock: Block -> nat, start: nat,
    j: nat)
    requires Lawful(r) && FromGenesis(r, peer) && Stranded(t0, t, peer, clock, start) && start <= j < |peer|
    ensures peer[j].block.header.number == j > 0 && peer[j].block.hash !in t.blocks
    ensures var (t', outcome) := Deliver(r, t, book, peer[j].block, clock, 0);
            && !outcome.Failed? && !outcome.Accepted? && Stranded(t0, t', peer, clock, start)
  {
    hide Lawful, Linked, Clear, OrphanCount, Hold, FloorOf, Land;
    LinkedAt(r, peer, j);
    PushedBlockWaitsInLine(r, t, peer, clock, j);
  }

  lemma {:induction false} LinkedAt<S(!new)>(r: Rules<S>, peer: seq<Entry<S>>, j: nat)
    requires Lawful(r) && FromGenesis(r, peer) && 0 < j < |peer|
    ensures peer[j].block.header.number == j && peer[j].block.header.parentHash == peer[j - 1].Hash()
  {
    hide SpendOnce;
    PathHeights(r, peer, j);
    FollowsAt(r, peer, j);
  }

  /** A block of the peer that is known brings all below it: the tree has no gaps. */
  lemma {:induction false} KnownBelow<S(!new)>(r: Rules<S>, blocks: map<Hash, Entry<S>>, peer: seq<Entry<S>>, j: nat)
    requires StepShape(r) && Connected(r, blocks) && FromGenesis(r, peer) && j < |peer| && peer[j].Hash() in blocks
    ensures AllKnown(blocks, peer[..j + 1])
  {
    hide Linked;
    assert Rooted(r, blocks, peer[j].Hash());
    if j > 0 {
      FollowsAt(r, peer, j);
      PathHeights(r, peer, j);
      assert blocks[peer[j].Hash()].block == peer[j].block;
      KnownBelow(r, blocks, peer, j - 1);
      assert KnownIn(blocks, peer[..j][j - 1]);
    } else {
      assert Rooted(r, blocks, r.genesis.Hash());
      assert peer[..0] == [];
    }
    KnownSnoc(blocks, peer, j);
  }

  /** From any start a sync is on the way, or has nothing to stand on. */
  lemma {:induction false} StartsSomewhere<S(!new)>(
    r: Rules<S>, t: Tree<S>, book: Option<Book>, peer: seq<Entry<S>>, common: nat, clock: Block -> nat, start: nat)
    requires Lawful(r) && Inv(r, t) && Converges(r, t, book, peer, common, clock, 0) && start <= |peer|
    ensures Starts(r, t, book, peer, common, clock, start) || Stranded(t, t, peer, clock, start)
  {
    hide SpendOnce, StepShape, BooksAgree, Connected, Linked, FloorOf, Clear, AllKnown, Near;
    if start == 0 {
      NoneKnown(t.blocks, peer);
    } else if k :| start - 1 <= k < |peer| && peer[k].Hash() in t.blocks {
      KnownBelow(r, t.blocks, peer, k);
      assert peer[..k + 1][..start] == peer[..start];
      KnownPrefix(t.blocks, peer[..k + 1], start);
    }
  }

  lemma NoneKnown<S>(blocks: map<Hash, Entry<S>>, peer: seq<Entry<S>>)
    ensures AllKnown(blocks, peer[..0])
  {
  }

  /** A sync under way: all below its start is known, and its pages reach to the end. */
  ghost predicate Starts<S(!new)>(
    r: Rules<S>, t: Tree<S>, book: Option<Book>, peer: seq<Entry<S>>, common: nat, clock: Block -> nat, start: nat)
  {
    && FromGenesis(r, peer) && start <= |peer| && (start == 0 ==> Near(r, t, book, peer, common))
    && CaughtUpTo(r, t, book, peer, common, clock, start) && |peer| - start <= MAX_PAGES * MAX_BLOCK_RANGE
  }

  // ------------------------------------------------------------- the methods

  /** What a proof knows of a walk through a peer's chain; the methods never look at it. */
  datatype Walk<S> = Walk(
    peer: seq<Entry<S>>, common: nat, clock: Block -> nat, book: Option<Book>, t0: Tree<S>, start: nat,
    good: bool, known: bool, lost: bool)
  {
    /** The peer is honest, and something is promised of it. */
    predicate Honest() { good || known || lost }
  }

  /** Before the peer's block `j`: all below it is known, or nothing there is and nothing can land. */
  ghost predicate Before<S(!new)>(r: Rules<S>, w: Walk<S>, t: Tree<S>, j: nat) {
    && (w.good ==>
          && FromGenesis(r, w.peer) && j <= |w.peer| && (j == 0 ==> Near(r, t, w.book, w.peer, w.common))
          && CaughtUpTo(r, t, w.book, w.peer, w.common, w.clock, j))
    && (w.lost ==> FromGenesis(r, w.peer) && w.start <= j <= |w.peer| && Stranded(w.t0, t, w.peer, w.clock, w.start))
  }

  /** What a part of the walk that did not throw has done, with the count it gives of accepted blocks. */
  ghost predicate Walked<S>(w: Walk<S>, t: Tree<S>, t': Tree<S>, accepted: nat) {
    && Counted(t.blocks, t'.blocks, accepted)
    && (w.known || (w.good && accepted == 0) ==> accepted == 0 && t' == t)
    && (w.good && t.orphans == map[] ==> t'.orphans == map[] && |t'.blocks| == |t.blocks| + accepted)
    && (w.lost ==> accepted == 0)
  }

  lemma WalkedOn<S>(w: Walk<S>, t: Tree<S>, t1: Tree<S>, t2: Tree<S>, a: nat, b: nat)
    requires Walked(w, t, t1, a) && Walked(w, t1, t2, b)
    ensures Walked(w, t, t2, a + b)
  {
  }

  lemma WalkedNowhere<S>(w: Walk<S>, t: Tree<S>)
    ensures Walked(w, t, t, 0)
  {
  }

  /** A part of the walk: it only gained, did not throw where something is promised, and if it did not it is at `at`. */
  ghost predicate Strode<S(!new)>(
    r: Rules<S>, w: Walk<S>, t: Tree<S>, t': Tree<S>, ok: bool, accepted: nat, at: nat)
  {
    && Evolved(r, t, t', -1) && (w.Honest() ==> ok)
    && (ok ==> Walked(w, t, t', accepted) && Before(r, w, t', at))
  }

  lemma {:induction false} StandsStill<S(!new)>(r: Rules<S>, w: Walk<S>, t: Tree<S>, at: nat)
    requires Inv(r, t) && Before(r, w, t, at)
    ensures Strode(r, w, t, t, true, 0, at)
  {
    hide Inv, Evolved, Walked, Before;
    Unmoved(r, t, None);
    WalkedNowhere(w, t);
  }

  lemma {:induction false} StridesOn<S(!new)>(
    r: Rules<S>, w: Walk<S>, t: Tree<S>, t1: Tree<S>, t2: Tree<S>, ok: bool, a: nat, b: nat, at: nat, next: nat)
    requires Strode(r, w, t, t1, true, a, at) && Strode(r, w, t1, t2, ok, b, next)
    ensures Strode(r, w, t, t2, ok, a + b, next)
  {
    hide Evolved, Walked, Before;
    EvolvedChain(r, t, t1, t2);
    if ok { WalkedOn(w, t, t1, t2, a, b); }
  }

  lemma {:induction false} StrodeTells<S(!new)>(
    r: Rules<S>, w: Walk<S>, t: Tree<S>, t': Tree<S>, ok: bool, accepted: nat, at: nat)
    requires Strode(r, w, t, t', ok, accepted, at)
    ensures Evolved(r, t, t', -1) && (w.Honest() ==> ok)
    ensures ok ==> Walked(w, t, t', accepted) && Before(r, w, t', at) && (w.known ==> t' == t)
    ensures ok && (w.good || w.lost) ==> at <= |w.peer|
  {
    hide Evolved;
  }

  /** One block of the walk, as the tree of values has it. */
  lemma {:induction false} WalkOne<S(!new)>(r: Rules<S>, w: Walk<S>, t: Tree<S>, b: Block, j: nat)
    requires Lawful(r) && Inv(r, t) && Before(r, w, t, j)
    requires w.good || w.lost ==> j < |w.peer| && b == w.peer[j].block
    requires w.known ==> b.hash in t.blocks
    ensures var skipped := b.header.number == 0 || b.hash in t.blocks;
            var (t', outcome) := Deliver(r, t, w.book, b, w.clock, 0);
            && (skipped ==> Walked(w, t, t, 0) && Before(r, w, t, j + 1))
            && (!skipped && w.Honest() ==> !outcome.Failed?)
            && (!skipped && !outcome.Failed? ==>
                  Walked(w, t, t', if outcome.Accepted? then 1 else 0) && Before(r, w, t', j + 1))
  {
    hide Lawful, Inv, Deliver, CaughtUpTo, Near, FloorOf, Evolved, Stranded, FromGenesis;
    WalkedNowhere(w, t);
    if w.good { GoodBlock(r, t, w.book, w.peer, w.common, w.clock, j); }
    if w.lost { LostBlock(r, w.t0, t, w.book, w.peer, w.clock, w.start, j); }
    AnswerCounts(r, t, w.book, b, w.clock);
    hide Counted;
  }

  /** A delivery that does not throw is counted as what it adds. */
  lemma {:induction false} AnswerCounts<S(!new)>(
    r: Rules<S>, t: Tree<S>, book: Option<Book>, b: Block, clock: Block -> nat)
    requires Lawful(r) && Inv(r, t)
    ensures var (t', outcome) := Deliver(r, t, book, b, clock, 0);
            var added := if outcome.Accepted? then 1 else 0;
            && (!outcome.Failed? ==> Counted(t.blocks, t'.blocks, added))
            && (outcome.Accepted? && t.orphans == map[] ==>
                  t'.orphans == map[] && |t'.blocks| == |t.blocks| + added)
  {
    hide Lawful, Inv, Deliver;
    var (t', outcome) := Deliver(r, t, book, b, clock, 0);
    AnswerTells(r, t, book, b, clock);
    if outcome.Accepted? {
      if t.orphans == map[] { AddsOne(r, t, book, b, clock); }
      KeysGrow(t.blocks, t'.blocks, b.hash);
    }
  }

  /** One block of a page, as syncFrom treats it. */
  method TakeBlock<S(!new)>(chain: Chain<S>, b: Block, clock: Block -> nat, ghost w: Walk<S>, ghost j: nat)
    returns (ok: bool, accepted: bool)
    requires chain.Valid() && w.clock == clock && w.book == chain.AnchorBook()
    requires Before(chain.rules, w, chain.Contents(), j)
    requires w.good || w.lost ==> j < |w.peer| && b == w.peer[j].block
    requires w.known ==> b.hash in chain.byHash
    modifies chain
    ensures chain.Valid() && chain.AnchorBook() == old(chain.AnchorBook())
    ensures b.hash in old(chain.byHash) ==> ok && !accepted && chain.Contents() == old(chain.Contents())
    ensures Strode(chain.rules, w, old(chain.Contents()), chain.Contents(), ok, if accepted then 1 else 0, j + 1)
  {
    hide Lawful, Inv, Deliver, FloorOf, Evolved, Before, Walked;
    ghost var t, book := chain.Contents(), chain.AnchorBook();
    Unmoved(chain.rules, t, book);
    WalkOne(chain.rules, w, t, b, j);
    if b.header.number == 0 {
      return true, false;
    }
    if b.hash in chain.byHash {
      return true, false;
    }
    DeliverEvolves(chain.rules, t, book, b, clock, 0, -1);
    var outcome := chain.ProcessBlock(b, clock, 0);
    return !outcome.Failed?, outcome.Accepted?;
  }

  lemma EvolvedChain<S(!new)>(r: Rules<S>, t: Tree<S>, t1: Tree<S>, t2: Tree<S>)
    requires Evolved(r, t, t1, -1) && Evolved(r, t1, t2, -1)
    ensures Evolved(r, t, t2, -1)
  {
  }

  /** A stretch of the peer's chain, known already where it is known to be. */
  ghost predicate IsStretch<S>(blocks: seq<Block>, w: Walk<S>, known: map<Hash, Entry<S>>, cursor: nat) {
    && (w.good || w.lost ==>
          && cursor + |blocks| <= |w.peer|
          && forall i :: 0 <= i < |blocks| ==> blocks[i] == w.peer[cursor + i].block)
    && (w.known ==> forall i :: 0 <= i < |blocks| ==> blocks[i].hash in known)
  }

  lemma StretchAt<S>(blocks: seq<Block>, w: Walk<S>, known: map<Hash, Entry<S>>, cursor: nat, i: nat)
    requires IsStretch(blocks, w, known, cursor) && i < |blocks|
    ensures w.good || w.lost ==> cursor + i < |w.peer| && blocks[i] == w.peer[cursor + i].block
    ensures w.known ==> blocks[i].hash in known
  {
  }

  /** The blocks of one page, in order; an exception ends the sync. */
  method TakePage<S(!new)>(chain: Chain<S>, blocks: seq<Block>, clock: Block -> nat, ghost w: Walk<S>,
                           ghost cursor: nat)
    returns (ok: bool, accepted: nat)
    requires chain.Valid() && w.clock == clock && w.book == chain.AnchorBook()
    requires Before(chain.rules, w, chain.Contents(), cursor)
    requires IsStretch(blocks, w, chain.byHash, cursor)
    modifies chain
    ensures chain.Valid() && chain.AnchorBook() == old(chain.AnchorBook())
    ensures Strode(chain.rules, w, old(chain.Contents()), chain.Contents(), ok, accepted, cursor + |blocks|)
  {
    hide Lawful, Inv, Strode, Before, IsStretch, Evolved, Walked, Chain.AnchorBook;
    ghost var t := chain.Contents();
    ghost var now := t;
    StandsStill(chain.rules, w, t, cursor);
    ok, accepted := true, 0;
    for i := 0 to |blocks|
      invariant chain.Valid() && now == chain.Contents() && chain.AnchorBook() == w.book && ok
      invariant Strode(chain.rules, w, t, now, true, accepted, cursor + i)
    {
      StrodeTells(chain.rules, w, t, now, true, accepted, cursor + i);
      StretchAt(blocks, w, t.blocks, cursor, i);
      var added;
      ok, added := TakeBlock(chain, blocks[i], clock, w, cursor + i);
      ghost var next := chain.Contents();
      StridesOn(chain.rules, w, t, now, next, ok, accepted, if added then 1 else 0, cursor + i, cursor + i + 1);
      if !ok {
        ghost var count := accepted + if added then 1 else 0;
        Stopped(chain.rules, w, t, next, count, accepted, cursor + i + 1, cursor + |blocks|);
        return;
      }
      if added { accepted := accepted + 1; }
      now := next;
    }
  }

  /** Where a walk threw, nothing is said of count and place. */
  lemma {:induction false} Stopped<S(!new)>(
    r: Rules<S>, w: Walk<S>, t: Tree<S>, t': Tree<S>, a: nat, b: nat, at: nat, elsewhere: nat)
    requires Strode(r, w, t, t', false, a, at)
    ensures Strode(r, w, t, t', false, b, elsewhere)
  {
    hide Evolved;
  }

  /** Of an honest peer a page is the next stretch of its chain. */
  ghost predicate IsNext<S>(p: Page, w: Walk<S>, known: map<Hash, Entry<S>>, cursor: nat) {
    && p.blocks != [] && p.to + 1 == cursor + |p.blocks| <= |w.peer| && p.truncated == (p.to < |w.peer| - 1)
    && (forall i :: 0 <= i < |p.blocks| ==> p.blocks[i] == w.peer[cursor + i].block)
    && IsStretch(p.blocks, w, known, cursor)
  }

  lemma {:induction false} NextPage<S(!new)>(page: nat -> Page, w: Walk<S>, t: Tree<S>, known: map<Hash, Entry<S>>,
                                             cursor: nat)
    requires Honest(page, w.peer) && cursor < |w.peer|
    requires w.known ==> AllKnown(t.blocks, w.peer) && known == t.blocks
    ensures IsNext(page(cursor), w, known, cursor)
    ensures page(cursor).truncated ==> |page(cursor).blocks| == MAX_BLOCK_RANGE
    ensures !page(cursor).truncated ==> cursor + |page(cursor).blocks| == |w.peer|
  {
    HonestPage(page, w.peer, cursor);
    if w.known { KnownPage(t.blocks, w.peer, cursor, page(cursor).blocks); }
  }

  /** One page: taken block by block, and whether the walk goes on, and from where. */
  method TakeNext<S(!new)>(chain: Chain<S>, payload: Page, clock: Block -> nat, cursor: nat, ghost w: Walk<S>,
                           ghost at: nat)
    returns (ok: bool, accepted: nat, more: bool, next: nat)
    requires chain.Valid() && w.clock == clock && w.book == chain.AnchorBook()
    requires Before(chain.rules, w, chain.Contents(), at)
    requires w.Honest() ==> at == cursor && IsNext(payload, w, chain.byHash, cursor)
    modifies chain
    ensures chain.Valid() && chain.AnchorBook() == old(chain.AnchorBook())
    ensures w.Honest() ==> next == cursor + |payload.blocks| && more == (next < |w.peer|)
    ensures Strode(chain.rules, w, old(chain.Contents()), chain.Contents(), ok, accepted, at + |payload.blocks|)
  {
    hide Lawful, Inv, Evolved, Before, Walked, Chain.AnchorBook;
    next := cursor;
    if payload.blocks == [] {
      StandsStill(chain.rules, w, chain.Contents(), at);
      return true, 0, false, cursor;
    }
    ok, accepted := TakePage(chain, payload.blocks, clock, w, at);
    if !ok || payload.to < cursor { return ok, accepted, false, next; }
    more, next := payload.truncated, payload.to + 1;
  }

  /** Page after page until the peer has no more. */
  method SyncPages<S(!new)>(chain: Chain<S>, page: nat -> Page, peerHeight: nat, clock: Block -> nat, start: nat,
                            ghost w: Walk<S>)
    returns (ok: bool, accepted: nat, ghost at: nat)
    requires chain.Valid() && w.clock == clock && w.book == chain.AnchorBook()
    requires Before(chain.rules, w, chain.Contents(), start)
    requires w.Honest() ==> w.peer != [] && Honest(page, w.peer) && peerHeight == |w.peer| - 1
    requires w.good ==> InPages(w, start)
    requires w.known ==> AllKnown(chain.byHash, w.peer)
    modifies chain
    ensures chain.Valid() && chain.AnchorBook() == old(chain.AnchorBook())
    ensures Strode(chain.rules, w, old(chain.Contents()), chain.Contents(), ok, accepted, at)
    ensures w.good ==> at == |w.peer|
  {
    hide Lawful, Inv, Strode, Evolved, Before, Walked, AllKnown, IsNext, Honest, OnPage, InPages, Chain.AnchorBook;
    ghost var t := chain.Contents();
    ghost var now := t;
    StandsStill(chain.rules, w, t, start);
    StrodeTells(chain.rules, w, t, t, true, 0, start);
    FirstPage(w, start);
    var cursor: nat, pages, more := start, 0, true;
    ok, accepted, at := true, 0, start;
    while more && cursor <= peerHeight && pages < MAX_PAGES
      invariant chain.Valid() && now == chain.Contents() && chain.AnchorBook() == w.book && ok && pages <= MAX_PAGES
      invariant Strode(chain.rules, w, t, now, true, accepted, at) && (w.Honest() ==> at == cursor)
      invariant w.good ==> OnPage(w, start, pages, cursor) && (!more ==> cursor == |w.peer|)
      decreases MAX_PAGES - pages
    {
      StrodeTells(chain.rules, w, t, now, true, accepted, at);
      if w.Honest() { NextPage(page, w, t, chain.byHash, cursor); }
      var payload, added := page(cursor), 0;
      ok, added, more, cursor := TakeNext(chain, payload, clock, cursor, w, at);
      ghost var next := chain.Contents();
      StridesOn(chain.rules, w, t, now, next, ok, accepted, added, at, at + |payload.blocks|);
      if w.good { PageTurns(w, start, pages, at, cursor); }
      accepted, at, now := accepted + added, at + |payload.blocks|, next;
      if !ok { StrodeTells(chain.rules, w, t, now, false, accepted, at); return; }
      pages := pages + 1;
    }
    if w.good {
      LastPage(w, start, pages, cursor);
    }
  }

  /** What is left from the start fits the pages a walk may ask for. */
  ghost predicate InPages<S>(w: Walk<S>, start: nat) { |w.peer| - start <= MAX_PAGES * MAX_BLOCK_RANGE }

  /** Full pages from the start on, or the end. */
  ghost predicate OnPage<S>(w: Walk<S>, start: nat, pages: nat, cursor: nat) {
    cursor <= |w.peer| && (cursor == |w.peer| || cursor == start + pages * MAX_BLOCK_RANGE)
  }

  lemma FirstPage<S>(w: Walk<S>, start: nat)
    ensures start <= |w.peer| ==> OnPage(w, start, 0, start)
  {
  }

  lemma PageTurns<S>(w: Walk<S>, start: nat, pages: nat, cursor: nat, next: nat)
    requires OnPage(w, start, pages, cursor) && cursor < |w.peer|
    requires next == cursor + MAX_BLOCK_RANGE <= |w.peer| || next == |w.peer|
    ensures OnPage(w, start, pages + 1, next)
  {
  }

  lemma LastPage<S>(w: Walk<S>, start: nat, pages: nat, cursor: nat)
    requires OnPage(w, start, pages, cursor) && InPages(w, start)
    requires cursor >= |w.peer| || pages == MAX_PAGES
    ensures cursor == |w.peer|
  {
  }

  lemma KnownPage<S(!new)>(blocks: map<Hash, Entry<S>>, peer: seq<Entry<S>>, cursor: nat, bs: seq<Block>)
    requires AllKnown(blocks, peer) && cursor + |bs| <= |peer|
    requires forall i :: 0 <= i < |bs| ==> bs[i] == peer[cursor + i].block
    ensures forall i :: 0 <= i < |bs| ==> bs[i].hash in blocks
  {
    forall i | 0 <= i < |bs|
      ensures bs[i].hash in blocks
    {
      assert KnownIn(blocks, peer[cursor + i]);
    }
  }

  // ------------------------------------------------------------- one sync

  /** The peer is honest, does not move, and this is its chain. */
  ghost predicate Serves<S>(page: nat -> Page, peerHeight: nat, peer: seq<Entry<S>>) {
    peer != [] && Honest(page, peer) && peerHeight == |peer| - 1
  }

  /** Within reach from where the walk starts; or from genesis, when the peer is higher than we are. */
  ghost predicate Reaches<S(!new)>(
    r: Rules<S>, t: Tree<S>, book: Option<Book>, page: nat -> Page, peerHeight: nat, clock: Block -> nat,
    peer: seq<Entry<S>>, common: nat, window: nat, deep: bool)
  {
    && Serves(page, peerHeight, peer)
    && (|| Converges(r, t, book, peer, common, clock, StartOf(t, window, deep))
        || (Converges(r, t, book, peer, common, clock, 0) && peerHeight > |t.canonical| - 1))
  }

  /** The peer is honest and has nothing new. */
  ghost predicate Holds<S>(t: Tree<S>, page: nat -> Page, peerHeight: nat, peer: seq<Entry<S>>) {
    Serves(page, peerHeight, peer) && AllKnown(t.blocks, peer)
  }

  /** All of the peer's chain is known, nothing was refused, and the head is at least as heavy. */
  ghost predicate Synced<S>(t: Tree<S>, peer: seq<Entry<S>>) {
    && peer != [] && t.canonical != [] && !t.refusedReorg
    && AllKnown(t.blocks, peer) && peer[|peer| - 1].td <= t.Head().td
  }

  /**
   * One sync. From any peer whatever, the chain stays valid and only gains. From an honest peer that does not move
   * and is within reach, it ends with all of that peer's chain known and a head at least as heavy: wherever the
   * window starts if the peer is higher, for then a walk that found nothing to stand on is made again from genesis.
   */
  method SyncFrom<S(!new)>(chain: Chain<S>, page: nat -> Page, peerHeight: nat, clock: Block -> nat, window: nat,
                           deep: bool, ghost peer: seq<Entry<S>>, ghost common: nat)
    returns (ok: bool, accepted: nat)
    requires chain.Valid()
    modifies chain
    ensures chain.Valid() && Evolved(chain.rules, old(chain.Contents()), chain.Contents(), -1)
    ensures old(Reaches(chain.rules, chain.Contents(), chain.AnchorBook(), page, peerHeight, clock, peer, common,
                        window, deep)) ==>
              ok && Synced(chain.Contents(), peer)
    ensures ok ==> Counted(old(chain.byHash), chain.byHash, accepted)
    ensures old(Holds(chain.Contents(), page, peerHeight, peer)) && deep ==>
              ok && chain.Contents() == old(chain.Contents())
    decreases !deep
  {
    hide Lawful, Inv, Evolved, Before, Walked, Strode, Reaches, Holds, Synced, Serves, Counted, FloorOf;
    ghost var r, t, book := chain.rules, chain.Contents(), chain.AnchorBook();
    var height := |chain.canonical| - 1;
    var start: nat := if deep then 0 else Max(0, height - window);
    ghost var w := PlanWalk(r, t, book, page, peerHeight, clock, peer, common, window, deep);
    ghost var at;
    ok, accepted, at := SyncPages(chain, page, peerHeight, clock, start, w);
    StrodeTells(r, w, t, chain.Contents(), ok, accepted, at);
    if !ok { return; }
    ghost var before := chain.Contents();
    WalkEnds(r, w, t, before, page, peerHeight, window, deep, accepted, at);
    if accepted == 0 && !deep && peerHeight > |chain.canonical| - 1 {
      ok, accepted := SyncFrom(chain, page, peerHeight, clock, window, true, peer, common);
      EvolvedChain(r, t, before, chain.Contents());
    }
  }

  /** What is promised of a walk, decided before it starts. */
  ghost predicate Planned<S(!new)>(
    r: Rules<S>, t: Tree<S>, page: nat -> Page, peerHeight: nat, window: nat, deep: bool, w: Walk<S>)
  {
    && w.t0 == t && w.start == StartOf(t, window, deep)
    && w.known == Holds(t, page, peerHeight, w.peer)
    && w.good == (Reaches(r, t, w.book, page, peerHeight, w.clock, w.peer, w.common, window, deep) &&
                  Starts(r, t, w.book, w.peer, w.common, w.clock, w.start))
    && w.lost == (Reaches(r, t, w.book, page, peerHeight, w.clock, w.peer, w.common, window, deep) && !w.good)
    && (w.lost ==>
          && !deep && peerHeight > |t.canonical| - 1 && Converges(r, t, w.book, w.peer, w.common, w.clock, 0)
          && Stranded(t, t, w.peer, w.clock, w.start))
  }

  lemma {:induction false} PlanWalk<S(!new)>(
    r: Rules<S>, t: Tree<S>, book: Option<Book>, page: nat -> Page, peerHeight: nat, clock: Block -> nat,
    peer: seq<Entry<S>>, common: nat, window: nat, deep: bool) returns (w: Walk<S>)
    requires Lawful(r) && Inv(r, t)
    ensures Planned(r, t, page, peerHeight, window, deep, w)
    ensures w.clock == clock && w.book == book && w.peer == peer && w.common == common
    ensures Before(r, w, t, w.start)
    ensures w.Honest() ==> w.peer != [] && Honest(page, w.peer) && peerHeight == |w.peer| - 1
    ensures w.good ==> InPages(w, w.start)
    ensures w.known ==> AllKnown(t.blocks, w.peer)
  {
    hide Lawful, Inv, CaughtUpTo, Near, Clear, FloorOf, AllKnown, Linked, Stranded;
    var start := StartOf(t, window, deep);
    var reaches := Reaches(r, t, book, page, peerHeight, clock, peer, common, window, deep);
    var good := reaches && Starts(r, t, book, peer, common, clock, start);
    w := Walk(peer, common, clock, book, t, start, good, Holds(t, page, peerHeight, peer), reaches && !good);
    if reaches {
      if Converges(r, t, book, peer, common, clock, start) {
        StartsCaughtUp(r, t, book, peer, common, clock, start);
      } else {
        StartsSomewhere(r, t, book, peer, common, clock, start);
      }
    }
  }

  /** What the walk came to, and what that means for walking again from genesis. */
  lemma {:induction false} WalkEnds<S(!new)>(
    r: Rules<S>, w: Walk<S>, t: Tree<S>, t': Tree<S>, page: nat -> Page, peerHeight: nat, window: nat, deep: bool,
    accepted: nat, at: nat)
    requires Planned(r, t, page, peerHeight, window, deep, w)
    requires Walked(w, t, t', accepted) && Before(r, w, t', at) && (w.good ==> at == |w.peer| > 0)
    ensures Counted(t.blocks, t'.blocks, accepted) && (accepted == 0 ==> t'.blocks == t.blocks)
    ensures w.known ==> t' == t
    ensures w.good ==> Synced(t', w.peer) && (accepted == 0 ==> Holds(t', page, peerHeight, w.peer))
    ensures w.lost ==>
              && accepted == 0 && !deep && peerHeight > |t'.canonical| - 1
              && Reaches(r, t', w.book, page, peerHeight, w.clock, w.peer, w.common, window, true)
    ensures Reaches(r, t, w.book, page, peerHeight, w.clock, w.peer, w.common, window, deep) ==> w.good || w.lost
  {
    hide Stranded, CaughtUpTo, Clear, FromGenesis, Near, AllKnown, Starts, Honest, Converges;
    if w.good { CaughtUpIsHeavy(r, t', w.book, w.peer, w.common, w.clock); }
    if w.lost { StrandedStillConverges(r, t, t', w.book, w.peer, w.common, w.clock, w.start); }
  }

  /** With a window no narrower than a reorganisation may reach, whatever is within reach is so from its start. */
  lemma {:induction false} WideWindowReaches<S(!new)>(
    r: Rules<S>, t: Tree<S>, book: Option<Book>, page: nat -> Page, peerHeight: nat, clock: Block -> nat,
    peer: seq<Entry<S>>, common: nat, window: nat, deep: bool)
    requires Serves(page, peerHeight, peer) && Converges(r, t, book, peer, common, clock, 0)
    requires window >= r.maxReorgDepth
    ensures Reaches(r, t, book, page, peerHeight, clock, peer, common, window, deep)
  {
    hide FromGenesis, Honest, Clear, FloorOf;
  }

  /** After a walk in vain the peer is as near as before. */
  lemma {:induction false} StrandedStillConverges<S(!new)>(
    r: Rules<S>, t: Tree<S>, t': Tree<S>, book: Option<Book>, peer: seq<Entry<S>>, common: nat, clock: Block -> nat,
    start: nat)
    requires Converges(r, t, book, peer, common, clock, 0) && Stranded(t, t', peer, clock, start)
    ensures Converges(r, t', book, peer, common, clock, 0) && t'.canonical == t.canonical
  {
    hide Clear, FromGenesis;
    SameChainSameFloor(book, t, t');
  }

  lemma {:induction false} StartsCaughtUp<S(!new)>(
    r: Rules<S>, t: Tree<S>, book: Option<Book>, peer: seq<Entry<S>>, common: nat, clock: Block -> nat, start: nat)
    requires Lawful(r) && Inv(r, t) && Converges(r, t, book, peer, common, clock, start)
    ensures start <= |peer| && Near(r, t, book, peer, common) && CaughtUpTo(r, t, book, peer, common, clock, start)
  {
    hide Lawful, BooksAgree, Connected, Linked, FloorOf, Clear;
    SameBelow(t.canonical, peer, common);
    forall i | 0 <= i < |peer[..start]|
      ensures KnownIn(t.blocks, peer[..start][i])
    {
      assert KnownIn(t.blocks, t.canonical[i]);
    }
  }

  lemma {:induction false} CaughtUpIsHeavy<S(!new)>(
    r: Rules<S>, t: Tree<S>, book: Option<Book>, peer: seq<Entry<S>>, common: nat, clock: Block -> nat)
    requires peer != [] && CaughtUpTo(r, t, book, peer, common, clock, |peer|)
    ensures AllKnown(t.blocks, peer) && t.canonical != [] && peer[|peer| - 1].td <= t.Head().td && !t.refusedReorg
  {
    hide BooksAgree, Connected, Linked, FloorOf, Clear, Near;
    assert peer[..|peer|] == peer;
    assert KnownIn(t.blocks, peer[|peer| - 1]);
  }
}
