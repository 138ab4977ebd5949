/** Reading the stored blocks back at boot (src/chain.js:738-783). */
module Reload {
  import opened Common
  import opened Types
  import opened BlockTree
  import opened ForkChoice
  import opened Anchors
  import opened Process
  import Runs
  import Sync
  import opened SmallChains

  /** What persist writes: every known block but genesis, once, none before its parent's height
      (src/chain.js:738-750). */
  ghost predicate StoredOrder<S(!new)>(r: Rules<S>, t: Tree<S>, bs: seq<Block>) {
    && (forall i :: 0 <= i < |bs| ==>
          bs[i].hash in t.blocks && bs[i].hash != r.genesis.Hash() && t.blocks[bs[i].hash].block == bs[i])
    && (forall h <- t.blocks :: h == r.genesis.Hash() || exists i :: 0 <= i < |bs| && bs[i].hash == h)
    && (forall i, j :: 0 <= i < j < |bs| ==> bs[i].hash != bs[j].hash && bs[i].header.number <= bs[j].header.number)
  }

  /** The blocks known after the first `k` stored ones. */
  ghost predicate LoadedTo<S(!new)>(r: Rules<S>, t: Tree<S>, bs: seq<Block>, k: nat, t': Tree<S>)
    requires k <= |bs|
  {
    && Inv(r, t') && t'.orphans == map[]
    && (forall h <- t'.blocks :: h in t.blocks && t'.blocks[h] == t.blocks[h])
    && (forall h :: h in t'.blocks <==> h == r.genesis.Hash() || exists i :: 0 <= i < k && bs[i].hash == h)
  }

  /** The next stored block is new, and stands on a loaded parent. */
  lemma {:induction false} NextLands<S(!new)>(r: Rules<S>, t: Tree<S>, bs: seq<Block>, k: nat, t': Tree<S>)
    requires Lawful(r) && Inv(r, t) && StoredOrder(r, t, bs) && k < |bs| && LoadedTo(r, t, bs, k, t')
    ensures bs[k].hash in t.blocks
    ensures var e := t.blocks[bs[k].hash];
            && e.block == bs[k] && bs[k].hash !in t'.blocks && Lands(r, t', e) && e.Hash() == bs[k].hash
  {
    hide SpendOnce, BooksAgree, AllKnown, Linked;
    var e := t.blocks[bs[k].hash];
    ParentKnown(r, t.blocks, bs[k].hash);
    if e.Parent() != r.genesis.Hash() {
      var i :| 0 <= i < |bs| && bs[i].hash == e.Parent();
      assert t.blocks[bs[i].hash].block == bs[i];
      assert i < k;
    }
  }

  // ------------------------------------------------------------- where a node that loads them in turn ends

  /** From the chain of `x` a node may go over to that of `e` at `i`: little enough is undone, and nothing anchored. */
  ghost predicate LeavesAt<S>(r: Rules<S>, t: Tree<S>, book: Option<Book>, x: Entry<S>, e: Entry<S>, i: nat) {
    var from, to := PathTo(t, x), PathTo(t, e);
    && 0 < i <= |from| && i <= |to| && from[..i] == to[..i]
    && |from| - i <= r.maxReorgDepth && Floor(book, Hashes(from)) < i
  }

  ghost predicate MayMove<S>(r: Rules<S>, t: Tree<S>, book: Option<Book>, x: Entry<S>, e: Entry<S>) {
    exists i: nat :: LeavesAt(r, t, book, x, e, i)
  }

  /** The first heaviest of genesis and the first `k` blocks. */
  function Heaviest<S>(r: Rules<S>, t: Tree<S>, bs: seq<Block>, k: nat): Entry<S>
    requires AllStored(t, bs) && k <= |bs|
  {
    if k == 0 then r.genesis
    else
      var x, e := Heaviest(r, t, bs, k - 1), t.blocks[bs[k - 1].hash];
      if e.td > x.td then e else x
  }

  /** Where a node ends that goes over to every heavier one of the first `k` blocks it may go over to. */
  ghost function Settled<S>(r: Rules<S>, t: Tree<S>, book: Option<Book>, bs: seq<Block>, k: nat): Entry<S>
    requires AllStored(t, bs) && k <= |bs|
  {
    if k == 0 then r.genesis
    else
      var x, e := Settled(r, t, book, bs, k - 1), t.blocks[bs[k - 1].hash];
      if e.td > x.td && MayMove(r, t, book, x, e) then e else x
  }

  ghost predicate AllStored<S>(t: Tree<S>, bs: seq<Block>) { forall i :: 0 <= i < |bs| ==> bs[i].hash in t.blocks }

  /** Each of the first `k` blocks that outweighs all before it can be reached from the first heaviest of those. */
  ghost predicate Followable<S>(r: Rules<S>, t: Tree<S>, book: Option<Book>, bs: seq<Block>, k: nat)
    requires AllStored(t, bs) && k <= |bs|
  {
    forall i :: 0 <= i < k && t.blocks[bs[i].hash].td > Heaviest(r, t, bs, i).td ==>
      MayMove(r, t, book, Heaviest(r, t, bs, i), t.blocks[bs[i].hash])
  }

  /** A node that may always go over stands on the heaviest. */
  lemma {:induction false} FollowableSettles<S>(r: Rules<S>, t: Tree<S>, book: Option<Book>, bs: seq<Block>, k: nat)
    requires AllStored(t, bs) && k <= |bs| && Followable(r, t, book, bs, k)
    ensures Settled(r, t, book, bs, k) == Heaviest(r, t, bs, k)
  {
    hide MayMove;
    if k > 0 { FollowableSettles(r, t, book, bs, k - 1); }
  }

  /** Within a smaller tree the path to a block is the same. */
  lemma {:induction false} SamePathWithin<S(!new)>(r: Rules<S>, t: Tree<S>, t1: Tree<S>, e: Entry<S>)
    requires StepShape(r) && Core(r, t) && Core(r, t1) && KnownIn(t1.blocks, e)
    requires forall h <- t1.blocks :: h in t.blocks && t.blocks[h] == t1.blocks[h]
    ensures KnownIn(t.blocks, e) && PathTo(t1, e) == PathTo(t, e) && AllKnown(t1.blocks, PathTo(t, e))
  {
    hide BooksAgree, Linked, Connected, AllKnown, StepShape, Branch, HasReceipts;
    PathToShape(r, t1, e);
    Sync.KnownStays(t1.blocks, t.blocks, PathTo(t1, e));
    Sync.PathIsUnique(r, t, e, PathTo(t1, e));
  }

  /** Standing on the stored path to `x`, a node refuses a stored block's path exactly when it may not go over. */
  lemma {:induction false} RefusesExactly<S(!new)>(
    r: Rules<S>, t: Tree<S>, t': Tree<S>, book: Option<Book>, x: Entry<S>, e: Entry<S>)
    requires Lawful(r) && Core(r, t) && Core(r, t') && KnownIn(t.blocks, e) && Lands(r, t', e)
    requires forall h <- t'.blocks :: h in t.blocks && t.blocks[h] == t'.blocks[h]
    requires t'.canonical == PathTo(t, x)
    ensures PathTo(Insert(t', e), e) == PathTo(t, e)
    ensures Refuses(r, t', Fork(Insert(t', e), e), FloorOf(book, t')) <==> !MayMove(r, t, book, x, e)
  {
    hide BooksAgree, Linked, Connected, AllKnown, StepShape, SpendOnce, Fork, PathTo, Branch, HasReceipts;
    var t1 := Insert(t', e);
    InsertKeepsCore(r, t', e);
    SamePathWithin(r, t, t1, e);
    PathToShape(r, t1, e);
    var fork := Fork(t1, e);
    if !Refuses(r, t', fork, FloorOf(book, t')) {
      assert LeavesAt(r, t, book, x, e, fork + 1);
    } else if i: nat :| LeavesAt(r, t, book, x, e, i) {
      Sync.ForkIsHigh(r, t1, e, PathTo(t, e), i);
      assert false;
    }
  }

  /** So one stored block moves it exactly as `Settled` says. */
  lemma {:induction false} LandSettles<S(!new)>(
    r: Rules<S>, t: Tree<S>, t': Tree<S>, book: Option<Book>, x: Entry<S>, e: Entry<S>)
    requires Lawful(r) && Core(r, t) && Core(r, t') && KnownIn(t.blocks, e) && KnownIn(t.blocks, x) && Lands(r, t', e)
    requires forall h <- t'.blocks :: h in t.blocks && t.blocks[h] == t'.blocks[h]
    requires t'.canonical == PathTo(t, x)
    ensures var moves, t'' := MayMove(r, t, book, x, e), Land(r, t', e, FloorOf(book, t'));
            && t''.canonical == PathTo(t, if e.td > x.td && moves then e else x)
            && (t''.refusedReorg <==> t'.refusedReorg || (e.td > x.td && !moves))
  {
    hide BooksAgree, Linked, Connected, AllKnown, StepShape, SpendOnce, Fork, PathTo, HasReceipts, MayMove, Refuses;
    hide NewIndex, NewMempool, ReceiptsFor, FloorOf;
    PathToShape(r, t, x);
    RefusesExactly(r, t, t', book, x, e);
  }

  // ------------------------------------------------------------- loading

  /** After the first `k` blocks: where the node stands, and whether it ever refused. */
  ghost predicate StandsAs<S>(r: Rules<S>, t: Tree<S>, book: Option<Book>, bs: seq<Block>, k: nat, t': Tree<S>)
    requires AllStored(t, bs) && k <= |bs|
  {
    && KnownIn(t.blocks, Settled(r, t, book, bs, k)) && t'.canonical == PathTo(t, Settled(r, t, book, bs, k))
    && (t'.refusedReorg <==> !Followable(r, t, book, bs, k))
  }

  /** A block that verifies, delivered with nothing waiting. */
  lemma {:induction false} DeliveredAlone<S(!new)>(r: Rules<S>, t: Tree<S>, book: Option<Book>, e: Entry<S>,
                                                   clock: Block -> nat)
    requires Lawful(r) && Inv(r, t) && t.orphans == map[] && Lands(r, t, e) && e.Hash() !in t.blocks
    requires e.block.header.timestamp <= clock(e.block) + MAX_FUTURE_DRIFT
    ensures var t' := Land(r, t, e, FloorOf(book, t));
            && Deliver(r, t, book, e.block, clock, 0).0 == t' && Deliver(r, t, book, e.block, clock, 0).1.Accepted?
            && Inv(r, t') && t'.orphans == map[] && t'.blocks == t.blocks[e.Hash() := e]
  {
    hide Lawful, Connected, AllKnown, BooksAgree, Linked, Land, RefusedNow;
    Runs.FloorBelowTip(r, t, book);
    LandKeepsInv(r, t, e, FloorOf(book, t));
  }

  lemma {:induction false} LoadOne<S(!new)>(
    r: Rules<S>, t: Tree<S>, bs: seq<Block>, k: nat, t': Tree<S>, book: Option<Book>, clock: Block -> nat)
    requires Lawful(r) && Inv(r, t) && StoredOrder(r, t, bs) && k < |bs|
    requires LoadedTo(r, t, bs, k, t') && StandsAs(r, t, book, bs, k, t')
    requires OnTime(bs[k], clock)
    ensures var (t'', outcome) := Deliver(r, t', book, bs[k], clock, 0);
            outcome.Accepted? && LoadedTo(r, t, bs, k + 1, t'') && StandsAs(r, t, book, bs, k + 1, t'')
  {
    assert AllStored(t, bs);
    hide Lawful, Inv, Land, FloorOf, Deliver, StoredOrder, LoadedTo, StandsAs, Lands;
    NextLands(r, t, bs, k, t');
    var e := t.blocks[bs[k].hash];
    DeliveredAlone(r, t', book, e, clock);
    LoadedOneMore(r, t, bs, k, t', Land(r, t', e, FloorOf(book, t')));
    StandsOneMore(r, t, bs, k, t', book);
  }

  lemma {:induction false} StandsOneMore<S(!new)>(
    r: Rules<S>, t: Tree<S>, bs: seq<Block>, k: nat, t': Tree<S>, book: Option<Book>)
    requires Lawful(r) && Inv(r, t) && Inv(r, t') && AllStored(t, bs) && k < |bs|
    requires KnownIn(t.blocks, t.blocks[bs[k].hash]) && Lands(r, t', t.blocks[bs[k].hash])
    requires forall h <- t'.blocks :: h in t.blocks && t.blocks[h] == t'.blocks[h]
    requires StandsAs(r, t, book, bs, k, t')
    ensures StandsAs(r, t, book, bs, k + 1, Land(r, t', t.blocks[bs[k].hash], FloorOf(book, t')))
  {
    hide Lawful, Core, Land, FloorOf, MayMove, Followable, PathTo, Heaviest, Lands;
    LandSettles(r, t, t', book, Settled(r, t, book, bs, k), t.blocks[bs[k].hash]);
    FollowedOneMore(r, t, book, bs, k);
  }

  /** The next block keeps a reload smooth exactly when the node may go over to it, if it outweighs the head. */
  lemma {:induction false} FollowedOneMore<S>(r: Rules<S>, t: Tree<S>, book: Option<Book>, bs: seq<Block>, k: nat)
    requires AllStored(t, bs) && k < |bs|
    ensures var x, e := Settled(r, t, book, bs, k), t.blocks[bs[k].hash];
            Followable(r, t, book, bs, k + 1) <==>
            Followable(r, t, book, bs, k) && (e.td > x.td ==> MayMove(r, t, book, x, e))
  {
    hide MayMove, Heaviest, Settled;
    if Followable(r, t, book, bs, k) { FollowableSettles(r, t, book, bs, k); }
  }

  lemma {:induction false} LoadedOneMore<S(!new)>(r: Rules<S>, t: Tree<S>, bs: seq<Block>, k: nat, t': Tree<S>,
                                                  t'': Tree<S>)
    requires k < |bs| && LoadedTo(r, t, bs, k, t') && bs[k].hash in t.blocks
    requires Inv(r, t'') && t''.orphans == map[] && t''.blocks == t'.blocks[bs[k].hash := t.blocks[bs[k].hash]]
    ensures LoadedTo(r, t, bs, k + 1, t'')
  {
    hide Inv;
  }

  /** A stored block that the clock has not reached yet throws. */
  lemma {:induction false} EarlyBlockThrows<S(!new)>(
    r: Rules<S>, t: Tree<S>, bs: seq<Block>, k: nat, t': Tree<S>, book: Option<Book>, clock: Block -> nat)
    requires Lawful(r) && Inv(r, t) && StoredOrder(r, t, bs) && k < |bs| && LoadedTo(r, t, bs, k, t')
    requires !OnTime(bs[k], clock)
    ensures Deliver(r, t', book, bs[k], clock, 0).1.Failed?
  {
    hide Lawful, Inv, Land, FloorOf, RefusedNow, StoredOrder;
    NextLands(r, t, bs, k, t');
  }

  predicate OnTime(b: Block, clock: Block -> nat) { b.header.timestamp <= clock(b) + MAX_FUTURE_DRIFT }

  lemma {:induction false} LoadAll<S(!new)>(
    r: Rules<S>, t: Tree<S>, bs: seq<Block>, k: nat, t': Tree<S>, book: Option<Book>, clock: Block -> nat)
    requires Lawful(r) && Inv(r, t) && StoredOrder(r, t, bs) && k <= |bs|
    requires LoadedTo(r, t, bs, k, t') && StandsAs(r, t, book, bs, k, t')
    ensures var (t'', ok) := DeliverAll(r, t', book, bs[k..], clock, 0);
            && (ok <==> forall i :: k <= i < |bs| ==> OnTime(bs[i], clock))
            && (ok ==> LoadedTo(r, t, bs, |bs|, t'') && StandsAs(r, t, book, bs, |bs|, t''))
    decreases |bs| - k
  {
    hide Lawful, Inv, StoredOrder, Deliver, LoadedTo, StandsAs, OnTime;
    if k < |bs| {
      assert bs[k..][0] == bs[k] && bs[k..][1..] == bs[k + 1..];
      if OnTime(bs[k], clock) {
        LoadOne(r, t, bs, k, t', book, clock);
        LoadAll(r, t, bs, k + 1, Deliver(r, t', book, bs[k], clock, 0).0, book, clock);
      } else {
        EarlyBlockThrows(r, t, bs, k, t', book, clock);
      }
    }
  }

  /** At boot the node stands on genesis. */
  lemma {:induction false} BootIsLoaded<S(!new)>(r: Rules<S>, t: Tree<S>, book: Option<Book>, bs: seq<Block>)
    requires Lawful(r) && Inv(r, t) && AllStored(t, bs)
    ensures var t0 := Runs.Boot(r, book).tree;
            LoadedTo(r, t, bs, 0, t0) && StandsAs(r, t, book, bs, 0, t0)
  {
    hide SpendOnce, BooksAgree, PathTo;
    Runs.BootIsSound(r, book);
    assert Rooted(r, t.blocks, r.genesis.Hash());
    Sync.PathIsUnique(r, t, r.genesis, [r.genesis]);
  }

  /** The same blocks, the same weight, and at a unique maximum the same chain and live state. */
  ghost predicate Recovered<S(!new)>(t: Tree<S>, t': Tree<S>) {
    && t'.blocks == t.blocks && t.canonical != [] && t'.canonical != []
    && t'.Head().td == t.Head().td
    && ((forall h <- t.blocks :: t.blocks[h].td == t.Head().td ==> h == t.Head().Hash())
        ==> t'.canonical == t.canonical && t'.state == t.state)
  }

  /**
   * Reloading the stored blocks throws exactly when the clock has fallen behind one of them. Otherwise it recovers
   * the same tree of blocks and post-states, and ends on the chain of `Settled`: so it recovers the stored chain
   * exactly when that is the stored head. It refuses nothing exactly when every block that outweighs all before it
   * can be reached from the heaviest of those; then a node that had refused nothing gets its head's weight back,
   * and its chain and state when no other block weighs as much.
   */
  lemma {:induction false} ReloadRecovers<S(!new)>(
    r: Rules<S>, t: Tree<S>, bs: seq<Block>, book: Option<Book>, clock: Block -> nat)
    requires Lawful(r) && Inv(r, t) && StoredOrder(r, t, bs)
    ensures var (t', ok) := DeliverAll(r, Runs.Boot(r, book).tree, book, bs, clock, 0);
            && (ok <==> forall i :: 0 <= i < |bs| ==> OnTime(bs[i], clock))
            && (ok ==>
                  && t'.blocks == t.blocks && t'.orphans == map[]
                  && t'.canonical == PathTo(t, Settled(r, t, book, bs, |bs|))
                  && (t'.canonical == t.canonical <==> Settled(r, t, book, bs, |bs|) == t.Head())
                  && (!t'.refusedReorg <==> Followable(r, t, book, bs, |bs|))
                  && (Followable(r, t, book, bs, |bs|) && !t.refusedReorg ==> Recovered(t, t')))
  {
    hide StepShape, SpendOnce, BooksAgree, Linked, DeliverAll, Followable, PathTo, Settled, OnTime;
    var t0 := Runs.Boot(r, book).tree;
    BootIsLoaded(r, t, book, bs);
    LoadAll(r, t, bs, 0, t0, book, clock);
    assert bs[0..] == bs;
    var (t', ok) := DeliverAll(r, t0, book, bs, clock, 0);
    if ok {
      assert t'.blocks == t.blocks;
      PathToShape(r, t, Settled(r, t, book, bs, |bs|));
      Sync.HeadIsKnown(r, t);
      Sync.PathIsUnique(r, t, t.Head(), t.canonical);
      if !t.refusedReorg && !t'.refusedReorg { Runs.SameKnowledgeSameChain(r, t, t'); }
    }
  }

  // ------------------------------------------------------------- short branches

  /** No known block hangs further from the canonical chain than a reorganisation may reach. */
  ghost predicate ShortBranches<S>(r: Rules<S>, t: Tree<S>) {
    forall h <- t.blocks :: |Branch(t, t.blocks[h])| <= r.maxReorgDepth
  }

  /** No anchor is buried deeply enough to bind anything. */
  ghost predicate NothingAnchored(book: Option<Book>) { book.Some? ==> forall h :: !book.value.Attested(h) }

  /** The first heaviest is known, and stands no higher than what comes after it. */
  lemma {:induction false} HeaviestIsStored<S(!new)>(r: Rules<S>, t: Tree<S>, bs: seq<Block>, k: nat, j: nat)
    requires StepShape(r) && Connected(r, t.blocks) && StoredOrder(r, t, bs) && k <= j < |bs|
    ensures KnownIn(t.blocks, Heaviest(r, t, bs, k))
    ensures Heaviest(r, t, bs, k).Number() <= t.blocks[bs[j].hash].Number()
  {
    if k == 0 {
      assert Rooted(r, t.blocks, r.genesis.Hash());
    } else {
      HeaviestIsStored(r, t, bs, k - 1, j);
      assert t.blocks[bs[k - 1].hash].block == bs[k - 1] && t.blocks[bs[j].hash].block == bs[j];
    }
  }

  /** Two chains that each leave a third share it up to where the first of them leaves. */
  lemma SharedWithThird<T>(a: seq<T>, b: seq<T>, c: seq<T>, i: nat, j: nat)
    requires i <= |a| && i <= |c| && a[..i] == c[..i] && j <= |b| && j <= |c| && b[..j] == c[..j]
    ensures a[..Min(i, j)] == b[..Min(i, j)]
  {
    var m := Min(i, j);
    assert a[..m] == a[..i][..m] == c[..i][..m] == c[..m];
    assert b[..m] == b[..j][..m] == c[..j][..m] == c[..m];
  }

  /**
   * Between two known blocks, the second no lower than the first, at most as much is undone as the longer of
   * their two branches is long: where they part, one of the branches begins.
   */
  lemma {:induction false} ShortIsNear<S(!new)>(
    r: Rules<S>, t: Tree<S>, book: Option<Book>, x: Entry<S>, e: Entry<S>)
    requires Lawful(r) && Core(r, t) && KnownIn(t.blocks, x) && KnownIn(t.blocks, e) && x.Number() <= e.Number()
    requires ShortBranches(r, t) && NothingAnchored(book)
    ensures MayMove(r, t, book, x, e)
  {
    hide BooksAgree, Linked, Connected, AllKnown, SpendOnce, StepShape, Branch, HasReceipts;
    BranchShape(r, t, x);
    BranchShape(r, t, e);
    PathToShape(r, t, x);
    PathToShape(r, t, e);
    assert |Branch(t, t.blocks[x.Hash()])| <= r.maxReorgDepth && |Branch(t, t.blocks[e.Hash()])| <= r.maxReorgDepth;
    var i, j := Fork(t, x) + 1, Fork(t, e) + 1;
    SharedWithThird(PathTo(t, x), PathTo(t, e), t.canonical, i, j);
    assert LeavesAt(r, t, book, x, e, Min(i, j));
  }

  /** So with no branch too long and nothing anchored a reload refuses nothing. */
  lemma {:induction false} ShortIsFollowable<S(!new)>(r: Rules<S>, t: Tree<S>, book: Option<Book>, bs: seq<Block>)
    requires Lawful(r) && Inv(r, t) && StoredOrder(r, t, bs) && ShortBranches(r, t) && NothingAnchored(book)
    ensures Followable(r, t, book, bs, |bs|)
  {
    hide SpendOnce, StepShape, BooksAgree, AllKnown, FromGenesis, Heaviest, MayMove, ShortBranches, NothingAnchored;
    hide Connected;
    forall i | 0 <= i < |bs|
      ensures MayMove(r, t, book, Heaviest(r, t, bs, i), t.blocks[bs[i].hash])
    {
      HeaviestIsStored(r, t, bs, i, i);
      ShortIsNear(r, t, book, Heaviest(r, t, bs, i), t.blocks[bs[i].hash]);
    }
  }

  // ------------------------------------------------------------- an input that loses its head

  /** A tree with nothing waiting, by what it knows and where its chain is. */
  ghost predicate Stood<S(!new)>(
    r: Rules<S>, t: Tree<S>, blocks: map<Hash, Entry<S>>, canonical: seq<Entry<S>>, refused: bool)
  {
    Inv(r, t) && t.orphans == map[] && t.blocks == blocks && t.canonical == canonical && t.refusedReorg == refused
  }

  lemma {:induction false} Extends<S(!new)>(
    r: Rules<S>, t: Tree<S>, blocks: map<Hash, Entry<S>>, canonical: seq<Entry<S>>, e: Entry<S>, clock: Block -> nat)
    requires Lawful(r) && Stood(r, t, blocks, canonical, false) && Lands(r, t, e) && e.Hash() !in blocks
    requires canonical != [] && e.Parent() == canonical[|canonical| - 1].Hash() && canonical[|canonical| - 1].td < e.td
    requires e.block.header.timestamp <= clock(e.block) + MAX_FUTURE_DRIFT
    ensures !Deliver(r, t, None, e.block, clock, 0).1.Failed?
    ensures Stood(r, Deliver(r, t, None, e.block, clock, 0).0, blocks[e.Hash() := e], canonical + [e], false)
  {
    hide Lawful, Inv, Deliver, Fork, PathTo, NewIndex, NewMempool, ReceiptsFor;
    DeliveredAlone(r, t, None, e, clock);
    Sync.TipExtensionIsAdopted(r, t, None, e);
  }

  lemma {:induction false} StaysBehind<S(!new)>(
    r: Rules<S>, t: Tree<S>, blocks: map<Hash, Entry<S>>, canonical: seq<Entry<S>>, e: Entry<S>, clock: Block -> nat)
    requires Lawful(r) && Stood(r, t, blocks, canonical, false) && Lands(r, t, e) && e.Hash() !in blocks
    requires canonical != [] && e.td <= canonical[|canonical| - 1].td
    requires e.block.header.timestamp <= clock(e.block) + MAX_FUTURE_DRIFT
    ensures !Deliver(r, t, None, e.block, clock, 0).1.Failed?
    ensures Stood(r, Deliver(r, t, None, e.block, clock, 0).0, blocks[e.Hash() := e], canonical, false)
  {
    hide Lawful, Inv, Deliver, SetHead, Fork, PathTo;
    DeliveredAlone(r, t, None, e, clock);
  }

  /** A heavier block at the end of `q`, which shares `k` blocks with the chain and no more: adopted if near enough. */
  lemma {:induction false} Overtakes<S(!new)>(
    r: Rules<S>, t: Tree<S>, blocks: map<Hash, Entry<S>>, canonical: seq<Entry<S>>, e: Entry<S>, clock: Block -> nat,
    q: seq<Entry<S>>, k: nat)
    requires Lawful(r) && Stood(r, t, blocks, canonical, false) && Lands(r, t, e) && e.Hash() !in blocks
    requires canonical != [] && canonical[|canonical| - 1].td < e.td
    requires e.block.header.timestamp <= clock(e.block) + MAX_FUTURE_DRIFT
    requires FromGenesis(r, q) && AllKnown(blocks[e.Hash() := e], q) && q[|q| - 1] == e
    requires 0 < k < |q| && k < |canonical| && q[..k] == canonical[..k] && q[k] != canonical[k]
    ensures !Deliver(r, t, None, e.block, clock, 0).1.Failed?
    ensures var near := |canonical| - k <= r.maxReorgDepth;
            Stood(r, Deliver(r, t, None, e.block, clock, 0).0, blocks[e.Hash() := e],
                  if near then q else canonical, !near)
  {
    hide SpendOnce, StepShape, Inv, Deliver, Branch, BooksAgree, Connected, Linked, AllKnown, NewIndex, NewMempool,
         ReceiptsFor;
    DeliveredAlone(r, t, None, e, clock);
    var t1 := Insert(t, e);
    CoreOf(r, t);
    InsertKeepsCore(r, t, e);
    Sync.PathIsUnique(r, t1, e, q);
    Sync.ForkIsHigh(r, t1, e, q, k);
    PathToShape(r, t1, e);
    Sync.SameBelow(q, canonical, Fork(t1, e) + 1);
  }

  lemma CoreOf<S(!new)>(r: Rules<S>, t: Tree<S>)
    requires Inv(r, t)
    ensures Core(r, t)
  {
  }

  lemma FirstDelivered<S>(r: Rules<S>, t: Tree<S>, b: Block, rest: seq<Block>, clock: Block -> nat)
    requires !Deliver(r, t, None, b, clock, 0).1.Failed?
    ensures DeliverAll(r, t, None, [b] + rest, clock, 0) ==
            DeliverAll(r, Deliver(r, t, None, b, clock, 0).0, None, rest, clock, 0)
  {
    assert ([b] + rest)[1..] == rest;
  }

  // Two branches from genesis: A of three blocks, its work in the last; B of two, heavier than the first two of A.
  const A1: Block := Bare(1, 2, 1, 1)
  const A2: Block := Bare(2, 3, 2, 1)
  const A3: Block := Bare(3, 4, 3, 10)
  const B1: Block := Bare(1, 5, 1, 3)
  const B2: Block := Bare(2, 6, 5, 3)
  const ALL: seq<Block> := [A1, A2, A3, B1, B2]

  function Root(): Entry<nat> { Entry(GENESIS, 0, [], 0) }

  function Of(b: Block, td: nat): Entry<nat> { Entry(b, b.header.number, [], td) }

  function BranchA(): seq<Entry<nat>> { [Root(), Of(A1, 1), Of(A2, 2), Of(A3, 12)] }

  function BranchB(): seq<Entry<nat>> { [Root(), Of(B1, 3), Of(B2, 6)] }

  lemma {:induction false} BranchesAreChains(r: Rules<nat>, txHash: Tx -> Hash)
    requires r == Small(ALL, GENESIS, txHash, 1)
    ensures FromGenesis(r, BranchA()) && FromGenesis(r, BranchB())
  {
    forall i | 0 < i < 4
      ensures Follows(r, BranchA(), i)
    {
    }
    forall i | 0 < i < 3
      ensures Follows(r, BranchB(), i)
    {
    }
  }

  /** The branch A, block by block, from boot. */
  lemma {:induction false} BranchAGrows(r: Rules<nat>, txHash: Tx -> Hash, t0: Tree<nat>, clock: Block -> nat)
    requires r == Small(ALL, GENESIS, txHash, 1) && Lawful(r) && Stood(r, t0, map[1 := Root()], [Root()], false)
    ensures var t1 := Deliver(r, t0, None, A1, clock, 0);
            var t2 := Deliver(r, t1.0, None, A2, clock, 0);
            var t3 := Deliver(r, t2.0, None, A3, clock, 0);
            && !t1.1.Failed? && !t2.1.Failed? && !t3.1.Failed?
            && Stood(r, t3.0, map[1 := Root(), 2 := Of(A1, 1), 3 := Of(A2, 2), 4 := Of(A3, 12)], BranchA(), false)
  {
    hide Lawful, Inv, Deliver;
    var m0 := map[1 := Root()];
    Extends(r, t0, m0, [Root()], Of(A1, 1), clock);
    var t1, m1 := Deliver(r, t0, None, A1, clock, 0).0, m0[2 := Of(A1, 1)];
    Extends(r, t1, m1, [Root(), Of(A1, 1)], Of(A2, 2), clock);
    var t2, m2 := Deliver(r, t1, None, A2, clock, 0).0, m1[3 := Of(A2, 2)];
    Extends(r, t2, m2, [Root(), Of(A1, 1), Of(A2, 2)], Of(A3, 12), clock);
  }

  /** Arriving in the order A1, A2, A3, B1, B2: the head is A3 and nothing is ever refused. */
  lemma {:induction false} ArrivesWell(r: Rules<nat>, txHash: Tx -> Hash, clock: Block -> nat)
    requires r == Small(ALL, GENESIS, txHash, 1) && Lawful(r)
    ensures var t := DeliverAll(r, Runs.Boot(r, None).tree, None, [A1, A2, A3, B1, B2], clock, 0).0;
            Stood(r, t, Known(), BranchA(), false)
  {
    hide Lawful, Inv, Deliver, DeliverAll;
    var t0 := Runs.Boot(r, None).tree;
    Runs.BootIsSound(r, None);
    BranchAGrows(r, txHash, t0, clock);
    var t1 := Deliver(r, t0, None, A1, clock, 0).0;
    var t2 := Deliver(r, t1, None, A2, clock, 0).0;
    var t3 := Deliver(r, t2, None, A3, clock, 0).0;
    var m3 := map[1 := Root(), 2 := Of(A1, 1), 3 := Of(A2, 2), 4 := Of(A3, 12)];
    StaysBehind(r, t3, m3, BranchA(), Of(B1, 3), clock);
    var t4, m4 := Deliver(r, t3, None, B1, clock, 0).0, m3[5 := Of(B1, 3)];
    StaysBehind(r, t4, m4, BranchA(), Of(B2, 6), clock);
    assert m4[6 := Of(B2, 6)] == Known();
    FiveDelivered(r, t0, t1, t2, t3, t4, [A1, A2, A3, B1, B2], clock);
  }

  /** A1 and then B1, which is heavier and takes over. */
  lemma {:induction false} BranchBTakesOver(r: Rules<nat>, txHash: Tx -> Hash, t0: Tree<nat>, clock: Block -> nat)
    requires r == Small(ALL, GENESIS, txHash, 1) && Lawful(r) && Stood(r, t0, map[1 := Root()], [Root()], false)
    ensures var t1 := Deliver(r, t0, None, A1, clock, 0);
            var t2 := Deliver(r, t1.0, None, B1, clock, 0);
            && !t1.1.Failed? && !t2.1.Failed?
            && Stood(r, t2.0, map[1 := Root(), 2 := Of(A1, 1), 5 := Of(B1, 3)], [Root(), Of(B1, 3)], false)
  {
    hide Lawful, Inv, Deliver, FromGenesis, Linked;
    BranchesAreChains(r, txHash);
    PathPrefix(r, BranchB(), 2);
    var m0 := map[1 := Root()];
    Extends(r, t0, m0, [Root()], Of(A1, 1), clock);
    var t1, m1 := Deliver(r, t0, None, A1, clock, 0).0, m0[2 := Of(A1, 1)];
    Overtakes(r, t1, m1, [Root(), Of(A1, 1)], Of(B1, 3), clock, BranchB()[..2], 1);
  }

  /** The same blocks in the order they are stored: A3 forks two deep below B2 and is refused for good. */
  lemma {:induction false} ReloadsBadly(r: Rules<nat>, txHash: Tx -> Hash, clock: Block -> nat)
    requires r == Small(ALL, GENESIS, txHash, 1) && Lawful(r)
    ensures var t := DeliverAll(r, Runs.Boot(r, None).tree, None, [A1, B1, A2, B2, A3], clock, 0).0;
            Stood(r, t, Known(), BranchB(), true)
  {
    hide Lawful, Inv, Deliver, DeliverAll, FromGenesis, Linked;
    var t0 := Runs.Boot(r, None).tree;
    Runs.BootIsSound(r, None);
    BranchesAreChains(r, txHash);
    BranchBTakesOver(r, txHash, t0, clock);
    var t1 := Deliver(r, t0, None, A1, clock, 0).0;
    var t2 := Deliver(r, t1, None, B1, clock, 0).0;
    var m2 := map[1 := Root(), 2 := Of(A1, 1), 5 := Of(B1, 3)];
    StaysBehind(r, t2, m2, [Root(), Of(B1, 3)], Of(A2, 2), clock);
    var t3, m3 := Deliver(r, t2, None, A2, clock, 0).0, m2[3 := Of(A2, 2)];
    Extends(r, t3, m3, [Root(), Of(B1, 3)], Of(B2, 6), clock);
    var t4, m4 := Deliver(r, t3, None, B2, clock, 0).0, m3[6 := Of(B2, 6)];
    Overtakes(r, t4, m4, BranchB(), Of(A3, 12), clock, BranchA(), 1);
    assert m4[4 := Of(A3, 12)] == Known();
    FiveDelivered(r, t0, t1, t2, t3, t4, [A1, B1, A2, B2, A3], clock);
  }

  function Known(): map<Hash, Entry<nat>> {
    map[1 := Root(), 2 := Of(A1, 1), 3 := Of(A2, 2), 4 := Of(A3, 12), 5 := Of(B1, 3), 6 := Of(B2, 6)]
  }

  lemma {:induction false} FiveDelivered(
    r: Rules<nat>, t0: Tree<nat>, t1: Tree<nat>, t2: Tree<nat>, t3: Tree<nat>, t4: Tree<nat>, bs: seq<Block>,
    clock: Block -> nat)
    requires |bs| == 5
    requires Deliver(r, t0, None, bs[0], clock, 0).0 == t1 && !Deliver(r, t0, None, bs[0], clock, 0).1.Failed?
    requires Deliver(r, t1, None, bs[1], clock, 0).0 == t2 && !Deliver(r, t1, None, bs[1], clock, 0).1.Failed?
    requires Deliver(r, t2, None, bs[2], clock, 0).0 == t3 && !Deliver(r, t2, None, bs[2], clock, 0).1.Failed?
    requires Deliver(r, t3, None, bs[3], clock, 0).0 == t4 && !Deliver(r, t3, None, bs[3], clock, 0).1.Failed?
    requires !Deliver(r, t4, None, bs[4], clock, 0).1.Failed?
    ensures DeliverAll(r, t0, None, bs, clock, 0).0 == Deliver(r, t4, None, bs[4], clock, 0).0
  {
    hide Deliver;
    assert bs == [bs[0]] + bs[1..];
    FirstDelivered(r, t0, bs[0], bs[1..], clock);
    assert bs[1..] == [bs[1]] + bs[2..];
    FirstDelivered(r, t1, bs[1], bs[2..], clock);
    assert bs[2..] == [bs[2]] + bs[3..];
    FirstDelivered(r, t2, bs[2], bs[3..], clock);
    assert bs[3..] == [bs[3]] + bs[4..];
    FirstDelivered(r, t3, bs[3], bs[4..], clock);
    assert bs[4..] == [bs[4]] + [];
    FirstDelivered(r, t4, bs[4], [], clock);
  }

  const STORED: seq<Block> := [A1, B1, A2, B2, A3]

  lemma {:induction false} AllAreStored(r: Rules<nat>, t: Tree<nat>)
    requires r.genesis.Hash() == 1 && t.blocks == Known()
    ensures StoredOrder(r, t, STORED)
  {
    forall i: nat | i < 5
      ensures Filed(i)
    {
      StoredIsKnown(i);
    }
    forall h | h in Known()
      ensures h == 1 || exists i :: 0 <= i < 5 && STORED[i].hash == h
    {
      WhereStored(h);
    }
    StoredInOrder();
    hide Known;
  }

  predicate Filed(i: nat)
    requires i < 5
  {
    STORED[i].hash in Known() && STORED[i].hash != 1 && Known()[STORED[i].hash].block == STORED[i]
  }

  lemma StoredIsKnown(i: nat)
    requires i < 5
    ensures Filed(i)
  {
  }

  lemma StoredInOrder()
    ensures forall i, j :: 0 <= i < j < 5 ==>
              STORED[i].hash != STORED[j].hash && STORED[i].header.number <= STORED[j].header.number
  {
  }

  lemma WhereStored(h: Hash)
    requires h in Known()
    ensures h == 1 || exists i :: 0 <= i < 5 && STORED[i].hash == h
  {
    assert STORED[0].hash == 2 && STORED[1].hash == 5 && STORED[2].hash == 3 && STORED[3].hash == 6
           && STORED[4].hash == 4;
  }

  /**
   * A restart can lose the heaviest chain for good, with no tie and nothing refused before it: a stored side
   * branch longer than a reorganisation may reach is loaded first, and the old head then forks too deep.
   */
  lemma {:induction false} ReloadCanLoseTheHead(txHash: Tx -> Hash, clock: Block -> nat)
    requires forall t, t' :: txHash(t) == txHash(t') ==> t == t'
    ensures var r := Small(ALL, GENESIS, txHash, 1);
            var boot := Runs.Boot(r, None).tree;
            var t := DeliverAll(r, boot, None, [A1, A2, A3, B1, B2], clock, 0).0;
            var t' := DeliverAll(r, boot, None, STORED, clock, 0).0;
            && Lawful(r) && Inv(r, t) && StoredOrder(r, t, STORED) && !t.refusedReorg
            && t.canonical == BranchA() && t'.canonical == BranchB() && t'.blocks == t.blocks && t'.refusedReorg
  {
    hide Lawful, Inv, DeliverAll, StoredOrder;
    SmallIsLawful(ALL, txHash, 1);
    ArrivesWell(Small(ALL, GENESIS, txHash, 1), txHash, clock);
    ReloadsBadly(Small(ALL, GENESIS, txHash, 1), txHash, clock);
    AllAreStored(Small(ALL, GENESIS, txHash, 1),
                 DeliverAll(Small(ALL, GENESIS, txHash, 1), Runs.Boot(Small(ALL, GENESIS, txHash, 1), None).tree, None,
                            [A1, A2, A3, B1, B2], clock, 0).0);
  }
}
