/**
  With the constants of the source a delivery within reach refuses nothing: a line of orphans is followed no deeper
  than a reorganisation may reach (src/chain.js:612-620, src/limits.js:108).
 */
module OrphanReach {
  import opened Common
  import opened Types
  import opened BlockTree
  import opened ForkChoice
  import opened Anchors
  import opened Process
  import Runs
  import Sync
  import opened OrphanPool

  /**
   * Before the delivery: a reorganisation may reach as deep as orphans are followed, the block's own path leaves the
   * chain no deeper than that, and no anchor above that place is buried deeply enough to bind.
   */
  ghost predicate WithinReach<S>(
    r: Rules<S>, book: Option<Book>, chain: seq<Entry<S>>, path: seq<Entry<S>>, fork: nat)
  {
    && MAX_ORPHAN_RESOLUTION_DEPTH <= r.maxReorgDepth
    && FromGenesis(r, path)
    && fork < |chain| && fork < |path| && path[..fork + 1] == chain[..fork + 1]
    && |chain| - 1 - fork <= r.maxReorgDepth
    && (book.Some? ==> forall h :: h > fork ==> !book.value.Attested(h))
  }

  /** During it: the chain is still the one before, or runs through the block, not far above it. */
  ghost predicate Hugs<S>(t: Tree<S>, chain: seq<Entry<S>>, e: Entry<S>) {
    t.canonical == chain ||
    (Through(t.canonical, e) && |t.canonical| - 1 <= e.Number() + MAX_ORPHAN_RESOLUTION_DEPTH)
  }

  /** Two paths through one entry are the same up to it. */
  lemma {:induction false} SameUpTo<S(!new)>(
    r: Rules<S>, blocks: map<Hash, Entry<S>>, p: seq<Entry<S>>, q: seq<Entry<S>>, e: Entry<S>)
    requires StepShape(r) && FromGenesis(r, p) && FromGenesis(r, q) && AllKnown(blocks, p) && AllKnown(blocks, q)
    requires Through(p, e) && Through(q, e)
    ensures p[..e.Number() + 1] == q[..e.Number() + 1]
  {
    hide StepShape, FromGenesis, AllKnown;
    var k := e.Number() + 1;
    PathPrefix(r, p, k);
    PathPrefix(r, q, k);
    Sync.KnownPrefix(blocks, p, k);
    Sync.KnownPrefix(blocks, q, k);
    forall i | 0 <= i < k
      ensures p[..k][i] == q[..k][i]
    {
      Runs.PathDetermined(r, blocks, p[..k], q[..k], i);
    }
  }

  /** A floor stands on an attested anchor. */
  lemma FloorIsAttested<S>(book: Option<Book>, t: Tree<S>, fork: nat)
    requires book.Some? ==> forall h :: h > fork ==> !book.value.Attested(h)
    ensures FloorOf(book, t) <= fork
  {
  }

  /** From a chain that hugs the block, whatever ends a path through the block is within reach. */
  lemma {:induction false} NotRefused<S(!new)>(
    r: Rules<S>, t: Tree<S>, book: Option<Book>, chain: seq<Entry<S>>, path: seq<Entry<S>>, fork: nat,
    e: Entry<S>, x: Entry<S>, q: seq<Entry<S>>)
    requires Lawful(r) && Core(r, t) && Lands(r, t, x) && WithinReach(r, book, chain, path, fork)
    requires path[|path| - 1] == e && fork < e.Number() == |path| - 1 && AllKnown(Insert(t, x).blocks, path)
    requires Hugs(t, chain, e) && PathThrough(r, Insert(t, x).blocks, q, x, e)
    ensures PathTo(Insert(t, x), x) == q
    ensures !RefusedNow(r, t, x, FloorOf(book, t))
  {
    hide BooksAgree, Connected, Linked, AllKnown, SpendOnce, StepShape, FloorOf, Fork, PathTo;
    var t1 := Insert(t, x);
    InsertKeepsCore(r, t, x);
    Sync.PathIsUnique(r, t1, x, q);
    FloorIsAttested(book, t, fork);
    SameUpTo(r, t1.blocks, q, path, e);
    if t.canonical == chain {
      assert q[..fork + 1] == q[..e.Number() + 1][..fork + 1] == path[..fork + 1];
      Sync.ForkIsHigh(r, t1, x, q, fork + 1);
    } else {
      SameUpTo(r, t1.blocks, q, t.canonical, e);
      Sync.ForkIsHigh(r, t1, x, q, e.Number() + 1);
    }
  }

  lemma {:induction false} HugsAfter<S(!new)>(
    r: Rules<S>, t: Tree<S>, book: Option<Book>, chain: seq<Entry<S>>, e: Entry<S>, x: Entry<S>, q: seq<Entry<S>>)
    requires StepShape(r) && Hugs(t, chain, e) && PathThrough(r, Insert(t, x).blocks, q, x, e)
    requires PathTo(Insert(t, x), x) == q && x.Number() <= e.Number() + MAX_ORPHAN_RESOLUTION_DEPTH
    ensures Hugs(Land(r, t, x, FloorOf(book, t)), chain, e)
  {
    hide StepShape, Linked, FloorOf, Fork, PathTo, NewIndex, NewMempool, ReceiptsFor;
    PathHeights(r, q, |q| - 1);
  }

  /** No delivery above the block is refused anything, and the chain hugs the block still. */
  lemma {:induction false} DeliverHugs<S(!new)>(
    r: Rules<S>, t: Tree<S>, book: Option<Book>, chain: seq<Entry<S>>, path: seq<Entry<S>>, fork: nat, e: Entry<S>,
    p: Entry<S>, b: Block, clock: Block -> nat, depth: nat)
    requires Lawful(r) && Inv(r, t) && Keyed(t.orphans) && WithinReach(r, book, chain, path, fork)
    requires path[|path| - 1] == e && fork < e.Number() == |path| - 1 && AllKnown(t.blocks, path)
    requires KnownIn(t.blocks, p) && b.header.parentHash == p.Hash() && Above(r, t.blocks, p, e)
    requires Hugs(t, chain, e) && p.Number() + 1 == e.Number() + depth && depth <= MAX_ORPHAN_RESOLUTION_DEPTH
    ensures Unrefused(r, t, book, b, clock, depth)
    ensures Hugs(Deliver(r, t, book, b, clock, depth).0, chain, e)
    decreases MAX_ORPHAN_RESOLUTION_DEPTH + 1 - depth, 0, 0
  {
    hide Lawful, Inv, Land, FloorOf, RefusedNow, Digested, Above, WithinReach, Hugs, AllKnown;
    if b.hash !in t.blocks && VerifyAt(r, p, b, clock(b)).Some? {
      var x := VerifyAt(r, p, b, clock(b)).value;
      LandHugs(r, t, book, chain, path, fork, e, p, x);
      LandDigests(r, t, book, x);
      var t1 := Land(r, t, x, FloorOf(book, t));
      if x.Hash() in t1.orphans && depth < MAX_ORPHAN_RESOLUTION_DEPTH {
        var t2, bs := t1.(orphans := t1.orphans - {x.Hash()}), t1.orphans[x.Hash()];
        PoolAfter(r, t, t2, [b]);
        SameHug(t1, t2, chain, e);
        AllHug(r, t2, book, chain, path, fork, e, x, bs, clock, depth + 1);
      }
    }
  }

  lemma SameHug<S>(t: Tree<S>, t': Tree<S>, chain: seq<Entry<S>>, e: Entry<S>)
    requires Hugs(t, chain, e) && t'.canonical == t.canonical
    ensures Hugs(t', chain, e)
  {
  }

  lemma {:induction false} LandHugs<S(!new)>(
    r: Rules<S>, t: Tree<S>, book: Option<Book>, chain: seq<Entry<S>>, path: seq<Entry<S>>, fork: nat, e: Entry<S>,
    p: Entry<S>, x: Entry<S>)
    requires Lawful(r) && Inv(r, t) && WithinReach(r, book, chain, path, fork)
    requires path[|path| - 1] == e && fork < e.Number() == |path| - 1 && AllKnown(t.blocks, path)
    requires KnownIn(t.blocks, p) && x.Parent() == p.Hash() && Lands(r, t, x) && Above(r, t.blocks, p, e)
    requires Hugs(t, chain, e) && p.Number() + 1 <= e.Number() + MAX_ORPHAN_RESOLUTION_DEPTH
    ensures !RefusedNow(r, t, x, FloorOf(book, t))
    ensures var t1 := Land(r, t, x, FloorOf(book, t));
            Hugs(t1, chain, e) && Above(r, t1.blocks, x, e) && AllKnown(t1.blocks, path) && x.Number() == p.Number() + 1
  {
    hide BooksAgree, Connected, FloorOf, SpendOnce, NewIndex, NewMempool, ReceiptsFor, Fork, PathTo, Linked, Hugs;
    hide WithinReach, RefusedNow, Land, AllKnown, FromGenesis;
    InsertKeepsAll(r, t, x);
    LandAddsOne(r, t, x, FloorOf(book, t));
    Sync.KnownStays(t.blocks, Insert(t, x).blocks, path);
    var q := OneMore(r, t, p, e, x);
    NotRefused(r, t, book, chain, path, fork, e, x, q);
    HugsAfter(r, t, book, chain, e, x, q);
  }

  /** A path through the block, one longer. */
  lemma {:induction false} OneMore<S(!new)>(r: Rules<S>, t: Tree<S>, p: Entry<S>, e: Entry<S>, x: Entry<S>)
    returns (q: seq<Entry<S>>)
    requires Lawful(r) && Inv(r, t) && KnownIn(t.blocks, p) && x.Parent() == p.Hash() && Lands(r, t, x)
    requires Above(r, t.blocks, p, e)
    ensures PathThrough(r, Insert(t, x).blocks, q, x, e)
  {
    hide BooksAgree, Connected, SpendOnce, StepShape, Linked;
    InsertKeepsCore(r, t, x);
    InsertKeepsAll(r, t, x);
    AboveStays(r, t.blocks, Insert(t, x).blocks, p, e);
    q :| PathThrough(r, Insert(t, x).blocks, q, p, e);
    PathExtends(r, q, x);
    assert (q + [x])[..|q|] == q && (q + [x])[..|q| + 1] == q + [x];
    Sync.KnownSnoc(Insert(t, x).blocks, q + [x], |q|);
    q := q + [x];
  }

  lemma {:induction false} AllHug<S(!new)>(
    r: Rules<S>, t: Tree<S>, book: Option<Book>, chain: seq<Entry<S>>, path: seq<Entry<S>>, fork: nat, e: Entry<S>,
    p: Entry<S>, bs: seq<Block>, clock: Block -> nat, depth: nat)
    requires Lawful(r) && Inv(r, t) && Keyed(t.orphans) && WithinReach(r, book, chain, path, fork)
    requires path[|path| - 1] == e && fork < e.Number() == |path| - 1 && AllKnown(t.blocks, path)
    requires KnownIn(t.blocks, p) && Above(r, t.blocks, p, e) && forall b <- bs :: b.header.parentHash == p.Hash()
    requires Hugs(t, chain, e) && p.Number() + 1 == e.Number() + depth && depth <= MAX_ORPHAN_RESOLUTION_DEPTH
    ensures AllUnrefused(r, t, book, bs, clock, depth)
    ensures Hugs(DeliverAll(r, t, book, bs, clock, depth).0, chain, e)
    decreases MAX_ORPHAN_RESOLUTION_DEPTH + 1 - depth, 1, |bs|
  {
    hide Lawful, Inv, Deliver, Unrefused, Digested, Above, WithinReach, Hugs, AllKnown;
    if bs != [] {
      assert bs[0] in bs && forall b <- bs[1..] :: b in bs;
      DeliverHugs(r, t, book, chain, path, fork, e, p, bs[0], clock, depth);
      DeliverDigests(r, t, book, bs[0], clock, depth);
      var (t1, outcome) := Deliver(r, t, book, bs[0], clock, depth);
      PoolAfter(r, t, t1, [bs[0]]);
      AboveStays(r, t.blocks, t1.blocks, p, e);
      Sync.KnownStays(t.blocks, t1.blocks, path);
      if !outcome.Failed? { AllHug(r, t1, book, chain, path, fork, e, p, bs[1..], clock, depth); }
    }
  }

  // ------------------------------------------------------------- seen before the delivery

  /** Seen before a block is delivered: how far below the head it forks, and what is anchored above. */
  ghost predicate InReach<S>(r: Rules<S>, t: Tree<S>, book: Option<Book>, e: Entry<S>) {
    var fork := Fork(Insert(t, e), e);
    && MAX_ORPHAN_RESOLUTION_DEPTH <= r.maxReorgDepth
    && |t.canonical| - 1 - fork <= r.maxReorgDepth
    && (book.Some? ==> forall h :: h > fork ==> !book.value.Attested(h))
  }

  /** A new block within reach lands unrefused, and the chain hugs it. */
  lemma {:induction false} FirstLands<S(!new)>(r: Rules<S>, t: Tree<S>, book: Option<Book>, e: Entry<S>)
    requires Lawful(r) && Inv(r, t) && Lands(r, t, e) && e.Hash() !in t.blocks && InReach(r, t, book, e)
    ensures !RefusedNow(r, t, e, FloorOf(book, t))
    ensures var t1, path, fork := Land(r, t, e, FloorOf(book, t)), PathTo(Insert(t, e), e), Fork(Insert(t, e), e);
            && fork >= 0 && WithinReach(r, book, t.canonical, path, fork)
            && path[|path| - 1] == e && fork < e.Number() == |path| - 1 && AllKnown(t1.blocks, path)
            && Hugs(t1, t.canonical, e) && Above(r, t1.blocks, e, e)
  {
    hide BooksAgree, Connected, Linked, AllKnown, SpendOnce, FloorOf, NewIndex, NewMempool, ReceiptsFor;
    var t1 := Insert(t, e);
    InsertKeepsCore(r, t, e);
    LandAddsOne(r, t, e, FloorOf(book, t));
    BranchShape(r, t1, e);
    PathToShape(r, t1, e);
    ForksBelow(r, t, e);
    FloorIsAttested(book, t, Fork(t1, e));
    assert PathThrough(r, t1.blocks, PathTo(t1, e), e, e);
  }

  /** A block not known before is not canonical. */
  lemma {:induction false} ForksBelow<S(!new)>(r: Rules<S>, t: Tree<S>, e: Entry<S>)
    requires Core(r, t) && e.Hash() !in t.blocks
    ensures Fork(Insert(t, e), e) < e.Number()
  {
    hide BooksAgree, Connected, Linked;
    assert e.Number() < |t.canonical| ==> KnownIn(t.blocks, t.canonical[e.Number()]);
  }

  /** So none of its delivery is refused. */
  lemma {:induction false} InReachIsUnrefused<S(!new)>(
    r: Rules<S>, t: Tree<S>, book: Option<Book>, e: Entry<S>, clock: Block -> nat)
    requires Lawful(r) && Inv(r, t) && Keyed(t.orphans) && e.Hash() !in t.blocks && InReach(r, t, book, e)
    requires e.Parent() in t.blocks && VerifyAt(r, t.blocks[e.Parent()], e.block, clock(e.block)) == Some(e)
    ensures Unrefused(r, t, book, e.block, clock, 0)
  {
    hide Lawful, Inv, Land, FloorOf, RefusedNow, Digested, AllUnrefused, WithinReach, Hugs, Above, InReach, AllKnown;
    hide Fork, PathTo;
    FirstLands(r, t, book, e);
    LandDigests(r, t, book, e);
    var t1 := Land(r, t, e, FloorOf(book, t));
    if e.Hash() in t1.orphans {
      var t2, bs := t1.(orphans := t1.orphans - {e.Hash()}), t1.orphans[e.Hash()];
      PoolAfter(r, t, t2, [e.block]);
      SameHug(t1, t2, t.canonical, e);
      AllHug(r, t2, book, t.canonical, PathTo(Insert(t, e), e), Fork(Insert(t, e), e), e, e, bs, clock, 1);
    }
  }

  /**
   * Exactly when delivering a block within reach throws: if and only if it, or something it reaches in the pool, is
   * not ready. Nothing here is known only after the delivery.
   */
  lemma {:induction false} ThrowsWithinReach<S(!new)>(
    r: Rules<S>, t: Tree<S>, book: Option<Book>, b: Block, clock: Block -> nat)
    requires Lawful(r) && Inv(r, t) && Keyed(t.orphans) && AllStamped(r, t.orphans) && b.header.parentHash in t.blocks
    requires var verified := VerifyAt(r, t.blocks[b.header.parentHash], b, clock(b));
             b.hash !in t.blocks && verified.Some? ==> InReach(r, t, book, verified.value)
    ensures Deliver(r, t, book, b, clock, 0).1.Failed? <==>
            !ReadyOn(r, t.orphans, t.blocks.Keys, t.blocks[b.header.parentHash], b, clock, 0)
  {
    hide Lawful, Inv, Land, FloorOf, RefusedNow, AllUnrefused, InReach, AllStamped, Keyed, ReadyOn, Deliver;
    ThrowsExactly(r, t, book, b, clock, 0);
    if b.hash !in t.blocks && VerifyAt(r, t.blocks[b.header.parentHash], b, clock(b)).Some? {
      InReachIsUnrefused(r, t, book, VerifyAt(r, t.blocks[b.header.parentHash], b, clock(b)).value, clock);
    }
  }
}
