/** Taking a block into the tree, with its waiting children (src/chain.js:537-623). */
module Process {
  import opened Common
  import opened Types
  import opened BlockTree
  import opened ForkChoice
  import opened Anchors

  const MAX_ORPHAN_RESOLUTION_DEPTH: nat := 128

  type Orphans = map<Hash, seq<Block>>

  /** What a delivery comes to; `Failed` is a verification that throws. */
  datatype Outcome = AlreadyKnown | PoolFull | Held | Failed | Accepted(adopted: bool, refused: bool)

  function OrphanSizes(orphans: Orphans): map<Hash, int> { map h | h in orphans :: |orphans[h]| }

  ghost function OrphanCount(orphans: Orphans): int { Sum(OrphanSizes(orphans)) }

  function Waiting(orphans: Orphans, parent: Hash): seq<Block> {
    if parent in orphans then orphans[parent] else []
  }

  function Hold(orphans: Orphans, b: Block): Orphans {
    orphans[b.header.parentHash := Waiting(orphans, b.header.parentHash) + [b]]
  }

  /** Verification at a clock reading: everything else about it is the parent's and the block's business. */
  function VerifyAt<S>(r: Rules<S>, parent: Entry<S>, b: Block, now: nat): Option<Entry<S>> {
    if b.header.timestamp > now + MAX_FUTURE_DRIFT then None else r.Verify(parent, b)
  }

  predicate RefusedNow<S>(r: Rules<S>, t: Tree<S>, e: Entry<S>, floor: int) {
    t.canonical != [] && e.td > t.Head().td && Refuses(r, Insert(t, e), Fork(Insert(t, e), e), floor)
  }

  function FloorOf<S>(book: Option<Book>, t: Tree<S>): (f: int)
    ensures f >= -1
  {
    Floor(book, Hashes(t.canonical))
  }

  /**
   * One delivery. `clock` gives the reading at which each block is verified. A refused reorg returns at
   * once, leaving the block's children waiting; a child that does not verify fails the whole delivery
   * after its older siblings have been processed.
   */
  ghost function Deliver<S>(r: Rules<S>, t: Tree<S>, book: Option<Book>, b: Block, clock: Block -> nat, depth: nat)
    : (Tree<S>, Outcome)
    decreases MAX_ORPHAN_RESOLUTION_DEPTH + 1 - depth, 0, 1
  {
    if b.hash in t.blocks then (t, AlreadyKnown)
    else if b.header.parentHash !in t.blocks then
      if OrphanCount(t.orphans) >= r.maxOrphans then (t, PoolFull)
      else (t.(orphans := Hold(t.orphans, b)), Held)
    else
      match VerifyAt(r, t.blocks[b.header.parentHash], b, clock(b))
      case None => (t, Failed)
      case Some(e) =>
        var t1 := Land(r, t, e, FloorOf(book, t));
        if RefusedNow(r, t, e, FloorOf(book, t)) then (t1, Accepted(false, true))
        else
          var (t2, ok) := Resolved(r, t1, book, e, clock, depth);
          (t2, if ok then Accepted(t2.IsCanonical(e.Hash()), false) else Failed)
  }

  /** Everything waiting for an entry is taken out of the pool and delivered in its turn. */
  ghost function Resolved<S>(r: Rules<S>, t: Tree<S>, book: Option<Book>, e: Entry<S>, clock: Block -> nat, depth: nat)
    : (Tree<S>, bool)
    decreases MAX_ORPHAN_RESOLUTION_DEPTH + 1 - depth, 0, 0
  {
    if e.Hash() !in t.orphans || depth >= MAX_ORPHAN_RESOLUTION_DEPTH then (t, true)
    else DeliverAll(r, t.(orphans := t.orphans - {e.Hash()}), book, t.orphans[e.Hash()], clock, depth + 1)
  }

  ghost function DeliverAll<S>(r: Rules<S>, t: Tree<S>, book: Option<Book>, bs: seq<Block>, clock: Block -> nat,
                               depth: nat)
    : (Tree<S>, bool)
    decreases MAX_ORPHAN_RESOLUTION_DEPTH + 1 - depth, 1, |bs|
  {
    if bs == [] then (t, true)
    else
      var (t1, outcome) := Deliver(r, t, book, bs[0], clock, depth);
      if outcome.Failed? then (t1, false) else DeliverAll(r, t1, book, bs[1..], clock, depth)
  }

  // ------------------------------------------------------------- what a delivery keeps

  /** Between the trees before and after any delivery, however deep its recursion went. */
  ghost predicate Evolved<S(!new)>(r: Rules<S>, t: Tree<S>, t': Tree<S>, floor: int) {
    && t.canonical != [] && t'.canonical != []
    // No known block, nor the post-state stored with it, is ever changed.
    && (forall h <- t.blocks :: h in t'.blocks && t'.blocks[h] == t.blocks[h])
    // The head only ever moves to strictly more work.
    && (t'.canonical == t.canonical || t.Head().td < t'.Head().td)
    && (t.refusedReorg ==> t'.refusedReorg)
    // No transaction, canonical or pending, is lost.
    && t.txIndex.Keys + t.mempool.Keys <= t'.txIndex.Keys + t'.mempool.Keys
    // History at or below the floor is common to both.
    && SharePrefix(t, t', floor + 1)
  }

  lemma EvolvedTransitive<S(!new)>(r: Rules<S>, t: Tree<S>, t1: Tree<S>, t2: Tree<S>, floor: int)
    requires Evolved(r, t, t1, floor) && Evolved(r, t1, t2, floor)
    ensures Evolved(r, t, t2, floor)
  {
  }

  /** A floor stays where the history below it stays. */
  lemma FloorStays<S(!new)>(book: Option<Book>, t: Tree<S>, t': Tree<S>)
    requires SharePrefix(t, t', FloorOf(book, t) + 1)
    ensures FloorOf(book, t') >= FloorOf(book, t)
  {
    var f := FloorOf(book, t);
    if f >= 0 {
      assert t'.canonical[f] == t'.canonical[..f + 1][f] == t.canonical[..f + 1][f] == t.canonical[f];
      FloorAtLeast(book.value, Hashes(t'.canonical), f);
    }
  }

  lemma ShareLess<S(!new)>(t: Tree<S>, t': Tree<S>, k: int, j: int)
    requires SharePrefix(t, t', k) && j <= k
    ensures SharePrefix(t, t', j)
  {
    if k >= 0 { SharedBelow(t.canonical, t'.canonical, k, j); }
  }

  lemma EvolvedSame<S(!new)>(r: Rules<S>, t: Tree<S>, book: Option<Book>, floor: int, orphans: Orphans)
    requires Inv(r, t) && floor <= FloorOf(book, t)
    ensures var t' := t.(orphans := orphans);
            Inv(r, t') && Evolved(r, t, t', floor) && FloorOf(book, t') == FloorOf(book, t)
  {
  }

  lemma {:induction false} LandEvolves<S(!new)>(r: Rules<S>, t: Tree<S>, book: Option<Book>, e: Entry<S>, floor: int)
    requires Lawful(r) && Inv(r, t) && Lands(r, t, e) && floor <= FloorOf(book, t)
    ensures var t' := Land(r, t, e, FloorOf(book, t));
            && Inv(r, t') && Evolved(r, t, t', floor) && floor <= FloorOf(book, t')
            && t'.blocks == t.blocks[e.Hash() := e]
  {
    hide Lawful, Land, Connected, AllKnown, BooksAgree, Linked, SharePrefix;
    var f := FloorOf(book, t);
    LandKeepsInv(r, t, e, f);
    var t', k := Land(r, t, e, f), Max(f + 1, |t.canonical| - r.maxReorgDepth);
    ShareLess(t, t', k, f + 1);
    ShareLess(t, t', k, floor + 1);
    FloorStays(book, t, t');
  }

  lemma {:induction false} DeliverEvolves<S(!new)>(
    r: Rules<S>, t: Tree<S>, book: Option<Book>, b: Block, clock: Block -> nat, depth: nat, floor: int)
    requires Lawful(r) && Inv(r, t) && floor <= FloorOf(book, t)
    ensures var (t', outcome) := Deliver(r, t, book, b, clock, depth);
            && Inv(r, t') && Evolved(r, t, t', floor)
            && (outcome.Accepted? ==> b.hash in t'.blocks)
            && floor <= FloorOf(book, t')
    decreases MAX_ORPHAN_RESOLUTION_DEPTH + 1 - depth, 0, 0
  {
    hide Lawful, Inv, Land, Fork, Evolved, FloorOf, RefusedNow;
    EvolvedSame(r, t, book, floor, t.orphans);
    EvolvedSame(r, t, book, floor, Hold(t.orphans, b));
    if b.hash !in t.blocks && b.header.parentHash in t.blocks
      && VerifyAt(r, t.blocks[b.header.parentHash], b, clock(b)).Some? {
      var e := VerifyAt(r, t.blocks[b.header.parentHash], b, clock(b)).value;
      var t1 := Land(r, t, e, FloorOf(book, t));
      LandEvolves(r, t, book, e, floor);
      if !RefusedNow(r, t, e, FloorOf(book, t)) && e.Hash() in t1.orphans && depth < MAX_ORPHAN_RESOLUTION_DEPTH {
        var t2 := t1.(orphans := t1.orphans - {e.Hash()});
        EvolvedSame(r, t1, book, floor, t2.orphans);
        DeliverAllEvolves(r, t2, book, t1.orphans[e.Hash()], clock, depth + 1, floor);
        var t3 := DeliverAll(r, t2, book, t1.orphans[e.Hash()], clock, depth + 1).0;
        EvolvedTransitive(r, t, t1, t2, floor);
        EvolvedTransitive(r, t, t2, t3, floor);
        EvolvedKeeps(r, t2, t3, floor, e.Hash());
      }
    }
  }

  lemma EvolvedKeeps<S(!new)>(r: Rules<S>, t: Tree<S>, t': Tree<S>, floor: int, h: Hash)
    requires Evolved(r, t, t', floor) && h in t.blocks
    ensures h in t'.blocks && t'.blocks[h] == t.blocks[h]
  {
  }

  lemma {:induction false} DeliverAllEvolves<S(!new)>(
    r: Rules<S>, t: Tree<S>, book: Option<Book>, bs: seq<Block>, clock: Block -> nat, depth: nat, floor: int)
    requires Lawful(r) && Inv(r, t) && floor <= FloorOf(book, t)
    ensures var (t', ok) := DeliverAll(r, t, book, bs, clock, depth);
            Inv(r, t') && Evolved(r, t, t', floor) && floor <= FloorOf(book, t')
    decreases MAX_ORPHAN_RESOLUTION_DEPTH + 1 - depth, 1, |bs|
  {
    hide Lawful, Inv, Evolved, FloorOf;
    EvolvedSame(r, t, book, floor, t.orphans);
    if bs != [] {
      DeliverEvolves(r, t, book, bs[0], clock, depth, floor);
      var (t1, outcome) := Deliver(r, t, book, bs[0], clock, depth);
      if !outcome.Failed? {
        DeliverAllEvolves(r, t1, book, bs[1..], clock, depth, floor);
        EvolvedTransitive(r, t, t1, DeliverAll(r, t1, book, bs[1..], clock, depth).0, floor);
      }
    }
  }

  // ------------------------------------------------------------- what a delivery answers

  /** A block stands on the canonical chain. */
  ghost predicate OnChain<S>(t: Tree<S>, b: Block) { exists i :: 0 <= i < |t.canonical| && t.canonical[i].block == b }

  /** Of a known entry, the test by height and hash is whether its block stands on the chain. */
  lemma {:induction false} CanonicalIsOnChain<S(!new)>(r: Rules<S>, t: Tree<S>, e: Entry<S>)
    requires Lawful(r) && Inv(r, t) && KnownIn(t.blocks, e)
    ensures t.IsCanonical(e.Hash()) <==> OnChain(t, e.block)
  {
    hide BooksAgree, Connected, Linked, SpendOnce, StepShape;
    if t.IsCanonical(e.Hash()) {
      assert KnownIn(t.blocks, t.canonical[e.Number()]);
    }
    if i :| 0 <= i < |t.canonical| && t.canonical[i].block == e.block {
      assert KnownIn(t.blocks, t.canonical[i]);
      PathHeights(r, t.canonical, i);
    }
  }

  /**
   * What an accepted delivery answers is true: adopted means that the block stands on the chain when it ends, and a
   * refused reorganisation is a heavier block than the head that left chain and pool as they were.
   */
  lemma {:induction false} AnswerIsTrue<S(!new)>(
    r: Rules<S>, t: Tree<S>, book: Option<Book>, b: Block, clock: Block -> nat, depth: nat)
    requires Lawful(r) && Inv(r, t)
    ensures var (t', outcome) := Deliver(r, t, book, b, clock, depth);
            outcome.Accepted? ==>
              && b.hash !in t.blocks && b.hash in t'.blocks && t'.blocks[b.hash].block == b
              && (outcome.adopted <==> OnChain(t', b))
              && (outcome.refused ==>
                    && t'.canonical == t.canonical && t'.orphans == t.orphans && t'.refusedReorg
                    && t.canonical != [] && t'.blocks[b.hash].td > t.Head().td)
  {
    hide Lawful, Inv, Land, Fork, FloorOf, RefusedNow, Resolved, Evolved;
    if Deliver(r, t, book, b, clock, depth).1.Accepted? {
      var e := VerifyAt(r, t.blocks[b.header.parentHash], b, clock(b)).value;
      var t1 := Land(r, t, e, FloorOf(book, t));
      LandEvolves(r, t, book, e, -1);
      if RefusedNow(r, t, e, FloorOf(book, t)) {
        RefusedStays(r, t, e, FloorOf(book, t));
        NewIsOffChain(r, t, b);
      } else {
        ResolvedEvolves(r, t1, book, e, clock, depth);
        CanonicalIsOnChain(r, Resolved(r, t1, book, e, clock, depth).0, e);
      }
    }
  }

  lemma {:induction false} ResolvedEvolves<S(!new)>(
    r: Rules<S>, t: Tree<S>, book: Option<Book>, e: Entry<S>, clock: Block -> nat, depth: nat)
    requires Lawful(r) && Inv(r, t) && KnownIn(t.blocks, e)
    ensures var t' := Resolved(r, t, book, e, clock, depth).0;
            Inv(r, t') && KnownIn(t'.blocks, e)
  {
    hide Lawful, Inv, DeliverAll, Evolved, FloorOf;
    if e.Hash() in t.orphans && depth < MAX_ORPHAN_RESOLUTION_DEPTH {
      assert -1 <= FloorOf(book, t);
      var t1 := t.(orphans := t.orphans - {e.Hash()});
      EvolvedSame(r, t, book, -1, t1.orphans);
      DeliverAllEvolves(r, t1, book, t.orphans[e.Hash()], clock, depth + 1, -1);
      EvolvedKeeps(r, t1, DeliverAll(r, t1, book, t.orphans[e.Hash()], clock, depth + 1).0, -1, e.Hash());
    }
  }

  lemma {:induction false} RefusedStays<S>(r: Rules<S>, t: Tree<S>, e: Entry<S>, floor: int)
    requires RefusedNow(r, t, e, floor)
    ensures Land(r, t, e, floor) == Insert(t, e).(refusedReorg := true) && t.canonical != [] && e.td > t.Head().td
  {
    hide Fork, SetHead, PathTo;
  }

  lemma {:induction false} NewIsOffChain<S(!new)>(r: Rules<S>, t: Tree<S>, b: Block)
    requires Inv(r, t) && b.hash !in t.blocks
    ensures !OnChain(t, b)
  {
    hide BooksAgree, Connected, Linked;
    forall i | 0 <= i < |t.canonical|
      ensures t.canonical[i].block != b
    {
      assert KnownIn(t.blocks, t.canonical[i]);
    }
  }

  /** What was accepted once is known: delivered again it changes nothing. */
  lemma {:induction false} DeliveryIsIdempotent<S(!new)>(
    r: Rules<S>, t: Tree<S>, book: Option<Book>, b: Block, clock: Block -> nat, depth: nat, book': Option<Book>,
    clock': Block -> nat)
    requires Lawful(r) && Inv(r, t)
    ensures var (t', outcome) := Deliver(r, t, book, b, clock, depth);
            outcome.Accepted? || outcome.AlreadyKnown? ==> Deliver(r, t', book', b, clock', depth) == (t', AlreadyKnown)
    ensures b.hash in t.blocks ==> Deliver(r, t, book, b, clock, depth) == (t, AlreadyKnown)
  {
    hide Lawful, Inv, Land, FloorOf, RefusedNow, Resolved;
    AnswerIsTrue(r, t, book, b, clock, depth);
  }

  /** With nothing waiting for it, a block no heavier than the head is kept aside, and a heavier one is the head. */
  lemma {:induction false} AloneByWeight<S(!new)>(
    r: Rules<S>, t: Tree<S>, book: Option<Book>, b: Block, clock: Block -> nat, depth: nat)
    requires Lawful(r) && Inv(r, t) && b.hash !in t.orphans
    ensures var (t', outcome) := Deliver(r, t, book, b, clock, depth);
            outcome.Accepted? && !outcome.refused ==>
              && t.canonical != [] && t'.canonical != [] && b.hash in t'.blocks
              && (if t'.blocks[b.hash].td <= t.Head().td then !outcome.adopted && t'.canonical == t.canonical
                  else outcome.adopted && t'.Head().block == b)
  {
    hide Lawful, Connected, AllKnown, BooksAgree, Linked, Land, Fork, FloorOf, RefusedNow;
    var (t', outcome) := Deliver(r, t, book, b, clock, depth);
    AnswerIsTrue(r, t, book, b, clock, depth);
    if outcome.Accepted? && !outcome.refused {
      var e := VerifyAt(r, t.blocks[b.header.parentHash], b, clock(b)).value;
      LandEvolves(r, t, book, e, -1);
      LandByWeight(r, t, e, FloorOf(book, t));
      NewIsOffChain(r, t, b);
    }
  }

  lemma {:induction false} LandByWeight<S(!new)>(r: Rules<S>, t: Tree<S>, e: Entry<S>, floor: int)
    requires Lawful(r) && Inv(r, t) && Lands(r, t, e) && !RefusedNow(r, t, e, floor)
    ensures var t' := Land(r, t, e, floor);
            && t'.orphans == t.orphans && t'.canonical != []
            && (if e.td <= t.Head().td then t'.canonical == t.canonical else t'.Head() == e)
  {
    hide BooksAgree, Connected, AllKnown, StepShape, SpendOnce, NewIndex, NewMempool, ReceiptsFor, Linked, Branch;
    InsertKeepsCore(r, t, e);
    PathToShape(r, Insert(t, e), e);
  }

  // ------------------------------------------------------------- the cap on the pool

  /** A block on an unknown parent waits at the end of that parent's line if there is room, and else changes nothing. */
  lemma {:induction false} HeldExactly<S>(
    r: Rules<S>, t: Tree<S>, book: Option<Book>, b: Block, clock: Block -> nat, depth: nat)
    requires b.hash !in t.blocks && b.header.parentHash !in t.blocks
    ensures var (t', outcome) := Deliver(r, t, book, b, clock, depth);
            && (outcome.Held? <==> OrphanCount(t.orphans) < r.maxOrphans) && (outcome.PoolFull? <==> !outcome.Held?)
            && t' == t.(orphans := t'.orphans)
            && (forall h :: Waiting(t'.orphans, h) ==
                  Waiting(t.orphans, h) + if outcome.Held? && h == b.header.parentHash then [b] else [])
            && OrphanCount(t'.orphans) == OrphanCount(t.orphans) + if outcome.Held? then 1 else 0
  {
    hide OrphanCount;
    HoldAddsOne(t.orphans, b);
  }

  lemma {:induction false} HoldAddsOne(orphans: Orphans, b: Block)
    ensures OrphanCount(Hold(orphans, b)) == OrphanCount(orphans) + 1
  {
    var p, n := b.header.parentHash, |Waiting(orphans, b.header.parentHash)| + 1;
    assert OrphanSizes(Hold(orphans, b)) == OrphanSizes(orphans)[p := n];
    SumUpdate(OrphanSizes(orphans), p, n);
  }

  lemma {:induction false} TakingShrinks(orphans: Orphans, h: Hash)
    ensures OrphanCount(orphans - {h}) == OrphanCount(orphans) - |Waiting(orphans, h)|
  {
    assert OrphanSizes(orphans - {h}) == OrphanSizes(orphans) - {h};
    if h in orphans {
      SumRemove(OrphanSizes(orphans), h);
    } else {
      assert orphans - {h} == orphans;
    }
  }
}
