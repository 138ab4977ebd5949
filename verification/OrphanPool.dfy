/** When a delivery throws: what the blocks waiting in the pool have to do with it (src/chain.js:537-623). */
module OrphanPool {
  import opened Common
  import opened Types
  import opened BlockTree
  import opened ForkChoice
  import opened Anchors
  import opened Process
  import Runs
  import Sync
  import Transition
  import Blocks
  import NativeRules
  import opened SmallChains

  /** Every block waits under its own parent's hash. */
  ghost predicate Keyed(orphans: Orphans) { forall h <- orphans :: forall b <- orphans[h] :: b.header.parentHash == h }

  /** The pool stays keyed, whatever happens. */
  lemma {:induction false} KeyedStays<S(!new)>(r: Rules<S>, n: Runs.Node<S>, ev: Runs.Event<S>)
    requires Keyed(n.tree.orphans)
    ensures Keyed(Runs.Next(r, n, ev).tree.orphans)
  {
    hide NewIndex, NewMempool, ReceiptsFor, Fork, PathTo, FloorOf, Refuses;
  }

  lemma {:induction false} PoolIsKeyed<S(!new)>(r: Rules<S>, n: Runs.Node<S>, evs: seq<Runs.Event<S>>)
    requires Keyed(n.tree.orphans)
    ensures Keyed(Runs.Run(r, n, evs).tree.orphans)
    decreases |evs|
  {
    hide Runs.Next, Keyed;
    if evs != [] {
      KeyedStays(r, n, evs[0]);
      PoolIsKeyed(r, Runs.Next(r, n, evs[0]), evs[1..]);
    }
  }

  /** Blocks were taken out and none put in. */
  ghost predicate Within(fewer: Orphans, orphans: Orphans) {
    forall h <- fewer :: h in orphans && fewer[h] == orphans[h]
  }

  /** An earlier block of the line has the same hash: when the turn of this one comes it is known. */
  predicate Repeats(line: seq<Block>, i: nat)
    requires i < |line|
  {
    exists j :: 0 <= j < i && line[j].hash == line[i].hash
  }

  /**
   * Everything waiting under an entry, at every level a delivery reaches, is known already, repeats a hash of its
   * line, or verifies on its own parent at its clock reading.
   */
  ghost predicate Ready<S>(r: Rules<S>, orphans: Orphans, known: set<Hash>, e: Entry<S>, clock: Block -> nat,
                           depth: nat)
    decreases MAX_ORPHAN_RESOLUTION_DEPTH - depth, 1
  {
    depth < MAX_ORPHAN_RESOLUTION_DEPTH ==>
      LineReady(r, orphans, known, e, Waiting(orphans, e.Hash()), clock, depth + 1)
  }

  ghost predicate LineReady<S>(
    r: Rules<S>, orphans: Orphans, known: set<Hash>, e: Entry<S>, line: seq<Block>, clock: Block -> nat, depth: nat)
    decreases MAX_ORPHAN_RESOLUTION_DEPTH - depth, 3
  {
    forall i :: 0 <= i < |line| ==> Repeats(line, i) || ReadyOn(r, orphans, known, e, line[i], clock, depth)
  }

  ghost predicate ReadyOn<S>(
    r: Rules<S>, orphans: Orphans, known: set<Hash>, e: Entry<S>, b: Block, clock: Block -> nat, depth: nat)
    decreases MAX_ORPHAN_RESOLUTION_DEPTH - depth, 2
  {
    b.hash in known ||
    (VerifyAt(r, e, b, clock(b)).Some? && Ready(r, orphans, known, VerifyAt(r, e, b, clock(b)).value, clock, depth))
  }

  /** Fewer waiting blocks and more known ones are no worse. */
  lemma {:induction false} ReadyWithin<S>(
    r: Rules<S>, orphans: Orphans, known: set<Hash>, fewer: Orphans, more: set<Hash>, e: Entry<S>, clock: Block -> nat,
    depth: nat)
    requires Ready(r, orphans, known, e, clock, depth) && Within(fewer, orphans) && known <= more
    ensures Ready(r, fewer, more, e, clock, depth)
    decreases MAX_ORPHAN_RESOLUTION_DEPTH - depth, 1
  {
    if depth < MAX_ORPHAN_RESOLUTION_DEPTH && e.Hash() in fewer {
      var line := orphans[e.Hash()];
      forall i | 0 <= i < |line|
        ensures Repeats(line, i) || ReadyOn(r, fewer, more, e, line[i], clock, depth + 1)
      {
        if !Repeats(line, i) { ReadyOnWithin(r, orphans, known, fewer, more, e, line[i], clock, depth + 1); }
      }
    }
  }

  lemma {:induction false} ReadyOnWithin<S>(
    r: Rules<S>, orphans: Orphans, known: set<Hash>, fewer: Orphans, more: set<Hash>,
    e: Entry<S>, b: Block, clock: Block -> nat, depth: nat)
    requires ReadyOn(r, orphans, known, e, b, clock, depth) && Within(fewer, orphans) && known <= more
    ensures ReadyOn(r, fewer, more, e, b, clock, depth)
    decreases MAX_ORPHAN_RESOLUTION_DEPTH - depth, 2
  {
    if b.hash !in known {
      ReadyWithin(r, orphans, known, fewer, more, VerifyAt(r, e, b, clock(b)).value, clock, depth);
    }
  }

  // ------------------------------------------------------------- what a delivery does to the pool

  /**
   * What a delivery on a known parent does to the pool and to what is known: every block it adds is one of those
   * delivered or stands on one it adds, and whatever it takes out of the pool waited under a block it knows.
   */
  ghost predicate Digested<S(!new)>(r: Rules<S>, t: Tree<S>, t': Tree<S>, delivered: seq<Block>) {
    && Inv(r, t') && Within(t'.orphans, t.orphans)
    && (forall h <- t.blocks :: h in t'.blocks && t'.blocks[h] == t.blocks[h])
    && (forall h <- t'.blocks ::
          h in t.blocks || t'.blocks[h].block in delivered || t'.blocks[h].Parent() !in t.blocks)
    && (forall h <- t.orphans :: h in t'.orphans || h in t'.blocks)
  }

  lemma {:induction false} DigestedTransitive<S(!new)>(
    r: Rules<S>, t: Tree<S>, t1: Tree<S>, t2: Tree<S>, first: seq<Block>, more: seq<Block>)
    requires Digested(r, t, t1, first) && Digested(r, t1, t2, more)
    ensures Digested(r, t, t2, first + more)
  {
    hide Inv;
  }

  /** Blocks delivered on one that was added are not among those delivered first. */
  lemma {:induction false} DigestedAbove<S(!new)>(
    r: Rules<S>, t: Tree<S>, t1: Tree<S>, t2: Tree<S>, first: seq<Block>, above: seq<Block>)
    requires Digested(r, t, t1, first) && Digested(r, t1, t2, above)
    requires forall b <- above :: b.header.parentHash !in t.blocks
    ensures Digested(r, t, t2, first)
  {
    hide Inv;
  }

  lemma DigestedSame<S(!new)>(r: Rules<S>, t: Tree<S>, bs: seq<Block>)
    requires Inv(r, t)
    ensures Digested(r, t, t, bs)
  {
  }

  lemma {:induction false} LandDigests<S(!new)>(r: Rules<S>, t: Tree<S>, book: Option<Book>, e: Entry<S>)
    requires Lawful(r) && Inv(r, t) && Lands(r, t, e)
    ensures var t1 := Land(r, t, e, FloorOf(book, t));
            && Digested(r, t, t1, [e.block]) && Digested(r, t, t1.(orphans := t1.orphans - {e.Hash()}), [e.block])
            && t1.orphans == t.orphans && KnownIn(t1.blocks, e) && t1.blocks == t.blocks[e.Hash() := e]
  {
    hide Lawful, Land, FloorOf, Connected, AllKnown, BooksAgree, Linked, Hold;
    Runs.FloorBelowTip(r, t, book);
    LandKeepsInv(r, t, e, FloorOf(book, t));
    var t1 := Land(r, t, e, FloorOf(book, t));
    EvolvedSame(r, t1, book, -1, t1.orphans - {e.Hash()});
    SameEntry(r, t, e);
  }

  lemma {:induction false} SameEntry<S(!new)>(r: Rules<S>, t: Tree<S>, e: Entry<S>)
    requires Lawful(r) && Inv(r, t) && Lands(r, t, e)
    ensures e.Hash() in t.blocks ==> t.blocks[e.Hash()] == e
  {
    hide BooksAgree, AllKnown, Linked;
    if e.Hash() in t.blocks { SameHashSameEntry(r, t, e); }
  }

  lemma {:induction false} DeliverDigests<S(!new)>(
    r: Rules<S>, t: Tree<S>, book: Option<Book>, b: Block, clock: Block -> nat, depth: nat)
    requires Lawful(r) && Inv(r, t) && Keyed(t.orphans) && b.header.parentHash in t.blocks
    ensures Digested(r, t, Deliver(r, t, book, b, clock, depth).0, [b])
    decreases MAX_ORPHAN_RESOLUTION_DEPTH + 1 - depth, 0, 0
  {
    hide Lawful, Inv, Land, FloorOf, RefusedNow, Digested;
    DigestedSame(r, t, [b]);
    if b.hash !in t.blocks && VerifyAt(r, t.blocks[b.header.parentHash], b, clock(b)).Some? {
      var e := VerifyAt(r, t.blocks[b.header.parentHash], b, clock(b)).value;
      LandDigests(r, t, book, e);
      var t1 := Land(r, t, e, FloorOf(book, t));
      if !RefusedNow(r, t, e, FloorOf(book, t)) && e.Hash() in t1.orphans && depth < MAX_ORPHAN_RESOLUTION_DEPTH {
        var t2, bs := t1.(orphans := t1.orphans - {e.Hash()}), t1.orphans[e.Hash()];
        PoolAfter(r, t, t2, [b]);
        AllDigest(r, t2, book, bs, clock, depth + 1);
        DigestedAbove(r, t, t2, DeliverAll(r, t2, book, bs, clock, depth + 1).0, [b], bs);
      }
    }
  }

  lemma {:induction false} AllDigest<S(!new)>(
    r: Rules<S>, t: Tree<S>, book: Option<Book>, bs: seq<Block>, clock: Block -> nat, depth: nat)
    requires Lawful(r) && Inv(r, t) && Keyed(t.orphans) && forall b <- bs :: b.header.parentHash in t.blocks
    ensures Digested(r, t, DeliverAll(r, t, book, bs, clock, depth).0, bs)
    decreases MAX_ORPHAN_RESOLUTION_DEPTH + 1 - depth, 1, |bs|
  {
    hide Lawful, Inv, Deliver, Digested;
    DigestedSame(r, t, bs);
    if bs != [] {
      assert bs[0] in bs && forall b <- bs[1..] :: b in bs;
      DeliverDigests(r, t, book, bs[0], clock, depth);
      var (t1, outcome) := Deliver(r, t, book, bs[0], clock, depth);
      PoolAfter(r, t, t1, [bs[0]]);
      assert [bs[0]] + bs[1..] == bs;
      if outcome.Failed? {
        DigestedSame(r, t1, bs[1..]);
        DigestedTransitive(r, t, t1, t1, [bs[0]], bs[1..]);
      } else {
        AllDigest(r, t1, book, bs[1..], clock, depth);
        DigestedTransitive(r, t, t1, DeliverAll(r, t1, book, bs[1..], clock, depth).0, [bs[0]], bs[1..]);
      }
    }
  }

  /** Some of what a delivery leaves as it was. */
  lemma PoolAfter<S(!new)>(r: Rules<S>, t: Tree<S>, t': Tree<S>, bs: seq<Block>)
    requires Digested(r, t, t', bs)
    ensures Inv(r, t') && Within(t'.orphans, t.orphans) && t.blocks.Keys <= t'.blocks.Keys
    ensures Keyed(t.orphans) ==> Keyed(t'.orphans)
    ensures AllStamped(r, t.orphans) ==> AllStamped(r, t'.orphans)
    ensures forall h <- t.blocks :: h in t'.blocks && t'.blocks[h] == t.blocks[h]
  {
  }

  // ------------------------------------------------------------- a delivery over ready blocks never throws

  /** If everything waiting under a block is ready, delivering it never fails, whatever is refused on the way. */
  lemma {:induction false} ReadyNeverFails<S(!new)>(
    r: Rules<S>, t: Tree<S>, book: Option<Book>, b: Block, clock: Block -> nat, depth: nat)
    requires Lawful(r) && Inv(r, t) && Keyed(t.orphans) && b.header.parentHash in t.blocks
    requires ReadyOn(r, t.orphans, t.blocks.Keys, t.blocks[b.header.parentHash], b, clock, depth)
    ensures var (t', outcome) := Deliver(r, t, book, b, clock, depth);
            !outcome.Failed? && b.hash in t'.blocks
    decreases MAX_ORPHAN_RESOLUTION_DEPTH + 1 - depth, 0, 0
  {
    hide Lawful, Inv, Land, FloorOf, RefusedNow, LineReady;
    if b.hash !in t.blocks {
      var e := VerifyAt(r, t.blocks[b.header.parentHash], b, clock(b)).value;
      LandDigests(r, t, book, e);
      var t1 := Land(r, t, e, FloorOf(book, t));
      if !RefusedNow(r, t, e, FloorOf(book, t)) && e.Hash() in t1.orphans && depth < MAX_ORPHAN_RESOLUTION_DEPTH {
        var t2, bs := t1.(orphans := t1.orphans - {e.Hash()}), t1.orphans[e.Hash()];
        LineReadyWithin(r, t, t2, e, bs, clock, depth + 1);
        AllReadyNeverFail(r, t2, book, e, bs, clock, depth + 1);
      }
    }
    OneEndsKnown(r, t, book, b, clock, depth);
  }

  lemma {:induction false} LineReadyWithin<S(!new)>(
    r: Rules<S>, t: Tree<S>, t': Tree<S>, e: Entry<S>, line: seq<Block>, clock: Block -> nat, depth: nat)
    requires LineReady(r, t.orphans, t.blocks.Keys, e, line, clock, depth)
    requires Within(t'.orphans, t.orphans) && t.blocks.Keys <= t'.blocks.Keys
    ensures LineReady(r, t'.orphans, t'.blocks.Keys, e, line, clock, depth)
  {
    hide ReadyOn;
    forall i | 0 <= i < |line|
      ensures Repeats(line, i) || ReadyOn(r, t'.orphans, t'.blocks.Keys, e, line[i], clock, depth)
    {
      if !Repeats(line, i) {
        ReadyOnWithin(r, t.orphans, t.blocks.Keys, t'.orphans, t'.blocks.Keys, e, line[i], clock, depth);
      }
    }
  }

  /** Once the first block of a ready line is known, the rest is a ready line. */
  lemma {:induction false} RestIsReady<S>(
    r: Rules<S>, orphans: Orphans, known: set<Hash>, e: Entry<S>, line: seq<Block>, clock: Block -> nat, depth: nat)
    requires line != [] && LineReady(r, orphans, known, e, line, clock, depth) && line[0].hash in known
    ensures LineReady(r, orphans, known, e, line[1..], clock, depth)
  {
    var rest := line[1..];
    forall i | 0 <= i < |rest|
      ensures Repeats(rest, i) || ReadyOn(r, orphans, known, e, rest[i], clock, depth)
    {
      assert rest[i] == line[i + 1];
      if j :| 0 <= j < i + 1 && line[j].hash == line[i + 1].hash {
        if j > 0 { assert rest[j - 1].hash == rest[i].hash; }
      }
    }
  }

  lemma {:induction false} AllReadyNeverFail<S(!new)>(
    r: Rules<S>, t: Tree<S>, book: Option<Book>, e: Entry<S>, bs: seq<Block>, clock: Block -> nat, depth: nat)
    requires Lawful(r) && Inv(r, t) && Keyed(t.orphans) && KnownIn(t.blocks, e)
    requires forall b <- bs :: b.header.parentHash == e.Hash()
    requires LineReady(r, t.orphans, t.blocks.Keys, e, bs, clock, depth)
    ensures DeliverAll(r, t, book, bs, clock, depth).1
    decreases MAX_ORPHAN_RESOLUTION_DEPTH + 1 - depth, 1, |bs|
  {
    hide Lawful, Inv, Deliver, ReadyOn, Digested;
    if bs != [] {
      assert bs[0] in bs && forall b <- bs[1..] :: b in bs;
      assert !Repeats(bs, 0);
      ReadyNeverFails(r, t, book, bs[0], clock, depth);
      DeliverDigests(r, t, book, bs[0], clock, depth);
      var t1 := Deliver(r, t, book, bs[0], clock, depth).0;
      PoolAfter(r, t, t1, [bs[0]]);
      LineReadyWithin(r, t, t1, e, bs, clock, depth);
      RestIsReady(r, t1.orphans, t1.blocks.Keys, e, bs, clock, depth);
      AllReadyNeverFail(r, t1, book, e, bs[1..], clock, depth);
    }
  }

  // ------------------------------------------------------------- and one that refuses nothing throws over any other

  /** No block of a delivery is refused. */
  ghost predicate Unrefused<S>(r: Rules<S>, t: Tree<S>, book: Option<Book>, b: Block, clock: Block -> nat, depth: nat)
    decreases MAX_ORPHAN_RESOLUTION_DEPTH + 1 - depth, 0
  {
    b.hash !in t.blocks && b.header.parentHash in t.blocks ==>
      match VerifyAt(r, t.blocks[b.header.parentHash], b, clock(b))
      case None => true
      case Some(e) =>
        var t1 := Land(r, t, e, FloorOf(book, t));
        && !RefusedNow(r, t, e, FloorOf(book, t))
        && (e.Hash() in t1.orphans && depth < MAX_ORPHAN_RESOLUTION_DEPTH ==>
              AllUnrefused(r, t1.(orphans := t1.orphans - {e.Hash()}), book, t1.orphans[e.Hash()], clock, depth + 1))
  }

  ghost predicate AllUnrefused<S>(
    r: Rules<S>, t: Tree<S>, book: Option<Book>, bs: seq<Block>, clock: Block -> nat, depth: nat)
    decreases MAX_ORPHAN_RESOLUTION_DEPTH + 1 - depth, 1, |bs|
  {
    bs != [] ==>
      && Unrefused(r, t, book, bs[0], clock, depth)
      && (var (t1, outcome) := Deliver(r, t, book, bs[0], clock, depth);
          outcome.Failed? || AllUnrefused(r, t1, book, bs[1..], clock, depth))
  }

  /** A refusal leaves its mark on the tree. */
  lemma {:induction false} UnmarkedIsUnrefused<S(!new)>(
    r: Rules<S>, t: Tree<S>, book: Option<Book>, b: Block, clock: Block -> nat, depth: nat)
    requires Lawful(r) && Inv(r, t)
    ensures Unrefused(r, t, book, b, clock, depth) || Deliver(r, t, book, b, clock, depth).0.refusedReorg
    decreases MAX_ORPHAN_RESOLUTION_DEPTH + 1 - depth, 0, 0
  {
    hide Lawful, Inv, Fork, PathTo, FloorOf, SetHead, Land, RefusedNow;
    if b.hash !in t.blocks && b.header.parentHash in t.blocks
      && VerifyAt(r, t.blocks[b.header.parentHash], b, clock(b)).Some? {
      var e := VerifyAt(r, t.blocks[b.header.parentHash], b, clock(b)).value;
      LandMarks(r, t, e, FloorOf(book, t));
      LandDigests(r, t, book, e);
      var t1 := Land(r, t, e, FloorOf(book, t));
      if !RefusedNow(r, t, e, FloorOf(book, t)) && e.Hash() in t1.orphans && depth < MAX_ORPHAN_RESOLUTION_DEPTH {
        AllUnmarkedUnrefused(r, t1.(orphans := t1.orphans - {e.Hash()}), book, t1.orphans[e.Hash()], clock, depth + 1);
      }
    }
  }

  lemma LandMarks<S>(r: Rules<S>, t: Tree<S>, e: Entry<S>, floor: int)
    ensures RefusedNow(r, t, e, floor) ==> Land(r, t, e, floor).refusedReorg
  {
  }

  lemma {:induction false} AllUnmarkedUnrefused<S(!new)>(
    r: Rules<S>, t: Tree<S>, book: Option<Book>, bs: seq<Block>, clock: Block -> nat, depth: nat)
    requires Lawful(r) && Inv(r, t)
    ensures AllUnrefused(r, t, book, bs, clock, depth) || DeliverAll(r, t, book, bs, clock, depth).0.refusedReorg
    decreases MAX_ORPHAN_RESOLUTION_DEPTH + 1 - depth, 1, |bs|
  {
    hide Lawful, Inv, Deliver, FloorOf, Unrefused;
    if bs != [] {
      UnmarkedIsUnrefused(r, t, book, bs[0], clock, depth);
      assert -1 <= FloorOf(book, t);
      DeliverEvolves(r, t, book, bs[0], clock, depth, -1);
      var (t1, outcome) := Deliver(r, t, book, bs[0], clock, depth);
      if !outcome.Failed? {
        AllUnmarkedUnrefused(r, t1, book, bs[1..], clock, depth);
        DeliverAllEvolves(r, t1, book, bs[1..], clock, depth, -1);
      }
    }
  }

  /** A block names the same parent as any that verifies and has its hash: a hash covers the header. */
  ghost predicate Stamped<S(!new)>(r: Rules<S>, w: Block) {
    forall p, b :: r.step(p, b).Some? && b.hash == w.hash ==> b.header.parentHash == w.header.parentHash
  }

  ghost predicate AllStamped<S(!new)>(r: Rules<S>, orphans: Orphans) {
    forall h <- orphans :: forall w <- orphans[h] :: Stamped(r, w)
  }

  /** A stamped block whose hash became known is known on the parent it names. */
  lemma {:induction false} StandsOnItsParent<S(!new)>(
    r: Rules<S>, t: Tree<S>, t': Tree<S>, bs: seq<Block>, w: Block)
    requires Inv(r, t) && Digested(r, t, t', bs) && Stamped(r, w) && w.hash in t'.blocks && w.hash !in t.blocks
    ensures t'.blocks[w.hash].Hash() == w.hash && t'.blocks[w.hash].Parent() == w.header.parentHash
    ensures w.header.parentHash in t'.blocks
  {
    hide BooksAgree, AllKnown, Linked;
    KnownStandsVerified(r, t.blocks, r.genesis.Hash());
    KnownStandsVerified(r, t'.blocks, w.hash);
  }

  /** What is ready after a delivery was ready before it, unless the delivery made it known. */
  lemma {:induction false} WasReadyOn<S(!new)>(
    r: Rules<S>, t: Tree<S>, t': Tree<S>, bs: seq<Block>, e: Entry<S>, b: Block, clock: Block -> nat, depth: nat)
    requires Inv(r, t) && Digested(r, t, t', bs) && Keyed(t.orphans) && AllStamped(r, t.orphans)
    requires b.hash in t'.blocks ==> b.hash in t.blocks
    requires ReadyOn(r, t'.orphans, t'.blocks.Keys, e, b, clock, depth)
    ensures ReadyOn(r, t.orphans, t.blocks.Keys, e, b, clock, depth)
    decreases MAX_ORPHAN_RESOLUTION_DEPTH - depth, 1
  {
    hide Inv, Digested, Keyed, AllStamped;
    if b.hash !in t.blocks {
      WasReady(r, t, t', bs, VerifyAt(r, e, b, clock(b)).value, clock, depth);
    }
  }

  lemma {:induction false} WasReady<S(!new)>(
    r: Rules<S>, t: Tree<S>, t': Tree<S>, bs: seq<Block>, e: Entry<S>, clock: Block -> nat, depth: nat)
    requires Inv(r, t) && Digested(r, t, t', bs) && Keyed(t.orphans) && AllStamped(r, t.orphans)
    requires e.Hash() !in t'.blocks && Ready(r, t'.orphans, t'.blocks.Keys, e, clock, depth)
    ensures Ready(r, t.orphans, t.blocks.Keys, e, clock, depth)
    decreases MAX_ORPHAN_RESOLUTION_DEPTH - depth, 0
  {
    hide Inv, ReadyOn;
    if depth < MAX_ORPHAN_RESOLUTION_DEPTH && e.Hash() in t.orphans {
      var line := t.orphans[e.Hash()];
      assert line == Waiting(t'.orphans, e.Hash());
      forall i | 0 <= i < |line|
        ensures Repeats(line, i) || ReadyOn(r, t.orphans, t.blocks.Keys, e, line[i], clock, depth + 1)
      {
        if !Repeats(line, i) {
          if line[i].hash in t'.blocks && line[i].hash !in t.blocks {
            StandsOnItsParent(r, t, t', bs, line[i]);
          }
          WasReadyOn(r, t, t', bs, e, line[i], clock, depth + 1);
        }
      }
    }
  }

  lemma EmptyLineIsReady<S>(
    r: Rules<S>, orphans: Orphans, known: set<Hash>, e: Entry<S>, clock: Block -> nat, depth: nat)
    ensures LineReady(r, orphans, known, e, [], clock, depth)
  {
  }

  lemma StampedLine<S(!new)>(r: Rules<S>, orphans: Orphans, h: Hash)
    requires Keyed(orphans) && AllStamped(r, orphans) && h in orphans
    ensures forall b <- orphans[h] :: b.header.parentHash == h && Stamped(r, b)
  {
  }

  /** A delivery that refuses nothing and does not fail found everything ready. */
  lemma {:induction false} DoneWasReady<S(!new)>(
    r: Rules<S>, t: Tree<S>, book: Option<Book>, b: Block, clock: Block -> nat, depth: nat)
    requires Lawful(r) && Inv(r, t) && Keyed(t.orphans) && AllStamped(r, t.orphans) && b.header.parentHash in t.blocks
    requires Unrefused(r, t, book, b, clock, depth) && !Deliver(r, t, book, b, clock, depth).1.Failed?
    ensures ReadyOn(r, t.orphans, t.blocks.Keys, t.blocks[b.header.parentHash], b, clock, depth)
    decreases MAX_ORPHAN_RESOLUTION_DEPTH + 1 - depth, 0, 0
  {
    hide Lawful, Inv, Land, FloorOf, RefusedNow, LineReady, AllStamped, Digested;
    if b.hash !in t.blocks {
      var e := VerifyAt(r, t.blocks[b.header.parentHash], b, clock(b)).value;
      LandDigests(r, t, book, e);
      var t1 := Land(r, t, e, FloorOf(book, t));
      EmptyLineIsReady(r, t.orphans, t.blocks.Keys, e, clock, depth + 1);
      if e.Hash() in t1.orphans && depth < MAX_ORPHAN_RESOLUTION_DEPTH {
        var t2, bs := t1.(orphans := t1.orphans - {e.Hash()}), t1.orphans[e.Hash()];
        PoolAfter(r, t, t2, [b]);
        StampedLine(r, t.orphans, e.Hash());
        AllDoneWereReady(r, t2, book, e, bs, clock, depth + 1);
        LineWasReady(r, t, t2, [b], e, clock, depth + 1);
      }
    }
  }

  /** A line waiting under a block just landed was ready before it landed. */
  lemma {:induction false} LineWasReady<S(!new)>(
    r: Rules<S>, t: Tree<S>, t': Tree<S>, bs: seq<Block>, e: Entry<S>, clock: Block -> nat, depth: nat)
    requires Inv(r, t) && Digested(r, t, t', bs) && Keyed(t.orphans) && AllStamped(r, t.orphans)
    requires e.Hash() in t.orphans && e.Parent() in t.blocks && e.Hash() !in t.blocks
    requires t'.blocks == t.blocks[e.Hash() := e]
    requires LineReady(r, t'.orphans, t'.blocks.Keys, e, t.orphans[e.Hash()], clock, depth)
    ensures LineReady(r, t.orphans, t.blocks.Keys, e, t.orphans[e.Hash()], clock, depth)
  {
    hide Inv, Digested, ReadyOn;
    var line := t.orphans[e.Hash()];
    forall i | 0 <= i < |line|
      ensures Repeats(line, i) || ReadyOn(r, t.orphans, t.blocks.Keys, e, line[i], clock, depth)
    {
      if !Repeats(line, i) {
        if line[i].hash == e.Hash() { StandsOnItsParent(r, t, t', bs, line[i]); }
        WasReadyOn(r, t, t', bs, e, line[i], clock, depth);
      }
    }
  }

  lemma {:induction false} AllDoneWereReady<S(!new)>(
    r: Rules<S>, t: Tree<S>, book: Option<Book>, e: Entry<S>, bs: seq<Block>, clock: Block -> nat, depth: nat)
    requires Lawful(r) && Inv(r, t) && Keyed(t.orphans) && AllStamped(r, t.orphans) && KnownIn(t.blocks, e)
    requires forall b <- bs :: b.header.parentHash == e.Hash() && Stamped(r, b)
    requires AllUnrefused(r, t, book, bs, clock, depth) && DeliverAll(r, t, book, bs, clock, depth).1
    ensures LineReady(r, t.orphans, t.blocks.Keys, e, bs, clock, depth)
    decreases MAX_ORPHAN_RESOLUTION_DEPTH + 1 - depth, 1, |bs|
  {
    hide Lawful, Inv, Deliver, Unrefused, ReadyOn, Digested, Stamped, AllStamped;
    if bs != [] {
      assert bs[0] in bs && forall b <- bs[1..] :: b in bs;
      DoneWasReady(r, t, book, bs[0], clock, depth);
      DeliverDigests(r, t, book, bs[0], clock, depth);
      var t1 := Deliver(r, t, book, bs[0], clock, depth).0;
      PoolAfter(r, t, t1, [bs[0]]);
      AllDoneWereReady(r, t1, book, e, bs[1..], clock, depth);
      RestWasReady(r, t, t1, e, bs, clock, depth);
    }
  }

  /** After the first block of a line: what is ready of the rest was ready before, or repeats the first. */
  lemma {:induction false} RestWasReady<S(!new)>(
    r: Rules<S>, t: Tree<S>, t': Tree<S>, e: Entry<S>, line: seq<Block>, clock: Block -> nat, depth: nat)
    requires Inv(r, t) && Keyed(t.orphans) && AllStamped(r, t.orphans) && KnownIn(t.blocks, e)
    requires line != [] && Digested(r, t, t', [line[0]])
    requires forall b <- line :: b.header.parentHash == e.Hash() && Stamped(r, b)
    requires ReadyOn(r, t.orphans, t.blocks.Keys, e, line[0], clock, depth)
    requires LineReady(r, t'.orphans, t'.blocks.Keys, e, line[1..], clock, depth)
    ensures LineReady(r, t.orphans, t.blocks.Keys, e, line, clock, depth)
  {
    hide Inv, ReadyOn, Stamped, AllStamped;
    var rest := line[1..];
    forall i | 0 < i < |line|
      ensures Repeats(line, i) || ReadyOn(r, t.orphans, t.blocks.Keys, e, line[i], clock, depth)
    {
      assert rest[i - 1] == line[i] && line[i] in line;
      RepeatsInRest(line, i);
      if !Repeats(line, i) {
        OnlyFirstIsNew(r, t, t', line[0], line[i]);
        WasReadyOn(r, t, t', [line[0]], e, line[i], clock, depth);
      }
    }
  }

  lemma RepeatsInRest(line: seq<Block>, i: nat)
    requires 0 < i < |line|
    ensures Repeats(line[1..], i - 1) || line[0].hash == line[i].hash ==> Repeats(line, i)
  {
    var rest := line[1..];
    if j :| 0 <= j < i - 1 && rest[j].hash == rest[i - 1].hash { assert line[j + 1].hash == line[i].hash; }
  }

  /** Of the blocks on one known parent, delivering one makes no other known. */
  lemma {:induction false} OnlyFirstIsNew<S(!new)>(r: Rules<S>, t: Tree<S>, t': Tree<S>, first: Block, w: Block)
    requires Inv(r, t) && Digested(r, t, t', [first]) && Stamped(r, w) && w.header.parentHash in t.blocks
    requires first.hash != w.hash
    ensures w.hash in t'.blocks ==> w.hash in t.blocks
  {
    hide Inv, Stamped;
    if w.hash in t'.blocks && w.hash !in t.blocks { StandsOnItsParent(r, t, t', [first], w); }
  }

  /**
   * Exactly when a delivery throws. If it refuses no reorganisation, it fails if and only if something it reaches
   * in the pool, at any level, is not ready; and no refusal at all, ever, is enough to know that it refuses none.
   */
  lemma {:induction false} ThrowsExactly<S(!new)>(
    r: Rules<S>, t: Tree<S>, book: Option<Book>, b: Block, clock: Block -> nat, depth: nat)
    requires Lawful(r) && Inv(r, t) && Keyed(t.orphans) && AllStamped(r, t.orphans) && b.header.parentHash in t.blocks
    ensures var (t', outcome) := Deliver(r, t, book, b, clock, depth);
            var ready := ReadyOn(r, t.orphans, t.blocks.Keys, t.blocks[b.header.parentHash], b, clock, depth);
            && (ready ==> !outcome.Failed?)
            && (Unrefused(r, t, book, b, clock, depth) ==> (outcome.Failed? <==> !ready))
            && (t'.refusedReorg || (outcome.Failed? <==> !ready))
  {
    hide Lawful, Inv, Deliver, ReadyOn, Unrefused, Keyed, AllStamped;
    if ReadyOn(r, t.orphans, t.blocks.Keys, t.blocks[b.header.parentHash], b, clock, depth) {
      ReadyNeverFails(r, t, book, b, clock, depth);
    } else {
      UnmarkedIsUnrefused(r, t, book, b, clock, depth);
      if Unrefused(r, t, book, b, clock, depth) && !Deliver(r, t, book, b, clock, depth).1.Failed? {
        DoneWasReady(r, t, book, b, clock, depth);
      }
    }
  }

  // ------------------------------------------------------------- along a path

  /** A block of a path once known stands there as the entry the path has. */
  lemma {:induction false} KnownOnPath<S(!new)>(r: Rules<S>, t: Tree<S>, path: seq<Entry<S>>, i: nat)
    requires StepShape(r) && Connected(r, t.blocks) && FromGenesis(r, path) && 0 < i < |path|
    requires KnownIn(t.blocks, path[i - 1]) && path[i].Hash() in t.blocks
    ensures KnownIn(t.blocks, path[i])
  {
    Sync.FollowsAt(r, path, i);
    SameHashSameEntry(r, t, path[i]);
  }

  /** Delivering a path block by block never throws where all that waits under its blocks was ready at the start. */
  lemma {:induction false} PathNeverThrows<S(!new)>(
    r: Rules<S>, t: Tree<S>, book: Option<Book>, path: seq<Entry<S>>, i: nat, clock: Block -> nat)
    requires Lawful(r) && Inv(r, t) && Keyed(t.orphans) && FromGenesis(r, path) && 0 < i <= |path|
    requires KnownIn(t.blocks, path[i - 1])
    requires forall k :: i <= k < |path| ==>
               ReadyOn(r, t.orphans, t.blocks.Keys, path[k - 1], path[k].block, clock, 0)
    ensures var (t', ok) := DeliverAll(r, t, book, Runs.BlocksOf(path[i..]), clock, 0);
            ok && forall k :: i - 1 <= k < |path| ==> KnownIn(t'.blocks, path[k])
    decreases |path| - i
  {
    hide Inv, Deliver, ReadyOn, Digested, SpendOnce, StepShape, FromGenesis;
    if i < |path| {
      Sync.FollowsAt(r, path, i);
      var b := path[i].block;
      assert Runs.BlocksOf(path[i..])[0] == b && Runs.BlocksOf(path[i..])[1..] == Runs.BlocksOf(path[i + 1..]);
      ReadyNeverFails(r, t, book, b, clock, 0);
      DeliverDigests(r, t, book, b, clock, 0);
      var t1 := Deliver(r, t, book, b, clock, 0).0;
      PoolAfter(r, t, t1, [b]);
      InvIsCore(r, t1);
      KnownOnPath(r, t1, path, i);
      forall k | i + 1 <= k < |path|
        ensures ReadyOn(r, t1.orphans, t1.blocks.Keys, path[k - 1], path[k].block, clock, 0)
      {
        ReadyOnWithin(r, t.orphans, t.blocks.Keys, t1.orphans, t1.blocks.Keys, path[k - 1], path[k].block, clock, 0);
      }
      PathNeverThrows(r, t1, book, path, i + 1, clock);
      DeliverAllEvolves(r, t1, book, Runs.BlocksOf(path[i + 1..]), clock, 0, -1);
    }
  }

  lemma InvIsCore<S(!new)>(r: Rules<S>, t: Tree<S>)
    requires Inv(r, t)
    ensures Core(r, t) && Connected(r, t.blocks)
  {
  }

  // ------------------------------------------------------------- what a block's own children do to it

  /** The canonical chain runs through an entry. */
  ghost predicate Through<S>(path: seq<Entry<S>>, e: Entry<S>) { e.Number() < |path| && path[e.Number()] == e }

  /** A known entry stands on or above another. */
  ghost predicate Above<S(!new)>(r: Rules<S>, blocks: map<Hash, Entry<S>>, p: Entry<S>, e: Entry<S>) {
    exists q :: PathThrough(r, blocks, q, p, e)
  }

  ghost predicate PathThrough<S>(
    r: Rules<S>, blocks: map<Hash, Entry<S>>, q: seq<Entry<S>>, p: Entry<S>, e: Entry<S>)
  {
    FromGenesis(r, q) && AllKnown(blocks, q) && q[|q| - 1] == p && Through(q, e)
  }

  lemma AboveStays<S(!new)>(
    r: Rules<S>, blocks: map<Hash, Entry<S>>, more: map<Hash, Entry<S>>, p: Entry<S>, e: Entry<S>)
    requires Above(r, blocks, p, e) && forall h <- blocks :: h in more && more[h] == blocks[h]
    ensures Above(r, more, p, e)
  {
    var q :| PathThrough(r, blocks, q, p, e);
    Sync.KnownStays(blocks, more, q);
    assert PathThrough(r, more, q, p, e);
  }

  /** Landing a block above one the chain runs through leaves the chain running through it. */
  lemma {:induction false} LandStaysThrough<S(!new)>(
    r: Rules<S>, t: Tree<S>, book: Option<Book>, x: Entry<S>, e: Entry<S>)
    requires Lawful(r) && Inv(r, t) && Lands(r, t, x) && Through(t.canonical, e)
    requires Above(r, t.blocks, t.blocks[x.Parent()], e) && t.blocks[x.Parent()].Hash() == x.Parent()
    ensures var t1 := Land(r, t, x, FloorOf(book, t));
            Through(t1.canonical, e) && Above(r, t1.blocks, x, e)
  {
    hide BooksAgree, Connected, FloorOf, SpendOnce, StepShape, NewIndex, NewMempool, ReceiptsFor, Fork, PathTo, Linked;
    var t1 := Insert(t, x);
    InsertKeepsCore(r, t, x);
    InsertKeepsAll(r, t, x);
    AboveStays(r, t.blocks, t1.blocks, t.blocks[x.Parent()], e);
    var q :| PathThrough(r, t1.blocks, q, t.blocks[x.Parent()], e);
    PathExtends(r, q, x);
    forall i | 0 <= i < |q + [x]|
      ensures KnownIn(t1.blocks, (q + [x])[i])
    {
      if i < |q| { assert KnownIn(t1.blocks, q[i]); }
    }
    assert PathThrough(r, t1.blocks, q + [x], x, e);
    Sync.PathIsUnique(r, t1, x, q + [x]);
  }

  lemma {:induction false} InsertKeepsAll<S(!new)>(r: Rules<S>, t: Tree<S>, x: Entry<S>)
    requires Lawful(r) && Inv(r, t) && Lands(r, t, x)
    ensures forall h <- t.blocks :: h in Insert(t, x).blocks && Insert(t, x).blocks[h] == t.blocks[h]
  {
    hide Lawful, Inv;
    SameEntry(r, t, x);
  }

  /** So does a whole delivery above it, failed or not. */
  lemma {:induction false} DeliverStaysThrough<S(!new)>(
    r: Rules<S>, t: Tree<S>, book: Option<Book>, p: Entry<S>, b: Block, clock: Block -> nat, depth: nat, e: Entry<S>)
    requires Lawful(r) && Inv(r, t) && Keyed(t.orphans) && KnownIn(t.blocks, p) && b.header.parentHash == p.Hash()
    requires Through(t.canonical, e) && Above(r, t.blocks, p, e)
    ensures Through(Deliver(r, t, book, b, clock, depth).0.canonical, e)
    decreases MAX_ORPHAN_RESOLUTION_DEPTH + 1 - depth, 0, 0
  {
    hide Lawful, Inv, Land, FloorOf, RefusedNow, Digested, Through, Above;
    if b.hash !in t.blocks && VerifyAt(r, p, b, clock(b)).Some? {
      var x := VerifyAt(r, p, b, clock(b)).value;
      LandDigests(r, t, book, x);
      LandStaysThrough(r, t, book, x, e);
      var t1 := Land(r, t, x, FloorOf(book, t));
      if !RefusedNow(r, t, x, FloorOf(book, t)) && x.Hash() in t1.orphans && depth < MAX_ORPHAN_RESOLUTION_DEPTH {
        var t2, bs := t1.(orphans := t1.orphans - {x.Hash()}), t1.orphans[x.Hash()];
        PoolAfter(r, t, t2, [b]);
        AllStayThrough(r, t2, book, x, bs, clock, depth + 1, e);
      }
    }
  }

  lemma {:induction false} AllStayThrough<S(!new)>(
    r: Rules<S>, t: Tree<S>, book: Option<Book>, p: Entry<S>, bs: seq<Block>, clock: Block -> nat, depth: nat,
    e: Entry<S>)
    requires Lawful(r) && Inv(r, t) && Keyed(t.orphans) && KnownIn(t.blocks, p)
    requires forall b <- bs :: b.header.parentHash == p.Hash()
    requires Through(t.canonical, e) && Above(r, t.blocks, p, e)
    ensures Through(DeliverAll(r, t, book, bs, clock, depth).0.canonical, e)
    decreases MAX_ORPHAN_RESOLUTION_DEPTH + 1 - depth, 1, |bs|
  {
    hide Lawful, Inv, Deliver, Through, Above;
    if bs != [] {
      assert bs[0] in bs && forall b <- bs[1..] :: b in bs;
      DeliverStaysThrough(r, t, book, p, bs[0], clock, depth, e);
      DeliverDigests(r, t, book, bs[0], clock, depth);
      var (t1, outcome) := Deliver(r, t, book, bs[0], clock, depth);
      PoolAfter(r, t, t1, [bs[0]]);
      AboveStays(r, t.blocks, t1.blocks, p, e);
      if !outcome.Failed? { AllStayThrough(r, t1, book, p, bs[1..], clock, depth, e); }
    }
  }

  /**
   * A block that extends the head is on the canonical chain when its delivery ends, thrown or not: whatever waited
   * below it can only have built on it. So the delivery adopts it or throws, and throws not if all there is ready.
   */
  lemma {:induction false} TipExtensionStays<S(!new)>(
    r: Rules<S>, t: Tree<S>, book: Option<Book>, e: Entry<S>, clock: Block -> nat)
    requires Lawful(r) && Inv(r, t) && Keyed(t.orphans) && e.Hash() !in t.blocks
    requires e.Parent() == t.Head().Hash() && e.Number() == |t.canonical| && t.Head().td < e.td
    requires VerifyAt(r, t.Head(), e.block, clock(e.block)) == Some(e)
    ensures var (t', outcome) := Deliver(r, t, book, e.block, clock, 0);
            && Through(t'.canonical, e) && (outcome.Failed? || outcome == Accepted(true, false))
            && (ReadyOn(r, t.orphans, t.blocks.Keys, t.Head(), e.block, clock, 0) ==> !outcome.Failed?)
  {
    InvIsCore(r, t);
    Sync.HeadIsKnown(r, t);
    hide Lawful, Inv, Land, FloorOf, RefusedNow, Digested, Resolved, ReadyOn;
    Sync.TipExtensionIsAdopted(r, t, book, e);
    LandDigests(r, t, book, e);
    ResolvedStaysThrough(r, t, book, e, clock);
    if ReadyOn(r, t.orphans, t.blocks.Keys, t.Head(), e.block, clock, 0) {
      ReadyNeverFails(r, t, book, e.block, clock, 0);
    }
  }

  /** What waited for a block that is now the head cannot take it off the chain. */
  lemma {:induction false} ResolvedStaysThrough<S(!new)>(
    r: Rules<S>, t: Tree<S>, book: Option<Book>, e: Entry<S>, clock: Block -> nat)
    requires Lawful(r) && Inv(r, t) && Keyed(t.orphans) && Lands(r, t, e)
    requires var t1 := Land(r, t, e, FloorOf(book, t)); Through(t1.canonical, e) && e.Number() == |t1.canonical| - 1
    ensures var t' := Resolved(r, Land(r, t, e, FloorOf(book, t)), book, e, clock, 0).0;
            Through(t'.canonical, e) && t'.IsCanonical(e.Hash())
  {
    hide Lawful, Inv, Land, FloorOf, Digested, DeliverAll;
    LandDigests(r, t, book, e);
    var t1 := Land(r, t, e, FloorOf(book, t));
    if e.Hash() in t1.orphans {
      var t2, bs := t1.(orphans := t1.orphans - {e.Hash()}), t1.orphans[e.Hash()];
      PoolAfter(r, t, t2, [e.block]);
      OwnPath(r, t2, e);
      AllStayThrough(r, t2, book, e, bs, clock, 1, e);
      AllDigest(r, t2, book, bs, clock, 1);
      PoolAfter(r, t2, DeliverAll(r, t2, book, bs, clock, 1).0, bs);
    }
  }

  lemma {:induction false} OwnPath<S(!new)>(r: Rules<S>, t: Tree<S>, e: Entry<S>)
    requires Inv(r, t) && Through(t.canonical, e) && e.Number() == |t.canonical| - 1
    ensures Above(r, t.blocks, e, e)
  {
    assert PathThrough(r, t.blocks, t.canonical, e, e);
  }

  /** A pool of native blocks whose hashes are those of their headers is stamped. */
  lemma {:induction false} NativePoolIsStamped(
    c: Blocks.Crypto, g: Blocks.Genesis, r: Rules<Transition.Ledger>, orphans: Orphans)
    requires r == NativeRules.Native(c, g, r.genesis, r.maxReorgDepth, r.maxOrphans) && NativeRules.NoCollisions(c)
    requires forall h <- orphans :: forall w <- orphans[h] :: w.hash == c.blockHash(w.header)
    ensures AllStamped(r, orphans)
  {
  }

  // ------------------------------------------------------------- a bad block directly below, whatever else is refused

  /** Every block that became known was verified within the drift of its clock reading. */
  ghost predicate Timely<S(!new)>(t: Tree<S>, t': Tree<S>, clock: Block -> nat) {
    && (forall h <- t.blocks :: h in t'.blocks && t'.blocks[h] == t.blocks[h])
    && (forall h <- t'.blocks ::
          h in t.blocks || t'.blocks[h].block.header.timestamp <= clock(t'.blocks[h].block) + MAX_FUTURE_DRIFT)
  }

  lemma {:induction false} DeliverIsTimely<S(!new)>(
    r: Rules<S>, t: Tree<S>, book: Option<Book>, b: Block, clock: Block -> nat, depth: nat)
    ensures Timely(t, Deliver(r, t, book, b, clock, depth).0, clock)
    decreases MAX_ORPHAN_RESOLUTION_DEPTH + 1 - depth, 0, 1
  {
    hide Land, FloorOf, RefusedNow, Resolved;
    if b.hash !in t.blocks && b.header.parentHash in t.blocks
      && VerifyAt(r, t.blocks[b.header.parentHash], b, clock(b)).Some? {
      var e := VerifyAt(r, t.blocks[b.header.parentHash], b, clock(b)).value;
      LandAddsOne(r, t, e, FloorOf(book, t));
      ResolvedTimely(r, Land(r, t, e, FloorOf(book, t)), book, e, clock, depth);
    }
  }

  lemma {:induction false} ResolvedTimely<S(!new)>(
    r: Rules<S>, t: Tree<S>, book: Option<Book>, e: Entry<S>, clock: Block -> nat, depth: nat)
    ensures Timely(t, Resolved(r, t, book, e, clock, depth).0, clock)
    decreases MAX_ORPHAN_RESOLUTION_DEPTH + 1 - depth, 0, 0
  {
    hide DeliverAll;
    if e.Hash() in t.orphans && depth < MAX_ORPHAN_RESOLUTION_DEPTH {
      AllTimely(r, t.(orphans := t.orphans - {e.Hash()}), book, t.orphans[e.Hash()], clock, depth + 1);
    }
  }

  lemma {:induction false} AllTimely<S(!new)>(
    r: Rules<S>, t: Tree<S>, book: Option<Book>, bs: seq<Block>, clock: Block -> nat, depth: nat)
    ensures Timely(t, DeliverAll(r, t, book, bs, clock, depth).0, clock)
    decreases MAX_ORPHAN_RESOLUTION_DEPTH + 1 - depth, 1, |bs|
  {
    hide Deliver;
    if bs != [] {
      DeliverIsTimely(r, t, book, bs[0], clock, depth);
      var (t1, outcome) := Deliver(r, t, book, bs[0], clock, depth);
      if !outcome.Failed? { AllTimely(r, t1, book, bs[1..], clock, depth); }
    }
  }

  /** A delivery that does not fail, of blocks whose parents are known, ends with all of them known. */
  lemma {:induction false} AllEndKnown<S(!new)>(
    r: Rules<S>, t: Tree<S>, book: Option<Book>, bs: seq<Block>, clock: Block -> nat, depth: nat)
    requires Lawful(r) && Inv(r, t) && forall b <- bs :: b.header.parentHash in t.blocks
    requires DeliverAll(r, t, book, bs, clock, depth).1
    ensures var t' := DeliverAll(r, t, book, bs, clock, depth).0;
            && Inv(r, t') && (forall h <- t.blocks :: h in t'.blocks && t'.blocks[h] == t.blocks[h])
            && forall b <- bs :: b.hash in t'.blocks
    decreases |bs|
  {
    hide Lawful, Inv, FloorOf;
    if bs != [] {
      assert bs[0] in bs;
      OneEndsKnown(r, t, book, bs[0], clock, depth);
      var t1 := Deliver(r, t, book, bs[0], clock, depth).0;
      hide Deliver;
      assert forall b <- bs[1..] :: b in bs;
      AllEndKnown(r, t1, book, bs[1..], clock, depth);
      assert forall b <- bs :: b == bs[0] || b in bs[1..];
    }
  }

  lemma {:induction false} OneEndsKnown<S(!new)>(
    r: Rules<S>, t: Tree<S>, book: Option<Book>, b: Block, clock: Block -> nat, depth: nat)
    requires Lawful(r) && Inv(r, t) && b.header.parentHash in t.blocks
    ensures var (t', outcome) := Deliver(r, t, book, b, clock, depth);
            && Inv(r, t') && (forall h <- t.blocks :: h in t'.blocks && t'.blocks[h] == t.blocks[h])
            && (!outcome.Failed? ==> b.hash in t'.blocks)
  {
    hide Lawful, Inv, Land, FloorOf, RefusedNow;
    assert -1 <= FloorOf(book, t);
    DeliverEvolves(r, t, book, b, clock, depth, -1);
  }

  /**
   * Wherever in the line a block waits that does not verify on the block it waits for, and that no other block
   * shares its hash with, the delivery of its parent throws, unless that parent was itself refused.
   */
  lemma {:induction false} BadChildFails<S(!new)>(
    r: Rules<S>, t: Tree<S>, book: Option<Book>, b: Block, clock: Block -> nat, bad: Block)
    requires Lawful(r) && Inv(r, t) && Keyed(t.orphans) && b.hash !in t.blocks && b.header.parentHash in t.blocks
    requires VerifyAt(r, t.blocks[b.header.parentHash], b, clock(b)).Some?
    requires var e := VerifyAt(r, t.blocks[b.header.parentHash], b, clock(b)).value;
             !RefusedNow(r, t, e, FloorOf(book, t)) && VerifyAt(r, e, bad, clock(bad)).None?
    requires bad in Waiting(t.orphans, b.hash) && bad.hash !in t.blocks
    requires forall p, b' :: r.step(p, b').Some? && b'.hash == bad.hash ==> b' == bad
    ensures Deliver(r, t, book, b, clock, 0).1.Failed?
  {
    hide Lawful, Inv, Land, FloorOf, RefusedNow, DeliverAll;
    var e := VerifyAt(r, t.blocks[b.header.parentHash], b, clock(b)).value;
    LandDigests(r, t, book, e);
    var t1 := Land(r, t, e, FloorOf(book, t));
    var t2 := t1.(orphans := t1.orphans - {e.Hash()});
    var bs := t1.orphans[e.Hash()];
    if DeliverAll(r, t2, book, bs, clock, 1).1 {
      AllEndKnown(r, t2, book, bs, clock, 1);
      AllTimely(r, t2, book, bs, clock, 1);
      BadIsUnknown(r, t2, DeliverAll(r, t2, book, bs, clock, 1).0, e, clock, bad);
    }
  }

  /** No tree that knows the entry can know a block that does not verify on it. */
  lemma {:induction false} BadIsUnknown<S(!new)>(
    r: Rules<S>, t: Tree<S>, t': Tree<S>, e: Entry<S>, clock: Block -> nat, bad: Block)
    requires Inv(r, t) && Inv(r, t') && KnownIn(t'.blocks, e) && bad.header.parentHash == e.Hash()
    requires bad.hash !in t.blocks && VerifyAt(r, e, bad, clock(bad)).None? && Timely(t, t', clock)
    requires forall p, b' :: r.step(p, b').Some? && b'.hash == bad.hash ==> b' == bad
    ensures bad.hash !in t'.blocks
  {
    hide BooksAgree, AllKnown, Linked;
    KnownStandsVerified(r, t.blocks, r.genesis.Hash());
    KnownStandsVerified(r, t'.blocks, bad.hash);
  }

  lemma KnownStandsVerified<S(!new)>(r: Rules<S>, blocks: map<Hash, Entry<S>>, h: Hash)
    requires Connected(r, blocks)
    ensures r.genesis.Hash() in blocks
    ensures h in blocks && h != r.genesis.Hash() ==>
              && blocks[h].Hash() == h && blocks[h].Parent() in blocks
              && r.Verify(blocks[blocks[h].Parent()], blocks[h].block) == Some(blocks[h])
              && r.step(blocks[blocks[h].Parent()], blocks[h].block).Some?
  {
    if h in blocks { assert Rooted(r, blocks, h); }
  }

  // ------------------------------------------------------------- an input

  /** A block that verifies on genesis, and one above it that never verifies. */
  const GOOD: Block := Bare(1, 2, 1, 1)
  const BAD: Block := Bare(2, 3, 2, 1)

  /** The bad block arrives first, and has to wait. */
  lemma {:induction false} BadBlockWaits(r: Rules<nat>, txHash: Tx -> Hash, clock: Block -> nat)
    requires r == Small([GOOD], GENESIS, txHash, 1) && Lawful(r)
    ensures var boot := Runs.Boot(r, None).tree;
            var waiting := boot.(orphans := Hold(boot.orphans, BAD));
            Inv(r, waiting) && Deliver(r, boot, None, BAD, clock, 0) == (waiting, Held)
  {
    hide Lawful, Inv, FloorOf, OrphanCount;
    var boot := Runs.Boot(r, None).tree;
    Runs.BootIsSound(r, None);
    NothingWaits();
    EvolvedSame(r, boot, None, -1, Hold(boot.orphans, BAD));
  }

  /** Then its parent: taken in, and thrown out with it. */
  lemma {:induction false} OneBadOrphanThrows(txHash: Tx -> Hash, clock: Block -> nat)
    requires forall t, t' :: txHash(t) == txHash(t') ==> t == t'
    ensures var r := Small([GOOD], GENESIS, txHash, 1);
            var (waiting, held) := Deliver(r, Runs.Boot(r, None).tree, None, BAD, clock, 0);
            var (after, outcome) := Deliver(r, waiting, None, GOOD, clock, 0);
            Lawful(r) && held == Held && outcome == Failed && GOOD.hash in after.blocks
  {
    hide Lawful, Inv, FloorOf, Land, RefusedNow, DeliverAll;
    var r := Small([GOOD], GENESIS, txHash, 1);
    SmallIsLawful([GOOD], txHash, 1);
    BadBlockWaits(r, txHash, clock);
    var boot := Runs.Boot(r, None).tree;
    var waiting := boot.(orphans := Hold(boot.orphans, BAD));
    var e := Entry(GOOD, 1, [], 1);
    assert VerifyAt(r, r.genesis, GOOD, clock(GOOD)) == Some(e);
    Sync.TipExtensionIsAdopted(r, waiting, None, e);
    BadChildFails(r, waiting, None, GOOD, clock, BAD);
    LandDigests(r, waiting, None, e);
    var t1 := Land(r, waiting, e, FloorOf(None, waiting));
    AllTimely(r, t1.(orphans := t1.orphans - {e.Hash()}), None, t1.orphans[e.Hash()], clock, 1);
  }

  lemma NothingWaits()
    ensures OrphanCount(map[]) == 0
  {
    assert OrphanSizes(map[]) == map[];
  }
}
