/** Mining on the head, from composition to adoption (src/chain.js:371-447, 537-622). */
module Mining {
  import opened Common
  import opened Types
  import opened Transition
  import opened BlockTree
  import opened ForkChoice
  import opened Anchors
  import opened Process
  import Runs
  import Sync
  import OrphanPool
  import opened Blocks
  import opened NativeRules

  /** Delivered, adopted, and live. */
  ghost predicate Adopts(delivery: (Tree<Ledger>, Outcome), b: Block, state: Ledger) {
    && delivery.1 == Accepted(true, false)
    && delivery.0.canonical != [] && delivery.0.Head().block == b && delivery.0.state == state
  }

  /** On the canonical chain, with this state, when the delivery has ended. */
  ghost predicate Carries(t: Tree<Ledger>, height: nat, b: Block, state: Ledger) {
    height < |t.canonical| && t.canonical[height].block == b && t.canonical[height].state == state
  }

  /**
   * A miner's own block, composed on the head from any candidates and sealed, is accepted and becomes the head
   * with the very state it was composed to, if and only if its nonce fits 64 bits, its time is within drift and
   * it is not overfull; otherwise its own node throws it out, and nothing changes. Should blocks have waited for
   * it, it is on the chain all the same, below what was built on it, and none that is ready can make it throw.
   */
  lemma {:induction false} OwnBlockIsAdopted(
    c: Crypto, g: Genesis, r: Rules<Ledger>, t: Tree<Ledger>, book: Option<Book>, head: Entry<Ledger>,
    candidates: seq<Tx>, miner: Address, wallClock: nat, nonce: nat, clock: Block -> nat, b: Block)
    requires r == Native(c, g, r.genesis, r.maxReorgDepth, r.maxOrphans) && NoCollisions(c)
             && GenesisEntry(c, r.genesis)
    requires Inv(r, t) && t.canonical != [] && head == t.Head()
    requires var (draft, included, p) := Composed(c, g, head, candidates, miner, wallClock);
             ValidSeal(c, draft.(nonce := nonce)) && b == Sealed(c, draft, included, nonce)
    requires b.hash !in t.blocks
    ensures var (draft, included, p) := Composed(c, g, head, candidates, miner, wallClock);
            var (t', outcome) := Deliver(r, t, book, b, clock, 0);
            if nonce < TWO_64 && |included| <= MAX_TRANSACTIONS_PER_BLOCK
              && draft.timestamp <= clock(b) + MAX_FUTURE_DRIFT
            then
              && (b.hash !in t.orphans ==> Adopts((t', outcome), b, p.state))
              && (OrphanPool.Keyed(t.orphans) ==>
                    && Carries(t', |t.canonical|, b, p.state) && (outcome.Failed? || outcome == Accepted(true, false))
                    && (OrphanPool.ReadyOn(r, t.orphans, t.blocks.Keys, head, b, clock, 0) ==> !outcome.Failed?))
            else (t', outcome) == (t, Failed)
  {
    hide BooksAgree, Linked, Connected, AllKnown, FloorOf, Lawful, Land, RefusedNow, Fork, NoCollisions, Step, Composed,
         ValidSeal, OrphanPool.Keyed, OrphanPool.ReadyOn;
    var (draft, included, p) := Composed(c, g, head, candidates, miner, wallClock);
    NativeIsLawful(c, g, r.genesis, r.maxReorgDepth, r.maxOrphans);
    Sync.HeadIsKnown(r, t);
    DraftExtends(c, g, head, candidates, miner, wallClock);
    OwnBlocksVerify(c, g, head, candidates, miner, wallClock, nonce);
    if Step(c, g, head, b).Some? {
      StepIsShaped(c, g, r.genesis, head, b);
      var e := Entry(b, p.state, p.receipts, head.td + b.header.difficulty);
      HeadNumber(r, t);
      if OrphanPool.Keyed(t.orphans) && b.header.timestamp <= clock(b) + MAX_FUTURE_DRIFT {
        OrphanPool.TipExtensionStays(r, t, book, e, clock);
      }
      Sync.TipExtensionIsAdopted(r, t, book, e);
      Runs.FloorBelowTip(r, t, book);
      LandKeepsInv(r, t, e, FloorOf(book, t));
      AdoptedTip(t, Land(r, t, e, FloorOf(book, t)), e);
    }
  }

  lemma DraftExtends(c: Crypto, g: Genesis, parent: Entry<Ledger>, candidates: seq<Tx>, miner: Address, wallClock: nat)
    ensures Composed(c, g, parent, candidates, miner, wallClock).0.parentHash == parent.Hash()
    ensures Composed(c, g, parent, candidates, miner, wallClock).0.number == parent.Number() + 1
  {
  }

  lemma {:induction false} HeadNumber<S(!new)>(r: Rules<S>, t: Tree<S>)
    requires Lawful(r) && Core(r, t)
    ensures t.Head().Number() == |t.canonical| - 1
  {
    hide BooksAgree, Connected, AllKnown, Linked, StepShape, SpendOnce;
    PathHeights(r, t.canonical, |t.canonical| - 1);
  }

  lemma AdoptedTip<S>(t: Tree<S>, t': Tree<S>, e: Entry<S>)
    requires t'.canonical == t.canonical + [e] && t'.blocks == t.blocks[e.Hash() := e]
    ensures t'.Head() == e && (e.Number() == |t.canonical| ==> t'.IsCanonical(e.Hash()))
  {
  }
}
