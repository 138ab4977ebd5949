/**
 * Ethereum anchors and the floor they put under history (src/anchor.js).
 *
 * A local chain is seen here as the sequence of its canonical block hashes, index = height.
 */
module Anchors {
  import opened Common
  import opened Types

  /** What a publisher attests. The digest is a hash of the first three fields, so it is compared as them. */
  datatype Anchor = Anchor(height: int, blockHash: Hash, work: int, ethBlock: int, publisher: Option<Address>)
  {
    predicate SameDigest(that: Anchor) {
      height == that.height && blockHash == that.blockHash && work == that.work
    }
  }

  datatype Verdict = BadShape | Ignored | Equivocation | Regression | Added

  /** The store's contents; `faults` are the heights recorded in `equivocations`. */
  datatype Book = Book(
    byHeight: map<int, Anchor>, faults: seq<int>, ethHead: int, confirmations: int, publishers: Option<set<Address>>)
  {
    ghost predicate Valid() {
      forall h <- byHeight :: byHeight[h].height == h >= 0
    }

    predicate WellFormed(a: Anchor) {
      a.height >= 0 && a.work > 0 && a.ethBlock > 0
    }

    /** Passed the publisher allowlist; `None` means no allowlist. */
    predicate Believed(a: Anchor) {
      publishers == None || (a.publisher.Some? && a.publisher.value in publishers.value)
    }

    predicate Contradicts(a: Anchor) {
      a.height in byHeight && !byHeight[a.height].SameDigest(a)
    }

    predicate Regresses(a: Anchor) {
      exists h <- byHeight :: h < a.height && byHeight[h].work >= a.work
    }

    function Judge(a: Anchor): Verdict {
      if !WellFormed(a) then BadShape
      else if !Believed(a) then Ignored
      else if Contradicts(a) then Equivocation
      else if Regresses(a) then Regression
      else Added
    }

    function Add(a: Anchor): Book {
      match Judge(a)
      case BadShape => this
      case Ignored => this
      case Equivocation => this.(faults := faults + [a.height])
      case Regression => this.(faults := faults + [a.height])
      case Added => this.(byHeight := byHeight[a.height := a])
    }

    function SetEthereumHead(n: int): Book { this.(ethHead := n) }

    /** Not faulted, and buried deeply enough on Ethereum. */
    predicate Attested(h: int) {
      h in byHeight && h !in faults && ethHead - byHeight[h].ethBlock >= confirmations
    }

    /** Attested, at or below the tip, and naming exactly the block held there. */
    predicate Binds(chain: seq<Hash>, h: int) {
      Attested(h) && 0 <= h < |chain| && chain[h] == byHeight[h].blockHash
    }

    /** The highest binding height below `n`, or -1. */
    function HighestBindingBelow(chain: seq<Hash>, n: nat): (f: int)
      ensures -1 <= f < n
      ensures f >= 0 ==> Binds(chain, f)
      ensures forall h :: f < h < n ==> !Binds(chain, h)
    {
      if n == 0 then -1 else if Binds(chain, n - 1) then n - 1 else HighestBindingBelow(chain, n - 1)
    }

    function FinalizedHeight(chain: seq<Hash>): (f: int)
      ensures -1 <= f < |chain| || f == -1
      ensures f >= 0 ==> Binds(chain, f)
      ensures forall h :: Binds(chain, h) ==> h <= f
    {
      HighestBindingBelow(chain, |chain|)
    }

    predicate PermitsReorgFrom(chain: seq<Hash>, fork: int) {
      var floor := FinalizedHeight(chain);
      floor < 0 || fork >= floor
    }
  }

  /** Without a store nothing is anchored (src/chain.js:47). */
  function Floor(book: Option<Book>, chain: seq<Hash>): (f: int)
    ensures f >= -1
  {
    if book.Some? then book.value.FinalizedHeight(chain) else -1
  }

  /**
   * Whether adding `a` leaves the anchor at `h` standing. Decidable from the store before the call.
   * The last line is the surprising one: the same sentence published again replaces the stored anchor
   * together with its Ethereum block, so it must itself be buried already.
   */
  predicate LeavesStanding(book: Book, a: Anchor, h: int) {
    || !book.WellFormed(a)
    || !book.Believed(a)
    || a.height != h
    || (!book.Contradicts(a) && !book.Regresses(a) && book.ethHead - a.ethBlock >= book.confirmations)
  }

  lemma AddKeepsBindingExactly(book: Book, a: Anchor, chain: seq<Hash>, h: int)
    requires book.Valid() && book.Binds(chain, h)
    ensures book.Add(a).Valid()
    ensures book.Add(a).Binds(chain, h) <==> LeavesStanding(book, a, h)
  {
    if book.Judge(a) in {Equivocation, Regression} {
      assert book.Add(a).faults[|book.faults|] == a.height;
      assert forall k :: k in book.Add(a).faults <==> k in book.faults || k == a.height;
    }
  }

  /** Whether a publisher is heard at all: without an allowlist everybody is. */
  predicate Heard(book: Book, a: Anchor) {
    book.publishers.None? || (a.publisher.Some? && a.publisher.value in book.publishers.value)
  }

  /** The anchor says something else of its height than the one on record. */
  predicate Conflicts(book: Book, a: Anchor) {
    a.height in book.byHeight
    && (book.byHeight[a.height].blockHash != a.blockHash || book.byHeight[a.height].work != a.work)
  }

  /** It claims no more work than one on record for a lower height. */
  predicate FallsBack(book: Book, a: Anchor) {
    exists h <- book.byHeight :: h < a.height && a.work <= book.byHeight[h].work
  }

  /**
   * What reading an anchor does: nothing if it is malformed or its publisher is not heard, a fault on its height and
   * nothing else if it conflicts or falls back, and otherwise it is the one on record for its height.
   */
  lemma {:induction false} AddTells(book: Book, a: Anchor)
    requires book.Valid()
    ensures var sound := a.height >= 0 && a.work >= 1 && a.ethBlock >= 1 && Heard(book, a);
            book.Add(a) ==
            if !sound then book
            else if Conflicts(book, a) || FallsBack(book, a) then book.(faults := book.faults + [a.height])
            else book.(byHeight := book.byHeight[a.height := a])
  {
  }

  function AddAll(book: Book, anchors: seq<Anchor>): Book
    decreases |anchors|
  {
    if anchors == [] then book else AddAll(book.Add(anchors[0]), anchors[1..])
  }

  /** Whatever is published, what is once on record for a height is never unsaid, and no fault is ever taken back. */
  lemma {:induction false} RecordsStand(book: Book, anchors: seq<Anchor>, h: int)
    requires book.Valid()
    ensures var later := AddAll(book, anchors);
            && later.Valid() && (h in book.faults ==> h in later.faults)
            && (h in book.byHeight ==>
                  && h in later.byHeight && later.byHeight[h].blockHash == book.byHeight[h].blockHash
                  && later.byHeight[h].work == book.byHeight[h].work)
    decreases |anchors|
  {
    if anchors != [] {
      AddTells(book, anchors[0]);
      RecordsStand(book.Add(anchors[0]), anchors[1..], h);
    }
  }

  /** Two believed anchors that disagree on a height take it out of the floor for good. */
  lemma {:induction false} EquivocationUnbinds(
    book: Book, a: Anchor, b: Anchor, between: seq<Anchor>, after: seq<Anchor>, chain: seq<Hash>)
    requires book.Valid() && a.height == b.height && (a.blockHash != b.blockHash || a.work != b.work)
    requires b.height >= 0 && b.work >= 1 && b.ethBlock >= 1 && Heard(book, b)
    requires a.height in book.Add(a).byHeight && book.Add(a).byHeight[a.height] == a
    ensures !AddAll(AddAll(book.Add(a), between).Add(b), after).Binds(chain, b.height)
  {
    AddTells(book, a);
    var seen := AddAll(book.Add(a), between);
    RecordsStand(book.Add(a), between, a.height);
    SameAllowlist(book.Add(a), between);
    AddTells(seen, b);
    assert seen.Add(b).faults[|seen.faults|] == b.height;
    RecordsStand(seen.Add(b), after, b.height);
  }

  lemma {:induction false} SameAllowlist(book: Book, anchors: seq<Anchor>)
    ensures AddAll(book, anchors).publishers == book.publishers
    decreases |anchors|
  {
    if anchors != [] { SameAllowlist(book.Add(anchors[0]), anchors[1..]); }
  }

  /**
   * The floor is the highest height whose anchor is not faulted, is buried, and names the very block the chain holds
   * there; -1 if there is none.
   */
  lemma FloorMeans(book: Book, chain: seq<Hash>, h: int)
    ensures var f := Floor(Some(book), chain);
            var held := h in book.byHeight && h !in book.faults && 0 <= h < |chain|
                        && book.ethHead >= book.byHeight[h].ethBlock + book.confirmations
                        && book.byHeight[h].blockHash == chain[h];
            && (held ==> h <= f) && (h == f >= 0 ==> held) && f >= -1
    ensures Floor(None, chain) == -1
  {
    assert book.FinalizedHeight(chain) < h ==> !book.Binds(chain, h);
  }

  /** The anchored floor is lost, with no fault recorded, by publishing the very same anchor again. */
  lemma RepublishingUnbinds()
    ensures exists book: Book, a: Anchor, chain: seq<Hash> ::
      && book.Valid() && book.Judge(a) == Added && book.Add(a).faults == book.faults
      && book.FinalizedHeight(chain) == 1 && book.Add(a).FinalizedHeight(chain) == -1
  {
    var first := Anchor(1, 7, 5, 4, Some(1));
    var again := first.(ethBlock := 99);
    var book := Book(map[1 := first], [], 100, 96, Some({1}));
    var chain: seq<Hash> := [0, 7];
    assert book.Binds(chain, 1);
    assert !book.Add(again).Binds(chain, 1) && !book.Add(again).Binds(chain, 0);
    assert book.Add(again).FinalizedHeight(chain) == -1;
    assert book.Judge(again) == Added && book.Add(again).faults == book.faults && book.FinalizedHeight(chain) == 1;
  }

  /** The floor follows from the anchors: a book that keeps the binding at `h` keeps a floor of at least `h`. */
  lemma FloorAtLeast(book: Book, chain: seq<Hash>, h: int)
    requires book.Binds(chain, h)
    ensures book.FinalizedHeight(chain) >= h
  {
  }

  /** The store a node owns, changed in place (src/anchor.js:132-344). */
  class AnchorStore {
    var byHeight: map<int, Anchor>
    var equivocations: seq<int>
    var ethHead: int
    const ethConfirmations: int
    const publishers: Option<set<Address>>
    var ignoredPublishers: nat

    constructor (confirmations: int, publishers: Option<set<Address>>)
      ensures Contents() == Book(map[], [], 0, confirmations, publishers) && ignoredPublishers == 0
    {
      byHeight, equivocations, ethHead, ignoredPublishers := map[], [], 0, 0;
      ethConfirmations := confirmations;
      this.publishers := publishers;
    }

    function Contents(): Book
      reads this
    {
      Book(byHeight, equivocations, ethHead, ethConfirmations, publishers)
    }

    method SetEthereumHead(n: int)
      modifies this`ethHead
      ensures Contents() == old(Contents()).SetEthereumHead(n)
    {
      ethHead := n;
    }

    method Add(a: Anchor) returns (verdict: Verdict)
      modifies this
      ensures verdict == old(Contents()).Judge(a)
      ensures Contents() == old(Contents()).Add(a)
      ensures ignoredPublishers == old(ignoredPublishers) + if verdict == Ignored then 1 else 0
    {
      if !(a.height >= 0 && a.work > 0 && a.ethBlock > 0) { return BadShape; }
      if publishers.Some? && !(a.publisher.Some? && a.publisher.value in publishers.value) {
        ignoredPublishers := ignoredPublishers + 1;
        return Ignored;
      }
      if a.height in byHeight && !byHeight[a.height].SameDigest(a) {
        equivocations := equivocations + [a.height];
        return Equivocation;
      }
      var pending := byHeight.Keys;
      while pending != {}
        invariant pending <= byHeight.Keys && Contents() == old(Contents())
        invariant forall h <- byHeight :: h in pending || !(h < a.height && byHeight[h].work >= a.work)
      {
        ghost var some := Pick(pending);
        var h: int :| h in pending;
        if h < a.height && byHeight[h].work >= a.work {
          equivocations := equivocations + [a.height];
          return Regression;
        }
        pending := pending - {h};
      }
      byHeight := byHeight[a.height := a];
      return Added;
    }

    /** -1 when nothing binds, so no floor differs from a floor at genesis. */
    function FinalizedHeight(chain: seq<Hash>): int
      reads this
    {
      Contents().FinalizedHeight(chain)
    }
  }
}
