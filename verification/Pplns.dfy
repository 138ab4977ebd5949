/** Pay per last N shares, N measured in work (src/pool.js:217-259). */
module Pplns {
  import opened Common
  import opened Types

  const BPS: nat := 10_000

  datatype Share = Share(address: Address, difficulty: nat)

  /** The work of a log, oldest first. */
  function Work(shares: seq<Share>): nat {
    if shares == [] then 0 else shares[0].difficulty + Work(shares[1..])
  }

  /** How much of the work in [above, above + d) lies in the last `window`. */
  function Overlap(window: nat, above: nat, d: nat): nat { Max(0, Min(window, above + d) - above) }

  /** An address's part of the last `window` of work: each share stands below all the work done since. */
  function WeightOf(shares: seq<Share>, window: nat, a: Address): nat {
    if shares == [] then 0
    else
      WeightOf(shares[1..], window, a) +
      if shares[0].address == a then Overlap(window, Work(shares[1..]), shares[0].difficulty) else 0
  }

  /** All the work that is shared out. */
  function InWindow(shares: seq<Share>, window: nat): nat { Min(window, Work(shares)) }

  function Fee(reward: nat, feeBps: nat): nat { reward * feeBps / BPS }

  /** The fee is the floor of its share in ten thousandths. */
  lemma FeeIsFloor(reward: nat, feeBps: nat)
    ensures 10_000 * Fee(reward, feeBps) <= reward * feeBps < 10_000 * (Fee(reward, feeBps) + 1)
  {
    var product := reward * feeBps;
    assert product == 10_000 * (product / 10_000) + product % 10_000;
  }

  /** What an address is owed: the floor of its part of what is left after the fee. */
  function CreditOf(shares: seq<Share>, window: nat, distributable: nat, a: Address): nat {
    Part(distributable, WeightOf(shares, window, a), InWindow(shares, window))
  }

  /** The floor of d * w / s. */
  function Part(d: nat, w: nat, s: nat): nat { if s == 0 then 0 else d * w / s }

  /** A part is the floor of the exact proportion. */
  lemma PartIsFloor(d: nat, w: nat, s: nat)
    requires s > 0
    ensures s * Part(d, w, s) <= d * w < s * (Part(d, w, s) + 1)
  {
    var product := d * w;
    assert product == s * (product / s) + product % s;
    assert s * (product / s + 1) == s * (product / s) + s;
  }

  /** Everybody with a share in the log. */
  function Addresses(shares: seq<Share>): set<Address> { set s <- shares :: s.address }

  // ------------------------------------------------------------- shares outside the window weigh nothing

  lemma {:induction false} OldSharesWeighNothing(shares: seq<Share>, window: nat, a: Address, k: nat)
    requires k <= |shares| && Work(shares[k..]) >= window
    ensures WeightOf(shares, window, a) == WeightOf(shares[k..], window, a)
    ensures InWindow(shares, window) == InWindow(shares[k..], window) == window
    decreases k
  {
    if k == 0 {
      assert shares[0..] == shares;
    } else {
      assert shares[1..][k - 1..] == shares[k..];
      OldSharesWeighNothing(shares[1..], window, a, k - 1);
    }
  }

  // ------------------------------------------------------------- rounding

  function Floors(weights: map<Address, nat>, d: nat, s: nat): map<Address, nat> {
    map a | a in weights :: Part(d, weights[a], s)
  }

  lemma FloorsRemove(weights: map<Address, nat>, d: nat, s: nat, a: Address)
    requires a in weights
    ensures Sum(Floors(weights, d, s)) == Part(d, weights[a], s) + Sum(Floors(weights - {a}, d, s))
  {
    SumRemove(Floors(weights, d, s), a);
    assert Floors(weights, d, s) - {a} == Floors(weights - {a}, d, s);
  }

  lemma NoFloors(d: nat, s: nat)
    ensures Sum(Floors(map[], d, s)) == 0
  {
    assert Floors(map[], d, s) == map[];
  }

  /** What all floors together leave over, in units of 1/s. */
  ghost function Gap(weights: map<Address, nat>, d: nat, s: nat): int {
    d * Sum(weights) - s * Sum(Floors(weights, d, s))
  }

  function Times(s: nat, n: nat): nat { s * n }

  /** Floors fall short of the whole by less than one unit each. */
  lemma {:induction false} FloorsFallShort(weights: map<Address, nat>, d: nat, s: nat)
    requires s > 0
    ensures 0 <= Gap(weights, d, s) <= Times(s, |weights|)
    ensures weights != map[] ==> Gap(weights, d, s) < Times(s, |weights|)
    decreases |weights|
  {
    hide Gap, Times;
    if weights == map[] {
      NoGap(d, s);
    } else {
      var a := Pick(weights.Keys);
      FloorsFallShort(weights - {a}, d, s);
      GapStep(weights, d, s, a);
      TimesStep(s, |weights - {a}|);
    }
  }

  lemma NoGap(d: nat, s: nat)
    ensures Gap(map[], d, s) == 0 && Times(s, 0) == 0
  {
    NoFloors(d, s);
  }

  lemma {:induction false} GapStep(weights: map<Address, nat>, d: nat, s: nat, a: Address)
    requires s > 0 && a in weights
    ensures 0 <= Gap(weights, d, s) - Gap(weights - {a}, d, s) < s
  {
    hide Floors, Part;
    SumRemove(weights, a);
    FloorsRemove(weights, d, s, a);
    OneFloor(d, weights[a], s);
    Spread(d, weights[a], Sum(weights - {a}), s, Part(d, weights[a], s), Sum(Floors(weights - {a}, d, s)));
  }

  lemma OneFloor(d: nat, w: nat, s: nat)
    requires s > 0
    ensures 0 <= d * w - s * Part(d, w, s) < s
  {
  }

  lemma Spread(d: int, w: int, ws: int, s: int, f: int, fs: int)
    ensures d * (w + ws) - s * (f + fs) == (d * w - s * f) + (d * ws - s * fs)
  {
  }

  lemma TimesStep(s: nat, n: nat)
    ensures Times(s, n + 1) == Times(s, n) + s
  {
  }

  /** The whole is owed to nobody twice, and less than one unit per address is left over. */
  lemma {:induction false} DustIsSmall(weights: map<Address, nat>, d: nat)
    requires Sum(weights) > 0
    ensures weights != map[]
    ensures var q := Sum(Floors(weights, d, Sum(weights)));
            0 <= d - q < |weights|
  {
    var s := Sum(weights);
    var q := Sum(Floors(weights, d, s));
    hide Floors, Part;
    FloorsFallShort(weights, d, s);
    Quotient(s, d - q, |weights|);
    Factor(s, d, q);
  }

  lemma Factor(s: int, d: int, q: int)
    ensures d * s - s * q == s * (d - q)
  {
  }

  lemma Quotient(s: int, x: int, n: int)
    requires s > 0
    ensures 0 <= s * x ==> 0 <= x
    ensures s * x < s * n ==> x < n
  {
    assert x < 0 ==> s * x < 0;
    assert x >= n ==> s * x >= s * n;
  }

  // ------------------------------------------------------------- the class

  /** Credits as the map the split returns: only what is positive. */
  ghost predicate IsCredits(credits: map<Address, nat>, shares: seq<Share>, window: nat, distributable: nat) {
    forall a: Address ::
      && (a in credits <==> CreditOf(shares, window, distributable, a) > 0)
      && (a in credits ==> credits[a] == CreditOf(shares, window, distributable, a))
  }

  class PoolCore {
    const feeBps: nat
    const pplnsFactor: nat
    var shares: seq<Share>
    var blockDifficulty: nat

    constructor (feeBps: nat, pplnsFactor: nat)
      requires feeBps <= BPS
      ensures this.feeBps == feeBps && this.pplnsFactor == pplnsFactor && shares == [] && blockDifficulty == 0
    {
      this.feeBps, this.pplnsFactor := feeBps, pplnsFactor;
      shares, blockDifficulty := [], 0;
    }

    /** The weights inside the window, newest share first; the oldest counts only for the part inside. */
    method Weigh(window: nat) returns (weights: map<Address, nat>, sum: nat)
      ensures sum == InWindow(shares, window) == Sum(weights)
      ensures forall a: Address :: (if a in weights then weights[a] else 0) == WeightOf(shares, window, a)
      ensures weights.Keys <= Addresses(shares)
    {
      hide Overlap, Addresses;
      weights, sum := map[], 0;
      var i := |shares|;
      while i > 0 && sum < window
        invariant 0 <= i <= |shares|
        invariant sum == InWindow(shares[i..], window) == Sum(weights)
        invariant weights.Keys <= Addresses(shares)
        invariant forall a: Address :: (if a in weights then weights[a] else 0) == WeightOf(shares[i..], window, a)
      {
        i := i - 1;
        var s := shares[i];
        assert shares[i..][1..] == shares[i + 1..] && shares[i..][0] == s;
        var d := if sum + s.difficulty > window then window - sum else s.difficulty;
        OverlapIs(window, sum, s.difficulty);
        HasAddress(shares, i);
        SumUpdate(weights, s.address, (if s.address in weights then weights[s.address] else 0) + d);
        weights := weights[s.address := (if s.address in weights then weights[s.address] else 0) + d];
        sum := sum + d;
      }
      RestWeighsNothing(shares, window, i);
    }

    lemma OverlapIs(window: nat, above: nat, d: nat)
      requires above < window
      ensures Overlap(window, above, d) == if above + d > window then window - above else d
    {
    }

    lemma HasAddress(shares: seq<Share>, i: nat)
      requires i < |shares|
      ensures shares[i].address in Addresses(shares)
    {
      assert shares[i] in shares;
    }

    lemma {:induction false} RestWeighsNothing(shares: seq<Share>, window: nat, i: nat)
      requires i <= |shares| && (i == 0 || InWindow(shares[i..], window) >= window)
      ensures forall a: Address :: WeightOf(shares, window, a) == WeightOf(shares[i..], window, a)
      ensures InWindow(shares, window) == InWindow(shares[i..], window)
    {
      assert shares[0..] == shares;
      forall a: Address
        ensures WeightOf(shares, window, a) == WeightOf(shares[i..], window, a)
        ensures InWindow(shares, window) == InWindow(shares[i..], window)
      {
        if i > 0 { OldSharesWeighNothing(shares, window, a, i); }
      }
      if i > 0 { OldSharesWeighNothing(shares, window, 0, i); }
    }

    /** What a split promises, besides adding up. */
    ghost predicate Splits(credits: map<Address, nat>, fee: int, reward: nat, difficulty: nat)
      reads this
    {
      var window := difficulty * pplnsFactor;
      var base := Fee(reward, feeBps);
      && base <= reward
      && IsCredits(credits, shares, window, reward - base)
      && (if InWindow(shares, window) == 0 then credits == map[] && fee == reward
          else base <= fee < base + |Addresses(shares)|)
    }

    /** The floors of all weights, the positive ones as credits. */
    method PayOut(weights: map<Address, nat>, distributable: nat, sum: nat)
      returns (credits: map<Address, nat>, paid: nat)
      ensures paid == Sum(credits) == Sum(Floors(weights, distributable, sum))
      ensures forall a: Address ::
                && (a in credits <==> a in weights && Part(distributable, weights[a], sum) > 0)
                && (a in credits ==> credits[a] == Part(distributable, weights[a], sum))
    {
      hide Part, Floors;
      credits, paid := map[], 0;
      var left := weights;
      while left != map[]
        invariant left.Keys <= weights.Keys && forall a <- left :: left[a] == weights[a]
        invariant paid + Sum(Floors(left, distributable, sum)) == Sum(Floors(weights, distributable, sum))
        invariant paid == Sum(credits)
        invariant forall a: Address ::
                    && (a in credits <==> a in weights && a !in left && Part(distributable, weights[a], sum) > 0)
                    && (a in credits ==> credits[a] == Part(distributable, weights[a], sum))
        decreases |left|
      {
        ghost var some := Pick(left.Keys);
        var a: Address :| a in left.Keys;
        var amount := Part(distributable, left[a], sum);
        FloorsRemove(left, distributable, sum, a);
        if amount > 0 {
          SumUpdate(credits, a, amount);
          credits := credits[a := amount];
        }
        paid, left := paid + amount, left - {a};
      }
      NoFloors(distributable, sum);
    }

    /**
     * splitReward: each address gets the floor of its part; credits and fee are the reward exactly, and rounding
     * adds less than one unit per address to the fee.
     */
    method SplitReward(reward: nat, difficulty: nat) returns (credits: map<Address, nat>, fee: int)
      requires feeBps <= BPS
      ensures Sum(credits) + fee == reward && fee >= 0
      ensures Splits(credits, fee, reward, difficulty)
    {
      hide Overlap, Part, WeightOf, Floors, IsCredits;
      var base := Fee(reward, feeBps);
      FeeIsPart(reward, feeBps);
      var weights, sum := Weigh(difficulty * pplnsFactor);
      if sum == 0 {
        NothingOwed(shares, difficulty * pplnsFactor, reward - base);
        return map[], reward;
      }
      DustIsSmall(weights, reward - base);
      Fewer(weights.Keys, Addresses(shares));
      NoWeightNoPart(reward - base, sum);
      var paid;
      credits, paid := PayOut(weights, reward - base, sum);
      fee := reward - paid;
      CreditsAre(credits, weights, difficulty * pplnsFactor, reward - base, sum);
    }

    lemma {:induction false} CreditsAre(credits: map<Address, nat>, weights: map<Address, nat>, window: nat, d: nat,
                                        sum: nat)
      requires sum == InWindow(shares, window)
      requires forall a: Address :: (if a in weights then weights[a] else 0) == WeightOf(shares, window, a)
      requires forall a: Address ::
                 && (a in credits <==> a in weights && Part(d, weights[a], sum) > 0)
                 && (a in credits ==> credits[a] == Part(d, weights[a], sum))
      requires Part(d, 0, sum) == 0
      ensures IsCredits(credits, shares, window, d)
    {
      hide Part, WeightOf, InWindow;
    }

    lemma NothingOwed(shares: seq<Share>, window: nat, d: nat)
      requires InWindow(shares, window) == 0
      ensures IsCredits(map[], shares, window, d)
    {
    }

    lemma NoWeightNoPart(d: nat, s: nat)
      ensures Part(d, 0, s) == 0
    {
    }

    lemma Fewer(a: set<Address>, b: set<Address>)
      requires a <= b
      ensures |a| <= |b|
    {
      assert a + (b - a) == b;
    }

    lemma FeeIsPart(reward: nat, bps: nat)
      requires bps <= BPS
      ensures Fee(reward, bps) <= reward
    {
      assert reward * bps <= reward * BPS;
    }

    lemma KeepIsPositive(difficulty: nat, factor: nat)
      ensures difficulty > 0 && factor > 0 ==> difficulty * factor * 2 > 0
    {
    }

    /** trimShares: keep what twice the current window can need, and no share more. */
    method TrimShares()
      modifies this`shares
      ensures exists k :: 0 <= k <= |old(shares)| && shares == old(shares)[k..]
                          && (k > 0 ==> Work(shares) >= blockDifficulty * pplnsFactor * 2)
      ensures blockDifficulty == 0 ==> shares == old(shares)
      ensures blockDifficulty > 0 && pplnsFactor > 0 && shares != [] ==>
                Work(shares[1..]) < blockDifficulty * pplnsFactor * 2
    {
      assert shares[0..] == shares;
      if blockDifficulty == 0 { return; }
      var keep := blockDifficulty * pplnsFactor * 2;
      KeepIsPositive(blockDifficulty, pplnsFactor);
      var sum, i := 0, |shares| - 1;
      while i >= 0
        invariant -1 <= i < |shares|
        invariant sum == Work(shares[i + 1..])
        invariant keep > 0 ==> sum < keep
      {
        assert shares[i..][1..] == shares[i + 1..];
        sum := sum + shares[i].difficulty;
        if sum >= keep { break; }
        i := i - 1;
      }
      if i > 0 { shares := shares[i..]; }
    }
  }

  /**
   * Trimming is invisible: what was kept answers every split exactly as the whole log did, for every block of at
   * most twice the current difficulty.
   */
  lemma TrimIsInvisible(all: seq<Share>, k: nat, current: nat, factor: nat, difficulty: nat, d: nat, a: Address)
    requires k <= |all| && (k > 0 ==> Work(all[k..]) >= current * factor * 2)
    requires difficulty <= 2 * current
    ensures InWindow(all[k..], difficulty * factor) == InWindow(all, difficulty * factor)
    ensures CreditOf(all[k..], difficulty * factor, d, a) == CreditOf(all, difficulty * factor, d, a)
  {
    if k == 0 {
      assert all[0..] == all;
    } else {
      WindowFits(current, factor, difficulty);
      OldSharesWeighNothing(all, difficulty * factor, a, k);
    }
  }

  lemma WindowFits(current: nat, factor: nat, difficulty: nat)
    requires difficulty <= 2 * current
    ensures difficulty * factor <= current * factor * 2
  {
    assert difficulty * factor <= 2 * current * factor;
  }

  /**
   * Twice is the exact bound: for every current difficulty and factor, and every block harder than twice the
   * current one, there is a log that trimming cuts and an address that is then owed less.
   */
  lemma TrimShowsBeyondTwice(current: nat, factor: nat, difficulty: nat)
    requires current > 0 && factor > 0 && difficulty > 2 * current
    ensures exists all: seq<Share>, d: nat ::
              && |all| == 2 && Work(all[1..]) >= current * factor * 2 > Work(all[1..][1..])
              && CreditOf(all[1..], difficulty * factor, d, 1) < CreditOf(all, difficulty * factor, d, 1)
  {
    var window, keep := difficulty * factor, current * factor * 2;
    KeepIsLess(current, factor, difficulty);
    var early, recent := Share(1, window), Share(2, keep);
    var all := [early, recent];
    assert all[1..] == [recent] && all[1..][1..] == [];
    TwoShares(window, keep);
    PartOfWhole(window, window - keep);
    PartOfNothing(window, keep);
    assert CreditOf(all, window, window, 1) == window - keep > 0 == CreditOf(all[1..], window, window, 1);
  }

  lemma KeepIsLess(current: nat, factor: nat, difficulty: nat)
    requires factor > 0 && difficulty > 2 * current
    ensures current * factor * 2 < difficulty * factor
  {
    assert difficulty * factor - current * factor * 2 == (difficulty - 2 * current) * factor;
  }

  lemma TwoShares(window: nat, keep: nat)
    requires keep < window
    ensures var all := [Share(1, window), Share(2, keep)];
            && WeightOf(all, window, 1) == window - keep && InWindow(all, window) == window
            && WeightOf(all[1..], window, 1) == 0 && InWindow(all[1..], window) == keep && Work(all[1..]) == keep
  {
    var all := [Share(1, window), Share(2, keep)];
    var late := all[1..];
    assert late == [Share(2, keep)] && late[1..] == [];
    assert Work(late) == keep + Work(late[1..]) == keep;
    assert WeightOf(late, window, 1) == WeightOf(late[1..], window, 1) == 0;
    assert WeightOf(all, window, 1) == WeightOf(late, window, 1) + Overlap(window, Work(late), window);
    assert Work(all) == window + Work(late);
  }

  lemma PartOfWhole(window: nat, w: nat)
    requires window > 0
    ensures Part(window, w, window) == w
  {
    var k := window * w / window - w;
    assert window * k == window * (window * w / window) - window * w == -(window * w % window);
    assert k >= 1 ==> window * k >= window;
    assert k <= -1 ==> window * k + window <= 0;
  }

  lemma PartOfNothing(d: nat, s: nat)
    ensures Part(d, 0, s) == 0
  {
  }
}
