/**
 * Where transactions stand, by hash: the index a chain keeps beside its canonical path (src/chain.js:647-705).
 *
 * `L[n]` lists the transaction hashes of the block at height n.
 */
module TxIndex {
  import opened Types

  datatype Place = Place(number: nat, index: nat)

  type TxLists = seq<seq<Hash>>
  type Index = map<Hash, Place>

  predicate At(L: TxLists, p: Place) { p.number < |L| && p.index < |L[p.number]| }

  function HashAt(L: TxLists, p: Place): Hash
    requires At(L, p)
  {
    L[p.number][p.index]
  }

  /** p comes before transaction i of block n. */
  predicate Before(p: Place, n: nat, i: nat) { p.number < n || (p.number == n && p.index < i) }

  /** No hash stands at two places. */
  ghost predicate Distinct(L: TxLists) {
    forall p, q :: At(L, p) && At(L, q) && HashAt(L, p) == HashAt(L, q) ==> p == q
  }

  /** The index is exactly the inverse of the transactions before (n, i). */
  ghost predicate IndexUpTo(L: TxLists, n: nat, i: nat, m: Index) {
    && (forall p :: At(L, p) && Before(p, n, i) ==> HashAt(L, p) in m && m[HashAt(L, p)] == p)
    && (forall h <- m :: At(L, m[h]) && Before(m[h], n, i) && HashAt(L, m[h]) == h)
  }

  /** The index is exactly the inverse of the whole path. */
  ghost predicate IndexOf(L: TxLists, m: Index) { IndexUpTo(L, |L|, 0, m) }

  function AllHashes(L: TxLists): (hs: set<Hash>)
    ensures forall p :: At(L, p) ==> HashAt(L, p) in hs
    ensures forall h <- hs :: exists p :: At(L, p) && HashAt(L, p) == h
  {
    var hs := set n, i | 0 <= n < |L| && 0 <= i < |L[n]| :: L[n][i];
    assert forall p :: At(L, p) ==> L[p.number][p.index] in hs;
    assert forall n, i | 0 <= n < |L| && 0 <= i < |L[n]| :: At(L, Place(n, i)) && HashAt(L, Place(n, i)) == L[n][i];
    hs
  }

  /** The index after the first `i` transactions of block `n` were written over `m`. */
  function IndexTxs(m: Index, n: nat, hs: seq<Hash>, i: nat): Index
    requires i <= |hs|
  {
    if i == 0 then m else IndexTxs(m, n, hs, i - 1)[hs[i - 1] := Place(n, i - 1)]
  }

  /** The index after blocks `from` up to (not including) `to` of `L` were written over `m`. */
  function IndexBlocks(m: Index, L: TxLists, from: nat, to: nat): Index
    requires from <= to <= |L|
  {
    if from == to then m else IndexTxs(IndexBlocks(m, L, from, to - 1), to - 1, L[to - 1], |L[to - 1]|)
  }

  /** Deleting the hashes of a suffix leaves exactly the index of the prefix. */
  lemma UnindexSuffix(L: TxLists, k: nat, m: Index)
    requires Distinct(L) && IndexOf(L, m) && k <= |L|
    ensures IndexOf(L[..k], m - AllHashes(L[k..]))
  {
    forall p | At(L, p)
      ensures HashAt(L, p) in AllHashes(L[k..]) <==> p.number >= k
    {
      if HashAt(L, p) in AllHashes(L[k..]) {
        var q :| At(L[k..], q) && HashAt(L[k..], q) == HashAt(L, p);
        assert At(L, Place(q.number + k, q.index)) && HashAt(L, Place(q.number + k, q.index)) == HashAt(L, p);
      }
      if p.number >= k {
        assert HashAt(L[k..], Place(p.number - k, p.index)) == HashAt(L, p);
      }
    }
    forall p
      ensures At(L[..k], p) <==> At(L, p) && p.number < k
      ensures At(L[..k], p) ==> HashAt(L[..k], p) == HashAt(L, p)
    {
    }
  }

  lemma PrefixIndex(L: TxLists, k: nat, m: Index)
    requires k <= |L| && IndexOf(L[..k], m)
    ensures IndexUpTo(L, k, 0, m)
  {
    forall p
      ensures At(L[..k], p) <==> At(L, p) && p.number < k
      ensures At(L[..k], p) ==> HashAt(L[..k], p) == HashAt(L, p)
    {
    }
  }

  lemma {:induction false} IndexTxsCorrect(L: TxLists, n: nat, m: Index, i: nat)
    requires Distinct(L) && n < |L| && i <= |L[n]| && IndexUpTo(L, n, 0, m)
    ensures IndexUpTo(L, n, i, IndexTxs(m, n, L[n], i))
  {
    if i > 0 {
      IndexTxsCorrect(L, n, m, i - 1);
      assert At(L, Place(n, i - 1)) && HashAt(L, Place(n, i - 1)) == L[n][i - 1];
    }
  }

  /** Writing the blocks of a path one by one gives exactly the index of the path. */
  lemma {:induction false} IndexBlocksCorrect(L: TxLists, m: Index, from: nat, to: nat)
    requires Distinct(L) && from <= to <= |L| && IndexUpTo(L, from, 0, m)
    ensures IndexUpTo(L, to, 0, IndexBlocks(m, L, from, to))
  {
    if from < to {
      IndexBlocksCorrect(L, m, from, to - 1);
      IndexTxsCorrect(L, to - 1, IndexBlocks(m, L, from, to - 1), |L[to - 1]|);
    }
  }

  lemma SuffixIndexed(L: TxLists, k: nat, m: Index)
    requires IndexOf(L, m) && k <= |L|
    ensures AllHashes(L[k..]) <= m.Keys
  {
    forall h <- AllHashes(L[k..])
      ensures h in m
    {
      var p :| At(L[k..], p) && HashAt(L[k..], p) == h;
      assert At(L, Place(p.number + k, p.index)) && HashAt(L, Place(p.number + k, p.index)) == h;
    }
  }

  /** A hash leaves the index only by standing above the common prefix. */
  lemma KeysAcross(L: TxLists, m: Index, L': TxLists, m': Index, k: nat)
    requires IndexOf(L, m) && IndexOf(L', m') && k <= |L| && k <= |L'| && L[..k] == L'[..k]
    ensures m.Keys <= m'.Keys + AllHashes(L[k..])
  {
    forall h <- m
      ensures h in m'.Keys + AllHashes(L[k..])
    {
      var p := m[h];
      assert At(L, p) && HashAt(L, p) == h;
      if p.number < k {
        assert L'[p.number] == L'[..k][p.number] == L[p.number];
        assert At(L', p) && HashAt(L', p) == h;
      } else {
        assert HashAt(L[k..], Place(p.number - k, p.index)) == h;
      }
    }
  }

  function HashSet(hs: seq<Hash>): set<Hash> { set i | 0 <= i < |hs| :: hs[i] }

  lemma AllHashesGrow(L: TxLists, k: nat)
    requires k < |L|
    ensures AllHashes(L[..k + 1]) == AllHashes(L[..k]) + HashSet(L[k])
  {
    forall h
      ensures h in AllHashes(L[..k + 1]) <==> h in AllHashes(L[..k]) + HashSet(L[k])
    {
      if h in AllHashes(L[..k + 1]) {
        var p :| At(L[..k + 1], p) && HashAt(L[..k + 1], p) == h;
        if p.number < k { assert At(L[..k], p) && HashAt(L[..k], p) == h; }
      }
      if h in AllHashes(L[..k]) {
        var p :| At(L[..k], p) && HashAt(L[..k], p) == h;
        assert At(L[..k + 1], p) && HashAt(L[..k + 1], p) == h;
      }
      if h in HashSet(L[k]) {
        var i :| 0 <= i < |L[k]| && L[k][i] == h;
        assert At(L[..k + 1], Place(k, i)) && HashAt(L[..k + 1], Place(k, i)) == h;
      }
    }
  }
}
