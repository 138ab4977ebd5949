/** Chains small enough to write down: the only blocks that verify are those of a list, each at its height. */
module SmallChains {
  import opened Common
  import opened Types
  import opened BlockTree

  function Small(blocks: seq<Block>, genesis: Block, txHash: Tx -> Hash, maxReorgDepth: nat): Rules<nat> {
    Rules((p: Entry<nat>, b: Block) =>
            if b in blocks && b.header.number == p.Number() + 1 then Some((b.header.number, [])) else None,
          (s, tx) => false, txHash, Entry(genesis, 0, [], 0), maxReorgDepth, 500)
  }

  /** A block with nothing in it. */
  function Bare(number: nat, hash: Hash, parent: Hash, difficulty: nat): Block {
    Block(Header(number, parent, 0, 0, 0, 0, difficulty, 0, 0, [], 0), hash, [])
  }

  const GENESIS: Block := Bare(0, 1, 0, 0)

  ghost predicate Sensible(blocks: seq<Block>, txHash: Tx -> Hash) {
    && (forall t, t' :: txHash(t) == txHash(t') ==> t == t')
    && (forall b <- blocks :: b.header.difficulty > 0 && b.txs == [] && b.hash != GENESIS.hash)
    && (forall a, b :: a in blocks && b in blocks && a.hash == b.hash ==> a == b)
  }

  lemma SmallIsLawful(blocks: seq<Block>, txHash: Tx -> Hash, maxReorgDepth: nat)
    requires Sensible(blocks, txHash)
    ensures Lawful(Small(blocks, GENESIS, txHash, maxReorgDepth))
  {
  }
}
