/** What travels on the wire: transactions, headers and blocks (src/tx.js, src/block.js). */
module Types {
  import opened Common

  type Address = nat
  type Hash = nat
  type TokenId = nat
  type Byte = n: nat | n < 256
  type Bytes = seq<Byte>

  /** How far ahead of the local clock a header may stand (src/limits.js). */
  const MAX_FUTURE_DRIFT: nat := 120

  datatype VoteMode = Quantum | Single | Capped | Weighted | NoMode

  /** The economically meaningful part of a token record (src/token.js:280-455). */
  datatype TokenSpec = TokenSpec(
    title: string, isExpression: bool, voteMode: VoteMode, cap: int,
    initialSupply: int, maxSupply: int, expressionCost: int,
    issuable: bool, transferable: bool, restrictedPurpose: bool)

  /** The typed payloads; their 4-byte tags make the kinds exclusive. */
  datatype Payload =
    | Plain(isEmpty: bool)
    | Malformed
    | Vote(pollId: Hash)
    | TokenCreate(spec: TokenSpec)
    | TokenIssue(tokenId: TokenId, amount: nat)
    | TokenTransfer(tokenId: TokenId, amount: nat)
    | Express(tokenId: TokenId, pollId: Hash, amount: nat)
    | PollOpen(pollId: Hash, n: nat, e: nat)
    | Credential(pollId: Hash, serial: Hash, signature: nat)
    | HeaderCommit(chainId: nat, ethBlock: nat, receiptsRoot: Hash)
    | MoliBurn(recipient: Address, amount: nat)
    | MoliReturn(ethBlock: nat, txIndex: nat, proof: seq<Bytes>)

  datatype Tx = Tx(
    from: Address, to: Option<Address>, nonce: nat, gasPrice: nat, gasLimit: nat, value: nat,
    payload: Payload, zeroBytes: nat, nonZeroBytes: nat)

  datatype Header = Header(
    number: nat, parentHash: Hash, timestamp: nat, miner: Address, stateRoot: Hash, txRoot: Hash,
    difficulty: nat, gasLimit: nat, gasUsed: nat, extraData: seq<Byte>, nonce: nat)

  datatype Block = Block(header: Header, hash: Hash, txs: seq<Tx>)

  datatype TxReceipt = TxReceipt(gasUsed: nat, status: nat)
}
