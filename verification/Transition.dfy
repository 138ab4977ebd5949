/**
 * What one transaction does to the state: checks first, then effects (src/state.js:512-1156, src/token.js,
 * src/monetary.js), for the payload kinds the validator itself claims.
 */
module Transition {
  import opened Common
  import opened Types
  import Outbound
  import Inbound
  import A = Accounts

  const MOLI_BURN_ACTIVATION: nat := 80_000
  const PUBLISH_BURN_ACTIVATION: nat := 80_000
  const BRIDGE_V2_ACTIVATION: nat := 118_000
  const BOT_HEADER_ACTIVATION: nat := 146_000
  const TOKEN_CREATION_BURN: nat := 1_000_000_000_000_000
  const TOKEN_ISSUE_BURN: nat := 1_000_000_000_000
  const ETH_CHAIN_ID: nat := 1
  const ETH_HEADER_AUTHORITY: Address := 0xf51ac8fd4112bf1d45fd5c38d5abfe0c61ec3f5a
  const ETH_HEADER_BOT: Address := 0xd30cb4d5bd928313d0b50908b1f6dc3bfbe61dcf

  /** H(wallet, scope): votes and expressions draw their keys from this one space. */
  datatype Key = Key(who: Address, scope: Hash)

  datatype Holding = Holding(token: TokenId, holder: Address)

  datatype Token = Token(spec: TokenSpec, creator: Address, minted: int, burned: int, expressions: int)

  datatype Poll = Poll(opener: Address, n: nat, e: nat, openedAt: nat)

  datatype Serial = Serial(pollId: Hash, serial: Hash)

  /** Everything `State` holds that native transactions can read or write. */
  datatype Ledger = Ledger(
    accounts: A.Book,
    voteKeys: set<Key>,
    tokens: map<TokenId, Token>,
    holdings: map<Holding, int>,
    expressCounts: map<Key, nat>,
    polls: map<Hash, Poll>,
    spentSerials: set<Serial>,
    inbound: Inbound.Ledger,
    outbound: Outbound.Ledger)
  {
    function Balance(a: Address): nat { A.Balance(accounts, a) }
    function Nonce(a: Address): nat { A.Nonce(accounts, a) }
    function Held(token: TokenId, a: Address): int { HeldIn(holdings, token, a) }
    function Expressions(k: Key): nat { if k in expressCounts then expressCounts[k] else 0 }
  }

  function HeldIn(holdings: map<Holding, int>, token: TokenId, a: Address): int {
    if Holding(token, a) in holdings then holdings[Holding(token, a)] else 0
  }

  /** A zero holding is deleted rather than stored. */
  function SetHeld(holdings: map<Holding, int>, token: TokenId, a: Address, amount: int): map<Holding, int> {
    if amount == 0 then holdings - {Holding(token, a)} else holdings[Holding(token, a) := amount]
  }

  function MoveHeld(holdings: map<Holding, int>, token: TokenId, from: Address, to: Address, amount: int)
      : map<Holding, int> {
    var less := SetHeld(holdings, token, from, HeldIn(holdings, token, from) - amount);
    SetHeld(less, token, to, HeldIn(less, token, to) + amount)
  }

  /** What a receipt proof yields: MOLI per sender, and in all (src/molireturn.js:218-239). */
  datatype Returns = Returns(bySender: map<Address, nat>, total: nat)

  /** What lies outside the state: the cryptography a verdict rests on. */
  datatype Env = Env(
    tokenId: (Address, string, nat) -> TokenId,
    credentialValid: (Hash, nat, nat, nat) -> bool,
    proveReturn: (Hash, nat, seq<Bytes>) -> Option<Returns>)
  {
    ghost predicate Sums() {
      forall root, i, proof :: proveReturn(root, i, proof).Some? ==>
        proveReturn(root, i, proof).value.total == Sum(proveReturn(root, i, proof).value.bySender)
    }
  }

  // ------------------------------------------------------------- shapes

  function IntrinsicGas(tx: Tx): nat { 21_000 + 4 * tx.zeroBytes + 16 * tx.nonZeroBytes }

  function Fee(tx: Tx): nat { IntrinsicGas(tx) * tx.gasPrice }

  /** Which payload the validator sees at a height: before its flag day a payload is ordinary data. */
  function Seen(tx: Tx, height: nat): Payload {
    match tx.payload
    case MoliBurn(_, _) => if height >= MOLI_BURN_ACTIVATION then tx.payload else Plain(false)
    case MoliReturn(_, _, _) => if height >= BRIDGE_V2_ACTIVATION then tx.payload else Plain(false)
    case _ => tx.payload
  }

  /** Ordinary data addressed to nobody is a contract creation, which this model leaves to the EVM. */
  predicate NeedsEvm(tx: Tx, height: nat) { Seen(tx, height) == Plain(false) && tx.to.None? }

  predicate SelfAddressed(tx: Tx) { tx.value == 0 && tx.to == Some(tx.from) }

  /** normalizeTokenRecord, on the fields that carry consequences (src/token.js:280-455). */
  predicate WellFormedSpec(s: TokenSpec) {
    && 0 < |s.title| <= 200
    && (if s.isExpression then !s.voteMode.NoMode? && s.expressionCost > 0
        else s.voteMode.NoMode? && s.expressionCost == 0)
    && (s.voteMode.Capped? ==> s.cap >= 1)
    && s.initialSupply >= 0 && s.maxSupply >= 0
    && (s.maxSupply > 0 ==> s.initialSupply <= s.maxSupply)
    && !(s.restrictedPurpose && s.transferable)
    && !(s.isExpression && !s.issuable && !s.transferable)
    && !(!s.issuable && s.initialSupply == 0)
  }

  /** What an expression must burn; `None` when the amount is not allowed (src/token.js:467-483). */
  function ExpressionBurn(s: TokenSpec, asked: int): Option<int> {
    if s.voteMode.Weighted? then (if asked < s.expressionCost then None else Some(asked))
    else if asked != s.expressionCost then None else Some(s.expressionCost)
  }

  function ScopeOf(s: TokenSpec, token: TokenId, pollId: Hash): Hash { if s.voteMode.Quantum? then pollId else token }

  /** The charge a publisher pays, destroyed rather than paid to anyone (src/state.js:923-929). */
  function PublishBurn(tx: Tx, height: nat): nat {
    if height < PUBLISH_BURN_ACTIVATION then 0
    else match tx.payload
      case TokenCreate(_) => TOKEN_CREATION_BURN
      case TokenIssue(_, _) => TOKEN_ISSUE_BURN
      case _ => 0
  }

  function MoliBurned(tx: Tx, height: nat): nat {
    match Seen(tx, height)
    case MoliBurn(_, amount) => amount
    case _ => 0
  }

  // ------------------------------------------------------------- the checks

  predicate BaseChecks(v: Ledger, tx: Tx) {
    && !v.inbound.IsAuthority(tx.from)
    && tx.nonce == v.Nonce(tx.from)
    && tx.gasLimit >= IntrinsicGas(tx)
    && v.Balance(tx.from) >= Fee(tx) + tx.value
  }

  predicate IssueChecks(v: Ledger, tx: Tx, token: TokenId, amount: int) {
    && tx.value == 0 && tx.to.Some? && token in v.tokens
    && var t := v.tokens[token];
       && t.spec.issuable && tx.from == t.creator && amount > 0
       && (t.spec.maxSupply > 0 ==> t.minted + amount <= t.spec.maxSupply)
  }

  predicate TransferChecks(v: Ledger, tx: Tx, token: TokenId, amount: int) {
    && tx.value == 0 && tx.to.Some? && token in v.tokens
    && v.tokens[token].spec.transferable && amount > 0 && v.Held(token, tx.from) >= amount
  }

  predicate ExpressChecks(v: Ledger, tx: Tx, token: TokenId, pollId: Hash, amount: int) {
    && SelfAddressed(tx) && token in v.tokens
    && var s := v.tokens[token].spec;
       var burn := ExpressionBurn(s, amount);
       var key := Key(tx.from, ScopeOf(s, token, pollId));
       && burn.Some? && v.Held(token, tx.from) >= burn.value
       && (s.voteMode.Quantum? || s.voteMode.Single? ==> key !in v.voteKeys)
       && (s.voteMode.Capped? ==> v.Expressions(key) < s.cap)
  }

  predicate PollShape(n: nat, e: nat) { n >= Pow2_2039() && n % 2 != 0 && e >= 3 && e % 2 != 0 }

  /** The least modulus of 2040 bits. */
  function Pow2_2039(): nat { Pow2(2039) }

  function CommitOf(v: Ledger, tx: Tx, height: nat, chain: nat, ethBlock: nat, root: Hash): Option<Inbound.Ledger> {
    var v2, bot, eth := height >= BRIDGE_V2_ACTIVATION, height >= BOT_HEADER_ACTIVATION, chain == ETH_CHAIN_ID;
    if v2 && eth && tx.from != ETH_HEADER_AUTHORITY && !(bot && tx.from == ETH_HEADER_BOT) then None
    else
      v.inbound.CommitHeader(Inbound.HeaderKey(chain, ethBlock), root, tx.from, v2 && eth,
        if bot && eth then Some(Inbound.Tiers(ETH_HEADER_AUTHORITY, ETH_HEADER_BOT)) else None)
  }

  /** A return rests on a committed root, and on the bot's word alone only within the rolling cap. */
  predicate RestsOnBot(v: Ledger, height: nat, ethBlock: nat) {
    var key := Inbound.HeaderKey(ETH_CHAIN_ID, ethBlock);
    height >= BOT_HEADER_ACTIVATION && key in v.inbound.headers && v.inbound.headers[key].committer == ETH_HEADER_BOT
  }

  function Proved(env: Env, v: Ledger, ethBlock: nat, txIndex: nat, proof: seq<Bytes>): Option<Returns> {
    var key := Inbound.HeaderKey(ETH_CHAIN_ID, ethBlock);
    if key !in v.inbound.headers then None else env.proveReturn(v.inbound.headers[key].receiptsRoot, txIndex, proof)
  }

  predicate ReturnChecks(env: Env, v: Ledger, tx: Tx, height: nat, ethBlock: nat, txIndex: nat, proof: seq<Bytes>) {
    var key := Inbound.HeaderKey(ETH_CHAIN_ID, ethBlock);
    && tx.value == 0
    && key in v.inbound.headers
    && (v.inbound.headers[key].committer == ETH_HEADER_AUTHORITY || RestsOnBot(v, height, ethBlock))
    && Proved(env, v, ethBlock, txIndex, proof).Some?
    && var total := Proved(env, v, ethBlock, txIndex, proof).value.total;
       && v.outbound.Returnable(Outbound.ReturnKey(ethBlock, txIndex), total)
       && (RestsOnBot(v, height, ethBlock) ==> v.outbound.BotReturnable(height, total))
  }

  predicate PayloadChecks(env: Env, v: Ledger, tx: Tx, height: nat) {
    match Seen(tx, height)
    case Plain(_) => true
    case Malformed => false
    case Vote(pollId) => SelfAddressed(tx) && Key(tx.from, pollId) !in v.voteKeys
    case TokenCreate(s) =>
      tx.value == 0 && WellFormedSpec(s) && env.tokenId(tx.from, s.title, height) !in v.tokens
    case TokenIssue(token, amount) => IssueChecks(v, tx, token, amount)
    case TokenTransfer(token, amount) => TransferChecks(v, tx, token, amount)
    case Express(token, pollId, amount) => ExpressChecks(v, tx, token, pollId, amount)
    case PollOpen(pollId, n, e) => tx.value == 0 && PollShape(n, e) && pollId !in v.polls
    case Credential(pollId, serial, signature) =>
      && SelfAddressed(tx) && pollId in v.polls
      && env.credentialValid(serial, signature, v.polls[pollId].n, v.polls[pollId].e)
      && Serial(pollId, serial) !in v.spentSerials
    case HeaderCommit(chain, ethBlock, root) => tx.value == 0 && CommitOf(v, tx, height, chain, ethBlock, root).Some?
    case MoliBurn(recipient, amount) =>
      amount > 0 && recipient != 0 && tx.value == 0 && v.Balance(tx.from) >= Fee(tx) + amount
    case MoliReturn(ethBlock, txIndex, proof) => ReturnChecks(env, v, tx, height, ethBlock, txIndex, proof)
  }

  /** Everything is checked before anything is mutated. */
  predicate Applicable(env: Env, v: Ledger, tx: Tx, height: nat) {
    && BaseChecks(v, tx)
    && !NeedsEvm(tx, height)
    && PayloadChecks(env, v, tx, height)
    && v.Balance(tx.from) >= Fee(tx) + tx.value + PublishBurn(tx, height)
  }

  // ------------------------------------------------------------- the effects, part by part

  /** MOLI destroyed outright or sent across the bridge by this transaction. */
  function Destroyed(tx: Tx, height: nat): nat { MoliBurned(tx, height) + PublishBurn(tx, height) }

  function AccountsAfter(env: Env, v: Ledger, tx: Tx, miner: Address, height: nat): A.Book
    requires Applicable(env, v, tx, height)
  {
    A.SettleConserves(v.accounts, tx, Fee(tx), miner);
    var settled := A.Settle(v.accounts, tx, Fee(tx), miner);
    match Seen(tx, height)
    case MoliReturn(ethBlock, txIndex, proof) =>
      A.CreditAll(settled, Proved(env, v, ethBlock, txIndex, proof).value.bySender)
    case _ => A.Debit(settled, tx.from, Destroyed(tx, height))
  }

  function VoteKeysAfter(v: Ledger, tx: Tx, height: nat): set<Key> {
    match Seen(tx, height)
    case Vote(pollId) => v.voteKeys + {Key(tx.from, pollId)}
    case Express(token, pollId, _) =>
      if token in v.tokens && (v.tokens[token].spec.voteMode.Single? || v.tokens[token].spec.voteMode.Quantum?)
      then v.voteKeys + {Key(tx.from, ScopeOf(v.tokens[token].spec, token, pollId))}
      else v.voteKeys
    case _ => v.voteKeys
  }

  function CountsAfter(v: Ledger, tx: Tx, height: nat): map<Key, nat> {
    match Seen(tx, height)
    case Express(token, pollId, _) =>
      if token in v.tokens && !v.tokens[token].spec.voteMode.Single? && !v.tokens[token].spec.voteMode.Quantum?
      then v.expressCounts[Key(tx.from, token) := v.Expressions(Key(tx.from, token)) + 1]
      else v.expressCounts
    case _ => v.expressCounts
  }

  function TokensAfter(env: Env, v: Ledger, tx: Tx, height: nat): map<TokenId, Token> {
    match Seen(tx, height)
    case TokenCreate(s) => v.tokens[env.tokenId(tx.from, s.title, height) := Token(s, tx.from, s.initialSupply, 0, 0)]
    case TokenIssue(id, amount) =>
      if id in v.tokens then v.tokens[id := v.tokens[id].(minted := v.tokens[id].minted + amount)] else v.tokens
    case Express(id, _, amount) =>
      if id in v.tokens && ExpressionBurn(v.tokens[id].spec, amount).Some? then
        var t := v.tokens[id];
        v.tokens[id := t.(burned := t.burned + ExpressionBurn(t.spec, amount).value, expressions := t.expressions + 1)]
      else v.tokens
    case _ => v.tokens
  }

  function HoldingsAfter(env: Env, v: Ledger, tx: Tx, height: nat): map<Holding, int> {
    match Seen(tx, height)
    case TokenCreate(s) =>
      if s.initialSupply > 0 then SetHeld(v.holdings, env.tokenId(tx.from, s.title, height), tx.from, s.initialSupply)
        else v.holdings
    case TokenIssue(id, amount) =>
      if tx.to.Some? then SetHeld(v.holdings, id, tx.to.value, v.Held(id, tx.to.value) + amount) else v.holdings
    case TokenTransfer(id, amount) =>
      if tx.to.Some? then MoveHeld(v.holdings, id, tx.from, tx.to.value, amount) else v.holdings
    case Express(id, _, amount) =>
      if id in v.tokens && ExpressionBurn(v.tokens[id].spec, amount).Some?
      then SetHeld(v.holdings, id, tx.from, v.Held(id, tx.from) - ExpressionBurn(v.tokens[id].spec, amount).value)
      else v.holdings
    case _ => v.holdings
  }

  function PollsAfter(v: Ledger, tx: Tx, height: nat): map<Hash, Poll> {
    match Seen(tx, height)
    case PollOpen(pollId, n, e) => v.polls[pollId := Poll(tx.from, n, e, height)]
    case _ => v.polls
  }

  function SerialsAfter(v: Ledger, tx: Tx, height: nat): set<Serial> {
    match Seen(tx, height)
    case Credential(pollId, serial, _) => v.spentSerials + {Serial(pollId, serial)}
    case _ => v.spentSerials
  }

  function InboundAfter(v: Ledger, tx: Tx, height: nat): Inbound.Ledger {
    match Seen(tx, height)
    case HeaderCommit(chain, ethBlock, root) =>
      if CommitOf(v, tx, height, chain, ethBlock, root).Some? then CommitOf(v, tx, height, chain, ethBlock, root).value
        else v.inbound
    case _ => v.inbound
  }

  function OutboundAfter(env: Env, v: Ledger, tx: Tx, height: nat): Outbound.Ledger {
    match Seen(tx, height)
    case MoliBurn(recipient, amount) => v.outbound.Burn(recipient, amount)
    case MoliReturn(ethBlock, txIndex, proof) =>
      if Proved(env, v, ethBlock, txIndex, proof).None? then v.outbound
      else
        var Returns(bySender, total) := Proved(env, v, ethBlock, txIndex, proof).value;
        var key := Outbound.ReturnKey(ethBlock, txIndex);
        var recorded := v.outbound.RecordReturn(key, bySender, total);
        if RestsOnBot(v, height, ethBlock) then recorded.RecordBotReturn(height, key, total) else recorded
    case _ => v.outbound
  }

  /** The whole transition: `None` when the transaction is refused. */
  function Apply(env: Env, v: Ledger, tx: Tx, miner: Address, height: nat): Option<Ledger> {
    if !Applicable(env, v, tx, height) then None
    else Some(Ledger(
        AccountsAfter(env, v, tx, miner, height), VoteKeysAfter(v, tx, height), TokensAfter(env, v, tx, height),
        HoldingsAfter(env, v, tx, height), CountsAfter(v, tx, height), PollsAfter(v, tx, height),
        SerialsAfter(v, tx, height),
        InboundAfter(v, tx, height), OutboundAfter(env, v, tx, height)))
  }
}
