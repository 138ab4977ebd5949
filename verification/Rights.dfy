/** Rights that may be exercised once: voices, credentials and receipts (src/state.js:543-551, 634-691, 844-871). */
module Rights {
  import opened Common
  import opened Types
  import Inbound
  import Outbound
  import opened Transition

  /** One voice per wallet and scope, one use per credential serial and place, one return per receipt position. */
  datatype Right = Voice(key: Key) | Spend(serial: Serial) | Paid(receipt: Outbound.ReturnKey)

  predicate IsSpent(v: Ledger, r: Right) {
    match r
    case Voice(key) => key in v.voteKeys
    case Spend(serial) => serial in v.spentSerials
    case Paid(receipt) => receipt in v.outbound.returnKeys
  }

  /** The right a transaction exercises where it stands, if any. */
  function Exercised(v: Ledger, tx: Tx, height: nat): set<Right> {
    match Seen(tx, height)
    case Vote(pollId) => {Voice(Key(tx.from, pollId))}
    case Express(token, pollId, _) =>
      if token in v.tokens && (v.tokens[token].spec.voteMode.Single? || v.tokens[token].spec.voteMode.Quantum?)
      then {Voice(Key(tx.from, ScopeOf(v.tokens[token].spec, token, pollId)))} else {}
    case Credential(pollId, serial, _) => {Spend(Serial(pollId, serial))}
    case MoliReturn(ethBlock, txIndex, _) => {Paid(Outbound.ReturnKey(ethBlock, txIndex))}
    case _ => {}
  }

  /** A transaction exercises only rights still free, and exactly those become spent. */
  lemma {:induction false} ApplyExercises(env: Env, v: Ledger, tx: Tx, miner: Address, height: nat, r: Right)
    requires Apply(env, v, tx, miner, height).Some?
    ensures r in Exercised(v, tx, height) ==> !IsSpent(v, r)
    ensures IsSpent(Apply(env, v, tx, miner, height).value, r) <==> IsSpent(v, r) || r in Exercised(v, tx, height)
  {
    hide CommitOf, BaseChecks, AccountsAfter, InboundAfter, IssueChecks, TransferChecks;
  }

  /** A transaction by which its sender speaks on a poll: a vote, or an expression with a quantum token. */
  predicate SpeaksOn(v: Ledger, tx: Tx, pollId: Hash) {
    match tx.payload
    case Vote(p) => p == pollId
    case Express(token, p, _) => p == pollId && token in v.tokens && v.tokens[token].spec.voteMode.Quantum?
    case _ => false
  }

  /**
   * One voice per wallet and poll, whatever tokens are involved: once a wallet has spoken on a poll in either
   * way, no vote and no quantum expression of it on that poll applies in any state that still has its voice.
   */
  lemma {:induction false} OneVoicePerPoll(
    env: Env, v: Ledger, a: Tx, miner: Address, height: nat, v': Ledger, b: Tx, miner': Address, height': nat,
    pollId: Hash)
    requires a.from == b.from && SpeaksOn(v, a, pollId) && SpeaksOn(v', b, pollId)
    requires Apply(env, v, a, miner, height).Some?
    requires Apply(env, v, a, miner, height).value.voteKeys <= v'.voteKeys
    ensures Apply(env, v', b, miner', height').None?
  {
    hide CommitOf, BaseChecks, AccountsAfter, InboundAfter, IssueChecks, TransferChecks, ReturnChecks, OutboundAfter;
    var voice := Voice(Key(a.from, pollId));
    assert voice in Exercised(v, a, height) && voice in Exercised(v', b, height');
    ApplyExercises(env, v, a, miner, height, voice);
    if Apply(env, v', b, miner', height').Some? { ApplyExercises(env, v', b, miner', height', voice); }
  }

  /** The counter an expression moves: every mode but single and quantum keeps one per wallet and token. */
  function Counted(v: Ledger, tx: Tx, height: nat): set<Key> {
    match Seen(tx, height)
    case Express(token, _, _) =>
      if token in v.tokens && !v.tokens[token].spec.voteMode.Single? && !v.tokens[token].spec.voteMode.Quantum?
      then {Key(tx.from, token)} else {}
    case _ => {}
  }

  /** A counter counts: one up for each such expression, and otherwise still. */
  lemma {:induction false} ApplyCounts(env: Env, v: Ledger, tx: Tx, miner: Address, height: nat, k: Key)
    requires Apply(env, v, tx, miner, height).Some?
    ensures Apply(env, v, tx, miner, height).value.Expressions(k) ==
            v.Expressions(k) + if k in Counted(v, tx, height) then 1 else 0
  {
    hide CommitOf, BaseChecks, AccountsAfter, InboundAfter, IssueChecks, TransferChecks, ReturnChecks, OutboundAfter,
         HoldingsAfter;
  }

  /**
   * From the bridge's second version on, Ethereum roots have one named source, and from the bot's flag day a
   * lesser second one, which can never touch a root already there.
   */
  lemma {:induction false} EthereumRootsHaveOneSource(env: Env, v: Ledger, tx: Tx, miner: Address, height: nat,
                                                      key: Inbound.HeaderKey)
    requires Apply(env, v, tx, miner, height).Some? && height >= BRIDGE_V2_ACTIVATION && key.chain == ETH_CHAIN_ID
    ensures var headers, headers' := v.inbound.headers, Apply(env, v, tx, miner, height).value.inbound.headers;
            && (key in headers ==> key in headers')
            && (key in headers' && (key !in headers || headers'[key] != headers[key]) ==>
                  && tx.payload.HeaderCommit? && Inbound.HeaderKey(tx.payload.chainId, tx.payload.ethBlock) == key
                  && headers'[key].receiptsRoot == tx.payload.receiptsRoot && headers'[key].committer == tx.from
                  && (|| tx.from == ETH_HEADER_AUTHORITY
                      || (height >= BOT_HEADER_ACTIVATION && tx.from == ETH_HEADER_BOT && key !in headers)))
  {
    hide BaseChecks, AccountsAfter, IssueChecks, TransferChecks, ExpressChecks, ReturnChecks, OutboundAfter,
         TokensAfter, HoldingsAfter;
  }

  /** No wallet ever passes the cap of a capped token. */
  ghost predicate CapsHold(v: Ledger) {
    && (forall k <- v.expressCounts :: k.scope in v.tokens)
    && (forall k <- v.expressCounts :: k.scope in v.tokens && v.tokens[k.scope].spec.voteMode.Capped? ==>
          v.expressCounts[k] <= v.tokens[k.scope].spec.cap)
  }

  lemma {:induction false} ApplyKeepsCaps(env: Env, v: Ledger, tx: Tx, miner: Address, height: nat)
    requires CapsHold(v) && Apply(env, v, tx, miner, height).Some?
    ensures CapsHold(Apply(env, v, tx, miner, height).value)
  {
    hide CommitOf, BaseChecks, AccountsAfter, InboundAfter, IssueChecks, TransferChecks, HoldingsAfter;
  }
}
