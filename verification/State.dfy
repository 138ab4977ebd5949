/** The live state, changed in place, and the transition over it (src/state.js:66-326, 512-1156). */
module StateModule {
  import opened Common
  import opened Types
  import Outbound
  import Inbound
  import A = Accounts
  import opened Transition

  /** Crediting one sender and then the rest is crediting them all. */
  lemma CreditOne(m: A.Book, bySender: map<Address, nat>, a: Address)
    requires a in bySender
    ensures A.CreditAll(A.Credit(m, a, bySender[a]), bySender - {a}) == A.CreditAll(m, bySender)
  {
    var one, all := A.CreditAll(A.Credit(m, a, bySender[a]), bySender - {a}), A.CreditAll(m, bySender);
    assert one.Keys == all.Keys;
    forall b | b in all
      ensures one[b] == all[b]
    {
    }
  }

  lemma CreditNobody(m: A.Book)
    ensures A.CreditAll(m, map[]) == m
  {
  }

  /** What the checks found out, kept for the effects. */
  datatype Plan =
    | Nothing
    | Speaking(voice: Key)
    | Creating(id: TokenId, spec: TokenSpec)
    | Issuing(id: TokenId, to: Address, amount: nat)
    | Moving(id: TokenId, to: Address, amount: nat)
    | Expressing(id: TokenId, voice: Key, burn: int, keyed: bool)
    | Opening(pollId: Hash, n: nat, e: nat)
    | Spending(serial: Serial)
    | Committing(at: Inbound.HeaderKey, root: Hash, authority: bool, tiers: Option<Inbound.Tiers>)
    | Burning(recipient: Address, amount: nat)
    | Returning(receipt: Outbound.ReturnKey, found: Returns, byBot: bool)

  /** The plan the transition's effects follow, whenever it applies. */
  ghost predicate Follows(env: Env, v: Ledger, tx: Tx, height: nat, plan: Plan) {
    match Seen(tx, height)
    case Plain(_) => plan == Nothing
    case Malformed => false
    case Vote(pollId) => plan == Speaking(Key(tx.from, pollId))
    case TokenCreate(s) => plan == Creating(env.tokenId(tx.from, s.title, height), s)
    case TokenIssue(id, amount) => tx.to.Some? && plan == Issuing(id, tx.to.value, amount)
    case TokenTransfer(id, amount) => tx.to.Some? && plan == Moving(id, tx.to.value, amount)
    case Express(id, pollId, amount) =>
      && id in v.tokens
      && var s := v.tokens[id].spec;
         && ExpressionBurn(s, amount).Some?
         && plan == Expressing(id, Key(tx.from, ScopeOf(s, id, pollId)), ExpressionBurn(s, amount).value,
                               s.voteMode.Single? || s.voteMode.Quantum?)
    case PollOpen(pollId, n, e) => plan == Opening(pollId, n, e)
    case Credential(pollId, serial, _) => plan == Spending(Serial(pollId, serial))
    case HeaderCommit(chain, ethBlock, root) =>
      var v2, bot, eth := height >= BRIDGE_V2_ACTIVATION, height >= BOT_HEADER_ACTIVATION, chain == ETH_CHAIN_ID;
      plan == Committing(Inbound.HeaderKey(chain, ethBlock), root, v2 && eth,
                         if bot && eth then Some(Inbound.Tiers(ETH_HEADER_AUTHORITY, ETH_HEADER_BOT)) else None)
    case MoliBurn(recipient, amount) => plan == Burning(recipient, amount)
    case MoliReturn(ethBlock, txIndex, proof) =>
      && Proved(env, v, ethBlock, txIndex, proof).Some?
      && plan == Returning(Outbound.ReturnKey(ethBlock, txIndex), Proved(env, v, ethBlock, txIndex, proof).value,
                           RestsOnBot(v, height, ethBlock))
  }

  /** What the checks guarantee the effects: that no step of them can fail. */
  ghost predicate Safe(v: Ledger, tx: Tx, height: nat, plan: Plan) {
    && v.Balance(tx.from) >= Fee(tx) + tx.value + PublishBurn(tx, height) + (if plan.Burning? then plan.amount else 0)
    && (plan.Creating? ==> plan.id !in v.tokens)
    && (plan.Issuing? ==>
          && plan.id in v.tokens && plan.amount > 0
          && (v.tokens[plan.id].spec.maxSupply > 0 ==>
             v.tokens[plan.id].minted + plan.amount <= v.tokens[plan.id].spec.maxSupply))
    && (plan.Moving? ==> v.Held(plan.id, tx.from) >= plan.amount)
    && (plan.Expressing? ==> plan.id in v.tokens && v.Held(plan.id, tx.from) >= plan.burn)
    && (plan.Committing? ==> v.inbound.CommitHeader(plan.at, plan.root, tx.from, plan.authority, plan.tiers).Some?)
    && (plan.Returning? ==> v.outbound.Returnable(plan.receipt, plan.found.total) && PublishBurn(tx, height) == 0)
  }

  lemma ChecksMakeSafe(env: Env, v: Ledger, tx: Tx, height: nat, plan: Plan)
    requires Applicable(env, v, tx, height) && Follows(env, v, tx, height, plan)
    ensures Safe(v, tx, height, plan)
    ensures plan.Returning? && env.Sums() ==> plan.found.total == Sum(plan.found.bySender)
  {
  }

  /** The balances the plan leaves. */
  lemma {:induction false} AccountsBy(env: Env, v: Ledger, tx: Tx, miner: Address, height: nat, plan: Plan)
    requires Applicable(env, v, tx, height) && Follows(env, v, tx, height, plan)
    ensures v.Balance(tx.from) >= Fee(tx) + tx.value
    ensures var settled := A.Settle(v.accounts, tx, Fee(tx), miner);
            var gone := (if plan.Burning? then plan.amount else 0) + PublishBurn(tx, height);
            && tx.from in settled && gone <= A.Balance(settled, tx.from)
            && AccountsAfter(env, v, tx, miner, height) ==
               if plan.Returning? then A.CreditAll(settled, plan.found.bySender) else A.Debit(settled, tx.from, gone)
  {
    hide A.Settle, A.CreditAll, ExpressChecks, ReturnChecks, CommitOf, IssueChecks, TransferChecks;
    A.SettleConserves(v.accounts, tx, Fee(tx), miner);
    A.SettleKeepsSender(v.accounts, tx, Fee(tx), miner);
  }

  /** The rights the plan uses up. */
  lemma {:induction false} RightsBy(env: Env, v: Ledger, tx: Tx, height: nat, plan: Plan)
    requires Follows(env, v, tx, height, plan)
    ensures VoteKeysAfter(v, tx, height) ==
            if plan.Speaking? || (plan.Expressing? && plan.keyed) then v.voteKeys + {plan.voice} else v.voteKeys
    ensures CountsAfter(v, tx, height) ==
            if plan.Expressing? && !plan.keyed then v.expressCounts[plan.voice := v.Expressions(plan.voice) + 1]
              else v.expressCounts
    ensures SerialsAfter(v, tx, height) == if plan.Spending? then v.spentSerials + {plan.serial} else v.spentSerials
    ensures PollsAfter(v, tx, height) ==
            if plan.Opening? then v.polls[plan.pollId := Poll(tx.from, plan.n, plan.e, height)] else v.polls
  {
    hide SetHeld, MoveHeld, RestsOnBot, Proved;
  }

  /** The units the plan makes, moves and destroys. */
  lemma {:induction false} TokensBy(env: Env, v: Ledger, tx: Tx, height: nat, plan: Plan)
    requires Follows(env, v, tx, height, plan) && Safe(v, tx, height, plan)
    ensures TokensAfter(env, v, tx, height) == TokensUnder(plan, tx.from, v.tokens)
    ensures HoldingsAfter(env, v, tx, height) == HoldingsUnder(plan, tx.from, v.holdings)
  {
    hide RestsOnBot, Proved, ScopeOf;
  }

  /** What a plan makes of the outbound ledger. */
  ghost function OutboundBy(l: Outbound.Ledger, height: nat, plan: Plan): Outbound.Ledger {
    match plan
    case Burning(recipient, amount) => l.Burn(recipient, amount)
    case Returning(receipt, found, byBot) =>
      var recorded := l.RecordReturn(receipt, found.bySender, found.total);
      if byBot then recorded.RecordBotReturn(height, receipt, found.total) else recorded
    case _ => l
  }

  /** The bridge ledgers the plan leaves. */
  lemma {:induction false} BridgesBy(env: Env, v: Ledger, tx: Tx, height: nat, plan: Plan)
    requires Applicable(env, v, tx, height) && Follows(env, v, tx, height, plan)
    ensures InboundAfter(v, tx, height) ==
            if plan.Committing? && v.inbound.CommitHeader(plan.at, plan.root, tx.from, plan.authority, plan.tiers).Some?
            then v.inbound.CommitHeader(plan.at, plan.root, tx.from, plan.authority, plan.tiers).value else v.inbound
    ensures OutboundAfter(env, v, tx, height) == OutboundBy(v.outbound, height, plan)
  {
    hide ExpressChecks, ReturnChecks, IssueChecks, TransferChecks, BaseChecks;
  }

  /** What a plan makes of the token records. */
  ghost function TokensUnder(plan: Plan, from: Address, tokens: map<TokenId, Token>): map<TokenId, Token> {
    match plan
    case Creating(id, spec) => tokens[id := Token(spec, from, spec.initialSupply, 0, 0)]
    case Issuing(id, to, amount) =>
      if id !in tokens then tokens else tokens[id := tokens[id].(minted := tokens[id].minted + amount)]
    case Expressing(id, _, burn, _) =>
      if id !in tokens then tokens
      else tokens[id := tokens[id].(burned := tokens[id].burned + burn, expressions := tokens[id].expressions + 1)]
    case _ => tokens
  }

  /** What a plan makes of the holdings. */
  ghost function HoldingsUnder(plan: Plan, from: Address, holdings: map<Holding, int>): map<Holding, int> {
    match plan
    case Creating(id, spec) =>
      if spec.initialSupply > 0 then SetHeld(holdings, id, from, spec.initialSupply) else holdings
    case Issuing(id, to, amount) => SetHeld(holdings, id, to, HeldIn(holdings, id, to) + amount)
    case Moving(id, to, amount) => MoveHeld(holdings, id, from, to, amount)
    case Expressing(id, _, burn, _) => SetHeld(holdings, id, from, HeldIn(holdings, id, from) - burn)
    case _ => holdings
  }

  /** After the fee, the sender can still pay what is destroyed. */
  ghost predicate Affordable(m: A.Book, tx: Tx, miner: Address, height: nat, plan: Plan) {
    && Fee(tx) + tx.value <= A.Balance(m, tx.from)
    && var settled := A.Settle(m, tx, Fee(tx), miner);
       && tx.from in settled
       && (if plan.Burning? then plan.amount else 0) + PublishBurn(tx, height) <= A.Balance(settled, tx.from)
  }

  /** The state a safe plan leads to. */
  ghost function EffectsOf(v: Ledger, tx: Tx, miner: Address, height: nat, plan: Plan): Ledger
    requires Safe(v, tx, height, plan)
    requires Affordable(v.accounts, tx, miner, height, plan)
  {
    var settled := A.Settle(v.accounts, tx, Fee(tx), miner);
    Ledger(
      if plan.Returning? then A.CreditAll(settled, plan.found.bySender)
      else A.Debit(settled, tx.from, (if plan.Burning? then plan.amount else 0) + PublishBurn(tx, height)),
      if plan.Speaking? || (plan.Expressing? && plan.keyed) then v.voteKeys + {plan.voice} else v.voteKeys,
      TokensUnder(plan, tx.from, v.tokens),
      HoldingsUnder(plan, tx.from, v.holdings),
      if plan.Expressing? && !plan.keyed then v.expressCounts[plan.voice := v.Expressions(plan.voice) + 1]
        else v.expressCounts,
      if plan.Opening? then v.polls[plan.pollId := Poll(tx.from, plan.n, plan.e, height)] else v.polls,
      if plan.Spending? then v.spentSerials + {plan.serial} else v.spentSerials,
      if plan.Committing? then v.inbound.CommitHeader(plan.at, plan.root, tx.from, plan.authority, plan.tiers).value
        else v.inbound,
      OutboundBy(v.outbound, height, plan))
  }

  /** What the plan leads to is what the transition says. */
  lemma {:induction false} EffectsApply(env: Env, v: Ledger, tx: Tx, miner: Address, height: nat, plan: Plan)
    requires Applicable(env, v, tx, height) && Follows(env, v, tx, height, plan) && Safe(v, tx, height, plan)
    requires Affordable(v.accounts, tx, miner, height, plan)
    ensures Apply(env, v, tx, miner, height) == Some(EffectsOf(v, tx, miner, height, plan))
  {
    hide Applicable, Follows, TokensUnder, HoldingsUnder, OutboundBy, Fee, PublishBurn, A.Settle, A.CreditAll, A.Debit,
         AccountsAfter;
    hide TokensAfter, HoldingsAfter, PollsAfter, SerialsAfter, InboundAfter, OutboundAfter, VoteKeysAfter, CountsAfter;
    AccountsBy(env, v, tx, miner, height, plan);
    RightsBy(env, v, tx, height, plan);
    TokensBy(env, v, tx, height, plan);
    BridgesBy(env, v, tx, height, plan);
  }

  class State {
    var accounts: A.Book
    var voteKeys: set<Key>
    var tokens: map<TokenId, Token>
    var holdings: map<Holding, int>
    var expressCounts: map<Key, nat>
    var polls: map<Hash, Poll>
    var spentSerials: set<Serial>
    var inbound: Inbound.InboundLedger
    var outbound: Outbound.OutboundLedger

    constructor (v: Ledger)
      ensures fresh(inbound) && fresh(outbound) && Contents() == v
    {
      accounts, voteKeys, tokens, holdings := v.accounts, v.voteKeys, v.tokens, v.holdings;
      expressCounts, polls, spentSerials := v.expressCounts, v.polls, v.spentSerials;
      inbound := new Inbound.InboundLedger.Copy(v.inbound);
      outbound := new Outbound.OutboundLedger.Copy(v.outbound);
    }

    function Contents(): Ledger
      reads this, inbound, outbound
    {
      Ledger(accounts, voteKeys, tokens, holdings, expressCounts, polls, spentSerials, inbound.Contents(),
        outbound.Contents())
    }

    /** A copy that shares nothing: no write to it can reach the state it was taken from. */
    method Clone() returns (copy: State)
      ensures fresh(copy) && fresh(copy.inbound) && fresh(copy.outbound)
      ensures copy.Contents() == Contents()
    {
      copy := new State(Contents());
    }

    // ----------------------------------------------------------- accounts

    method Credit(a: Address, amount: nat)
      modifies this`accounts
      ensures accounts == A.Credit(old(accounts), a, amount)
    {
      accounts := accounts[a := A.Account(A.Balance(accounts, a) + amount, A.Nonce(accounts, a))];
    }

    method Debit(a: Address, amount: nat) returns (ok: bool)
      modifies this`accounts
      ensures ok <==> amount <= A.Balance(old(accounts), a)
      ensures accounts == if ok then A.Debit(old(accounts), a, amount) else old(accounts)
    {
      if A.Balance(accounts, a) < amount { return false; }
      accounts := accounts[a := A.Account(A.Balance(accounts, a) - amount, A.Nonce(accounts, a))];
      return true;
    }

    method BumpNonce(a: Address)
      modifies this`accounts
      ensures accounts == A.Bump(old(accounts), a)
    {
      accounts := accounts[a := A.Account(A.Balance(accounts, a), A.Nonce(accounts, a) + 1)];
    }

    /** Each sender a proof names is paid in turn. */
    method CreditEach(bySender: map<Address, nat>)
      modifies this`accounts
      ensures accounts == A.CreditAll(old(accounts), bySender)
    {
      hide A.CreditAll;
      var left := bySender;
      while left != map[]
        invariant A.CreditAll(accounts, left) == A.CreditAll(old(accounts), bySender)
        decreases |left|
      {
        ghost var some := Pick(left.Keys);
        var a: Address :| a in left.Keys;
        CreditOne(accounts, left, a);
        Credit(a, left[a]);
        left := left - {a};
      }
      CreditNobody(accounts);
    }

    // ----------------------------------------------------------- tokens

    method SetTokenBalance(id: TokenId, a: Address, amount: int)
      modifies this`holdings
      ensures holdings == SetHeld(old(holdings), id, a, amount)
    {
      if amount == 0 {
        holdings := holdings - {Holding(id, a)};
      } else {
        holdings := holdings[Holding(id, a) := amount];
      }
    }

    /** The one path by which units come to exist after creation. */
    method MintToken(id: TokenId, a: Address, amount: int) returns (ok: bool)
      modifies this`tokens, this`holdings
      ensures ok <==> id in old(tokens) && amount > 0 &&
                      (old(tokens)[id].spec.maxSupply > 0 ==>
                        old(tokens)[id].minted + amount <= old(tokens)[id].spec.maxSupply)
      ensures !ok ==> tokens == old(tokens) && holdings == old(holdings)
      ensures ok ==> tokens == old(tokens)[id := old(tokens)[id].(minted := old(tokens)[id].minted + amount)]
      ensures ok ==> holdings == SetHeld(old(holdings), id, a, HeldIn(old(holdings), id, a) + amount)
    {
      if id !in tokens || amount <= 0 { return false; }
      var minted := tokens[id].minted + amount;
      if tokens[id].spec.maxSupply > 0 && minted > tokens[id].spec.maxSupply { return false; }
      tokens := tokens[id := tokens[id].(minted := minted)];
      SetTokenBalance(id, a, HeldIn(holdings, id, a) + amount);
      return true;
    }

    method MoveToken(id: TokenId, from: Address, to: Address, amount: int) returns (ok: bool)
      modifies this`holdings
      ensures ok <==> HeldIn(old(holdings), id, from) >= amount
      ensures holdings == if ok then MoveHeld(old(holdings), id, from, to, amount) else old(holdings)
    {
      var held := HeldIn(holdings, id, from);
      if held < amount { return false; }
      SetTokenBalance(id, from, held - amount);
      SetTokenBalance(id, to, HeldIn(holdings, id, to) + amount);
      return true;
    }

    /** Destroyed, not transferred. */
    method BurnToken(id: TokenId, a: Address, amount: int) returns (ok: bool)
      requires id in tokens
      modifies this`tokens, this`holdings
      ensures ok <==> HeldIn(old(holdings), id, a) >= amount
      ensures !ok ==> tokens == old(tokens) && holdings == old(holdings)
      ensures ok ==> holdings == SetHeld(old(holdings), id, a, HeldIn(old(holdings), id, a) - amount)
      ensures ok ==>
                var t := old(tokens)[id];
                tokens == old(tokens)[id := t.(burned := t.burned + amount, expressions := t.expressions + 1)]
    {
      var held := HeldIn(holdings, id, a);
      if held < amount { return false; }
      SetTokenBalance(id, a, held - amount);
      tokens := tokens[id :=
        tokens[id].(burned := tokens[id].burned + amount, expressions := tokens[id].expressions + 1)];
      return true;
    }

    // ----------------------------------------------------------- one transaction

    /** An express payload: its cost is on the record and its scope is the rule (src/state.js:612-658). */
    method CheckExpress(tx: Tx, id: TokenId, pollId: Hash, asked: nat) returns (plan: Option<Plan>)
      ensures plan.Some? <==> ExpressChecks(Contents(), tx, id, pollId, asked)
      ensures plan.Some? ==>
        && id in tokens && ExpressionBurn(tokens[id].spec, asked).Some?
        && var s := tokens[id].spec;
        plan.value == Expressing(id, Key(tx.from, ScopeOf(s, id, pollId)), ExpressionBurn(s, asked).value,
                                 s.voteMode.Single? || s.voteMode.Quantum?)
    {
      if !SelfAddressed(tx) || id !in tokens { return None; }
      var token := tokens[id];
      var burn := ExpressionBurn(token.spec, asked);
      if burn.None? || HeldIn(holdings, id, tx.from) < burn.value { return None; }
      var scope := if token.spec.voteMode.Quantum? then pollId else id;
      var key := Key(tx.from, scope);
      var keyed := token.spec.voteMode.Quantum? || token.spec.voteMode.Single?;
      if keyed && key in voteKeys { return None; }
      if token.spec.voteMode.Capped? && (if key in expressCounts then expressCounts[key] else 0) >= token.spec.cap {
        return None;
      }
      return Some(Expressing(id, key, burn.value, keyed));
    }

    /** A header commit is rehearsed on a copy, so a refusal leaves the ledger untouched (src/state.js:753-772). */
    method CheckHeader(tx: Tx, height: nat, chain: nat, ethBlock: nat, root: Hash) returns (plan: Option<Plan>)
      ensures plan.Some? <==> tx.value == 0 && CommitOf(Contents(), tx, height, chain, ethBlock, root).Some?
      ensures plan.Some? ==>
        var v2, bot, eth := height >= BRIDGE_V2_ACTIVATION, height >= BOT_HEADER_ACTIVATION, chain == ETH_CHAIN_ID;
        plan.value == Committing(Inbound.HeaderKey(chain, ethBlock), root, v2 && eth,
                                 if bot && eth then Some(Inbound.Tiers(ETH_HEADER_AUTHORITY, ETH_HEADER_BOT)) else None)
    {
      if tx.value != 0 { return None; }
      var v2, bot, eth := height >= BRIDGE_V2_ACTIVATION, height >= BOT_HEADER_ACTIVATION, chain == ETH_CHAIN_ID;
      if v2 && eth && tx.from != ETH_HEADER_AUTHORITY && !(bot && tx.from == ETH_HEADER_BOT) { return None; }
      var key := Inbound.HeaderKey(chain, ethBlock);
      var tiers := if bot && eth then Some(Inbound.Tiers(ETH_HEADER_AUTHORITY, ETH_HEADER_BOT)) else None;
      var rehearsal := inbound.Clone();
      var ok := rehearsal.CommitHeader(key, root, tx.from, v2 && eth, tiers);
      if !ok { return None; }
      return Some(Committing(key, root, v2 && eth, tiers));
    }

    /** A return rests on a committed root, its proof, and what is still outstanding (src/state.js:844-871). */
    method CheckReturn(env: Env, tx: Tx, height: nat, ethBlock: nat, txIndex: nat, proof: seq<Bytes>)
      returns (plan: Option<Plan>)
      ensures plan.Some? <==> ReturnChecks(env, Contents(), tx, height, ethBlock, txIndex, proof)
      ensures plan.Some? ==>
        && Proved(env, Contents(), ethBlock, txIndex, proof).Some?
        && plan.value ==
           Returning(Outbound.ReturnKey(ethBlock, txIndex), Proved(env, Contents(), ethBlock, txIndex, proof).value,
                     RestsOnBot(Contents(), height, ethBlock))
    {
      if tx.value != 0 { return None; }
      var at := Inbound.HeaderKey(ETH_CHAIN_ID, ethBlock);
      if at !in inbound.headers { return None; }
      var committed := inbound.headers[at];
      var byBot := height >= BOT_HEADER_ACTIVATION && committed.committer == ETH_HEADER_BOT;
      if committed.committer != ETH_HEADER_AUTHORITY && !byBot { return None; }
      var found := env.proveReturn(committed.receiptsRoot, txIndex, proof);
      if found.None? { return None; }
      var key := Outbound.ReturnKey(ethBlock, txIndex);
      if !outbound.Contents().Returnable(key, found.value.total) { return None; }
      if byBot {
        var used := outbound.BotWindowUsed(height);
        if used + found.value.total > Outbound.BOT_RETURN_CAP { return None; }
      }
      return Some(Returning(key, found.value, byBot));
    }

    /** The checks of each kind; nothing is changed by any of them. */
    method CheckPayload(env: Env, tx: Tx, height: nat) returns (plan: Option<Plan>)
      requires BaseChecks(Contents(), tx)
      ensures plan.Some? <==> PayloadChecks(env, Contents(), tx, height)
      ensures plan.Some? ==> Follows(env, Contents(), tx, height, plan.value)
    {
      hide ExpressChecks, ReturnChecks, CommitOf;
      match Seen(tx, height) {
        case Plain(_) => return Some(Nothing);
        case Malformed => return None;
        case Vote(pollId) =>
          var key := Key(tx.from, pollId);
          if !SelfAddressed(tx) || key in voteKeys { return None; }
          return Some(Speaking(key));
        case TokenCreate(spec) =>
          if tx.value != 0 || !WellFormedSpec(spec) { return None; }
          var id := env.tokenId(tx.from, spec.title, height);
          if id in tokens { return None; }
          return Some(Creating(id, spec));
        case TokenIssue(id, amount) =>
          if tx.value != 0 || tx.to.None? || id !in tokens { return None; }
          var token := tokens[id];
          if !token.spec.issuable || tx.from != token.creator || amount <= 0 { return None; }
          if token.spec.maxSupply > 0 && token.minted + amount > token.spec.maxSupply { return None; }
          return Some(Issuing(id, tx.to.value, amount));
        case TokenTransfer(id, amount) =>
          if tx.value != 0 || tx.to.None? || id !in tokens { return None; }
          if !tokens[id].spec.transferable || amount <= 0 || HeldIn(holdings, id, tx.from) < amount { return None; }
          return Some(Moving(id, tx.to.value, amount));
        case Express(id, pollId, amount) => plan := CheckExpress(tx, id, pollId, amount);
        case PollOpen(pollId, n, e) =>
          if tx.value != 0 || !PollShape(n, e) || pollId in polls { return None; }
          return Some(Opening(pollId, n, e));
        case Credential(pollId, serial, signature) =>
          if !SelfAddressed(tx) || pollId !in polls { return None; }
          if !env.credentialValid(serial, signature, polls[pollId].n, polls[pollId].e) { return None; }
          if Serial(pollId, serial) in spentSerials { return None; }
          return Some(Spending(Serial(pollId, serial)));
        case HeaderCommit(chain, ethBlock, root) => plan := CheckHeader(tx, height, chain, ethBlock, root);
        case MoliBurn(recipient, amount) =>
          if amount == 0 || recipient == 0 || tx.value != 0 || A.Balance(accounts, tx.from) < Fee(tx) + amount {
            return None;
          }
          return Some(Burning(recipient, amount));
        case MoliReturn(ethBlock, txIndex, proof) => plan := CheckReturn(env, tx, height, ethBlock, txIndex, proof);
      }
    }

    /** All the checks, in the order of the source. */
    method Check(env: Env, tx: Tx, height: nat) returns (plan: Option<Plan>)
      ensures plan.Some? <==> Applicable(env, Contents(), tx, height)
      ensures plan.Some? ==> Follows(env, Contents(), tx, height, plan.value)
    {
      hide PayloadChecks, Follows;
      if Contents().inbound.IsAuthority(tx.from) { return None; }
      if tx.nonce != A.Nonce(accounts, tx.from) { return None; }
      if tx.gasLimit < IntrinsicGas(tx) { return None; }
      var total := Fee(tx) + tx.value;
      if A.Balance(accounts, tx.from) < total { return None; }
      plan := CheckPayload(env, tx, height);
      var publishBurn := PublishBurn(tx, height);
      if A.Balance(accounts, tx.from) < total + publishBurn { return None; }
      if NeedsEvm(tx, height) { return None; }
    }

    /** Fee and value change hands. */
    method Settle(tx: Tx, miner: Address)
      requires Fee(tx) + tx.value <= A.Balance(accounts, tx.from)
      modifies this`accounts
      ensures accounts == A.Settle(old(accounts), tx, Fee(tx), miner)
    {
      var ok := Debit(tx.from, Fee(tx) + tx.value);
      if tx.to.Some? { Credit(tx.to.value, tx.value); } else { Credit(tx.from, tx.value); }
      Credit(miner, Fee(tx));
      BumpNonce(tx.from);
    }

    /** A zero debit from an account that exists changes nothing. */
    lemma {:induction false} DebitNothing(m: A.Book, a: Address)
      requires a in m
      ensures A.Debit(m, a, 0) == m
    {
    }

    /** MOLI leaving: destroyed here so that it may be minted there, or destroyed outright (src/state.js:1091-1109). */
    method Destroy(plan: Plan, publishBurn: nat, from: Address)
      requires (if plan.Burning? then plan.amount else 0) + publishBurn <= A.Balance(accounts, from) && from in accounts
      modifies this`accounts, outbound
      ensures accounts == A.Debit(old(accounts), from, (if plan.Burning? then plan.amount else 0) + publishBurn)
      ensures outbound.Contents() ==
              if plan.Burning? then old(outbound.Contents()).Burn(plan.recipient, plan.amount)
                else old(outbound.Contents())
    {
      DebitNothing(accounts, from);
      if plan.Burning? {
        var ok := Debit(from, plan.amount);
        outbound.Burn(plan.recipient, plan.amount);
      }
      if publishBurn > 0 {
        var ok := Debit(from, publishBurn);
      }
    }

    /** A proved return is recorded, counted against the bot's cap when it rests on the bot alone, and paid out. */
    method PayReturn(height: nat, receipt: Outbound.ReturnKey, found: Returns, byBot: bool)
      requires found.total == Sum(found.bySender) && outbound.Contents().Returnable(receipt, found.total)
      modifies this`accounts, outbound
      ensures accounts == A.CreditAll(old(accounts), found.bySender)
      ensures outbound.Contents() ==
              var recorded := old(outbound.Contents()).RecordReturn(receipt, found.bySender, found.total);
              if byBot then recorded.RecordBotReturn(height, receipt, found.total) else recorded
    {
      var ok := outbound.RecordReturn(receipt, found.bySender);
      if byBot { outbound.RecordBotReturn(height, receipt, found.total); }
      CreditEach(found.bySender);
    }

    /** The token effects: creation, issue, transfer, expression (src/state.js:1048-1058, 1111-1129). */
    method PerformToken(plan: Plan, from: Address)
      requires plan.Creating? ==> plan.id !in tokens
      requires plan.Issuing? ==>
                 && plan.id in tokens && plan.amount > 0
                 && (tokens[plan.id].spec.maxSupply > 0 ==>
                       tokens[plan.id].minted + plan.amount <= tokens[plan.id].spec.maxSupply)
      requires plan.Moving? ==> HeldIn(holdings, plan.id, from) >= plan.amount
      requires plan.Expressing? ==> plan.id in tokens && HeldIn(holdings, plan.id, from) >= plan.burn
      modifies this`tokens, this`holdings, this`voteKeys, this`expressCounts
      ensures tokens == TokensUnder(plan, from, old(tokens))
      ensures holdings == HoldingsUnder(plan, from, old(holdings))
      ensures voteKeys == (if plan.Expressing? && plan.keyed then old(voteKeys) + {plan.voice} else old(voteKeys))
      ensures expressCounts ==
              if plan.Expressing? && !plan.keyed
              then old(expressCounts)[plan.voice :=
                (if plan.voice in old(expressCounts) then old(expressCounts)[plan.voice] else 0) + 1]
              else old(expressCounts)
    {
      match plan {
        case Creating(id, spec) =>
          tokens := tokens[id := Token(spec, from, spec.initialSupply, 0, 0)];
          if spec.initialSupply > 0 { SetTokenBalance(id, from, spec.initialSupply); }
        case Issuing(id, to, amount) => var ok := MintToken(id, to, amount);
        case Moving(id, to, amount) => var ok := MoveToken(id, from, to, amount);
        case Expressing(id, voice, burn, keyed) =>
          var ok := BurnToken(id, from, burn);
          if keyed {
            voteKeys := voteKeys + {voice};
          } else {
            expressCounts := expressCounts[voice := (if voice in expressCounts then expressCounts[voice] else 0) + 1];
          }
        case _ =>
      }
    }

    /** Voices recorded, places opened, serials spent (src/state.js:1039-1046). */
    method PerformRights(tx: Tx, height: nat, plan: Plan)
      modifies this`voteKeys, this`polls, this`spentSerials
      ensures voteKeys == (if plan.Speaking? then old(voteKeys) + {plan.voice} else old(voteKeys))
      ensures polls ==
              (if plan.Opening? then old(polls)[plan.pollId := Poll(tx.from, plan.n, plan.e, height)] else old(polls))
      ensures spentSerials == (if plan.Spending? then old(spentSerials) + {plan.serial} else old(spentSerials))
    {
      if plan.Speaking? { voteKeys := voteKeys + {plan.voice}; }
      if plan.Opening? { polls := polls[plan.pollId := Poll(tx.from, plan.n, plan.e, height)]; }
      if plan.Spending? { spentSerials := spentSerials + {plan.serial}; }
    }

    /** The fee, the nonce, and the rights this transaction uses up. */
    method SettleAndSpeak(tx: Tx, miner: Address, height: nat, plan: Plan)
      requires Fee(tx) + tx.value <= A.Balance(accounts, tx.from)
      modifies this`accounts, this`voteKeys, this`polls, this`spentSerials
      ensures accounts == A.Settle(old(accounts), tx, Fee(tx), miner)
      ensures voteKeys == (if plan.Speaking? then old(voteKeys) + {plan.voice} else old(voteKeys))
      ensures polls ==
              (if plan.Opening? then old(polls)[plan.pollId := Poll(tx.from, plan.n, plan.e, height)] else old(polls))
      ensures spentSerials == (if plan.Spending? then old(spentSerials) + {plan.serial} else old(spentSerials))
    {
      Settle(tx, miner);
      PerformRights(tx, height, plan);
    }

    /** The bridge ledgers, and MOLI with them (src/state.js:1067-1109). */
    method PerformBridge(tx: Tx, height: nat, plan: Plan)
      requires tx.from in accounts
      requires (if plan.Burning? then plan.amount else 0) + PublishBurn(tx, height) <= A.Balance(accounts, tx.from)
      requires plan.Committing? ==>
               inbound.Contents().CommitHeader(plan.at, plan.root, tx.from, plan.authority, plan.tiers).Some?
      requires plan.Returning? ==>
                 && plan.found.total == Sum(plan.found.bySender)
                 && outbound.Contents().Returnable(plan.receipt, plan.found.total) && PublishBurn(tx, height) == 0
      modifies this`accounts, inbound, outbound
      ensures accounts == if plan.Returning? then A.CreditAll(old(accounts), plan.found.bySender)
                          else A.Debit(old(accounts), tx.from,
                            (if plan.Burning? then plan.amount else 0) + PublishBurn(tx, height))
      ensures inbound.Contents() ==
              if plan.Committing?
              then old(inbound.Contents()).CommitHeader(plan.at, plan.root, tx.from, plan.authority, plan.tiers).value
              else old(inbound.Contents())
      ensures outbound.Contents() == OutboundBy(old(outbound.Contents()), height, plan)
    {
      hide A.CreditAll, PublishBurn;
      if plan.Committing? {
        var ok := inbound.CommitHeader(plan.at, plan.root, tx.from, plan.authority, plan.tiers);
      }
      if plan.Returning? {
        PayReturn(height, plan.receipt, plan.found, plan.byBot);
      } else {
        Destroy(plan, PublishBurn(tx, height), tx.from);
      }
    }

    /** Fee, rights and bridge. */
    method SettleAndBridge(tx: Tx, miner: Address, height: nat, plan: Plan)
      requires Safe(Contents(), tx, height, plan) && Affordable(accounts, tx, miner, height, plan)
      requires plan.Returning? ==> plan.found.total == Sum(plan.found.bySender)
      modifies this`accounts, this`voteKeys, this`polls, this`spentSerials, inbound, outbound
      ensures Contents() == EffectsOf(old(Contents()), tx, miner, height, plan).(
                              tokens := tokens, holdings := holdings, expressCounts := expressCounts,
                              voteKeys := voteKeys)
      ensures voteKeys == (if plan.Speaking? then old(voteKeys) + {plan.voice} else old(voteKeys))
    {
      hide TokensUnder, HoldingsUnder, OutboundBy, Fee, PublishBurn, A.Settle, A.CreditAll, A.Debit;
      SettleAndSpeak(tx, miner, height, plan);
      PerformBridge(tx, height, plan);
    }

    /** The effects, in the order of the source; no step of them can fail once the checks have passed. */
    method Effects(tx: Tx, miner: Address, height: nat, plan: Plan)
      requires Safe(Contents(), tx, height, plan) && Affordable(accounts, tx, miner, height, plan)
      requires plan.Returning? ==> plan.found.total == Sum(plan.found.bySender)
      modifies this, inbound, outbound
      ensures inbound == old(inbound) && outbound == old(outbound)
      ensures Contents() == EffectsOf(old(Contents()), tx, miner, height, plan)
    {
      hide TokensUnder, HoldingsUnder, OutboundBy, Fee, PublishBurn, A.Settle, A.CreditAll, A.Debit;
      SettleAndBridge(tx, miner, height, plan);
      PerformToken(plan, tx.from);
    }

    /** Carrying out the plan of a transaction that passed its checks is applying it. */
    method Perform(env: Env, tx: Tx, miner: Address, height: nat, plan: Plan)
      requires env.Sums() && Applicable(env, Contents(), tx, height) && Follows(env, Contents(), tx, height, plan)
      modifies this, inbound, outbound
      ensures inbound == old(inbound) && outbound == old(outbound)
      ensures Some(Contents()) == Apply(env, old(Contents()), tx, miner, height)
    {
      hide Applicable, Follows, EffectsOf, A.Settle, Safe;
      ChecksMakeSafe(env, Contents(), tx, height, plan);
      AccountsBy(env, Contents(), tx, miner, height, plan);
      EffectsApply(env, Contents(), tx, miner, height, plan);
      Effects(tx, miner, height, plan);
    }

    /**
     * One transaction, all or nothing: it changes the state exactly as the transition says when every check
     * passes, and not at all otherwise.
     */
    method ApplyTransaction(env: Env, tx: Tx, miner: Address, height: nat) returns (ok: bool)
      requires env.Sums()
      modifies this, inbound, outbound
      ensures inbound == old(inbound) && outbound == old(outbound)
      ensures ok <==> Apply(env, old(Contents()), tx, miner, height).Some?
      ensures ok ==> Some(Contents()) == Apply(env, old(Contents()), tx, miner, height)
      ensures !ok ==> Contents() == old(Contents())
    {
      hide Applicable, Follows;
      var plan := Check(env, tx, height);
      if plan.None? { return false; }
      Perform(env, tx, miner, height, plan.value);
      return true;
    }
  }
}
