/**
 * Why a transaction is refused: one reason for every throw on the native path (src/state.js:512-900, src/token.js,
 * src/credential.js, src/molireturn.js), stated of the state and the transaction alone.
 */
module Refusals {
  import opened Common
  import opened Types
  import Inbound
  import Outbound
  import opened Transition

  datatype Reason =
    | SentByAuthority | BadNonce | LowGas | CannotPay | CannotPayCharge
    | IsMalformed | NeedsContract | CarriesValue | NotToSelf | NoRecipient | NothingMoved
    | SpokenAlready | BadRecord | TokenExists
    | UnknownToken | NotIssuable | NotCreator | AboveMaximum | NotTransferable | NotHeld
    | WrongPrice | CapReached
    | BadPlaceKey | PlaceIsOpen | NoSuchPlace | BadSignature | SerialSpent
    | NotTrusted | CommitRefused
    | BurnsToNobody | CannotBurn
    | NoRoot | RootNotTrusted | NotProved | AlreadyPaid | MoreThanIsOut | BotCapReached

  function Gas(tx: Tx): nat { 21_000 + 4 * tx.zeroBytes + 16 * tx.nonZeroBytes }

  function Cost(tx: Tx): nat { Gas(tx) * tx.gasPrice + tx.value }

  /** What publishing destroys from height 80,000 on: 0.001 MOLI for a token, 0.000001 for an issue. */
  function Charge(tx: Tx, height: nat): nat {
    if height < 80_000 then 0
    else if tx.payload.TokenCreate? then 1_000_000_000_000_000
    else if tx.payload.TokenIssue? then 1_000_000_000_000
    else 0
  }

  /** Before its flag day a burn or a return is nothing but data. */
  predicate IsBurn(tx: Tx, height: nat) { tx.payload.MoliBurn? && height >= 80_000 }

  predicate IsReturn(tx: Tx, height: nat) { tx.payload.MoliReturn? && height >= 118_000 }

  predicate IsData(tx: Tx, height: nat) {
    || tx.payload == Plain(false)
    || (tx.payload.MoliBurn? && height < 80_000)
    || (tx.payload.MoliReturn? && height < 118_000)
  }

  predicate IsTyped(tx: Tx, height: nat) {
    match tx.payload
    case Plain(_) => false
    case Malformed => false
    case MoliBurn(_, _) => height >= 80_000
    case MoliReturn(_, _, _) => height >= 118_000
    case _ => true
  }

  /** What normalizeTokenRecord throws for (src/token.js:280-455). */
  predicate IsBadRecord(s: TokenSpec) {
    || |s.title| == 0 || |s.title| > 200
    || (s.isExpression && s.voteMode.NoMode?) || (s.isExpression && s.expressionCost <= 0)
    || (!s.isExpression && !s.voteMode.NoMode?) || (!s.isExpression && s.expressionCost != 0)
    || (s.voteMode.Capped? && s.cap <= 0)
    || s.initialSupply < 0 || s.maxSupply < 0
    || (s.maxSupply > 0 && s.initialSupply > s.maxSupply)
    || (s.restrictedPurpose && s.transferable)
    || (s.isExpression && !s.issuable && !s.transferable)
    || (!s.issuable && s.initialSupply == 0)
  }

  /** The token a payload is about. */
  function TokenOf(p: Payload): Option<TokenId> {
    match p
    case TokenIssue(id, _) => Some(id)
    case TokenTransfer(id, _) => Some(id)
    case Express(id, _, _) => Some(id)
    case _ => None
  }

  /** The key under which a vote or a once-only expression is on record. */
  function VoiceOf(v: Ledger, tx: Tx): Option<Key> {
    match tx.payload
    case Vote(pollId) => Some(Key(tx.from, pollId))
    case Express(id, pollId, _) =>
      if id !in v.tokens then None
      else
        (match v.tokens[id].spec.voteMode
         case Quantum => Some(Key(tx.from, pollId))
         case Single => Some(Key(tx.from, id))
         case _ => None)
    case _ => None
  }

  function RootKey(p: Payload): Inbound.HeaderKey
    requires p.MoliReturn?
  {
    Inbound.HeaderKey(1, p.ethBlock)
  }

  /** What the proof of a return yields under the root on record. */
  function Found(env: Env, v: Ledger, p: Payload): Option<Returns>
    requires p.MoliReturn?
  {
    if RootKey(p) !in v.inbound.headers then None
    else env.proveReturn(v.inbound.headers[RootKey(p)].receiptsRoot, p.txIndex, p.proof)
  }

  ghost predicate Fires(env: Env, v: Ledger, tx: Tx, height: nat, why: Reason) {
    var p := tx.payload;
    match why
    case SentByAuthority => exists id <- v.inbound.assets :: v.inbound.assets[id].authority == tx.from
    case BadNonce => tx.nonce != v.Nonce(tx.from)
    case LowGas => tx.gasLimit < Gas(tx)
    case CannotPay => v.Balance(tx.from) < Cost(tx)
    case CannotPayCharge => v.Balance(tx.from) < Cost(tx) + Charge(tx, height)
    case IsMalformed => p.Malformed?
    case NeedsContract => IsData(tx, height) && tx.to.None?
    case CarriesValue => IsTyped(tx, height) && tx.value > 0
    case NotToSelf => (p.Vote? || p.Express? || p.Credential?) && tx.to != Some(tx.from)
    case NoRecipient => (p.TokenIssue? || p.TokenTransfer?) && tx.to.None?
    case NothingMoved => (p.TokenIssue? || p.TokenTransfer? || IsBurn(tx, height)) && p.amount == 0
    case SpokenAlready => VoiceOf(v, tx).Some? && VoiceOf(v, tx).value in v.voteKeys
    case BadRecord => p.TokenCreate? && IsBadRecord(p.spec)
    case TokenExists => p.TokenCreate? && env.tokenId(tx.from, p.spec.title, height) in v.tokens
    case UnknownToken => TokenOf(p).Some? && TokenOf(p).value !in v.tokens
    case NotIssuable => p.TokenIssue? && p.tokenId in v.tokens && !v.tokens[p.tokenId].spec.issuable
    case NotCreator => p.TokenIssue? && p.tokenId in v.tokens && v.tokens[p.tokenId].creator != tx.from
    case AboveMaximum =>
      && p.TokenIssue? && p.tokenId in v.tokens && v.tokens[p.tokenId].spec.maxSupply > 0
      && v.tokens[p.tokenId].minted + p.amount > v.tokens[p.tokenId].spec.maxSupply
    case NotTransferable => p.TokenTransfer? && p.tokenId in v.tokens && !v.tokens[p.tokenId].spec.transferable
    case NotHeld => (p.TokenTransfer? || p.Express?) && v.Held(p.tokenId, tx.from) < p.amount
    case WrongPrice =>
      && p.Express? && p.tokenId in v.tokens
      && var s := v.tokens[p.tokenId].spec;
         if s.voteMode.Weighted? then p.amount < s.expressionCost else p.amount != s.expressionCost
    case CapReached =>
      && p.Express? && p.tokenId in v.tokens && v.tokens[p.tokenId].spec.voteMode.Capped?
      && v.Expressions(Key(tx.from, p.tokenId)) >= v.tokens[p.tokenId].spec.cap
    case BadPlaceKey => p.PollOpen? && (p.n < Pow2(2039) || p.n % 2 == 0 || p.e < 3 || p.e % 2 == 0)
    case PlaceIsOpen => p.PollOpen? && p.pollId in v.polls
    case NoSuchPlace => p.Credential? && p.pollId !in v.polls
    case BadSignature =>
      && p.Credential? && p.pollId in v.polls
      && !env.credentialValid(p.serial, p.signature, v.polls[p.pollId].n, v.polls[p.pollId].e)
    case SerialSpent => p.Credential? && Serial(p.pollId, p.serial) in v.spentSerials
    case NotTrusted =>
      && p.HeaderCommit? && p.chainId == 1 && height >= 118_000 && tx.from != ETH_HEADER_AUTHORITY
      && (height < 146_000 || tx.from != ETH_HEADER_BOT)
    case CommitRefused =>
      && p.HeaderCommit?
      && v.inbound.CommitHeader(
           Inbound.HeaderKey(p.chainId, p.ethBlock), p.receiptsRoot, tx.from, p.chainId == 1 && height >= 118_000,
           if p.chainId == 1 && height >= 146_000 then Some(Inbound.Tiers(ETH_HEADER_AUTHORITY, ETH_HEADER_BOT))
           else None).None?
    case BurnsToNobody => IsBurn(tx, height) && p.recipient == 0
    case CannotBurn => IsBurn(tx, height) && v.Balance(tx.from) < Gas(tx) * tx.gasPrice + p.amount
    case NoRoot => IsReturn(tx, height) && RootKey(p) !in v.inbound.headers
    case RootNotTrusted =>
      && IsReturn(tx, height) && RootKey(p) in v.inbound.headers
      && var who := v.inbound.headers[RootKey(p)].committer;
         who != ETH_HEADER_AUTHORITY && (height < 146_000 || who != ETH_HEADER_BOT)
    case NotProved => IsReturn(tx, height) && Found(env, v, p).None?
    case AlreadyPaid => IsReturn(tx, height) && Outbound.ReturnKey(p.ethBlock, p.txIndex) in v.outbound.returnKeys
    case MoreThanIsOut =>
      && IsReturn(tx, height) && Found(env, v, p).Some?
      && (Found(env, v, p).value.total == 0
          || Found(env, v, p).value.total > v.outbound.burned - v.outbound.returned)
    case BotCapReached =>
      && IsReturn(tx, height) && height >= 146_000 && Found(env, v, p).Some?
      && v.inbound.headers[RootKey(p)].committer == ETH_HEADER_BOT
      && v.outbound.BotWindowUsed(height) + Found(env, v, p).value.total > 5_000_000_000_000_000_000_000
  }

  /** Reasons may hold against any transaction ... */
  lemma {:induction false} SenderReasonsRefuse(env: Env, v: Ledger, tx: Tx, height: nat, why: Reason)
    requires Fires(env, v, tx, height, why)
    requires || why.SentByAuthority? || why.BadNonce? || why.LowGas? || why.CannotPay? || why.CannotPayCharge?
             || why.NeedsContract?
    ensures !Applicable(env, v, tx, height)
  {
    hide PayloadChecks;
  }

  /** ... against what it carries and whom it addresses ... */
  lemma {:induction false} ShapeReasonsRefuse(env: Env, v: Ledger, tx: Tx, height: nat, why: Reason)
    requires Fires(env, v, tx, height, why)
    requires || why.IsMalformed? || why.CarriesValue? || why.NotToSelf? || why.NoRecipient? || why.NothingMoved?
    ensures !PayloadChecks(env, v, tx, height)
  {
    hide Pow2, WellFormedSpec, CommitOf, PollShape, RestsOnBot, Proved, ExpressionBurn;
  }

  /** ... against what it does with a token or a voice ... */
  lemma {:induction false} TokenReasonsRefuse(env: Env, v: Ledger, tx: Tx, height: nat, why: Reason)
    requires Fires(env, v, tx, height, why)
    requires || why.SpokenAlready? || why.BadRecord? || why.TokenExists? || why.UnknownToken? || why.NotIssuable?
             || why.NotCreator? || why.AboveMaximum? || why.NotTransferable? || why.NotHeld? || why.WrongPrice?
             || why.CapReached?
    ensures !PayloadChecks(env, v, tx, height)
  {
    hide Pow2, CommitOf, ReturnChecks, PollShape;
  }

  /** ... with a place or a credential ... */
  lemma {:induction false} PlaceReasonsRefuse(env: Env, v: Ledger, tx: Tx, height: nat, why: Reason)
    requires Fires(env, v, tx, height, why)
    requires || why.BadPlaceKey? || why.PlaceIsOpen? || why.NoSuchPlace? || why.BadSignature? || why.SerialSpent?
    ensures !PayloadChecks(env, v, tx, height)
  {
    hide Pow2, CommitOf, ReturnChecks, IssueChecks, TransferChecks, ExpressChecks, WellFormedSpec;
  }

  /** ... or with the bridge. */
  lemma {:induction false} BridgeReasonsRefuse(env: Env, v: Ledger, tx: Tx, height: nat, why: Reason)
    requires Fires(env, v, tx, height, why)
    requires || why.NotTrusted? || why.CommitRefused? || why.BurnsToNobody? || why.CannotBurn? || why.NoRoot?
             || why.RootNotTrusted? || why.NotProved? || why.AlreadyPaid? || why.MoreThanIsOut? || why.BotCapReached?
    ensures !PayloadChecks(env, v, tx, height)
  {
    hide Pow2, IssueChecks, TransferChecks, ExpressChecks, WellFormedSpec, PollShape, Outbound.Above;
  }

  /** Every reason refuses. */
  lemma {:induction false} ReasonsRefuse(env: Env, v: Ledger, tx: Tx, miner: Address, height: nat, why: Reason)
    requires Fires(env, v, tx, height, why)
    ensures Apply(env, v, tx, miner, height).None?
  {
    hide Fires, PayloadChecks, BaseChecks, NeedsEvm;
    hide AccountsAfter, VoteKeysAfter, TokensAfter, HoldingsAfter, CountsAfter, PollsAfter, SerialsAfter;
    hide InboundAfter, OutboundAfter;
    if why.SentByAuthority? || why.BadNonce? || why.LowGas? || why.CannotPay? || why.CannotPayCharge?
      || why.NeedsContract? {
      SenderReasonsRefuse(env, v, tx, height, why);
    } else if why.IsMalformed? || why.CarriesValue? || why.NotToSelf? || why.NoRecipient? || why.NothingMoved? {
      ShapeReasonsRefuse(env, v, tx, height, why);
    } else if why.BadPlaceKey? || why.PlaceIsOpen? || why.NoSuchPlace? || why.BadSignature? || why.SerialSpent? {
      PlaceReasonsRefuse(env, v, tx, height, why);
    } else if why.NotTrusted? || why.CommitRefused? || why.BurnsToNobody? || why.CannotBurn? || why.NoRoot?
      || why.RootNotTrusted? || why.NotProved? || why.AlreadyPaid? || why.MoreThanIsOut? || why.BotCapReached? {
      BridgeReasonsRefuse(env, v, tx, height, why);
    } else {
      TokenReasonsRefuse(env, v, tx, height, why);
    }
  }

  /** And where none fires a transaction applies. */
  lemma {:induction false} NoReasonNoRefusal(env: Env, v: Ledger, tx: Tx, miner: Address, height: nat)
    requires forall why: Reason :: !Fires(env, v, tx, height, why)
    ensures Apply(env, v, tx, miner, height).Some?
  {
    hide AccountsAfter, VoteKeysAfter, TokensAfter, HoldingsAfter, CountsAfter, PollsAfter, SerialsAfter;
    hide InboundAfter, OutboundAfter, PayloadChecks;
    assert !Fires(env, v, tx, height, SentByAuthority) && !Fires(env, v, tx, height, BadNonce);
    assert !Fires(env, v, tx, height, LowGas) && !Fires(env, v, tx, height, CannotPay);
    assert !Fires(env, v, tx, height, CannotPayCharge) && !Fires(env, v, tx, height, IsMalformed);
    assert !Fires(env, v, tx, height, NeedsContract);
    PayloadStands(env, v, tx, height);
  }

  lemma MalformedFires(env: Env, v: Ledger, tx: Tx, height: nat)
    ensures tx.payload.Malformed? ==> Fires(env, v, tx, height, IsMalformed)
  {
  }

  lemma {:induction false} PayloadStands(env: Env, v: Ledger, tx: Tx, height: nat)
    requires forall why: Reason :: !Fires(env, v, tx, height, why)
    ensures PayloadChecks(env, v, tx, height)
  {
    hide IssueChecks, TransferChecks, ExpressChecks, ReturnChecks, CommitOf, WellFormedSpec, PollShape, Fires;
    MalformedFires(env, v, tx, height);
    match tx.payload {
      case TokenCreate(_) => CreationStands(env, v, tx, height);
      case TokenIssue(_, _) => IssueStands(env, v, tx, height);
      case TokenTransfer(_, _) => TransferStands(env, v, tx, height);
      case Express(_, _, _) => ExpressionStands(env, v, tx, height);
      case PollOpen(_, _, _) => PlaceStands(env, v, tx, height);
      case Credential(_, _, _) => CredentialStands(env, v, tx, height);
      case Vote(_) => VoteStands(env, v, tx, height);
      case HeaderCommit(_, _, _) => CommitStands(env, v, tx, height);
      case MoliBurn(_, _) => BurnStands(env, v, tx, height);
      case MoliReturn(_, _, _) => ReturnStands(env, v, tx, height);
      case _ =>
    }
  }

  lemma {:induction false} CreationStands(env: Env, v: Ledger, tx: Tx, height: nat)
    requires tx.payload.TokenCreate?
    requires !Fires(env, v, tx, height, CarriesValue) && !Fires(env, v, tx, height, BadRecord)
    requires !Fires(env, v, tx, height, TokenExists)
    ensures PayloadChecks(env, v, tx, height)
  {
    hide Pow2;
  }

  lemma {:induction false} IssueStands(env: Env, v: Ledger, tx: Tx, height: nat)
    requires tx.payload.TokenIssue?
    requires !Fires(env, v, tx, height, CarriesValue) && !Fires(env, v, tx, height, NoRecipient)
    requires !Fires(env, v, tx, height, NothingMoved) && !Fires(env, v, tx, height, UnknownToken)
    requires !Fires(env, v, tx, height, NotIssuable) && !Fires(env, v, tx, height, NotCreator)
    requires !Fires(env, v, tx, height, AboveMaximum)
    ensures PayloadChecks(env, v, tx, height)
  {
    hide Pow2;
  }

  lemma {:induction false} TransferStands(env: Env, v: Ledger, tx: Tx, height: nat)
    requires tx.payload.TokenTransfer?
    requires !Fires(env, v, tx, height, CarriesValue) && !Fires(env, v, tx, height, NoRecipient)
    requires !Fires(env, v, tx, height, NothingMoved) && !Fires(env, v, tx, height, UnknownToken)
    requires !Fires(env, v, tx, height, NotTransferable) && !Fires(env, v, tx, height, NotHeld)
    ensures PayloadChecks(env, v, tx, height)
  {
    hide Pow2;
  }

  lemma {:induction false} ExpressionStands(env: Env, v: Ledger, tx: Tx, height: nat)
    requires tx.payload.Express?
    requires !Fires(env, v, tx, height, CarriesValue) && !Fires(env, v, tx, height, NotToSelf)
    requires !Fires(env, v, tx, height, UnknownToken) && !Fires(env, v, tx, height, SpokenAlready)
    requires !Fires(env, v, tx, height, NotHeld) && !Fires(env, v, tx, height, WrongPrice)
    requires !Fires(env, v, tx, height, CapReached)
    ensures PayloadChecks(env, v, tx, height)
  {
    hide Pow2;
  }

  lemma {:induction false} VoteStands(env: Env, v: Ledger, tx: Tx, height: nat)
    requires tx.payload.Vote?
    requires !Fires(env, v, tx, height, CarriesValue) && !Fires(env, v, tx, height, NotToSelf)
    requires !Fires(env, v, tx, height, SpokenAlready)
    ensures PayloadChecks(env, v, tx, height)
  {
    hide Pow2;
  }

  lemma {:induction false} PlaceStands(env: Env, v: Ledger, tx: Tx, height: nat)
    requires tx.payload.PollOpen?
    requires !Fires(env, v, tx, height, CarriesValue) && !Fires(env, v, tx, height, BadPlaceKey)
    requires !Fires(env, v, tx, height, PlaceIsOpen)
    ensures PayloadChecks(env, v, tx, height)
  {
    hide Pow2;
  }

  lemma {:induction false} CredentialStands(env: Env, v: Ledger, tx: Tx, height: nat)
    requires tx.payload.Credential?
    requires !Fires(env, v, tx, height, CarriesValue) && !Fires(env, v, tx, height, NotToSelf)
    requires !Fires(env, v, tx, height, NoSuchPlace) && !Fires(env, v, tx, height, BadSignature)
    requires !Fires(env, v, tx, height, SerialSpent)
    ensures PayloadChecks(env, v, tx, height)
  {
    hide Pow2;
  }

  lemma {:induction false} CommitStands(env: Env, v: Ledger, tx: Tx, height: nat)
    requires tx.payload.HeaderCommit?
    requires !Fires(env, v, tx, height, CarriesValue) && !Fires(env, v, tx, height, NotTrusted)
    requires !Fires(env, v, tx, height, CommitRefused)
    ensures PayloadChecks(env, v, tx, height)
  {
    hide Pow2;
  }

  lemma {:induction false} BurnStands(env: Env, v: Ledger, tx: Tx, height: nat)
    requires tx.payload.MoliBurn?
    requires !Fires(env, v, tx, height, CarriesValue) && !Fires(env, v, tx, height, NothingMoved)
    requires !Fires(env, v, tx, height, BurnsToNobody) && !Fires(env, v, tx, height, CannotBurn)
    ensures PayloadChecks(env, v, tx, height)
  {
    hide Pow2;
  }

  lemma {:induction false} ReturnStands(env: Env, v: Ledger, tx: Tx, height: nat)
    requires tx.payload.MoliReturn?
    requires !Fires(env, v, tx, height, CarriesValue) && !Fires(env, v, tx, height, NoRoot)
    requires !Fires(env, v, tx, height, RootNotTrusted) && !Fires(env, v, tx, height, NotProved)
    requires !Fires(env, v, tx, height, AlreadyPaid) && !Fires(env, v, tx, height, MoreThanIsOut)
    requires !Fires(env, v, tx, height, BotCapReached)
    ensures PayloadChecks(env, v, tx, height)
  {
    hide ReturnChecks;
    if height >= 118_000 {
      var p := tx.payload;
      RootStands(env, v, tx, height);
      WithinTheCap(env, v, tx, height);
      SumStands(env, v, tx, height);
      ReturnPartsStand(env, v, tx, height, p.ethBlock, p.txIndex, p.proof);
    }
  }

  /** The root is on record, from one who may put it there, and the proof holds under it. */
  lemma {:induction false} RootStands(env: Env, v: Ledger, tx: Tx, height: nat)
    requires IsReturn(tx, height)
    requires !Fires(env, v, tx, height, CarriesValue) && !Fires(env, v, tx, height, NoRoot)
    requires !Fires(env, v, tx, height, RootNotTrusted) && !Fires(env, v, tx, height, NotProved)
    ensures var p := tx.payload;
            && tx.value == 0 && RootKey(p) in v.inbound.headers
            && Proved(env, v, p.ethBlock, p.txIndex, p.proof) == Found(env, v, p) && Found(env, v, p).Some?
            && (v.inbound.headers[RootKey(p)].committer == ETH_HEADER_AUTHORITY || RestsOnBot(v, height, p.ethBlock))
  {
  }

  lemma {:induction false} SumStands(env: Env, v: Ledger, tx: Tx, height: nat)
    requires IsReturn(tx, height) && Found(env, v, tx.payload).Some?
    requires !Fires(env, v, tx, height, AlreadyPaid) && !Fires(env, v, tx, height, MoreThanIsOut)
    ensures var p := tx.payload;
            v.outbound.Returnable(Outbound.ReturnKey(p.ethBlock, p.txIndex), Found(env, v, p).value.total)
  {
  }

  lemma {:induction false} WithinTheCap(env: Env, v: Ledger, tx: Tx, height: nat)
    requires IsReturn(tx, height) && Found(env, v, tx.payload).Some?
    requires !Fires(env, v, tx, height, BotCapReached)
    ensures RestsOnBot(v, height, tx.payload.ethBlock) ==>
              v.outbound.BotReturnable(height, Found(env, v, tx.payload).value.total)
  {
    hide Outbound.Above;
  }

  lemma {:induction false} ReturnPartsStand(
    env: Env, v: Ledger, tx: Tx, height: nat, ethBlock: nat, txIndex: nat, proof: seq<Bytes>)
    requires var key := Inbound.HeaderKey(1, ethBlock);
             && tx.value == 0 && key in v.inbound.headers
             && (v.inbound.headers[key].committer == ETH_HEADER_AUTHORITY || RestsOnBot(v, height, ethBlock))
    requires Proved(env, v, ethBlock, txIndex, proof).Some?
    requires var total := Proved(env, v, ethBlock, txIndex, proof).value.total;
             && v.outbound.Returnable(Outbound.ReturnKey(ethBlock, txIndex), total)
             && (RestsOnBot(v, height, ethBlock) ==> v.outbound.BotReturnable(height, total))
    ensures ReturnChecks(env, v, tx, height, ethBlock, txIndex, proof)
  {
    hide RestsOnBot, Proved;
  }

  /** So a transaction is refused exactly when there is a reason to. */
  lemma {:induction false} RefusedForAReason(env: Env, v: Ledger, tx: Tx, miner: Address, height: nat)
    ensures Apply(env, v, tx, miner, height).None? <==> exists why: Reason :: Fires(env, v, tx, height, why)
  {
    hide Apply, Fires;
    if why: Reason :| Fires(env, v, tx, height, why) {
      ReasonsRefuse(env, v, tx, miner, height, why);
    } else {
      NoReasonNoRefusal(env, v, tx, miner, height);
    }
  }
}
