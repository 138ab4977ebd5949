/** The burn is the tally: token supply accounting under every transaction (src/state.js:136-197, src/token.js). */
module Tokens {
  import opened Common
  import opened Types
  import opened Transition

  type Holdings = map<Holding, int>

  function Of(hs: Holdings, id: TokenId): map<Holding, int> { map h | h in hs && h.token == id :: hs[h] }

  /** All units of a token in anybody's hands. */
  ghost function Units(hs: Holdings, id: TokenId): int { Sum(Of(hs, id)) }

  lemma {:induction false} SetHeldUnits(hs: Holdings, id: TokenId, a: Address, amount: int, k: TokenId)
    ensures Units(SetHeld(hs, id, a, amount), k) == Units(hs, k) + if k == id then amount - HeldIn(hs, id, a) else 0
  {
    var h := Holding(id, a);
    var hs' := SetHeld(hs, id, a, amount);
    if k != id {
      assert Of(hs', k) == Of(hs, k);
    } else if amount == 0 {
      assert Of(hs', k) == Of(hs, k) - {h};
      if h in hs { SumRemove(Of(hs, k), h); } else { assert Of(hs, k) - {h} == Of(hs, k); }
    } else {
      assert Of(hs', k) == Of(hs, k)[h := amount];
      SumUpdate(Of(hs, k), h, amount);
    }
  }

  lemma {:induction false} MoveHeldUnits(hs: Holdings, id: TokenId, from: Address, to: Address, amount: int, k: TokenId)
    ensures Units(MoveHeld(hs, id, from, to, amount), k) == Units(hs, k)
  {
    var less := SetHeld(hs, id, from, HeldIn(hs, id, from) - amount);
    SetHeldUnits(hs, id, from, HeldIn(hs, id, from) - amount, k);
    SetHeldUnits(less, id, to, HeldIn(less, id, to) + amount, k);
  }

  /** What one token's record promises about its running figures. */
  predicate RecordSound(t: Token) {
    && WellFormedSpec(t.spec)
    && t.expressions >= 0
    && (t.spec.maxSupply > 0 ==> t.minted <= t.spec.maxSupply)
    // The burn is the tally: units burned count expressions, exactly in every mode but weighted.
    && (if t.spec.voteMode.Weighted? then t.burned >= t.expressions * t.spec.expressionCost
        else t.burned == t.expressions * t.spec.expressionCost)
  }

  /** The token books of a state. */
  ghost predicate Sound(v: Ledger) {
    && (forall id <- v.tokens ::
          RecordSound(v.tokens[id]) && Units(v.holdings, id) == v.tokens[id].minted - v.tokens[id].burned)
    && (forall h <- v.holdings :: h.token in v.tokens && v.holdings[h] > 0)
  }

  lemma ExpressionKeepsRecord(t: Token, amount: int)
    requires RecordSound(t) && ExpressionBurn(t.spec, amount).Some?
    ensures RecordSound(t.(burned := t.burned + ExpressionBurn(t.spec, amount).value, expressions := t.expressions + 1))
    ensures ExpressionBurn(t.spec, amount).value >= 0
  {
    assert (t.expressions + 1) * t.spec.expressionCost == t.expressions * t.spec.expressionCost + t.spec.expressionCost;
  }

  ghost predicate Positive(tokens: map<TokenId, Token>, hs: Holdings) {
    forall h <- hs :: h.token in tokens && hs[h] > 0
  }

  /** Holdings stay positive and never of an unknown token. */
  lemma {:induction false} HoldingsStayPositive(env: Env, v: Ledger, tx: Tx, height: nat)
    requires Applicable(env, v, tx, height) && Sound(v)
    ensures Positive(TokensAfter(env, v, tx, height), HoldingsAfter(env, v, tx, height))
  {
    hide CommitOf, BaseChecks, ReturnChecks, Units, RecordSound;
    match Seen(tx, height) {
      case Express(id, _, amount) => ExpressionNonNegative(v.tokens[id], amount);
      case _ =>
    }
  }

  lemma ExpressionNonNegative(t: Token, amount: int)
    requires ExpressionBurn(t.spec, amount).Some?
    ensures RecordSound(t) ==> ExpressionBurn(t.spec, amount).value >= 0
  {
  }

  /** Every token's units in hand are what was minted less what was burned, after any transaction. */
  lemma {:induction false} UnitsFollow(env: Env, v: Ledger, tx: Tx, height: nat, k: TokenId)
    requires Applicable(env, v, tx, height) && Sound(v) && k in TokensAfter(env, v, tx, height)
    ensures var t := TokensAfter(env, v, tx, height)[k];
            RecordSound(t) && Units(HoldingsAfter(env, v, tx, height), k) == t.minted - t.burned
  {
    hide CommitOf, BaseChecks, ReturnChecks, Units, RecordSound, SetHeld, MoveHeld;
    match Seen(tx, height) {
      case TokenCreate(s) =>
        var id := env.tokenId(tx.from, s.title, height);
        NewTokenSound(v, s, tx.from, id);
        SetHeldUnits(v.holdings, id, tx.from, s.initialSupply, k);
      case TokenIssue(id, amount) =>
        IssueKeepsRecord(v.tokens[id], amount);
        SetHeldUnits(v.holdings, id, tx.to.value, v.Held(id, tx.to.value) + amount, k);
      case TokenTransfer(id, amount) =>
        MoveHeldUnits(v.holdings, id, tx.from, tx.to.value, amount, k);
      case Express(id, _, amount) =>
        ExpressionKeepsRecord(v.tokens[id], amount);
        SetHeldUnits(v.holdings, id, tx.from, v.Held(id, tx.from) - ExpressionBurn(v.tokens[id].spec, amount).value, k);
      case _ =>
    }
  }

  lemma IssueKeepsRecord(t: Token, amount: int)
    requires RecordSound(t) && (t.spec.maxSupply > 0 ==> t.minted + amount <= t.spec.maxSupply)
    ensures RecordSound(t.(minted := t.minted + amount))
  {
  }

  lemma NewTokenSound(v: Ledger, s: TokenSpec, creator: Address, id: TokenId)
    requires Sound(v) && WellFormedSpec(s) && id !in v.tokens
    ensures RecordSound(Token(s, creator, s.initialSupply, 0, 0))
    ensures Units(v.holdings, id) == 0 && HeldIn(v.holdings, id, creator) == 0
  {
    assert Of(v.holdings, id) == map[];
  }

  /**
   * For every token, in every state a transaction leaves: holdings sum to minted less burned, minted stays
   * within a declared maximum, and burned is expressions times their cost (at least that when weighted).
   */
  lemma {:induction false} ApplyKeepsTokens(env: Env, v: Ledger, tx: Tx, miner: Address, height: nat)
    requires Sound(v) && Apply(env, v, tx, miner, height).Some?
    ensures Sound(Apply(env, v, tx, miner, height).value)
  {
    HoldingsStayPositive(env, v, tx, height);
    forall k | k in TokensAfter(env, v, tx, height)
      ensures var t := TokensAfter(env, v, tx, height)[k];
              RecordSound(t) && Units(HoldingsAfter(env, v, tx, height), k) == t.minted - t.burned
    {
      UnitsFollow(env, v, tx, height, k);
    }
    hide TokensAfter, HoldingsAfter, Applicable, Units, RecordSound;
  }

  /** How many units of a token a transaction gives an address, or takes from it. */
  function Gained(env: Env, v: Ledger, tx: Tx, height: nat, k: TokenId, a: Address): int {
    match Seen(tx, height)
    case TokenCreate(s) => if k == env.tokenId(tx.from, s.title, height) && a == tx.from then s.initialSupply else 0
    case TokenIssue(id, amount) => if k == id && tx.to == Some(a) then amount else 0
    case TokenTransfer(id, amount) =>
      (if k == id && tx.to == Some(a) then amount else 0) - (if k == id && a == tx.from then amount else 0)
    case Express(id, _, amount) =>
      if k == id && a == tx.from && id in v.tokens && ExpressionBurn(v.tokens[id].spec, amount).Some?
      then -ExpressionBurn(v.tokens[id].spec, amount).value else 0
    case _ => 0
  }

  lemma NewTokenUnheld(v: Ledger, id: TokenId, a: Address)
    requires Sound(v) && id !in v.tokens
    ensures v.Held(id, a) == 0
  {
  }

  /** Every holding after a transaction: the units named change hands, all others stay where they were. */
  lemma {:induction false} EveryHoldingIsAccountedFor(env: Env, v: Ledger, tx: Tx, miner: Address, height: nat,
                                                      k: TokenId, a: Address)
    requires Sound(v) && Apply(env, v, tx, miner, height).Some?
    ensures Apply(env, v, tx, miner, height).value.Held(k, a) == v.Held(k, a) + Gained(env, v, tx, height, k, a)
  {
    hide CommitOf, BaseChecks, ReturnChecks, AccountsAfter, InboundAfter, OutboundAfter, Sound, WellFormedSpec;
    match Seen(tx, height) {
      case TokenCreate(s) =>
        NewTokenUnheld(v, env.tokenId(tx.from, s.title, height), a);
        SupplyNonNegative(s);
      case _ =>
    }
  }

  lemma SupplyNonNegative(s: TokenSpec)
    requires WellFormedSpec(s)
    ensures s.initialSupply >= 0
  {
  }

  /** A token that is not transferable reaches a holder only by creation or issue, and leaves only by being burned. */
  lemma {:induction false} OnlyTransferableMoves(env: Env, v: Ledger, tx: Tx, miner: Address, height: nat, id: TokenId,
                                                 a: Address)
    requires Apply(env, v, tx, miner, height).Some? && id in v.tokens && !v.tokens[id].spec.transferable
    ensures var v' := Apply(env, v, tx, miner, height).value;
            && (v'.Held(id, a) > v.Held(id, a) ==>
                  tx.payload.TokenIssue? && tx.payload.tokenId == id && tx.to == Some(a)
                    && tx.from == v.tokens[id].creator)
            && (v'.Held(id, a) < v.Held(id, a) ==>
                  && tx.payload.Express? && tx.payload.tokenId == id && tx.from == a
                  && v'.tokens[id].expressions == v.tokens[id].expressions + 1
                  && v'.tokens[id].burned - v.tokens[id].burned == v.Held(id, a) - v'.Held(id, a))
  {
    hide CommitOf, BaseChecks, ReturnChecks, AccountsAfter, InboundAfter, OutboundAfter;
  }

  /** The rules of a token are fixed at creation: its record never changes and it never disappears. */
  lemma {:induction false} RecordIsImmutable(env: Env, v: Ledger, tx: Tx, miner: Address, height: nat, id: TokenId)
    requires Apply(env, v, tx, miner, height).Some? && id in v.tokens
    ensures var v' := Apply(env, v, tx, miner, height).value;
            && id in v'.tokens && v'.tokens[id].spec == v.tokens[id].spec
            && v'.tokens[id].creator == v.tokens[id].creator
            && v'.tokens[id].minted >= v.tokens[id].minted
  {
    hide CommitOf, BaseChecks, ReturnChecks, AccountsAfter, InboundAfter, OutboundAfter;
  }
}
