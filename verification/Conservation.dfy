/** MOLI is neither made nor lost by a transaction except where the rules destroy or return it. */
module Conservation {
  import opened Common
  import opened Types
  import Outbound
  import A = Accounts
  import opened Transition

  /** All MOLI in accounts, plus what is still on the far side of the bridge. */
  ghost function Everywhere(v: Ledger): int { A.Supply(v.accounts) + v.outbound.burned - v.outbound.returned }

  /** A transaction moves MOLI, bridges it, or destroys the publishing charge: nothing else happens to it. */
  lemma {:induction false} ApplyConserves(env: Env, v: Ledger, tx: Tx, miner: Address, height: nat)
    requires env.Sums() && Apply(env, v, tx, miner, height).Some?
    ensures Everywhere(Apply(env, v, tx, miner, height).value) == Everywhere(v) - PublishBurn(tx, height)
  {
    hide IssueChecks, TransferChecks, ExpressChecks, CommitOf, A.Settle, A.Supply, A.CreditAll, A.Debit;
    A.SettleConserves(v.accounts, tx, Fee(tx), miner);
    var settled := A.Settle(v.accounts, tx, Fee(tx), miner);
    match Seen(tx, height) {
      case MoliReturn(ethBlock, txIndex, proof) =>
        A.CreditAllAdds(settled, Proved(env, v, ethBlock, txIndex, proof).value.bySender);
      case _ =>
        A.DebitTakes(settled, tx.from, Destroyed(tx, height));
    }
  }

  /** What a proved return pays an address. */
  function Returned(env: Env, v: Ledger, tx: Tx, height: nat, a: Address): nat {
    match Seen(tx, height)
    case MoliReturn(ethBlock, txIndex, proof) =>
      if Proved(env, v, ethBlock, txIndex, proof).None? then 0
      else Outbound.Get(Proved(env, v, ethBlock, txIndex, proof).value.bySender, a)
    case _ => 0
  }

  /** Every balance after a transaction, for every kind: sender, recipient, miner and proved senders, and nobody
      else. */
  lemma {:induction false} EveryBalanceIsAccountedFor(env: Env, v: Ledger, tx: Tx, miner: Address, height: nat,
                                                      a: Address)
    requires Apply(env, v, tx, miner, height).Some?
    ensures Apply(env, v, tx, miner, height).value.Balance(a) ==
            v.Balance(a)
            - (if a == tx.from then Fee(tx) + tx.value + Destroyed(tx, height) else 0)
            + (if a == (if tx.to.Some? then tx.to.value else tx.from) then tx.value else 0)
            + (if a == miner then Fee(tx) else 0)
            + Returned(env, v, tx, height, a)
  {
    hide IssueChecks, TransferChecks, ExpressChecks, CommitOf, A.Settle, Fee, IntrinsicGas, VoteKeysAfter, CountsAfter;
    hide TokensAfter, HoldingsAfter, PollsAfter, SerialsAfter, InboundAfter, OutboundAfter, BaseChecks, A.Supply;
    A.SettleConserves(v.accounts, tx, Fee(tx), miner);
    A.SettlePays(v.accounts, tx, Fee(tx), miner, a);
  }

  /** The nonce rule: a transaction applies exactly at its sender's nonce, and only that nonce moves. */
  lemma {:induction false} ApplyBumpsOneNonce(env: Env, v: Ledger, tx: Tx, miner: Address, height: nat, a: Address)
    requires Apply(env, v, tx, miner, height).Some?
    ensures v.Nonce(tx.from) == tx.nonce
    ensures Apply(env, v, tx, miner, height).value.Nonce(a) == v.Nonce(a) + if a == tx.from then 1 else 0
  {
    hide IssueChecks, TransferChecks, ExpressChecks, CommitOf, A.Settle, A.Supply;
    A.SettleConserves(v.accounts, tx, Fee(tx), miner);
  }

  /** Returns never exceed burns, and the per-recipient books add up, in every state a transaction leaves. */
  lemma {:induction false} ApplyKeepsOutbound(env: Env, v: Ledger, tx: Tx, miner: Address, height: nat)
    requires env.Sums() && Apply(env, v, tx, miner, height).Some? && Outbound.Balanced(v.outbound)
    ensures Outbound.Balanced(Apply(env, v, tx, miner, height).value.outbound)
  {
    hide IssueChecks, TransferChecks, ExpressChecks, CommitOf, A.Settle;
    match Seen(tx, height) {
      case MoliBurn(recipient, amount) =>
        Outbound.DoKeepsBalance(v.outbound, Outbound.Burning(recipient, amount));
      case MoliReturn(ethBlock, txIndex, proof) =>
        var bot := RestsOnBot(v, height, ethBlock);
        var bySender := Proved(env, v, ethBlock, txIndex, proof).value.bySender;
        Outbound.DoKeepsBalance(v.outbound,
          Outbound.Returning(Outbound.ReturnKey(ethBlock, txIndex), bySender, bot, height));
      case _ =>
    }
  }
}
