/** Balances and nonces (src/state.js:294-326). */
module Accounts {
  import opened Common
  import opened Types
  import Outbound

  datatype Account = Account(balance: nat, nonce: nat)

  type Book = map<Address, Account>

  function Of(m: Book, a: Address): Account { if a in m then m[a] else Account(0, 0) }

  function Balance(m: Book, a: Address): nat { Of(m, a).balance }

  function Nonce(m: Book, a: Address): nat { Of(m, a).nonce }

  function Credit(m: Book, a: Address, amount: nat): Book { m[a := Account(Balance(m, a) + amount, Nonce(m, a))] }

  function Debit(m: Book, a: Address, amount: nat): Book
    requires amount <= Balance(m, a)
  {
    m[a := Account(Balance(m, a) - amount, Nonce(m, a))]
  }

  function Bump(m: Book, a: Address): Book { m[a := Account(Balance(m, a), Nonce(m, a) + 1)] }

  function CreditAll(m: Book, bySender: map<Address, nat>): Book {
    map a | a in m.Keys + bySender.Keys :: Account(Balance(m, a) + Outbound.Get(bySender, a), Nonce(m, a))
  }

  /** Value and fee: a value addressed to nobody goes back to the sender (src/state.js:1032-1038). */
  function Settle(m: Book, tx: Tx, fee: nat, miner: Address): Book
    requires fee + tx.value <= Balance(m, tx.from)
  {
    var paid := Debit(m, tx.from, fee + tx.value);
    var delivered := Credit(paid, if tx.to.Some? then tx.to.value else tx.from, tx.value);
    Bump(Credit(delivered, miner, fee), tx.from)
  }

  function Balances(m: Book): map<Address, nat> { map a | a in m :: m[a].balance }

  ghost function Supply(m: Book): int { Sum(Balances(m)) }

  lemma SetChangesSupply(m: Book, a: Address, acct: Account)
    ensures Supply(m[a := acct]) == Supply(m) - Balance(m, a) + acct.balance
  {
    assert Balances(m[a := acct]) == Balances(m)[a := acct.balance];
    SumUpdate(Balances(m), a, acct.balance);
  }

  lemma CreditAdds(m: Book, a: Address, amount: nat)
    ensures Supply(Credit(m, a, amount)) == Supply(m) + amount
  {
    SetChangesSupply(m, a, Of(Credit(m, a, amount), a));
  }

  lemma DebitTakes(m: Book, a: Address, amount: nat)
    requires amount <= Balance(m, a)
    ensures Supply(Debit(m, a, amount)) == Supply(m) - amount
  {
    SetChangesSupply(m, a, Of(Debit(m, a, amount), a));
  }

  lemma BumpKeeps(m: Book, a: Address)
    ensures Supply(Bump(m, a)) == Supply(m)
  {
    SetChangesSupply(m, a, Of(Bump(m, a), a));
  }

  /** Fee and value change hands; the sender keeps at least what it held beyond them. */
  lemma {:induction false} SettleConserves(m: Book, tx: Tx, fee: nat, miner: Address)
    requires fee + tx.value <= Balance(m, tx.from)
    ensures Supply(Settle(m, tx, fee, miner)) == Supply(m)
    ensures Balance(Settle(m, tx, fee, miner), tx.from) >= Balance(m, tx.from) - fee - tx.value
    ensures forall a :: Nonce(Settle(m, tx, fee, miner), a) == Nonce(m, a) + if a == tx.from then 1 else 0
  {
    hide Supply;
    var paid := Debit(m, tx.from, fee + tx.value);
    DebitTakes(m, tx.from, fee + tx.value);
    var to := if tx.to.Some? then tx.to.value else tx.from;
    CreditAdds(paid, to, tx.value);
    var delivered := Credit(paid, to, tx.value);
    CreditAdds(delivered, miner, fee);
    BumpKeeps(Credit(delivered, miner, fee), tx.from);
  }

  /** Who pays and who is paid, whichever of the three are the same address. */
  lemma SettlePays(m: Book, tx: Tx, fee: nat, miner: Address, a: Address)
    requires fee + tx.value <= Balance(m, tx.from)
    ensures Balance(Settle(m, tx, fee, miner), a) ==
            Balance(m, a) - (if a == tx.from then fee + tx.value else 0)
            + (if a == (if tx.to.Some? then tx.to.value else tx.from) then tx.value else 0)
            + (if a == miner then fee else 0)
  {
  }

  lemma SettleKeepsSender(m: Book, tx: Tx, fee: nat, miner: Address)
    requires fee + tx.value <= Balance(m, tx.from)
    ensures tx.from in Settle(m, tx, fee, miner)
  {
  }

  /** Crediting all senders adds their amounts to the balances, one by one. */
  lemma {:induction false} CreditAllBalances(m: Book, bySender: map<Address, nat>)
    ensures Balances(CreditAll(m, bySender)) == Outbound.Plus(Balances(m), bySender)
  {
    var all, sums := Balances(CreditAll(m, bySender)), Outbound.Plus(Balances(m), bySender);
    assert all.Keys == sums.Keys;
    forall a | a in all
      ensures all[a] == sums[a]
    {
    }
  }

  lemma {:induction false} CreditAllAdds(m: Book, bySender: map<Address, nat>)
    ensures Supply(CreditAll(m, bySender)) == Supply(m) + Sum(bySender)
    ensures forall a :: Nonce(CreditAll(m, bySender), a) == Nonce(m, a)
  {
    CreditAllBalances(m, bySender);
    Outbound.SumPlus(Balances(m), bySender);
    hide Sum, Outbound.Plus, Balances;
  }
}
