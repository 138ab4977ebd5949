/**
 * The pool's books: found blocks, balances and payouts, across awaits, saves and crashes
 * (src/poolserver.js:97-102, 154-281). Each event below is what runs between two awaits.
 */
module PoolBooks {
  import opened Common
  import opened Types

  const MAX_BLOCKS: nat := 500
  const MAX_PAYMENTS: nat := 1000

  datatype BlockStatus = Pending | Orphaned | Confirmed

  datatype BlockRec = BlockRec(hash: Hash, height: nat, reward: nat, fee: nat, credits: map<Address, nat>,
                               status: BlockStatus)

  /** `Sending` is recorded before the broadcast; `Failed` only when the node refused it. */
  datatype PayStatus = Sending | Sent | Failed | Mined

  datatype Payment = Payment(to: Address, amount: int, status: PayStatus)

  /** What a save writes, with the records the two lists have dropped kept as history. */
  datatype Books = Books(
    blocks: seq<BlockRec>, balances: map<Address, int>, paid: map<Address, int>, payments: seq<Payment>,
    feesEarned: int, oldBlocks: seq<BlockRec>, oldPayments: seq<Payment>)

  datatype Due = Due(to: Address, amount: int)

  /** The running process and the file behind it. */
  datatype World = World(mem: Books, disk: Books, paying: bool, due: seq<Due>, inFlight: bool)

  function Get(m: map<Address, int>, a: Address): int { if a in m then m[a] else 0 }

  function Credits(b: BlockRec, a: Address): int { if a in b.credits then b.credits[a] else 0 }

  // ------------------------------------------------------------- totals

  function Total<T>(s: seq<T>, w: T -> int): int {
    if s == [] then 0 else w(s[0]) + Total(s[1..], w)
  }

  lemma TotalCons<T>(x: T, s: seq<T>, w: T -> int)
    ensures Total([x] + s, w) == w(x) + Total(s, w)
  {
    assert ([x] + s)[1..] == s;
  }

  lemma {:induction false} TotalAppend<T>(a: seq<T>, b: seq<T>, w: T -> int)
    ensures Total(a + b, w) == Total(a, w) + Total(b, w)
  {
    if a == [] {
      assert a + b == b;
    } else {
      assert (a + b)[1..] == a[1..] + b;
      TotalAppend(a[1..], b, w);
    }
  }

  lemma {:induction false} TotalUpdate<T>(s: seq<T>, i: nat, x: T, w: T -> int)
    requires i < |s|
    ensures Total(s[i := x], w) == Total(s, w) - w(s[i]) + w(x)
  {
    if i > 0 {
      assert s[i := x][1..] == s[1..][i - 1 := x];
      TotalUpdate(s[1..], i - 1, x, w);
    } else {
      assert s[0 := x][1..] == s[1..];
    }
  }

  /** Cutting a list moves its tail into the history. */
  lemma TotalCut<T>(s: seq<T>, n: nat, history: seq<T>, w: T -> int)
    ensures Total(Prefix(s, n), w) + Total(Suffix(s, n) + history, w) == Total(s, w) + Total(history, w)
  {
    TotalAppend(Suffix(s, n), history, w);
    TotalAppend(Prefix(s, n), Suffix(s, n), w);
    assert Prefix(s, n) + Suffix(s, n) == s;
  }

  // What each record counts for.

  function Reward(): BlockRec -> int { (b: BlockRec) => if b.status.Confirmed? then b.reward else 0 }

  function FeeTaken(): BlockRec -> int { (b: BlockRec) => if b.status.Confirmed? then b.fee else 0 }

  function CreditTo(a: Address): BlockRec -> int { (b: BlockRec) => if b.status.Confirmed? then Credits(b, a) else 0 }

  function Out(): Payment -> int { (p: Payment) => if p.status.Failed? then 0 else p.amount }

  function OutTo(a: Address): Payment -> int { (p: Payment) => if p.to == a && !p.status.Failed? then p.amount else 0 }

  function SettledTo(a: Address): Payment -> int {
    (p: Payment) => if p.to == a && (p.status.Sent? || p.status.Mined?) then p.amount else 0
  }

  function AllBlocks(b: Books, w: BlockRec -> int): int { Total(b.blocks, w) + Total(b.oldBlocks, w) }

  function AllPayments(b: Books, w: Payment -> int): int { Total(b.payments, w) + Total(b.oldPayments, w) }

  // ------------------------------------------------------------- the books balance

  /** A record promises exactly its reward: credits and fee. */
  ghost predicate Exact(b: BlockRec) { Sum(b.credits) + b.fee == b.reward }

  ghost predicate Balanced(b: Books) {
    // Everything confirmed blocks paid is owed, paid out, or earned as fees ...
    && Sum(b.balances) + AllPayments(b, Out()) + b.feesEarned == AllBlocks(b, Reward())
    && b.feesEarned == AllBlocks(b, FeeTaken())
    // ... miner by miner.
    && (forall a: Address :: AddressBalanced(b, a))
    && (forall r <- b.blocks :: Exact(r)) && (forall r <- b.oldBlocks :: Exact(r))
    && (forall p <- b.payments :: p.amount >= 0) && (forall p <- b.oldPayments :: p.amount >= 0)
  }

  ghost predicate AddressBalanced(b: Books, a: Address) {
    && Get(b.balances, a) >= 0
    && Get(b.balances, a) + AllPayments(b, OutTo(a)) == AllBlocks(b, CreditTo(a))
    && Get(b.paid, a) == AllPayments(b, SettledTo(a))
  }

  // ------------------------------------------------------------- events

  datatype Event =
    | Found(rec: BlockRec)
    | Orphan(cut: bool, i: nat)
    | Mature(cut: bool, i: nat)
    | Save
    | PayoutStarts(minPayout: int)
    | MinedPayment(i: nat)
    | Debit
    | Accepted
    | Refused
    | PayoutEnds
    | PayoutAborts
    | Crash

  /** Balances after a block's credits are added, one address after the other. */
  function Credited(balances: map<Address, int>, credits: map<Address, nat>): map<Address, int> {
    map a | a in balances.Keys + credits.Keys :: Get(balances, a) + (if a in credits then credits[a] else 0)
  }

  function ListOf(b: Books, cut: bool): seq<BlockRec> { if cut then b.oldBlocks else b.blocks }

  function WithStatus(b: Books, cut: bool, i: nat, status: BlockStatus): Books
    requires i < |ListOf(b, cut)|
  {
    if cut then b.(oldBlocks := b.oldBlocks[i := b.oldBlocks[i].(status := status)])
    else b.(blocks := b.blocks[i := b.blocks[i].(status := status)])
  }

  /** The balances at or above the threshold, in some order. */
  ghost predicate DueFrom(due: seq<Due>, balances: map<Address, int>, minPayout: int) {
    && (forall k :: 0 <= k < |due| ==> due[k].to in balances && balances[due[k].to] == due[k].amount >= minPayout)
    && (forall j, k :: 0 <= j < k < |due| ==> due[j].to != due[k].to)
    && (forall a <- balances :: balances[a] >= minPayout ==> Listed(due, a))
  }

  ghost predicate Listed(due: seq<Due>, a: Address) { exists k :: 0 <= k < |due| && due[k].to == a }

  ghost predicate Enabled(w: World, ev: Event) {
    match ev
    case Found(rec) => rec.status.Pending? && Exact(rec)
    case Orphan(cut, i) => i < |ListOf(w.mem, cut)| && ListOf(w.mem, cut)[i].status.Pending?
    case Mature(cut, i) => i < |ListOf(w.mem, cut)| && ListOf(w.mem, cut)[i].status.Pending?
    case Save => true
    case PayoutStarts(minPayout) => !w.paying && minPayout >= 0
    case MinedPayment(i) => w.paying && !w.inFlight && i < |w.mem.payments| && w.mem.payments[i].status.Sent?
    case Debit => w.paying && !w.inFlight && w.due != []
    case Accepted => w.inFlight && w.due != [] && w.mem.payments != []
    case Refused => w.inFlight && w.due != [] && w.mem.payments != []
    case PayoutEnds => w.paying && !w.inFlight
    case PayoutAborts => w.paying && !w.inFlight
    case Crash => true
  }

  function Saved(w: World): World { w.(disk := w.mem) }

  function AfterFound(w: World, rec: BlockRec): World {
    var all := [rec] + w.mem.blocks;
    Saved(w.(mem := w.mem.(blocks := Prefix(all, MAX_BLOCKS), oldBlocks := Suffix(all, MAX_BLOCKS) + w.mem.oldBlocks)))
  }

  function AfterOrphan(w: World, cut: bool, i: nat): World {
    if i < |ListOf(w.mem, cut)| then w.(mem := WithStatus(w.mem, cut, i, Orphaned)) else w
  }

  function AfterMature(w: World, cut: bool, i: nat): World {
    if i >= |ListOf(w.mem, cut)| then w
    else
      var rec := ListOf(w.mem, cut)[i];
      w.(mem := WithStatus(w.mem, cut, i, Confirmed).(
            balances := Credited(w.mem.balances, rec.credits), feesEarned := w.mem.feesEarned + rec.fee))
  }

  function AfterMined(w: World, i: nat): World {
    var m := w.mem;
    if i < |m.payments| then w.(mem := m.(payments := m.payments[i := m.payments[i].(status := Mined)])) else w
  }

  function AfterDebit(w: World): World {
    if w.due == [] then w
    else
      var d, m := w.due[0], w.mem;
      Saved(w.(inFlight := true,
               mem := m.(balances := m.balances[d.to := Get(m.balances, d.to) - d.amount],
                         payments := [Payment(d.to, d.amount, Sending)] + m.payments)))
  }

  function AfterAccepted(w: World): World {
    if w.due == [] || w.mem.payments == [] then w
    else
      var d, m := w.due[0], w.mem;
      Saved(w.(inFlight := false, due := w.due[1..],
               mem := m.(payments := m.payments[0 := m.payments[0].(status := Sent)],
                         paid := m.paid[d.to := Get(m.paid, d.to) + d.amount])))
  }

  function AfterRefused(w: World): World {
    if w.due == [] || w.mem.payments == [] then w
    else
      var d, m := w.due[0], w.mem;
      Saved(w.(inFlight := false, due := w.due[1..],
               mem := m.(payments := m.payments[0 := m.payments[0].(status := Failed)],
                         balances := m.balances[d.to := Get(m.balances, d.to) + d.amount])))
  }

  function AfterPayout(w: World): World {
    var m := w.mem;
    Saved(w.(paying := false, due := [],
             mem := m.(payments := Prefix(m.payments, MAX_PAYMENTS),
                       oldPayments := Suffix(m.payments, MAX_PAYMENTS) + m.oldPayments)))
  }

  /** Whatever was under way is gone; the file is what there is. */
  function AfterCrash(w: World): World { World(w.disk, w.disk, false, [], false) }

  /** `due` is the list a payout that starts here works through. */
  function Next(w: World, ev: Event, due: seq<Due>): World {
    match ev
    case Found(rec) => AfterFound(w, rec)
    case Orphan(cut, i) => AfterOrphan(w, cut, i)
    case Mature(cut, i) => AfterMature(w, cut, i)
    case Save => Saved(w)
    case PayoutStarts(_) => w.(paying := true, due := due, inFlight := false)
    case MinedPayment(i) => AfterMined(w, i)
    case Debit => AfterDebit(w)
    case Accepted => AfterAccepted(w)
    case Refused => AfterRefused(w)
    case PayoutEnds => AfterPayout(w)
    case PayoutAborts => w.(paying := false, due := [])
    case Crash => AfterCrash(w)
  }

  // ------------------------------------------------------------- the invariant

  /** What is still to be paid is still there: nothing but a payout lowers a balance. */
  ghost predicate Covered(w: World) {
    && (forall k :: 0 <= k < |w.due| && !(w.inFlight && k == 0) ==>
          w.due[k].to in w.mem.balances && 0 <= w.due[k].amount <= w.mem.balances[w.due[k].to])
    && (forall j, k :: 0 <= j < k < |w.due| ==> w.due[j].to != w.due[k].to)
    && (w.inFlight ==>
          && w.paying && w.due != [] && w.due[0].amount >= 0
          && w.mem.payments != [] && w.mem.payments[0] == Payment(w.due[0].to, w.due[0].amount, Sending))
  }

  ghost predicate Sound(w: World) { Balanced(w.mem) && Balanced(w.disk) && Covered(w) }

  // ------------------------------------------------------------- every event keeps the books

  lemma {:induction false} CreditedAdds(balances: map<Address, int>, credits: map<Address, nat>)
    ensures Sum(Credited(balances, credits)) == Sum(balances) + Sum(credits)
    decreases |credits|
  {
    hide Credited;
    if credits == map[] {
      CreditedNothing(balances);
    } else {
      var a := Pick(credits.Keys);
      CreditedOne(balances, credits, a);
      CreditedAdds(balances[a := Get(balances, a) + credits[a]], credits - {a});
      SumUpdate(balances, a, Get(balances, a) + credits[a]);
      SumRemove(credits, a);
    }
  }

  lemma CreditedNothing(balances: map<Address, int>)
    ensures Credited(balances, map[]) == balances
  {
  }

  /** Adding one credit and then the rest is adding them all. */
  lemma CreditedOne(balances: map<Address, int>, credits: map<Address, nat>, a: Address)
    requires a in credits
    ensures Credited(balances[a := Get(balances, a) + credits[a]], credits - {a}) == Credited(balances, credits)
  {
  }

  /** A list of records with one status changed, seen by any weight. */
  lemma StatusTotals(b: Books, cut: bool, i: nat, status: BlockStatus, w: BlockRec -> int)
    requires i < |ListOf(b, cut)|
    ensures var r := ListOf(b, cut)[i];
            AllBlocks(WithStatus(b, cut, i, status), w) == AllBlocks(b, w) - w(r) + w(r.(status := status))
  {
    TotalUpdate(ListOf(b, cut), i, ListOf(b, cut)[i].(status := status), w);
  }

  lemma {:induction false} StatusKeepsExact(b: Books, cut: bool, i: nat, status: BlockStatus)
    requires i < |ListOf(b, cut)| && (forall r <- b.blocks :: Exact(r)) && (forall r <- b.oldBlocks :: Exact(r))
    ensures var b' := WithStatus(b, cut, i, status);
            (forall r <- b'.blocks :: Exact(r)) && (forall r <- b'.oldBlocks :: Exact(r))
  {
    assert Exact(ListOf(b, cut)[i]);
    assert Exact(ListOf(b, cut)[i].(status := status));
  }

  lemma {:induction false} FoundBalances(b: Books, rec: BlockRec)
    requires Balanced(b) && rec.status.Pending? && Exact(rec)
    ensures var all := [rec] + b.blocks;
            Balanced(b.(blocks := Prefix(all, MAX_BLOCKS), oldBlocks := Suffix(all, MAX_BLOCKS) + b.oldBlocks))
  {
    hide AddressBalanced, Exact;
    var all := [rec] + b.blocks;
    var b' := b.(blocks := Prefix(all, MAX_BLOCKS), oldBlocks := Suffix(all, MAX_BLOCKS) + b.oldBlocks);
    CutBlocks(b, rec, Reward());
    CutBlocks(b, rec, FeeTaken());
    forall a: Address
      ensures AddressBalanced(b', a)
    {
      CutBlocks(b, rec, CreditTo(a));
      SameBlocks(b, b', a);
    }
    PartsOf(all, MAX_BLOCKS);
  }

  lemma PartsOf<T>(s: seq<T>, n: nat)
    ensures forall x :: x in Prefix(s, n) || x in Suffix(s, n) ==> x in s
  {
  }

  /** A pending record counts for nothing, wherever the cut falls. */
  lemma CutBlocks(b: Books, rec: BlockRec, w: BlockRec -> int)
    requires w(rec) == 0
    ensures var all := [rec] + b.blocks;
            Total(Prefix(all, MAX_BLOCKS), w) + Total(Suffix(all, MAX_BLOCKS) + b.oldBlocks, w) == AllBlocks(b, w)
  {
    TotalCut([rec] + b.blocks, MAX_BLOCKS, b.oldBlocks, w);
    TotalCons(rec, b.blocks, w);
  }

  lemma SameBlocks(b: Books, b': Books, a: Address)
    requires AddressBalanced(b, a) && AllBlocks(b', CreditTo(a)) == AllBlocks(b, CreditTo(a))
    requires b'.balances == b.balances && b'.paid == b.paid && b'.payments == b.payments
             && b'.oldPayments == b.oldPayments
    ensures AddressBalanced(b', a)
  {
  }

  lemma {:induction false} OrphanBalances(b: Books, cut: bool, i: nat)
    requires Balanced(b) && i < |ListOf(b, cut)| && ListOf(b, cut)[i].status.Pending?
    ensures Balanced(WithStatus(b, cut, i, Orphaned))
  {
    hide AddressBalanced, Exact, AllBlocks;
    var b' := WithStatus(b, cut, i, Orphaned);
    StatusTotals(b, cut, i, Orphaned, Reward());
    StatusTotals(b, cut, i, Orphaned, FeeTaken());
    StatusKeepsExact(b, cut, i, Orphaned);
    forall a: Address
      ensures AddressBalanced(b', a)
    {
      StatusTotals(b, cut, i, Orphaned, CreditTo(a));
      SameBlocks(b, b', a);
    }
  }

  /** Confirming a block moves exactly its reward into balances and fees. */
  lemma {:induction false} MatureBalances(b: Books, cut: bool, i: nat)
    requires Balanced(b) && i < |ListOf(b, cut)| && ListOf(b, cut)[i].status.Pending?
    ensures var rec := ListOf(b, cut)[i];
            Balanced(WithStatus(b, cut, i, Confirmed).(balances := Credited(b.balances, rec.credits),
                                                       feesEarned := b.feesEarned + rec.fee))
  {
    hide AddressBalanced, AllBlocks;
    var rec := ListOf(b, cut)[i];
    var b' := WithStatus(b, cut, i, Confirmed).(balances := Credited(b.balances, rec.credits),
                                                feesEarned := b.feesEarned + rec.fee);
    assert Exact(rec);
    StatusTotals(b, cut, i, Confirmed, Reward());
    StatusTotals(b, cut, i, Confirmed, FeeTaken());
    StatusKeepsExact(b, cut, i, Confirmed);
    CreditedAdds(b.balances, rec.credits);
    SameLists(WithStatus(b, cut, i, Confirmed), b', Reward());
    SameLists(WithStatus(b, cut, i, Confirmed), b', FeeTaken());
    forall a: Address
      ensures AddressBalanced(b', a)
    {
      StatusTotals(b, cut, i, Confirmed, CreditTo(a));
      SameLists(WithStatus(b, cut, i, Confirmed), b', CreditTo(a));
      MatureFor(b, b', rec, a);
    }
  }

  lemma SameLists(b: Books, b': Books, w: BlockRec -> int)
    requires b'.blocks == b.blocks && b'.oldBlocks == b.oldBlocks
    ensures AllBlocks(b', w) == AllBlocks(b, w)
  {
  }

  lemma MatureFor(b: Books, b': Books, rec: BlockRec, a: Address)
    requires AddressBalanced(b, a) && AllBlocks(b', CreditTo(a)) == AllBlocks(b, CreditTo(a)) + Credits(rec, a)
    requires b'.balances == Credited(b.balances, rec.credits)
    requires b'.paid == b.paid && b'.payments == b.payments && b'.oldPayments == b.oldPayments
    ensures AddressBalanced(b', a)
  {
  }

  lemma {:induction false} MinedBalances(b: Books, i: nat)
    requires Balanced(b) && i < |b.payments| && b.payments[i].status.Sent?
    ensures Balanced(b.(payments := b.payments[i := b.payments[i].(status := Mined)]))
  {
    hide Exact, AllBlocks;
    var p := b.payments[i].(status := Mined);
    var b' := b.(payments := b.payments[i := p]);
    TotalUpdate(b.payments, i, p, Out());
    SameLists(b, b', Reward());
    SameLists(b, b', FeeTaken());
    forall a: Address
      ensures AddressBalanced(b', a)
    {
      assert AddressBalanced(b, a);
      TotalUpdate(b.payments, i, p, OutTo(a));
      TotalUpdate(b.payments, i, p, SettledTo(a));
      SameLists(b, b', CreditTo(a));
    }
  }

  /** A debit and its record move one amount from a balance to the payments. */
  lemma {:induction false} DebitBalances(b: Books, d: Due)
    requires Balanced(b) && d.to in b.balances && 0 <= d.amount <= b.balances[d.to]
    ensures Balanced(b.(balances := b.balances[d.to := Get(b.balances, d.to) - d.amount],
                        payments := [Payment(d.to, d.amount, Sending)] + b.payments))
  {
    hide Exact, AllBlocks, Total;
    var p := Payment(d.to, d.amount, Sending);
    var b' := b.(balances := b.balances[d.to := Get(b.balances, d.to) - d.amount], payments := [p] + b.payments);
    SumUpdate(b.balances, d.to, Get(b.balances, d.to) - d.amount);
    TotalCons(p, b.payments, Out());
    SameLists(b, b', Reward());
    SameLists(b, b', FeeTaken());
    forall a: Address
      ensures AddressBalanced(b', a)
    {
      assert AddressBalanced(b, a);
      TotalCons(p, b.payments, OutTo(a));
      TotalCons(p, b.payments, SettledTo(a));
      SameLists(b, b', CreditTo(a));
    }
  }

  lemma {:induction false} AcceptedBalances(b: Books, to: Address, amount: int)
    requires Balanced(b) && b.payments != [] && b.payments[0] == Payment(to, amount, Sending)
    ensures Balanced(b.(payments := b.payments[0 := b.payments[0].(status := Sent)],
                        paid := b.paid[to := Get(b.paid, to) + amount]))
  {
    hide Exact, AllBlocks, Total;
    var p := b.payments[0].(status := Sent);
    var b' := b.(payments := b.payments[0 := p], paid := b.paid[to := Get(b.paid, to) + amount]);
    TotalUpdate(b.payments, 0, p, Out());
    SameLists(b, b', Reward());
    SameLists(b, b', FeeTaken());
    forall a: Address
      ensures AddressBalanced(b', a)
    {
      assert AddressBalanced(b, a);
      TotalUpdate(b.payments, 0, p, OutTo(a));
      TotalUpdate(b.payments, 0, p, SettledTo(a));
      SameLists(b, b', CreditTo(a));
    }
  }

  /** A refused broadcast gives the balance back. */
  lemma {:induction false} RefusedBalances(b: Books, to: Address, amount: int)
    requires Balanced(b) && b.payments != [] && b.payments[0] == Payment(to, amount, Sending)
    ensures Balanced(b.(payments := b.payments[0 := b.payments[0].(status := Failed)],
                        balances := b.balances[to := Get(b.balances, to) + amount]))
  {
    hide Exact, AllBlocks, Total;
    var p := b.payments[0].(status := Failed);
    var b' := b.(payments := b.payments[0 := p], balances := b.balances[to := Get(b.balances, to) + amount]);
    SumUpdate(b.balances, to, Get(b.balances, to) + amount);
    TotalUpdate(b.payments, 0, p, Out());
    SameLists(b, b', Reward());
    SameLists(b, b', FeeTaken());
    forall a: Address
      ensures AddressBalanced(b', a)
    {
      assert AddressBalanced(b, a) && b.payments[0].amount >= 0;
      TotalUpdate(b.payments, 0, p, OutTo(a));
      TotalUpdate(b.payments, 0, p, SettledTo(a));
      SameLists(b, b', CreditTo(a));
    }
  }

  lemma {:induction false} EndBalances(b: Books)
    requires Balanced(b)
    ensures Balanced(b.(payments := Prefix(b.payments, MAX_PAYMENTS),
                        oldPayments := Suffix(b.payments, MAX_PAYMENTS) + b.oldPayments))
  {
    hide Exact, AllBlocks, Total;
    var b' := b.(payments := Prefix(b.payments, MAX_PAYMENTS),
                 oldPayments := Suffix(b.payments, MAX_PAYMENTS) + b.oldPayments);
    TotalCut(b.payments, MAX_PAYMENTS, b.oldPayments, Out());
    SameLists(b, b', Reward());
    SameLists(b, b', FeeTaken());
    PartsOf(b.payments, MAX_PAYMENTS);
    forall a: Address
      ensures AddressBalanced(b', a)
    {
      assert AddressBalanced(b, a);
      TotalCut(b.payments, MAX_PAYMENTS, b.oldPayments, OutTo(a));
      TotalCut(b.payments, MAX_PAYMENTS, b.oldPayments, SettledTo(a));
      SameLists(b, b', CreditTo(a));
    }
  }

  // ------------------------------------------------------------- covered payouts

  /** Nothing but a payout lowers a balance, so what is due stays covered. */
  lemma {:induction false} StaysCovered(w: World, mem: Books)
    requires Covered(w) && mem.payments == w.mem.payments
    requires forall a <- w.mem.balances :: a in mem.balances && mem.balances[a] >= w.mem.balances[a]
    ensures Covered(w.(mem := mem))
  {
  }

  lemma {:induction false} DebitCovered(w: World)
    requires Covered(w) && w.paying && !w.inFlight && w.due != []
    ensures Covered(Next(w, Debit, []))
  {
  }

  lemma {:induction false} RestCovered(w: World, ev: Event)
    requires Covered(w) && w.inFlight && (ev == Accepted || ev == Refused)
    ensures Covered(Next(w, ev, []))
  {
  }

  lemma {:induction false} StartCovered(w: World, minPayout: int, due: seq<Due>)
    requires !w.paying && minPayout >= 0 && DueFrom(due, w.mem.balances, minPayout)
    ensures Covered(Next(w, PayoutStarts(minPayout), due))
  {
  }

  /**
   * Every event keeps the books of the process and of the file: whatever interleaves with whatever, and
   * whenever it crashes and comes back.
   */
  lemma {:induction false} EventKeepsSound(w: World, ev: Event, due: seq<Due>)
    requires Sound(w) && Enabled(w, ev)
    requires ev.PayoutStarts? ==> DueFrom(due, w.mem.balances, ev.minPayout)
    ensures Sound(Next(w, ev, due))
  {
    hide Balanced, Covered, Exact, Prefix, Suffix, Credited, WithStatus, DueFrom;
    match ev {
      case Found(rec) =>
        FoundBalances(w.mem, rec);
        StaysCovered(w, Next(w, ev, due).mem);
        SameCover(w.(mem := Next(w, ev, due).mem), Next(w, ev, due));
      case Orphan(cut, i) =>
        OrphanBalances(w.mem, cut, i);
        StatusOnly(w.mem, cut, i, Orphaned);
        StaysCovered(w, Next(w, ev, due).mem);
      case Mature(cut, i) =>
        MatureBalances(w.mem, cut, i);
        StatusOnly(w.mem, cut, i, Confirmed);
        CreditedGrows(w.mem.balances, ListOf(w.mem, cut)[i].credits);
        StaysCovered(w, Next(w, ev, due).mem);
      case Save => SameCover(w, Next(w, ev, due));
      case PayoutStarts(minPayout) => StartCovered(w, minPayout, due);
      case MinedPayment(i) =>
        MinedBalances(w.mem, i);
        MinedCovered(w, i);
      case Debit =>
        FirstIsCovered(w);
        DebitBalances(w.mem, w.due[0]);
        DebitCovered(w);
      case Accepted =>
        InFlightIsFirst(w);
        AcceptedBalances(w.mem, w.due[0].to, w.due[0].amount);
        RestCovered(w, ev);
      case Refused =>
        InFlightIsFirst(w);
        RefusedBalances(w.mem, w.due[0].to, w.due[0].amount);
        RestCovered(w, ev);
      case PayoutEnds =>
        EndBalances(w.mem);
        IdleIsCovered(Next(w, ev, due));
      case PayoutAborts => IdleIsCovered(Next(w, ev, due));
      case Crash => IdleIsCovered(Next(w, ev, due));
    }
  }

  lemma SameCover(w: World, w': World)
    requires Covered(w) && w' == w.(disk := w'.disk)
    ensures Covered(w')
  {
  }

  lemma StatusOnly(b: Books, cut: bool, i: nat, status: BlockStatus)
    requires i < |ListOf(b, cut)|
    ensures WithStatus(b, cut, i, status).balances == b.balances && WithStatus(b, cut, i, status).payments == b.payments
  {
  }

  lemma CreditedGrows(balances: map<Address, int>, credits: map<Address, nat>)
    ensures forall a <- balances :: a in Credited(balances, credits) && Credited(balances, credits)[a] >= balances[a]
  {
  }

  lemma MinedCovered(w: World, i: nat)
    requires Covered(w) && !w.inFlight && i < |w.mem.payments|
    ensures Covered(Next(w, MinedPayment(i), []))
  {
  }

  lemma FirstIsCovered(w: World)
    requires Covered(w) && !w.inFlight && w.due != []
    ensures w.due[0].to in w.mem.balances && 0 <= w.due[0].amount <= w.mem.balances[w.due[0].to]
  {
  }

  lemma InFlightIsFirst(w: World)
    requires Covered(w) && w.inFlight
    ensures w.due != [] && w.mem.payments != [] && w.mem.payments[0] == Payment(w.due[0].to, w.due[0].amount, Sending)
  {
  }

  lemma IdleIsCovered(w: World)
    requires w.due == [] && !w.inFlight
    ensures Covered(w)
  {
  }

  // ------------------------------------------------------------- whole histories

  datatype Step = Step(ev: Event, due: seq<Due>)

  ghost predicate Possible(w: World, steps: seq<Step>)
    decreases |steps|
  {
    steps != [] ==>
      && Enabled(w, steps[0].ev)
      && (steps[0].ev.PayoutStarts? ==> DueFrom(steps[0].due, w.mem.balances, steps[0].ev.minPayout))
      && Possible(Next(w, steps[0].ev, steps[0].due), steps[1..])
  }

  function Run(w: World, steps: seq<Step>): World
    decreases |steps|
  {
    if steps == [] then w else Run(Next(w, steps[0].ev, steps[0].due), steps[1..])
  }

  const NEW_BOOKS: Books := Books([], map[], map[], [], 0, [], [])
  const NEW_POOL: World := World(NEW_BOOKS, NEW_BOOKS, false, [], false)

  /** The pool never owes more or less than its confirmed blocks paid, to anyone, at any moment of any history. */
  lemma {:induction false} BooksAlwaysBalance(w: World, steps: seq<Step>)
    requires Sound(w) && Possible(w, steps)
    ensures Sound(Run(w, steps))
    decreases |steps|
  {
    hide Next, Enabled, Sound, DueFrom;
    if steps != [] {
      EventKeepsSound(w, steps[0].ev, steps[0].due);
      BooksAlwaysBalance(Next(w, steps[0].ev, steps[0].due), steps[1..]);
    }
  }

  lemma NothingTotals<T>(w: T -> int)
    ensures Total([], w) == 0
  {
  }

  ghost predicate Unused(b: Books) {
    && b.blocks == [] && b.oldBlocks == [] && b.payments == [] && b.oldPayments == []
    && b.balances == map[] && b.paid == map[] && b.feesEarned == 0
  }

  lemma {:induction false} UnusedFor(b: Books, a: Address)
    requires Unused(b)
    ensures AddressBalanced(b, a)
  {
    hide Total;
    NothingTotals(CreditTo(a));
    NothingTotals(OutTo(a));
    NothingTotals(SettledTo(a));
  }

  lemma UnusedBlocks(b: Books, w: BlockRec -> int)
    requires b.blocks == [] && b.oldBlocks == []
    ensures AllBlocks(b, w) == 0
  {
  }

  lemma UnusedPayments(b: Books, w: Payment -> int)
    requires b.payments == [] && b.oldPayments == []
    ensures AllPayments(b, w) == 0
  {
  }

  lemma {:induction false} UnusedTotals(b: Books)
    requires Unused(b)
    ensures Sum(b.balances) + AllPayments(b, Out()) + b.feesEarned == AllBlocks(b, Reward())
    ensures b.feesEarned == AllBlocks(b, FeeTaken())
  {
    hide Total, Sum, AllBlocks, AllPayments, Reward, FeeTaken, Out;
    UnusedBlocks(b, Reward());
    UnusedBlocks(b, FeeTaken());
    UnusedPayments(b, Out());
    SumOfNothing<Address>();
  }

  lemma {:induction false} UnusedBalances(b: Books)
    requires Unused(b)
    ensures Balanced(b)
  {
    forall a: Address
      ensures AddressBalanced(b, a)
    {
      UnusedFor(b, a);
    }
    UnusedTotals(b);
    hide AddressBalanced, Sum, AllPayments, AllBlocks, Exact;
  }

  lemma {:induction false} NewPoolIsSound()
    ensures Sound(NEW_POOL)
  {
    hide Balanced;
    UnusedBalances(NEW_BOOKS);
  }

  // ------------------------------------------------------------- what the world outside has seen

  /** What no crash can take back: payments handed to the network and not refused, payments it took, blocks found. */
  datatype Outside = Outside(handed: seq<Due>, taken: seq<Due>, found: seq<Hash>)

  /** The world outside moves with the events: a payment is handed over with its debit, and comes back if refused. */
  function Seen(o: Outside, w: World, ev: Event): Outside {
    match ev
    case Debit => if w.due == [] then o else o.(handed := [w.due[0]] + o.handed)
    case Refused => if w.due == [] || w.mem.payments == [] || o.handed == [] then o else o.(handed := o.handed[1..])
    case Accepted => if w.due == [] || w.mem.payments == [] then o else o.(taken := [w.due[0]] + o.taken)
    case Found(rec) => o.(found := [rec.hash] + o.found)
    case _ => o
  }

  function RunOutside(o: Outside, w: World, steps: seq<Step>): Outside
    decreases |steps|
  {
    if steps == [] then o
    else RunOutside(Seen(o, w, steps[0].ev), Next(w, steps[0].ev, steps[0].due), steps[1..])
  }

  /** The payments of a record that did not fail, newest first. */
  function Unfailed(ps: seq<Payment>): seq<Due> {
    if ps == [] then []
    else (if ps[0].status.Failed? then [] else [Due(ps[0].to, ps[0].amount)]) + Unfailed(ps[1..])
  }

  function HashesOf(bs: seq<BlockRec>): seq<Hash> { seq(|bs|, i requires 0 <= i < |bs| => bs[i].hash) }

  function ToOf(a: Address): Due -> int { (d: Due) => if d.to == a then d.amount else 0 }

  /** A record, in memory or on file, that has forgotten nothing of what the world outside has seen. */
  ghost predicate Remembers(b: Books, o: Outside) {
    && Unfailed(b.payments + b.oldPayments) == o.handed
    && (forall a: Address :: Get(b.paid, a) == Total(o.taken, ToOf(a)))
    && HashesOf(b.blocks + b.oldBlocks) == o.found
  }

  ghost predicate RememberedBy(w: World, o: Outside) {
    && Remembers(w.mem, o) && Remembers(w.disk, o)
    && (w.inFlight ==> o.handed != [] && w.due != [] && o.handed[0] == w.due[0])
  }

  lemma UnfailedSame(ps: seq<Payment>, i: nat, status: PayStatus)
    requires i < |ps| && !ps[i].status.Failed? && !status.Failed?
    ensures Unfailed(ps[i := ps[i].(status := status)]) == Unfailed(ps)
  {
    if i > 0 {
      assert ps[i := ps[i].(status := status)][1..] == ps[1..][i - 1 := ps[i].(status := status)];
      UnfailedSame(ps[1..], i - 1, status);
    }
  }

  lemma CutsRejoin<T>(s: seq<T>, n: nat, history: seq<T>)
    ensures Prefix(s, n) + (Suffix(s, n) + history) == s + history
  {
  }

  lemma {:induction false} FoundIsRemembered(b: Books, rec: BlockRec, o: Outside)
    requires Remembers(b, o)
    ensures var all := [rec] + b.blocks;
            Remembers(b.(blocks := Prefix(all, MAX_BLOCKS), oldBlocks := Suffix(all, MAX_BLOCKS) + b.oldBlocks),
                      o.(found := [rec.hash] + o.found))
  {
    hide Unfailed, Total;
    CutsRejoin([rec] + b.blocks, MAX_BLOCKS, b.oldBlocks);
    assert [rec] + b.blocks + b.oldBlocks == [rec] + (b.blocks + b.oldBlocks);
    assert HashesOf([rec] + (b.blocks + b.oldBlocks)) == [rec.hash] + HashesOf(b.blocks + b.oldBlocks);
  }

  lemma {:induction false} DebitIsRemembered(b: Books, d: Due, balances: map<Address, int>, o: Outside)
    requires Remembers(b, o)
    ensures Remembers(b.(balances := balances, payments := [Payment(d.to, d.amount, Sending)] + b.payments),
                      o.(handed := [d] + o.handed))
  {
    hide Total, HashesOf;
    var p := Payment(d.to, d.amount, Sending);
    assert [p] + b.payments + b.oldPayments == [p] + (b.payments + b.oldPayments);
    assert ([p] + (b.payments + b.oldPayments))[1..] == b.payments + b.oldPayments;
  }

  lemma {:induction false} TakenIsRemembered(b: Books, d: Due, o: Outside)
    requires Remembers(b, o) && b.payments != [] && !b.payments[0].status.Failed?
    ensures Remembers(b.(payments := b.payments[0 := b.payments[0].(status := Sent)],
                         paid := b.paid[d.to := Get(b.paid, d.to) + d.amount]), o.(taken := [d] + o.taken))
  {
    hide Unfailed, HashesOf;
    var all := b.payments + b.oldPayments;
    assert b.payments[0 := b.payments[0].(status := Sent)] + b.oldPayments == all[0 := all[0].(status := Sent)];
    UnfailedSame(all, 0, Sent);
    forall a: Address
      ensures Get(b.paid[d.to := Get(b.paid, d.to) + d.amount], a) == Total([d] + o.taken, ToOf(a))
    {
      TotalCons(d, o.taken, ToOf(a));
    }
  }

  lemma {:induction false} RefusalIsRemembered(b: Books, balances: map<Address, int>, o: Outside)
    requires Remembers(b, o) && b.payments != [] && !b.payments[0].status.Failed?
    ensures o.handed != []
    ensures Remembers(b.(payments := b.payments[0 := b.payments[0].(status := Failed)], balances := balances),
                      o.(handed := o.handed[1..]))
  {
    hide Total, HashesOf;
    var all := b.payments + b.oldPayments;
    var failed := all[0 := all[0].(status := Failed)];
    assert b.payments[0 := b.payments[0].(status := Failed)] + b.oldPayments == failed;
    assert failed[1..] == all[1..];
  }

  lemma {:induction false} MinedIsRemembered(b: Books, i: nat, o: Outside)
    requires Remembers(b, o) && i < |b.payments| && b.payments[i].status.Sent?
    ensures Remembers(b.(payments := b.payments[i := b.payments[i].(status := Mined)]), o)
  {
    hide Total, HashesOf, Unfailed;
    var all := b.payments + b.oldPayments;
    assert b.payments[i := b.payments[i].(status := Mined)] + b.oldPayments == all[i := all[i].(status := Mined)];
    UnfailedSame(all, i, Mined);
  }

  /** Every event leaves both records in step with the world outside: nothing is handed over before it is on file. */
  lemma {:induction false} StepRemembers(w: World, o: Outside, ev: Event, due: seq<Due>)
    requires Sound(w) && Enabled(w, ev) && RememberedBy(w, o)
    requires ev.PayoutStarts? ==> DueFrom(due, w.mem.balances, ev.minPayout)
    ensures RememberedBy(Next(w, ev, due), Seen(o, w, ev))
  {
    hide Balanced, Remembers, Credited;
    var m := w.mem;
    match ev {
      case Found(rec) => FoundIsRemembered(m, rec, o);
      case Orphan(cut, i) => StatusIsRemembered(m, cut, i, Orphaned, m.balances, m.feesEarned, o);
      case Mature(cut, i) =>
        var rec := ListOf(m, cut)[i];
        StatusIsRemembered(m, cut, i, Confirmed, Credited(m.balances, rec.credits), m.feesEarned + rec.fee, o);
      case MinedPayment(i) => MinedIsRemembered(m, i, o);
      case Debit =>
        var d := w.due[0];
        DebitIsRemembered(m, d, m.balances[d.to := Get(m.balances, d.to) - d.amount], o);
      case Accepted => TakenIsRemembered(m, w.due[0], o);
      case Refused =>
        var d := w.due[0];
        RefusalIsRemembered(m, m.balances[d.to := Get(m.balances, d.to) + d.amount], o);
      case PayoutEnds => CutIsRemembered(m, o);
      case _ =>
    }
  }

  lemma CutIsRemembered(b: Books, o: Outside)
    requires Remembers(b, o)
    ensures Remembers(b.(payments := Prefix(b.payments, MAX_PAYMENTS),
                         oldPayments := Suffix(b.payments, MAX_PAYMENTS) + b.oldPayments), o)
  {
    CutsRejoin(b.payments, MAX_PAYMENTS, b.oldPayments);
  }

  lemma {:induction false} StatusIsRemembered(
    b: Books, cut: bool, i: nat, status: BlockStatus, balances: map<Address, int>, fees: int, o: Outside)
    requires Remembers(b, o) && i < |ListOf(b, cut)|
    ensures Remembers(WithStatus(b, cut, i, status), o)
    ensures Remembers(WithStatus(b, cut, i, status).(balances := balances, feesEarned := fees), o)
  {
    hide Total, HashesOf, Unfailed;
    StatusKeepsHashes(b, cut, i, status);
  }

  lemma StatusKeepsHashes(b: Books, cut: bool, i: nat, status: BlockStatus)
    requires i < |ListOf(b, cut)|
    ensures var b' := WithStatus(b, cut, i, status);
            HashesOf(b'.blocks + b'.oldBlocks) == HashesOf(b.blocks + b.oldBlocks)
  {
  }

  lemma {:induction false} RunRemembers(w: World, o: Outside, steps: seq<Step>)
    requires Sound(w) && Possible(w, steps) && RememberedBy(w, o)
    ensures Sound(Run(w, steps)) && RememberedBy(Run(w, steps), RunOutside(o, w, steps))
    decreases |steps|
  {
    hide Next, Enabled, Sound, DueFrom, Seen, RememberedBy;
    if steps != [] {
      EventKeepsSound(w, steps[0].ev, steps[0].due);
      StepRemembers(w, o, steps[0].ev, steps[0].due);
      RunRemembers(Next(w, steps[0].ev, steps[0].due), Seen(o, w, steps[0].ev), steps[1..]);
    }
  }

  lemma {:induction false} UnfailedTotals(ps: seq<Payment>, a: Address)
    ensures Total(Unfailed(ps), ToOf(a)) == Total(ps, OutTo(a))
  {
    if ps != [] {
      UnfailedTotals(ps[1..], a);
      assert [] + Unfailed(ps[1..]) == Unfailed(ps[1..]);
      TotalCons(Due(ps[0].to, ps[0].amount), Unfailed(ps[1..]), ToOf(a));
    }
  }

  /**
   * Nobody is ever paid twice: whatever interleaving and whatever crashes, all that was handed to the network for an
   * address and not refused is within what the confirmed blocks on file credit it with. No payment the network took
   * goes uncounted, and no found block is forgotten.
   */
  lemma {:induction false} NobodyIsPaidTwice(steps: seq<Step>, a: Address)
    requires Possible(NEW_POOL, steps)
    ensures var w, o := Run(NEW_POOL, steps), RunOutside(Outside([], [], []), NEW_POOL, steps);
            && Total(o.handed, ToOf(a)) <= AllBlocks(w.disk, CreditTo(a))
            && Total(o.handed, ToOf(a)) <= AllBlocks(w.mem, CreditTo(a))
            && Get(w.disk.paid, a) == Total(o.taken, ToOf(a))
            && HashesOf(w.disk.blocks + w.disk.oldBlocks) == o.found
  {
    hide Next, Enabled, DueFrom, Seen, Possible, Run, RunOutside, Balanced, Covered, Unfailed, Total, AllBlocks;
    NewPoolIsSound();
    NewIsRemembered();
    RunRemembers(NEW_POOL, Outside([], [], []), steps);
    var w, o := Run(NEW_POOL, steps), RunOutside(Outside([], [], []), NEW_POOL, steps);
    HandedIsCovered(w.disk, o, a);
    HandedIsCovered(w.mem, o, a);
  }

  lemma NewIsRemembered()
    ensures RememberedBy(NEW_POOL, Outside([], [], []))
  {
  }

  lemma {:induction false} HandedIsCovered(b: Books, o: Outside, a: Address)
    requires Balanced(b) && Remembers(b, o)
    ensures Total(o.handed, ToOf(a)) <= AllBlocks(b, CreditTo(a))
  {
    hide Exact;
    UnfailedTotals(b.payments + b.oldPayments, a);
    TotalAppend(b.payments, b.oldPayments, OutTo(a));
    assert AddressBalanced(b, a);
  }

  // ------------------------------------------------------------- a payout pays everybody who is due

  function Debts(n: nat): seq<Step> {
    if n == 0 then [] else [Step(Debit, []), Step(Event.Accepted, [])] + Debts(n - 1)
  }

  /** What is owed after the first `k` of a list were paid. */
  ghost predicate PaidUpTo(w: World, w0: World, due: seq<Due>, k: nat)
    requires k <= |due|
  {
    && w.paying && !w.inFlight && w.due == due[k..] && |w.mem.payments| >= k
    && forall a: Address ::
         && Get(w.mem.balances, a) == Get(w0.mem.balances, a) - Total(due[..k], ToOf(a))
         && Get(w.mem.paid, a) == Get(w0.mem.paid, a) + Total(due[..k], ToOf(a))
  }

  lemma {:induction false} PaysTheNext(w: World, w0: World, due: seq<Due>, k: nat)
    requires k < |due| && PaidUpTo(w, w0, due, k)
    ensures Enabled(w, Debit) && Enabled(AfterDebit(w), Event.Accepted)
    ensures PaidUpTo(AfterAccepted(AfterDebit(w)), w0, due, k + 1)
  {
    hide Total;
    var w' := AfterAccepted(AfterDebit(w));
    assert due[k..][1..] == due[k + 1..];
    forall a: Address
      ensures Total(due[..k + 1], ToOf(a)) == Total(due[..k], ToOf(a)) + ToOf(a)(due[k])
    {
      assert due[..k + 1] == due[..k] + [due[k]];
      TotalAppend(due[..k], [due[k]], ToOf(a));
      TotalOne(due[k], ToOf(a));
    }
  }

  lemma TotalOne<T>(x: T, w: T -> int)
    ensures Total([x], w) == w(x)
  {
    assert [x] == [x] + [];
    TotalCons(x, [], w);
  }

  lemma {:induction false} PaysTheRest(w: World, w0: World, due: seq<Due>, k: nat)
    requires k <= |due| && PaidUpTo(w, w0, due, k)
    ensures Possible(w, Debts(|due| - k)) && PaidUpTo(Run(w, Debts(|due| - k)), w0, due, |due|)
    decreases |due| - k
  {
    hide PaidUpTo, AfterDebit, AfterAccepted, Enabled;
    if k < |due| {
      PaysTheNext(w, w0, due, k);
      var steps := Debts(|due| - k);
      assert steps[1..] == [Step(Event.Accepted, [])] + Debts(|due| - (k + 1));
      assert steps[1..][1..] == Debts(|due| - (k + 1));
      PaysTheRest(AfterAccepted(AfterDebit(w)), w0, due, k + 1);
    }
  }

  /** What a list of dues names for an address: its balance if that is enough, and nothing otherwise. */
  lemma {:induction false} DueIsOwed(due: seq<Due>, balances: map<Address, int>, minPayout: int, a: Address)
    requires DueFrom(due, balances, minPayout)
    ensures Total(due, ToOf(a)) == if a in balances && balances[a] >= minPayout then balances[a] else 0
  {
    if a in balances && balances[a] >= minPayout {
      assert Listed(due, a);
      var k :| 0 <= k < |due| && due[k].to == a;
      DueOnce(due, a, k);
    } else {
      DueNowhere(due, a);
    }
  }

  lemma {:induction false} DueNowhere(due: seq<Due>, a: Address)
    requires forall k :: 0 <= k < |due| ==> due[k].to != a
    ensures Total(due, ToOf(a)) == 0
  {
    if due != [] { DueNowhere(due[1..], a); }
  }

  lemma {:induction false} DueOnce(due: seq<Due>, a: Address, k: nat)
    requires k < |due| && due[k].to == a && forall i, j :: 0 <= i < j < |due| ==> due[i].to != due[j].to
    ensures Total(due, ToOf(a)) == due[k].amount
  {
    if k == 0 { DueNowhere(due[1..], a); } else { DueOnce(due[1..], a, k - 1); }
  }

  /**
   * A payout whose broadcasts are all taken pays everybody owed at least the minimum their whole balance, and nobody
   * else anything; it ends saved, with at most a thousand payments listed, and a next one may start.
   */
  lemma {:induction false} PayoutClears(w: World, minPayout: int, due: seq<Due>, a: Address)
    requires !w.paying && minPayout >= 0 && DueFrom(due, w.mem.balances, minPayout)
    ensures var steps := [Step(PayoutStarts(minPayout), due)] + Debts(|due|) + [Step(PayoutEnds, [])];
            var w' := Run(w, steps);
            var paid := if a in w.mem.balances && w.mem.balances[a] >= minPayout then w.mem.balances[a] else 0;
            && Possible(w, steps)
            && Get(w'.mem.balances, a) == Get(w.mem.balances, a) - paid
            && Get(w'.mem.paid, a) == Get(w.mem.paid, a) + paid
            && w'.disk == w'.mem && !w'.paying && w'.due == [] && |w'.mem.payments| <= 1000
  {
    hide Total, DueFrom;
    var start := Next(w, PayoutStarts(minPayout), due);
    var first, last := [Step(PayoutStarts(minPayout), due)], [Step(PayoutEnds, [])];
    var steps := first + Debts(|due|) + last;
    StartsUnpaid(w, minPayout, due);
    PaysTheRest(start, w, due, 0);
    assert steps == first + (Debts(|due|) + last) && steps[1..] == Debts(|due|) + last;
    RunOn(start, Debts(|due|), last);
    var before := Run(start, Debts(|due|));
    EndsPayout(before);
    assert due[..|due|] == due;
    DueIsOwed(due, w.mem.balances, minPayout, a);
  }

  lemma EndsPayout(w: World)
    ensures Run(w, [Step(PayoutEnds, [])]) == AfterPayout(w)
    ensures Possible(w, [Step(PayoutEnds, [])]) <==> w.paying && !w.inFlight
    ensures var w' := AfterPayout(w);
            && w'.mem.balances == w.mem.balances && w'.mem.paid == w.mem.paid && w'.disk == w'.mem
            && !w'.paying && w'.due == [] && |w'.mem.payments| <= 1000
  {
    assert [Step(PayoutEnds, [])][1..] == [];
  }

  lemma {:induction false} StartsUnpaid(w: World, minPayout: int, due: seq<Due>)
    ensures PaidUpTo(Next(w, PayoutStarts(minPayout), due), w, due, 0)
  {
    assert due[0..] == due && due[..0] == [];
  }

  lemma {:induction false} RunOn(w: World, a: seq<Step>, b: seq<Step>)
    ensures Run(w, a + b) == Run(Run(w, a), b)
    ensures Possible(w, a + b) <==> Possible(w, a) && Possible(Run(w, a), b)
    decreases |a|
  {
    hide Next, Enabled, DueFrom;
    if a == [] {
      assert a + b == b;
    } else {
      assert (a + b)[1..] == a[1..] + b;
      RunOn(Next(w, a[0].ev, a[0].due), a[1..], b);
    }
  }

  // ------------------------------------------------------------- each record is judged once, and the lists stay short

  /** A block matures or is orphaned once, never both, and a payment is found mined once. */
  lemma JudgedOnce(w: World, cut: bool, i: nat)
    ensures Enabled(w, Mature(cut, i)) ==>
              && !Enabled(AfterMature(w, cut, i), Mature(cut, i)) && !Enabled(AfterMature(w, cut, i), Orphan(cut, i))
              && ListOf(AfterMature(w, cut, i).mem, cut)[i].status == Confirmed
    ensures Enabled(w, Orphan(cut, i)) ==>
              && !Enabled(AfterOrphan(w, cut, i), Mature(cut, i)) && !Enabled(AfterOrphan(w, cut, i), Orphan(cut, i))
              && ListOf(AfterOrphan(w, cut, i).mem, cut)[i].status == Orphaned
              && AfterOrphan(w, cut, i).mem.balances == w.mem.balances
    ensures Enabled(w, MinedPayment(i)) ==> !Enabled(AfterMined(w, i), MinedPayment(i))
  {
  }

  /** A payout given up on stops there, and another may start. */
  lemma AbortsFree(w: World, minPayout: int)
    requires Enabled(w, PayoutAborts) && minPayout >= 0
    ensures var w' := Next(w, PayoutAborts, []);
            Enabled(w', PayoutStarts(minPayout)) && w'.due == [] && w'.mem == w.mem && w'.disk == w.disk
  {
  }

  lemma {:induction false} ListsStayShortOnce(w: World, ev: Event, due: seq<Due>)
    requires |w.mem.blocks| <= 500 && |w.disk.blocks| <= 500
    ensures |Next(w, ev, due).mem.blocks| <= 500 && |Next(w, ev, due).disk.blocks| <= 500
  {
    hide Credited, Get;
  }

  /** At most five hundred blocks are ever listed, in memory or on file. */
  lemma {:induction false} ListsStayShort(w: World, steps: seq<Step>)
    requires |w.mem.blocks| <= 500 && |w.disk.blocks| <= 500
    ensures |Run(w, steps).mem.blocks| <= 500 && |Run(w, steps).disk.blocks| <= 500
    decreases |steps|
  {
    hide Next;
    if steps != [] {
      ListsStayShortOnce(w, steps[0].ev, steps[0].due);
      ListsStayShort(Next(w, steps[0].ev, steps[0].due), steps[1..]);
    }
  }
}
