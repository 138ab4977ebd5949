/** MOLI that left for another chain, and what came back (src/moliburn.js:177-270, src/molireturn.js:129-160). */
module Outbound {
  import opened Common
  import opened Types

  const BOT_RETURN_CAP: nat := 5_000 * 1_000_000_000_000_000_000
  const BOT_RETURN_WINDOW: nat := 5_760

  /** A receipt is identified by where it is: its hash key is injective, so the position stands for it. */
  datatype ReturnKey = ReturnKey(ethBlock: nat, txIndex: nat)

  datatype BotReturn = BotReturn(height: int, key: ReturnKey, amount: nat)

  function Get<K>(m: map<K, nat>, k: K): nat { if k in m then m[k] else 0 }

  /** Pointwise sum. */
  function Plus<K>(m: map<K, nat>, d: map<K, nat>): map<K, nat> {
    map k | k in m.Keys + d.Keys :: Get(m, k) + Get(d, k)
  }

  /** The amounts of the entries above a height. */
  function Above(rs: seq<BotReturn>, floor: int): nat {
    if rs == [] then 0
    else Above(rs[..|rs| - 1], floor) + if rs[|rs| - 1].height > floor then rs[|rs| - 1].amount else 0
  }

  /** The entries above a height, in order. */
  function KeepAbove(rs: seq<BotReturn>, floor: int): seq<BotReturn> {
    if rs == [] then []
    else KeepAbove(rs[..|rs| - 1], floor) + if rs[|rs| - 1].height > floor then [rs[|rs| - 1]] else []
  }

  /** What is above a height is a sum: nothing for nothing, and each entry above it adds its amount. */
  lemma AboveIsSum(rs: seq<BotReturn>, r: BotReturn, floor: int)
    ensures Above([], floor) == 0
    ensures Above(rs + [r], floor) == Above(rs, floor) + if r.height >= floor + 1 then r.amount else 0
  {
    assert (rs + [r])[..|rs|] == rs;
  }

  /** Exactly the entries above the height are kept, in their order. */
  lemma {:induction false} KeptAreAbove(rs: seq<BotReturn>, floor: int, r: BotReturn)
    ensures r in KeepAbove(rs, floor) <==> r in rs && r.height >= floor + 1
  {
    if rs != [] {
      KeptAreAbove(rs[..|rs| - 1], floor, r);
      assert rs == rs[..|rs| - 1] + [rs[|rs| - 1]];
    }
  }

  datatype Ledger = Ledger(
    burned: nat, byRecipient: map<Address, nat>, returned: nat, returnedTo: map<Address, nat>,
    returnKeys: set<ReturnKey>, botReturns: seq<BotReturn>)
  {
    function Outstanding(): int { burned - returned }

    function Burn(to: Address, amount: nat): Ledger {
      this.(burned := burned + amount, byRecipient := byRecipient[to := Get(byRecipient, to) + amount])
    }

    predicate Returnable(key: ReturnKey, total: int) {
      total > 0 && key !in returnKeys && total <= Outstanding()
    }

    function RecordReturn(key: ReturnKey, bySender: map<Address, nat>, total: nat): Ledger {
      this.(returnKeys := returnKeys + {key}, returned := returned + total, returnedTo := Plus(returnedTo, bySender))
    }

    function BotWindowUsed(height: int): nat { Above(botReturns, height - BOT_RETURN_WINDOW) }

    predicate BotReturnable(height: int, amount: nat) { BotWindowUsed(height) + amount <= BOT_RETURN_CAP }

    /** Entries the window has left behind are dropped as a new one is recorded. */
    function RecordBotReturn(height: int, key: ReturnKey, amount: nat): Ledger {
      this.(botReturns := KeepAbove(botReturns, height - BOT_RETURN_WINDOW) + [BotReturn(height, key, amount)])
    }
  }

  const EMPTY: Ledger := Ledger(0, map[], 0, map[], {}, [])

  // ------------------------------------------------------------- accounting over runs

  datatype Op =
    | Burning(to: Address, amount: nat)
    | Returning(key: ReturnKey, bySender: map<Address, nat>, bot: bool, height: int)

  ghost predicate Allowed(l: Ledger, op: Op) {
    match op
    case Burning(_, amount) => amount > 0
    case Returning(key, bySender, bot, height) =>
      l.Returnable(key, Sum(bySender)) && (bot ==> Sum(bySender) >= 0 && l.BotReturnable(height, Sum(bySender)))
  }

  ghost function Do(l: Ledger, op: Op): Ledger {
    match op
    case Burning(to, amount) => l.Burn(to, amount)
    case Returning(key, bySender, bot, height) =>
      SumNonNegative(bySender);
      var l' := l.RecordReturn(key, bySender, Sum(bySender));
      if bot then l'.RecordBotReturn(height, key, Sum(bySender)) else l'
  }

  /** Operations in block order, each allowed where it stands. */
  ghost predicate Runs(l: Ledger, ops: seq<Op>, from: int)
    decreases |ops|
  {
    ops != [] ==>
      && Allowed(l, ops[0])
      && (ops[0].Returning? ==> ops[0].height >= from)
      && Runs(Do(l, ops[0]), ops[1..], if ops[0].Returning? then ops[0].height else from)
  }

  ghost function After(l: Ledger, ops: seq<Op>): Ledger
    decreases |ops|
  {
    if ops == [] then l else After(Do(l, ops[0]), ops[1..])
  }

  /** No return of a run is later than a height. */
  ghost predicate UpTo(ops: seq<Op>, top: int) {
    forall i :: 0 <= i < |ops| && ops[i].Returning? ==> ops[i].height <= top
  }

  /** A run goes on with any operation allowed after it. */
  lemma {:induction false} RunsSnoc(l: Ledger, ops: seq<Op>, from: int, top: int, op: Op)
    requires Runs(l, ops, from) && UpTo(ops, top) && from <= top
    requires Allowed(After(l, ops), op) && (op.Returning? ==> op.height == top)
    ensures Runs(l, ops + [op], from) && UpTo(ops + [op], top)
    ensures After(l, ops + [op]) == Do(After(l, ops), op)
    decreases |ops|
  {
    hide Allowed, Do;
    if ops == [] {
      assert ops + [op] == [op];
    } else {
      RunsSnoc(Do(l, ops[0]), ops[1..], if ops[0].Returning? then ops[0].height else from, top, op);
      assert (ops + [op])[1..] == ops[1..] + [op];
    }
  }

  /** Every bot-only return ever paid, nothing pruned. */
  ghost function BotHistory(ops: seq<Op>): seq<BotReturn> {
    if ops == [] then []
    else
      (if ops[0].Returning? && ops[0].bot && Sum(ops[0].bySender) >= 0
       then [BotReturn(ops[0].height, ops[0].key, Sum(ops[0].bySender))] else [])
      + BotHistory(ops[1..])
  }

  function KeysPaid(ops: seq<Op>): seq<ReturnKey> {
    if ops == [] then [] else (if ops[0].Returning? then [ops[0].key] else []) + KeysPaid(ops[1..])
  }

  ghost predicate Balanced(l: Ledger) {
    l.returned <= l.burned && l.burned == Sum(l.byRecipient) && l.returned == Sum(l.returnedTo)
  }

  lemma PlusOne<K>(m: map<K, nat>, d: map<K, nat>, k: K)
    requires k in d
    ensures Plus(m[k := Get(m, k) + d[k]], d - {k}) == Plus(m, d)
  {
  }

  lemma {:induction false} SumPlus<K>(m: map<K, nat>, d: map<K, nat>)
    ensures Sum(Plus(m, d)) == Sum(m) + Sum(d)
    decreases |d|
  {
    hide Plus, Sum;
    if d == map[] {
      SumOfNothing<K>();
      PlusNothing(m, d);
    } else {
      var k := Pick(d.Keys);
      SumRemove(d, k);
      SumUpdate(m, k, Get(m, k) + d[k]);
      SumPlus(m[k := Get(m, k) + d[k]], d - {k});
      PlusOne(m, d, k);
    }
  }

  lemma PlusNothing<K>(m: map<K, nat>, d: map<K, nat>)
    requires d == map[]
    ensures Plus(m, d) == m
  {
  }

  lemma DoKeepsBalance(l: Ledger, op: Op)
    requires Balanced(l) && Allowed(l, op)
    ensures Balanced(Do(l, op))
  {
    match op {
      case Burning(to, amount) => SumUpdate(l.byRecipient, to, Get(l.byRecipient, to) + amount);
      case Returning(_, bySender, _, _) => SumPlus(l.returnedTo, bySender);
    }
  }

  /** Never more back than went out; the totals are the sums; no receipt is paid twice, over any run. */
  lemma {:induction false} ReturnsNeverExceedBurns(l: Ledger, ops: seq<Op>, from: int)
    requires Balanced(l) && Runs(l, ops, from)
    ensures Balanced(After(l, ops))
    ensures forall i, j :: 0 <= i < j < |KeysPaid(ops)| ==> KeysPaid(ops)[i] != KeysPaid(ops)[j]
    ensures forall k <- KeysPaid(ops) :: k !in l.returnKeys
    ensures forall k :: k in After(l, ops).returnKeys <==> k in l.returnKeys || k in KeysPaid(ops)
    decreases |ops|
  {
    if ops != [] {
      DoKeepsBalance(l, ops[0]);
      ReturnsNeverExceedBurns(Do(l, ops[0]), ops[1..], if ops[0].Returning? then ops[0].height else from);
      assert forall k <- KeysPaid(ops[1..]) :: k !in Do(l, ops[0]).returnKeys;
    }
  }

  // ------------------------------------------------------------- the rolling cap

  /** What was paid at heights in (hi - window, hi]. */
  function Within(rs: seq<BotReturn>, hi: int): nat {
    if rs == [] then 0
    else
      var r := rs[|rs| - 1];
      Within(rs[..|rs| - 1], hi) + if hi - BOT_RETURN_WINDOW < r.height <= hi then r.amount else 0
  }

  /** Pruning is invisible: the kept list answers every later window exactly as the whole history does. */
  ghost predicate PrunedAgrees(kept: seq<BotReturn>, history: seq<BotReturn>, last: int) {
    forall floor :: floor >= last - BOT_RETURN_WINDOW ==> Above(kept, floor) == Above(history, floor)
  }

  ghost predicate Capped(history: seq<BotReturn>) {
    forall hi :: Within(history, hi) <= BOT_RETURN_CAP
  }

  lemma AboveAppend(rs: seq<BotReturn>, r: BotReturn, floor: int)
    ensures Above(rs + [r], floor) == Above(rs, floor) + if r.height > floor then r.amount else 0
  {
    assert (rs + [r])[..|rs|] == rs;
  }

  lemma WithinAppend(rs: seq<BotReturn>, r: BotReturn, hi: int)
    ensures Within(rs + [r], hi) == Within(rs, hi) + if hi - BOT_RETURN_WINDOW < r.height <= hi then r.amount else 0
  {
    assert (rs + [r])[..|rs|] == rs;
  }

  lemma {:induction false} KeepAboveAgrees(rs: seq<BotReturn>, floor: int, later: int)
    requires floor <= later
    ensures Above(KeepAbove(rs, floor), later) == Above(rs, later)
    decreases |rs|
  {
    if rs != [] {
      KeepAboveAgrees(rs[..|rs| - 1], floor, later);
      AboveAppend(KeepAbove(rs[..|rs| - 1], floor), rs[|rs| - 1], later);
      assert KeepAbove(rs[..|rs| - 1], floor) + [] == KeepAbove(rs[..|rs| - 1], floor);
    }
  }

  lemma {:induction false} WithinIsBelowAbove(rs: seq<BotReturn>, hi: int)
    ensures Within(rs, hi) <= Above(rs, hi - BOT_RETURN_WINDOW)
    decreases |rs|
  {
    if rs != [] { WithinIsBelowAbove(rs[..|rs| - 1], hi); }
  }

  /** Dropping old entries and recording a new one goes unnoticed by every later window. */
  lemma {:induction false} PruningAgrees(kept: seq<BotReturn>, history: seq<BotReturn>, last: int, r: BotReturn)
    requires PrunedAgrees(kept, history, last) && r.height >= last
    ensures PrunedAgrees(KeepAbove(kept, r.height - BOT_RETURN_WINDOW) + [r], history + [r], r.height)
  {
    var pruned := KeepAbove(kept, r.height - BOT_RETURN_WINDOW);
    forall floor | floor >= r.height - BOT_RETURN_WINDOW
      ensures Above(pruned + [r], floor) == Above(history + [r], floor)
    {
      KeepAboveAgrees(kept, r.height - BOT_RETURN_WINDOW, floor);
      AboveAppend(pruned, r, floor);
      AboveAppend(history, r, floor);
    }
  }

  lemma {:induction false} CapAt(history: seq<BotReturn>, r: BotReturn, hi: int)
    requires Capped(history) && Above(history, r.height - BOT_RETURN_WINDOW) + r.amount <= BOT_RETURN_CAP
    ensures Within(history + [r], hi) <= BOT_RETURN_CAP
  {
    WithinAppend(history, r, hi);
    if hi >= r.height {
      WithinIsBelowAbove(history, hi);
      AboveAntitone(history, r.height - BOT_RETURN_WINDOW, hi - BOT_RETURN_WINDOW);
    }
  }

  /** One bot-only return keeps the cap at every height, past and future. */
  lemma {:induction false} PayKeepsCap(l: Ledger, history: seq<BotReturn>, last: int, r: BotReturn)
    requires PrunedAgrees(l.botReturns, history, last) && Capped(history)
    requires r.height >= last && l.BotReturnable(r.height, r.amount)
    ensures var history' := history + [r];
            && Capped(history')
            && PrunedAgrees(l.RecordBotReturn(r.height, r.key, r.amount).botReturns, history', r.height)
  {
    PruningAgrees(l.botReturns, history, last, r);
    forall hi: int
      ensures Within(history + [r], hi) <= BOT_RETURN_CAP
    {
      CapAt(history, r, hi);
    }
  }

  lemma {:induction false} AboveAntitone(rs: seq<BotReturn>, floor: int, later: int)
    requires floor <= later
    ensures Above(rs, later) <= Above(rs, floor)
    decreases |rs|
  {
    if rs != [] { AboveAntitone(rs[..|rs| - 1], floor, later); }
  }

  /**
   * The rolling cap is real: over any run, at every height H, all bot-only returns ever paid at heights in
   * (H - window, H] together stay within the cap, although the ledger forgets old entries.
   */
  lemma {:induction false} RollingCap(l: Ledger, ops: seq<Op>, from: int, history: seq<BotReturn>)
    requires Runs(l, ops, from)
    requires PrunedAgrees(l.botReturns, history, from) && Capped(history)
    ensures Capped(history + BotHistory(ops))
    decreases |ops|
  {
    hide Within, Above, KeepAbove;
    if ops == [] {
      assert history + BotHistory(ops) == history;
    } else {
      var op := ops[0];
      var from' := if op.Returning? then op.height else from;
      if op.Returning? && op.bot {
        var r := BotReturn(op.height, op.key, Sum(op.bySender));
        var l' := l.RecordReturn(op.key, op.bySender, r.amount);
        PayKeepsCap(l', history, from, r);
        RollingCap(Do(l, op), ops[1..], from', history + [r]);
        assert history + BotHistory(ops) == history + [r] + BotHistory(ops[1..]);
      } else {
        RollingCap(Do(l, op), ops[1..], from', history);
        assert BotHistory(ops) == BotHistory(ops[1..]);
      }
    }
  }

  // ------------------------------------------------------------- the ledger object

  class OutboundLedger {
    var burned: nat
    var byRecipient: map<Address, nat>
    var returned: nat
    var returnedTo: map<Address, nat>
    var returnKeys: set<ReturnKey>
    var botReturns: seq<BotReturn>

    constructor ()
      ensures Contents() == EMPTY
    {
      burned, byRecipient, returned, returnedTo, returnKeys, botReturns := 0, map[], 0, map[], {}, [];
    }

    constructor Copy(l: Ledger)
      ensures Contents() == l
    {
      burned, byRecipient, returned := l.burned, l.byRecipient, l.returned;
      returnedTo, returnKeys, botReturns := l.returnedTo, l.returnKeys, l.botReturns;
    }

    function Contents(): Ledger
      reads this
    {
      Ledger(burned, byRecipient, returned, returnedTo, returnKeys, botReturns)
    }

    method BotWindowUsed(height: int) returns (used: nat)
      ensures used == Contents().BotWindowUsed(height)
    {
      used := 0;
      for i := 0 to |botReturns|
        invariant used == Above(botReturns[..i], height - BOT_RETURN_WINDOW)
      {
        assert botReturns[..i + 1][..i] == botReturns[..i];
        if botReturns[i].height > height - BOT_RETURN_WINDOW { used := used + botReturns[i].amount; }
      }
      assert botReturns[..|botReturns|] == botReturns;
    }

    /** Drop the entries the window has left behind, then record. */
    method RecordBotReturn(height: int, key: ReturnKey, amount: nat)
      modifies this`botReturns
      ensures Contents() == old(Contents()).RecordBotReturn(height, key, amount)
    {
      var kept := [];
      for i := 0 to |botReturns|
        invariant kept == KeepAbove(botReturns[..i], height - BOT_RETURN_WINDOW)
      {
        assert botReturns[..i + 1][..i] == botReturns[..i];
        if botReturns[i].height > height - BOT_RETURN_WINDOW { kept := kept + [botReturns[i]]; }
      }
      assert botReturns[..|botReturns|] == botReturns;
      botReturns := kept + [BotReturn(height, key, amount)];
    }

    method Burn(to: Address, amount: nat)
      modifies this`burned, this`byRecipient
      ensures Contents() == old(Contents()).Burn(to, amount)
    {
      burned := burned + amount;
      byRecipient := byRecipient[to := Get(byRecipient, to) + amount];
    }

    static method Total(bySender: map<Address, nat>) returns (total: nat)
      ensures total == Sum(bySender)
    {
      total := 0;
      var left := bySender;
      while left != map[]
        invariant total + Sum(left) == Sum(bySender)
        decreases |left|
      {
        ghost var some := Pick(left.Keys);
        var a: Address :| a in left.Keys;
        SumRemove(left, a);
        total, left := total + left[a], left - {a};
      }
    }

    method AddReturned(bySender: map<Address, nat>)
      modifies this`returnedTo
      ensures returnedTo == Plus(old(returnedTo), bySender)
    {
      hide Plus;
      var left := bySender;
      while left != map[]
        invariant Plus(returnedTo, left) == Plus(old(returnedTo), bySender)
        decreases |left|
      {
        ghost var some := Pick(left.Keys);
        var a: Address :| a in left.Keys;
        PlusOne(returnedTo, left, a);
        returnedTo, left := returnedTo[a := Get(returnedTo, a) + left[a]], left - {a};
      }
      PlusNothing(returnedTo, left);
    }

    /** Refused whole, and before anything moves, when already paid or beyond what is outstanding. */
    method RecordReturn(key: ReturnKey, bySender: map<Address, nat>) returns (ok: bool)
      modifies this`returnKeys, this`returned, this`returnedTo
      ensures ok <==> old(Contents()).Returnable(key, Sum(bySender))
      ensures !ok ==> Contents() == old(Contents())
      ensures ok ==> Sum(bySender) >= 0 && Contents() == old(Contents()).RecordReturn(key, bySender, Sum(bySender))
    {
      var total := Total(bySender);
      if total <= 0 || key in returnKeys || total > burned - returned { return false; }
      returnKeys, returned := returnKeys + {key}, returned + total;
      AddReturned(bySender);
      return true;
    }

    method Clone() returns (copy: OutboundLedger)
      ensures fresh(copy) && copy.Contents() == Contents()
    {
      copy := new OutboundLedger.Copy(Contents());
    }
  }
}
