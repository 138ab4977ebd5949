/**
 * Whole histories of native blocks: what holds of the state after any path from genesis, and therefore of
 * the live state after any sequence of deliveries and reorganisations.
 */
module History {
  import opened Common
  import opened Types
  import A = Accounts
  import Outbound
  import Conservation
  import Tokens
  import Rights
  import Runs
  import opened Transition
  import opened BlockTree
  import opened Blocks
  import opened NativeRules

  /** The two things that change a state. */
  datatype Happening = Ran(tx: Tx, miner: Address, height: nat) | Minted(to: Address, amount: nat)

  function Happen(env: Env, v: Ledger, h: Happening): Option<Ledger> {
    match h
    case Ran(tx, miner, height) => Apply(env, v, tx, miner, height)
    case Minted(to, amount) => Some(Rewarded(v, to, amount))
  }

  function After(env: Env, v: Ledger, hs: seq<Happening>): Option<Ledger> {
    if hs == [] then Some(v)
    else
      match After(env, v, hs[..|hs| - 1])
      case None => None
      case Some(v') => Happen(env, v', hs[|hs| - 1])
  }

  function RanAll(txs: seq<Tx>, miner: Address, height: nat): (hs: seq<Happening>)
    ensures |hs| == |txs|
  {
    seq(|txs|, i requires 0 <= i < |txs| => Ran(txs[i], miner, height))
  }

  function OfBlock(g: Genesis, b: Block): seq<Happening> {
    RanAll(b.txs, b.header.miner, b.header.number) + [Minted(b.header.miner, BlockRewardAt(b.header.number, g))]
  }

  /** All that happened on a path above its genesis. */
  function OfPath(g: Genesis, path: seq<Entry<Ledger>>): seq<Happening> {
    if |path| <= 1 then [] else OfPath(g, path[..|path| - 1]) + OfBlock(g, path[|path| - 1].block)
  }

  lemma {:induction false} AfterAppend(env: Env, v: Ledger, a: seq<Happening>, b: seq<Happening>)
    requires After(env, v, a).Some?
    ensures After(env, v, a + b) == After(env, After(env, v, a).value, b)
    decreases |b|
  {
    hide Happen;
    if b == [] {
      assert a + b == a;
    } else {
      assert (a + b)[..|a + b| - 1] == a + b[..|b| - 1];
      AfterAppend(env, v, a, b[..|b| - 1]);
    }
  }

  lemma {:induction false} ReplayIsHappening(env: Env, v: Ledger, txs: seq<Tx>, miner: Address, height: nat, limit: nat)
    requires Replayed(env, v, txs, miner, height, limit).Some?
    ensures After(env, v, RanAll(txs, miner, height)) == Some(Replayed(env, v, txs, miner, height, limit).value.state)
  {
    hide Apply;
    if txs != [] {
      ReplayIsHappening(env, v, txs[..|txs| - 1], miner, height, limit);
      assert RanAll(txs, miner, height)[..|txs| - 1] == RanAll(txs[..|txs| - 1], miner, height);
    }
  }

  lemma {:induction false} StepIsHappening(c: Crypto, g: Genesis, parent: Entry<Ledger>, b: Block)
    requires Step(c, g, parent, b).Some?
    ensures After(c.env, parent.state, OfBlock(g, b)) == Some(Step(c, g, parent, b).value.0)
  {
    hide Step, HeaderStands, Replayed, BlockRewardAt;
    var h := b.header;
    StepReplays(c, g, parent, b);
    ReplayIsHappening(c.env, parent.state, b.txs, h.miner, h.number, h.gasLimit);
    var ran := RanAll(b.txs, h.miner, h.number);
    var last := Minted(h.miner, BlockRewardAt(h.number, g));
    assert (ran + [last])[..|ran|] == ran;
  }

  /** The state after a path is what happened on it, from genesis, and nothing else. */
  lemma {:induction false} PathIsHappening(c: Crypto, g: Genesis, r: Rules<Ledger>, path: seq<Entry<Ledger>>)
    requires r == Native(c, g, r.genesis, r.maxReorgDepth, r.maxOrphans) && FromGenesis(r, path)
    ensures After(c.env, r.genesis.state, OfPath(g, path)) == Some(path[|path| - 1].state)
  {
    hide Step, After, OfBlock;
    if |path| == 1 {
      AfterNothing(c.env, r.genesis.state);
    } else {
      var before := path[..|path| - 1];
      PrefixFromGenesis(r, path);
      PathIsHappening(c, g, r, before);
      assert Follows(r, path, |path| - 1);
      StepIsHappening(c, g, path[|path| - 2], path[|path| - 1].block);
      AfterAppend(c.env, r.genesis.state, OfPath(g, before), OfBlock(g, path[|path| - 1].block));
    }
  }

  lemma AfterNothing(env: Env, v: Ledger)
    ensures After(env, v, []) == Some(v)
  {
  }

  lemma PrefixFromGenesis<S>(r: Rules<S>, path: seq<Entry<S>>)
    requires FromGenesis(r, path) && |path| > 1
    ensures FromGenesis(r, path[..|path| - 1])
  {
    var before := path[..|path| - 1];
    forall i | 0 < i < |before|
      ensures Follows(r, before, i)
    {
      assert Follows(r, path, i);
    }
  }

  // ------------------------------------------------------------- conservation

  /** MOLI minted less MOLI destroyed by publishing charges. */
  function NetMinted(hs: seq<Happening>): int {
    if hs == [] then 0
    else
      var before := NetMinted(hs[..|hs| - 1]);
      match hs[|hs| - 1]
      case Ran(tx, _, height) => before - PublishBurn(tx, height)
      case Minted(_, amount) => before + amount
  }

  lemma {:induction false} HappeningsConserve(env: Env, v: Ledger, hs: seq<Happening>)
    requires env.Sums() && After(env, v, hs).Some?
    ensures Conservation.Everywhere(After(env, v, hs).value) == Conservation.Everywhere(v) + NetMinted(hs)
  {
    hide Apply, PublishBurn;
    if hs != [] {
      var v' := After(env, v, hs[..|hs| - 1]).value;
      HappeningsConserve(env, v, hs[..|hs| - 1]);
      match hs[|hs| - 1] {
        case Ran(tx, miner, height) => Conservation.ApplyConserves(env, v', tx, miner, height);
        case Minted(to, amount) => A.CreditAdds(v'.accounts, to, amount);
      }
    }
  }

  /** Block rewards at heights 1 to n. */
  function RewardsTo(g: Genesis, n: nat): nat {
    if n == 0 then 0 else RewardsTo(g, n - 1) + BlockRewardAt(n, g)
  }

  /** Publishing charges of a list of transactions at one height. */
  function Charges(txs: seq<Tx>, height: nat): nat {
    if txs == [] then 0 else Charges(txs[..|txs| - 1], height) + PublishBurn(txs[|txs| - 1], height)
  }

  function ChargesOn(path: seq<Entry<Ledger>>): nat {
    if |path| <= 1 then 0 else ChargesOn(path[..|path| - 1]) + Charges(path[|path| - 1].block.txs, |path| - 1)
  }

  lemma {:induction false} NetAppend(a: seq<Happening>, b: seq<Happening>)
    ensures NetMinted(a + b) == NetMinted(a) + NetMinted(b)
    decreases |b|
  {
    hide PublishBurn;
    if b == [] {
      assert a + b == a;
    } else {
      assert (a + b)[..|a + b| - 1] == a + b[..|b| - 1];
      NetAppend(a, b[..|b| - 1]);
    }
  }

  lemma {:induction false} NetOfRuns(txs: seq<Tx>, miner: Address, height: nat)
    ensures NetMinted(RanAll(txs, miner, height)) + Charges(txs, height) == 0
  {
    hide PublishBurn;
    if txs != [] {
      NetOfRuns(txs[..|txs| - 1], miner, height);
      assert RanAll(txs, miner, height)[..|txs| - 1] == RanAll(txs[..|txs| - 1], miner, height);
    }
  }

  lemma {:induction false} NetOfBlock(g: Genesis, b: Block)
    ensures NetMinted(OfBlock(g, b)) == BlockRewardAt(b.header.number, g) - Charges(b.txs, b.header.number)
  {
    hide PublishBurn, BlockRewardAt;
    var ran := RanAll(b.txs, b.header.miner, b.header.number);
    var last := Minted(b.header.miner, BlockRewardAt(b.header.number, g));
    NetOfRuns(b.txs, b.header.miner, b.header.number);
    NetAppend(ran, [last]);
    assert [last][..0] == [];
    assert NetMinted([last]) == NetMinted([]) + last.amount;
  }

  lemma {:induction false} NetOfPath(g: Genesis, r: Rules<Ledger>, path: seq<Entry<Ledger>>)
    requires StepShape(r) && FromGenesis(r, path)
    ensures NetMinted(OfPath(g, path)) == RewardsTo(g, |path| - 1) - ChargesOn(path)
  {
    hide PublishBurn, BlockRewardAt, OfBlock, NetMinted, Charges, StepShape;
    if |path| == 1 {
      NetOfNothing();
    } else {
      PrefixFromGenesis(r, path);
      NetOfPath(g, r, path[..|path| - 1]);
      PathHeights(r, path, |path| - 1);
      NetOfBlock(g, path[|path| - 1].block);
      NetAppend(OfPath(g, path[..|path| - 1]), OfBlock(g, path[|path| - 1].block));
    }
  }

  lemma NetOfNothing()
    ensures NetMinted([]) == 0
  {
  }

  /**
   * MOLI is conserved on every chain: all balances, with what stands on the far side of the bridge and what
   * publishing destroyed, are the genesis allocation and the block rewards up to that height.
   */
  lemma {:induction false} MoliIsConserved(c: Crypto, g: Genesis, r: Rules<Ledger>, path: seq<Entry<Ledger>>)
    requires r == Native(c, g, r.genesis, r.maxReorgDepth, r.maxOrphans)
    requires c.env.Sums() && NoCollisions(c) && GenesisEntry(c, r.genesis) && FromGenesis(r, path)
    ensures var v := path[|path| - 1].state;
            A.Supply(v.accounts) + (v.outbound.burned - v.outbound.returned) + ChargesOn(path) ==
            Conservation.Everywhere(r.genesis.state) + RewardsTo(g, |path| - 1)
  {
    hide Step, After, OfPath, NoCollisions, Lawful, ChargesOn, RewardsTo, A.Supply, Charges, NetMinted;
    NativeShape(c, g, r.genesis, r.maxReorgDepth, r.maxOrphans);
    PathIsHappening(c, g, r, path);
    HappeningsConserve(c.env, r.genesis.state, OfPath(g, path));
    NetOfPath(g, r, path);
  }

  // ------------------------------------------------------------- the books of a state

  /** Token books, expression caps and the outbound counter, together. */
  ghost predicate BooksSound(v: Ledger) {
    Tokens.Sound(v) && Rights.CapsHold(v) && Outbound.Balanced(v.outbound)
  }

  lemma {:induction false} HappeningsKeepBooks(env: Env, v: Ledger, hs: seq<Happening>)
    requires env.Sums() && BooksSound(v) && After(env, v, hs).Some?
    ensures BooksSound(After(env, v, hs).value)
  {
    hide Apply, Tokens.Units, Tokens.RecordSound, Outbound.Balanced;
    if hs != [] {
      var v' := After(env, v, hs[..|hs| - 1]).value;
      HappeningsKeepBooks(env, v, hs[..|hs| - 1]);
      match hs[|hs| - 1] {
        case Ran(tx, miner, height) =>
          Tokens.ApplyKeepsTokens(env, v', tx, miner, height);
          Rights.ApplyKeepsCaps(env, v', tx, miner, height);
          Conservation.ApplyKeepsOutbound(env, v', tx, miner, height);
        case Minted(to, amount) =>
      }
    }
  }

  /** In the state after any path, every token's burn is its tally, no cap is passed, and no more came back than
      went out. */
  lemma {:induction false} BooksStaySound(c: Crypto, g: Genesis, r: Rules<Ledger>, path: seq<Entry<Ledger>>)
    requires r == Native(c, g, r.genesis, r.maxReorgDepth, r.maxOrphans)
    requires c.env.Sums() && FromGenesis(r, path) && BooksSound(r.genesis.state)
    ensures BooksSound(path[|path| - 1].state)
  {
    hide Step, After, OfPath, BooksSound;
    PathIsHappening(c, g, r, path);
    HappeningsKeepBooks(c.env, r.genesis.state, OfPath(g, path));
  }

  // ------------------------------------------------------------- nothing is spoken or spent twice

  /** How many transactions of a history exercise a right. */
  function Uses(env: Env, v: Ledger, hs: seq<Happening>, right: Rights.Right): nat {
    if hs == [] then 0
    else
      var before := After(env, v, hs[..|hs| - 1]);
      var h := hs[|hs| - 1];
      Uses(env, v, hs[..|hs| - 1], right) +
      if h.Ran? && before.Some? && right in Rights.Exercised(before.value, h.tx, h.height) then 1 else 0
  }

  function SpentOnce(v: Ledger, right: Rights.Right): nat { if Rights.IsSpent(v, right) then 1 else 0 }

  lemma {:induction false} UsesAreSpent(env: Env, v: Ledger, hs: seq<Happening>, right: Rights.Right)
    requires After(env, v, hs).Some?
    ensures SpentOnce(After(env, v, hs).value, right) == SpentOnce(v, right) + Uses(env, v, hs, right)
  {
    hide Apply, Rights.Exercised;
    if hs != [] {
      var v' := After(env, v, hs[..|hs| - 1]).value;
      UsesAreSpent(env, v, hs[..|hs| - 1], right);
      match hs[|hs| - 1] {
        case Ran(tx, miner, height) => Rights.ApplyExercises(env, v', tx, miner, height, right);
        case Minted(to, amount) =>
      }
    }
  }

  /**
   * A voice, a credential or a receipt is used on the canonical chain exactly once if the live state says it is
   * spent, and never if it says it is free: unwinding a branch gives back exactly the rights used on it.
   */
  lemma {:induction false} RightsAreUsedOnce(c: Crypto, g: Genesis, r: Rules<Ledger>, t: Tree<Ledger>,
                                             right: Rights.Right)
    requires r == Native(c, g, r.genesis, r.maxReorgDepth, r.maxOrphans)
    requires Core(r, t) && !Rights.IsSpent(r.genesis.state, right)
    ensures Uses(c.env, r.genesis.state, OfPath(g, t.canonical), right) ==
            if Rights.IsSpent(t.state, right) then 1 else 0
  {
    hide Step, After, OfPath, Uses, Rights.IsSpent, Connected, AllKnown, BooksAgree;
    PathIsHappening(c, g, r, t.canonical);
    UsesAreSpent(c.env, r.genesis.state, OfPath(g, t.canonical), right);
  }

  /** A right once spent stays spent. */
  lemma {:induction false} SpentStays(env: Env, v: Ledger, hs: seq<Happening>, right: Rights.Right)
    requires After(env, v, hs).Some? && Rights.IsSpent(v, right)
    ensures Rights.IsSpent(After(env, v, hs).value, right)
  {
    hide Rights.IsSpent, Uses;
    UsesAreSpent(env, v, hs, right);
  }

  /**
   * On any history: when a wallet has spoken on a poll, by a vote or a quantum expression of any token, then in
   * every later state neither applies for that wallet and poll again.
   */
  lemma {:induction false} NobodySpeaksTwice(
    env: Env, v: Ledger, hs: seq<Happening>, i: nat, b: Tx, miner: Address, height: nat, pollId: Hash)
    requires After(env, v, hs).Some? && i < |hs| && hs[i].Ran? && hs[i].tx.from == b.from
    requires After(env, v, hs[..i]).Some? && Rights.SpeaksOn(After(env, v, hs[..i]).value, hs[i].tx, pollId)
    requires Rights.SpeaksOn(After(env, v, hs).value, b, pollId)
    ensures Apply(env, After(env, v, hs).value, b, miner, height).None?
  {
    hide Apply, Rights.Exercised, After, Rights.SpeaksOn;
    var before, rest := After(env, v, hs[..i]).value, hs[i + 1..];
    assert hs == hs[..i + 1] + rest && hs[..i + 1][..i] == hs[..i];
    AfterPrefix(env, v, hs, i);
    AfterAppend(env, v, hs[..i + 1], rest);
    var spoken := After(env, v, hs[..i + 1]).value;
    forall key | key in spoken.voteKeys
      ensures key in After(env, v, hs).value.voteKeys
    {
      SpentStays(env, spoken, rest, Rights.Voice(key));
    }
    Rights.OneVoicePerPoll(env, before, hs[i].tx, hs[i].miner, hs[i].height, After(env, v, hs).value, b, miner, height,
      pollId);
  }

  /** What comes to an end came through every step of it. */
  lemma {:induction false} AfterPrefix(env: Env, v: Ledger, hs: seq<Happening>, i: nat)
    requires After(env, v, hs).Some? && i < |hs|
    ensures After(env, v, hs[..i]).Some? && After(env, v, hs[..i + 1]).Some?
    ensures After(env, v, hs[..i + 1]) == Happen(env, After(env, v, hs[..i]).value, hs[i])
    decreases |hs|
  {
    hide Happen;
    if i == |hs| - 1 {
      assert hs[..i + 1] == hs;
    } else {
      AfterPrefix(env, v, hs[..|hs| - 1], i);
      assert hs[..|hs| - 1][..i] == hs[..i] && hs[..|hs| - 1][..i + 1] == hs[..i + 1];
    }
  }

  /** How many expressions of a history move one wallet's counter of one token. */
  function Expressed(env: Env, v: Ledger, hs: seq<Happening>, k: Key): nat {
    if hs == [] then 0
    else
      var before := After(env, v, hs[..|hs| - 1]);
      var h := hs[|hs| - 1];
      Expressed(env, v, hs[..|hs| - 1], k) +
      if h.Ran? && before.Some? && k in Rights.Counted(before.value, h.tx, h.height) then 1 else 0
  }

  lemma {:induction false} CountersCount(env: Env, v: Ledger, hs: seq<Happening>, k: Key)
    requires After(env, v, hs).Some?
    ensures After(env, v, hs).value.Expressions(k) == v.Expressions(k) + Expressed(env, v, hs, k)
  {
    hide Apply, Rights.Counted;
    if hs != [] {
      var v' := After(env, v, hs[..|hs| - 1]).value;
      CountersCount(env, v, hs[..|hs| - 1], k);
      match hs[|hs| - 1] {
        case Ran(tx, miner, height) => Rights.ApplyCounts(env, v', tx, miner, height, k);
        case Minted(to, amount) =>
      }
    }
  }

  /**
   * A wallet's counter is the number of its expressions standing on the canonical chain, so unwinding a branch
   * gives exactly those back; and for a capped token at most `cap` of them ever stand there.
   */
  lemma {:induction false} CappedOnTheChain(c: Crypto, g: Genesis, r: Rules<Ledger>, t: Tree<Ledger>, k: Key)
    requires r == Native(c, g, r.genesis, r.maxReorgDepth, r.maxOrphans)
    requires c.env.Sums() && Core(r, t) && BooksSound(r.genesis.state)
    ensures t.state.Expressions(k) == r.genesis.state.Expressions(k) +
            Expressed(c.env, r.genesis.state, OfPath(g, t.canonical), k)
    ensures k.scope in t.state.tokens && t.state.tokens[k.scope].spec.voteMode.Capped? ==>
              Expressed(c.env, r.genesis.state, OfPath(g, t.canonical), k) <= t.state.tokens[k.scope].spec.cap
  {
    hide Step, After, OfPath, Expressed, Connected, AllKnown, BooksAgree, Tokens.Units, Outbound.Balanced, Native;
    PathIsHappening(c, g, r, t.canonical);
    CountersCount(c.env, r.genesis.state, OfPath(g, t.canonical), k);
    BooksStaySound(c, g, r, t.canonical);
    if k.scope in t.state.tokens && t.state.tokens[k.scope].spec.voteMode.Capped? { CapIsPositive(t.state, k.scope); }
  }

  lemma CapIsPositive(v: Ledger, id: TokenId)
    requires Tokens.Sound(v) && id in v.tokens && v.tokens[id].spec.voteMode.Capped?
    ensures v.tokens[id].spec.cap >= 1
  {
  }

  // ------------------------------------------------------------- the rolling cap, on a chain

  /** What one transaction does to the outbound ledger, as an operation of its own runs. */
  function OpsOf(env: Env, v: Ledger, tx: Tx, height: nat): seq<Outbound.Op> {
    match Seen(tx, height)
    case MoliBurn(recipient, amount) => [Outbound.Burning(recipient, amount)]
    case MoliReturn(ethBlock, txIndex, proof) =>
      if Proved(env, v, ethBlock, txIndex, proof).None? then []
      else
        [Outbound.Returning(Outbound.ReturnKey(ethBlock, txIndex),
                            Proved(env, v, ethBlock, txIndex, proof).value.bySender,
                            RestsOnBot(v, height, ethBlock), height)]
    case _ => []
  }

  function OpsIn(env: Env, v: Ledger, hs: seq<Happening>): seq<Outbound.Op> {
    if hs == [] then []
    else
      var before := After(env, v, hs[..|hs| - 1]);
      var h := hs[|hs| - 1];
      OpsIn(env, v, hs[..|hs| - 1]) +
      if h.Ran? && before.Some? then OpsOf(env, before.value, h.tx, h.height) else []
  }

  /** A transaction's outbound effect is its operation, allowed where it stands. */
  lemma {:induction false} ApplyIsOps(env: Env, v: Ledger, tx: Tx, miner: Address, height: nat)
    requires env.Sums() && Apply(env, v, tx, miner, height).Some?
    ensures var ops := OpsOf(env, v, tx, height);
            && |ops| <= 1
            && (ops == [] ==> Apply(env, v, tx, miner, height).value.outbound == v.outbound)
            && (ops != [] ==>
                  && Outbound.Allowed(v.outbound, ops[0])
                  && (ops[0].Returning? ==> ops[0].height == height)
                  && Apply(env, v, tx, miner, height).value.outbound == Outbound.Do(v.outbound, ops[0]))
  {
    hide IssueChecks, TransferChecks, ExpressChecks, CommitOf, BaseChecks, AccountsAfter, HoldingsAfter, TokensAfter,
         InboundAfter;
  }

  /** Heights never go down along a history. */
  ghost predicate Rising(hs: seq<Happening>, top: nat) {
    && (forall i :: 0 <= i < |hs| && hs[i].Ran? ==> hs[i].height <= top)
    && (forall i, j :: 0 <= i < j < |hs| && hs[i].Ran? && hs[j].Ran? ==> hs[i].height <= hs[j].height)
  }

  lemma {:induction false} HappeningsAreOps(env: Env, v: Ledger, hs: seq<Happening>, top: nat)
    requires env.Sums() && After(env, v, hs).Some? && Rising(hs, top)
    ensures var ops := OpsIn(env, v, hs);
            && Outbound.Runs(v.outbound, ops, 0)
            && Outbound.UpTo(ops, top)
            && After(env, v, hs).value.outbound == Outbound.After(v.outbound, ops)
  {
    hide Apply, OpsOf, Outbound.Allowed, Outbound.Do;
    if hs != [] {
      var before := hs[..|hs| - 1];
      var v' := After(env, v, before).value;
      match hs[|hs| - 1] {
        case Ran(tx, miner, height) =>
          assert Rising(before, height);
          HappeningsAreOps(env, v, before, height);
          ApplyIsOps(env, v', tx, miner, height);
          var ops, last := OpsIn(env, v, before), OpsOf(env, v', tx, height);
          if last == [] {
            assert ops + [] == ops;
          } else {
            assert last == [last[0]];
            Outbound.RunsSnoc(v.outbound, ops, 0, height, last[0]);
          }
        case Minted(to, amount) =>
          HappeningsAreOps(env, v, before, top);
          assert OpsIn(env, v, before) + [] == OpsIn(env, v, before);
      }
    }
  }

  lemma {:induction false} PathRises(g: Genesis, r: Rules<Ledger>, path: seq<Entry<Ledger>>)
    requires StepShape(r) && FromGenesis(r, path)
    ensures Rising(OfPath(g, path), |path| - 1)
  {
    hide StepShape, BlockRewardAt;
    if |path| > 1 {
      PrefixFromGenesis(r, path);
      PathRises(g, r, path[..|path| - 1]);
      PathHeights(r, path, |path| - 1);
    }
  }

  /**
   * On every chain from an empty outbound ledger: at every height H the bot-only returns paid in
   * (H - window, H] stay within the cap, no receipt is paid twice, and returns never exceed burns.
   */
  lemma {:induction false} ReturnsAreCapped(c: Crypto, g: Genesis, r: Rules<Ledger>, path: seq<Entry<Ledger>>, H: int)
    requires r == Native(c, g, r.genesis, r.maxReorgDepth, r.maxOrphans)
    requires c.env.Sums() && NoCollisions(c) && GenesisEntry(c, r.genesis) && FromGenesis(r, path)
    requires r.genesis.state.outbound == Outbound.EMPTY
    ensures var ops := OpsIn(c.env, r.genesis.state, OfPath(g, path));
            && path[|path| - 1].state.outbound == Outbound.After(Outbound.EMPTY, ops)
            && Outbound.Within(Outbound.BotHistory(ops), H) <= Outbound.BOT_RETURN_CAP
            && (forall i, j :: 0 <= i < j < |Outbound.KeysPaid(ops)| ==>
               Outbound.KeysPaid(ops)[i] != Outbound.KeysPaid(ops)[j])
            && Outbound.Balanced(path[|path| - 1].state.outbound)
  {
    hide Step, After, OfPath, OpsIn, NoCollisions, Lawful, Rising;
    NativeShape(c, g, r.genesis, r.maxReorgDepth, r.maxOrphans);
    PathIsHappening(c, g, r, path);
    PathRises(g, r, path);
    var ops := OpsIn(c.env, r.genesis.state, OfPath(g, path));
    HappeningsAreOps(c.env, r.genesis.state, OfPath(g, path), |path| - 1);
    Outbound.ReturnsNeverExceedBurns(Outbound.EMPTY, ops, 0);
    Outbound.RollingCap(Outbound.EMPTY, ops, 0, []);
    assert [] + Outbound.BotHistory(ops) == Outbound.BotHistory(ops);
  }

  // ------------------------------------------------------------- after any run

  /**
   * A node running on native blocks, after any history of deliveries, refusals and reorganisations: its live
   * state conserves MOLI, its books are sound, and every right is spent exactly as its own chain used it.
   */
  lemma {:induction false} LiveStateIsSound(
    c: Crypto, g: Genesis, r: Rules<Ledger>, n: Runs.Node<Ledger>, evs: seq<Runs.Event<Ledger>>,
    right: Rights.Right, k: Key, H: int)
    requires r == Native(c, g, r.genesis, r.maxReorgDepth, r.maxOrphans)
    requires c.env.Sums() && NoCollisions(c) && GenesisEntry(c, r.genesis)
    requires BooksSound(r.genesis.state) && !Rights.IsSpent(r.genesis.state, right)
    requires Inv(r, n.tree) && Runs.Possible(r, n, evs)
    ensures var t := Runs.Run(r, n, evs).tree;
            && FromGenesis(r, t.canonical) && t.state == t.Head().state
            && A.Supply(t.state.accounts) + (t.state.outbound.burned - t.state.outbound.returned)
               + ChargesOn(t.canonical) ==
               Conservation.Everywhere(r.genesis.state) + RewardsTo(g, |t.canonical| - 1)
            && BooksSound(t.state)
            && Uses(c.env, r.genesis.state, OfPath(g, t.canonical), right) ==
               (if Rights.IsSpent(t.state, right) then 1 else 0)
            && t.state.Expressions(k) == r.genesis.state.Expressions(k) +
               Expressed(c.env, r.genesis.state, OfPath(g, t.canonical), k)
            && (r.genesis.state.outbound == Outbound.EMPTY ==>
                  Outbound.Within(Outbound.BotHistory(OpsIn(c.env, r.genesis.state, OfPath(g, t.canonical))), H) <=
                  Outbound.BOT_RETURN_CAP)
  {
    hide NoCollisions, Lawful, Connected, AllKnown, BooksAgree, Linked, ChargesOn, RewardsTo, Conservation.Everywhere,
         A.Supply;
    hide BooksSound, Uses, OfPath, Rights.IsSpent, Runs.Run, Runs.Possible, Native, Expressed, OpsIn;
    hide Outbound.Within, Outbound.BotHistory, Outbound.KeysPaid, Outbound.After, Outbound.Balanced;
    NativeIsLawful(c, g, r.genesis, r.maxReorgDepth, r.maxOrphans);
    Runs.RunIsSafe(r, n, evs);
    var t := Runs.Run(r, n, evs).tree;
    MoliIsConserved(c, g, r, t.canonical);
    BooksStaySound(c, g, r, t.canonical);
    RightsAreUsedOnce(c, g, r, t, right);
    CappedOnTheChain(c, g, r, t, k);
    if r.genesis.state.outbound == Outbound.EMPTY { ReturnsAreCapped(c, g, r, t.canonical, H); }
  }
}
