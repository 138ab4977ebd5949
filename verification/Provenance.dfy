/** Where what a chain holds comes from: openings, signatures, proofs (src/state.js:530-545, 655-680, 844-871). */
module Provenance {
  import opened Common
  import opened Types
  import Inbound
  import Outbound
  import Conservation
  import Tokens
  import Rights
  import opened Transition
  import opened BlockTree
  import opened Blocks
  import opened NativeRules
  import opened History

  // ------------------------------------------------------------- places and credentials

  /** A place once open keeps its key, its opener and its height; a new one is what its opening says. */
  lemma {:induction false} PlacesStand(env: Env, v: Ledger, tx: Tx, miner: Address, height: nat, p: Hash)
    requires Apply(env, v, tx, miner, height).Some?
    ensures var polls := Apply(env, v, tx, miner, height).value.polls;
            && (p in v.polls ==> p in polls && polls[p] == v.polls[p])
            && (p in polls && p !in v.polls ==>
                  && tx.payload.PollOpen? && tx.payload.pollId == p && tx.value == 0
                  && polls[p] == Poll(tx.from, tx.payload.n, tx.payload.e, height)
                  && tx.payload.n >= Pow2(2039) && tx.payload.n % 2 == 1
                  && tx.payload.e >= 3 && tx.payload.e % 2 == 1)
  {
    hide CommitOf, BaseChecks, AccountsAfter, InboundAfter, IssueChecks, TransferChecks, ExpressChecks, ReturnChecks;
    hide OutboundAfter, TokensAfter, HoldingsAfter, Pow2;
  }

  /** A serial is spent by its credential alone, and the signature on it is valid under the key of its place. */
  lemma {:induction false} SerialNeedsSignature(env: Env, v: Ledger, tx: Tx, miner: Address, height: nat, s: Serial)
    requires Apply(env, v, tx, miner, height).Some?
    requires s in Apply(env, v, tx, miner, height).value.spentSerials && s !in v.spentSerials
    ensures tx.payload.Credential? && tx.payload.pollId == s.pollId && tx.payload.serial == s.serial
    ensures tx.value == 0 && tx.to == Some(tx.from)
    ensures s.pollId in v.polls
    ensures env.credentialValid(s.serial, tx.payload.signature, v.polls[s.pollId].n, v.polls[s.pollId].e)
  {
    hide CommitOf, BaseChecks, AccountsAfter, InboundAfter, IssueChecks, TransferChecks, ExpressChecks, ReturnChecks;
    hide OutboundAfter, TokensAfter, HoldingsAfter;
  }

  // ------------------------------------------------------------- what a transaction that applied tells

  /** No bridge authority ever sends, and what a sender pays for is within the gas it allowed. */
  lemma {:induction false} SendersAreOrdinary(env: Env, v: Ledger, tx: Tx, miner: Address, height: nat)
    requires Apply(env, v, tx, miner, height).Some?
    ensures forall id <- v.inbound.assets :: v.inbound.assets[id].authority != tx.from
    ensures 21_000 + 4 * tx.zeroBytes + 16 * tx.nonZeroBytes <= tx.gasLimit
    ensures Fee(tx) == (21_000 + 4 * tx.zeroBytes + 16 * tx.nonZeroBytes) * tx.gasPrice
    ensures Fee(tx) + tx.value <= v.Balance(tx.from)
  {
    hide CommitOf, AccountsAfter, InboundAfter, IssueChecks, TransferChecks, ExpressChecks, ReturnChecks, OutboundAfter;
  }

  /** Creating a token destroys a thousandth of a MOLI, issuing a millionth, from the flag day on; nothing else does. */
  lemma {:induction false} PublishingCosts(env: Env, v: Ledger, tx: Tx, miner: Address, height: nat)
    requires env.Sums() && Apply(env, v, tx, miner, height).Some?
    ensures Conservation.Everywhere(v) - Conservation.Everywhere(Apply(env, v, tx, miner, height).value) ==
            if height < 80_000 then 0
            else if tx.payload.TokenCreate? then 1_000_000_000_000_000
            else if tx.payload.TokenIssue? then 1_000_000_000_000
            else 0
  {
    hide Apply, Conservation.Everywhere;
    Conservation.ApplyConserves(env, v, tx, miner, height);
  }

  /** Once a wallet expressed with a token of one expression each, no other expression of it with that token applies. */
  lemma {:induction false} SingleSpeaksOnce(
    env: Env, v: Ledger, a: Tx, miner: Address, height: nat, v': Ledger, b: Tx, miner': Address, height': nat)
    requires a.payload.Express? && b.payload.Express? && a.from == b.from && a.payload.tokenId == b.payload.tokenId
    requires var id := a.payload.tokenId;
             && id in v.tokens && v.tokens[id].spec.voteMode.Single?
             && id in v'.tokens && v'.tokens[id].spec.voteMode.Single?
    requires Apply(env, v, a, miner, height).Some?
    requires Apply(env, v, a, miner, height).value.voteKeys <= v'.voteKeys
    ensures Apply(env, v', b, miner', height').None?
  {
    hide CommitOf, BaseChecks, AccountsAfter, InboundAfter, IssueChecks, TransferChecks, ReturnChecks, OutboundAfter;
    var voice := Rights.Voice(Key(a.from, a.payload.tokenId));
    Rights.ApplyExercises(env, v, a, miner, height, voice);
    if Apply(env, v', b, miner', height').Some? { Rights.ApplyExercises(env, v', b, miner', height', voice); }
  }

  /** A voice is used only by the wallet it belongs to, and speaking on one poll leaves the others free. */
  lemma {:induction false} VoicesAreOwn(env: Env, v: Ledger, tx: Tx, miner: Address, height: nat, k: Key)
    requires Apply(env, v, tx, miner, height).Some?
    ensures k in v.voteKeys ==> k in Apply(env, v, tx, miner, height).value.voteKeys
    ensures k in Apply(env, v, tx, miner, height).value.voteKeys && k !in v.voteKeys ==>
              && k.who == tx.from
              && (|| (tx.payload.Vote? && k.scope == tx.payload.pollId)
                  || (tx.payload.Express? && tx.payload.tokenId in v.tokens &&
                      k.scope == if v.tokens[tx.payload.tokenId].spec.voteMode.Quantum? then tx.payload.pollId
                                 else tx.payload.tokenId))
  {
    hide CommitOf, BaseChecks, AccountsAfter, InboundAfter, IssueChecks, TransferChecks, ReturnChecks, OutboundAfter;
  }

  /** What applied is on record: a vote, an opening, a credential, a token, a root. */
  lemma {:induction false} WhatAppliedIsRecorded(env: Env, v: Ledger, tx: Tx, miner: Address, height: nat)
    requires Apply(env, v, tx, miner, height).Some?
    ensures var p, v' := tx.payload, Apply(env, v, tx, miner, height).value;
            && (p.Vote? ==> Key(tx.from, p.pollId) in v'.voteKeys)
            && (p.PollOpen? ==> p.pollId in v'.polls && v'.polls[p.pollId] == Poll(tx.from, p.n, p.e, height))
            && (p.Credential? ==> Serial(p.pollId, p.serial) in v'.spentSerials)
            && (p.TokenCreate? ==> env.tokenId(tx.from, p.spec.title, height) in v'.tokens)
            && (p.TokenIssue? ==>
                  p.tokenId in v'.tokens && v'.tokens[p.tokenId].minted == v.tokens[p.tokenId].minted + p.amount)
            && (p.Express? ==>
                  && p.tokenId in v'.tokens
                  && v'.tokens[p.tokenId].expressions == v.tokens[p.tokenId].expressions + 1
                  && v'.tokens[p.tokenId].burned == v.tokens[p.tokenId].burned + p.amount)
            && (p.HeaderCommit? ==>
                  && Inbound.HeaderKey(p.chainId, p.ethBlock) in v'.inbound.headers
                  && v'.inbound.headers[Inbound.HeaderKey(p.chainId, p.ethBlock)].receiptsRoot == p.receiptsRoot)
  {
    hide BaseChecks, AccountsAfter, OutboundAfter, HoldingsAfter, ReturnChecks, WellFormedSpec;
  }

  /** And nothing else is: each part of the state is touched by its own payloads alone. */
  lemma {:induction false} NothingElseIsTouched(env: Env, v: Ledger, tx: Tx, miner: Address, height: nat)
    requires Apply(env, v, tx, miner, height).Some?
    ensures var p, v' := tx.payload, Apply(env, v, tx, miner, height).value;
            && (!p.Vote? && !p.Express? ==> v'.voteKeys == v.voteKeys) && (!p.PollOpen? ==> v'.polls == v.polls)
            && (!p.Credential? ==> v'.spentSerials == v.spentSerials) && v.spentSerials <= v'.spentSerials
            && (!p.TokenCreate? && !p.TokenIssue? && !p.Express? ==> v'.tokens == v.tokens)
            && (!p.TokenCreate? && !p.TokenIssue? && !p.TokenTransfer? && !p.Express? ==> v'.holdings == v.holdings)
            && (!p.Express? ==> v'.expressCounts == v.expressCounts)
            && (!p.HeaderCommit? ==> v'.inbound == v.inbound) && v'.inbound.assets == v.inbound.assets
            && v'.inbound.claimed == v.inbound.claimed
            && (!p.MoliBurn? && !p.MoliReturn? ==> v'.outbound == v.outbound)
  {
    hide BaseChecks, AccountsAfter, ReturnChecks, IssueChecks, TransferChecks, ExpressChecks, WellFormedSpec;
  }

  /** A burn is down for the recipient it names, a return for the senders proved, and nobody else's line moves. */
  lemma {:induction false} BridgeLinesMove(env: Env, v: Ledger, tx: Tx, miner: Address, height: nat, a: Address)
    requires Apply(env, v, tx, miner, height).Some?
    ensures var p, out, out' := tx.payload, v.outbound, Apply(env, v, tx, miner, height).value.outbound;
            && Outbound.Get(out'.byRecipient, a) == Outbound.Get(out.byRecipient, a) +
               (if p.MoliBurn? && height >= 80_000 && a == p.recipient then p.amount else 0)
            && Outbound.Get(out'.returnedTo, a) == Outbound.Get(out.returnedTo, a) +
               (if p.MoliReturn? && height >= 118_000 then Conservation.Returned(env, v, tx, height, a) else 0)
            && out'.burned == out.burned + (if p.MoliBurn? && height >= 80_000 then p.amount else 0)
  {
    hide BaseChecks, AccountsAfter, IssueChecks, TransferChecks, ExpressChecks, WellFormedSpec, CommitOf;
    hide TokensAfter, HoldingsAfter, InboundAfter;
  }

  // ------------------------------------------------------------- tokens

  /** A new token is its creator's, holds what was declared for it, and keeps the rules of its kind. */
  lemma {:induction false} NewTokensAreLawful(env: Env, v: Ledger, tx: Tx, miner: Address, height: nat, id: TokenId)
    requires Apply(env, v, tx, miner, height).Some?
    requires id in Apply(env, v, tx, miner, height).value.tokens && id !in v.tokens
    ensures tx.payload.TokenCreate? && id == env.tokenId(tx.from, tx.payload.spec.title, height)
    ensures Apply(env, v, tx, miner, height).value.tokens[id] ==
            Token(tx.payload.spec, tx.from, tx.payload.spec.initialSupply, 0, 0)
    ensures var s := tx.payload.spec;
            && 0 < |s.title| <= 200 && s.initialSupply >= 0 && s.maxSupply >= 0
            && (s.maxSupply > 0 ==> s.initialSupply <= s.maxSupply)
            && (s.isExpression <==> !s.voteMode.NoMode?) && (s.isExpression ==> s.expressionCost > 0)
            && (!s.isExpression ==> s.expressionCost == 0) && (s.voteMode.Capped? ==> s.cap >= 1)
            && !(s.restrictedPurpose && s.transferable)
            && (s.isExpression ==> s.issuable || s.transferable) && (!s.issuable ==> s.initialSupply > 0)
  {
    hide CommitOf, BaseChecks, AccountsAfter, InboundAfter, ReturnChecks, OutboundAfter, HoldingsAfter;
  }

  /** More of a token is only ever made by its creator, if it may be issued, and within its maximum. */
  lemma {:induction false} OnlyCreatorsIssue(env: Env, v: Ledger, tx: Tx, miner: Address, height: nat, id: TokenId)
    requires Apply(env, v, tx, miner, height).Some? && id in v.tokens
    ensures var t, t' := v.tokens[id], Apply(env, v, tx, miner, height).value.tokens[id];
            t'.minted != t.minted ==>
              && tx.payload == TokenIssue(id, t'.minted - t.minted) && tx.from == t.creator && t.spec.issuable
              && t'.minted > t.minted && (t.spec.maxSupply > 0 ==> t'.minted <= t.spec.maxSupply)
  {
    hide CommitOf, BaseChecks, AccountsAfter, InboundAfter, ReturnChecks, OutboundAfter, HoldingsAfter;
  }

  /** Units leave a wallet only by its own transaction, never more than it holds: handed on where that is allowed,
      or spent by an expression at the price on record. */
  lemma {:induction false} OnlyOwnUnitsGo(
    env: Env, v: Ledger, tx: Tx, miner: Address, height: nat, id: TokenId, a: Address)
    requires Tokens.Sound(v) && Apply(env, v, tx, miner, height).Some?
    requires Apply(env, v, tx, miner, height).value.Held(id, a) < v.Held(id, a)
    ensures tx.from == a && Apply(env, v, tx, miner, height).value.Held(id, a) >= 0 && id in v.tokens
    ensures var gone, s := v.Held(id, a) - Apply(env, v, tx, miner, height).value.Held(id, a), v.tokens[id].spec;
            || (tx.payload == TokenTransfer(id, gone) && s.transferable)
            || (tx.payload.Express? && tx.payload.tokenId == id
                && if s.voteMode.Weighted? then gone == tx.payload.amount >= s.expressionCost
                   else gone == tx.payload.amount == s.expressionCost)
  {
    hide CommitOf, BaseChecks, AccountsAfter, InboundAfter, ReturnChecks, OutboundAfter, WellFormedSpec, Tokens.Sound;
    Tokens.EveryHoldingIsAccountedFor(env, v, tx, miner, height, id, a);
    HoldersAreKnown(v, id, a);
  }

  lemma HoldersAreKnown(v: Ledger, id: TokenId, a: Address)
    requires Tokens.Sound(v)
    ensures v.Held(id, a) >= 0 && (v.Held(id, a) > 0 ==> id in v.tokens)
  {
  }

  // ------------------------------------------------------------- roots and returns

  /** A header on record stands, or is what a commit of this transaction says, signed by its sender. */
  lemma {:induction false} HeadersStand(
    env: Env, v: Ledger, tx: Tx, miner: Address, height: nat, key: Inbound.HeaderKey)
    requires Apply(env, v, tx, miner, height).Some?
    ensures var headers, headers' := v.inbound.headers, Apply(env, v, tx, miner, height).value.inbound.headers;
            key in headers' ==>
              || (key in headers && headers'[key] == headers[key])
              || (tx.payload == HeaderCommit(key.chain, key.number, headers'[key].receiptsRoot)
                  && headers'[key].committer == tx.from)
  {
    hide BaseChecks, AccountsAfter, IssueChecks, TransferChecks, ExpressChecks, ReturnChecks, OutboundAfter;
    hide TokensAfter, HoldingsAfter;
  }

  /** A receipt is paid by a return proved against a root on record that the authority, or later the bot, put there. */
  lemma {:induction false} ReturnsAreProved(
    env: Env, v: Ledger, tx: Tx, miner: Address, height: nat, k: Outbound.ReturnKey)
    requires Apply(env, v, tx, miner, height).Some?
    requires k in Apply(env, v, tx, miner, height).value.outbound.returnKeys && k !in v.outbound.returnKeys
    ensures tx.payload.MoliReturn? && tx.payload.ethBlock == k.ethBlock && tx.payload.txIndex == k.txIndex
    ensures var key := Inbound.HeaderKey(1, k.ethBlock);
            && key in v.inbound.headers
            && (|| v.inbound.headers[key].committer == 0xf51ac8fd4112bf1d45fd5c38d5abfe0c61ec3f5a
                || (height >= 146_000
                    && v.inbound.headers[key].committer == 0xd30cb4d5bd928313d0b50908b1f6dc3bfbe61dcf))
            && var found := env.proveReturn(v.inbound.headers[key].receiptsRoot, k.txIndex, tx.payload.proof);
               && found.Some? && height >= 118_000
               && Apply(env, v, tx, miner, height).value.outbound.returned == v.outbound.returned + found.value.total
               && found.value.total <= v.outbound.burned - v.outbound.returned
  {
    hide BaseChecks, AccountsAfter, IssueChecks, TransferChecks, ExpressChecks, InboundAfter;
    hide TokensAfter, HoldingsAfter;
  }

  // ------------------------------------------------------------- credentials, over a history

  /** In a history, transaction `j` opened a place with this key. */
  ghost predicate OpenedAt(hs: seq<Happening>, j: nat, p: Hash, n: nat, e: nat) {
    j < |hs| && hs[j].Ran? && hs[j].tx.payload == PollOpen(p, n, e)
  }

  /** The key of a place comes from genesis or from its opening. */
  ghost predicate KeyOf(v: Ledger, hs: seq<Happening>, p: Hash, n: nat, e: nat) {
    || (p in v.polls && v.polls[p].n == n && v.polls[p].e == e)
    || exists j: nat :: OpenedAt(hs, j, p, n, e)
  }

  /** In a history, transaction `i` spent a serial with a signature valid under the key its place had before it. */
  ghost predicate SignedAt(env: Env, v: Ledger, hs: seq<Happening>, i: nat, s: Serial) {
    && i < |hs| && hs[i].Ran? && hs[i].tx.payload.Credential?
    && hs[i].tx.payload.pollId == s.pollId && hs[i].tx.payload.serial == s.serial
    && exists n: nat, e: nat ::
         env.credentialValid(s.serial, hs[i].tx.payload.signature, n, e) && KeyOf(v, hs[..i], s.pollId, n, e)
  }

  lemma {:induction false} PlacesWereOpened(env: Env, v: Ledger, hs: seq<Happening>, p: Hash)
    requires After(env, v, hs).Some?
    ensures p in v.polls ==> p in After(env, v, hs).value.polls && After(env, v, hs).value.polls[p] == v.polls[p]
    ensures p in After(env, v, hs).value.polls ==>
              KeyOf(v, hs, p, After(env, v, hs).value.polls[p].n, After(env, v, hs).value.polls[p].e)
    decreases |hs|
  {
    hide Apply;
    if hs != [] {
      var before, last := hs[..|hs| - 1], hs[|hs| - 1];
      var v' := After(env, v, before).value;
      PlacesWereOpened(env, v, before, p);
      if last.Ran? { PlacesStand(env, v', last.tx, last.miner, last.height, p); }
      if p in v'.polls {
        LaterKey(v, before, hs, p, v'.polls[p].n, v'.polls[p].e);
      } else if p in After(env, v, hs).value.polls {
        assert OpenedAt(hs, |hs| - 1, p, last.tx.payload.n, last.tx.payload.e);
      }
    }
  }

  lemma LaterKey(v: Ledger, before: seq<Happening>, hs: seq<Happening>, p: Hash, n: nat, e: nat)
    requires KeyOf(v, before, p, n, e) && before <= hs
    ensures KeyOf(v, hs, p, n, e)
  {
    if j: nat :| OpenedAt(before, j, p, n, e) { assert OpenedAt(hs, j, p, n, e); }
  }

  /**
   * On any history: every serial spent there was spent by a credential with a valid signature under the key that
   * its place was opened with, in genesis or by an opening earlier in the same history.
   */
  lemma {:induction false} CredentialsAreSigned(env: Env, v: Ledger, hs: seq<Happening>, s: Serial)
    requires After(env, v, hs).Some? && s in After(env, v, hs).value.spentSerials && s !in v.spentSerials
    ensures exists i: nat :: SignedAt(env, v, hs, i, s)
    decreases |hs|
  {
    hide Apply, KeyOf;
    if hs != [] {
      var before, last := hs[..|hs| - 1], hs[|hs| - 1];
      var v' := After(env, v, before).value;
      if s in v'.spentSerials {
        CredentialsAreSigned(env, v, before, s);
        var i: nat :| SignedAt(env, v, before, i, s);
        assert hs[..i] == before[..i];
        assert SignedAt(env, v, hs, i, s);
      } else {
        SerialNeedsSignature(env, v', last.tx, last.miner, last.height, s);
        PlacesWereOpened(env, v, before, s.pollId);
        assert SignedAt(env, v, hs, |hs| - 1, s);
      }
    }
  }

  /** So on the canonical chain of any tree. */
  lemma {:induction false} CredentialsOnTheChain(
    c: Crypto, g: Genesis, r: Rules<Ledger>, t: Tree<Ledger>, s: Serial)
    requires r == Native(c, g, r.genesis, r.maxReorgDepth, r.maxOrphans) && Core(r, t)
    requires s in t.state.spentSerials && s !in r.genesis.state.spentSerials
    ensures exists i: nat :: SignedAt(c.env, r.genesis.state, OfPath(g, t.canonical), i, s)
  {
    hide Step, After, OfPath, Connected, AllKnown, BooksAgree, SignedAt;
    PathIsHappening(c, g, r, t.canonical);
    CredentialsAreSigned(c.env, r.genesis.state, OfPath(g, t.canonical), s);
  }

  // ------------------------------------------------------------- returns, over a history

  /** In a history, transaction `j` committed this root for this header, signed by this committer. */
  ghost predicate CommittedAt(hs: seq<Happening>, j: nat, key: Inbound.HeaderKey, root: Hash, committer: Address) {
    && j < |hs| && hs[j].Ran? && hs[j].tx.from == committer
    && hs[j].tx.payload == HeaderCommit(key.chain, key.number, root)
  }

  ghost predicate RootFrom(v: Ledger, hs: seq<Happening>, key: Inbound.HeaderKey, root: Hash, committer: Address) {
    || (key in v.inbound.headers && v.inbound.headers[key].receiptsRoot == root
        && v.inbound.headers[key].committer == committer)
    || exists j: nat :: CommittedAt(hs, j, key, root, committer)
  }

  /** In a history, transaction `i` was paid a receipt proved against a root that a trusted committer had put there. */
  ghost predicate ProvedAt(env: Env, v: Ledger, hs: seq<Happening>, i: nat, k: Outbound.ReturnKey) {
    && i < |hs| && hs[i].Ran? && hs[i].tx.payload.MoliReturn?
    && hs[i].tx.payload.ethBlock == k.ethBlock && hs[i].tx.payload.txIndex == k.txIndex
    && exists root: Hash, committer: Address ::
         && RootFrom(v, hs[..i], Inbound.HeaderKey(1, k.ethBlock), root, committer)
         && (committer == ETH_HEADER_AUTHORITY || committer == ETH_HEADER_BOT)
         && env.proveReturn(root, k.txIndex, hs[i].tx.payload.proof).Some?
  }

  lemma {:induction false} RootsWereCommitted(env: Env, v: Ledger, hs: seq<Happening>, key: Inbound.HeaderKey)
    requires After(env, v, hs).Some? && key in After(env, v, hs).value.inbound.headers
    ensures var rec := After(env, v, hs).value.inbound.headers[key];
            RootFrom(v, hs, key, rec.receiptsRoot, rec.committer)
    decreases |hs|
  {
    hide Apply;
    if hs != [] {
      var before, last := hs[..|hs| - 1], hs[|hs| - 1];
      var v' := After(env, v, before).value;
      var rec := After(env, v, hs).value.inbound.headers[key];
      if last.Ran? { HeadersStand(env, v', last.tx, last.miner, last.height, key); }
      if key in v'.inbound.headers && v'.inbound.headers[key] == rec {
        RootsWereCommitted(env, v, before, key);
        LaterRoot(v, before, hs, key, rec.receiptsRoot, rec.committer);
      } else {
        assert CommittedAt(hs, |hs| - 1, key, rec.receiptsRoot, rec.committer);
      }
    }
  }

  lemma LaterRoot(
    v: Ledger, before: seq<Happening>, hs: seq<Happening>, key: Inbound.HeaderKey, root: Hash, committer: Address)
    requires RootFrom(v, before, key, root, committer) && before <= hs
    ensures RootFrom(v, hs, key, root, committer)
  {
    if j: nat :| CommittedAt(before, j, key, root, committer) { assert CommittedAt(hs, j, key, root, committer); }
  }

  /**
   * On any history: every receipt paid there was proved against a root that the authority or the bot had committed,
   * in genesis or by a transaction earlier in the same history.
   */
  lemma {:induction false} ReturnsWereProved(env: Env, v: Ledger, hs: seq<Happening>, k: Outbound.ReturnKey)
    requires After(env, v, hs).Some? && k in After(env, v, hs).value.outbound.returnKeys
    requires k !in v.outbound.returnKeys
    ensures exists i: nat :: ProvedAt(env, v, hs, i, k)
    decreases |hs|
  {
    hide Apply, RootFrom;
    if hs != [] {
      var before, last := hs[..|hs| - 1], hs[|hs| - 1];
      var v' := After(env, v, before).value;
      if k in v'.outbound.returnKeys {
        ReturnsWereProved(env, v, before, k);
        var i: nat :| ProvedAt(env, v, before, i, k);
        assert hs[..i] == before[..i];
        assert ProvedAt(env, v, hs, i, k);
      } else {
        ReturnsAreProved(env, v', last.tx, last.miner, last.height, k);
        RootsWereCommitted(env, v, before, Inbound.HeaderKey(1, k.ethBlock));
        assert ProvedAt(env, v, hs, |hs| - 1, k);
      }
    }
  }

  /** So on the canonical chain of any tree. */
  lemma {:induction false} ReturnsOnTheChain(
    c: Crypto, g: Genesis, r: Rules<Ledger>, t: Tree<Ledger>, k: Outbound.ReturnKey)
    requires r == Native(c, g, r.genesis, r.maxReorgDepth, r.maxOrphans) && Core(r, t)
    requires k in t.state.outbound.returnKeys && k !in r.genesis.state.outbound.returnKeys
    ensures exists i: nat :: ProvedAt(c.env, r.genesis.state, OfPath(g, t.canonical), i, k)
  {
    hide Step, After, OfPath, Connected, AllKnown, BooksAgree, ProvedAt;
    PathIsHappening(c, g, r, t.canonical);
    ReturnsWereProved(c.env, r.genesis.state, OfPath(g, t.canonical), k);
  }
}
