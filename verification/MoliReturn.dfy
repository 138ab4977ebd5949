/** Reading MOLI returns out of a proved Ethereum receipt (src/molireturn.js:208-246). */
module MoliReturn {
  import opened Common
  import opened Types
  import Outbound
  import Transition
  import Trie

  const BMOLI_CONTRACT: Address := 0xa302877efb74f567f3605851194b46f1d5746822
  const TRANSFER_TOPIC: Hash := 0xddf252ad1be2c89b69c2b068fc378daa952ba7f163c4a11628f55a4df523b3ef

  datatype Log = Log(address: Address, topics: seq<Hash>, amount: nat)

  datatype Receipt = Receipt(status: nat, logs: seq<Log>)

  /** A 32-byte word as an address: its low 20 bytes. */
  function TopicToAddress(topic: Hash): Address { topic % 0x1_0000000000_0000000000_0000000000_0000000000 }

  /** A positive bMOLI transfer into the return vault. */
  predicate IsReturn(log: Log, vault: Address) {
    && log.address == BMOLI_CONTRACT
    && |log.topics| >= 3
    && log.topics[0] == TRANSFER_TOPIC
    && TopicToAddress(log.topics[2]) == vault
    && log.amount > 0
  }

  function Sender(log: Log): Address
    requires |log.topics| >= 2
  {
    TopicToAddress(log.topics[1])
  }

  /** What one sender sent to the vault, over all the logs. */
  function SentBy(logs: seq<Log>, vault: Address, a: Address): nat {
    if logs == [] then 0
    else
      var log := logs[|logs| - 1];
      SentBy(logs[..|logs| - 1], vault, a) + if IsReturn(log, vault) && Sender(log) == a then log.amount else 0
  }

  function AllSent(logs: seq<Log>, vault: Address): nat {
    if logs == [] then 0
    else AllSent(logs[..|logs| - 1], vault) + if IsReturn(logs[|logs| - 1], vault) then logs[|logs| - 1].amount else 0
  }

  function BySender(logs: seq<Log>, vault: Address): map<Address, nat> {
    if logs == [] then map[]
    else
      var log := logs[|logs| - 1];
      var before := BySender(logs[..|logs| - 1], vault);
      if !IsReturn(log, vault) then before else before[Sender(log) := Outbound.Get(before, Sender(log)) + log.amount]
  }

  function FoundIn(receipt: Receipt, vault: Address): Option<Transition.Returns> {
    if receipt.status != 1 || BySender(receipt.logs, vault) == map[] then None
    else Some(Transition.Returns(BySender(receipt.logs, vault), AllSent(receipt.logs, vault)))
  }

  /** Every sender is down for exactly what it sent, nobody else is, and the total is the sum. */
  lemma {:induction false} EachSenderIsPaidWhatItSent(logs: seq<Log>, vault: Address)
    ensures Sum(BySender(logs, vault)) == AllSent(logs, vault)
    ensures forall a: Address :: Outbound.Get(BySender(logs, vault), a) == SentBy(logs, vault, a)
    ensures forall a: Address :: a in BySender(logs, vault) <==> SentBy(logs, vault, a) > 0
  {
    if logs != [] {
      var log := logs[|logs| - 1];
      var before := BySender(logs[..|logs| - 1], vault);
      EachSenderIsPaidWhatItSent(logs[..|logs| - 1], vault);
      if IsReturn(log, vault) { SumUpdate(before, Sender(log), Outbound.Get(before, Sender(log)) + log.amount); }
    }
  }

  /** A log of another contract, of another event, to another recipient or of nothing pays nobody anything. */
  lemma {:induction false} ForeignLogsPayNothing(logs: seq<Log>, log: Log, vault: Address, a: Address)
    requires || log.address != 0xa302877efb74f567f3605851194b46f1d5746822 || |log.topics| < 3
             || log.topics[0] != 0xddf252ad1be2c89b69c2b068fc378daa952ba7f163c4a11628f55a4df523b3ef
             || log.topics[2] % ADDRESSES != vault || log.amount == 0
    ensures SentBy(logs + [log], vault, a) == SentBy(logs, vault, a)
    ensures AllSent(logs + [log], vault) == AllSent(logs, vault)
    ensures BySender(logs + [log], vault) == BySender(logs, vault)
  {
    assert (logs + [log])[..|logs|] == logs;
  }

  /** A bMOLI transfer into the vault pays its amount to the address in its second topic, and to nobody else. */
  lemma {:induction false} TransfersPayTheirSender(logs: seq<Log>, log: Log, vault: Address, a: Address)
    requires log.address == 0xa302877efb74f567f3605851194b46f1d5746822 && |log.topics| >= 3
    requires log.topics[0] == 0xddf252ad1be2c89b69c2b068fc378daa952ba7f163c4a11628f55a4df523b3ef
    requires log.topics[2] % ADDRESSES == vault
    ensures SentBy(logs + [log], vault, a) ==
            SentBy(logs, vault, a) + if log.topics[1] % ADDRESSES == a then log.amount else 0
    ensures AllSent(logs + [log], vault) == AllSent(logs, vault) + log.amount
  {
    assert (logs + [log])[..|logs|] == logs;
  }

  /** How many addresses of 20 bytes there are. */
  const ADDRESSES: nat := 1461501637330902918203684832716283019655932542976

  /** A receipt that failed, or that sent the vault nothing, is no return at all. */
  lemma {:induction false} NothingSentIsNoReturn(receipt: Receipt, vault: Address)
    ensures FoundIn(receipt, vault).None? <==> receipt.status != 1 || AllSent(receipt.logs, vault) == 0
  {
    EachSenderIsPaidWhatItSent(receipt.logs, vault);
    var bySender := BySender(receipt.logs, vault);
    if bySender != map[] {
      forall a <- bySender
        ensures bySender[a] > 0
      {
        assert Outbound.Get(bySender, a) == SentBy(receipt.logs, vault, a) > 0;
      }
      SomethingWasSent(bySender);
    } else {
      assert Sum(bySender) == 0;
    }
  }

  /** findReturns: a per-sender map filled log by log. */
  method FindReturns(receipt: Receipt, vault: Address) returns (found: Option<Transition.Returns>)
    ensures found == FoundIn(receipt, vault)
    ensures found.Some? ==> found.value.total == Sum(found.value.bySender) > 0
  {
    if receipt.status != 1 { return None; }
    var bySender: map<Address, nat>, logs := map[], receipt.logs;
    for i := 0 to |logs|
      invariant bySender == BySender(logs[..i], vault)
    {
      assert logs[..i + 1][..i] == logs[..i];
      var log := logs[i];
      if log.address != BMOLI_CONTRACT { continue; }
      if |log.topics| < 3 || log.topics[0] != TRANSFER_TOPIC { continue; }
      if TopicToAddress(log.topics[2]) != vault { continue; }
      if log.amount <= 0 { continue; }
      var from := TopicToAddress(log.topics[1]);
      bySender := bySender[from := (if from in bySender then bySender[from] else 0) + log.amount];
    }
    assert logs[..|logs|] == logs;
    if bySender == map[] { return None; }
    EachSenderIsPaidWhatItSent(logs, vault);
    var total := Outbound.OutboundLedger.Total(bySender);
    SomethingWasSent(bySender);
    return Some(Transition.Returns(bySender, total));
  }

  lemma SomethingWasSent(m: map<Address, nat>)
    requires m != map[] && forall a <- m :: m[a] > 0
    ensures Sum(m) > 0
  {
    var a := Pick(m.Keys);
    SumRemove(m, a);
    SumNonNegative(m - {a});
  }

  // ------------------------------------------------------------- the proof behind a return

  /** How this chain reads Ethereum: the trie's codec, a receipt's bytes, a root's bytes, a position's key. */
  datatype Reader = Reader(
    codec: Trie.Codec, decodeReceipt: Bytes -> Option<Receipt>, rootBytes: Hash -> Bytes, key: nat -> Bytes,
    vault: Address)

  /** proveReturn: verify the receipt's place in the block, then read the returns out of it. */
  function ProveReturn(r: Reader, root: Hash, txIndex: nat, proof: seq<Bytes>): Option<Transition.Returns> {
    match Trie.Verify(r.codec, Some(r.rootBytes(root)), Trie.ToNibbles(r.key(txIndex)), proof)
    case None => None
    case Some(value) =>
      match r.decodeReceipt(value)
      case None => None
      case Some(receipt) => FoundIn(receipt, r.vault)
  }

  /** Against a committed root a proof yields only what the receipt at that very position says, whatever was
      submitted. */
  lemma {:induction false} OnlyRealReturns(
    r: Reader, pairs: seq<(Bytes, Bytes)>, root: Hash, txIndex: nat, proof: seq<Bytes>, value: Bytes)
    requires r.codec.Sound() && pairs != [] && Trie.Assignment(pairs)
    requires Some(r.rootBytes(root)) == Trie.Top(r.codec, Trie.Build(Trie.EntriesOf(pairs)))
    requires ProveReturn(r, root, txIndex, proof).Some?
    requires Trie.Verify(r.codec, Some(r.rootBytes(root)), Trie.ToNibbles(r.key(txIndex)), proof) == Some(value)
    ensures (r.key(txIndex), value) in pairs
    ensures r.decodeReceipt(value).Some? && r.decodeReceipt(value).value.status == 1
    ensures var found := ProveReturn(r, root, txIndex, proof).value;
            forall a: Address :: Outbound.Get(found.bySender, a) ==
              SentBy(r.decodeReceipt(value).value.logs, r.vault, a)
  {
    hide Trie.Build, Trie.Verify, Trie.Top, Trie.ToNibbles, BySender, SentBy;
    Trie.TrieAgrees(r.codec, pairs, r.key(txIndex), value, proof);
    EachSenderIsPaidWhatItSent(r.decodeReceipt(value).value.logs, r.vault);
  }

  /** So the transition's proof checker, read this way, always reports totals that are sums. */
  lemma ReadingSums(r: Reader, tokenId: (Address, string, nat) -> TokenId, valid: (Hash, nat, nat, nat) -> bool)
    ensures Transition.Env(tokenId, valid,
            (root: Hash, i: nat, proof: seq<Bytes>) => ProveReturn(r, root, i, proof)).Sums()
  {
    forall root: Hash, i: nat, proof: seq<Bytes> | ProveReturn(r, root, i, proof).Some?
      ensures ProveReturn(r, root, i, proof).value.total == Sum(ProveReturn(r, root, i, proof).value.bySender)
    {
      var value := Trie.Verify(r.codec, Some(r.rootBytes(root)), Trie.ToNibbles(r.key(i)), proof).value;
      EachSenderIsPaidWhatItSent(r.decodeReceipt(value).value.logs, r.vault);
    }
  }
}
