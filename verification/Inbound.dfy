/** What may be minted here against what was destroyed there (src/inbound.js). */
module Inbound {
  import opened Common
  import opened Types

  const DELAY_SECONDS: int := 604800
  const MAX_GROWTH_FACTOR: int := 2

  type AssetId = nat

  datatype Pending = Pending(cap: int, effectiveAt: int)

  datatype Asset = Asset(
    originChain: nat, cap: int, minted: int, burnedIn: int, returned: int, pendingCap: Option<Pending>,
    authority: Address, registrar: Option<Address>)

  /** A burn is the origin transaction, whoever claims it: the hash key is injective in both parts. */
  datatype ClaimKey = ClaimKey(originChain: nat, ethTx: Hash)

  datatype HeaderKey = HeaderKey(chain: nat, number: nat)

  datatype HeaderRec = HeaderRec(receiptsRoot: Hash, committer: Address, botRoot: Option<Hash>)

  datatype Tiers = Tiers(operator: Address, bot: Address)

  datatype Ledger = Ledger(assets: map<AssetId, Asset>, claimed: set<ClaimKey>, headers: map<HeaderKey, HeaderRec>)
  {
    /** `None` wherever the source throws; nothing has moved then. */
    function Register(id: AssetId, originChain: nat, cap: int, authority: Address, registrar: Option<Address>,
                      mayEnter: bool)
      : Option<Ledger>
    {
      if !mayEnter || cap <= 0 || id in assets then None
      else Some(this.(assets := assets[id := Asset(originChain, cap, 0, 0, 0, None, authority, registrar)]))
    }

    function LowerCap(id: AssetId, next: int): Option<Ledger> {
      if id !in assets || next >= assets[id].cap || next < assets[id].minted then None
      else Some(this.(assets := assets[id := assets[id].(cap := next, pendingCap := None)]))
    }

    function ProposeCap(id: AssetId, next: int, now: int, maxGrowthFactor: int, delaySeconds: int): Option<Ledger> {
      if id !in assets || next <= assets[id].cap || next > assets[id].cap * maxGrowthFactor then None
      else Some(this.(assets := assets[id := assets[id].(pendingCap := Some(Pending(next, now + delaySeconds)))]))
    }

    function ApplyCap(id: AssetId, now: int): Option<Ledger> {
      if id !in assets || assets[id].pendingCap.None? || now < assets[id].pendingCap.value.effectiveAt then None
      else Some(this.(assets := assets[id := assets[id].(cap := assets[id].pendingCap.value.cap, pendingCap := None)]))
    }

    predicate Claimable(id: AssetId, ethTx: Hash, amount: int) {
      && id in assets && amount > 0
      && ClaimKey(assets[id].originChain, ethTx) !in claimed
      && assets[id].minted + amount <= assets[id].cap
    }

    function Claim(id: AssetId, ethTx: Hash, amount: int): Option<Ledger> {
      if !Claimable(id, ethTx, amount) then None
      else
        var a := assets[id];
        Some(this.(claimed := claimed + {ClaimKey(a.originChain, ethTx)},
                   assets := assets[id := a.(minted := a.minted + amount, burnedIn := a.burnedIn + amount)]))
    }

    function Release(id: AssetId, amount: int): Option<Ledger> {
      if id !in assets || amount <= 0 || amount > assets[id].minted then None
      else
        var a := assets[id];
        Some(this.(assets := assets[id := a.(minted := a.minted - amount, returned := a.returned + amount)]))
    }

    predicate IsAuthority(who: Address) { exists id <- assets :: assets[id].authority == who }

    predicate MayCommit(chain: nat, committer: Address) {
      exists id <- assets :: assets[id].originChain == chain && assets[id].registrar == Some(committer)
    }

    /** Which header stands after a commit, or `None` when it is refused. */
    function CommitHeader(key: HeaderKey, root: Hash, committer: Address, authority: bool, tiers: Option<Tiers>)
        : Option<Ledger> {
      if tiers.Some? then CommitTiered(key, root, committer, tiers.value)
      else if !authority && !MayCommit(key.chain, committer) then None
      else if key in headers then (if headers[key].receiptsRoot == root then Some(this) else None)
      else Some(this.(headers := headers[key := HeaderRec(root, committer, None)]))
    }

    function CommitTiered(key: HeaderKey, root: Hash, committer: Address, tiers: Tiers): Option<Ledger> {
      if committer != tiers.operator && committer != tiers.bot then None
      else if key !in headers then Some(this.(headers := headers[key := HeaderRec(root, committer, None)]))
      else
        var standing := headers[key];
        if committer == tiers.bot then
          (if standing.committer == tiers.bot && standing.receiptsRoot == root then Some(this) else None)
        else if standing.committer == tiers.bot then
          Some(this.(headers := headers[key := HeaderRec(root, tiers.operator, Some(standing.receiptsRoot))]))
        else if standing.receiptsRoot == root then Some(this)
        else None
    }
  }

  const EMPTY: Ledger := Ledger(map[], {}, map[])

  // ------------------------------------------------------------- caps take their time

  /** What may be registered, minted and released, and what it leaves. */
  lemma OperationsAreGuarded(
    l: Ledger, id: AssetId, chain: nat, cap: int, authority: Address, registrar: Option<Address>, mayEnter: bool,
    ethTx: Hash, amount: int)
    ensures l.Register(id, chain, cap, authority, registrar, mayEnter).Some? <==>
            mayEnter && cap >= 1 && id !in l.assets
    ensures l.Claim(id, ethTx, amount).Some? <==>
            && id in l.assets && amount >= 1 && l.assets[id].minted + amount <= l.assets[id].cap
            && ClaimKey(l.assets[id].originChain, ethTx) !in l.claimed
    ensures l.Claim(id, ethTx, amount).Some? ==> l.Claim(id, ethTx, amount).value.Claim(id, ethTx, 1).None?
    ensures l.Release(id, amount).Some? <==> id in l.assets && 1 <= amount <= l.assets[id].minted
  {
  }

  /** Once registered an asset keeps its origin, its authority and its registrar, and every other asset is untouched. */
  lemma AssetsKeepTheirOrigin(l: Ledger, id: AssetId, next: int, now: int, ethTx: Hash, amount: int, other: AssetId)
    requires id in l.assets && other in l.assets
    ensures forall l' | Some(l') == l.LowerCap(id, next) || Some(l') == l.ProposeCap(id, next, now, 2, DELAY_SECONDS)
                        || Some(l') == l.ApplyCap(id, now) || Some(l') == l.Claim(id, ethTx, amount)
                        || Some(l') == l.Release(id, amount) ::
              && l'.headers == l.headers && l'.assets.Keys == l.assets.Keys
              && (other != id ==> l'.assets[other] == l.assets[other])
              && l'.assets[id].originChain == l.assets[id].originChain
              && l'.assets[id].authority == l.assets[id].authority && l'.assets[id].registrar == l.assets[id].registrar
  {
  }

  /** A raise takes effect when its delay is over, not before, and gives exactly the cap proposed. */
  lemma RaiseWaits(l: Ledger, id: AssetId, next: int, now: int, growth: int, delay: int, later: int)
    requires l.ProposeCap(id, next, now, growth, delay).Some?
    ensures l.ProposeCap(id, next + 1, now, growth, delay).Some? <==> next < growth * l.assets[id].cap
    ensures var l' := l.ProposeCap(id, next, now, growth, delay).value;
            && l'.assets[id].cap == l.assets[id].cap < next <= growth * l.assets[id].cap
            && (l'.ApplyCap(id, later).Some? <==> later - now >= delay)
            && (later - now >= delay ==> l'.ApplyCap(id, later).value.assets[id].cap == next)
  {
  }

  /** Once applied a raise is gone, and a lowering takes a raise under way with it: nothing is left to apply. */
  lemma NothingLeftToApply(l: Ledger, id: AssetId, next: int, now: int, later: int)
    ensures l.LowerCap(id, next).Some? <==> id in l.assets && l.assets[id].minted <= next < l.assets[id].cap
    ensures l.ApplyCap(id, now).Some? ==> l.ApplyCap(id, now).value.ApplyCap(id, later).None?
    ensures l.LowerCap(id, next).Some? ==>
              && l.LowerCap(id, next).value.ApplyCap(id, later).None?
              && l.assets[id].minted <= l.LowerCap(id, next).value.assets[id].cap == next < l.assets[id].cap
  {
  }

  // ------------------------------------------------------------- headers are commitments

  /** Only one thing ever changes a committed root: the operator replacing the bot's, with the bot's kept on record. */
  lemma CommitmentsStand(l: Ledger, key: HeaderKey, root: Hash, committer: Address, authority: bool,
                         tiers: Option<Tiers>, k: HeaderKey)
    requires k in l.headers && l.CommitHeader(key, root, committer, authority, tiers).Some?
    requires tiers.Some? ==> tiers.value.operator != tiers.value.bot
    ensures var l' := l.CommitHeader(key, root, committer, authority, tiers).value;
            && k in l'.headers && l'.assets == l.assets && l'.claimed == l.claimed
            && (l'.headers[k] != l.headers[k] ==>
                  && k == key && tiers.Some? && committer == tiers.value.operator
                  && l.headers[k].committer == tiers.value.bot
                  && l'.headers[k] == HeaderRec(root, committer, Some(l.headers[k].receiptsRoot)))
  {
  }

  /** Without tiers a root is taken from an authority or a registrar of that chain, once; it may only be repeated. */
  lemma CommitsWithoutTiers(l: Ledger, key: HeaderKey, root: Hash, committer: Address, authority: bool)
    ensures var named := exists id <- l.assets ::
                           l.assets[id].originChain == key.chain && l.assets[id].registrar == Some(committer);
            l.CommitHeader(key, root, committer, authority, None) ==
            if !authority && !named then None
            else if key !in l.headers then Some(l.(headers := l.headers[key := HeaderRec(root, committer, None)]))
            else if l.headers[key].receiptsRoot == root then Some(l)
            else None
  {
  }

  /** With tiers only operator and bot are heard; the bot never moves a root, the operator moves only the bot's. */
  lemma CommitsWithTiers(l: Ledger, key: HeaderKey, root: Hash, committer: Address, authority: bool, tiers: Tiers)
    requires tiers.operator != tiers.bot
    ensures var next := l.CommitHeader(key, root, committer, authority, Some(tiers));
            && (committer != tiers.operator && committer != tiers.bot ==> next.None?)
            && (key !in l.headers && (committer == tiers.operator || committer == tiers.bot) ==>
                  next == Some(l.(headers := l.headers[key := HeaderRec(root, committer, None)])))
            && (key in l.headers && committer == tiers.bot ==>
                  next == if l.headers[key].committer == tiers.bot && l.headers[key].receiptsRoot == root then Some(l)
                    else None)
            && (key in l.headers && committer == tiers.operator && l.headers[key].committer == tiers.bot ==>
                  next == Some(l.(headers := l.headers[key :=
                    HeaderRec(root, tiers.operator, Some(l.headers[key].receiptsRoot))])))
            && (key in l.headers && committer == tiers.operator && l.headers[key].committer != tiers.bot ==>
                  next == if l.headers[key].receiptsRoot == root then Some(l) else None)
  {
  }

  // ------------------------------------------------------------- runs of the ledger

  datatype Op =
    | Registering(id: AssetId, originChain: nat, cap: int, authority: Address, registrar: Option<Address>,
                  mayEnter: bool)
    | Lowering(id: AssetId, cap: int)
    | Proposing(id: AssetId, cap: int)
    | Applying(id: AssetId)
    | Claiming(id: AssetId, ethTx: Hash, amount: int)
    | Releasing(id: AssetId, amount: int)

  datatype Timed = Timed(op: Op, now: int)

  function Try(l: Ledger, op: Op, now: int): Option<Ledger> {
    match op
    case Registering(id, chain, cap, authority, registrar, mayEnter) =>
      l.Register(id, chain, cap, authority, registrar, mayEnter)
    case Lowering(id, cap) => l.LowerCap(id, cap)
    case Proposing(id, cap) => l.ProposeCap(id, cap, now, MAX_GROWTH_FACTOR, DELAY_SECONDS)
    case Applying(id) => l.ApplyCap(id, now)
    case Claiming(id, ethTx, amount) => l.Claim(id, ethTx, amount)
    case Releasing(id, amount) => l.Release(id, amount)
  }

  datatype Birth = Birth(cap: int, at: int)

  datatype Honoured = Honoured(key: ClaimKey, id: AssetId, amount: int)

  /** The ledger together with what only an observer remembers. */
  datatype World = World(ledger: Ledger, births: map<AssetId, Birth>, claims: seq<Honoured>)

  /** A refused operation throws and changes nothing. */
  function Step(w: World, t: Timed): World {
    match Try(w.ledger, t.op, t.now)
    case None => w
    case Some(l) =>
      World(l,
        if t.op.Registering? then w.births[t.op.id := Birth(t.op.cap, t.now)] else w.births,
        if t.op.Claiming? && t.op.id in l.assets
        then w.claims + [Honoured(ClaimKey(l.assets[t.op.id].originChain, t.op.ethTx), t.op.id, t.op.amount)]
        else w.claims)
  }

  function Run(w: World, ops: seq<Timed>): World
    decreases |ops|
  {
    if ops == [] then w else Run(Step(w, ops[0]), ops[1..])
  }

  ghost predicate ClockFrom(ops: seq<Timed>, start: int)
    decreases |ops|
  {
    ops != [] ==> start <= ops[0].now && ClockFrom(ops[1..], ops[0].now)
  }

  function ClaimedFor(claims: seq<Honoured>, id: AssetId): int {
    if claims == [] then 0
    else
      var c := claims[|claims| - 1];
      ClaimedFor(claims[..|claims| - 1], id) + if c.id == id then c.amount else 0
  }

  /** cap0 doubled once for every full delay since registration. */
  function Ceiling(b: Birth, t: int): int
    requires t >= b.at
  {
    b.cap * Pow2((t - b.at) / DELAY_SECONDS)
  }

  lemma CeilingMonotone(b: Birth, t: int, t': int)
    requires b.at <= t <= t' && b.cap > 0
    ensures Ceiling(b, t) <= Ceiling(b, t')
  {
    Pow2Monotone((t - b.at) / DELAY_SECONDS, (t' - b.at) / DELAY_SECONDS);
  }

  lemma CeilingDoubles(b: Birth, t: int)
    requires b.at <= t
    ensures Ceiling(b, t + DELAY_SECONDS) == 2 * Ceiling(b, t)
  {
    assert (t + DELAY_SECONDS - b.at) / DELAY_SECONDS == (t - b.at) / DELAY_SECONDS + 1;
  }

  /** The bounds on one asset as of a moment. */
  ghost predicate Bounded(a: Asset, b: Birth, now: int) {
    && b.cap > 0 && b.at <= now && a.cap <= Ceiling(b, now)
    && (a.pendingCap.Some? ==>
          var p := a.pendingCap.value;
          b.at <= p.effectiveAt && p.cap <= Ceiling(b, p.effectiveAt) && p.cap > a.cap)
    && 0 <= a.minted <= a.cap && a.minted == a.burnedIn - a.returned
  }

  lemma LaterBounded(a: Asset, b: Birth, now: int, later: int)
    requires Bounded(a, b, now) && now <= later
    ensures Bounded(a, b, later)
  {
    CeilingMonotone(b, now, later);
  }

  /** One successful operation keeps every bound of the asset it touches. */
  lemma TouchedBounded(l: Ledger, b: Birth, op: Op, now: int)
    requires op.id in l.assets && Bounded(l.assets[op.id], b, now) && Try(l, op, now).Some?
    ensures Bounded(Try(l, op, now).value.assets[op.id], b, now)
  {
    match op {
      case Proposing(id, cap) =>
        CeilingDoubles(b, now);
      case Applying(id) =>
        CeilingMonotone(b, l.assets[id].pendingCap.value.effectiveAt, now);
      case _ =>
    }
  }

  lemma ClaimedForAppend(claims: seq<Honoured>, c: Honoured, id: AssetId)
    ensures ClaimedFor(claims + [c], id) == ClaimedFor(claims, id) + if c.id == id then c.amount else 0
  {
    assert (claims + [c])[..|claims|] == claims;
  }

  ghost predicate ClaimsSound(w: World) {
    && (forall id <- w.ledger.assets :: w.ledger.assets[id].burnedIn == ClaimedFor(w.claims, id))
    && (forall i, j :: 0 <= i < j < |w.claims| ==> w.claims[i].key != w.claims[j].key)
    && (forall i :: 0 <= i < |w.claims| ==> w.claims[i].key in w.ledger.claimed)
    && (forall id :: id !in w.ledger.assets ==> ClaimedFor(w.claims, id) == 0)
  }

  lemma StepKeepsClaims(w: World, t: Timed)
    requires ClaimsSound(w)
    ensures ClaimsSound(Step(w, t))
  {
    if t.op.Claiming? && Try(w.ledger, t.op, t.now).Some? {
      var c := Honoured(ClaimKey(w.ledger.assets[t.op.id].originChain, t.op.ethTx), t.op.id, t.op.amount);
      assert Step(w, t).claims == w.claims + [c];
      forall id
        ensures ClaimedFor(w.claims + [c], id) == ClaimedFor(w.claims, id) + if c.id == id then c.amount else 0
      {
        ClaimedForAppend(w.claims, c, id);
      }
    }
  }

  ghost predicate Sound(w: World, now: int) {
    && w.births.Keys == w.ledger.assets.Keys
    && (forall id <- w.ledger.assets :: Bounded(w.ledger.assets[id], w.births[id], now))
    && ClaimsSound(w)
  }

  lemma StepKeepsSound(w: World, now: int, t: Timed)
    requires Sound(w, now) && now <= t.now
    ensures Sound(Step(w, t), t.now)
  {
    StepKeepsClaims(w, t);
    var w' := Step(w, t);
    forall id | id in w'.ledger.assets
      ensures id in w'.births && Bounded(w'.ledger.assets[id], w'.births[id], t.now)
    {
      if id in w.ledger.assets {
        LaterBounded(w.ledger.assets[id], w.births[id], now, t.now);
        if id == t.op.id && Try(w.ledger, t.op, t.now).Some? { TouchedBounded(w.ledger, w.births[id], t.op, t.now); }
      }
    }
  }

  /**
   * Exposure grows only in announced, bounded steps: over any run with a clock that does not go back, and
   * however calls are ordered or refused, an asset's cap is at most its first cap doubled once per full week;
   * what exists is what was burned less what returned, within the cap; and what was burned is the sum of
   * claims no two of which rest on the same origin transaction.
   */
  lemma {:induction false} CapGrowsSlowly(w: World, start: int, ops: seq<Timed>, end: int)
    requires Sound(w, start) && ClockFrom(ops, start) && start <= end
    requires ops != [] ==> ops[|ops| - 1].now <= end
    ensures Sound(Run(w, ops), end)
    decreases |ops|
  {
    if ops == [] {
      forall id | id in w.ledger.assets
        ensures Bounded(w.ledger.assets[id], w.births[id], end)
      {
        LaterBounded(w.ledger.assets[id], w.births[id], start, end);
      }
    } else {
      StepKeepsSound(w, start, ops[0]);
      LastIsLatest(ops, start);
      CapGrowsSlowly(Step(w, ops[0]), ops[0].now, ops[1..], end);
    }
  }

  lemma {:induction false} LastIsLatest(ops: seq<Timed>, start: int)
    requires ops != [] && ClockFrom(ops, start)
    ensures ops[0].now <= ops[|ops| - 1].now
    decreases |ops|
  {
    if |ops| > 1 { LastIsLatest(ops[1..], ops[0].now); }
  }

  lemma EmptyIsSound(now: int)
    ensures Sound(World(EMPTY, map[], []), now)
  {
  }

  /** So from an empty ledger, whatever is tried on it, every bound holds at every moment. */
  lemma {:induction false} CapsAlwaysBounded(start: int, ops: seq<Timed>, end: int)
    requires ClockFrom(ops, start) && start <= end
    requires ops != [] ==> ops[|ops| - 1].now <= end
    ensures Sound(Run(World(EMPTY, map[], []), ops), end)
  {
    hide Sound;
    EmptyIsSound(start);
    CapGrowsSlowly(World(EMPTY, map[], []), start, ops, end);
  }

  // ------------------------------------------------------------- the ledger object

  class InboundLedger {
    var assets: map<AssetId, Asset>
    var claimed: set<ClaimKey>
    var headers: map<HeaderKey, HeaderRec>

    constructor ()
      ensures Contents() == EMPTY
    {
      assets, claimed, headers := map[], {}, map[];
    }

    constructor Copy(l: Ledger)
      ensures Contents() == l
    {
      assets, claimed, headers := l.assets, l.claimed, l.headers;
    }

    function Contents(): Ledger
      reads this
    {
      Ledger(assets, claimed, headers)
    }

    /** A copy that shares nothing: a candidate block must not spend a burn in its parent's state. */
    method Clone() returns (copy: InboundLedger)
      ensures fresh(copy) && copy.Contents() == Contents()
    {
      copy := new InboundLedger.Copy(Contents());
    }

    method Register(id: AssetId, originChain: nat, cap: int, authority: Address, registrar: Option<Address>,
                    mayEnter: bool)
      returns (ok: bool)
      modifies this`assets
      ensures Agrees(ok, old(Contents()),
              old(Contents()).Register(id, originChain, cap, authority, registrar, mayEnter))
    {
      if !mayEnter || cap <= 0 || id in assets { return false; }
      assets := assets[id := Asset(originChain, cap, 0, 0, 0, None, authority, registrar)];
      return true;
    }

    method LowerCap(id: AssetId, next: int) returns (ok: bool)
      modifies this`assets
      ensures Agrees(ok, old(Contents()), old(Contents()).LowerCap(id, next))
    {
      if id !in assets { return false; }
      var a := assets[id];
      if next >= a.cap || next < a.minted { return false; }
      assets := assets[id := a.(cap := next, pendingCap := None)];
      return true;
    }

    method ProposeCap(id: AssetId, next: int, now: int, maxGrowthFactor: int, delaySeconds: int) returns (ok: bool)
      modifies this`assets
      ensures Agrees(ok, old(Contents()), old(Contents()).ProposeCap(id, next, now, maxGrowthFactor, delaySeconds))
    {
      if id !in assets { return false; }
      var a := assets[id];
      if next <= a.cap || next > a.cap * maxGrowthFactor { return false; }
      assets := assets[id := a.(pendingCap := Some(Pending(next, now + delaySeconds)))];
      return true;
    }

    method ApplyCap(id: AssetId, now: int) returns (ok: bool)
      modifies this`assets
      ensures Agrees(ok, old(Contents()), old(Contents()).ApplyCap(id, now))
    {
      if id !in assets { return false; }
      var a := assets[id];
      if a.pendingCap.None? || now < a.pendingCap.value.effectiveAt { return false; }
      assets := assets[id := a.(cap := a.pendingCap.value.cap, pendingCap := None)];
      return true;
    }

    method Claim(id: AssetId, ethTx: Hash, amount: int) returns (ok: bool)
      modifies this`assets, this`claimed
      ensures Agrees(ok, old(Contents()), old(Contents()).Claim(id, ethTx, amount))
    {
      if id !in assets || amount <= 0 { return false; }
      var a := assets[id];
      var key := ClaimKey(a.originChain, ethTx);
      if key in claimed || a.minted + amount > a.cap { return false; }
      claimed := claimed + {key};
      assets := assets[id := a.(minted := a.minted + amount, burnedIn := a.burnedIn + amount)];
      return true;
    }

    method Release(id: AssetId, amount: int) returns (ok: bool)
      modifies this`assets
      ensures Agrees(ok, old(Contents()), old(Contents()).Release(id, amount))
    {
      if id !in assets || amount <= 0 { return false; }
      var a := assets[id];
      if amount > a.minted { return false; }
      assets := assets[id := a.(minted := a.minted - amount, returned := a.returned + amount)];
      return true;
    }

    method CommitHeader(key: HeaderKey, root: Hash, committer: Address, authority: bool, tiers: Option<Tiers>)
      returns (ok: bool)
      modifies this`headers
      ensures Agrees(ok, old(Contents()), old(Contents()).CommitHeader(key, root, committer, authority, tiers))
    {
      if tiers.Some? {
        var operator, bot := tiers.value.operator, tiers.value.bot;
        if committer != operator && committer != bot { return false; }
        if key !in headers {
          headers := headers[key := HeaderRec(root, committer, None)];
          return true;
        }
        var standing := headers[key];
        if committer == bot {
          return standing.committer == bot && standing.receiptsRoot == root;
        }
        if standing.committer == bot {
          headers := headers[key := HeaderRec(root, operator, Some(standing.receiptsRoot))];
          return true;
        }
        return standing.receiptsRoot == root;
      }
      var mayCommit := authority;
      var left := assets;
      while !mayCommit && left != map[]
        invariant Contents() == old(Contents())
        invariant left.Keys <= assets.Keys && forall id <- left :: left[id] == assets[id]
        invariant authority ==> mayCommit
        invariant mayCommit ==> authority || Contents().MayCommit(key.chain, committer)
        invariant forall id <- assets :: id in left || mayCommit ||
                    !(assets[id].originChain == key.chain && assets[id].registrar == Some(committer))
        decreases |left|
      {
        ghost var some := Pick(left.Keys);
        var id: AssetId :| id in left.Keys;
        if left[id].originChain == key.chain && left[id].registrar == Some(committer) { mayCommit := true; }
        left := left - {id};
      }
      if !mayCommit { return false; }
      if key in headers { return headers[key].receiptsRoot == root; }
      headers := headers[key := HeaderRec(root, committer, None)];
      return true;
    }

    /** A method and the value-level operation it stands for: refused alike, and then nothing has moved. */
    ghost predicate Agrees(ok: bool, before: Ledger, result: Option<Ledger>)
      reads this
    {
      && (ok <==> result.Some?)
      && Contents() == if ok then result.value else before
    }
  }
}
