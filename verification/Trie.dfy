/**
 * Merkle-Patricia tries: the hex-prefix code, the builder, and the proof verifier (src/ethreceipts.js:52-124,
 * src/burnproof.js:46-138; Appendices C and D of the Ethereum Yellow Paper). The encoding and the hash are
 * parameters: the encoding can be undone, and the hash does not collide.
 */
module Trie {
  import opened Common
  import opened Types

  type Nibble = n: nat | n < 16
  type Path = seq<Nibble>

  /** What RLP encodes: byte strings and lists. */
  datatype Item = Text(bytes: Bytes) | Items(items: seq<Item>)

  datatype Codec = Codec(encode: Item -> Bytes, decode: Bytes -> Option<Item>, keccak: Bytes -> Bytes)
  {
    ghost predicate Sound() {
      && (forall item :: Reads(item))
      && (forall a, b :: keccak(a) == keccak(b) ==> a == b)
      && (forall a :: keccak(a) != [])
    }

    ghost predicate Reads(item: Item) { decode(encode(item)) == Some(item) }
  }

  // ------------------------------------------------------------- nibbles and the hex-prefix code

  function High(b: Byte): Nibble { b / 16 }

  function Low(b: Byte): Nibble { b % 16 }

  function Joined(high: Nibble, low: Nibble): (b: Byte)
    ensures High(b) == high && Low(b) == low
  {
    16 * high + low
  }

  function ToNibbles(bytes: Bytes): (p: Path)
    ensures |p| == 2 * |bytes|
    ensures forall i {:trigger p[i]} :: 0 <= i < |p| ==>
              p[i] == if i % 2 == 0 then High(bytes[i / 2]) else Low(bytes[i / 2])
  {
    seq(2 * |bytes|, i requires 0 <= i < 2 * |bytes| => if i % 2 == 0 then High(bytes[i / 2]) else Low(bytes[i / 2]))
  }

  /** A byte is its two nibbles read as digits, the high one first. */
  lemma NibblesAreDigits(bytes: Bytes, i: nat)
    requires i < |bytes|
    ensures var digits: seq<nat> := ToNibbles(bytes); digits[2 * i] * 16 + digits[2 * i + 1] == bytes[i]
  {
  }

  /** Nibbles packed two to a byte. */
  function Pack(p: Path): (bytes: Bytes)
    requires |p| % 2 == 0
    ensures |bytes| == |p| / 2
    ensures forall i {:trigger bytes[i]} :: 0 <= i < |bytes| ==> bytes[i] == Joined(p[2 * i], p[2 * i + 1])
  {
    seq(|p| / 2, i requires 0 <= i < |p| / 2 => Joined(p[2 * i], p[2 * i + 1]))
  }

  lemma {:induction false} Unpack(p: Path)
    requires |p| % 2 == 0
    ensures ToNibbles(Pack(p)) == p
  {
    var q := ToNibbles(Pack(p));
    hide ToNibbles, Pack;
    forall i | 0 <= i < |p|
      ensures q[i] == p[i]
    {
      UnpackAt(p, i);
    }
  }

  lemma {:induction false} UnpackAt(p: Path, i: nat)
    requires |p| % 2 == 0 && i < |p|
    ensures ToNibbles(Pack(p))[i] == p[i]
  {
    hide High, Low, ToNibbles, Pack, Joined;
    var j := i / 2;
    assert Pack(p)[j] == Joined(p[2 * j], p[2 * j + 1]);
    if i % 2 == 0 { assert i == 2 * j; } else { assert i == 2 * j + 1; }
  }

  /** Different keys have different paths. */
  lemma NibblesDiffer(a: Bytes, b: Bytes)
    requires ToNibbles(a) == ToNibbles(b)
    ensures a == b
  {
    forall i | 0 <= i < |a|
      ensures a[i] == b[i]
    {
      assert ToNibbles(a)[2 * i] == ToNibbles(b)[2 * i] && ToNibbles(a)[2 * i + 1] == ToNibbles(b)[2 * i + 1];
    }
  }

  function HexPrefix(path: Path, isLeaf: bool): Bytes {
    var odd := |path| % 2 == 1;
    var flag: Nibble := (if isLeaf then 2 else 0) + (if odd then 1 else 0);
    Pack(if odd then [flag] + path else [flag, 0] + path)
  }

  function DecodeHexPrefix(bytes: Bytes): (bool, Path) {
    var nibbles := ToNibbles(bytes);
    if nibbles == [] then (false, [])
    else (nibbles[0] >= 2, nibbles[if nibbles[0] % 2 == 1 then 1 else 2..])
  }

  /** Decoding undoes encoding: both facts of the flag, and every path of either parity. */
  lemma {:induction false} HexPrefixRoundTrip(path: Path, isLeaf: bool)
    ensures DecodeHexPrefix(HexPrefix(path, isLeaf)) == (isLeaf, path)
  {
    hide ToNibbles, Pack;
    var odd := |path| % 2 == 1;
    var flag: Nibble := (if isLeaf then 2 else 0) + (if odd then 1 else 0);
    Unpack(if odd then [flag] + path else [flag, 0] + path);
  }

  /**
   * The code, nibble by nibble: a flag saying leaf or not and odd or even, a zero nibble where the length is even,
   * and then the path itself, in half as many bytes and one more.
   */
  lemma {:induction false} HexPrefixNibbles(path: Path, isLeaf: bool)
    ensures var code := ToNibbles(HexPrefix(path, isLeaf));
            && |HexPrefix(path, isLeaf)| == |path| / 2 + 1
            && |code| == |path| + 2 - |path| % 2 && code[|code| - |path|..] == path
            && code[0] == (if isLeaf then 2 else 0) + |path| % 2
            && (|path| % 2 == 0 ==> code[1] == 0)
  {
    hide ToNibbles, Pack;
    var odd := |path| % 2 == 1;
    var flag: Nibble := (if isLeaf then 2 else 0) + (if odd then 1 else 0);
    Unpack(if odd then [flag] + path else [flag, 0] + path);
    PackLength(if odd then [flag] + path else [flag, 0] + path);
  }

  lemma PackLength(p: Path)
    requires |p| % 2 == 0
    ensures |Pack(p)| == |p| / 2
  {
  }

  // ------------------------------------------------------------- the trie, as a tree

  datatype Node =
    | Leaf(path: Path, value: Bytes)
    | Extension(path: Path, child: Node)
    | Branch(children: seq<Option<Node>>, valueHere: Option<Bytes>)
  {
    ghost predicate Valid() {
      match this
      case Leaf(_, _) => true
      case Extension(_, child) => child.Valid()
      case Branch(children, here) =>
        && |children| == 16 && (here.Some? ==> here.value != [])
        && forall k :: 0 <= k < 16 ==> children[k].Some? ==> children[k].value.Valid()
    }
  }

  /** The value stored at a path. */
  function Get(t: Node, path: Path): Option<Bytes> {
    match t
    case Leaf(p, v) => if path == p then Some(v) else None
    case Extension(p, child) => if p <= path then Get(child, path[|p|..]) else None
    case Branch(children, here) =>
      if path == [] then here
      else if path[0] < |children| && children[path[0]].Some? then Get(children[path[0]].value, path[1..])
      else None
  }

  function Encoded(c: Codec, t: Node): Item
    decreases t, 0
  {
    match t
    case Leaf(p, v) => Items([Text(HexPrefix(p, true)), Text(v)])
    case Extension(p, child) => Items([Text(HexPrefix(p, false)), Ref(c, child)])
    case Branch(children, here) =>
      Items(seq(|children|, k requires 0 <= k < |children| =>
        if children[k].None? then Text([]) else Ref(c, children[k].value)) +
          [Text(if here.None? then [] else here.value)])
  }

  /** What a node is on the wire: two items for a leaf and an extension, told apart by the code, and 17 for a branch. */
  lemma {:induction false} WireForms(c: Codec, t: Node)
    ensures t.Leaf? ==>
              exists code: Bytes :: Encoded(c, t) == Items([Text(code), Text(t.value)])
                                    && ToNibbles(code) != [] && ToNibbles(code)[0] / 2 == 1
                                    && DecodeHexPrefix(code) == (true, t.path)
    ensures t.Extension? ==>
              exists code: Bytes :: Encoded(c, t) == Items([Text(code), Child(c, t.child)])
                                    && ToNibbles(code) != [] && ToNibbles(code)[0] / 2 == 0
                                    && DecodeHexPrefix(code) == (false, t.path)
    ensures t.Branch? ==>
              && Encoded(c, t).Items? && |Encoded(c, t).items| == |t.children| + 1
              && Encoded(c, t).items[|t.children|] == Text(if t.valueHere.Some? then t.valueHere.value else [])
              && forall k :: 0 <= k < |t.children| ==>
                   Encoded(c, t).items[k] == if t.children[k].Some? then Child(c, t.children[k].value) else Text([])
  {
    hide HexPrefix, DecodeHexPrefix, ToNibbles;
    match t {
      case Leaf(p, v) =>
        HexPrefixRoundTrip(p, true);
        HexPrefixNibbles(p, true);
        var code := HexPrefix(p, true);
        assert Encoded(c, t) == Items([Text(code), Text(v)]) && ToNibbles(code)[0] / 2 == 1;
      case Extension(p, child) =>
        HexPrefixRoundTrip(p, false);
        HexPrefixNibbles(p, false);
        var code := HexPrefix(p, false);
        assert Encoded(c, t) == Items([Text(code), Child(c, child)]) && ToNibbles(code)[0] / 2 == 0;
      case Branch(children, here) =>
    }
  }

  /** How a parent holds a node: as it is if that takes fewer than 32 bytes, and by its hash otherwise. */
  ghost function Child(c: Codec, t: Node): Item {
    if |c.encode(Encoded(c, t))| <= 31 then Encoded(c, t) else Text(c.keccak(c.encode(Encoded(c, t))))
  }

  function Raw(c: Codec, t: Node): Bytes { c.encode(Encoded(c, t)) }

  /** Short nodes stand inline in their parent; the others are referred to by hash. */
  function Ref(c: Codec, t: Node): Item
    decreases t, 1
  {
    if |c.encode(Encoded(c, t))| < 32 then Encoded(c, t) else Text(c.keccak(c.encode(Encoded(c, t))))
  }

  predicate Long(c: Codec, t: Node) { |Raw(c, t)| >= 32 }

  // ------------------------------------------------------------- building

  datatype Entry = Entry(path: Path, value: Bytes)

  function MaxLen(entries: seq<Entry>): (m: nat)
    ensures forall e <- entries :: |e.path| <= m
    ensures m > 0 ==> exists e <- entries :: |e.path| == m
  {
    if entries == [] then 0
    else
      var rest := MaxLen(entries[..|entries| - 1]);
      var last := entries[|entries| - 1];
      assert last in entries;
      assert forall e <- entries :: e == last || e in entries[..|entries| - 1];
      if |last.path| > rest then |last.path| else rest
  }

  /** The entries under one nibble, without it. */
  function Bucket(entries: seq<Entry>, k: Nibble): (sub: seq<Entry>)
    ensures forall e :: e in sub <==> Entry([k] + e.path, e.value) in entries
  {
    if entries == [] then []
    else
      var e := entries[|entries| - 1];
      var rest := Bucket(entries[..|entries| - 1], k);
      if e.path != [] && e.path[0] == k then
        assert [k] + e.path[1..] == e.path;
        rest + [Entry(e.path[1..], e.value)]
      else rest
  }

  /** The value whose path ends here; a later one overwrites an earlier. */
  function ValueHere(entries: seq<Entry>): Option<Bytes> {
    if entries == [] then None
    else
      var e := entries[|entries| - 1];
      if e.path == [] then Some(e.value) else ValueHere(entries[..|entries| - 1])
  }

  predicate Agree(entries: seq<Entry>, c: nat)
    requires entries != []
  {
    c < |entries[0].path| && forall e <- entries :: c < |e.path| && e.path[c] == entries[0].path[c]
  }

  /** How far, from `c` on, all paths agree with the first. */
  function CommonFrom(entries: seq<Entry>, c: nat): (m: nat)
    requires entries != [] && c <= |entries[0].path|
    requires forall e <- entries :: c <= |e.path| && e.path[..c] == entries[0].path[..c]
    ensures c <= m <= |entries[0].path| && !Agree(entries, m)
    ensures forall e <- entries :: m <= |e.path| && e.path[..m] == entries[0].path[..m]
    decreases |entries[0].path| - c
  {
    if Agree(entries, c) then
      assert forall e <- entries :: e.path[..c + 1] == e.path[..c] + [e.path[c]];
      CommonFrom(entries, c + 1)
    else c
  }

  function Strip(entries: seq<Entry>, c: nat): (sub: seq<Entry>)
    requires forall e <- entries :: c <= |e.path|
    ensures |sub| == |entries|
    ensures forall i :: 0 <= i < |sub| ==> sub[i] == Entry(entries[i].path[c..], entries[i].value)
  {
    seq(|entries|, i requires 0 <= i < |entries| => Entry(entries[i].path[c..], entries[i].value))
  }

  lemma StripShortens(entries: seq<Entry>, c: nat)
    requires c > 0 && entries != [] && forall e <- entries :: c <= |e.path|
    ensures MaxLen(Strip(entries, c)) < MaxLen(entries)
  {
    var sub := Strip(entries, c);
    assert entries[0] in entries;
    if MaxLen(sub) > 0 {
      var e :| e in sub && |e.path| == MaxLen(sub);
      var i :| 0 <= i < |sub| && sub[i] == e;
      assert entries[i] in entries;
    }
  }

  lemma BucketShortens(entries: seq<Entry>, k: Nibble)
    requires Bucket(entries, k) != []
    ensures MaxLen(Bucket(entries, k)) < MaxLen(entries)
  {
    var sub := Bucket(entries, k);
    if MaxLen(sub) > 0 {
      var e :| e in sub && |e.path| == MaxLen(sub);
      assert Entry([k] + e.path, e.value) in entries;
    } else {
      assert Entry([k] + sub[0].path, sub[0].value) in entries;
    }
  }

  function Build(entries: seq<Entry>): Node
    requires entries != []
    decreases MaxLen(entries), 1
  {
    if |entries| == 1 then Leaf(entries[0].path, entries[0].value)
    else
      var common := CommonFrom(entries, 0);
      if common > 0 then
        StripShortens(entries, common);
        Extension(entries[0].path[..common], Build(Strip(entries, common)))
      else
        Branch(seq(16, k requires 0 <= k < 16 => BuildAt(entries, k)), ValueHere(entries))
  }

  function BuildAt(entries: seq<Entry>, k: Nibble): Option<Node>
    decreases MaxLen(entries), 0
  {
    var sub := Bucket(entries, k);
    if sub == [] then None
    else
      BucketShortens(entries, k);
      Some(Build(sub))
  }

  // ------------------------------------------------------------- the trie holds exactly what it was built from

  /** One value per path, and no empty values. */
  ghost predicate Pairs(entries: seq<Entry>) {
    && (forall a, b :: a in entries && b in entries && a.path == b.path ==> a == b)
    && (forall e <- entries :: e.value != [])
  }

  lemma ValueHereIs(entries: seq<Entry>, v: Bytes)
    requires Pairs(entries)
    ensures ValueHere(entries) == Some(v) <==> Entry([], v) in entries
  {
    if entries != [] {
      var rest := entries[..|entries| - 1];
      var last := entries[|entries| - 1];
      assert last in entries;
      assert forall e :: e in entries <==> e in rest || e == last;
      if last.path != [] { ValueHereIs(rest, v); }
    }
  }

  lemma {:induction false} StripHolds(entries: seq<Entry>, c: nat, e: Entry)
    requires entries != [] && c <= |entries[0].path|
    requires forall e <- entries :: c <= |e.path| && e.path[..c] == entries[0].path[..c]
    ensures e in Strip(entries, c) <==> Entry(entries[0].path[..c] + e.path, e.value) in entries
  {
    hide Strip;
    var sub, head := Strip(entries, c), entries[0].path[..c];
    if e in sub {
      var i :| 0 <= i < |sub| && sub[i] == e;
      assert entries[i] in entries;
      assert head + e.path == entries[i].path;
    }
    if Entry(head + e.path, e.value) in entries {
      var i :| 0 <= i < |entries| && entries[i] == Entry(head + e.path, e.value);
      assert (head + e.path)[c..] == e.path;
      assert sub[i] == e;
    }
  }

  lemma {:induction false} PairsOfStrip(entries: seq<Entry>, c: nat)
    requires Pairs(entries) && entries != [] && c <= |entries[0].path|
    requires forall e <- entries :: c <= |e.path| && e.path[..c] == entries[0].path[..c]
    ensures Pairs(Strip(entries, c))
  {
    hide Strip;
    var sub := Strip(entries, c);
    forall a, b | a in sub && b in sub && a.path == b.path
      ensures a == b
    {
      StripHolds(entries, c, a);
      StripHolds(entries, c, b);
    }
    forall e | e in sub
      ensures e.value != []
    {
      StripHolds(entries, c, e);
    }
  }

  lemma PairsOfBucket(entries: seq<Entry>, k: Nibble)
    requires Pairs(entries)
    ensures Pairs(Bucket(entries, k))
  {
    var sub := Bucket(entries, k);
    forall a, b | a in sub && b in sub && a.path == b.path
      ensures a == b
    {
      assert Entry([k] + a.path, a.value) in entries && Entry([k] + b.path, b.value) in entries;
    }
    forall e | e in sub
      ensures e.value != []
    {
      assert Entry([k] + e.path, e.value) in entries;
    }
  }

  /** The built trie answers every path as the pairs do: stored paths with their value, all others with nothing. */
  lemma {:induction false} BuildIsMap(entries: seq<Entry>, path: Path, v: Bytes)
    requires entries != [] && Pairs(entries)
    ensures Get(Build(entries), path) == Some(v) <==> Entry(path, v) in entries
    decreases MaxLen(entries), 1
  {
    hide Pairs, MaxLen, Bucket, Strip, ValueHere;
    if |entries| > 1 {
      var common := CommonFrom(entries, 0);
      if common > 0 {
        ExtensionIsMap(entries, common, path, v);
        if entries[0].path[..common] <= path {
          StripShortens(entries, common);
          PairsOfStrip(entries, common);
          BuildIsMap(Strip(entries, common), path[common..], v);
        }
      } else if path == [] {
        ValueHereIs(entries, v);
      } else {
        BucketIsMap(entries, path, v);
      }
    }
  }

  /** A branch slot answers for the paths that start with its nibble. */
  lemma {:induction false} BucketIsMap(entries: seq<Entry>, path: Path, v: Bytes)
    requires Pairs(entries) && path != []
    ensures (BuildAt(entries, path[0]).Some? && Get(BuildAt(entries, path[0]).value, path[1..]) == Some(v)) <==>
            Entry(path, v) in entries
    decreases MaxLen(entries), 0
  {
    hide Pairs, MaxLen, Build, Get;
    assert [path[0]] + path[1..] == path;
    var sub := Bucket(entries, path[0]);
    assert Entry(path[1..], v) in sub <==> Entry(path, v) in entries;
    if sub != [] {
      BucketShortens(entries, path[0]);
      PairsOfBucket(entries, path[0]);
      BuildIsMap(sub, path[1..], v);
    }
  }

  /** Below a shared prefix only paths with that prefix are stored. */
  lemma {:induction false} ExtensionIsMap(entries: seq<Entry>, c: nat, path: Path, v: Bytes)
    requires entries != [] && c <= |entries[0].path|
    requires forall e <- entries :: c <= |e.path| && e.path[..c] == entries[0].path[..c]
    ensures entries[0].path[..c] <= path ==>
              (Entry(path, v) in entries <==> Entry(path[c..], v) in Strip(entries, c))
    ensures !(entries[0].path[..c] <= path) ==> Entry(path, v) !in entries
  {
    hide Strip;
    var head := entries[0].path[..c];
    if head <= path {
      assert head + path[c..] == path;
      StripHolds(entries, c, Entry(path[c..], v));
    } else if Entry(path, v) in entries {
      assert false;
    }
  }

  lemma {:induction false} BuildIsValid(entries: seq<Entry>)
    requires entries != [] && Pairs(entries)
    ensures Build(entries).Valid()
    decreases MaxLen(entries)
  {
    hide Pairs, MaxLen, Bucket, Strip;
    if |entries| > 1 {
      var common := CommonFrom(entries, 0);
      if common > 0 {
        StripShortens(entries, common);
        PairsOfStrip(entries, common);
        BuildIsValid(Strip(entries, common));
      } else {
        forall k: Nibble | BuildAt(entries, k).Some?
          ensures BuildAt(entries, k).value.Valid()
        {
          BucketShortens(entries, k);
          PairsOfBucket(entries, k);
          BuildIsValid(Bucket(entries, k));
        }
        ValueHereIsFull(entries);
      }
    }
  }

  lemma ValueHereIsFull(entries: seq<Entry>)
    requires Pairs(entries)
    ensures ValueHere(entries).Some? ==> ValueHere(entries).value != []
  {
    if ValueHere(entries).Some? { ValueHereIs(entries, ValueHere(entries).value); }
  }

  // ------------------------------------------------------------- verifying

  /** What a reference names: a hash, or, inline, nothing that any node hashes to. */
  function Named(item: Item): Option<Bytes> {
    match item
    case Text(h) => Some(h)
    case Items(_) => None
  }

  predicate IsEmpty(item: Item) { item == Text([]) || item == Items([]) }

  /** Walk a proof down from a hash: the value at the end, or nothing at the first thing that does not fit. */
  function Verify(c: Codec, expected: Option<Bytes>, path: Path, nodes: seq<Bytes>): Option<Bytes>
    decreases |nodes|
  {
    if nodes == [] || expected != Some(c.keccak(nodes[0])) then None
    else
      match c.decode(nodes[0])
      case None => None
      case Some(Text(_)) => None
      case Some(Items(items)) =>
        if |items| == 17 then
          if path == [] then (if items[16].Text? && items[16].bytes != [] then Some(items[16].bytes) else None)
          else if IsEmpty(items[path[0]]) then None
          else Verify(c, Named(items[path[0]]), path[1..], nodes[1..])
        else if |items| == 2 && items[0].Text? then
          var (isLeaf, segment) := DecodeHexPrefix(items[0].bytes);
          if !(segment <= path) then None
          else if isLeaf then (if segment == path && items[1].Text? then Some(items[1].bytes) else None)
          else Verify(c, Named(items[1]), path[|segment|..], nodes[1..])
        else None
  }

  /** The hash of a node. */
  function Top(c: Codec, t: Node): Option<Bytes> { Some(c.keccak(Raw(c, t))) }

  /** One step of verification at a node of the trie. */
  lemma {:induction false} VerifyNode(c: Codec, t: Node, path: Path, nodes: seq<Bytes>)
    requires c.Sound() && t.Valid() && nodes != []
    ensures nodes[0] != Raw(c, t) ==> Verify(c, Top(c, t), path, nodes) == None
    ensures nodes[0] == Raw(c, t) ==>
              Verify(c, Top(c, t), path, nodes) ==
              match t
              case Leaf(p, v) => if p == path then Some(v) else None
              case Extension(p, child) =>
                if p <= path then Verify(c, Named(Ref(c, child)), path[|p|..], nodes[1..]) else None
              case Branch(children, here) =>
                if path == [] then here
                else if children[path[0]].None? then None
                else Verify(c, Named(Ref(c, children[path[0]].value)), path[1..], nodes[1..])
  {
    hide DecodeHexPrefix, HexPrefix;
    assert c.Reads(Encoded(c, t));
    match t {
      case Leaf(p, v) => HexPrefixRoundTrip(p, true);
      case Extension(p, child) => HexPrefixRoundTrip(p, false);
      case Branch(children, here) =>
        if path != [] && children[path[0]].Some? { RefIsFull(c, children[path[0]].value); }
    }
  }

  /** A reference is never mistaken for an empty slot. */
  lemma RefIsFull(c: Codec, t: Node)
    requires c.Sound() && t.Valid()
    ensures !IsEmpty(Ref(c, t))
  {
  }

  lemma InlineIsNamed(c: Codec, t: Node)
    ensures Named(Ref(c, t)) == if Long(c, t) then Top(c, t) else None
  {
  }

  /** Sound: whatever nodes are offered, an accepted value is the one stored at that path. */
  lemma {:induction false} OnlyStoredVerifies(c: Codec, t: Node, path: Path, nodes: seq<Bytes>)
    requires c.Sound() && t.Valid() && Verify(c, Top(c, t), path, nodes).Some?
    ensures Get(t, path) == Verify(c, Top(c, t), path, nodes)
    decreases |nodes|, 0
  {
    hide Verify, Top, Encoded, Codec.Sound;
    NothingProvesNothing(c, Top(c, t), path);
    VerifyNode(c, t, path, nodes);
    match t {
      case Leaf(_, _) =>
      case Extension(p, child) => ChildVerifies(c, child, path[|p|..], nodes[1..]);
      case Branch(children, here) =>
        if path != [] { ChildVerifies(c, children[path[0]].value, path[1..], nodes[1..]); }
    }
  }

  lemma NothingProvesNothing(c: Codec, expected: Option<Bytes>, path: Path)
    ensures Verify(c, expected, path, []) == None
  {
  }

  lemma {:induction false} ChildVerifies(c: Codec, child: Node, path: Path, nodes: seq<Bytes>)
    requires c.Sound() && child.Valid() && Verify(c, Named(Ref(c, child)), path, nodes).Some?
    ensures Get(child, path) == Verify(c, Named(Ref(c, child)), path, nodes)
    decreases |nodes|, 1
  {
    InlineIsNamed(c, child);
    OnlyStoredVerifies(c, child, path, nodes);
  }

  // ------------------------------------------------------------- proving

  /** The nodes proofFor collects from a node on, `i` nibbles into the path. It checks nothing: the verifier does. */
  function ProofOf(c: Codec, t: Node, path: Path, i: nat): seq<Bytes> {
    [Raw(c, t)] +
    match t
    case Leaf(_, _) => []
    case Extension(p, child) => if Long(c, child) then ProofOf(c, child, path, i + |p|) else []
    case Branch(children, _) =>
      if i >= |path| || path[i] >= |children| || children[path[i]].None? || !Long(c, children[path[i]].value) then []
      else ProofOf(c, children[path[i]].value, path, i + 1)
  }

  /** No node on the way to a path, below the root, is short enough to stand inline. */
  predicate HashedOnTheWay(c: Codec, t: Node, path: Path) {
    match t
    case Leaf(_, _) => true
    case Extension(p, child) => p <= path ==> Long(c, child) && HashedOnTheWay(c, child, path[|p|..])
    case Branch(children, _) =>
      path != [] && path[0] < |children| && children[path[0]].Some? ==>
        Long(c, children[path[0]].value) && HashedOnTheWay(c, children[path[0]].value, path[1..])
  }

  /**
   * Complete, and exactly so: the proof built for a path verifies to what is stored there, unless a node on the
   * way stands inline in its parent; the verifier follows hashes only, and then refuses.
   */
  lemma {:induction false} ProofsVerifyExactly(c: Codec, t: Node, path: Path, i: nat)
    requires c.Sound() && t.Valid() && i <= |path|
    ensures Verify(c, Top(c, t), path[i..], ProofOf(c, t, path, i)) ==
            if HashedOnTheWay(c, t, path[i..]) then Get(t, path[i..]) else None
    decreases t, 0
  {
    hide Verify, Top, Encoded, Raw, Long, Ref, Named, Codec.Sound;
    var nodes, rest := ProofOf(c, t, path, i), path[i..];
    VerifyNode(c, t, rest, nodes);
    match t {
      case Leaf(_, _) =>
      case Extension(p, child) =>
        if p <= rest {
          assert path[i + |p|..] == rest[|p|..];
          ChildProofVerifies(c, child, path, i + |p|);
        }
      case Branch(children, _) =>
        if rest != [] && children[rest[0]].Some? {
          assert path[i + 1..] == rest[1..];
          ChildProofVerifies(c, children[rest[0]].value, path, i + 1);
        }
    }
  }

  lemma {:induction false} ChildProofVerifies(c: Codec, child: Node, path: Path, k: nat)
    requires c.Sound() && child.Valid() && k <= |path|
    ensures Verify(c, Named(Ref(c, child)), path[k..], if Long(c, child) then ProofOf(c, child, path, k) else []) ==
            if Long(c, child) && HashedOnTheWay(c, child, path[k..]) then Get(child, path[k..]) else None
    decreases child, 1
  {
    hide Verify, Encoded, Raw, Long, ProofOf, Get, HashedOnTheWay, Codec.Sound;
    InlineIsNamed(c, child);
    NothingProvesNothing(c, None, path[k..]);
    ProofsVerifyExactly(c, child, path, k);
  }

  // ------------------------------------------------------------- the loops

  method NibblesOf(bytes: Bytes) returns (out: Path)
    ensures out == ToNibbles(bytes)
  {
    out := [];
    for i := 0 to |bytes|
      invariant |out| == 2 * i
      invariant forall k {:trigger out[k]} :: 0 <= k < 2 * i ==>
                  out[k] == if k % 2 == 0 then High(bytes[k / 2]) else Low(bytes[k / 2])
    {
      out := out + [High(bytes[i]), Low(bytes[i])];
    }
  }

  method PackAll(nibbles: Path) returns (out: Bytes)
    requires |nibbles| % 2 == 0
    ensures out == Pack(nibbles)
  {
    hide Pack, Joined;
    ghost var packed := Pack(nibbles);
    out := [];
    for i := 0 to |nibbles| / 2
      invariant out == packed[..i]
    {
      assert packed[i] == Joined(nibbles[2 * i], nibbles[2 * i + 1]);
      out := out + [Joined(nibbles[2 * i], nibbles[2 * i + 1])];
    }
  }

  /** hexPrefix: the flag, a padding nibble for even paths, and two nibbles to a byte. */
  method EncodeHexPrefix(path: Path, isLeaf: bool) returns (out: Bytes)
    ensures out == HexPrefix(path, isLeaf)
  {
    var odd := |path| % 2 == 1;
    var flag: Nibble := (if isLeaf then 2 else 0) + (if odd then 1 else 0);
    var nibbles: Path := if odd then [flag] + path else [flag, 0] + path;
    out := PackAll(nibbles);
  }

  /** verifyProof: node after node, each hashed before it is read. */
  method VerifyProof(c: Codec, root: Bytes, key: Bytes, nodes: seq<Bytes>) returns (value: Option<Bytes>)
    ensures value == Verify(c, Some(root), ToNibbles(key), nodes)
  {
    hide DecodeHexPrefix, ToNibbles, High, Low;
    if nodes == [] { return None; }
    var path := NibblesOf(key);
    var expected, i := Some(root), 0;
    for depth := 0 to |nodes|
      invariant 0 <= i <= |path|
      invariant Verify(c, Some(root), path, nodes) == Verify(c, expected, path[i..], nodes[depth..])
    {
      ghost var rest, left := path[i..], nodes[depth..];
      assert left[0] == nodes[depth] && left[1..] == nodes[depth + 1..];
      if expected != Some(c.keccak(nodes[depth])) { return None; }
      var decoded := c.decode(nodes[depth]);
      if decoded.None? || decoded.value.Text? { return None; }
      var items := decoded.value.items;
      if |items| == 17 {
        if i == |path| {
          return if items[16].Text? && items[16].bytes != [] then Some(items[16].bytes) else None;
        }
        assert rest[0] == path[i] && rest[1..] == path[i + 1..];
        if IsEmpty(items[path[i]]) { return None; }
        expected, i := Named(items[path[i]]), i + 1;
      } else if |items| == 2 && items[0].Text? {
        var (isLeaf, segment) := DecodeHexPrefix(items[0].bytes);
        if !(segment <= path[i..]) { return None; }
        assert rest[|segment|..] == path[i + |segment|..];
        i := i + |segment|;
        if isLeaf {
          return if i == |path| && items[1].Text? then Some(items[1].bytes) else None;
        }
        expected := Named(items[1]);
      } else {
        return None;
      }
    }
    assert nodes[|nodes|..] == [];
    return None;
  }

  /** All nodes of a trie below its root that are long enough to be hashed are filed under their hash. */
  ghost predicate Filed(c: Codec, keys: set<Bytes>, t: Node)
    decreases t, 0
  {
    match t
    case Leaf(_, _) => true
    case Extension(_, child) => Kept(c, keys, child)
    case Branch(children, _) =>
      forall k :: 0 <= k < |children| && children[k].Some? ==> Kept(c, keys, children[k].value)
  }

  ghost predicate Kept(c: Codec, keys: set<Bytes>, t: Node)
    decreases t, 1
  {
    (Long(c, t) ==> c.keccak(Raw(c, t)) in keys) && Filed(c, keys, t)
  }

  lemma {:induction false} FiledStays(c: Codec, keys: set<Bytes>, more: set<Bytes>, t: Node)
    requires Filed(c, keys, t) && keys <= more
    ensures Filed(c, more, t)
  {
    match t {
      case Leaf(_, _) =>
      case Extension(_, child) => FiledStays(c, keys, more, child);
      case Branch(children, _) =>
        forall k | 0 <= k < |children| && children[k].Some?
          ensures Kept(c, more, children[k].value)
        {
          assert Kept(c, keys, children[k].value);
          FiledStays(c, keys, more, children[k].value);
        }
    }
  }

  /** What stands in a branch slot. */
  function Slot(c: Codec, child: Option<Node>): Item { if child.None? then Text([]) else Ref(c, child.value) }

  ghost predicate SlotKept(c: Codec, keys: set<Bytes>, child: Option<Node>) {
    child.Some? ==> Kept(c, keys, child.value)
  }

  lemma SlotStays(c: Codec, keys: set<Bytes>, more: set<Bytes>, child: Option<Node>)
    requires SlotKept(c, keys, child) && keys <= more
    ensures SlotKept(c, more, child)
  {
    if child.Some? { FiledStays(c, keys, more, child.value); }
  }

  /** The slots built so far, and what they refer to filed. */
  ghost predicate SlotsTo(c: Codec, entries: seq<Entry>, slots: seq<Item>, keys: set<Bytes>) {
    |slots| <= 16 &&
    forall j: Nibble :: j < |slots| ==>
      slots[j] == Slot(c, BuildAt(entries, j)) && SlotKept(c, keys, BuildAt(entries, j))
  }

  lemma NoSlots(c: Codec, entries: seq<Entry>, keys: set<Bytes>)
    ensures SlotsTo(c, entries, [], keys)
  {
  }

  lemma {:induction false} SlotsGrow(
    c: Codec, entries: seq<Entry>, slots: seq<Item>, keys: set<Bytes>, more: set<Bytes>, slot: Item)
    requires SlotsTo(c, entries, slots, keys) && keys <= more && |slots| < 16
    requires slot == Slot(c, BuildAt(entries, |slots|)) && SlotKept(c, more, BuildAt(entries, |slots|))
    ensures SlotsTo(c, entries, slots + [slot], more)
  {
    hide BuildAt, Slot, SlotKept;
    var longer := slots + [slot];
    forall j: Nibble | j < |longer|
      ensures longer[j] == Slot(c, BuildAt(entries, j)) && SlotKept(c, more, BuildAt(entries, j))
    {
      if j < |slots| { SlotStays(c, keys, more, BuildAt(entries, j)); }
    }
  }

  lemma {:induction false} BranchIs(c: Codec, entries: seq<Entry>, slots: seq<Item>, keys: set<Bytes>)
    requires |entries| > 1 && CommonFrom(entries, 0) == 0 && |slots| == 16 && SlotsTo(c, entries, slots, keys)
    ensures var here := ValueHere(entries);
            Items(slots + [Text(if here.None? then [] else here.value)]) == Encoded(c, Build(entries))
    ensures Filed(c, keys, Build(entries))
  {
    hide BuildAt, ValueHere, CommonFrom;
    var t := Build(entries);
    assert forall j: Nibble :: t.children[j] == BuildAt(entries, j);
    assert Encoded(c, t).items[..16] == slots;
  }

  /** The builder, with the store its nodes are filed in. */
  class Builder {
    const c: Codec
    var store: map<Bytes, Bytes>

    constructor (c: Codec)
      ensures this.c == c && store == map[]
    {
      this.c, store := c, map[];
    }

    ghost predicate Valid()
      reads this
    {
      forall h <- store :: c.keccak(store[h]) == h
    }

    method FileNode(node: Item) returns (ref: Item)
      requires Valid()
      modifies this
      ensures Valid() && old(store.Keys) <= store.Keys
      ensures forall t {:trigger Ref(c, t)} :: Encoded(c, t) == node ==>
                ref == Ref(c, t) && (Long(c, t) ==> c.keccak(Raw(c, t)) in store)
    {
      var raw := c.encode(node);
      if |raw| < 32 { return node; }
      var h := c.keccak(raw);
      store := store[h := raw];
      return Text(h);
    }

    /** How far all paths agree (src/ethreceipts.js:73-79). */
    method CommonLength(entries: seq<Entry>) returns (common: nat)
      requires entries != []
      ensures common == CommonFrom(entries, 0)
    {
      common := 0;
      while common < |entries[0].path|
        invariant common <= |entries[0].path|
        invariant forall e <- entries :: common <= |e.path| && e.path[..common] == entries[0].path[..common]
        invariant CommonFrom(entries, 0) == CommonFrom(entries, common)
      {
        for i := 0 to |entries|
          invariant forall k :: 0 <= k < i ==>
                      common < |entries[k].path| && entries[k].path[common] == entries[0].path[common]
        {
          if common >= |entries[i].path| || entries[i].path[common] != entries[0].path[common] {
            assert entries[i] in entries;
            return;
          }
        }
        assert Agree(entries, common);
        assert forall e <- entries :: e.path[..common + 1] == e.path[..common] + [e.path[common]];
        common := common + 1;
      }
    }

    /** Entries by their first nibble; a path that ends here leaves its value (src/ethreceipts.js:84-91). */
    method Buckets(entries: seq<Entry>) returns (buckets: seq<seq<Entry>>, here: Option<Bytes>)
      ensures |buckets| == 16 && (forall k: Nibble :: buckets[k] == Bucket(entries, k))
      ensures here == ValueHere(entries)
    {
      buckets, here := seq(16, _ => []), None;
      for i := 0 to |entries|
        invariant |buckets| == 16 && (forall k: Nibble :: buckets[k] == Bucket(entries[..i], k))
        invariant here == ValueHere(entries[..i])
      {
        assert entries[..i + 1][..i] == entries[..i];
        var e := entries[i];
        if e.path == [] {
          here := Some(e.value);
        } else {
          buckets := buckets[e.path[0] := buckets[e.path[0]] + [Entry(e.path[1..], e.value)]];
        }
      }
      assert entries[..|entries|] == entries;
    }

    /** The encoded node for a set of entries, everything below it filed. */
    method BuildNode(entries: seq<Entry>) returns (node: Item)
      requires Valid() && entries != []
      modifies this
      ensures Valid() && old(store.Keys) <= store.Keys
      ensures node == Encoded(c, Build(entries)) && Filed(c, store.Keys, Build(entries))
      decreases MaxLen(entries), 1
    {
      hide MaxLen, Bucket, HexPrefix, ValueHere;
      ghost var t := Build(entries);
      if |entries| == 1 {
        var prefix := EncodeHexPrefix(entries[0].path, true);
        return Items([Text(prefix), Text(entries[0].value)]);
      }
      var common := CommonLength(entries);
      if common > 0 {
        StripShortens(entries, common);
        var below := BuildNode(Strip(entries, common));
        ghost var keys := store.Keys;
        var ref := FileNode(below);
        FiledStays(c, keys, store.Keys, t.child);
        var prefix := EncodeHexPrefix(entries[0].path[..common], false);
        assert Ref(c, t.child) == ref;
        return Items([Text(prefix), ref]);
      }
      node := BuildBranch(entries);
    }

    /** The sixteen slots in turn, and the value that ends here. */
    method BuildBranch(entries: seq<Entry>) returns (node: Item)
      requires Valid() && |entries| > 1 && CommonFrom(entries, 0) == 0
      modifies this
      ensures Valid() && old(store.Keys) <= store.Keys
      ensures node == Encoded(c, Build(entries)) && Filed(c, store.Keys, Build(entries))
      decreases MaxLen(entries), 0
    {
      hide MaxLen, Bucket, Build, BuildAt, SlotsTo, Encoded, Ref, Filed, Kept, CommonFrom, ValueHere;
      var buckets, here := Buckets(entries);
      var slots: seq<Item> := [];
      NoSlots(c, entries, store.Keys);
      for k := 0 to 16
        invariant Valid() && old(store.Keys) <= store.Keys && |slots| == k
        invariant SlotsTo(c, entries, slots, store.Keys)
      {
        ghost var before := store.Keys;
        var slot := BuildSlot(entries, k, buckets[k]);
        SlotsGrow(c, entries, slots, before, store.Keys, slot);
        slots := slots + [slot];
      }
      BranchIs(c, entries, slots, store.Keys);
      node := Items(slots + [Text(if here.None? then [] else here.value)]);
    }

    method BuildSlot(entries: seq<Entry>, k: Nibble, bucket: seq<Entry>) returns (slot: Item)
      requires Valid() && bucket == Bucket(entries, k)
      modifies this
      ensures Valid() && old(store.Keys) <= store.Keys
      ensures slot == Slot(c, BuildAt(entries, k)) && SlotKept(c, store.Keys, BuildAt(entries, k))
      decreases MaxLen(entries), 0, 0
    {
      hide MaxLen, Bucket, Build, Encoded, Filed;
      if bucket == [] { return Text([]); }
      BucketShortens(entries, k);
      var below := BuildNode(bucket);
      ghost var keys, child := store.Keys, Build(bucket);
      slot := FileNode(below);
      assert Ref(c, child) == slot;
      FiledStays(c, keys, store.Keys, child);
    }

    /** buildTrie: keys become paths, the root is filed whatever its length (src/ethreceipts.js:94-98). */
    method BuildTrie(pairs: seq<(Bytes, Bytes)>) returns (root: Bytes)
      requires Valid() && pairs != []
      modifies this
      ensures Valid() && Rooted(root, Build(EntriesOf(pairs)))
    {
      hide Build, Encoded, Filed;
      var node := BuildNode(EntriesOf(pairs));
      ghost var keys := store.Keys;
      var raw := c.encode(node);
      root := c.keccak(raw);
      store := store[root := raw];
      FiledStays(c, keys, store.Keys, Build(EntriesOf(pairs)));
    }

    /** A trie whose root hash this is, filed in this store. */
    ghost predicate Rooted(root: Bytes, t: Node)
      reads this
    {
      root == c.keccak(Raw(c, t)) && root in store && Filed(c, store.Keys, t)
    }

    /** proofFor: follow the hashes from the root, collecting nodes, until a leaf, a gap or an inline node. */
    method ProofFor(root: Bytes, key: Bytes, ghost t: Node) returns (nodes: seq<Bytes>)
      requires Valid() && c.Sound() && t.Valid() && Rooted(root, t)
      ensures nodes == ProofOf(c, t, ToNibbles(key), 0)
    {
      hide ToNibbles, Encoded, Codec.Sound, Advance, Follow, ProofOf, Filed, Node.Valid;
      var path := NibblesOf(key);
      nodes := [];
      var expected, i: nat := Some(root), 0;
      ghost var at := t;
      while true
        invariant at.Valid() && Filed(c, store.Keys, at)
        invariant expected.Some? && expected.value in store && expected.value == c.keccak(Raw(c, at))
        invariant nodes + ProofOf(c, at, path, i) == ProofOf(c, t, path, 0)
        decreases at
      {
        var raw := store[expected.value];
        StoredIsNode(c, at, raw);
        nodes := nodes + [raw];
        var step := Advance(c.decode(raw).value.items, path, i);
        StepOfProof(c, at, path, i, store.Keys);
        ghost var next := Follow(at, path, i);
        if step.None? { return; }
        expected, i := step.value.0, step.value.1;
        if expected.None? || expected.value !in store { return; }
        at := next.value.0;
      }
    }
  }

  /** A filed node is the one its hash stands for. */
  lemma StoredIsNode(c: Codec, t: Node, raw: Bytes)
    requires c.Sound() && c.keccak(raw) == c.keccak(Raw(c, t))
    ensures raw == Raw(c, t) && c.decode(raw) == Some(Encoded(c, t)) && Encoded(c, t).Items?
  {
    assert c.Reads(Encoded(c, t));
  }

  /** What the prover reads off a decoded node: the reference it goes on to and how far along the path it then is. */
  function Advance(items: seq<Item>, path: Path, i: nat): Option<(Option<Bytes>, nat)> {
    if |items| == 17 then
      if i >= |path| || IsEmpty(items[path[i]]) then None else Some((Named(items[path[i]]), i + 1))
    else if |items| == 2 && items[0].Text? then
      var (isLeaf, segment) := DecodeHexPrefix(items[0].bytes);
      if isLeaf then None else Some((Named(items[1]), i + |segment|))
    else None
  }

  /** The child a proof goes on to. */
  function Follow(t: Node, path: Path, i: nat): Option<(Node, nat)> {
    match t
    case Leaf(_, _) => None
    case Extension(p, child) => Some((child, i + |p|))
    case Branch(children, _) =>
      if i >= |path| || path[i] >= |children| || children[path[i]].None? then None
        else Some((children[path[i]].value, i + 1))
  }

  lemma {:induction false} StepOfProof(c: Codec, t: Node, path: Path, i: nat, keys: set<Bytes>)
    requires c.Sound() && t.Valid() && Filed(c, keys, t) && Encoded(c, t).Items?
    ensures var step, next := Advance(Encoded(c, t).items, path, i), Follow(t, path, i);
            && (step.None? <==> next.None?)
            && (next.None? ==> ProofOf(c, t, path, i) == [Raw(c, t)])
            && (next.Some? ==>
                  var (child, k) := next.value;
                  && child < t && child.Valid() && Filed(c, keys, child)
                  && step.value == (if Long(c, child) then Top(c, child) else None, k)
                  && (Long(c, child) ==> c.keccak(Raw(c, child)) in keys)
                  && ProofOf(c, t, path, i) == [Raw(c, t)] + if Long(c, child) then ProofOf(c, child, path, k) else [])
  {
    hide DecodeHexPrefix, HexPrefix;
    match t {
      case Leaf(p, _) => HexPrefixRoundTrip(p, true);
      case Extension(p, child) =>
        HexPrefixRoundTrip(p, false);
        InlineIsNamed(c, child);
        assert Kept(c, keys, child);
      case Branch(children, _) =>
        if i < |path| && children[path[i]].Some? {
          RefIsFull(c, children[path[i]].value);
          InlineIsNamed(c, children[path[i]].value);
          assert Kept(c, keys, children[path[i]].value);
        }
    }
  }

  /** Keys as paths. */
  function EntriesOf(pairs: seq<(Bytes, Bytes)>): (entries: seq<Entry>)
    ensures |entries| == |pairs|
    ensures forall i :: 0 <= i < |pairs| ==> entries[i] == Entry(ToNibbles(pairs[i].0), pairs[i].1)
  {
    seq(|pairs|, i requires 0 <= i < |pairs| => Entry(ToNibbles(pairs[i].0), pairs[i].1))
  }

  /** Distinct keys and no empty values. */
  ghost predicate Assignment(pairs: seq<(Bytes, Bytes)>) {
    && (forall i, j :: 0 <= i < |pairs| && 0 <= j < |pairs| && pairs[i].0 == pairs[j].0 ==> i == j)
    && (forall i :: 0 <= i < |pairs| ==> pairs[i].1 != [])
  }

  lemma {:induction false} KeysArePaths(pairs: seq<(Bytes, Bytes)>, key: Bytes, v: Bytes)
    requires Assignment(pairs)
    ensures Pairs(EntriesOf(pairs))
    ensures Entry(ToNibbles(key), v) in EntriesOf(pairs) <==> (key, v) in pairs
  {
    hide ToNibbles;
    var entries := EntriesOf(pairs);
    forall a, b | a in entries && b in entries && a.path == b.path
      ensures a == b
    {
      var i :| 0 <= i < |entries| && entries[i] == a;
      var j :| 0 <= j < |entries| && entries[j] == b;
      NibblesDiffer(pairs[i].0, pairs[j].0);
    }
    if Entry(ToNibbles(key), v) in entries {
      var i :| 0 <= i < |entries| && entries[i] == Entry(ToNibbles(key), v);
      NibblesDiffer(pairs[i].0, key);
      assert pairs[i] == (key, v);
    }
    if (key, v) in pairs {
      var i :| 0 <= i < |pairs| && pairs[i] == (key, v);
      assert entries[i] == Entry(ToNibbles(key), v);
    }
  }

  /**
   * Builder and verifier agree on every key, stored or not. A stored key's own proof yields its value, unless a
   * node on its way stands inline, and then it is refused; no list of nodes whatever yields anything but what
   * is stored, so an absent key is always refused.
   */
  lemma {:induction false} TrieAgrees(c: Codec, pairs: seq<(Bytes, Bytes)>, key: Bytes, v: Bytes, nodes: seq<Bytes>)
    requires c.Sound() && pairs != [] && Assignment(pairs)
    ensures var t := Build(EntriesOf(pairs));
            var path := ToNibbles(key);
            && t.Valid()
            && ((key, v) in pairs ==>
                  Verify(c, Top(c, t), path, ProofOf(c, t, path, 0)) ==
                  if HashedOnTheWay(c, t, path) then Some(v) else None)
            && (Verify(c, Top(c, t), path, nodes) == Some(v) ==> (key, v) in pairs)
  {
    hide Build, Verify, ProofOf, ToNibbles, Top, Codec.Sound, Assignment, HashedOnTheWay, Get, Pairs;
    var entries, path := EntriesOf(pairs), ToNibbles(key);
    var t := Build(entries);
    KeysArePaths(pairs, key, v);
    BuildIsMap(entries, path, v);
    BuildIsValid(entries);
    ProofsVerifyExactly(c, t, path, 0);
    assert path[0..] == path;
    if Verify(c, Top(c, t), path, nodes).Some? { OnlyStoredVerifies(c, t, path, nodes); }
  }
}
