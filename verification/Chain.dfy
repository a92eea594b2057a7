/**
 The hash-linked chain: how it grows, the two validators that were written for it, and why
 they agree. The block hash is an uninterpreted function of index, time and transactions.
 */
module Chain {

  datatype Transaction = Transaction(sender: string, recipient: string, amount: real)

  datatype Block = Block(
    index: int,
    timestamp: string,
    transactions: seq<Transaction>,
    previousHash: string,
    hash: string,
    signature: string
  )

  type Hash = (int, string, seq<Transaction>) -> string

  predicate Verify(h: Hash, b: Block) {
    b.hash == h(b.index, b.timestamp, b.transactions)
  }

  function Genesis(h: Hash, timestamp: string): Block {
    Block(0, timestamp, [], "", h(0, timestamp, []), "")
  }

  /** The block that comes after a chain's last. */
  function NextBlock(h: Hash, bs: seq<Block>, transactions: seq<Transaction>, timestamp: string): Block
    requires bs != []
  {
    var previous := bs[|bs| - 1];
    var index := previous.index + 1;
    Block(index, timestamp, transactions, previous.hash, h(index, timestamp, transactions), "")
  }

  /** A block's hash matches and it names its predecessor's. */
  predicate Linked(h: Hash, bs: seq<Block>, i: nat)
    requires i < |bs|
  {
    Verify(h, bs[i]) && (i > 0 ==> bs[i].previousHash == bs[i - 1].hash)
  }

  predicate Intact(h: Hash, bs: seq<Block>) {
    forall i :: 0 <= i < |bs| ==> Linked(h, bs, i)
  }

  /** What every chain built here looks like: never empty, numbered from 0, and intact. */
  predicate WellFormed(h: Hash, bs: seq<Block>) {
    bs != [] && Numbered(bs) && Intact(h, bs)
  }

  predicate Numbered(bs: seq<Block>) {
    forall i :: 0 <= i < |bs| ==> bs[i].index == i
  }

  function Signed(b: Block, key: string, sign: (string, string) -> string): Block {
    if key == "" then b else b.(signature := sign(key, b.hash))
  }

  class Blockchain {
    var blocks: seq<Block>
    const h: Hash

    constructor (h: Hash, timestamp: string)
      ensures this.h == h && blocks == [Genesis(h, timestamp)]
      ensures blocks == [Block(0, timestamp, [], "", h(0, timestamp, []), "")]
      ensures WellFormed(h, blocks)
    {
      this.h := h;
      blocks := [Genesis(h, timestamp)];
    }

    /** Append a block; a well-formed chain stays so. Only an empty chain has no last block. */
    method AddBlock(transactions: seq<Transaction>, timestamp: string) returns (b: Block)
      requires blocks != []
      modifies this
      ensures b == NextBlock(h, old(blocks), transactions, timestamp) && blocks == old(blocks) + [b]
      ensures var last := old(blocks)[|old(blocks)| - 1];
              && b.transactions == transactions && b.timestamp == timestamp && b.signature == ""
              && b.index == last.index + 1 && b.previousHash == last.hash
              && b.hash == h(last.index + 1, timestamp, transactions)
      ensures Linked(h, blocks, |old(blocks)|)
      ensures WellFormed(h, old(blocks)) ==> WellFormed(h, blocks)
    {
      var previous := blocks[|blocks| - 1];
      var index := previous.index + 1;
      b := Block(index, timestamp, transactions, previous.hash, h(index, timestamp, transactions), "");
      blocks := blocks + [b];
      GrowsWellFormed(h, old(blocks), b);
    }

    /** Append and sign: the signature covers the hash and is not covered by it. */
    method AddSignedBlock(transactions: seq<Transaction>, timestamp: string, key: string, sign: (string, string) -> string)
      returns (b: Block)
      requires blocks != []
      modifies this
      ensures b == Signed(NextBlock(h, old(blocks), transactions, timestamp), key, sign) && blocks == old(blocks) + [b]
      ensures b.transactions == transactions && b.timestamp == timestamp
      ensures b.signature == if key == "" then "" else sign(key, b.hash)
      ensures WellFormed(h, old(blocks)) ==> WellFormed(h, blocks)
    {
      b := AddBlock(transactions, timestamp);
      if key != "" {
        b := b.(signature := sign(key, b.hash));
        blocks := blocks[|blocks| - 1 := b];
        GrowsWellFormed(h, old(blocks), b);
      }
      assert blocks == old(blocks) + [b];
    }

    method RemoveLastBlock()
      modifies this
      ensures blocks == if |old(blocks)| <= 1 then old(blocks) else old(blocks)[..|old(blocks)| - 1]
      ensures WellFormed(h, old(blocks)) ==> WellFormed(h, blocks)
    {
      if |blocks| <= 1 { return; }
      ghost var was := blocks;
      blocks := blocks[..|blocks| - 1];
      PrefixIsWellFormed(h, was, |blocks|);
    }

    method Load(loaded: seq<Block>, timestamp: string)
      modifies this
      ensures blocks == if loaded == [] then [Genesis(h, timestamp)] else loaded
    {
      if loaded == [] {
        blocks := [Genesis(h, timestamp)];
      } else {
        blocks := loaded;
      }
    }

    /** Walk the chain: the first position that is not linked, or all is well. */
    method VerifyChain() returns (bad: int, ok: bool)
      ensures ok <==> Intact(h, blocks)
      ensures ok <==> forall i :: 0 <= i < |blocks| ==>
                && blocks[i].hash == h(blocks[i].index, blocks[i].timestamp, blocks[i].transactions)
                && (i > 0 ==> blocks[i].previousHash == blocks[i - 1].hash)
      ensures bad == if ok then -1 else FirstBad(h, blocks)
    {
      IntactInFields(h, blocks);
      for i := 0 to |blocks|
        invariant forall k :: 0 <= k < i ==> Linked(h, blocks, k)
      {
        if !Verify(h, blocks[i]) || (i > 0 && blocks[i].previousHash != blocks[i - 1].hash) {
          FirstBadIs(h, blocks, i);
          return i, false;
        }
      }
      bad, ok := -1, true;
    }
  }

  lemma GrowsWellFormed(h: Hash, bs: seq<Block>, b: Block)
    requires bs != [] && Verify(h, b) && b.previousHash == bs[|bs| - 1].hash && b.index == bs[|bs| - 1].index + 1
    ensures WellFormed(h, bs) ==> WellFormed(h, bs + [b])
  {
    if WellFormed(h, bs) {
      var cs := bs + [b];
      forall i | 0 <= i < |cs| ensures Linked(h, cs, i) {
        if i < |bs| { assert Linked(h, bs, i); }
      }
    }
  }

  lemma PrefixIsWellFormed(h: Hash, bs: seq<Block>, n: nat)
    requires 0 < n <= |bs|
    ensures WellFormed(h, bs) ==> WellFormed(h, bs[..n])
  {
    if WellFormed(h, bs) {
      forall i | 0 <= i < n ensures Linked(h, bs[..n], i) {
        assert Linked(h, bs, i);
      }
    }
  }

  /** The length of the longest intact prefix. */
  function FirstBad(h: Hash, bs: seq<Block>): (n: nat)
    ensures n <= |bs|
    ensures forall i :: 0 <= i < n ==> Linked(h, bs, i)
    ensures n < |bs| ==> !Linked(h, bs, n)
  {
    FirstBadFrom(h, bs, 0)
  }

  function FirstBadFrom(h: Hash, bs: seq<Block>, from: nat): (n: nat)
    requires from <= |bs| && forall i :: 0 <= i < from ==> Linked(h, bs, i)
    ensures from <= n <= |bs|
    ensures forall i :: 0 <= i < n ==> Linked(h, bs, i)
    ensures n < |bs| ==> !Linked(h, bs, n)
    decreases |bs| - from
  {
    if from < |bs| && Linked(h, bs, from) then FirstBadFrom(h, bs, from + 1) else from
  }

  lemma FirstBadIs(h: Hash, bs: seq<Block>, n: nat)
    requires n < |bs| && !Linked(h, bs, n) && forall i :: 0 <= i < n ==> Linked(h, bs, i)
    ensures FirstBad(h, bs) == n
  {
  }

  // ----- the other validator, used when blocks are read back

  /** What the filter asks of block `i` when all before it were kept. */
  predicate Kept(h: Hash, bs: seq<Block>, i: nat)
    requires i < |bs|
  {
    Verify(h, bs[i]) && (bs[i].index > 0 ==> bs[i].previousHash == if i == 0 then "" else bs[i - 1].hash)
  }

  function KeptFrom(h: Hash, bs: seq<Block>, from: nat): (n: nat)
    requires from <= |bs| && forall i :: 0 <= i < from ==> Kept(h, bs, i)
    ensures from <= n <= |bs|
    ensures forall i :: 0 <= i < n ==> Kept(h, bs, i)
    ensures n < |bs| ==> !Kept(h, bs, n)
    decreases |bs| - from
  {
    if from < |bs| && Kept(h, bs, from) then KeptFrom(h, bs, from + 1) else from
  }

  /** The longest prefix whose blocks all pass the filter's test. */
  function KeptPrefix(h: Hash, bs: seq<Block>): (kept: seq<Block>)
    ensures kept <= bs
    ensures forall i :: 0 <= i < |kept| ==> Kept(h, bs, i)
    ensures |kept| < |bs| ==> !Kept(h, bs, |kept|)
  {
    bs[..KeptFrom(h, bs, 0)]
  }

  lemma KeptPrefixIs(h: Hash, bs: seq<Block>, n: nat)
    requires n <= |bs| && (forall i :: 0 <= i < n ==> Kept(h, bs, i)) && (n < |bs| ==> !Kept(h, bs, n))
    ensures KeptPrefix(h, bs) == bs[..n]
  {
    assert |KeptPrefix(h, bs)| == n;
  }

  method FilterValidBlocks(h: Hash, bs: seq<Block>) returns (kept: seq<Block>)
    ensures kept == KeptPrefix(h, bs)
  {
    kept := [];
    var previousHash := "";
    for i := 0 to |bs|
      invariant kept == bs[..i]
      invariant previousHash == if i == 0 then "" else bs[i - 1].hash
      invariant forall k :: 0 <= k < i ==> Kept(h, bs, k)
    {
      if !Verify(h, bs[i]) || (bs[i].index > 0 && bs[i].previousHash != previousHash) {
        KeptPrefixIs(h, bs, i);
        return;
      }
      previousHash := bs[i].hash;
      kept := kept + [bs[i]];
    }
    KeptPrefixIs(h, bs, |bs|);
  }

  /** A block with the right hash and the wrong link that only one validator objects to: the
      filter if it comes first with a positive number, the chain check if it comes later
      without one. */
  predicate Excused(h: Hash, bs: seq<Block>, i: nat)
    requires i < |bs|
  {
    Verify(h, bs[i]) &&
    if i == 0 then bs[i].index > 0 && bs[i].previousHash != ""
    else bs[i].index <= 0 && bs[i].previousHash != bs[i - 1].hash
  }

  /** For every list of blocks: the two validators stop at the same block exactly when no
      block up to the first bad one is excused. */
  lemma ValidatorsAgreeIff(h: Hash, bs: seq<Block>)
    ensures |KeptPrefix(h, bs)| == FirstBad(h, bs) <==>
            forall i :: 0 <= i < |bs| && i <= FirstBad(h, bs) ==> !Excused(h, bs, i)
  {
    var kept := KeptPrefix(h, bs);
    var n := FirstBad(h, bs);
    assert forall i :: 0 <= i < |bs| ==> (Kept(h, bs, i) != Linked(h, bs, i) <==> Excused(h, bs, i));
    if |kept| < n {
      assert Linked(h, bs, |kept|) && Excused(h, bs, |kept|);
    } else if n < |kept| {
      assert Kept(h, bs, n) && Excused(h, bs, n);
    }
  }

  /** Only the first block is numbered 0 or less. */
  predicate IndexShape(bs: seq<Block>) {
    forall i :: 0 <= i < |bs| ==> if i == 0 then bs[i].index == 0 else bs[i].index > 0
  }

  /** On lists of that shape the two validators agree block by block, so the filter keeps
      the longest intact prefix, up to the first block the chain check reports. */
  lemma ValidatorsAgree(h: Hash, bs: seq<Block>)
    requires IndexShape(bs)
    ensures var kept := KeptPrefix(h, bs);
            && |kept| == FirstBad(h, bs)
            && (kept == bs <==> Intact(h, bs))
            && Intact(h, kept)
  {
    var kept := KeptPrefix(h, bs);
    forall i | 0 <= i < |bs| ensures Kept(h, bs, i) <==> Linked(h, bs, i) {
    }
    var n := FirstBad(h, bs);
    assert |kept| < |bs| ==> !Linked(h, bs, |kept|);
    forall i | 0 <= i < |kept| ensures Linked(h, kept, i) {
      assert Linked(h, bs, i);
    }
  }

  /** Outside that shape they can differ: a second block numbered 0 is not asked for its link
      by the filter, but it is by the chain check. */
  lemma ShapeIsNeeded(h: Hash, time: string)
    ensures var a := Genesis(h, time);
            var b := a.(previousHash := a.hash + "x");
            Kept(h, [a, b], 0) && Kept(h, [a, b], 1) && FirstBad(h, [a, b]) == 1
  {
    var a := Genesis(h, time);
    var b := a.(previousHash := a.hash + "x");
    assert Linked(h, [a, b], 0) && !Linked(h, [a, b], 1);
  }

  /** A well-formed chain has that shape and passes both. */
  lemma WellFormedIsKept(h: Hash, bs: seq<Block>)
    requires WellFormed(h, bs)
    ensures IndexShape(bs) && FirstBad(h, bs) == |bs| && KeptPrefix(h, bs) == bs
  {
    forall i | 0 <= i < |bs| ensures Kept(h, bs, i) {
      assert Linked(h, bs, i);
    }
    KeptPrefixIs(h, bs, |bs|);
  }

  /** Not empty, and the filter keeps all of it. */
  predicate Clean(h: Hash, bs: seq<Block>) {
    bs != [] && forall i :: 0 <= i < |bs| ==> Kept(h, bs, i)
  }

  /** In the fields: every block has the right hash, and every block numbered above 0 names the
      one before it, the first of all none. */
  lemma CleanInFields(h: Hash, bs: seq<Block>)
    ensures Clean(h, bs) <==> bs != [] && forall i :: 0 <= i < |bs| ==>
              && bs[i].hash == h(bs[i].index, bs[i].timestamp, bs[i].transactions)
              && (bs[i].index > 0 ==> bs[i].previousHash == if i == 0 then "" else bs[i - 1].hash)
  {
    if Clean(h, bs) {
      forall i | 0 <= i < |bs|
        ensures bs[i].hash == h(bs[i].index, bs[i].timestamp, bs[i].transactions)
        ensures bs[i].index > 0 ==> bs[i].previousHash == if i == 0 then "" else bs[i - 1].hash
      {
        assert Kept(h, bs, i);
      }
    }
  }

  lemma IntactInFields(h: Hash, bs: seq<Block>)
    ensures Intact(h, bs) <==> forall i :: 0 <= i < |bs| ==>
              && bs[i].hash == h(bs[i].index, bs[i].timestamp, bs[i].transactions)
              && (i > 0 ==> bs[i].previousHash == bs[i - 1].hash)
  {
    if Intact(h, bs) {
      forall i | 0 <= i < |bs|
        ensures bs[i].hash == h(bs[i].index, bs[i].timestamp, bs[i].transactions)
        ensures i > 0 ==> bs[i].previousHash == bs[i - 1].hash
      {
        assert Linked(h, bs, i);
      }
    }
  }

  lemma CleanIsKept(h: Hash, bs: seq<Block>)
    requires bs != []
    ensures Clean(h, bs) <==> KeptPrefix(h, bs) == bs
  {
    if Clean(h, bs) {
      KeptPrefixIs(h, bs, |bs|);
    }
  }

  /** What the filter keeps of anything is clean, if it is anything. */
  lemma KeptIsClean(h: Hash, bs: seq<Block>)
    requires KeptPrefix(h, bs) != []
    ensures Clean(h, KeptPrefix(h, bs))
  {
    PrefixIsClean(h, bs, |KeptPrefix(h, bs)|);
  }

  lemma PrefixIsClean(h: Hash, bs: seq<Block>, n: nat)
    requires 0 < n <= |bs| && forall i :: 0 <= i < n ==> Kept(h, bs, i)
    ensures Clean(h, bs[..n])
  {
    forall i | 0 <= i < n ensures Kept(h, bs[..n], i) {
      assert Kept(h, bs, i);
    }
  }

  lemma GrowsClean(h: Hash, bs: seq<Block>, b: Block)
    requires Clean(h, bs) && Verify(h, b) && b.previousHash == bs[|bs| - 1].hash
    ensures Clean(h, bs + [b])
  {
    var cs := bs + [b];
    forall i | 0 <= i < |cs| ensures Kept(h, cs, i) {
      if i < |bs| { assert Kept(h, bs, i); }
    }
  }

  /** For chains numbered from 0, clean is well formed. */
  lemma CleanIsWellFormed(h: Hash, bs: seq<Block>)
    requires Numbered(bs)
    ensures Clean(h, bs) <==> WellFormed(h, bs)
  {
    forall i | 0 <= i < |bs| ensures Kept(h, bs, i) <==> Linked(h, bs, i) {
    }
  }
}
