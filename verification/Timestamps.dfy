/** Lock words of the distributed STM: a 64-bit word holds a lock bit, the node
    of the last writer and the version that writer committed. */
module Timestamps {

  const TWO_48: nat := 0x1_0000_0000_0000
  const TWO_63: nat := 0x8000_0000_0000_0000
  const TWO_64: nat := 0x1_0000_0000_0000_0000
  const NODE_RANGE: nat := 0x8000

  type uint64 = x: nat | x < TWO_64

  // The packing macros; shifts and masks are written as division and remainder.

  function LockBitTs(x: uint64): nat { x / TWO_63 }

  function NodeTs(x: uint64): nat { (x / TWO_48) % NODE_RANGE }

  function VersionTs(x: uint64): nat { x % TWO_48 }

  function ToNodeTs(node: nat): uint64 { (node % NODE_RANGE) * TWO_48 }

  /** A lock word, unpacked. */
  datatype Word = Word(locked: bool, node: nat, ver: nat) {

    predicate Fits() {
      node < NODE_RANGE && ver < TWO_48
    }

    function Locked(): Word { this.(locked := true) }

    function Unlocked(): Word { this.(locked := false) }

    /** C comparison of the packed words. */
    predicate RawGreater(w: Word) {
      if locked != w.locked then locked
      else if node != w.node then node > w.node
      else ver > w.ver
    }

    /** isTimestampGreater: only the version fields are compared. */
    predicate Newer(w: Word) {
      ver > w.ver
    }

    /** isTimestampsEquivalent: node and version agree, the lock bit is ignored. */
    predicate Equivalent(w: Word) {
      node == w.node && ver == w.ver
    }
  }

  /** The word written by a fresh memory manager. */
  const ZERO_WORD: Word := Word(false, 0, 0)

  function Pack(w: Word): (x: uint64)
    requires w.Fits()
  {
    (if w.locked then TWO_63 else 0) + ToNodeTs(w.node) + w.ver
  }

  function Unpack(x: uint64): Word {
    Word(LockBitTs(x) != 0, NodeTs(x), VersionTs(x))
  }

  lemma UnpackPack(w: Word)
    requires w.Fits()
    ensures Unpack(Pack(w)) == w
    ensures w.Locked().Fits() && Pack(w.Locked()) == (if w.locked then 0 else TWO_63) + Pack(w)
  {
    var l := if w.locked then 1 else 0;
    var high := l * NODE_RANGE + w.node;
    assert Pack(w) == high * TWO_48 + w.ver;
    assert Pack(w) / TWO_48 == high;
  }

  lemma PackUnpack(x: uint64)
    ensures Unpack(x).Fits() && Pack(Unpack(x)) == x
  {
    var high := x / TWO_48;
    assert x == high * TWO_48 + x % TWO_48;
    assert x / TWO_63 == high / NODE_RANGE;
  }

  /** Comparing packed words as unsigned integers compares lock bit, node and
      version in this order of significance. */
  lemma RawComparison(a: Word, b: Word)
    requires a.Fits() && b.Fits()
    ensures Pack(a) > Pack(b) <==> a.RawGreater(b)
    ensures Pack(a) == Pack(b) <==> a == b
  {
    UnpackPack(a);
    UnpackPack(b);
  }

  /** When the raw comparison of two unlocked words can stand in for the
      comparison of their versions. */
  lemma RawComparisonIsVersionComparison(a: Word, b: Word)
    requires !a.locked && !b.locked
    ensures (a.RawGreater(b) <==> a.Newer(b)) <==> (a.node == b.node || (a.node > b.node <==> a.ver > b.ver))
  {
  }

  /** Across nodes the two comparisons disagree: version 7 committed on node 0
      is not refused to a transaction that read version 3 of node 1. */
  lemma RawComparisonAcrossNodes()
    ensures var current, read := Word(false, 0, 7), Word(false, 1, 3);
            current.Newer(read) && !current.RawGreater(read)
  {
  }
}
