// The words of a lock request and of its reply: a descriptor, a count, the addresses, and behind room for all
// addresses the versions.
module LockCodec {
  import opened Timestamps

  // An object of the write set: its global address and the version word its copy starts with.
  datatype Entry = Entry(key: nat, version: nat)

  function NodeOf(key: nat): nat { (key / TWO_48) % NODE_RANGE }

  function AddressOf(key: nat): nat { key % TWO_48 }

  // The address with the node's bits above it.
  function KeyOf(node: nat, address: nat): nat { ToNodeTs(node) + address }

  // A server that knows its own node rebuilds the global address from the local part, exactly for addresses
  // without the topmost bit.
  lemma KeyRoundTrip(key: nat)
    requires key < 2 * TWO_63
    ensures KeyOf(NodeOf(key), AddressOf(key)) == key <==> key < TWO_63
  {
    var q := key / TWO_48;
    assert key == q * TWO_48 + key % TWO_48;
    assert q < NODE_RANGE <==> key < TWO_63;
  }

  lemma KeyParts(node: nat, address: nat)
    requires node < NODE_RANGE && address < TWO_48
    ensures NodeOf(KeyOf(node, address)) == node && AddressOf(KeyOf(node, address)) == address
  {
  }

  // A request buffer for up to `room` objects.
  predicate Encodes(b: seq<nat>, room: nat, tx: nat, es: seq<Entry>) {
    && |b| == 2 * room + 2 && |es| <= room
    && b[0] == tx && b[1] == |es|
    && forall i :: 0 <= i < |es| ==> b[i + 2] == AddressOf(es[i].key) && b[i + room + 2] == es[i].version
  }

  function EmptyRequest(room: nat, tx: nat): seq<nat> { seq(2 * room + 2, i => if i == 0 then tx else 0) }

  // objvers[count + 2], objvers[count + room + 2] and the count are written, in this order.
  function Append(b: seq<nat>, room: nat, e: Entry): seq<nat>
    requires |b| == 2 * room + 2 && b[1] < room
  {
    b[b[1] + 2 := AddressOf(e.key)][b[1] + room + 2 := e.version][1 := b[1] + 1]
  }

  lemma EmptyEncodes(room: nat, tx: nat)
    ensures Encodes(EmptyRequest(room, tx), room, tx, [])
  {
  }

  lemma AppendEncodes(b: seq<nat>, room: nat, tx: nat, es: seq<Entry>, e: Entry)
    requires Encodes(b, room, tx, es) && |es| < room
    ensures Encodes(Append(b, room, e), room, tx, es + [e])
  {
  }

  // What a server reads from a buffer of so many bytes, at its own node.
  function Decode(b: seq<nat>, bytes: nat, node: nat): (es: seq<Entry>)
    requires bytes == 8 * |b| && |b| >= 2 && |b| % 2 == 0 && b[1] <= (bytes - 16) / 16
  {
    var room := (bytes - 16) / 16;
    seq(b[1], i requires 0 <= i < b[1] => Entry(KeyOf(node, b[i + 2]), b[room + i + 2]))
  }

  // The server decodes exactly what was encoded.
  lemma DecodeEncoded(b: seq<nat>, room: nat, tx: nat, es: seq<Entry>, node: nat)
    requires Encodes(b, room, tx, es)
    requires forall e :: e in es ==> e.key < TWO_63 && NodeOf(e.key) == node
    ensures b[1] <= (8 * |b| - 16) / 16
    ensures Decode(b, 8 * |b|, node) == es
  {
    assert (8 * |b| - 16) / 16 == room;
    var ds := Decode(b, 8 * |b|, node);
    forall i | 0 <= i < |es| ensures ds[i] == es[i] {
      assert es[i] in es;
      KeyRoundTrip(es[i].key);
    }
  }

  // The reply to a request: the descriptor alone, or with the number of refused objects and their addresses.
  datatype Reply = Reply(words: seq<nat>, count: nat)

  function ReplyTo(b: seq<nat>, refused: seq<nat>): Reply
    requires |b| > 0
  {
    if refused == [] then Reply([b[0]], 0) else Reply([b[0], |refused|] + refused, |refused|)
  }

  // What the requesting transaction appends to its list of changed objects.
  function Changed(r: Reply): seq<nat>
    requires r.count > 0 ==> |r.words| >= 2 + r.count
  {
    if r.count > 0 then r.words[2..2 + r.count] else []
  }

  lemma ReplyRoundTrip(b: seq<nat>, refused: seq<nat>)
    requires |b| > 0
    ensures var r := ReplyTo(b, refused);
      && r.words[0] == b[0] && (r.count > 0 ==> |r.words| >= 2 + r.count) && Changed(r) == refused
  {
  }
}
