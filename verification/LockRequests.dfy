// Asking for the locks of a whole write set: entries are collected per home node until one node's request is
// full, the requests are sent and answered, and the next batch starts where the last one stopped.
module LockRequests {
  import opened Timestamps
  import opened LockCodec

  // The entries of a slice that live on one node, in order.
  function OnNode(es: seq<Entry>, node: nat): seq<Entry> {
    if es == [] then [] else
    var last := |es| - 1;
    OnNode(es[..last], node) + if NodeOf(es[last].key) == node then [es[last]] else []
  }

  // The entries that live on some of the nodes, in order.
  function OnNodes(es: seq<Entry>, nodes: set<nat>): seq<Entry> {
    if es == [] then [] else
    var last := |es| - 1;
    OnNodes(es[..last], nodes) + if NodeOf(es[last].key) in nodes then [es[last]] else []
  }

  predicate KeysDiffer(es: seq<Entry>) {
    forall i, j :: 0 <= i < j < |es| ==> es[i].key != es[j].key
  }

  // Global addresses have no topmost bit and version words no lock bit.
  predicate Plain(es: seq<Entry>) {
    forall e :: e in es ==> e.key < TWO_63 && e.version < TWO_63
  }

  lemma {:induction false} OnNodeHas(es: seq<Entry>, node: nat, e: Entry)
    ensures e in OnNode(es, node) <==> e in es && NodeOf(e.key) == node
  {
    if es != [] {
      OnNodeHas(es[..|es| - 1], node, e);
      assert es == es[..|es| - 1] + [es[|es| - 1]];
    }
  }

  lemma {:induction false} OnNodesHas(es: seq<Entry>, nodes: set<nat>, e: Entry)
    ensures e in OnNodes(es, nodes) <==> e in es && NodeOf(e.key) in nodes
  {
    if es != [] {
      OnNodesHas(es[..|es| - 1], nodes, e);
      assert es == es[..|es| - 1] + [es[|es| - 1]];
    }
  }

  lemma {:induction false} OnNodeDiffers(es: seq<Entry>, node: nat)
    requires KeysDiffer(es)
    ensures KeysDiffer(OnNode(es, node))
  {
    if es != [] {
      var rest := es[..|es| - 1];
      OnNodeDiffers(rest, node);
      forall e | e in OnNode(rest, node) ensures e.key != es[|es| - 1].key {
        OnNodeHas(rest, node, e);
        var i :| 0 <= i < |rest| && rest[i] == e;
      }
    }
  }

  // Asking one more node adds exactly the entries that live there.
  lemma {:induction false} OneMoreNode(es: seq<Entry>, nodes: set<nat>, node: nat)
    requires node !in nodes
    ensures multiset(OnNodes(es, nodes + {node})) == multiset(OnNodes(es, nodes)) + multiset(OnNode(es, node))
  {
    if es != [] {
      OneMoreNode(es[..|es| - 1], nodes, node);
    }
  }

  lemma {:induction false} AllNodes(es: seq<Entry>, nodes: set<nat>)
    requires forall e :: e in es ==> NodeOf(e.key) in nodes
    ensures OnNodes(es, nodes) == es
  {
    if es != [] {
      assert es[|es| - 1] in es;
      AllNodes(es[..|es| - 1], nodes);
      assert es == es[..|es| - 1] + [es[|es| - 1]];
    }
  }

  lemma {:induction false} NoNodes(es: seq<Entry>)
    ensures OnNodes(es, {}) == []
  {
    if es != [] {
      NoNodes(es[..|es| - 1]);
    }
  }

  // ---------------------------------------------------------------- the servers

  // Setting the topmost of 64 bits.
  function Locked(version: nat): nat { if version < TWO_63 then version + TWO_63 else version }

  // What other transactions make of the lock words: the word a server reads first, and the word its compare-and-swap
  // finds. Each object of a request is looked at once.
  datatype World = World(seen: nat -> nat, found: nat -> nat)

  predicate Grants(e: Entry, world: World) {
    world.seen(e.key) <= e.version && world.found(e.key) == world.seen(e.key)
  }

  // The stores to one lock word on behalf of the transaction, in order, after it has been asked for.
  function After(stores: seq<nat>, e: Entry, world: World): seq<nat> {
    if Grants(e, world) then stores + [Locked(e.version)] else stores
  }

  function Read(stores: map<nat, seq<nat>>, key: nat): seq<nat> { if key in stores then stores[key] else [] }

  // The first n entries have been asked for; changed lists those refused.
  ghost predicate Partly(was: map<nat, seq<nat>>, now: map<nat, seq<nat>>, ws: seq<Entry>, n: nat, world: World, changed: seq<nat>)
    requires n <= |ws|
  {
    && (forall i :: 0 <= i < n ==>
          Read(now, ws[i].key) == After(Read(was, ws[i].key), ws[i], world)
          && (ws[i].key in changed <==> !Grants(ws[i], world)))
    && (forall key :: (forall i :: 0 <= i < n ==> ws[i].key != key) ==> Read(now, key) == Read(was, key) && key !in changed)
  }

  // The next entry is asked for.
  lemma AskedOne(was: map<nat, seq<nat>>, now: map<nat, seq<nat>>, es: seq<Entry>, n: nat, world: World, changed: seq<nat>)
    requires n < |es| && KeysDiffer(es) && Partly(was, now, es, n, world, changed)
    ensures Partly(was, if Grants(es[n], world) then now[es[n].key := Read(now, es[n].key) + [Locked(es[n].version)]] else now,
                   es, n + 1, world, if Grants(es[n], world) then changed else changed + [es[n].key])
  {
    var e := es[n];
    assert forall i :: 0 <= i < n ==> es[i].key != e.key;
    assert Read(now, e.key) == Read(was, e.key) && e.key !in changed;
    if Grants(e, world) {
      GrantedOne(was, now, es, n, world, changed);
    } else {
      RefusedOne(was, now, es, n, world, changed);
    }
  }

  lemma GrantedOne(was: map<nat, seq<nat>>, now: map<nat, seq<nat>>, es: seq<Entry>, n: nat, world: World, changed: seq<nat>)
    requires n < |es| && Partly(was, now, es, n, world, changed) && Grants(es[n], world)
    requires Read(now, es[n].key) == Read(was, es[n].key) && es[n].key !in changed
    requires forall i :: 0 <= i < n ==> es[i].key != es[n].key
    ensures Partly(was, now[es[n].key := Read(now, es[n].key) + [Locked(es[n].version)]], es, n + 1, world, changed)
  {
  }

  lemma RefusedOne(was: map<nat, seq<nat>>, now: map<nat, seq<nat>>, es: seq<Entry>, n: nat, world: World, changed: seq<nat>)
    requires n < |es| && Partly(was, now, es, n, world, changed) && !Grants(es[n], world)
    requires Read(now, es[n].key) == Read(was, es[n].key) && es[n].key !in changed
    requires forall i :: 0 <= i < n ==> es[i].key != es[n].key
    ensures Partly(was, now, es, n + 1, world, changed + [es[n].key])
  {
  }

  lemma AllAsked(was: map<nat, seq<nat>>, now: map<nat, seq<nat>>, es: seq<Entry>, world: World, changed: seq<nat>)
    requires Partly(was, now, es, |es|, world, changed)
    ensures forall e :: e in es ==>
      Read(now, e.key) == After(Read(was, e.key), e, world) && (e.key in changed <==> !Grants(e, world))
    ensures forall key :: (forall e :: e in es ==> e.key != key) ==> Read(now, key) == Read(was, key) && key !in changed
  {
    forall e | e in es
      ensures Read(now, e.key) == After(Read(was, e.key), e, world) && (e.key in changed <==> !Grants(e, world))
    {
      var i :| 0 <= i < |es| && es[i] == e;
    }
    forall key | forall e :: e in es ==> e.key != key ensures Read(now, key) == Read(was, key) && key !in changed {
      assert forall i :: 0 <= i < |es| ==> es[i] in es;
    }
  }

  // The stores to the lock words of all nodes, by global address, and the requests received so far.
  class Servers {
    var stores: map<nat, seq<nat>>
    var received: seq<Entry>

    function StoresAt(key: nat): seq<nat>
      reads this
    {
      Read(stores, key)
    }

    // One server answers one request buffer.
    method ProcessLocksRequest(b: seq<nat>, bytes: nat, node: nat, world: World) returns (refused: seq<nat>)
      requires bytes == 8 * |b| && |b| >= 2 && |b| % 2 == 0 && b[1] <= (bytes - 16) / 16
      requires KeysDiffer(Decode(b, bytes, node))
      modifies this
      ensures received == old(received) + Decode(b, bytes, node)
      ensures forall e :: e in Decode(b, bytes, node) ==>
        StoresAt(e.key) == After(old(StoresAt(e.key)), e, world) && (e.key in refused <==> !Grants(e, world))
      ensures forall key :: (forall e :: e in Decode(b, bytes, node) ==> e.key != key) ==>
        StoresAt(key) == old(StoresAt(key)) && key !in refused
    {
      var objectsNum := (bytes - 16) / 16;
      var realObjectsNum := b[1];
      ghost var es := Decode(b, bytes, node);
      ghost var w0 := stores;
      var current := 0;
      refused := [];
      while current < realObjectsNum
        invariant current <= realObjectsNum
        invariant received == old(received) + es[..current]
        invariant Partly(w0, stores, es, current, world, refused)
      {
        var key := KeyOf(node, b[current + 2]);
        var version := b[objectsNum + current + 2];
        assert es[current] == Entry(key, version);
        AskedOne(w0, stores, es, current, world, refused);
        var seen := world.seen(key);
        if seen > version || world.found(key) != seen {
          refused := refused + [key];
        } else {
          stores := stores[key := StoresAt(key) + [Locked(version)]];
        }
        received := received + [Entry(key, version)];
        assert es[..current + 1] == es[..current] + [es[current]];
        current := current + 1;
      }
      assert es[..current] == es;
      AllAsked(w0, stores, es, world, refused);
    }
  }

  // ---------------------------------------------------------------- one batch

  // The servers of some nodes have answered for their entries of a batch; nothing else has changed.
  ghost predicate Answered(was: map<nat, seq<nat>>, now: map<nat, seq<nat>>, es: seq<Entry>, nodes: set<nat>, world: World,
                           changed: seq<nat>) {
    && (forall e :: e in es && NodeOf(e.key) in nodes ==>
          Read(now, e.key) == After(Read(was, e.key), e, world)
          && (e.key in changed <==> !Grants(e, world)))
    && (forall key :: (forall e :: e in es && NodeOf(e.key) in nodes ==> e.key != key) ==>
          Read(now, key) == Read(was, key) && key !in changed)
  }

  lemma AnswerOne(was: map<nat, seq<nat>>, mid: map<nat, seq<nat>>, now: map<nat, seq<nat>>, es: seq<Entry>, nodes: set<nat>, node: nat,
                  world: World, changed: seq<nat>, refused: seq<nat>)
    requires Answered(was, mid, es, nodes, world, changed) && node !in nodes && KeysDiffer(es)
    requires Answered(mid, now, OnNode(es, node), {node}, world, refused)
    ensures Answered(was, now, es, nodes + {node}, world, changed + refused)
  {
    var mine := OnNode(es, node);
    forall e ensures e in mine <==> e in es && NodeOf(e.key) == node {
      OnNodeHas(es, node, e);
    }
    forall e | e in es && NodeOf(e.key) in nodes + {node}
      ensures Read(now, e.key) == After(Read(was, e.key), e, world)
      ensures e.key in changed + refused <==> !Grants(e, world)
    {
      SameKeySameNode(es, mine, nodes, node, e);
    }
  }

  // Entries of different nodes have different keys.
  lemma SameKeySameNode(es: seq<Entry>, mine: seq<Entry>, nodes: set<nat>, node: nat, e: Entry)
    requires node !in nodes && forall x :: x in mine <==> x in es && NodeOf(x.key) == node
    requires e in es
    ensures NodeOf(e.key) in nodes ==> forall x :: x in mine ==> x.key != e.key
    ensures NodeOf(e.key) == node ==> e in mine && forall x :: x in es && NodeOf(x.key) in nodes ==> x.key != e.key
  {
  }

  // The requests filled so far hold exactly the entries of a slice, each at its own node.
  ghost predicate Collected(requests: map<nat, seq<nat>>, room: nat, tx: nat, slice: seq<Entry>) {
    && (forall e :: e in slice ==> NodeOf(e.key) in requests)
    && (forall node :: node in requests ==> Encodes(requests[node], room, tx, OnNode(slice, node)))
    && (forall node :: node !in requests ==> OnNode(slice, node) == [])
  }

  lemma OnNodeSnoc(slice: seq<Entry>, e: Entry, node: nat)
    ensures OnNode(slice + [e], node) == OnNode(slice, node) + if NodeOf(e.key) == node then [e] else []
  {
    assert (slice + [e])[..|slice|] == slice;
  }

  lemma OthersSame(slice: seq<Entry>, e: Entry)
    ensures forall node :: node != NodeOf(e.key) ==> OnNode(slice + [e], node) == OnNode(slice, node)
  {
    forall node | node != NodeOf(e.key) ensures OnNode(slice + [e], node) == OnNode(slice, node) {
      OnNodeSnoc(slice, e, node);
    }
  }

  ghost predicate Room(slice: seq<Entry>, room: nat) { forall node :: |OnNode(slice, node)| < room }

  ghost predicate Full(slice: seq<Entry>, room: nat) { exists node :: |OnNode(slice, node)| == room }

  lemma RoomAfter(slice: seq<Entry>, e: Entry, room: nat)
    requires Room(slice, room)
    ensures |OnNode(slice + [e], NodeOf(e.key))| == room ==> Full(slice + [e], room)
    ensures |OnNode(slice + [e], NodeOf(e.key))| < room ==> Room(slice + [e], room)
  {
    OthersSame(slice, e);
  }

  // The request entry e is added to.
  function Target(requests: map<nat, seq<nat>>, room: nat, tx: nat, e: Entry): seq<nat> {
    if NodeOf(e.key) in requests then requests[NodeOf(e.key)] else EmptyRequest(room, tx)
  }

  lemma TargetEncodes(requests: map<nat, seq<nat>>, room: nat, tx: nat, slice: seq<Entry>, e: Entry)
    requires Collected(requests, room, tx, slice) && |OnNode(slice, NodeOf(e.key))| < room
    ensures var b := Target(requests, room, tx, e);
      && |b| == 2 * room + 2 && b[1] < room
      && Encodes(Append(b, room, e), room, tx, OnNode(slice + [e], NodeOf(e.key)))
      && Append(b, room, e)[1] == |OnNode(slice + [e], NodeOf(e.key))|
  {
    EmptyEncodes(room, tx);
    AppendEncodes(Target(requests, room, tx, e), room, tx, OnNode(slice, NodeOf(e.key)), e);
    OnNodeSnoc(slice, e, NodeOf(e.key));
  }

  lemma CollectOne(requests: map<nat, seq<nat>>, room: nat, tx: nat, slice: seq<Entry>, e: Entry, b: seq<nat>)
    requires Collected(requests, room, tx, slice) && Encodes(b, room, tx, OnNode(slice + [e], NodeOf(e.key)))
    ensures Collected(requests[NodeOf(e.key) := b], room, tx, slice + [e])
  {
    OthersSame(slice, e);
    var after := requests[NodeOf(e.key) := b];
    forall node | node in after ensures Encodes(after[node], room, tx, OnNode(slice + [e], node)) {
      if node != NodeOf(e.key) {
        assert after[node] == requests[node] && OnNode(slice + [e], node) == OnNode(slice, node);
      }
    }
  }

  // ---------------------------------------------------------------- all batches

  lemma BatchOf(ws: seq<Entry>, n: nat, m: nat)
    requires n <= m <= |ws| && KeysDiffer(ws) && Plain(ws)
    ensures KeysDiffer(ws[n..m]) && Plain(ws[n..m])
    ensures ws[..m] == ws[..n] + ws[n..m]
  {
  }

  lemma SliceSnoc(ws: seq<Entry>, n: nat, m: nat)
    requires n <= m < |ws|
    ensures ws[n..m + 1] == ws[n..m] + [ws[m]]
  {
  }

  // Whoever is in a slice is one of the entries n to m.
  lemma SliceIs(ws: seq<Entry>, n: nat, m: nat)
    requires n <= m <= |ws|
    ensures forall e :: e in ws[n..m] <==> exists i :: n <= i < m && ws[i] == e
  {
    forall e | e in ws[n..m] ensures exists i :: n <= i < m && ws[i] == e {
      var j :| 0 <= j < |ws[n..m]| && ws[n..m][j] == e;
      assert ws[n + j] == e;
    }
    forall i | n <= i < m ensures ws[i] in ws[n..m] {
      assert ws[n..m][i - n] == ws[i];
    }
  }

  lemma Extend(w0: map<nat, seq<nat>>, mid: map<nat, seq<nat>>, now: map<nat, seq<nat>>, ws: seq<Entry>, n: nat, m: nat,
               nodes: set<nat>, world: World, changed: seq<nat>)
    requires n <= m <= |ws| && KeysDiffer(ws) && Partly(w0, mid, ws, n, world, [])
    requires Answered(mid, now, ws[n..m], nodes, world, changed)
    requires forall e :: e in ws[n..m] ==> NodeOf(e.key) in nodes
    ensures Partly(w0, now, ws, m, world, changed)
  {
    SliceIs(ws, n, m);
    forall i | 0 <= i < m
      ensures Read(now, ws[i].key) == After(Read(w0, ws[i].key), ws[i], world)
      ensures ws[i].key in changed <==> !Grants(ws[i], world)
    {
      if i < n {
        assert forall e :: e in ws[n..m] ==> e.key != ws[i].key;
      } else {
        assert ws[i] in ws[n..m];
        assert forall j :: 0 <= j < n ==> ws[j].key != ws[i].key;
      }
    }
  }

  lemma SomeRefused(was: map<nat, seq<nat>>, now: map<nat, seq<nat>>, ws: seq<Entry>, n: nat, world: World, changed: seq<nat>)
    requires n <= |ws| && Partly(was, now, ws, n, world, changed) && changed != []
    ensures exists i :: 0 <= i < n && !Grants(ws[i], world)
  {
    var key := changed[0];
    assert key in changed;
    assert !(forall i :: 0 <= i < n ==> ws[i].key != key);
    var i :| 0 <= i < n && ws[i].key == key;
  }

  // Since n0 the servers have received exactly these entries, in some order.
  ghost predicate Delivered(n0: seq<Entry>, received: seq<Entry>, es: seq<Entry>) {
    n0 <= received && multiset(received) == multiset(n0) + multiset(es)
  }

  lemma DeliverMore(n0: seq<Entry>, received: seq<Entry>, slice: seq<Entry>, done: set<nat>, node: nat)
    requires Delivered(n0, received, OnNodes(slice, done)) && node !in done
    ensures Delivered(n0, received + OnNode(slice, node), OnNodes(slice, done + {node}))
  {
    OneMoreNode(slice, done, node);
  }

  lemma SentSince(n0: seq<Entry>, received: seq<Entry>, asked: seq<Entry>)
    requires Delivered(n0, received, asked)
    ensures multiset(received[|n0|..]) == multiset(asked)
  {
    var rest := received[|n0|..];
    assert received == n0 + rest;
    assert multiset(received) == multiset(n0) + multiset(rest);
    forall e: Entry ensures multiset(rest)[e] == multiset(asked)[e] {
      assert multiset(received)[e] == multiset(n0)[e] + multiset(rest)[e];
    }
  }

  class Transaction {
    const descriptor: nat
    const maxRequestedLocksPerNode: nat
    // The write set in the order of its iteration.
    var writeSet: seq<Entry>
    var rlChangedObjects: seq<nat>
    var rlNodes: nat

    constructor (descriptor: nat, room: nat, writeSet: seq<Entry>)
      requires room > 0
      ensures maxRequestedLocksPerNode == room && this.writeSet == writeSet && this.descriptor == descriptor
      ensures rlChangedObjects == []
    {
      this.descriptor, maxRequestedLocksPerNode, this.writeSet := descriptor, room, writeSet;
      rlChangedObjects, rlNodes := [], 0;
    }

    // Collects entries per node until a node's request is full or the write set ends.
    method FillBatch(from: nat) returns (requests: map<nat, seq<nat>>, upto: nat, ghost slice: seq<Entry>)
      requires maxRequestedLocksPerNode > 0 && from < |writeSet|
      ensures from < upto <= |writeSet| && slice == writeSet[from..upto]
      ensures Collected(requests, maxRequestedLocksPerNode, descriptor, slice)
      // A batch ends early only when some node's request has no room left.
      ensures upto < |writeSet| ==> Full(slice, maxRequestedLocksPerNode)
    {
      requests := map[];
      upto := from;
      slice := [];
      while true
        invariant from <= upto < |writeSet| && slice == writeSet[from..upto]
        invariant Collected(requests, maxRequestedLocksPerNode, descriptor, slice)
        invariant Room(slice, maxRequestedLocksPerNode)
        decreases |writeSet| - upto
      {
        var e := writeSet[upto];
        var full;
        requests, full := AddEntry(requests, e, slice);
        RoomAfter(slice, e, maxRequestedLocksPerNode);
        SliceSnoc(writeSet, from, upto);
        slice := slice + [e];
        upto := upto + 1;
        if full || upto == |writeSet| {
          break;
        }
      }
    }

    // Writes one entry to the request of its node; tells whether that request is full now.
    method AddEntry(requests: map<nat, seq<nat>>, e: Entry, ghost slice: seq<Entry>)
        returns (after: map<nat, seq<nat>>, full: bool)
      requires Collected(requests, maxRequestedLocksPerNode, descriptor, slice)
      requires |OnNode(slice, NodeOf(e.key))| < maxRequestedLocksPerNode
      ensures Collected(after, maxRequestedLocksPerNode, descriptor, slice + [e])
      ensures |OnNode(slice + [e], NodeOf(e.key))| <= maxRequestedLocksPerNode
      ensures full <==> |OnNode(slice + [e], NodeOf(e.key))| == maxRequestedLocksPerNode
    {
      TargetEncodes(requests, maxRequestedLocksPerNode, descriptor, slice, e);
      var objvers: seq<nat>;
      if NodeOf(e.key) in requests {
        objvers := requests[NodeOf(e.key)];
      } else {
        objvers := EmptyRequest(maxRequestedLocksPerNode, descriptor);
      }
      objvers := Append(objvers, maxRequestedLocksPerNode, e);
      CollectOne(requests, maxRequestedLocksPerNode, descriptor, slice, e, objvers);
      after := requests[NodeOf(e.key) := objvers];
      full := objvers[1] == maxRequestedLocksPerNode;
    }

    // Asks for the lock of every entry, batch by batch. When some are refused, those granted are given back and
    // the rest of the write set is never asked for.
    method GetLocks(servers: Servers, world: World) returns (ok: bool, ghost asked: nat)
      requires maxRequestedLocksPerNode > 0 && KeysDiffer(writeSet) && Plain(writeSet) && rlChangedObjects == []
      modifies this`rlChangedObjects, this`rlNodes, servers
      ensures asked <= |writeSet| && (ok ==> asked == |writeSet|) && rlChangedObjects == []
      // Each entry asked for is asked for once, and no other entry.
      ensures old(servers.received) <= servers.received
      ensures multiset(servers.received[|old(servers.received)|..]) == multiset(writeSet[..asked])
      ensures ok <==> forall i :: 0 <= i < asked ==> Grants(writeSet[i], world)
      // A refused word is not stored to; a granted one is locked, and on failure put back, with the version asked with.
      ensures forall i :: 0 <= i < asked ==>
        var e := writeSet[i];
        servers.StoresAt(e.key) == old(servers.StoresAt(e.key)) +
          if !Grants(e, world) then [] else if ok then [Locked(e.version)] else [Locked(e.version), e.version]
      ensures forall key :: (forall i :: 0 <= i < asked ==> writeSet[i].key != key) ==>
        servers.StoresAt(key) == old(servers.StoresAt(key))
    {
      asked := 0;
      var it := 0;
      ghost var w0, n0 := servers.stores, servers.received;
      while it < |writeSet|
        invariant it <= |writeSet| && rlChangedObjects == []
        invariant Partly(w0, servers.stores, writeSet, it, world, rlChangedObjects)
        invariant Delivered(n0, servers.received, writeSet[..it])
      {
        it := RunBatch(servers, it, world, w0);
        if rlChangedObjects != [] {
          GiveBack(servers, it, world, w0);
          asked := it;
          SentSince(n0, servers.received, writeSet[..it]);
          return false, asked;
        }
      }
      asked := it;
      assert writeSet[..it] == writeSet;
      SentSince(n0, servers.received, writeSet[..it]);
      return true, asked;
    }

    // After a refusal the locks that were granted are given back.
    method GiveBack(servers: Servers, end: nat, world: World, ghost w0: map<nat, seq<nat>>)
      requires end <= |writeSet| && KeysDiffer(writeSet) && rlChangedObjects != []
      requires Partly(w0, servers.stores, writeSet, end, world, rlChangedObjects)
      modifies this`rlChangedObjects, servers`stores
      ensures rlChangedObjects == []
      ensures exists i :: 0 <= i < end && !Grants(writeSet[i], world)
      ensures forall i :: 0 <= i < end ==>
        servers.StoresAt(writeSet[i].key) == Read(w0, writeSet[i].key) +
          if Grants(writeSet[i], world) then [Locked(writeSet[i].version), writeSet[i].version] else []
      ensures forall key :: (forall i :: 0 <= i < end ==> writeSet[i].key != key) ==>
        servers.StoresAt(key) == Read(w0, key)
    {
      SomeRefused(w0, servers.stores, writeSet, end, world, rlChangedObjects);
      ReleaseLocks(servers, end);
    }

    // One batch, from entry `from` on.
    method RunBatch(servers: Servers, from: nat, world: World, ghost w0: map<nat, seq<nat>>) returns (upto: nat)
      requires maxRequestedLocksPerNode > 0 && KeysDiffer(writeSet) && Plain(writeSet) && rlChangedObjects == []
      requires from < |writeSet| && Partly(w0, servers.stores, writeSet, from, world, [])
      modifies this`rlChangedObjects, this`rlNodes, servers
      ensures from < upto <= |writeSet|
      ensures Partly(w0, servers.stores, writeSet, upto, world, rlChangedObjects)
      ensures Delivered(old(servers.received), servers.received, writeSet[from..upto])
      ensures writeSet[..upto] == writeSet[..from] + writeSet[from..upto]
    {
      ghost var mid := servers.stores;
      var requests, to, slice := FillBatch(from);
      upto := to;
      BatchOf(writeSet, from, upto);
      SendBatch(servers, requests, slice, world);
      Extend(w0, mid, servers.stores, writeSet, from, upto, requests.Keys, world, rlChangedObjects);
    }

    // Sends the requests of a batch and takes in the replies.
    method SendBatch(servers: Servers, requests: map<nat, seq<nat>>, ghost slice: seq<Entry>, world: World)
      requires Collected(requests, maxRequestedLocksPerNode, descriptor, slice)
      requires KeysDiffer(slice) && Plain(slice) && rlChangedObjects == []
      modifies this`rlChangedObjects, this`rlNodes, servers
      ensures Answered(old(servers.stores), servers.stores, slice, requests.Keys, world, rlChangedObjects)
      ensures Delivered(old(servers.received), servers.received, slice) && rlNodes == |requests|
    {
      rlNodes := 0;
      ghost var w0, n0 := servers.stores, servers.received;
      var done := {};
      NoNodes(slice);
      while done != requests.Keys
        invariant done <= requests.Keys && rlNodes == |done|
        invariant Answered(w0, servers.stores, slice, done, world, rlChangedObjects)
        invariant Delivered(n0, servers.received, OnNodes(slice, done))
        decreases requests.Keys - done
      {
        var node :| node in requests.Keys && node !in done;
        DeliverMore(n0, servers.received, slice, done, node);
        AskNode(servers, requests[node], node, slice, world, w0, done);
        done := done + {node};
      }
      AllNodes(slice, done);
    }

    // One more node of a batch is asked.
    method AskNode(servers: Servers, b: seq<nat>, node: nat, ghost slice: seq<Entry>, world: World,
                   ghost w0: map<nat, seq<nat>>, ghost done: set<nat>)
      requires Encodes(b, maxRequestedLocksPerNode, descriptor, OnNode(slice, node)) && node !in done
      requires KeysDiffer(slice) && Plain(slice) && Answered(w0, servers.stores, slice, done, world, rlChangedObjects)
      modifies this`rlChangedObjects, this`rlNodes, servers
      ensures Answered(w0, servers.stores, slice, done + {node}, world, rlChangedObjects)
      ensures servers.received == old(servers.received) + OnNode(slice, node) && rlNodes == old(rlNodes) + 1
    {
      ghost var mid := servers.stores;
      var reply := RequestLocks(servers, b, node, slice, world);
      AnswerOne(w0, mid, servers.stores, slice, done, node, world, rlChangedObjects, Changed(reply));
      LocksRequestProcessed(reply);
    }

    // One request travels to a server, and its answer back.
    method RequestLocks(servers: Servers, b: seq<nat>, node: nat, ghost slice: seq<Entry>, world: World)
        returns (reply: Reply)
      requires Encodes(b, maxRequestedLocksPerNode, descriptor, OnNode(slice, node))
      requires KeysDiffer(slice) && Plain(slice)
      modifies servers
      ensures reply.count > 0 ==> |reply.words| >= 2 + reply.count
      ensures Answered(old(servers.stores), servers.stores, OnNode(slice, node), {node}, world, Changed(reply))
      ensures servers.received == old(servers.received) + OnNode(slice, node)
    {
      forall e | e in OnNode(slice, node) ensures e.key < TWO_63 && NodeOf(e.key) == node {
        OnNodeHas(slice, node, e);
      }
      DecodeEncoded(b, maxRequestedLocksPerNode, descriptor, OnNode(slice, node), node);
      OnNodeDiffers(slice, node);
      ghost var before := servers.stores;
      var refused := servers.ProcessLocksRequest(b, 8 * |b|, node, world);
      forall e | e in OnNode(slice, node)
        ensures Read(servers.stores, e.key) == After(Read(before, e.key), e, world)
        ensures e.key in refused <==> !Grants(e, world)
      {
        assert servers.StoresAt(e.key) == Read(servers.stores, e.key);
      }
      forall key | forall e :: e in OnNode(slice, node) && NodeOf(e.key) in {node} ==> e.key != key
        ensures Read(servers.stores, key) == Read(before, key) && key !in refused
      {
        assert servers.StoresAt(key) == Read(servers.stores, key);
      }
      ReplyRoundTrip(b, refused);
      reply := ReplyTo(b, refused);
    }

    method LocksRequestProcessed(reply: Reply)
      requires reply.count > 0 ==> |reply.words| >= 2 + reply.count
      modifies this`rlChangedObjects, this`rlNodes
      ensures rlChangedObjects == old(rlChangedObjects) + Changed(reply) && rlNodes == old(rlNodes) + 1
    {
      if reply.count > 0 {
        var i := 0;
        while i < reply.count
          invariant i <= reply.count && rlChangedObjects == old(rlChangedObjects) + reply.words[2..2 + i]
          invariant rlNodes == old(rlNodes)
        {
          rlChangedObjects := rlChangedObjects + [reply.words[2 + i]];
          i := i + 1;
        }
        assert i == reply.count;
      }
      rlNodes := rlNodes + 1;
    }

    // Gives back the locks of the first `end` entries that were not refused.
    method ReleaseLocks(servers: Servers, end: nat)
      requires end <= |writeSet| && KeysDiffer(writeSet)
      modifies this`rlChangedObjects, servers`stores
      ensures rlChangedObjects == []
      ensures forall i :: 0 <= i < end ==>
        servers.StoresAt(writeSet[i].key) == old(servers.StoresAt(writeSet[i].key)) +
          if writeSet[i].key in old(rlChangedObjects) then [] else [writeSet[i].version]
      ensures forall key :: (forall i :: 0 <= i < end ==> writeSet[i].key != key) ==>
        servers.StoresAt(key) == old(servers.StoresAt(key))
    {
      var i := 0;
      while i < end
        invariant i <= end && rlChangedObjects == old(rlChangedObjects)
        invariant forall j :: 0 <= j < i ==>
          servers.StoresAt(writeSet[j].key) == old(servers.StoresAt(writeSet[j].key)) +
            if writeSet[j].key in old(rlChangedObjects) then [] else [writeSet[j].version]
        invariant forall key :: (forall j :: 0 <= j < i ==> writeSet[j].key != key) ==>
          servers.StoresAt(key) == old(servers.StoresAt(key))
      {
        var e := writeSet[i];
        if e.key !in rlChangedObjects {
          servers.stores := servers.stores[e.key := servers.StoresAt(e.key) + [e.version]];
        }
        i := i + 1;
      }
      rlChangedObjects := [];
    }
  }
}
