/** The subscriber: the list of shape types it is interested in, the
    register/unregister requests it sends for them, the liveness table of
    the publishers that ACK it, and the decoding of received notifications. */
module Sub {
  import opened Wire
  import opened Seqs
  import opened Shapes
  import Util
  import Factory

  /** A tracked publisher: `{'count': .., 'last_msg': ..}`. */
  datatype Liveness = Liveness(count: int, lastMsg: string)

  /** The liveness table after `_RecAck(dataStr, addr, table)`: the acking
      publisher is reset to count 0 with the new message, then every entry,
      the acker included, gains one. */
  function Acked(table: map<Endpoint, Liveness>, addr: Endpoint, dataStr: string): map<Endpoint, Liveness> {
    map k | k in table.Keys + {addr} ::
      if k == addr then Liveness(1, dataStr) else Liveness(table[k].count + 1, table[k].lastMsg)
  }

  /** The publishers `_RecAck` reports as lost. */
  function Lost(table: map<Endpoint, Liveness>): set<Endpoint> {
    set k | k in table && table[k].count >= Util.THRESHOLD
  }

  /** `_RecAck`: updates the table as `Acked` says, visiting the publishers
      one by one, and reports the lost ones. */
  method RecAck(dataStr: string, addr: Endpoint, table: map<Endpoint, Liveness>)
    returns (r: map<Endpoint, Liveness>, lost: set<Endpoint>)
    ensures r.Keys == table.Keys + {addr}
    ensures r[addr] == Liveness(1, dataStr)
    ensures forall k :: k in table && k != addr ==> r[k] == Liveness(table[k].count + 1, table[k].lastMsg)
    ensures forall k :: k in lost <==> k in r && r[k].count >= Util.THRESHOLD
    ensures addr !in lost
    ensures r == Acked(table, addr, dataStr) && lost == Lost(r)
  {
    r := table;
    if addr !in r {
      r := r[addr := Liveness(0, "")];
    }
    r := r[addr := r[addr].(lastMsg := dataStr)];
    r := r[addr := r[addr].(count := 0)];
    assert r == table[addr := Liveness(0, dataStr)];
    r, lost := IncrementAll(r);
    BumpedAll(table, addr, dataStr);
    AckedSpec(table, addr, dataStr);
  }

  /** The loop of `_RecAck`: every entry's count gains one, and the entries
      that reach the threshold are reported. */
  method IncrementAll(start: map<Endpoint, Liveness>) returns (r: map<Endpoint, Liveness>, lost: set<Endpoint>)
    ensures r == Bumped(start, start.Keys) && lost == Lost(r)
  {
    r := start;
    var checked: set<Endpoint> := {};
    ghost var todo := start.Keys;
    lost := {};
    BumpedNone(start);
    while checked != r.Keys
      invariant checked <= start.Keys && todo == start.Keys - checked
      invariant r == Bumped(start, checked)
      invariant lost == Lost(r) * checked
      decreases |todo|
    {
      var k :| k in r.Keys - checked;
      var info := r[k];
      BumpedStep(start, checked, k, r, info);
      var bumped := info.(count := info.count + 1);
      r := r[k := bumped];
      if bumped.count >= Util.THRESHOLD {
        lost := lost + {k};
      }
      SetStep(start.Keys, checked, k);
      checked := checked + {k};
      todo := todo - {k};
    }
  }

  /** What `Acked` keeps, resets and increments, and whom `Lost` reports. */
  lemma AckedSpec(table: map<Endpoint, Liveness>, addr: Endpoint, dataStr: string)
    ensures var r := Acked(table, addr, dataStr);
      && r.Keys == table.Keys + {addr}
      && r[addr] == Liveness(1, dataStr)
      && (forall k :: k in table && k != addr ==> r[k] == Liveness(table[k].count + 1, table[k].lastMsg))
      && (forall k :: k in Lost(r) <==> k in r && r[k].count >= Util.THRESHOLD)
      && addr !in Lost(r)
  {
  }

  /** The table with the entries in `checked` incremented. */
  function Bumped(start: map<Endpoint, Liveness>, checked: set<Endpoint>): (r: map<Endpoint, Liveness>)
    ensures r.Keys == start.Keys
  {
    map k | k in start :: if k in checked then start[k].(count := start[k].count + 1) else start[k]
  }

  lemma SetStep(a: set<Endpoint>, c: set<Endpoint>, k: Endpoint)
    ensures (a - c) - {k} == a - (c + {k})
  {
  }

  lemma BumpedNone(start: map<Endpoint, Liveness>)
    ensures Bumped(start, {}) == start
  {
  }

  /** Incrementing one more entry. */
  lemma BumpedStep(start: map<Endpoint, Liveness>, checked: set<Endpoint>, k: Endpoint,
                    r: map<Endpoint, Liveness>, info: Liveness)
    requires k in start && k !in checked
    requires r == Bumped(start, checked) && info == r[k]
    ensures r[k := info.(count := info.count + 1)] == Bumped(start, checked + {k})
    ensures Lost(Bumped(start, checked + {k})) * (checked + {k}) ==
            Lost(r) * checked + (if info.count + 1 >= Util.THRESHOLD then {k} else {})
  {
    var r' := Bumped(start, checked + {k});
    assert r[k := info.(count := info.count + 1)] == r';
    forall j | j in start && j != k ensures r'[j] == r[j] { }
  }

  /** Once every entry is incremented, the table is the `Acked` one. */
  lemma BumpedAll(table: map<Endpoint, Liveness>, addr: Endpoint, dataStr: string)
    ensures var start := table[addr := Liveness(0, dataStr)];
      Bumped(start, start.Keys) == Acked(table, addr, dataStr)
  {
  }

  /** The table after a sequence of ACKs `(sender, message)`, oldest first. */
  function FoldAcks(table: map<Endpoint, Liveness>, acks: seq<(Endpoint, string)>): map<Endpoint, Liveness>
    decreases |acks|
  {
    if acks == [] then table
    else
      var last := acks[|acks| - 1];
      Acked(FoldAcks(table, acks[..|acks| - 1]), last.0, last.1)
  }

  /** One entry of the `Acked` table. */
  lemma AckedAt(table: map<Endpoint, Liveness>, addr: Endpoint, dataStr: string, p: Endpoint)
    ensures var r := Acked(table, addr, dataStr);
      && (p in r <==> p in table || p == addr)
      && (p == addr ==> r[p] == Liveness(1, dataStr))
      && (p != addr && p in table ==> r[p] == Liveness(table[p].count + 1, table[p].lastMsg))
  {
  }

  /** A publisher's count is one more than the number of ACKs from other
      publishers since its own last ACK, and it keeps that ACK's message; so
      it is reported lost once `THRESHOLD - 1` other ACKs have arrived since. */
  lemma {:induction false} CountSinceLastAck(table: map<Endpoint, Liveness>, a: seq<(Endpoint, string)>,
                                             p: Endpoint, msg: string, b: seq<(Endpoint, string)>)
    requires forall k :: 0 <= k < |b| ==> b[k].0 != p
    ensures var r := FoldAcks(table, a + [(p, msg)] + b);
      && p in r && r[p] == Liveness(1 + |b|, msg)
      && (p in Lost(r) <==> |b| >= Util.THRESHOLD - 1)
    decreases |b|
  {
    var s := a + [(p, msg)] + b;
    if b == [] {
      assert s[..|s| - 1] == a && s[|s| - 1] == (p, msg);
      AckedAt(FoldAcks(table, a), p, msg, p);
    } else {
      var b' := b[..|b| - 1];
      assert s[..|s| - 1] == a + [(p, msg)] + b';
      assert s[|s| - 1] == b[|b| - 1];
      CountSinceLastAck(table, a, p, msg, b');
      AckedAt(FoldAcks(table, a + [(p, msg)] + b'), b[|b| - 1].0, b[|b| - 1].1, p);
    }
  }

  /** The interest list and the removed shapes after `UnSubscribe(targets)`:
      each target, in order, removes its first occurrence when present and
      is recorded; an absent target is skipped. */
  function Unsub(l: seq<int>, targets: seq<int>): (seq<int>, seq<int>)
    decreases |targets|
  {
    if targets == [] then (l, [])
    else
      var x := targets[0];
      if x in l then
        var u := Unsub(RemoveFirst(l, x), targets[1..]);
        (u.0, [x] + u.1)
      else Unsub(l, targets[1..])
  }

  /** The removed shapes are the shapes both listed and targeted, counted
      with multiplicity; the list keeps the rest. */
  lemma {:induction false} UnsubMultiset(l: seq<int>, targets: seq<int>)
    ensures multiset(Unsub(l, targets).1) == multiset(l) * multiset(targets)
    ensures multiset(Unsub(l, targets).0) == multiset(l) - multiset(targets)
    decreases |targets|
  {
    if targets != [] {
      var x := targets[0];
      var rest := targets[1..];
      assert targets == [x] + rest;
      assert multiset(targets) == multiset{x} + multiset(rest);
      if x in l {
        var l' := RemoveFirst(l, x);
        RemoveFirstMultiset(l, x);
        UnsubMultiset(l', rest);
        var u := Unsub(l', rest);
        assert multiset([x] + u.1) == multiset{x} + multiset(u.1);
        TakeOne(multiset(l), x, multiset(rest));
      } else {
        UnsubMultiset(l, rest);
        SkipOne(multiset(l), x, multiset(rest));
      }
    }
  }

  /** Multiset arithmetic for a target that is listed. */
  lemma TakeOne(L: multiset<int>, x: int, T: multiset<int>)
    requires x in L
    ensures multiset{x} + (L - multiset{x}) * T == L * (multiset{x} + T)
    ensures (L - multiset{x}) - T == L - (multiset{x} + T)
  {
    forall y ensures (multiset{x} + (L - multiset{x}) * T)[y] == (L * (multiset{x} + T))[y] {
      if y == x { assert L[x] >= 1; }
    }
    forall y ensures ((L - multiset{x}) - T)[y] == (L - (multiset{x} + T))[y] {
      if y == x { assert L[x] >= 1; }
    }
  }

  /** Multiset arithmetic for a target that is not listed. */
  lemma SkipOne(L: multiset<int>, x: int, T: multiset<int>)
    requires x !in L
    ensures L * T == L * (multiset{x} + T)
    ensures L - T == L - (multiset{x} + T)
  {
    forall y ensures (L * T)[y] == (L * (multiset{x} + T))[y] { }
    forall y ensures (L - T)[y] == (L - (multiset{x} + T))[y] { }
  }

  /** Both results keep their original order: the list with some shapes
      left out, the removed shapes in target order. */
  lemma {:induction false} UnsubOrder(l: seq<int>, targets: seq<int>)
    ensures IsSubseq(Unsub(l, targets).0, l)
    ensures IsSubseq(Unsub(l, targets).1, targets)
    decreases |targets|
  {
    if targets == [] {
      SubseqRefl(l);
    } else {
      var x := targets[0];
      var rest := targets[1..];
      assert [x] + rest == targets;
      if x in l {
        var l' := RemoveFirst(l, x);
        UnsubOrder(l', rest);
        RemoveFirstSubseq(l, x);
        SubseqTrans(Unsub(l', rest).0, l', l);
        SubseqCons(x, Unsub(l', rest).1, rest);
      } else {
        UnsubOrder(l, rest);
        SubseqSkip(x, Unsub(l, rest).1, rest);
      }
    }
  }

  /** Targeting the whole list removes everything, in list order. */
  lemma {:induction false} UnsubAll(l: seq<int>)
    ensures Unsub(l, l) == ([], l)
    decreases |l|
  {
    if l != [] {
      assert RemoveFirst(l, l[0]) == l[1..];
      UnsubAll(l[1..]);
      assert [l[0]] + l[1..] == l;
    }
  }

  /** One step of `Unsub` from position `k` of the targets. */
  lemma UnsubStep(l: seq<int>, targets: seq<int>, k: nat)
    requires k < |targets|
    ensures var x := targets[k];
      Unsub(l, targets[k..]) ==
        if x in l then
          var u := Unsub(RemoveFirst(l, x), targets[k + 1..]);
          (u.0, [x] + u.1)
        else Unsub(l, targets[k + 1..])
  {
    assert targets[k..][0] == targets[k] && targets[k..][1..] == targets[k + 1..];
  }

  /** The removal loop of `UnSubscribe`, which runs under the registration
      lock: for each target in turn, `remove` it when present and record it. */
  method RemoveTargets(l: seq<int>, ts: seq<int>) returns (remaining: seq<int>, removed: seq<int>)
    ensures remaining == Unsub(l, ts).0 && removed == Unsub(l, ts).1
  {
    remaining, removed := l, [];
    for k := 0 to |ts|
      invariant Unsub(l, ts).0 == Unsub(remaining, ts[k..]).0
      invariant Unsub(l, ts).1 == removed + Unsub(remaining, ts[k..]).1
    {
      var shape := ts[k];
      UnsubStep(remaining, ts, k);
      if shape in remaining {
        remaining := RemoveFirst(remaining, shape);
        removed := removed + [shape];
      }
    }
    assert ts[|ts|..] == [];
  }

  /** A notification the publisher serialises for a built-in shape type,
      with as many parameters as that shape has fields, is decoded by a
      subscriber's fresh factory into that shape. */
  lemma NotificationDelivers(f: Factory.ShapeFactory, t: int, params: seq<Json>)
    requires f.createFuncs == Factory.DefaultTable()
    requires t in {Factory.CIRCLE, Factory.SQUARE, Factory.TRIANGLE}
    requires |params| == if t == Factory.CIRCLE then 2 else 3
    ensures var d := Util.DeserializeShape(Util.Serialize(t, params));
      && d.Ok?
      && f.CreateShape(d.value.0, d.value.1).Ok?
      && Fields(f.CreateShape(d.value.0, d.value.1).value) == params
      && (t == Factory.CIRCLE <==> f.CreateShape(d.value.0, d.value.1).value.Circle?)
      && (t == Factory.SQUARE <==> f.CreateShape(d.value.0, d.value.1).value.Square?)
      && (t == Factory.TRIANGLE <==> f.CreateShape(d.value.0, d.value.1).value.Triangle?)
  {
    Util.SerializeRoundTrip(t, params);
    Factory.DefaultFactoryBuilds(f, t, params);
  }

  class Subscriber {
    var shapeTypes: seq<int>
    const udpPort: int
    const udpIp: string
    var isRunning: bool
    var isSendingReg: bool
    /** Whether `Subscribe` has created the receiver thread (`_thread` is not `None`). */
    var started: bool
    var mcSock: Util.SockState
    /** The receive loop's `publishers_dict`. */
    var publishers: map<Endpoint, Liveness>
    const factory: Factory.ShapeFactory

    /** A new subscriber holds the given interests, has no multicast socket
        yet, is neither running nor registering, and tracks no publisher. */
    constructor (shapes: seq<int>, port: int, ip: string)
      ensures shapeTypes == shapes && udpPort == port && udpIp == ip
      ensures !isRunning && !isSendingReg && !started && mcSock == Util.NoSocket
      ensures publishers == map[]
      ensures fresh(factory) && factory.createFuncs == Factory.DefaultTable()
    {
      shapeTypes := shapes;
      udpPort := port;
      udpIp := ip;
      isRunning := false;
      isSendingReg := false;
      started := false;
      mcSock := Util.NoSocket;
      publishers := map[];
      factory := new Factory.ShapeFactory();
    }

    /** `AddShape`: appends each shape, in order, with no deduplication. */
    method AddShape(shapes: seq<int>)
      modifies this`shapeTypes
      ensures shapeTypes == old(shapeTypes) + shapes
    {
      for k := 0 to |shapes|
        invariant shapeTypes == old(shapeTypes) + shapes[..k]
      {
        assert shapes[..k + 1] == shapes[..k] + [shapes[k]];
        shapeTypes := shapeTypes + [shapes[k]];
      }
      assert shapes[..|shapes|] == shapes;
    }

    /** `Subscribe`: opens the multicast socket, sets both flags and starts
        the receiver and the registration threads. */
    method Subscribe()
      modifies this`mcSock, this`isRunning, this`isSendingReg, this`started
      ensures mcSock == Util.Open && isRunning && isSendingReg && started
    {
      mcSock := Util.Open;
      isRunning := true;
      isSendingReg := true;
      started := true;
    }

    /** `Stop`: clears both flags, then joins the threads; before
        `Subscribe` there is no receiver thread and the join raises. */
    method Stop() returns (raised: bool)
      modifies this`isRunning, this`isSendingReg
      ensures !isRunning && !isSendingReg
      ensures raised <==> !started
    {
      isRunning := false;
      isSendingReg := false;
      raised := !started;
    }

    /** `UnSubscribe(targets)`, `None` targeting a copy of the whole list:
        removes the targeted shapes, sends one unregister request per
        removed shape, and stops the subscriber when no interest is left.
        An exception from the send skips the stop. */
    method UnSubscribe(targets: Option<seq<int>>, sendFails: Json -> bool)
      returns (removed: seq<int>, sent: seq<Json>, raised: bool)
      modifies this`shapeTypes, this`mcSock, this`isRunning, this`isSendingReg
      ensures var ts := if targets.None? then old(shapeTypes) else targets.value;
        shapeTypes == Unsub(old(shapeTypes), ts).0 && removed == Unsub(old(shapeTypes), ts).1
      ensures targets.None? ==> shapeTypes == [] && removed == old(shapeTypes)
      ensures var o := Util.Transmit(old(mcSock),
                                     Util.RequestMessages("unregister", removed, udpPort, udpIp), sendFails);
        && sent == o.sent && mcSock == o.sock
        && (o.raised || shapeTypes != [] ==>
              isRunning == old(isRunning) && isSendingReg == old(isSendingReg) && raised == o.raised)
        && (!o.raised && shapeTypes == [] ==> !isRunning && !isSendingReg && raised == !started)
    {
      var ts := if targets.None? then shapeTypes else targets.value;
      ghost var l0 := shapeTypes;
      shapeTypes, removed := RemoveTargets(shapeTypes, ts);
      if targets.None? {
        UnsubAll(l0);
      }
      var sockAfter;
      sent, sockAfter, raised := Util.SendUnRegisterRequest(mcSock, removed, udpPort, udpIp, sendFails);
      mcSock := sockAfter;
      if raised {
        return;
      }
      if shapeTypes == [] {
        raised := Stop();
      }
    }

    /** One tick of `_SendReg`: while registration is on, one register
        request per current interest. */
    method SendRegTick(sendFails: Json -> bool) returns (sent: seq<Json>, raised: bool)
      modifies this`mcSock
      ensures !isSendingReg ==> sent == [] && !raised && mcSock == old(mcSock)
      ensures isSendingReg ==>
        var o := Util.Transmit(old(mcSock),
                               Util.RequestMessages("register", shapeTypes, udpPort, udpIp), sendFails);
        sent == o.sent && mcSock == o.sock && raised == o.raised
    {
      sent, raised := [], false;
      if isSendingReg {
        var sockAfter;
        sent, sockAfter, raised := Util.SendRegisterRequest(mcSock, shapeTypes, udpPort, udpIp, sendFails);
        mcSock := sockAfter;
      }
    }

    /** One pass of `_RecvMsgFromPub` over a datagram from `src`: an `ACK`
        goes to the liveness table only, anything else only to shape
        decoding. Every failure is caught and drops the datagram. */
    method RecvStep(src: Endpoint, p: Payload) returns (received: Option<Shape>, lost: set<Endpoint>)
      modifies this`publishers
      ensures !isRunning ==> publishers == old(publishers) && received == None && lost == {}
      ensures isRunning && p == AckText ==>
        && publishers == Acked(old(publishers), src, "ACK") && lost == Lost(publishers)
        && received == None
      ensures p != AckText ==> publishers == old(publishers) && lost == {}
      ensures received.Some? <==>
        && isRunning && p.JsonText?
        && Util.DeserializeShape(p.value).Ok?
        && factory.CreateShape(Util.DeserializeShape(p.value).value.0,
                               Util.DeserializeShape(p.value).value.1).Ok?
      ensures received.Some? ==>
        received.value == factory.CreateShape(Util.DeserializeShape(p.value).value.0,
                                              Util.DeserializeShape(p.value).value.1).value
    {
      received, lost := None, {};
      if !isRunning {
        return;
      }
      match p
      case AckText =>
        publishers, lost := RecAck("ACK", src, publishers);
      case JsonText(j) =>
        var d := Util.DeserializeShape(j);
        if d.Ok? {
          var s := factory.CreateShape(d.value.0, d.value.1);
          if s.Ok? {
            received := Some(s.value);
          }
        }
      case Unparsable =>
    }
  }
}
