/** The publisher: a registry from shape type to subscriber endpoints, kept
    up to date by register/unregister requests, and the fan-out that sends
    each notification to the endpoints registered for its type. */
module Pub {
  import opened Wire
  import opened Seqs
  import Util

  /** A decoded control request. */
  datatype Request =
    | Register(shape: int, ep: Endpoint)
    | Unregister(shape: int, ep: Endpoint)
    | Unknown  // a `request` tag other than `register` and `unregister`

  datatype RequestError =
    | NotAnObject          // it decoded to something other than a dictionary
    | MissingKey(key: string)
    | IllTyped             // a field of a type the model does not cover (see README)

  /** One publishing configuration: `PublisherParams(shape_type, freq, params)`. */
  datatype PublishJob = PublishJob(shapeType: int, freq: int, params: seq<Json>)

  /** How `_PreformRequest` reads a request dictionary: `request` first; for
      the two known tags then `shape`, `udp_ip` and `udp_port`. */
  function ParseRequest(d: Json): Result<Request, RequestError> {
    if !d.JObject? then Err(NotAnObject)
    else if "request" !in d.fields then Err(MissingKey("request"))
    else
      var tag := d.fields["request"];
      if tag != JStr("register") && tag != JStr("unregister") then Ok(Unknown)
      else if "shape" !in d.fields then Err(MissingKey("shape"))
      else if "udp_ip" !in d.fields then Err(MissingKey("udp_ip"))
      else if "udp_port" !in d.fields then Err(MissingKey("udp_port"))
      else
        match (IntKey(d.fields["shape"]), d.fields["udp_ip"], IntKey(d.fields["udp_port"]))
        case (Some(t), JStr(ip), Some(port)) =>
          Ok(if tag == JStr("register") then Register(t, Endpoint(ip, port))
             else Unregister(t, Endpoint(ip, port)))
        case _ => Err(IllTyped)
  }

  /** A request the subscriber sends is read back as the operation it names,
      for the shape and the callback endpoint it carries. */
  lemma ParseRequestMessage(shape: int, udpPort: int, udpIp: string)
    ensures ParseRequest(Util.RequestMessage("register", shape, udpPort, udpIp))
            == Ok(Register(shape, Endpoint(udpIp, udpPort)))
    ensures ParseRequest(Util.RequestMessage("unregister", shape, udpPort, udpIp))
            == Ok(Unregister(shape, Endpoint(udpIp, udpPort)))
  {
    var r := Util.RequestMessage("register", shape, udpPort, udpIp);
    var u := Util.RequestMessage("unregister", shape, udpPort, udpIp);
    assert r.fields["request"] == JStr("register") && u.fields["request"] == JStr("unregister");
    assert JStr("register") != JStr("unregister") by { assert "register"[0] != "unregister"[0]; }
  }

  /** A boolean `udp_port` stands for the integer it equals: the request is
      read as the same operation on the same endpoint as with port 1 or 0,
      and its ACK goes to that port. */
  lemma BooleanPortIsInteger(tag: string, shape: int, udpIp: string, b: bool)
    ensures var port := if b then 1 else 0;
      var d := JObject(map["request" := JStr(tag), "shape" := JInt(shape),
                           "udp_port" := JBool(b), "udp_ip" := JStr(udpIp)]);
      && ParseRequest(d) == ParseRequest(Util.RequestMessage(tag, shape, port, udpIp))
      && AckAddress(d) == Some(Endpoint(udpIp, port))
  {
  }

  /** The registry after `_RegisterSub(t, ep)`. */
  function Registered(m: map<int, seq<Endpoint>>, t: int, ep: Endpoint): map<int, seq<Endpoint>> {
    var list := if t in m then m[t] else [];
    if ep in list then m else m[t := list + [ep]]
  }

  /** The registry after `_UnRegisterSub(t, ep)`. */
  function Unregistered(m: map<int, seq<Endpoint>>, t: int, ep: Endpoint): map<int, seq<Endpoint>> {
    if t in m && ep in m[t] then m[t := RemoveFirst(m[t], ep)] else m
  }

  /** The registry after a decoded request. */
  function Applied(m: map<int, seq<Endpoint>>, r: Result<Request, RequestError>): map<int, seq<Endpoint>> {
    if r.Err? then m
    else match r.value
      case Register(t, ep) => Registered(m, t, ep)
      case Unregister(t, ep) => Unregistered(m, t, ep)
      case Unknown => m
  }

  ghost predicate NoDupLists(m: map<int, seq<Endpoint>>) {
    forall t :: t in m ==> NoDup(m[t])
  }

  /** Registering: an endpoint already listed for the type leaves the registry
      as it is; otherwise it is appended to the type's list, which is created
      empty first when the type is new. Other types are untouched and no list
      gains a duplicate. */
  lemma RegisteredSpec(m: map<int, seq<Endpoint>>, t: int, ep: Endpoint)
    requires NoDupLists(m)
    ensures var r := Registered(m, t, ep);
      && NoDupLists(r)
      && r.Keys == m.Keys + {t}
      && (t in m && ep in m[t] ==> r == m)
      && (t in m && ep !in m[t] ==> r[t] == m[t] + [ep])
      && (t !in m ==> r[t] == [ep])
      && (forall u :: u in m && u != t ==> r[u] == m[u])
  {
    var list := if t in m then m[t] else [];
    if ep !in list { SnocNoDup(list, ep); }
  }

  /** Registering twice is registering once. */
  lemma RegisteredIdempotent(m: map<int, seq<Endpoint>>, t: int, ep: Endpoint)
    ensures Registered(Registered(m, t, ep), t, ep) == Registered(m, t, ep)
  {
  }

  /** Unregistering removes the endpoint from the type's list when it is
      listed and changes nothing otherwise; the type's key stays even when
      its list becomes empty, and other types are untouched. */
  lemma UnregisteredSpec(m: map<int, seq<Endpoint>>, t: int, ep: Endpoint)
    requires NoDupLists(m)
    ensures var r := Unregistered(m, t, ep);
      && NoDupLists(r)
      && r.Keys == m.Keys
      && (t in m ==> ep !in r[t] && IsSubseq(r[t], m[t])
                     && forall x :: x in r[t] <==> x in m[t] && x != ep)
      && (t !in m || ep !in m[t] ==> r == m)
      && (forall u :: u in m && u != t ==> r[u] == m[u])
  {
    if t in m {
      RemoveFirstNoDup(m[t], ep);
      RemoveFirstSubseq(m[t], ep);
      if ep !in m[t] { SubseqRefl(m[t]); }
    }
  }

  /** An operation on one (type, endpoint) pair, as a sequence of requests folds it. */
  datatype PairOp = RegisterOp | UnregisterOp

  function FoldPair(m: map<int, seq<Endpoint>>, t: int, ep: Endpoint, ops: seq<PairOp>): map<int, seq<Endpoint>>
    decreases |ops|
  {
    if ops == [] then m
    else
      var m' := if ops[0] == RegisterOp then Registered(m, t, ep) else Unregistered(m, t, ep);
      FoldPair(m', t, ep, ops[1..])
  }

  /** Whatever sequence of register and unregister requests arrives for one
      pair, the endpoint ends up listed exactly when the last one was a
      register (or, with no requests, when it was listed before), and it is
      never listed twice. */
  lemma {:induction false} FoldPairMembership(m: map<int, seq<Endpoint>>, t: int, ep: Endpoint, ops: seq<PairOp>)
    requires NoDupLists(m)
    ensures var r := FoldPair(m, t, ep, ops);
      && NoDupLists(r)
      && (ops != [] ==> (t in r && ep in r[t] <==> ops[|ops| - 1] == RegisterOp))
      && (ops == [] ==> r == m)
    decreases |ops|
  {
    if ops != [] {
      var m' := if ops[0] == RegisterOp then Registered(m, t, ep) else Unregistered(m, t, ep);
      RegisteredSpec(m, t, ep);
      UnregisteredSpec(m, t, ep);
      FoldPairMembership(m', t, ep, ops[1..]);
      if |ops| > 1 {
        assert ops[1..][|ops[1..]| - 1] == ops[|ops| - 1];
      }
    }
  }

  /** One fan-out pass as `_NotifyShape` runs it: a Python list iterator over
      the list it removes from. Each step sends to the endpoint at the
      iterator's position; a failed send removes that endpoint, so the next
      one moves into its position and is stepped over. Returns the endpoints
      sent to, in order, and the list left afterwards. */
  function Walk(l: seq<Endpoint>, sendFails: Endpoint -> bool): (seq<Endpoint>, seq<Endpoint>)
    decreases |l|
  {
    if l == [] then ([], [])
    else if !sendFails(l[0]) then
      var w := Walk(l[1..], sendFails);
      ([l[0]] + w.0, [l[0]] + w.1)
    else if |l| == 1 then ([l[0]], [])
    else
      var w := Walk(l[2..], sendFails);
      ([l[0]] + w.0, [l[1]] + w.1)
  }

  /** What one fan-out pass keeps is the old list with some endpoints left
      out and the rest in their original order; it never sends more often
      than the list is long. */
  lemma {:induction false} WalkKeepsOrder(l: seq<Endpoint>, sendFails: Endpoint -> bool)
    ensures IsSubseq(Walk(l, sendFails).1, l)
    ensures IsSubseq(Walk(l, sendFails).0, l)
    ensures |Walk(l, sendFails).0| <= |l|
    decreases |l|
  {
    if l == [] {
    } else {
      assert [l[0]] + l[1..] == l;
      if !sendFails(l[0]) {
        WalkKeepsOrder(l[1..], sendFails);
        var w := Walk(l[1..], sendFails);
        SubseqCons(l[0], w.0, l[1..]);
        SubseqCons(l[0], w.1, l[1..]);
      } else if |l| == 1 {
        SubseqRefl(l);
      } else {
        WalkKeepsOrder(l[2..], sendFails);
        var w := Walk(l[2..], sendFails);
        assert [l[1]] + l[2..] == l[1..];
        SubseqCons(l[1], w.1, l[2..]);
        SubseqSkip(l[0], [l[1]] + w.1, l[1..]);
        SubseqSkip(l[1], w.0, l[2..]);
        SubseqCons(l[0], w.0, l[1..]);
      }
    }
    var w := Walk(l, sendFails);
    SubseqLength(w.0, l);
  }

  /** On a list without duplicates, one fan-out pass evicts exactly the
      endpoints whose send failed: an endpoint stays listed if and only if
      it was not sent to, or was sent to successfully. */
  lemma {:induction false} WalkEvictsFailed(l: seq<Endpoint>, sendFails: Endpoint -> bool)
    requires NoDup(l)
    ensures NoDup(Walk(l, sendFails).1)
    ensures forall x :: x in Walk(l, sendFails).1 <==>
                        x in l && !(x in Walk(l, sendFails).0 && sendFails(x))
    decreases |l|
  {
    WalkKeepsOrder(l, sendFails);
    var w := Walk(l, sendFails);
    SubseqNoDup(w.1, l);
    SubseqMembers(w.0, l);
    SubseqMembers(w.1, l);
    if l != [] {
      assert l == [l[0]] + l[1..];
      assert NoDup(l[1..]);
      if !sendFails(l[0]) {
        WalkEvictsFailed(l[1..], sendFails);
        WalkKeepsOrder(l[1..], sendFails);
        SubseqMembers(Walk(l[1..], sendFails).0, l[1..]);
      } else if |l| > 1 {
        assert l[1..] == [l[1]] + l[2..];
        assert NoDup(l[2..]);
        WalkEvictsFailed(l[2..], sendFails);
        WalkKeepsOrder(l[2..], sendFails);
        SubseqMembers(Walk(l[2..], sendFails).0, l[2..]);
        SubseqMembers(Walk(l[2..], sendFails).1, l[2..]);
      }
    }
  }

  /** One corrected fan-out pass: every endpoint is sent to, and the list
      keeps exactly those whose send succeeded. */
  function KeepDelivered(l: seq<Endpoint>, sendFails: Endpoint -> bool): seq<Endpoint>
    decreases |l|
  {
    if l == [] then []
    else (if sendFails(l[0]) then [] else [l[0]]) + KeepDelivered(l[1..], sendFails)
  }

  /** The corrected pass evicts exactly the failed endpoints, keeps the
      others in order, and keeps a list without duplicates so. */
  lemma {:induction false} KeepDeliveredSpec(l: seq<Endpoint>, sendFails: Endpoint -> bool)
    ensures forall x :: x in KeepDelivered(l, sendFails) <==> x in l && !sendFails(x)
    ensures IsSubseq(KeepDelivered(l, sendFails), l)
    ensures NoDup(l) ==> NoDup(KeepDelivered(l, sendFails))
    decreases |l|
  {
    if l != [] {
      assert l == [l[0]] + l[1..];
      KeepDeliveredSpec(l[1..], sendFails);
      var k := KeepDelivered(l[1..], sendFails);
      if sendFails(l[0]) {
        assert KeepDelivered(l, sendFails) == k;
        SubseqSkip(l[0], k, l[1..]);
      } else {
        assert KeepDelivered(l, sendFails) == [l[0]] + k;
        SubseqCons(l[0], k, l[1..]);
      }
      if NoDup(l) { SubseqNoDup(KeepDelivered(l, sendFails), l); }
    }
  }

  /** The as-written pass can miss a live endpoint: with two endpoints where
      only the first send fails, the second never receives the notification
      although its send would have succeeded. The corrected pass reaches it. */
  lemma WalkSkipsSuccessorOfEvicted(a: Endpoint, b: Endpoint, sendFails: Endpoint -> bool)
    requires a != b && sendFails(a) && !sendFails(b)
    ensures Walk([a, b], sendFails).0 == [a] && Walk([a, b], sendFails).1 == [b]
    ensures KeepDelivered([a, b], sendFails) == [b]
  {
    var l := [a, b];
    assert l[0] == a && l[1] == b && l[2..] == [] && l[1..] == [b] && [b][1..] == [];
    assert Walk(l[2..], sendFails) == ([], []);
    assert Walk(l, sendFails).0 == [a] + [] && Walk(l, sendFails).1 == [b] + [];
    assert KeepDelivered([b], sendFails) == [b];
  }

  class Publisher {
    var subMap: map<int, seq<Endpoint>>
    var isPublishing: bool
    var isRunning: bool
    const jobs: seq<PublishJob>

    ghost predicate Valid()
      reads this
    {
      NoDupLists(subMap)
    }

    /** A new publisher has an empty registry, is not publishing, and its
        request receiver is running. */
    constructor (pubParams: seq<PublishJob>)
      ensures Valid()
      ensures subMap == map[] && !isPublishing && isRunning && jobs == pubParams
    {
      subMap := map[];
      isPublishing := false;
      isRunning := true;
      jobs := pubParams;
    }

    /** `Publish`: sets the publishing flag (one fan-out task per job). */
    method Publish()
      modifies this`isPublishing
      ensures isPublishing
    {
      isPublishing := true;
    }

    /** `Stop`: clears both flags. */
    method Stop()
      modifies this`isPublishing, this`isRunning
      ensures !isPublishing && !isRunning
    {
      isPublishing := false;
      isRunning := false;
    }

    /** `_RegisterSub`. */
    method RegisterSub(t: int, ep: Endpoint)
      requires Valid()
      modifies this`subMap
      ensures Valid()
      ensures subMap == Registered(old(subMap), t, ep)
    {
      RegisteredSpec(subMap, t, ep);
      if t !in subMap {
        subMap := subMap[t := []];
      }
      if ep !in subMap[t] {
        subMap := subMap[t := subMap[t] + [ep]];
      }
    }

    /** `_UnRegisterSub`. */
    method UnRegisterSub(t: int, ep: Endpoint)
      requires Valid()
      modifies this`subMap
      ensures Valid()
      ensures subMap == Unregistered(old(subMap), t, ep)
    {
      UnregisteredSpec(subMap, t, ep);
      if t in subMap && ep in subMap[t] {
        subMap := subMap[t := RemoveFirst(subMap[t], ep)];
      }
    }

    /** `_PreformRequest`: `register` registers, `unregister` unregisters,
        any other tag changes nothing. A request that cannot be read raises
        before the registry changes. */
    method PreformRequest(d: Json) returns (r: Result<Request, RequestError>)
      requires Valid()
      modifies this`subMap
      ensures Valid()
      ensures r == ParseRequest(d)
      ensures subMap == Applied(old(subMap), r)
    {
      r := ParseRequest(d);
      if r.Ok? {
        match r.value
        case Register(t, ep) => RegisterSub(t, ep);
        case Unregister(t, ep) => UnRegisterSub(t, ep);
        case Unknown =>
      }
    }

    /** `_HandleData`: applies the request, then sends one ACK to the
        request's `(udp_ip, udp_port)`, whatever the request did. When
        reading the request raised, or the ACK address is missing or
        malformed, no ACK goes out; a port `sendto` rejects makes the send
        raise, and the exception is caught, so no ACK goes out then either. */
    method HandleData(d: Json) returns (r: Result<Request, RequestError>, ack: Option<Datagram>)
      requires Valid()
      modifies this`subMap
      ensures Valid()
      ensures r == ParseRequest(d) && subMap == Applied(old(subMap), r)
      ensures ack.Some? <==> r.Ok? && AckAddress(d).Some? && Util.PortInRange(AckAddress(d).value.port)
      ensures ack.Some? ==> ack.value == Datagram(AckAddress(d).value, AckText)
      ensures r.Ok? && !r.value.Unknown? && Util.PortInRange(r.value.ep.port) ==>
        ack == Some(Datagram(r.value.ep, AckText))
    {
      r := PreformRequest(d);
      if r.Err? {
        return r, None;
      }
      match AckAddress(d)
      case Some(ep) => ack := Util.SendAckToSub(ep.ip, ep.port);
      case None => ack := None;
    }

    /** One pass of the request receiver: decode a datagram and handle it. */
    method ReceiveRequest(p: Payload) returns (ack: Option<Datagram>)
      requires Valid()
      modifies this`subMap
      ensures Valid()
      ensures !old(isRunning) || !p.JsonText? ==> subMap == old(subMap) && ack == None
      ensures old(isRunning) && p.JsonText? ==>
        && subMap == Applied(old(subMap), ParseRequest(p.value))
        && (ack.Some? <==> ParseRequest(p.value).Ok? && AckAddress(p.value).Some?
                           && Util.PortInRange(AckAddress(p.value).value.port))
        && (ack.Some? ==> ack.value == Datagram(AckAddress(p.value).value, AckText))
    {
      ack := None;
      if !isRunning {
        return;
      }
      var decoded := Util.DeserializeJson(p);
      if decoded.Ok? {
        var _, a := HandleData(decoded.value);
        ack := a;
      }
    }

    /** `_NotifyShape`, as written: serialise once, then run one fan-out
        pass over the type's list, which is updated in place. A type with
        no list raises `KeyError` before anything is sent. */
    method NotifyShape(t: int, params: seq<Json>, sendFails: Endpoint -> bool)
      returns (sends: seq<Datagram>, raised: bool)
      requires Valid()
      modifies this`subMap
      ensures Valid()
      ensures forall d :: d in sends ==> d.payload == JsonText(Util.Serialize(t, params))
      ensures raised <==> t !in old(subMap)
      ensures raised ==> sends == [] && subMap == old(subMap)
      ensures t in old(subMap) ==>
        && subMap == old(subMap)[t := Walk(old(subMap)[t], sendFails).1]
        && Dests(sends) == Walk(old(subMap)[t], sendFails).0
    {
      var payload := JsonText(Util.Serialize(t, params));
      sends, raised := [], t !in subMap;
      if raised {
        return;
      }
      var list;
      sends, list := FanOut(subMap[t], payload, sendFails);
      subMap := subMap[t := list];
      NoDupListsUpdate(old(subMap), t, list);
    }

    /** The corrected `_NotifyShape`: iterate over a snapshot of the list,
        so every registered endpoint is sent to once and exactly the failed
        ones are removed. */
    method NotifyShapeSnapshot(t: int, params: seq<Json>, sendFails: Endpoint -> bool)
      returns (sends: seq<Datagram>, raised: bool)
      requires Valid()
      modifies this`subMap
      ensures Valid()
      ensures forall d :: d in sends ==> d.payload == JsonText(Util.Serialize(t, params))
      ensures raised <==> t !in old(subMap)
      ensures raised ==> sends == [] && subMap == old(subMap)
      ensures t in old(subMap) ==>
        && subMap == old(subMap)[t := KeepDelivered(old(subMap)[t], sendFails)]
        && Dests(sends) == old(subMap)[t]
    {
      var payload := JsonText(Util.Serialize(t, params));
      sends, raised := [], t !in subMap;
      if raised {
        return;
      }
      var list;
      sends, list := FanOutSnapshot(subMap[t], payload, sendFails);
      subMap := subMap[t := list];
      NoDupListsUpdate(old(subMap), t, list);
    }

    /** One tick of the `_PublishByFreq` task of one of the publisher's
        jobs: once publishing has stopped no tick runs; a type with no key
        in the registry sends nothing and changes nothing; otherwise the
        tick is one `_NotifyShape` pass as written, so an endpoint right
        after an evicted one is passed over in this tick. */
    method PublishTick(job: PublishJob, sendFails: Endpoint -> bool) returns (sends: seq<Datagram>)
      requires Valid() && job in jobs
      modifies this`subMap
      ensures Valid()
      ensures !old(isPublishing) || job.shapeType !in old(subMap) ==>
        sends == [] && subMap == old(subMap)
      ensures old(isPublishing) && job.shapeType in old(subMap) ==>
        && subMap == old(subMap)[job.shapeType := Walk(old(subMap)[job.shapeType], sendFails).1]
        && Dests(sends) == Walk(old(subMap)[job.shapeType], sendFails).0
      ensures forall d :: d in sends ==> d.payload == JsonText(Util.Serialize(job.shapeType, job.params))
    {
      sends := [];
      if isPublishing && job.shapeType in subMap {
        var raised;
        sends, raised := NotifyShape(job.shapeType, job.params, sendFails);
      }
    }

    /** The same tick with the corrected pass: every registered endpoint
        receives the job's notification and exactly the failed ones are
        dropped. */
    method PublishTickSnapshot(job: PublishJob, sendFails: Endpoint -> bool) returns (sends: seq<Datagram>)
      requires Valid() && job in jobs
      modifies this`subMap
      ensures Valid()
      ensures !old(isPublishing) || job.shapeType !in old(subMap) ==>
        sends == [] && subMap == old(subMap)
      ensures old(isPublishing) && job.shapeType in old(subMap) ==>
        && subMap == old(subMap)[job.shapeType := KeepDelivered(old(subMap)[job.shapeType], sendFails)]
        && Dests(sends) == old(subMap)[job.shapeType]
      ensures forall d :: d in sends ==> d.payload == JsonText(Util.Serialize(job.shapeType, job.params))
    {
      sends := [];
      if isPublishing && job.shapeType in subMap {
        var raised;
        sends, raised := NotifyShapeSnapshot(job.shapeType, job.params, sendFails);
      }
    }
  }

  /** The loop of `_NotifyShape` on one list: `for sub in list` with
      `list.remove(sub)` after a failed send. `i` is the iterator's index
      into the list as it currently is. */
  method FanOut(l: seq<Endpoint>, payload: Payload, sendFails: Endpoint -> bool)
    returns (sends: seq<Datagram>, list: seq<Endpoint>)
    requires NoDup(l)
    ensures NoDup(list)
    ensures forall d :: d in sends ==> d.payload == payload
    ensures list == Walk(l, sendFails).1 && Dests(sends) == Walk(l, sendFails).0
  {
    ghost var done: seq<Endpoint> := [];
    ghost var kept: seq<Endpoint> := [];
    ghost var j := 0;
    sends, list := [], l;
    var i := 0;
    assert l[0..] == l;
    while i < |list|
      invariant NoDup(list)
      invariant j <= |l| && list == kept + l[j..]
      invariant i == |kept| || (j == |l| && i == |kept| + 1)
      invariant Walk(l, sendFails).0 == done + Walk(l[j..], sendFails).0
      invariant Walk(l, sendFails).1 == kept + Walk(l[j..], sendFails).1
      invariant Dests(sends) == done
      invariant forall d :: d in sends ==> d.payload == payload
      decreases |list| - i
    {
      var ep := list[i];
      assert j < |l| && l[j..] != [] && ep == l[j..][0] == l[j];
      DestsSnoc(sends, Datagram(ep, payload));
      sends := sends + [Datagram(ep, payload)];
      if sendFails(ep) {
        FirstNotInPrefix(kept, l[j..]);
        WalkFailStep(l, j, kept, done, sendFails);
        RemoveFirstNoDup(list, ep);
        list := RemoveFirst(list, ep);
        if j + 1 < |l| {
          kept := kept + [l[j + 1]];
          j := j + 2;
        } else {
          j := j + 1;
        }
      } else {
        WalkOkStep(l, j, kept, done, sendFails);
        kept := kept + [ep];
        j := j + 1;
      }
      done := done + [ep];
      i := i + 1;
    }
    assert l[j..] == [];
  }

  /** The corrected loop: `for sub in list[:]`, removing from the list itself. */
  method FanOutSnapshot(snapshot: seq<Endpoint>, payload: Payload, sendFails: Endpoint -> bool)
    returns (sends: seq<Datagram>, list: seq<Endpoint>)
    requires NoDup(snapshot)
    ensures NoDup(list)
    ensures forall d :: d in sends ==> d.payload == payload
    ensures list == KeepDelivered(snapshot, sendFails) && Dests(sends) == snapshot
  {
    sends, list := [], snapshot;
    var i := 0;
    assert KeepDelivered(snapshot[..0], sendFails) + snapshot[0..] == snapshot;
    while i < |snapshot|
      invariant i <= |snapshot| && NoDup(list)
      invariant list == KeepDelivered(snapshot[..i], sendFails) + snapshot[i..]
      invariant Dests(sends) == snapshot[..i]
      invariant forall d :: d in sends ==> d.payload == payload
    {
      var ep := snapshot[i];
      DestsSnoc(sends, Datagram(ep, payload));
      sends := sends + [Datagram(ep, payload)];
      SnapshotStep(snapshot, i, sendFails);
      if sendFails(ep) {
        FirstNotInPrefix(KeepDelivered(snapshot[..i], sendFails), snapshot[i..]);
        RemoveFirstNoDup(list, ep);
        list := RemoveFirst(list, ep);
      }
      i := i + 1;
    }
    assert snapshot[..i] == snapshot && snapshot[i..] == [];
  }

  /** The ACK destination `(dict_info['udp_ip'], dict_info['udp_port'])`,
      when both keys are present with a string and an integer; a boolean
      port is the integer it equals, as `sendto` reads it. */
  function AckAddress(d: Json): Option<Endpoint> {
    if d.JObject? && "udp_ip" in d.fields && "udp_port" in d.fields
       && d.fields["udp_ip"].JStr? && IntKey(d.fields["udp_port"]).Some?
    then Some(Endpoint(d.fields["udp_ip"].s, IntKey(d.fields["udp_port"]).value))
    else None
  }

  lemma NoDupListsUpdate(m: map<int, seq<Endpoint>>, t: int, l: seq<Endpoint>)
    requires NoDupLists(m) && NoDup(l)
    ensures NoDupLists(m[t := l])
  {
  }

  /** The corrected loop after sending to `l[i]`. */
  lemma SnapshotStep(l: seq<Endpoint>, i: nat, sendFails: Endpoint -> bool)
    requires i < |l|
    ensures l[..i + 1] == l[..i] + [l[i]]
    ensures l[i..] != [] && l[i..][0] == l[i]
    ensures var kept := KeepDelivered(l[..i], sendFails);
      && (sendFails(l[i]) && l[i] !in kept ==>
            RemoveFirst(kept + l[i..], l[i]) == KeepDelivered(l[..i + 1], sendFails) + l[i + 1..])
      && (!sendFails(l[i]) ==> kept + l[i..] == KeepDelivered(l[..i + 1], sendFails) + l[i + 1..])
  {
    KeepDeliveredPrefix(l, i + 1, sendFails);
    assert l[i..] == [l[i]] + l[i + 1..];
    var kept := KeepDelivered(l[..i], sendFails);
    if sendFails(l[i]) {
      assert KeepDelivered(l[..i + 1], sendFails) == kept + [] == kept;
      if l[i] !in kept {
        RemoveFirstAt(kept, l[i], l[i + 1..]);
      }
    } else {
      AppendStep(kept + l[i..], kept, l[i], l[i..], l[i + 1..]);
    }
  }

  /** The head of the part after a prefix of a list without duplicates is not in the prefix. */
  lemma FirstNotInPrefix(a: seq<Endpoint>, b: seq<Endpoint>)
    requires b != [] && NoDup(a + b)
    ensures b[0] !in a
  {
    forall k | 0 <= k < |a|
      ensures a[k] != b[0]
    {
      assert (a + b)[k] == a[k] && (a + b)[|a|] == b[0];
    }
  }

  /** The `_NotifyShape` loop after a successful send at original position `j`. */
  lemma WalkOkStep(l0: seq<Endpoint>, j: nat, kept: seq<Endpoint>, done: seq<Endpoint>, sendFails: Endpoint -> bool)
    requires j < |l0| && !sendFails(l0[j])
    requires Walk(l0, sendFails).0 == done + Walk(l0[j..], sendFails).0
    requires Walk(l0, sendFails).1 == kept + Walk(l0[j..], sendFails).1
    ensures kept + l0[j..] == (kept + [l0[j]]) + l0[j + 1..]
    ensures Walk(l0, sendFails).0 == (done + [l0[j]]) + Walk(l0[j + 1..], sendFails).0
    ensures Walk(l0, sendFails).1 == (kept + [l0[j]]) + Walk(l0[j + 1..], sendFails).1
  {
    WalkStep(l0, j, sendFails);
    AppendStep(kept + l0[j..], kept, l0[j], l0[j..], l0[j + 1..]);
    AppendStep(Walk(l0, sendFails).0, done, l0[j], Walk(l0[j..], sendFails).0, Walk(l0[j + 1..], sendFails).0);
    AppendStep(Walk(l0, sendFails).1, kept, l0[j], Walk(l0[j..], sendFails).1, Walk(l0[j + 1..], sendFails).1);
  }

  /** The `_NotifyShape` loop after a failed send at original position `j`:
      the endpoint is removed, and the next one slides under the iterator. */
  lemma WalkFailStep(l0: seq<Endpoint>, j: nat, kept: seq<Endpoint>, done: seq<Endpoint>, sendFails: Endpoint -> bool)
    requires j < |l0| && sendFails(l0[j]) && l0[j] !in kept
    requires Walk(l0, sendFails).0 == done + Walk(l0[j..], sendFails).0
    requires Walk(l0, sendFails).1 == kept + Walk(l0[j..], sendFails).1
    ensures j + 1 < |l0| ==>
      && RemoveFirst(kept + l0[j..], l0[j]) == (kept + [l0[j + 1]]) + l0[j + 2..]
      && Walk(l0, sendFails).0 == (done + [l0[j]]) + Walk(l0[j + 2..], sendFails).0
      && Walk(l0, sendFails).1 == (kept + [l0[j + 1]]) + Walk(l0[j + 2..], sendFails).1
    ensures j + 1 == |l0| ==>
      && RemoveFirst(kept + l0[j..], l0[j]) == kept + l0[j + 1..] == kept
      && Walk(l0, sendFails).0 == (done + [l0[j]]) + Walk(l0[j + 1..], sendFails).0
      && Walk(l0, sendFails).1 == kept + Walk(l0[j + 1..], sendFails).1
  {
    WalkStep(l0, j, sendFails);
    RemoveFirstAt(kept, l0[j], l0[j + 1..]);
    if j + 1 < |l0| {
      AppendStep(kept + l0[j + 1..], kept, l0[j + 1], l0[j + 1..], l0[j + 2..]);
      AppendStep(Walk(l0, sendFails).0, done, l0[j], Walk(l0[j..], sendFails).0, Walk(l0[j + 2..], sendFails).0);
      AppendStep(Walk(l0, sendFails).1, kept, l0[j + 1], Walk(l0[j..], sendFails).1, Walk(l0[j + 2..], sendFails).1);
    } else {
      assert Walk(l0[j + 1..], sendFails) == ([], []);
      AppendStep(Walk(l0, sendFails).0, done, l0[j], [l0[j]], []);
      assert kept + [] == kept && kept + l0[j + 1..] == kept;
    }
  }

  /** One step of `Walk` from position `j` of the original list. */
  lemma WalkStep(l: seq<Endpoint>, j: nat, sendFails: Endpoint -> bool)
    requires j < |l|
    ensures l[j..] == [l[j]] + l[j + 1..]
    ensures j + 1 < |l| ==> l[j + 1..] == [l[j + 1]] + l[j + 2..]
    ensures j + 1 == |l| ==> l[j + 1..] == []
    ensures !sendFails(l[j]) ==>
      && Walk(l[j..], sendFails).0 == [l[j]] + Walk(l[j + 1..], sendFails).0
      && Walk(l[j..], sendFails).1 == [l[j]] + Walk(l[j + 1..], sendFails).1
    ensures sendFails(l[j]) && j + 1 < |l| ==>
      && Walk(l[j..], sendFails).0 == [l[j]] + Walk(l[j + 2..], sendFails).0
      && Walk(l[j..], sendFails).1 == [l[j + 1]] + Walk(l[j + 2..], sendFails).1
    ensures sendFails(l[j]) && j + 1 == |l| ==>
      Walk(l[j..], sendFails).0 == [l[j]] && Walk(l[j..], sendFails).1 == []
  {
    assert l[j..][1..] == l[j + 1..];
    if j + 1 < |l| { assert l[j..][2..] == l[j + 2..]; }
  }

  lemma DestsSnoc(sends: seq<Datagram>, d: Datagram)
    ensures Dests(sends + [d]) == Dests(sends) + [d.dest]
  {
  }

  function Dests(sends: seq<Datagram>): (r: seq<Endpoint>)
    ensures |r| == |sends|
    ensures forall k :: 0 <= k < |sends| ==> r[k] == sends[k].dest
  {
    seq(|sends|, k requires 0 <= k < |sends| => sends[k].dest)
  }

  lemma {:induction false} KeepDeliveredPrefix(l: seq<Endpoint>, n: nat, sendFails: Endpoint -> bool)
    requires 0 < n <= |l|
    ensures KeepDelivered(l[..n], sendFails) ==
            KeepDelivered(l[..n - 1], sendFails) + (if sendFails(l[n - 1]) then [] else [l[n - 1]])
    decreases n
  {
    var p := l[..n];
    assert p[1..] == l[1..][..n - 1];
    if n > 1 {
      KeepDeliveredPrefix(l[1..], n - 1, sendFails);
      assert l[1..][..n - 2] == l[..n - 1][1..];
      assert l[..n - 1] == [l[0]] + l[..n - 1][1..];
    } else {
      assert p[1..] == [];
      assert l[..0] == [];
    }
  }
}
