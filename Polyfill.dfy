// The stateful core of the polyfill: the `native` bridge object (broker
// and notification indexes) and the proxy objects built on it. Posting to
// the host appends the envelope to `outbox`; dispatching an event appends
// (target, type) to `events`. Promise continuations (`.then`) are separate
// methods that the host's responses enable.

module Polyfill {

  import opened Types
  import Lists
  import Broker
  import Registry
  import Messages

  /** An event dispatched on a proxy object. */
  datatype Event = Event(target: object, eventType: string)

  const GattServerDisconnected := "gattserverdisconnected"
  const CharacteristicValueChanged := "characteristicvaluechanged"
  const NoType := "CallRemote should never be called without a type!"
  const InvalidService := "Invalid call to BluetoothRemoteGATTService constructor"

  /** `sendMessageParms.callbackID || getTransactionID()`: a missing or zero id asks for a fresh one. */
  function SuppliedId(p: Params): Option<int>
  {
    if p.callbackID.Some? && p.callbackID.value != 0 then p.callbackID else None
  }

  /** One `gattserverdisconnected` event for each of `ds` that was connected, in order. */
  function DisconnectEvents(ds: seq<Device>, connected: set<Device>): seq<Event>
  {
    if ds == [] then []
    else
      var last := ds[|ds| - 1];
      DisconnectEvents(ds[..|ds| - 1], connected)
        + (if last in connected then [Event(last, GattServerDisconnected)] else [])
  }

  lemma DisconnectEventsSnoc(ds: seq<Device>, d: Device, connected: set<Device>)
    ensures DisconnectEvents(ds + [d], connected)
         == DisconnectEvents(ds, connected) + (if d in connected then [Event(d, GattServerDisconnected)] else [])
  {
    assert (ds + [d])[..|ds|] == ds;
  }

  /** One `characteristicvaluechanged` event for each of `cs`, in order. */
  function ValueChangedEvents(cs: seq<Characteristic>): seq<Event>
  {
    seq(|cs|, i requires 0 <= i < |cs| => Event(cs[i], CharacteristicValueChanged))
  }

  /**
   * The ghost record of a `forEach` over the list `list`: the live list,
   * the proxies handed to the callback so far, and the index, the event
   * log and the connected servers when the walk began.
   */
  datatype Walk = Walk(list: seq<Device>, live: seq<Device>, seen: seq<Device>,
                       dbn0: map<string, seq<Device>>, events0: seq<Event>, conn0: set<Server>)

  /** The devices of a set of servers. */
  ghost function DevicesOf(ss: set<Server>): set<Device>
  {
    set srv | srv in ss :: srv.device
  }

  /** The list a disconnect walks: free of duplicates, of known proxies with that id. */
  ghost predicate WalkList(deviceId: string, s: seq<Device>, proxies: set<Device>)
  {
    Lists.Distinct(s) && forall d :: d in s ==> d in proxies && d.id == deviceId
  }

  /** Every id handed out so far is positive and at most the counter. */
  ghost predicate IssuedUpTo(issued: set<int>, messageCount: nat)
  {
    forall a :: a in issued ==> 0 < a <= messageCount
  }

  /**
   * The notification indexes list only known proxies: device lists are free
   * of duplicates and hold proxies of their own id, each with its server.
   */
  ghost predicate IndexesValid(devs: map<string, seq<Device>>, chars: map<string, map<string, seq<Characteristic>>>,
                               proxies: set<Device>, servers: set<Server>, attributes: set<Characteristic>)
    reads proxies
  {
    && Registry.NoDuplicates(devs)
    && (forall did, d :: did in devs && d in devs[did] ==> d in proxies && d.id == did)
    && (forall d :: d in proxies ==> d.Valid() && d.gatt in servers)
    && (forall srv :: srv in servers ==> srv.device in proxies && srv.device.gatt == srv)
    && (forall did, cid, c :: did in chars && cid in chars[did] && c in chars[did][cid] ==> c in attributes)
  }

  /** Unregistering a proxy keeps the indexes valid. */
  lemma UnregisterKeepsIndexes(devs: map<string, seq<Device>>, chars: map<string, map<string, seq<Characteristic>>>,
                               proxies: set<Device>, servers: set<Server>, attributes: set<Characteristic>, did: string, d: Device)
    requires IndexesValid(devs, chars, proxies, servers, attributes)
    ensures IndexesValid(Registry.UnregisterDevice(devs, did, d), chars, proxies, servers, attributes)
  {
    Registry.UnregisterKeepsNoDuplicates(devs, did, d);
  }

  /** Dropping the characteristic table of a device keeps the indexes valid. */
  lemma ClearKeepsIndexes(devs: map<string, seq<Device>>, chars: map<string, map<string, seq<Characteristic>>>,
                          proxies: set<Device>, servers: set<Server>, attributes: set<Characteristic>, did: string)
    requires IndexesValid(devs, chars, proxies, servers, attributes)
    ensures IndexesValid(devs, Registry.ClearDevice(chars, did), proxies, servers, attributes)
  {
  }

  /** Registering a valid proxy under its own id keeps the indexes valid once it is known. */
  lemma RegisterKeepsIndexes(devs: map<string, seq<Device>>, chars: map<string, map<string, seq<Characteristic>>>,
                             proxies: set<Device>, servers: set<Server>, attributes: set<Characteristic>, d: Device)
    requires IndexesValid(devs, chars, proxies, servers, attributes) && d.Valid()
    requires Registry.RegisterDevice(devs, d.id, d).Success?
    ensures IndexesValid(Registry.RegisterDevice(devs, d.id, d).value, chars, proxies + {d}, servers + {d.gatt}, attributes)
  {
    Registry.RegisterKeepsNoDuplicates(devs, d.id, d);
  }

  /** Registering a characteristic proxy keeps the indexes valid once it is known. */
  lemma RegisterAttributeKeepsIndexes(devs: map<string, seq<Device>>, chars: map<string, map<string, seq<Characteristic>>>,
                                      proxies: set<Device>, servers: set<Server>, attributes: set<Characteristic>,
                                      did: string, cid: string, c: Characteristic)
    requires IndexesValid(devs, chars, proxies, servers, attributes)
    ensures IndexesValid(devs, Registry.RegisterAttribute(chars, did, cid, c), proxies, servers, attributes + {c})
  {
    var r := Registry.RegisterAttribute(chars, did, cid, c);
    forall d, k, x | d in r && k in r[d] && x in r[d][k]
      ensures x in attributes + {c}
    {
      assert Registry.Lookup(r, d, k) == Some(r[d][k]);
      if (d, k) != (did, cid) {
        assert Registry.Lookup(chars, d, k) == Some(r[d][k]);
      }
    }
  }

  /** The `native` object. */
  class Native {
    var messageCount: nat
    var callbacks: map<int, nat>
    var promises: seq<Broker.Outcome>
    var outbox: seq<Message>
    var events: seq<Event>
    var devicesBeingNotified: map<string, seq<Device>>
    var characteristicsBeingNotified: map<string, map<string, seq<Characteristic>>>
    /** Every id `getTransactionID` has returned. */
    ghost var issued: set<int>
    /** Every device proxy ever registered, and every characteristic proxy. */
    ghost var proxies: set<Device>
    ghost var attributes: set<Characteristic>
    /** The GATT servers of the proxies. */
    ghost var servers: set<Server>

    function Ledger(): Broker.Ledger
      reads this
    {
      Broker.Ledger(callbacks, promises)
    }

    ghost predicate Valid()
      reads this, proxies
    {
      && Broker.Valid(Ledger())
      && IssuedUpTo(issued, messageCount)
      && IndexesValid(devicesBeingNotified, characteristicsBeingNotified, proxies, servers, attributes)
    }

    /** The servers that are connected. */
    ghost function ConnectedServers(): set<Server>
      reads this, servers
    {
      set srv | srv in servers && srv.connected
    }

    /** The proxies whose server is connected. */
    ghost function ConnectedDevices(): set<Device>
      reads this, servers
    {
      DevicesOf(ConnectedServers())
    }

    /** The broker posted `m` and registered its callback. */
    twostate predicate Posted(m: Message)
      reads this
    {
      && outbox == old(outbox) + [m]
      && Ledger() == Broker.Register(old(Ledger()), m.callbackID)
    }

    /** One message was posted under a freshly issued id. */
    twostate predicate PostedFresh(msgType: string, data: Data)
      reads this
    {
      && |outbox| == |old(outbox)| + 1
      && var m := outbox[|old(outbox)|];
      && m.messageType == msgType && m.data == data
      && Posted(m)
      && Broker.FreshAbove(old(callbacks).Keys, old(messageCount), m.callbackID)
      && messageCount == m.callbackID + 1
      && issued == old(issued) + {m.callbackID}
    }

    /** One message was posted under the caller's id. */
    twostate predicate PostedWith(msgType: string, data: Data, id: int)
      reads this
    {
      && Posted(Message(msgType, data, id))
      && messageCount == old(messageCount) + 1
      && issued == old(issued)
    }

    twostate predicate Sent(msgType: string, data: Data, supplied: Option<int>)
      reads this
    {
      if supplied.Some? then PostedWith(msgType, data, supplied.value) else PostedFresh(msgType, data)
    }

    constructor ()
      ensures Valid()
      ensures messageCount == 0 && callbacks == map[] && promises == [] && outbox == [] && events == []
      ensures devicesBeingNotified == map[] && characteristicsBeingNotified == map[]
      ensures issued == {} && proxies == {} && servers == {} && attributes == {}
    {
      messageCount, callbacks, promises, outbox, events := 0, map[], [], [], [];
      devicesBeingNotified, characteristicsBeingNotified := map[], map[];
      issued, proxies, servers, attributes := {}, {}, {}, {};
    }

    /**
     * `getTransactionID`: the first id above `messageCount` with no pending
     * callback becomes the new `messageCount`.
     */
    method GetTransactionID() returns (id: int)
      requires Valid()
      modifies this`messageCount, this`issued
      ensures Valid()
      ensures Broker.FreshAbove(callbacks.Keys, old(messageCount), id)
      ensures messageCount == id && id !in old(issued) && issued == old(issued) + {id}
    {
      var mc: int := messageCount;
      mc := mc + 1;
      while mc in callbacks
        invariant old(messageCount) < mc
        invariant forall k :: old(messageCount) < k < mc ==> k in callbacks
        decreases set k | k in callbacks && k >= mc
      {
        assert (set k | k in callbacks && k >= mc + 1) == (set k | k in callbacks && k >= mc) - {mc};
        mc := mc + 1;
      }
      messageCount := mc;
      issued := issued + {mc};
      id := mc;
    }

    /**
     * `sendMessage`: throws without a type; otherwise posts
     * `{type, data, callbackID}`, bumps `messageCount` and registers the
     * settle function of a new promise under `callbackID`.
     */
    method SendMessage(msgType: Option<string>, params: Params) returns (r: Result<nat, Failure>)
      requires Valid()
      modifies this`outbox, this`messageCount, this`callbacks, this`promises, this`issued
      ensures Valid()
      ensures msgType.None? ==> r == Failure(Error(NoType)) && unchanged(this)
      ensures msgType.Some? ==> r == Success(|old(promises)|) && Sent(msgType.value, DataOf(params), SuppliedId(params))
    {
      if msgType.None? {
        return Failure(Error(NoType));
      }
      r := Success(|promises|);
      var supplied := SuppliedId(params);
      if supplied.Some? {
        Post(Message(msgType.value, DataOf(params), supplied.value));
      } else {
        var callbackID := GetTransactionID();
        Post(Message(msgType.value, DataOf(params), callbackID));
      }
    }

    /** The common tail of `sendMessage` once the callback id is known. */
    method Post(m: Message)
      requires Valid()
      modifies this`outbox, this`messageCount, this`callbacks, this`promises
      ensures Valid()
      ensures Posted(m) && messageCount == old(messageCount) + 1
    {
      Broker.RegisterKeepsValid(Ledger(), m.callbackID);
      var l := Broker.Register(Ledger(), m.callbackID);
      outbox, messageCount, callbacks, promises := outbox + [m], messageCount + 1, l.callbacks, l.promises;
    }

    /** `receiveMessageResponse`: host delivery of a response. */
    method ReceiveMessageResponse(success: bool, result: string, callbackID: Option<int>)
      requires Valid()
      modifies this`callbacks, this`promises
      ensures Valid()
      ensures Ledger() == Broker.Respond(old(Ledger()), callbackID, success, result)
    {
      if callbackID.Some? && callbackID.value in callbacks {
        var l := Broker.Settle(Ledger(), callbackID.value, success, result);
        callbacks, promises := l.callbacks, l.promises;
      }
    }

    /** `cancelTransaction`. */
    method CancelTransaction(tid: int)
      requires Valid()
      modifies this`callbacks, this`promises
      ensures Valid()
      ensures Ledger() == Broker.Cancel(old(Ledger()), tid)
    {
      if tid !in callbacks {
        return;
      }
      var l := Broker.Settle(Ledger(), tid, false, Broker.CancellationReason);
      callbacks, promises := l.callbacks, l.promises;
    }

    /** `registerDeviceForNotifications`. */
    method RegisterDeviceForNotifications(device: Device) returns (r: Result<(), Failure>)
      requires Valid() && device.Valid()
      modifies this`devicesBeingNotified, this`proxies, this`servers
      ensures Valid()
      ensures var reg := Registry.RegisterDevice(old(devicesBeingNotified), device.id, device);
        && (reg.Success? ==> && r.Success? && devicesBeingNotified == reg.value
                             && proxies == old(proxies) + {device} && servers == old(servers) + {device.gatt})
        && (reg.Failure? ==> && r == Failure(reg.error) && devicesBeingNotified == old(devicesBeingNotified)
                             && proxies == old(proxies) && servers == old(servers))
    {
      var reg := Registry.RegisterDevice(devicesBeingNotified, device.id, device);
      if reg.Failure? {
        return Failure(reg.error);
      }
      RegisterKeepsIndexes(devicesBeingNotified, characteristicsBeingNotified, proxies, servers, attributes, device);
      devicesBeingNotified := reg.value;
      proxies, servers := proxies + {device}, servers + {device.gatt};
      r := Success(());
    }

    /** `unregisterDeviceForNotifications`: the search loop and the splice. */
    method UnregisterDeviceForNotifications(device: Device)
      requires Valid()
      modifies this`devicesBeingNotified
      ensures Valid()
      ensures devicesBeingNotified == Registry.UnregisterDevice(old(devicesBeingNotified), device.id, device)
    {
      var did := device.id;
      if did !in devicesBeingNotified {
        return;
      }
      var devs := devicesBeingNotified[did];
      var ii := 0;
      while ii < |devs|
        invariant 0 <= ii <= |devs|
        invariant device !in devs[..ii]
        invariant devicesBeingNotified == old(devicesBeingNotified)
      {
        if devs[ii] == device {
          Lists.RemoveFirstAt(devs, device, ii);
          UnregisterKeepsIndexes(devicesBeingNotified, characteristicsBeingNotified, proxies, servers, attributes, did, device);
          var rest := devs[..ii] + devs[ii + 1..];
          assert rest == Lists.RemoveFirst(devs, device);
          assert Registry.UnregisterDevice(devicesBeingNotified, did, device) == devicesBeingNotified[did := rest];
          devicesBeingNotified := devicesBeingNotified[did := rest];
          return;
        }
        assert devs[..ii + 1] == devs[..ii] + [devs[ii]];
        ii := ii + 1;
      }
      assert devs[..ii] == devs;
      assert device !in Registry.ListFor(devicesBeingNotified, did);
    }

    /**
     * `receiveDeviceDisconnectEvent`. The `forEach` reads the list at each
     * index while its callback splices the list, so only the proxies at
     * even positions are handled and the others stay registered. The
     * characteristic table of the device is dropped.
     */
    method ReceiveDeviceDisconnectEvent(deviceId: string)
      requires Valid()
      modifies this`events, this`devicesBeingNotified, this`characteristicsBeingNotified, servers`connected
      ensures Valid()
      ensures var s := Registry.ListFor(old(devicesBeingNotified), deviceId);
        && devicesBeingNotified == (if deviceId in old(devicesBeingNotified)
                                    then old(devicesBeingNotified)[deviceId := Lists.Odds(s)]
                                    else old(devicesBeingNotified))
        && events == old(events) + DisconnectEvents(Lists.Evens(s), old(ConnectedDevices()))
        && forall srv :: srv in servers ==> srv.connected == (old(srv.connected) && srv.device !in Lists.Evens(s))
      ensures characteristicsBeingNotified == Registry.ClearDevice(old(characteristicsBeingNotified), deviceId)
    {
      if deviceId in devicesBeingNotified {
        DisconnectAll(deviceId);
      }
      ClearKeepsIndexes(devicesBeingNotified, characteristicsBeingNotified, proxies, servers, attributes, deviceId);
      characteristicsBeingNotified := Registry.ClearDevice(characteristicsBeingNotified, deviceId);
    }

    /** The `forEach` of `receiveDeviceDisconnectEvent` over the proxies listed under `deviceId`. */
    method DisconnectAll(deviceId: string)
      requires Valid() && deviceId in devicesBeingNotified
      modifies this`events, this`devicesBeingNotified, servers`connected
      ensures Valid()
      ensures var s := old(devicesBeingNotified[deviceId]);
        && devicesBeingNotified == old(devicesBeingNotified)[deviceId := Lists.Odds(s)]
        && events == old(events) + DisconnectEvents(Lists.Evens(s), old(ConnectedDevices()))
        && forall srv :: srv in servers ==> srv.connected == (old(srv.connected) && srv.device !in Lists.Evens(s))
    {
      WalkBegins(deviceId);
      ghost var w := Walk(devicesBeingNotified[deviceId], devicesBeingNotified[deviceId], [],
                          devicesBeingNotified, events, ConnectedServers());
      ghost var w0 := w;
      var len := |devicesBeingNotified[deviceId]|;
      var k := 0;
      while k < len
        invariant 0 <= k <= len
        invariant Walking(deviceId, k, w) && w == w0.(live := w.live, seen := w.seen)
      {
        w := ForEachStep(deviceId, k, w);
        k := k + 1;
      }
      WalkEnds(deviceId, w);
    }

    /** A `forEach` over the list of `deviceId` starts with the whole list live and nothing seen. */
    lemma WalkBegins(deviceId: string)
      requires Valid() && deviceId in devicesBeingNotified
      ensures Walking(deviceId, 0, Walk(devicesBeingNotified[deviceId], devicesBeingNotified[deviceId], [],
                                        devicesBeingNotified, events, ConnectedServers()))
    {
      var s := devicesBeingNotified[deviceId];
      Lists.WalkStart(s);
      assert devicesBeingNotified[deviceId := s] == devicesBeingNotified;
    }

    /**
     * After as many steps as the list had elements, the callback has run on
     * the even positions, the odd ones are left, and only the servers of
     * the visited proxies were disconnected.
     */
    lemma WalkEnds(deviceId: string, w: Walk)
      requires Walking(deviceId, |w.list|, w)
      ensures Valid()
      ensures devicesBeingNotified == w.dbn0[deviceId := Lists.Odds(w.list)]
      ensures events == w.events0 + DisconnectEvents(Lists.Evens(w.list), DevicesOf(w.conn0))
      ensures forall srv :: srv in servers ==> srv.connected == (srv in w.conn0 && srv.device !in Lists.Evens(w.list))
    {
      Lists.WalkEnd(w.list, w.live, w.seen);
    }

    /** The state of the `forEach` recorded in `w` before its step `k`. */
    ghost predicate Walking(deviceId: string, k: nat, w: Walk)
      reads this, proxies, servers
    {
      match w
      case Walk(s, live, seen, dbn0, events0, conn0) =>
        && Valid()
        && Lists.WalkedTo(s, k, live, seen)
        && WalkAt(deviceId, s, live, seen, dbn0, events0, conn0)
    }

    /**
     * Step `k` of that `forEach`: the element now at index `k` of the live
     * list, if there is one, goes to the callback.
     */
    method ForEachStep(deviceId: string, k: nat, ghost w: Walk) returns (ghost w': Walk)
      requires Walking(deviceId, k, w)
      modifies this`events, this`devicesBeingNotified, servers`connected
      ensures Walking(deviceId, k + 1, w') && w' == w.(live := w'.live, seen := w'.seen)
    {
      if k < |devicesBeingNotified[deviceId]| {
        w' := VisitAt(deviceId, k, w);
      } else {
        IdleAt(deviceId, k, w);
        w' := w;
      }
    }

    /** A step whose index is still inside the live list hands that element to the callback. */
    method VisitAt(deviceId: string, k: nat, ghost w: Walk) returns (ghost w': Walk)
      requires Walking(deviceId, k, w) && k < |devicesBeingNotified[deviceId]|
      modifies this`events, this`devicesBeingNotified, servers`connected
      ensures Walking(deviceId, k + 1, w') && w' == w.(live := w'.live, seen := w'.seen)
    {
      var device := devicesBeingNotified[deviceId][k];
      Lists.WalkStep(w.list, k, w.live, w.seen);
      VisitStep(device, w.live, w.seen, w.dbn0, w.events0, w.conn0);
      w' := w.(live := Lists.RemoveFirst(w.live, device), seen := w.seen + [device]);
      Advanced(deviceId, k, w, device);
    }

    /** The record after handing `device` to the callback describes the next step. */
    lemma Advanced(deviceId: string, k: nat, w: Walk, device: Device)
      requires Valid() && WalkList(deviceId, w.list, proxies) && device.id == deviceId
      requires Lists.WalkedTo(w.list, k + 1, Lists.RemoveFirst(w.live, device), w.seen + [device])
      requires devicesBeingNotified == w.dbn0[deviceId := Lists.RemoveFirst(w.live, device)]
      requires events == w.events0 + DisconnectEvents(w.seen + [device], DevicesOf(w.conn0))
      requires ServersAt(w.seen + [device], w.conn0)
      ensures Walking(deviceId, k + 1, w.(live := Lists.RemoveFirst(w.live, device), seen := w.seen + [device]))
    {
    }

    /** A step whose index has run past the live list does nothing. */
    lemma IdleAt(deviceId: string, k: nat, w: Walk)
      requires Walking(deviceId, k, w) && k >= |devicesBeingNotified[deviceId]|
      ensures Walking(deviceId, k + 1, w)
    {
      Lists.WalkIdle(w.list, k, w.live, w.seen);
    }

    /**
     * Where the `forEach` over the list `s` of a device stands: the live
     * list is `live`, the callback has run on `seen`, and exactly those
     * proxies' servers went from connected (`conn0`) to disconnected.
     */
    ghost predicate WalkAt(deviceId: string, s: seq<Device>, live: seq<Device>, seen: seq<Device>,
                           dbn0: map<string, seq<Device>>, events0: seq<Event>, conn0: set<Server>)
      reads this, servers
    {
      && WalkList(deviceId, s, proxies)
      && devicesBeingNotified == dbn0[deviceId := live]
      && events == events0 + DisconnectEvents(seen, DevicesOf(conn0))
      && ServersAt(seen, conn0)
    }

    /** The servers of the proxies in `seen` are the ones no longer connected. */
    ghost predicate ServersAt(seen: seq<Device>, conn0: set<Server>)
      reads this, servers
    {
      && conn0 <= servers
      && forall srv :: srv in servers ==> (srv.connected <==> srv in conn0 && srv.device !in seen)
    }

    /** The callback on one more proxy of the walk, and what it adds to the walk's record. */
    method VisitStep(device: Device, ghost live: seq<Device>, ghost seen: seq<Device>,
                     ghost dbn0: map<string, seq<Device>>, ghost events0: seq<Event>, ghost conn0: set<Server>)
      requires Valid() && device in proxies && device !in seen
      requires devicesBeingNotified == dbn0[device.id := live]
      requires events == events0 + DisconnectEvents(seen, DevicesOf(conn0))
      requires ServersAt(seen, conn0)
      modifies this`events, this`devicesBeingNotified, servers`connected
      ensures Valid()
      ensures devicesBeingNotified == dbn0[device.id := Lists.RemoveFirst(live, device)]
      ensures events == events0 + DisconnectEvents(seen + [device], DevicesOf(conn0))
      ensures ServersAt(seen + [device], conn0)
    {
      ghost var conn := DevicesOf(conn0);
      ghost var e: seq<Event> := if device in conn then [Event(device, GattServerDisconnected)] else [];
      DisconnectEventsSnoc(seen, device, conn);
      assert device.gatt.connected <==> device in conn;
      assert events0 + DisconnectEvents(seen + [device], conn) == events + e;
      Registry.UpdateTwice(dbn0, device.id, live, Lists.RemoveFirst(live, device));
      DisconnectProxy(device);
      forall srv | srv in servers
        ensures srv.connected <==> srv in conn0 && srv.device !in seen + [device]
      {
        assert srv.device in seen + [device] <==> srv.device in seen || srv.device == device;
      }
    }

    /** The callback of that `forEach`: handle the disconnect on the proxy, then unregister it. */
    method DisconnectProxy(device: Device)
      requires Valid() && device in proxies
      modifies this`events, this`devicesBeingNotified, device.gatt`connected
      ensures Valid()
      ensures devicesBeingNotified == Registry.UnregisterDevice(old(devicesBeingNotified), device.id, device)
      ensures events == old(events) + (if old(device.gatt.connected) then [Event(device, GattServerDisconnected)] else [])
      ensures forall srv :: srv in servers ==> srv.connected == (old(srv.connected) && srv.device != device)
    {
      device.HandleSpontaneousDisconnectEvent(this);
      UnregisterDeviceForNotifications(device);
    }

    /** `registerCharacteristicForNotifications`. */
    method RegisterCharacteristicForNotifications(c: Characteristic)
      requires Valid()
      modifies this`characteristicsBeingNotified, this`attributes
      ensures Valid()
      ensures characteristicsBeingNotified
           == Registry.RegisterAttribute(old(characteristicsBeingNotified), c.service.device.id, c.uuid, c)
      ensures attributes == old(attributes) + {c}
    {
      RegisterAttributeKeepsIndexes(devicesBeingNotified, characteristicsBeingNotified, proxies, servers, attributes,
                                    c.service.device.id, c.uuid, c);
      characteristicsBeingNotified
        := Registry.RegisterAttribute(characteristicsBeingNotified, c.service.device.id, c.uuid, c);
      attributes := attributes + {c};
    }

    /**
     * `receiveCharacteristicValueNotification`: an unknown pair is dropped;
     * otherwise every listed characteristic gets the decoded value and one
     * event. `getCharacteristic` and `decode` are the foreign UUID
     * canonicaliser and base64 decoder.
     */
    method ReceiveCharacteristicValueNotification(deviceId: string, cname: string, d64: string,
                                                 getCharacteristic: string -> string, decode: string -> Bytes)
      requires Valid()
      modifies this`events, attributes
      ensures Valid()
      ensures var found := Registry.Lookup(old(characteristicsBeingNotified), deviceId, getCharacteristic(cname));
        && (found.None? ==> events == old(events) && forall c :: c in attributes ==> c.value == old(c.value))
        && (found.Some? ==> && events == old(events) + ValueChangedEvents(found.value)
                            && (forall c :: c in found.value ==> c.value == Some(decode(d64)))
                            && (forall c :: c in attributes && c !in found.value ==> c.value == old(c.value)))
    {
      var cid := getCharacteristic(cname);
      var found := Registry.Lookup(characteristicsBeingNotified, deviceId, cid);
      if found.None? {
        return;
      }
      var chars := found.value;
      var i := 0;
      while i < |chars|
        invariant 0 <= i <= |chars|
        invariant events == old(events) + ValueChangedEvents(chars[..i])
        invariant forall c :: c in chars[..i] ==> c.value == Some(decode(d64))
        invariant forall c :: c in attributes && c !in chars[..i] ==> c.value == old(c.value)
      {
        var dataView := decode(d64);
        chars[i].value := Some(dataView);
        events := events + [Event(chars[i], CharacteristicValueChanged)];
        assert chars[..i + 1] == chars[..i] + [chars[i]];
        assert ValueChangedEvents(chars[..i + 1]) == ValueChangedEvents(chars[..i]) + [Event(chars[i], CharacteristicValueChanged)];
        i := i + 1;
      }
      assert chars[..i] == chars;
    }

    /**
     * `bluetooth.requestDevice`: a rejected option set sends nothing; an
     * accepted one sends exactly one `requestDevice` message.
     */
    method RequestDevice(options: Option<Messages.RequestOptions>, canonicalise: Filter -> Result<Filter, Failure>)
      returns (r: Result<nat, Failure>)
      requires Valid()
      modifies this`outbox, this`messageCount, this`callbacks, this`promises, this`issued
      ensures Valid()
      ensures var v := Messages.ValidateRequest(options, canonicalise);
        && (v.Failure? ==> r == Failure(v.error) && unchanged(this))
        && (v.Success? ==> r == Success(|old(promises)|) && PostedFresh("requestDevice", v.value))
    {
      var v := Messages.ValidateRequest(options, canonicalise);
      if v.Failure? {
        return Failure(v.error);
      }
      r := SendMessage(Some("requestDevice"), Params(Some(v.value), None));
    }
  }

  /** `BluetoothDevice`: its id and its GATT server. */
  class Device {
    const id: string
    var gatt: Server?

    ghost predicate Valid()
      reads this
    {
      gatt != null && gatt.device == this
    }

    constructor (id: string)
      ensures this.id == id && Valid() && fresh(gatt)
      ensures !gatt.connected && gatt.connectionTransactionIDs == []
    {
      this.id := id;
      new;
      gatt := new Server(this);
    }

    /** `handleSpontaneousDisconnectEvent`: nothing when already disconnected. */
    method HandleSpontaneousDisconnectEvent(n: Native)
      requires Valid()
      modifies gatt`connected, n`events
      ensures !gatt.connected
      ensures n.events == old(n.events) + (if old(gatt.connected) then [Event(this, GattServerDisconnected)] else [])
    {
      if !gatt.connected {
        return;
      }
      gatt.connected := false;
      n.events := n.events + [Event(this, GattServerDisconnected)];
    }
  }

  /** `BluetoothRemoteGATTServer`. */
  class Server {
    const device: Device
    var connected: bool
    var connectionTransactionIDs: seq<int>

    constructor (device: Device)
      ensures this.device == device && !connected && connectionTransactionIDs == []
    {
      this.device := device;
      connected := false;
      connectionTransactionIDs := [];
    }

    /** `sendMessage`: scope to the device and prefix the type with `device:`. */
    method SendMessage(n: Native, msgType: string, p: Params) returns (promise: nat)
      requires n.Valid()
      modifies n`outbox, n`messageCount, n`callbacks, n`promises, n`issued
      ensures n.Valid()
      ensures var s := Messages.ServerScope(device.id, msgType, p);
        promise == |old(n.promises)| && n.Sent(s.messageType, DataOf(s.params), SuppliedId(s.params))
    {
      var s := Messages.ServerScope(device.id, msgType, p);
      var r := n.SendMessage(Some(s.messageType), s.params);
      promise := r.value;
    }

    /** `connect`: allocate an id, remember it, and send `device:connectGATT` under it. */
    method Connect(n: Native) returns (tid: int, promise: nat)
      requires n.Valid()
      modifies this`connectionTransactionIDs, n`outbox, n`messageCount, n`callbacks, n`promises, n`issued
      ensures n.Valid()
      ensures connectionTransactionIDs == old(connectionTransactionIDs) + [tid]
      ensures promise == |old(n.promises)|
      ensures n.PostedFresh("device:" + "connectGATT", map[Messages.DeviceIdKey := Text(device.id)])
      ensures tid == n.outbox[|old(n.outbox)|].callbackID
    {
      tid := n.GetTransactionID();
      connectionTransactionIDs := connectionTransactionIDs + [tid];
      promise := SendMessage(n, "connectGATT", Params(None, Some(tid)));
    }

    /**
     * The continuation of `connect` once its promise resolves: mark
     * connected, register the device (which may throw) and splice `tid`
     * out of the id list (`indexOf` gives -1 if it is gone).
     */
    method ConnectResolved(n: Native, tid: int) returns (r: Result<Server, Failure>)
      requires n.Valid() && device.gatt == this
      modifies this, n`devicesBeingNotified, n`proxies, n`servers
      ensures n.Valid() && connected
      ensures var reg := Registry.RegisterDevice(old(n.devicesBeingNotified), device.id, device);
        && (reg.Success? ==> && r == Success(this)
                             && n.devicesBeingNotified == reg.value && n.proxies == old(n.proxies) + {device}
                             && connectionTransactionIDs
                                == Lists.SpliceOne(old(connectionTransactionIDs), Lists.IndexOf(old(connectionTransactionIDs), tid)))
        && (reg.Failure? ==> && r == Failure(reg.error)
                             && n.devicesBeingNotified == old(n.devicesBeingNotified) && n.proxies == old(n.proxies)
                             && connectionTransactionIDs == old(connectionTransactionIDs))
    {
      connected := true;
      var reg := n.RegisterDeviceForNotifications(device);
      if reg.Failure? {
        return Failure(reg.error);
      }
      connectionTransactionIDs := Lists.SpliceOne(connectionTransactionIDs, Lists.IndexOf(connectionTransactionIDs, tid));
      r := Success(this);
    }

    /**
     * `disconnect`: cancel every id in flight and clear the list; if
     * connected, mark disconnected, dispatch one event, unregister the
     * device and send `device:disconnectGATT`.
     */
    method Disconnect(n: Native)
      requires n.Valid()
      modifies this, n`outbox, n`messageCount, n`callbacks, n`promises, n`issued, n`events, n`devicesBeingNotified
      ensures n.Valid()
      ensures connectionTransactionIDs == [] && !connected
      ensures var cancelled := Broker.CancelAll(old(n.Ledger()), old(connectionTransactionIDs));
        && (!old(connected) ==>
              && n.Ledger() == cancelled && n.outbox == old(n.outbox) && n.events == old(n.events)
              && n.devicesBeingNotified == old(n.devicesBeingNotified)
              && n.messageCount == old(n.messageCount) && n.issued == old(n.issued))
        && (old(connected) ==>
              && n.events == old(n.events) + [Event(device, GattServerDisconnected)]
              && n.devicesBeingNotified == Registry.UnregisterDevice(old(n.devicesBeingNotified), device.id, device)
              && |n.outbox| == |old(n.outbox)| + 1
              && var m := n.outbox[|old(n.outbox)|];
              && n.outbox == old(n.outbox) + [m]
              && m.messageType == "device:" + "disconnectGATT" && m.data == map[Messages.DeviceIdKey := Text(device.id)]
              && Broker.FreshAbove(cancelled.callbacks.Keys, old(n.messageCount), m.callbackID)
              && n.messageCount == m.callbackID + 1 && n.issued == old(n.issued) + {m.callbackID}
              && n.Ledger() == Broker.Register(cancelled, m.callbackID))
    {
      CancelInFlight(n);
      if !connected {
        return;
      }
      MarkDisconnected(n);
      var _ := SendMessage(n, "disconnectGATT", NoParams);
    }

    /** Two `disconnect`s in a row dispatch at most one event, and only from a connected server. */
    method DisconnectTwice(n: Native)
      requires n.Valid()
      modifies this, n`outbox, n`messageCount, n`callbacks, n`promises, n`issued, n`events, n`devicesBeingNotified
      ensures n.Valid() && connectionTransactionIDs == [] && !connected
      ensures n.events == old(n.events) + (if old(connected) then [Event(device, GattServerDisconnected)] else [])
    {
      Disconnect(n);
      Disconnect(n);
    }

    /** The head of `disconnect`: cancel every id in flight, in order, then clear the list. */
    method CancelInFlight(n: Native)
      requires n.Valid()
      modifies this`connectionTransactionIDs, n`callbacks, n`promises
      ensures n.Valid() && connectionTransactionIDs == []
      ensures n.Ledger() == Broker.CancelAll(old(n.Ledger()), old(connectionTransactionIDs))
    {
      var ids := connectionTransactionIDs;
      var i := 0;
      while i < |ids|
        invariant 0 <= i <= |ids|
        invariant n.Valid()
        invariant n.Ledger() == Broker.CancelAll(old(n.Ledger()), ids[..i])
      {
        n.CancelTransaction(ids[i]);
        assert ids[..i + 1][..i] == ids[..i];
        i := i + 1;
      }
      assert ids[..i] == ids;
      connectionTransactionIDs := [];
    }

    /** The connected branch of `disconnect` up to the message: mark, dispatch, unregister. */
    method MarkDisconnected(n: Native)
      requires n.Valid()
      modifies this`connected, n`events, n`devicesBeingNotified
      ensures n.Valid() && !connected
      ensures n.events == old(n.events) + [Event(device, GattServerDisconnected)]
      ensures n.devicesBeingNotified == Registry.UnregisterDevice(old(n.devicesBeingNotified), device.id, device)
    {
      connected := false;
      n.events := n.events + [Event(device, GattServerDisconnected)];
      n.UnregisterDeviceForNotifications(device);
    }

    /** `getPrimaryService`: ask for the service with this canonical UUID. */
    method GetPrimaryService(n: Native, canonicalUUID: string) returns (promise: nat)
      requires n.Valid()
      modifies n`outbox, n`messageCount, n`callbacks, n`promises, n`issued
      ensures n.Valid() && promise == |old(n.promises)|
      ensures n.PostedFresh("device:" + "getPrimaryService",
                            map[Messages.ServiceUUIDKey := Text(canonicalUUID), Messages.DeviceIdKey := Text(device.id)])
    {
      promise := SendMessage(n, "getPrimaryService", Params(Some(map[Messages.ServiceUUIDKey := Text(canonicalUUID)]), None));
    }
  }

  /** `BluetoothRemoteGATTService`: immutable once built. */
  class Service {
    const device: Device
    const uuid: string
    const isPrimary: bool

    constructor (device: Device, uuid: string, isPrimary: bool)
      ensures this.device == device && this.uuid == uuid && this.isPrimary == isPrimary
    {
      this.device := device;
      this.uuid := uuid;
      this.isPrimary := isPrimary;
    }

    /** The constructor's guard: every argument must be supplied. */
    static method Create(device: Device?, uuid: Option<string>, isPrimary: Option<bool>) returns (r: Result<Service, Failure>)
      ensures r.Failure? <==> device == null || uuid.None? || isPrimary.None?
      ensures r.Failure? ==> r.error == Error(InvalidService)
      ensures r.Success? ==> && fresh(r.value) && r.value.device == device
                             && r.value.uuid == uuid.value && r.value.isPrimary == isPrimary.value
    {
      if device == null || uuid.None? || isPrimary.None? {
        return Failure(Error(InvalidService));
      }
      var s := new Service(device, uuid.value, isPrimary.value);
      r := Success(s);
    }

    /** `sendMessage`: add the service UUID and pass on to the device's server. */
    method SendMessage(n: Native, msgType: string, p: Params) returns (promise: nat)
      requires n.Valid() && device.Valid()
      modifies n`outbox, n`messageCount, n`callbacks, n`promises, n`issued
      ensures n.Valid()
      ensures var s := Messages.ServerScope(device.id, msgType, Messages.ServiceScope(uuid, p));
        promise == |old(n.promises)| && n.Sent(s.messageType, DataOf(s.params), SuppliedId(s.params))
    {
      promise := device.gatt.SendMessage(n, msgType, Messages.ServiceScope(uuid, p));
    }

    /** `getCharacteristic`: ask for the characteristic with this canonical UUID. */
    method GetCharacteristic(n: Native, canonicalUUID: string) returns (promise: nat)
      requires n.Valid() && device.Valid()
      modifies n`outbox, n`messageCount, n`callbacks, n`promises, n`issued
      ensures n.Valid() && promise == |old(n.promises)|
      ensures n.PostedFresh("device:" + "getCharacteristic",
                            map[Messages.CharacteristicUUIDKey := Text(canonicalUUID),
                                Messages.ServiceUUIDKey := Text(uuid),
                                Messages.DeviceIdKey := Text(device.id)])
    {
      promise := SendMessage(n, "getCharacteristic",
                             Params(Some(map[Messages.CharacteristicUUIDKey := Text(canonicalUUID)]), None));
    }
  }

  /** `BluetoothRemoteGATTCharacteristic`. */
  class Characteristic {
    const service: Service
    const uuid: string
    const properties: string
    var value: Option<Bytes>

    /** Construction registers the new proxy for value notifications. */
    constructor (service: Service, uuid: string, properties: string, n: Native)
      requires n.Valid()
      modifies n`characteristicsBeingNotified, n`attributes
      ensures n.Valid()
      ensures this.service == service && this.uuid == uuid && this.properties == properties && value.None?
      ensures n.characteristicsBeingNotified
           == Registry.RegisterAttribute(old(n.characteristicsBeingNotified), service.device.id, uuid, this)
      ensures n.attributes == old(n.attributes) + {this}
    {
      this.service := service;
      this.uuid := uuid;
      this.properties := properties;
      new;
      n.RegisterCharacteristicForNotifications(this);
      // The registration does not read `value`, so clearing it last is equivalent.
      value := None;
    }

    /** The full data every characteristic message carries besides its own keys. */
    function Scope(msgType: string, p: Params): Messages.Scoped
    {
      Messages.ServerScope(service.device.id, msgType,
        Messages.ServiceScope(service.uuid, Messages.CharacteristicScope(uuid, p)))
    }

    /** `sendMessage`: add the characteristic UUID and pass on to the service. */
    method SendMessage(n: Native, msgType: string, p: Params) returns (promise: nat)
      requires n.Valid() && service.device.Valid()
      modifies n`outbox, n`messageCount, n`callbacks, n`promises, n`issued
      ensures n.Valid()
      ensures promise == |old(n.promises)|
      ensures n.Sent(Scope(msgType, p).messageType, DataOf(Scope(msgType, p).params), SuppliedId(p))
    {
      promise := service.SendMessage(n, msgType, Messages.CharacteristicScope(uuid, p));
    }

    /** `readValue`: ask for the value. */
    method ReadValue(n: Native) returns (promise: nat)
      requires n.Valid() && service.device.Valid()
      modifies n`outbox, n`messageCount, n`callbacks, n`promises, n`issued
      ensures n.Valid() && promise == |old(n.promises)|
      ensures n.PostedFresh("device:" + "readCharacteristicValue", DataOf(Scope("readCharacteristicValue", NoParams).params))
    {
      promise := SendMessage(n, "readCharacteristicValue", NoParams);
    }

    /** The continuation of `readValue`: cache and return the decoded value. */
    method ReadValueResolved(valueEncoded: string, decode: string -> Bytes) returns (v: Option<Bytes>)
      modifies this`value
      ensures value == Some(decode(valueEncoded)) && v == value
    {
      value := Some(decode(valueEncoded));
      v := value;
    }

    /**
     * `writeValue`: reject anything that is not an ArrayBuffer or a view
     * over one, before sending; otherwise send the base64 of the buffer.
     */
    method WriteValue(n: Native, arg: Messages.WriteArgument, encode: Bytes -> string) returns (r: Result<nat, Failure>)
      requires n.Valid() && service.device.Valid()
      modifies n`outbox, n`messageCount, n`callbacks, n`promises, n`issued
      ensures n.Valid()
      ensures var b := Messages.WriteBuffer(arg);
        && (b.Failure? ==> r == Failure(b.error) && unchanged(n))
        && (b.Success? ==> && r == Success(|old(n.promises)|)
                           && n.PostedFresh("device:" + "writeCharacteristicValue",
                                            DataOf(Scope("writeCharacteristicValue",
                                                         Params(Some(map["value" := Text(encode(b.value))]), None)).params)))
    {
      var b := Messages.WriteBuffer(arg);
      if b.Failure? {
        return Failure(b.error);
      }
      var v64 := encode(b.value);
      var promise := SendMessage(n, "writeCharacteristicValue", Params(Some(map["value" := Text(v64)]), None));
      r := Success(promise);
    }

    /** `startNotifications`. */
    method StartNotifications(n: Native) returns (promise: nat)
      requires n.Valid() && service.device.Valid()
      modifies n`outbox, n`messageCount, n`callbacks, n`promises, n`issued
      ensures n.Valid() && promise == |old(n.promises)|
      ensures n.PostedFresh("device:" + "startNotifications", DataOf(Scope("startNotifications", NoParams).params))
    {
      promise := SendMessage(n, "startNotifications", NoParams);
    }

    /** `stopNotifications`. */
    method StopNotifications(n: Native) returns (promise: nat)
      requires n.Valid() && service.device.Valid()
      modifies n`outbox, n`messageCount, n`callbacks, n`promises, n`issued
      ensures n.Valid() && promise == |old(n.promises)|
      ensures n.PostedFresh("device:" + "stopNotifications", DataOf(Scope("stopNotifications", NoParams).params))
    {
      promise := SendMessage(n, "stopNotifications", NoParams);
    }
  }
}
