// The two notification indexes of the `native` object, stated on values:
// `devicesBeingNotified` (device id to the device proxies listening for a
// disconnect) and `characteristicsBeingNotified` (device id to
// characteristic UUID to the characteristic proxies listening for values).
// Proxies are compared by identity, so the element type only needs `==`.

module Registry {

  import opened Types
  import Lists

  const AlreadyRegistered := "Device already registered for notifications"

  /** The list for `did`, or the empty list `registerDeviceForNotifications` would create. */
  function ListFor<T>(idx: map<string, seq<T>>, did: string): seq<T>
  {
    if did in idx then idx[did] else []
  }

  /** Every list of the device index is free of duplicates. */
  ghost predicate NoDuplicates<T>(idx: map<string, seq<T>>)
  {
    forall did :: did in idx ==> Lists.Distinct(idx[did])
  }

  /**
   * `registerDeviceForNotifications`: fails if this very proxy is already
   * listed under `did`, otherwise appends it (creating the list if needed).
   */
  function RegisterDevice<T(==)>(idx: map<string, seq<T>>, did: string, d: T): (r: Result<map<string, seq<T>>, Failure>)
    ensures r.Failure? <==> d in ListFor(idx, did)
    ensures r.Failure? ==> r.error == Error(AlreadyRegistered)
    ensures r.Success? ==> && r.value.Keys == idx.Keys + {did}
                           && r.value[did] == ListFor(idx, did) + [d]
                           && forall k :: k in idx && k != did ==> r.value[k] == idx[k]
  {
    var devs := ListFor(idx, did);
    if d in devs then Failure(Error(AlreadyRegistered)) else Success(idx[did := devs + [d]])
  }

  /**
   * `unregisterDeviceForNotifications`: removes the first listing of this
   * very proxy; a missing device id or proxy leaves the index unchanged.
   * An emptied list stays in the index.
   */
  function UnregisterDevice<T(==)>(idx: map<string, seq<T>>, did: string, d: T): (r: map<string, seq<T>>)
    ensures r.Keys == idx.Keys
    ensures forall k :: k in idx && k != did ==> r[k] == idx[k]
    ensures d !in ListFor(idx, did) ==> r == idx
  {
    if did in idx then idx[did := Lists.RemoveFirst(idx[did], d)] else idx
  }

  /** Unregistering removes exactly one listing of the proxy, if it is listed, and keeps the others. */
  lemma UnregisterRemovesOne<T>(idx: map<string, seq<T>>, did: string, d: T)
    requires did in idx
    ensures multiset(UnregisterDevice(idx, did, d)[did]) == multiset(idx[did]) - multiset{d}
  {
    Lists.RemoveFirstCount(idx[did], d);
  }

  /** A second update of the same key overrides the first. */
  lemma UpdateTwice<V>(m: map<string, V>, k: string, a: V, b: V)
    ensures m[k := a][k := b] == m[k := b]
  {
  }

  /** Registering keeps the lists free of duplicates. */
  lemma RegisterKeepsNoDuplicates<T>(idx: map<string, seq<T>>, did: string, d: T)
    requires NoDuplicates(idx) && RegisterDevice(idx, did, d).Success?
    ensures NoDuplicates(RegisterDevice(idx, did, d).value)
  {
    Lists.AppendDistinct(ListFor(idx, did), d);
  }

  /** Unregistering keeps the lists free of duplicates and only removes. */
  lemma UnregisterKeepsNoDuplicates<T>(idx: map<string, seq<T>>, did: string, d: T)
    requires NoDuplicates(idx)
    ensures NoDuplicates(UnregisterDevice(idx, did, d))
    ensures did in idx ==> forall e :: e in UnregisterDevice(idx, did, d)[did] ==> e in idx[did] && e != d
  {
    if did in idx { Lists.RemoveFirstDistinct(idx[did], d); }
  }

  /**
   * Unregistering a proxy that was just registered restores the index,
   * except that a list created for a new device id stays, empty.
   */
  lemma UnregisterUndoesRegister<T>(idx: map<string, seq<T>>, did: string, d: T)
    requires RegisterDevice(idx, did, d).Success?
    ensures UnregisterDevice(RegisterDevice(idx, did, d).value, did, d) == idx[did := ListFor(idx, did)]
  {
    var devs := ListFor(idx, did);
    Lists.RemoveFirstAppended(devs, d);
    var r := idx[did := devs + [d]];
    assert RegisterDevice(idx, did, d).value == r;
    assert r[did := devs] == idx[did := devs];
  }

  /** Two distinct proxies of one device id can both be registered. */
  lemma TwoProxiesShareAnId<T>(idx: map<string, seq<T>>, did: string, a: T, b: T)
    requires did !in idx && a != b
    ensures RegisterDevice(idx, did, a).Success?
    ensures RegisterDevice(RegisterDevice(idx, did, a).value, did, b).Success?
    ensures RegisterDevice(RegisterDevice(idx, did, a).value, did, b).value[did] == [a, b]
    ensures RegisterDevice(RegisterDevice(idx, did, a).value, did, a).Failure?
  {
  }

  /**
   * `registerCharacteristicForNotifications`: append the proxy under
   * (`did`, `cid`), creating both levels if needed; no de-duplication.
   */
  function RegisterAttribute<T>(idx: map<string, map<string, seq<T>>>, did: string, cid: string, c: T): (r: map<string, map<string, seq<T>>>)
    ensures r.Keys == idx.Keys + {did}
    ensures Lookup(r, did, cid) == Some(ListOrEmpty(Lookup(idx, did, cid)) + [c])
    ensures forall d, k :: (d, k) != (did, cid) ==> Lookup(r, d, k) == Lookup(idx, d, k)
  {
    var chars := if did in idx then idx[did] else map[];
    var list := if cid in chars then chars[cid] else [];
    idx[did := chars[cid := list + [c]]]
  }

  /** `characteristicsBeingNotified[did] && characteristicsBeingNotified[did][cid]`. */
  function Lookup<T>(idx: map<string, map<string, seq<T>>>, did: string, cid: string): Option<seq<T>>
  {
    if did in idx && cid in idx[did] then Some(idx[did][cid]) else None
  }

  function ListOrEmpty<T>(o: Option<seq<T>>): seq<T>
  {
    if o.Some? then o.value else []
  }

  /**
   * `characteristicsBeingNotified[did] = undefined` on a disconnect: every
   * pair under `did` is gone, every other pair is kept.
   */
  function ClearDevice<T>(idx: map<string, map<string, seq<T>>>, did: string): (r: map<string, map<string, seq<T>>>)
    ensures forall cid :: Lookup(r, did, cid).None?
    ensures forall d, cid :: d != did ==> Lookup(r, d, cid) == Lookup(idx, d, cid)
  {
    idx - {did}
  }

  /** Registering a characteristic after its device was cleared starts a fresh list. */
  lemma {:induction false} RegisterAfterClear<T>(idx: map<string, map<string, seq<T>>>, did: string, cid: string, c: T)
    ensures Lookup(RegisterAttribute(ClearDevice(idx, did), did, cid, c), did, cid) == Some([c])
  {
    assert Lookup(ClearDevice(idx, did), did, cid) == None;
    assert ListOrEmpty<T>(None) + [c] == [c];
  }
}
