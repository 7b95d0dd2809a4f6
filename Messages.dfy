// The pure parts of the proxies: how each level of the object model scopes
// a message before it reaches the broker, how `requestDevice` validates its
// options, and how `writeValue` picks the buffer it sends.

module Messages {

  import opened Types

  const DeviceIdKey := "deviceId"
  const ServiceUUIDKey := "serviceUUID"
  const CharacteristicUUIDKey := "characteristicUUID"

  /** `messageParms.data = messageParms.data || {}; messageParms.data[key] = value` */
  function WithKey(p: Params, key: string, value: string): Params
  {
    Params(Some(DataOf(p)[key := Text(value)]), p.callbackID)
  }

  /** A message type and options as `BluetoothRemoteGATTServer.sendMessage` hands them to the broker. */
  datatype Scoped = Scoped(messageType: string, params: Params)

  /**
   * `BluetoothRemoteGATTServer.sendMessage`: prefix the type with
   * `device:` and add the device id to the data.
   */
  function ServerScope(deviceId: string, messageType: string, p: Params): (r: Scoped)
    ensures r.messageType == "device:" + messageType
    ensures r.params.callbackID == p.callbackID && r.params.data.Some?
    ensures r.params.data.value.Keys == DataOf(p).Keys + {DeviceIdKey}
    ensures r.params.data.value[DeviceIdKey] == Text(deviceId)
    ensures forall k :: k in DataOf(p) && k != DeviceIdKey ==> r.params.data.value[k] == DataOf(p)[k]
  {
    Scoped("device:" + messageType, WithKey(p, DeviceIdKey, deviceId))
  }

  /** `BluetoothRemoteGATTService.sendMessage`: add the service UUID to the data. */
  function ServiceScope(serviceUUID: string, p: Params): (r: Params)
    ensures r.callbackID == p.callbackID && r.data.Some?
    ensures r.data.value.Keys == DataOf(p).Keys + {ServiceUUIDKey}
    ensures r.data.value[ServiceUUIDKey] == Text(serviceUUID)
    ensures forall k :: k in DataOf(p) && k != ServiceUUIDKey ==> r.data.value[k] == DataOf(p)[k]
  {
    WithKey(p, ServiceUUIDKey, serviceUUID)
  }

  /** `BluetoothRemoteGATTCharacteristic.sendMessage`: add the characteristic UUID to the data. */
  function CharacteristicScope(characteristicUUID: string, p: Params): (r: Params)
    ensures r.callbackID == p.callbackID && r.data.Some?
    ensures r.data.value.Keys == DataOf(p).Keys + {CharacteristicUUIDKey}
    ensures r.data.value[CharacteristicUUIDKey] == Text(characteristicUUID)
    ensures forall k :: k in DataOf(p) && k != CharacteristicUUIDKey ==> r.data.value[k] == DataOf(p)[k]
  {
    WithKey(p, CharacteristicUUIDKey, characteristicUUID)
  }

  /**
   * The whole chain from a characteristic: the broker receives
   * `device:<type>` and the caller's data with the three scoping keys set,
   * whatever the caller had put under those keys.
   */
  lemma CharacteristicChain(deviceId: string, serviceUUID: string, characteristicUUID: string, messageType: string, p: Params)
    ensures var r := ServerScope(deviceId, messageType, ServiceScope(serviceUUID, CharacteristicScope(characteristicUUID, p)));
      && r.messageType == "device:" + messageType
      && r.params.callbackID == p.callbackID
      && r.params.data == Some(DataOf(p)[CharacteristicUUIDKey := Text(characteristicUUID)]
                                        [ServiceUUIDKey := Text(serviceUUID)]
                                        [DeviceIdKey := Text(deviceId)])
  {
  }

  // ----- requestDevice -----

  /** The fields of `requestDeviceOptions` the polyfill reads; `acceptAllDevices` as JavaScript truthiness. */
  datatype RequestOptions = RequestOptions(acceptAllDevices: bool, filters: Option<seq<Filter>>)

  const NoOptions := "requestDeviceOptions not provided"
  const AcceptAllWithFilters := "acceptAllDevices was true but filters was not empty"
  const NoFilters := "No filters provided and acceptAllDevices not set"

  /** `filters && filters.length > 0` */
  predicate HasFilters(filters: Option<seq<Filter>>)
  {
    filters.Some? && |filters.value| > 0
  }

  /**
   * `Array.prototype.map.call(filters, canonicaliseFilter)`: the first
   * filter the canonicaliser throws on aborts the whole map.
   */
  function CanonicaliseAll(fs: seq<Filter>, canonicalise: Filter -> Result<Filter, Failure>): (r: Result<seq<Filter>, Failure>)
    ensures r.Success? <==> forall i :: 0 <= i < |fs| ==> canonicalise(fs[i]).Success?
    ensures r.Success? ==> |r.value| == |fs| && forall i :: 0 <= i < |fs| ==> canonicalise(fs[i]) == Success(r.value[i])
    ensures r.Failure? ==> exists i :: 0 <= i < |fs| && canonicalise(fs[i]) == Failure(r.error)
                                       && forall j :: 0 <= j < i ==> canonicalise(fs[j]).Success?
  {
    if fs == [] then Success([])
    else
      var head := canonicalise(fs[0]);
      if head.Failure? then Failure(head.error)
      else
        var rest := CanonicaliseAll(fs[1..], canonicalise);
        if rest.Failure? then
          assert forall j :: 1 <= j < |fs| ==> fs[1..][j - 1] == fs[j];
          Failure(rest.error)
        else
          assert forall j :: 1 <= j < |fs| ==> fs[1..][j - 1] == fs[j];
          Success([head.value] + rest.value)
  }

  /**
   * The checks of `bluetooth.requestDevice` and the `data` it then sends
   * with the `requestDevice` message.
   */
  function ValidateRequest(options: Option<RequestOptions>, canonicalise: Filter -> Result<Filter, Failure>): (r: Result<Data, Failure>)
    ensures options.None? ==> r == Failure(TypeError(NoOptions))
    ensures options.Some? && options.value.acceptAllDevices ==>
      if HasFilters(options.value.filters) then r == Failure(TypeError(AcceptAllWithFilters))
      else r == Success(map["acceptAllDevices" := Flag(true)])
    ensures options.Some? && !options.value.acceptAllDevices && !HasFilters(options.value.filters) ==>
      r == Failure(TypeError(NoFilters))
    ensures options.Some? && !options.value.acceptAllDevices && HasFilters(options.value.filters) ==>
      var fs := options.value.filters.value;
      && (r.Success? <==> forall i :: 0 <= i < |fs| ==> canonicalise(fs[i]).Success?)
      && (r.Success? ==> r.value.Keys == {"filters"} && r.value["filters"].Filters?
                         && |r.value["filters"].filters| == |fs|
                         && forall i :: 0 <= i < |fs| ==> canonicalise(fs[i]) == Success(r.value["filters"].filters[i]))
      && (r.Failure? ==> exists i :: 0 <= i < |fs| && canonicalise(fs[i]) == Failure(r.error))
  {
    if options.None? then Failure(TypeError(NoOptions))
    else
      var o := options.value;
      if o.acceptAllDevices then
        if HasFilters(o.filters) then Failure(TypeError(AcceptAllWithFilters))
        else Success(map["acceptAllDevices" := Flag(true)])
      else if !HasFilters(o.filters) then Failure(TypeError(NoFilters))
      else
        match CanonicaliseAll(o.filters.value, canonicalise)
        case Failure(e) => Failure(e)
        case Success(cs) => Success(map["filters" := Filters(cs)])
  }

  /** A request is rejected with a TypeError exactly in the three cases the polyfill checks. */
  lemma RequestTypeErrors(options: Option<RequestOptions>, canonicalise: Filter -> Result<Filter, Failure>)
    requires forall f :: canonicalise(f).Success?
    ensures ValidateRequest(options, canonicalise).Failure? <==>
      || options.None?
      || (options.value.acceptAllDevices && HasFilters(options.value.filters))
      || (!options.value.acceptAllDevices && !HasFilters(options.value.filters))
  {
  }

  /** `{acceptAllDevices: true, filters: [f]}` is rejected. */
  lemma AcceptAllWithOneFilter(f: Filter, canonicalise: Filter -> Result<Filter, Failure>)
    ensures ValidateRequest(Some(RequestOptions(true, Some([f]))), canonicalise) == Failure(TypeError(AcceptAllWithFilters))
  {
  }

  /** `{acceptAllDevices: false, filters: []}` is rejected. */
  lemma NoAcceptAllNoFilters(canonicalise: Filter -> Result<Filter, Failure>)
    ensures ValidateRequest(Some(RequestOptions(false, Some([]))), canonicalise) == Failure(TypeError(NoFilters))
  {
  }

  /** `{acceptAllDevices: true, filters: []}` is accepted and asks for all devices. */
  lemma AcceptAllNoFilters(canonicalise: Filter -> Result<Filter, Failure>)
    ensures ValidateRequest(Some(RequestOptions(true, Some([]))), canonicalise) == Success(map["acceptAllDevices" := Flag(true)])
  {
  }

  /** A canonicaliser exception on a later filter still rejects the whole request. */
  lemma {:induction false} CanonicaliserFailureRejects(fs: seq<Filter>, k: nat, canonicalise: Filter -> Result<Filter, Failure>)
    requires k < |fs| && canonicalise(fs[k]).Failure?
    ensures ValidateRequest(Some(RequestOptions(false, Some(fs))), canonicalise).Failure?
  {
    assert !(forall i :: 0 <= i < |fs| ==> canonicalise(fs[i]).Success?);
  }

  // ----- writeValue -----

  /**
   * What the page passes to `writeValue`: an ArrayBuffer, a view (a typed
   * array or DataView) over an ArrayBuffer with its byte window, an object
   * whose `buffer` is not an ArrayBuffer, or null/undefined.
   */
  datatype WriteArgument =
    | ArrayBuffer(bytes: Bytes)
    | ArrayBufferView(buffer: Bytes, byteOffset: nat, byteLength: nat)
    | NotBufferBacked
    | Nullish

  const NeedsBuffer := "writeValue needs an ArrayBuffer or View"
  const NullishAccess := "Cannot read property 'buffer' of null or undefined"

  /**
   * The buffer `writeValue` encodes: the ArrayBuffer itself, or the WHOLE
   * buffer behind a view (its window is not applied).
   */
  function WriteBuffer(value: WriteArgument): (r: Result<Bytes, Failure>)
    ensures r.Success? <==> value.ArrayBuffer? || value.ArrayBufferView?
    ensures value.ArrayBuffer? ==> r == Success(value.bytes)
    ensures value.ArrayBufferView? ==> r == Success(value.buffer)
    ensures value.NotBufferBacked? ==> r == Failure(Error(NeedsBuffer))
    ensures value.Nullish? ==> r.Failure? && r.error.TypeError?
  {
    match value
    case ArrayBuffer(b) => Success(b)
    case ArrayBufferView(buf, _, _) => Success(buf)
    case NotBufferBacked => Failure(Error(NeedsBuffer))
    case Nullish => Failure(TypeError(NullishAccess))
  }

  /** Two views over one buffer send the same bytes whatever their windows. */
  lemma ViewWindowIgnored(buffer: Bytes, o1: nat, n1: nat, o2: nat, n2: nat)
    ensures WriteBuffer(ArrayBufferView(buffer, o1, n1)) == WriteBuffer(ArrayBufferView(buffer, o2, n2))
  {
  }

  // ----- operations that fail fast -----

  const NotImplemented := "Not implemented"

  /** The operations that throw `Not implemented` before doing anything. */
  datatype Unimplemented =
    | GetPrimaryServices       // BluetoothRemoteGATTServer
    | GetCharacteristics       // BluetoothRemoteGATTService
    | GetIncludedService
    | GetIncludedServices
    | GetDescriptor            // BluetoothRemoteGATTCharacteristic
    | GetDescriptors
    | DescriptorReadValue      // BluetoothGATTDescriptor
    | DescriptorWriteValue

  /** Each of them throws a plain Error saying so, and has no other effect. */
  function Invoke(op: Unimplemented): (r: Result<(), Failure>)
    ensures r == Failure(Error(NotImplemented))
  {
    Failure(Error(NotImplemented))
  }
}
