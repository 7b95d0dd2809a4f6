# Web Bluetooth polyfill core, modelled in Dafny

This project models the page-side core of the Web Bluetooth polyfill in
`BasicBrowser/WBPolyfill.js` and proves properties of it. Page script uses
the standard `navigator.bluetooth` objects. The polyfill turns each call into
an envelope `{type, data, callbackID}` posted to a native host. The host
answers by calling back into the page.

The model has six modules:

- `Types`: the shared values: `Option`, `Result`, the errors the polyfill
  throws (`TypeError`, `Error`, or a value thrown by foreign code), the
  `data` object of a message, and the envelope itself.
- `Broker`: the transaction broker of the `native` object, stated on values.
  A `Ledger` holds the `callbacks` table (transaction id to the promise its
  settle function settles) and the outcome of every promise
  (`Pending`, `Resolved`, `Rejected`).
- `Registry`: the two notification indexes, stated on values:
  `devicesBeingNotified` (device id to device proxies) and
  `characteristicsBeingNotified` (device id to characteristic UUID to
  characteristic proxies).
- `Lists`: the JavaScript array operations the core relies on: `indexOf`,
  `splice(i, 1)`, removal of the first match by identity, and what a
  `forEach` sees when its callback splices the array it walks.
- `Messages`: the pure parts of the proxies. These are the scoping chain
  (characteristic, then service, then server) that adds the UUID and device
  id keys and the `device:` prefix, the option checks of
  `bluetooth.requestDevice`, the argument check of `writeValue`, and the
  methods that throw `Not implemented`.
- `Polyfill`: the stateful objects, as classes whose methods update fields.
  - `Native` is the `native` object. It owns `messageCount`, the callback
    table, the promise outcomes and both indexes. Two logs stand in for its
    side effects: `outbox` collects every posted envelope and `events` every
    dispatched `(target, type)` event.
  - `Device`, `Server`, `Service` and `Characteristic` are the proxies.
    Promise continuations (`.then`) are separate methods that a host response
    enables: `Server.ConnectResolved` and `Characteristic.ReadValueResolved`.

`receiveDeviceDisconnectEvent` is modelled as written. Its `forEach` reads
the live array at each index while the callback splices it, so only the
proxies at even positions are handled. The proxies at odd positions stay
registered, and their servers stay connected.
`Native.ReceiveDeviceDisconnectEvent` states exactly this.
`Lists.EvensIsWholeIff` shows that every list of two or more proxies leaves
at least one registered.

## Model

| member | source | states |
|---|---|---|
| Broker.SettleOutcome | BasicBrowser/WBPolyfill.js:402-413 | A pending promise becomes resolved with the result on success and rejected with it otherwise; a settled promise keeps its outcome |
| Broker.Settle | BasicBrowser/WBPolyfill.js:403-412 | Calling the settle function under `id` settles exactly its promise (resolve on success, reject otherwise), deletes exactly that entry, and keeps the ledger valid |
| Broker.Register | BasicBrowser/WBPolyfill.js:402-413 | `sendMessage` adds one pending promise at the end and stores its settle function under the id, replacing any entry there; other entries and outcomes are kept |
| Broker.RegisterKeepsValid | BasicBrowser/WBPolyfill.js:402-413 | Registering keeps every entry pointing at a distinct pending promise |
| Broker.FreshAboveUnique | BasicBrowser/WBPolyfill.js:375-382 | The id the upward scan stops at is determined by the counter and the pending ids |
| Broker.Respond | BasicBrowser/WBPolyfill.js:415-421 | `receiveMessageResponse` keeps the ledger valid and never changes a settled outcome |
| Broker.Cancel | BasicBrowser/WBPolyfill.js:366-374 | `cancelTransaction` keeps the ledger valid and never changes a settled outcome |
| Broker.RespondKnown | BasicBrowser/WBPolyfill.js:415-421 | A response for an id with a pending entry settles that promise as `success` says, removes only that entry, and changes no other outcome |
| Broker.RespondUnknownIsNoOp | BasicBrowser/WBPolyfill.js:415-421 | A response with no id, or an id without a pending entry, changes nothing |
| Broker.RespondKeepsOthers | BasicBrowser/WBPolyfill.js:403-421 | Settling one id leaves every other pending id pending, under the same promise |
| Broker.RespondTwice | BasicBrowser/WBPolyfill.js:403-421 | A second response for the same id is a no-op |
| Broker.CancelThenRespond | BasicBrowser/WBPolyfill.js:366-421 | After a cancel, a late response and a second cancel for that id are both no-ops |
| Broker.CancelRejects | BasicBrowser/WBPolyfill.js:366-374 | Cancelling a pending id removes it and rejects its promise with `Premature cancellation.` |
| Broker.CancelAll | BasicBrowser/WBPolyfill.js:118 | Cancelling a list of ids in order keeps the ledger valid and the number of promises |
| Broker.CancelAllRemoves | BasicBrowser/WBPolyfill.js:118 | The cancelled ids, and only those, leave the callback table |
| Broker.CancelAllStaysSettled | BasicBrowser/WBPolyfill.js:118 | No promise settled before the cancellations changes its outcome |
| Broker.CancelAllRejects | BasicBrowser/WBPolyfill.js:118 | Every listed id that was pending has its promise rejected with `Premature cancellation.` |
| Broker.CancelAllKeeps | BasicBrowser/WBPolyfill.js:118 | A promise that no listed id was pending on keeps its outcome |
| Lists.IndexOf | BasicBrowser/WBPolyfill.js:109-112 | `indexOf` gives -1 exactly when the element is absent, else the first index holding it |
| Lists.SpliceOne | BasicBrowser/WBPolyfill.js:109-112 | `splice(start, 1)` removes one element for a start inside the list (a negative start counts from the end) and none past the end |
| Lists.SpliceIndexOfPresent | BasicBrowser/WBPolyfill.js:109-112 | Splicing at the `indexOf` of a present element removes its first occurrence |
| Lists.SpliceIndexOfAbsent | BasicBrowser/WBPolyfill.js:109-112 | Splicing at the `indexOf` of an absent element (-1) removes the last element of a non-empty list |
| Lists.RemoveFirst | BasicBrowser/WBPolyfill.js:445-450 | The search-and-splice loop leaves a list without the element unchanged and shortens a list with it by one |
| Lists.RemoveFirstCount | BasicBrowser/WBPolyfill.js:445-450 | It removes exactly one copy of the element and keeps every other element (as a multiset) |
| Lists.RemoveFirstAt | BasicBrowser/WBPolyfill.js:445-450 | When the first match is at index `k`, exactly slot `k` is cut |
| Lists.RemoveFirstAppended | BasicBrowser/WBPolyfill.js:436-450 | Removing an element just pushed onto a list without it restores the list |
| Lists.RemoveFirstDistinct | BasicBrowser/WBPolyfill.js:445-450 | On a duplicate-free list the result is duplicate-free, a subset, and free of the element |
| Lists.AppendDistinct | BasicBrowser/WBPolyfill.js:430-436 | Pushing an element not yet listed keeps the list duplicate-free |
| Lists.EvensOddsPartition | BasicBrowser/WBPolyfill.js:456-459 | Each element of a duplicate-free list is in exactly one of the even-position and odd-position halves |
| Lists.WalkStart | BasicBrowser/WBPolyfill.js:456 | Before the first step the live list is the whole list and nothing has been visited |
| Lists.WalkStep | BasicBrowser/WBPolyfill.js:456-459 | A step whose index is inside the live list hands the callback `s[2k]`, not yet seen, and the splice leaves the live list of the next step |
| Lists.WalkIdle | BasicBrowser/WBPolyfill.js:456-459 | A step whose index has run past the shrunken list does nothing |
| Lists.WalkEnd | BasicBrowser/WBPolyfill.js:456-459 | After as many steps as the list had elements, the callback has seen the even positions and the odd ones are left |
| Lists.EvensIsWholeIff | BasicBrowser/WBPolyfill.js:456-459 | The walk visits every element, and leaves none, exactly when the list has at most one element |
| Registry.RegisterDevice | BasicBrowser/WBPolyfill.js:424-437 | Registration fails with `Device already registered for notifications` exactly when this proxy is already listed; otherwise it appends it, creating the list for a new id, and keeps every other id |
| Registry.UnregisterDevice | BasicBrowser/WBPolyfill.js:438-451 | Unregistering keeps the set of ids and every other id's list, and is a no-op when the proxy is not listed |
| Registry.UnregisterRemovesOne | BasicBrowser/WBPolyfill.js:438-451 | It removes exactly one listing of the proxy from its id's list |
| Registry.RegisterKeepsNoDuplicates | BasicBrowser/WBPolyfill.js:424-437 | A successful registration keeps every list duplicate-free |
| Registry.UnregisterKeepsNoDuplicates | BasicBrowser/WBPolyfill.js:438-451 | Unregistering keeps every list duplicate-free and leaves the proxy unlisted |
| Registry.UnregisterUndoesRegister | BasicBrowser/WBPolyfill.js:424-451 | Unregistering a just-registered proxy restores the index, except that a list created for a new id stays, empty |
| Registry.TwoProxiesShareAnId | BasicBrowser/WBPolyfill.js:424-437 | Two distinct proxies of one id can both be registered, in order, but neither twice |
| Registry.RegisterAttribute | BasicBrowser/WBPolyfill.js:465-479 | A characteristic is appended under (device id, UUID) without de-duplication, creating both levels as needed; every other pair is kept |
| Registry.ClearDevice | BasicBrowser/WBPolyfill.js:461 | Clearing a device drops every pair under its id and keeps every other device's pairs |
| Registry.RegisterAfterClear | BasicBrowser/WBPolyfill.js:461-479 | A registration after a clear starts a fresh one-element list |
| Messages.ServerScope | BasicBrowser/WBPolyfill.js:171-176 | The server prefixes the type with `device:` and sets `deviceId` in `data` (created if absent), keeping the other keys and the callback id |
| Messages.ServiceScope | BasicBrowser/WBPolyfill.js:219-224 | The service sets `serviceUUID` in `data`, keeping the other keys and the callback id |
| Messages.CharacteristicScope | BasicBrowser/WBPolyfill.js:278-283 | The characteristic sets `characteristicUUID` in `data`, keeping the other keys and the callback id |
| Messages.CharacteristicChain | BasicBrowser/WBPolyfill.js:171-283 | A characteristic message reaches the broker as `device:<type>`, its data carrying the three scoping keys whatever the caller put there |
| Messages.CanonicaliseAll | BasicBrowser/WBPolyfill.js:329-333 | Mapping the canonicaliser succeeds exactly when it succeeds on every filter, with the results in order; otherwise it fails with the first filter's error |
| Messages.ValidateRequest | BasicBrowser/WBPolyfill.js:309-349 | No options, accept-all with non-empty filters, and neither accept-all nor filters give the three TypeErrors; accept-all sends `{acceptAllDevices: true}`; otherwise the canonicalised filters are sent, or the canonicaliser's error rejects |
| Messages.RequestTypeErrors | BasicBrowser/WBPolyfill.js:309-328 | With a canonicaliser that never throws, a request is rejected exactly in those three cases |
| Messages.AcceptAllWithOneFilter | BasicBrowser/WBPolyfill.js:315-318 | `{acceptAllDevices: true, filters: [f]}` is rejected |
| Messages.NoAcceptAllNoFilters | BasicBrowser/WBPolyfill.js:326-328 | `{acceptAllDevices: false, filters: []}` is rejected |
| Messages.AcceptAllNoFilters | BasicBrowser/WBPolyfill.js:315-323 | `{acceptAllDevices: true, filters: []}` is accepted and asks for all devices |
| Messages.CanonicaliserFailureRejects | BasicBrowser/WBPolyfill.js:329-333 | A canonicaliser exception on any filter rejects the whole request |
| Messages.WriteBuffer | BasicBrowser/WBPolyfill.js:258-267 | An ArrayBuffer is sent as is and a view sends its whole underlying buffer; a `buffer` that is not an ArrayBuffer throws the `writeValue needs an ArrayBuffer or View` Error, and null or undefined throws a TypeError |
| Messages.ViewWindowIgnored | BasicBrowser/WBPolyfill.js:262-269 | Two views over one buffer send the same bytes whatever their offsets and lengths |
| Messages.Invoke | BasicBrowser/WBPolyfill.js:147-150 | `getPrimaryServices`, and likewise the service, characteristic and descriptor stubs at lines 210-218, 245-250 and 299-304, throw `Not implemented` and do nothing else |
| Polyfill.UnregisterKeepsIndexes | BasicBrowser/WBPolyfill.js:438-451 | Unregistering keeps both indexes listing only known proxies of their own id, without duplicates |
| Polyfill.ClearKeepsIndexes | BasicBrowser/WBPolyfill.js:461 | Clearing a device's characteristic table keeps the indexes valid |
| Polyfill.RegisterKeepsIndexes | BasicBrowser/WBPolyfill.js:424-437 | Registering a proxy under its own id keeps the indexes valid once it is known |
| Polyfill.RegisterAttributeKeepsIndexes | BasicBrowser/WBPolyfill.js:465-479 | Registering a characteristic keeps the indexes valid once it is known |
| Polyfill.Native.constructor | BasicBrowser/WBPolyfill.js:362-364 | The broker starts at count 0 with no callbacks, and both indexes start empty |
| Polyfill.Native.GetTransactionID | BasicBrowser/WBPolyfill.js:375-382 | It returns the first id above the old `messageCount` with no pending callback and stores it in `messageCount`; the id was never issued before |
| Polyfill.Native.SendMessage | BasicBrowser/WBPolyfill.js:383-414 | Without a type it throws and changes nothing. Otherwise it posts one envelope with `data` defaulting to `{}`, under the supplied non-zero id or else a fresh one, bumps `messageCount`, and registers a new pending promise under that id |
| Polyfill.Native.Post | BasicBrowser/WBPolyfill.js:392-413 | The envelope is appended to the outbox, `messageCount` goes up by one, and its callback is registered |
| Polyfill.Native.ReceiveMessageResponse | BasicBrowser/WBPolyfill.js:415-421 | The ledger takes exactly the step `Broker.Respond` describes |
| Polyfill.Native.CancelTransaction | BasicBrowser/WBPolyfill.js:366-374 | The ledger takes exactly the step `Broker.Cancel` describes |
| Polyfill.Native.RegisterDeviceForNotifications | BasicBrowser/WBPolyfill.js:424-437 | The index becomes what `Registry.RegisterDevice` gives, or stays unchanged and the call throws its error |
| Polyfill.Native.UnregisterDeviceForNotifications | BasicBrowser/WBPolyfill.js:438-451 | The search loop with its splice leaves exactly `Registry.UnregisterDevice` of the old index |
| Polyfill.Native.ReceiveDeviceDisconnectEvent | BasicBrowser/WBPolyfill.js:452-462 | A known id's list keeps only its odd positions. Events go, in order, to the connected proxies at even positions, whose servers become disconnected; every other server keeps its state. The characteristic table of the id is dropped |
| Polyfill.Native.DisconnectAll | BasicBrowser/WBPolyfill.js:456-459 | The `forEach` with its splicing callback, as that same end state |
| Polyfill.Native.ForEachStep | BasicBrowser/WBPolyfill.js:456-459 | One step of the `forEach` moves the walk's record from step `k` to step `k + 1` |
| Polyfill.Native.VisitAt | BasicBrowser/WBPolyfill.js:456-459 | A step inside the live list hands its element to the callback and records it as seen |
| Polyfill.Native.VisitStep | BasicBrowser/WBPolyfill.js:457-458 | The callback on one more proxy extends the event log and the set of disconnected servers by that proxy, and removes it from the live list |
| Polyfill.Native.DisconnectProxy | BasicBrowser/WBPolyfill.js:457-458 | The callback dispatches one event if the proxy's server was connected, disconnects only that server, and unregisters the proxy |
| Polyfill.Native.RegisterCharacteristicForNotifications | BasicBrowser/WBPolyfill.js:465-479 | The index becomes `Registry.RegisterAttribute` of the old one under the characteristic's device id and UUID |
| Polyfill.Native.ReceiveCharacteristicValueNotification | BasicBrowser/WBPolyfill.js:480-498 | An unknown (device, canonical UUID) pair changes nothing. Otherwise each listed characteristic gets the decoded value and one event, in list order, and no other characteristic changes |
| Polyfill.Native.RequestDevice | BasicBrowser/WBPolyfill.js:309-349 | A rejected option set posts nothing and changes nothing; an accepted one posts exactly one `requestDevice` message under a fresh id, with the validated data |
| Polyfill.Device.constructor | BasicBrowser/WBPolyfill.js:44-58 | A device proxy keeps its id and owns a new, disconnected server that points back at it |
| Polyfill.Device.HandleSpontaneousDisconnectEvent | BasicBrowser/WBPolyfill.js:75-88 | A disconnected server is left alone; a connected one becomes disconnected with exactly one `gattserverdisconnected` event on the device |
| Polyfill.Server.constructor | BasicBrowser/WBPolyfill.js:93-100 | A new server is disconnected, with no connection ids |
| Polyfill.Server.SendMessage | BasicBrowser/WBPolyfill.js:171-176 | The broker receives the message scoped by `Messages.ServerScope` |
| Polyfill.Server.Connect | BasicBrowser/WBPolyfill.js:102-106 | A fresh id is appended to the connection ids, and `device:connectGATT` with the device id is posted under it |
| Polyfill.Server.ConnectResolved | BasicBrowser/WBPolyfill.js:106-115 | The server is marked connected. If the registration throws, the call fails with its error and the ids are kept; otherwise the id is spliced out at its `indexOf` |
| Polyfill.Server.Disconnect | BasicBrowser/WBPolyfill.js:117-133 | Every connection id is cancelled in order and the list emptied. A disconnected server stops there. A connected one is marked disconnected, dispatches exactly one event, unregisters its device and posts `device:disconnectGATT` under a fresh id |
| Polyfill.Server.DisconnectTwice | BasicBrowser/WBPolyfill.js:117-133 | Two `disconnect`s in a row dispatch at most one event, and only from a connected server |
| Polyfill.Server.CancelInFlight | BasicBrowser/WBPolyfill.js:118-119 | The `forEach` over the connection ids leaves exactly `Broker.CancelAll` of the ledger, then the list is emptied |
| Polyfill.Server.MarkDisconnected | BasicBrowser/WBPolyfill.js:123-128 | The server is marked disconnected, one event is dispatched and the device is unregistered |
| Polyfill.Server.GetPrimaryService | BasicBrowser/WBPolyfill.js:134-145 | `device:getPrimaryService` is posted under a fresh id, with the canonical service UUID and the device id |
| Polyfill.Service.constructor | BasicBrowser/WBPolyfill.js:183-192 | The service keeps its device, UUID and primary flag |
| Polyfill.Service.Create | BasicBrowser/WBPolyfill.js:183-192 | Construction throws `Invalid call to BluetoothRemoteGATTService constructor` exactly when an argument is missing |
| Polyfill.Service.SendMessage | BasicBrowser/WBPolyfill.js:219-224 | The broker receives the message scoped by the service and then the server |
| Polyfill.Service.GetCharacteristic | BasicBrowser/WBPolyfill.js:195-209 | `device:getCharacteristic` is posted under a fresh id, with the canonical characteristic UUID, the service UUID and the device id |
| Polyfill.Characteristic.constructor | BasicBrowser/WBPolyfill.js:231-242 | A new characteristic has no value and is appended to the characteristic index under its device id and UUID |
| Polyfill.Characteristic.SendMessage | BasicBrowser/WBPolyfill.js:278-283 | The broker receives the message scoped by the whole characteristic, service and server chain |
| Polyfill.Characteristic.ReadValue | BasicBrowser/WBPolyfill.js:251-253 | `device:readCharacteristicValue` is posted under a fresh id, with the three scoping keys |
| Polyfill.Characteristic.ReadValueResolved | BasicBrowser/WBPolyfill.js:253-256 | The decoded response is cached in `value` and returned |
| Polyfill.Characteristic.WriteValue | BasicBrowser/WBPolyfill.js:258-271 | A rejected argument throws before anything is posted. Otherwise `device:writeCharacteristicValue` is posted under a fresh id, with the base64 of the whole buffer under `value` |
| Polyfill.Characteristic.StartNotifications | BasicBrowser/WBPolyfill.js:272-274 | `device:startNotifications` is posted under a fresh id, with the three scoping keys |
| Polyfill.Characteristic.StopNotifications | BasicBrowser/WBPolyfill.js:275-277 | `device:stopNotifications` is posted under a fresh id, with the three scoping keys |

## Left out

- Logging through `nslog` has no effect on the state, so it is not modelled.
- `window.webkit.messageHandlers.bluetooth.postMessage` is host I/O. Posting appends the envelope to `Native.outbox`.
- The base64 codec (`str64todv`, `arrayBufferToBase64`), `BluetoothUUID.getService`/`getCharacteristic` and `canonicaliseFilter` are foreign code. Each is a function parameter, and the canonicaliser may fail with any error.
- `wbutils.EventTarget` and `mixin` are foreign code. Dispatching an event appends `(target, type)` to `Native.events`; listeners are not modelled.
- Promise scheduling is not modelled. A promise is an index into `Native.promises`, and each `.then` continuation is a separate method.
- The continuations that only build a proxy (`getPrimaryService`, `getCharacteristic`, `requestDevice`) or return `this` (`startNotifications`, `stopNotifications`) are not modelled separately. The constructors they call are.
- The `navigator.bluetooth` guard, `enableBluetooth`, the `window` exports and the `window.open` patch are global wiring, not state of the core.
- The code after the `throw` in `getPrimaryServices` can never run.
- The `BluetoothDevice` fields other than `id` and `gatt` (defaults such as `deviceClass`), and every `toString`, are formatting.
- The scoping `sendMessage` methods also write their keys into the caller's options object. The model passes a new value down instead, and the caller's object is not modelled.
- Polyfill.Service.GetCharacteristic: the `properties` of the host's answer are not passed on, since the continuation is not modelled.
- Messages.WriteBuffer: the text of the Error also includes the argument's JavaScript string form, which the model leaves out.
- Messages.WriteBuffer: for a null or undefined argument, the model states only that the error is a TypeError, not its engine-specific message.
- Clearing characteristics: `characteristicsBeingNotified[deviceId] = undefined` is modelled as removing the key. Every reader in the core treats both the same.
- Polyfill.Server.ConnectResolved: the model takes the transaction id as a parameter rather than linking it to the resolved promise.
- Polyfill.Native.ReceiveDeviceDisconnectEvent: the disconnects are stated over the servers of known proxies (`Native.servers`), not over every object on the heap.
- JavaScript truthiness is modelled only where the core relies on it: `callbackID || getTransactionID()` treats 0 as absent, and `acceptAllDevices` is a boolean.
