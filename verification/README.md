# SOME/IP to KUKSA bridge: a verified model

This project models the parts of the bridge that carry state or move bytes, and proves what they
guarantee. It is written in Dafny 4.11; `dafny verify dfyconfig.toml` checks all of it.

| file | part of the system |
|---|---|
| `FeederBuffer.dfy` | the value maps of the broker feeder: store, swap out a batch, build a request, restore |
| `FeederProtocol.dfy` | the feeder thread, its producers, `Shutdown` callers and the shared client as one step relation, with its invariants |
| `FeederDelivery.dfy` | conservation, per-name order of delivery, no lost wake-up |
| `FeederLink.dfy` | the order of the broker traffic, and what a failed call does to it |
| `FeederLoss.dfy` | exactly when a fed value is lost, and that it is lost for good |
| `FeederProgress.dfy` | what is stored is acknowledged within a fixed number of steps |
| `FeederRegistration.dfy` | registration before update, the first update of a connection, the shared connection flag |
| `FeederShutdown.dfy` | what is left to happen after `Shutdown`, and exactly when the thread hangs |
| `SubscriberProtocol.dfy` | the actuator subscriber racing with `Shutdown`, its back-off and its callbacks |
| `Bytes.dfy`, `PayloadCodec.dfy` | machine words, and the bytes each data type contributes to a payload |
| `FieldMeaning.dfy` | what a request carries for a value, type by type |
| `ActuatorRequests.dfy` | `on_actuator_change`: overlay of all matched nodes on one payload, and the requests |
| `EventDecoding.dfy` | `on_someip_message`: what each node reads and feeds |
| `FieldRoundTrips.dfy` | the event decoder applied to what the request encoder wrote |
| `WiperPoc.dfy` | the fixed-layout wiper event and request payloads |
| `WiperSim.dfy` | the wiper simulator |
| `WiperNotifier.dfy` | the notify loop over the simulator, with settings arriving from other threads |
| `TelemetryTree.dfy` | the telemetry message tree with its path cache |
| `TelemetryHeartbeat.dfy` | publication by flag and heartbeat against an unsynchronised writer |
| `Options.dfy` | the optional value |

## How the concurrent parts are modelled

The feeder, the subscriber and the publisher are step relations: an action is one critical section,
one read or write of an unlocked flag, or one half of a remote call. What the environment decides (the
reply of the broker, whether a failed call took effect, the order in which a hash map is walked, a
spurious wake-up) is a parameter of the action. `Runs` says that a sequence of actions is possible and
`Exec` where it leads; the theorems quantify over all such sequences. Values carry their feed index, and
the state keeps the history of feeds and of broker traffic, so that a theorem about delivery is a
statement about that history. The critical sections of the feeder are also written as methods of a class
whose contracts are the very expressions the step relation uses. Atomic flags are taken to be
sequentially consistent.

Two flags have several writers. `connected_` belongs to a client shared by feeder and subscriber: the
feeder's wait sets it, any failed call clears it, and the action `Subscriber` lets the other thread write
it at any moment. `needTransmit` is written by the signal callback and by the publisher without a lock,
and `|=` is two actions.

## Where the code and its documentation differ

- `CollectorClient::handleGrpcError` is documented as deactivating the feeder on unrecoverable errors; the
  code only clears the connection flag, whatever the error, and the model does the same.
- `publishState` has a comment about ten seconds; the code compares with 500 ms.
- `FeedValues` promises that values are kept until they can be sent. A value whose name has no id in the
  broker's reply is dropped by the next acknowledged update; `FeederLoss.dfy` says exactly when this happens.
- The wiper payload encoder writes floats in host order and the decoder reads them as big-endian.
- A plain 16-bit field is written in host order and read in network order
  (`PlainWordComesBackSwapped`), unlike the array types. The byte order of SOME/IP payloads is a matter of
  section 4.1 of the AUTOSAR SOME/IP Protocol Specification (PRS_SOMEIPProtocol).

## Properties the code fails, with the exact condition

- A fed value of a configured datapoint can be lost before shutdown, in an acknowledged update that does not
  carry it (`NewestValueConserved`, `LostForGood`). It cannot if every registration gives the name an id of its
  own and the shared connection flag is not raised at the feed loop before there is one (`NeverLost`), and
  neither part can be left out (`ReplyLosesValues`, `RaiseInGapLosesValues`, `SharedFlagLosesValue`).
- An update can go out without a registration, if and only if the subscriber raises the shared flag in the gap
  (`RegisterBeforeUpdate`, `RaiseInGapSendsUnregistered`).
- `Shutdown` can leave the feeder waiting (`HangsExactlyInWindow`, `ShutdownCanHang`).
- `Shutdown` can leave the subscriber in `Finish` on a live stream (`StaysUncancelledExactly`,
  `ShutdownCanMissSubscription`), or be ignored (`EarlyShutdownIgnored`).
- The first ending event of a wipe can stay unpublished (`OrderedWipePublished`, `EndingCanBeHidden`).
- A failed signal can erase a repeated leaf (`FailureKeepsTreeIff`, `ScalarErasesList`), a snapshot can hold a
  repeated leaf half written (`SnapshotExact`, `TornSnapshotSent`), and the prompt of a change can be lost
  (`RaiseHeard`, `RaiseLost`).
- Some words do not come back as they were sent (`Uint16ArrayReadsBack`, `PlainWordComesBackSwapped`,
  `EventRoundTrip`).

## Model

| member | source | states |
|---|---|---|
| FeederBuffer.InsertInitialAt | someip-feeder/src/lib/broker_feeder/data_broker_feeder.cc:196-209 | per name: pending values take precedence, every configured name is covered by the entry configured first for it, nothing else is added |
| FeederBuffer.RequestDeliversAll | someip-feeder/src/lib/broker_feeder/data_broker_feeder.cc:217-232 | a request delivers every known entry of its batch if and only if names sharing a broker id agree on the value |
| FeederBuffer.RequestExact | someip-feeder/src/lib/broker_feeder/data_broker_feeder.cc:217-232 | for a name whose id no other name of the batch shares the request holds exactly what the batch holds, whatever ids other names share |
| FeederBuffer.Buffer.StoreValues | someip-feeder/src/lib/broker_feeder/data_broker_feeder.cc:154-164 | newer values overwrite stored ones, others stay |
| FeederBuffer.Buffer.TakeBatch | someip-feeder/src/lib/broker_feeder/data_broker_feeder.cc:199-209 | the store is emptied and the batch is all of it, completed with initial values on demand |
| FeederBuffer.Buffer.BuildRequest | someip-feeder/src/lib/broker_feeder/data_broker_feeder.cc:217-232 | in whatever order the entries are walked, the request has exactly the ids of known names, each with a value of a name registered under it |
| FeederBuffer.Buffer.RestoreValues | someip-feeder/src/lib/broker_feeder/data_broker_feeder.cc:245-249 | a failed batch returns, values stored meanwhile are not overwritten |
| FeederBuffer.Buffer.FeedStoredValues | someip-feeder/src/lib/broker_feeder/data_broker_feeder.cc:196-214 | undisturbed, an acknowledged batch is gone from the store and a failed one is back as it was sent |
| FeederProtocol.RunKeeps | someip-feeder/src/lib/broker_feeder/data_broker_feeder.cc:70-249 | in every interleaving all values are genuine, conserved and ordered, and no wake-up is lost |
| FeederLoss.NewestValueConserved | someip-feeder/src/lib/broker_feeder/data_broker_feeder.cc:130-249 | before shutdown the newest value of a name is stored, in flight or delivered by an acknowledged update if and only if no acknowledged update had it in its batch without carrying it |
| FeederLoss.AckedNeverSentAgain | someip-feeder/src/lib/broker_feeder/data_broker_feeder.cc:196-249 | a fed value in an acknowledged batch is in no later update |
| FeederLoss.LostForGood | someip-feeder/src/lib/broker_feeder/data_broker_feeder.cc:130-249 | a value that was dropped is never again stored, in flight or delivered, whatever follows |
| FeederDelivery.DroppedIsUnaddressed | someip-feeder/src/lib/broker_feeder/data_broker_feeder.cc:217-232 | a value is dropped only by an update that had no id for the name, or one shared with another name of its batch |
| FeederLoss.NeverLost | someip-feeder/src/lib/broker_feeder/data_broker_feeder.cc:78-249 | nothing is lost before shutdown if every registration gives the name an id of its own and the shared flag is never raised at the feed loop while there is none |
| FeederLoss.CanMissIff | someip-feeder/src/lib/broker_feeder/data_broker_feeder.cc:217-232 | some walk over a batch yields a request without the value of a name if and only if the name has no id or shares one with a name of the batch that has another value |
| FeederLoss.ReplyLosesValues | someip-feeder/src/lib/broker_feeder/data_broker_feeder.cc:165-193 | the first part of that condition is needed: from every state awaiting the reply with connection and feeder up, a registration that gives the name no id, or shares it with another stored value, lets a stored value be lost |
| FeederDelivery.AddressedValueConserved | someip-feeder/src/lib/broker_feeder/data_broker_feeder.cc:130-249 | for a name with an id of its own in every update nothing is lost before shutdown, whatever other names share |
| FeederDelivery.SentIsGenuine | someip-feeder/src/lib/broker_feeder/data_broker_feeder.cc:162-249 | every value in every update, the last one included, was fed for the name or is its configured initial value; with a shared id, of a name registered under the same id |
| FeederDelivery.DeliveryInFeedOrder | someip-feeder/src/lib/broker_feeder/data_broker_feeder.cc:162-249 | over any failures and retries the producer values sent for a name with its own id never go back in feed order, and any other value is its configured initial one |
| FeederDelivery.WaitingMeansEmpty | someip-feeder/src/lib/broker_feeder/data_broker_feeder.cc:94-151 | a feeder that waits and has not been notified has nothing stored |
| FeederProgress.StoredIsAcknowledged | someip-feeder/src/lib/broker_feeder/data_broker_feeder.cc:78-151 | from every reachable state before shutdown the newest value of a name is in an acknowledged batch after at most 17 steps of the thread, in every interleaving in which calls succeed, nobody clears a flag and the name is not fed again; until then the thread has a step |
| FeederLink.TrafficInOrder | someip-feeder/src/lib/broker_feeder/data_broker_feeder.cc:78-123 | in every run the traffic begins with a connection attempt, every call has its outcome next, a registration that failed is followed by a new attempt, and updates only by updates or attempts |
| FeederLink.CallsOnlyWhileLinked | someip-feeder/src/lib/broker_feeder/collector_client.cc:50-65 | if only the feeder raises the flag, no call is made after a failed call or a failed attempt before an attempt has succeeded |
| FeederLink.FailureReconnects | someip-feeder/src/lib/broker_feeder/data_broker_feeder.cc:165-243 | so the next thing after any failure is a connection attempt |
| FeederRegistration.RegisterBeforeUpdate | someip-feeder/src/lib/broker_feeder/data_broker_feeder.cc:78-104 | unless the flag is raised between skipping registration and the feed loop, every update follows a registration that succeeded since the last connect |
| FeederRegistration.RegisterBeforeUpdateUnshared | someip-feeder/src/lib/broker_feeder/collector_client.cc:50-65 | in particular if only the feeder's own wait raises the connection flag |
| FeederRegistration.RaiseInGapSendsUnregistered | someip-feeder/src/lib/broker_feeder/data_broker_feeder.cc:85-95 | the condition is sharp: from every state in the gap, raising the flag lets an unregistered update go out |
| FeederRegistration.FirstUpdateCoversConfig | someip-feeder/src/lib/broker_feeder/data_broker_feeder.cc:93-104 | the first update after connecting carries every configured name with an id of its own, pending before initial; later ones carry exactly the pending values |
| FeederLoss.RaiseInGapLosesValues | someip-feeder/src/lib/broker_feeder/data_broker_feeder.cc:85-104 | so is the second part: from every state at the feed loop before shutdown without an id for the name, raising the flag lets a stored value be lost |
| FeederLoss.SharedFlagLosesValue | someip-feeder/src/lib/broker_feeder/data_broker_feeder.cc:78-104 | for every configuration, name and value there is a run from the start that loses it |
| FeederShutdown.ShutdownBounds | someip-feeder/src/lib/broker_feeder/data_broker_feeder.cc:78-123 | after the flag is cleared at most eight more steps of the thread and at most one more call, and that only if it was past its check |
| FeederShutdown.ShutdownDiscards | someip-feeder/src/lib/broker_feeder/data_broker_feeder.cc:108-118 | what is stored when the flag is cleared is thrown away: later updates have no producer value but those in flight then and those of feeds still coming in |
| FeederShutdown.NotificationWakes | someip-feeder/src/lib/broker_feeder/data_broker_feeder.cc:98-118 | a thread that waits already when `Shutdown` notifies has a step from then on, and it leads out of the feed loop |
| FeederShutdown.FeederCanStep | someip-feeder/src/lib/broker_feeder/data_broker_feeder.cc:78-106 | the thread is blocked exactly while it waits unnotified |
| FeederShutdown.HungForever | someip-feeder/src/lib/broker_feeder/data_broker_feeder.cc:94-118 | once hung, nothing but a spurious wake-up moves the thread |
| FeederShutdown.HangsExactlyInWindow | someip-feeder/src/lib/broker_feeder/data_broker_feeder.cc:98-118 | after every `Shutdown` has returned the thread can hang if and only if it is past its check with nothing stored, or already left waiting |
| FeederShutdown.OtherwiseRunReturns | someip-feeder/src/lib/broker_feeder/data_broker_feeder.cc:78-123 | outside that condition it comes back within eight steps and is never blocked except by a producer about to notify |
| FeederShutdown.ShutdownCanHang | someip-feeder/src/lib/broker_feeder/data_broker_feeder.cc:98-118 | for every configuration a run exists in which a whole `Shutdown` fits between check and wait |
| SubscriberProtocol.BlockedReadIsCancelled | someip-feeder/src/lib/broker_feeder/actuator_subscriber.cc:51-61 | once a `Shutdown` that found the flag raised has returned, a read still blocked belongs to a cancelled context |
| SubscriberProtocol.CallbacksAreComplete | someip-feeder/src/lib/broker_feeder/actuator_subscriber.cc:124-144 | every callback gets the first value of every path of its response, never a partial set |
| SubscriberProtocol.OneCallbackPerResponse | someip-feeder/src/lib/broker_feeder/actuator_subscriber.cc:124-144 | the callbacks are for the responses in the order they were read, one for each, with the first value of every path; only the response at which a shutdown intervened can be without |
| SubscriberProtocol.ResponseIsDelivered | someip-feeder/src/lib/broker_feeder/actuator_subscriber.cc:124-144 | a response with n updates read while the flag is up is called back within n + 3 steps unless a shutdown clears the flag |
| SubscriberProtocol.ReadsAgain | someip-feeder/src/lib/broker_feeder/actuator_subscriber.cc:89-168 | with the flag up and the connection at hand `Run` comes back to reading within a bounded number of steps, from wherever it stands |
| SubscriberProtocol.SubscribesIffConnected | someip-feeder/src/lib/broker_feeder/actuator_subscriber.cc:89-122 | one subscription for every wait that succeeded, none for one that failed |
| SubscriberProtocol.FirstValuesMeaning | someip-feeder/src/lib/broker_feeder/actuator_subscriber.cc:136-138 | the collected changes hold, per path, the listed value with the least position |
| SubscriberProtocol.BackoffCountsFailures | someip-feeder/src/lib/broker_feeder/actuator_subscriber.cc:87-99 | after k failures in a row the next wait lasts min(1 + k, 10) seconds, after a success 1, in every run |
| SubscriberProtocol.ShutdownBounds | someip-feeder/src/lib/broker_feeder/actuator_subscriber.cc:89-168 | after the flag is cleared at most eight more steps, as far as the calls made return, and at most one more callback, only if it was past its check |
| SubscriberProtocol.RunCanStep | someip-feeder/src/lib/broker_feeder/actuator_subscriber.cc:89-168 | until it is done the subscriber can go on by itself, except in a read or a finish of an open stream that nobody cancelled |
| SubscriberProtocol.StaysUncancelledExactly | someip-feeder/src/lib/broker_feeder/actuator_subscriber.cc:91-146 | after every `Shutdown` has returned `Run` can come to wait for the broker in `Finish` if and only if it was still about to subscribe, or had subscribed after the last cancellation without reading |
| SubscriberProtocol.OnlyBrokerEnds | someip-feeder/src/lib/broker_feeder/actuator_subscriber.cc:51-146 | in that call no thread but `Run` itself, woken by the broker, changes anything |
| SubscriberProtocol.OtherwiseRunReturns | someip-feeder/src/lib/broker_feeder/actuator_subscriber.cc:89-168 | outside that condition `Run` ends within eight steps, none of which waits for the broker |
| SubscriberProtocol.ShutdownCanMissSubscription | someip-feeder/src/lib/broker_feeder/actuator_subscriber.cc:89-146 | the condition is reached: a whole `Shutdown` fits into the wait for the connection |
| SubscriberProtocol.EarlyShutdownIgnored | someip-feeder/src/lib/broker_feeder/actuator_subscriber.cc:51-89 | a `Shutdown` that runs before the flag is raised leaves no trace: runs that start with one have unboundedly many steps of `Run` |
| Bytes.SignSurvives16 | someip-feeder/src/someip_feeder/someip_kuksa_adapter.cc:546-551 | a value comes back from 16 bits, sign included, if and only if it lies between -2^15 and 2^15 - 1 |
| Bytes.Int16RangeBits | someip-feeder/src/someip_feeder/someip_kuksa_adapter.cc:546-551 | as bits: that range is exactly the words whose upper 17 bits agree |
| PayloadCodec.WriteByteArray | someip-feeder/src/someip_feeder/someip_kuksa_adapter.cc:266-283 | the array, with the id of a four-byte one moved, is one overlay inside the node's own footprint for every offset |
| PayloadCodec.WriteTyped | someip-feeder/src/someip_feeder/someip_kuksa_adapter.cc:249-353 | each data type writes exactly its field over the shared payload |
| PayloadCodec.WriteField | someip-feeder/src/someip_feeder/someip_kuksa_adapter.cc:235-355 | a node writes its field, its transform value, or nothing; the rest of the payload is unchanged |
| FieldMeaning.TypeHasName | someip-feeder/src/someip_feeder/someip_kuksa_adapter.cc:74-130 | every type is found under its upper-case and lower-case name |
| FieldMeaning.NoOtherName | someip-feeder/src/someip_feeder/someip_kuksa_adapter.cc:74-130 | and under no other: anything else is a string |
| FieldMeaning.BoolSent | someip-feeder/src/someip_feeder/someip_kuksa_adapter.cc:251-255 | a true boolean is sent as 1, everything else as 0 |
| FieldMeaning.ByteSent | someip-feeder/src/someip_feeder/someip_kuksa_adapter.cc:256-265 | a UINT8 or INT8 field is the value modulo 2^8 |
| FieldMeaning.HalfSent | someip-feeder/src/someip_feeder/someip_kuksa_adapter.cc:284-307 | a plain 16-bit field is the value modulo 2^16 in base 256, low byte first |
| FieldMeaning.WordSent | someip-feeder/src/someip_feeder/someip_kuksa_adapter.cc:334-339 | a 32-bit field is the value in base 256, lowest byte first |
| FieldMeaning.LowestBytesSent | someip-feeder/src/someip_feeder/someip_kuksa_adapter.cc:284-339 | a shorter field has the lowest bytes of the value |
| FieldMeaning.FloatSent | someip-feeder/src/someip_feeder/someip_kuksa_adapter.cc:340-344 | a float is sent as it lies in memory |
| FieldMeaning.BytesSent | someip-feeder/src/someip_feeder/someip_kuksa_adapter.cc:266-283 | a byte array is sent element by element modulo 2^8; of four bytes, payload byte 2 is moved to byte 3 and 0 takes its place |
| FieldMeaning.TableSent | someip-feeder/src/someip_feeder/someip_kuksa_adapter.cc:239-246 | a node with a table sends the image of the entry under "1" for true and under "0" otherwise, or nothing if there is none |
| FieldMeaning.ImageOfEntry | someip-feeder/src/someip_feeder/someip_kuksa_adapter.cc:619-660 | a boolean entry is one byte, a text its characters and a 0, an integer its digits in base 256 |
| ActuatorRequests.OnActuatorChange | someip-feeder/src/someip_feeder/someip_kuksa_adapter.cc:215-380 | the requests are those of the matched nodes in configuration order, each with the payload as it then stands |
| ActuatorRequests.KthRequest | someip-feeder/src/someip_feeder/someip_kuksa_adapter.cc:228-368 | every matched node sends if there is a client and its three ids are nonzero, in its turn among those that do: the k-th node sends the in-order overlay of the writes of nodes 1..k on six zero bytes, whether or not those send |
| ActuatorRequests.EveryRequestHasSender | someip-feeder/src/someip_feeder/someip_kuksa_adapter.cc:357-368 | and nobody else: every request is that of a matched node with a client and three nonzero ids |
| ActuatorRequests.LastWriteWins | someip-feeder/src/someip_feeder/someip_kuksa_adapter.cc:219-355 | each byte comes from the last write covering it, else from the zeroed buffer |
| ActuatorRequests.DisjointFieldsIntact | someip-feeder/src/someip_feeder/someip_kuksa_adapter.cc:219-355 | with disjoint fields every encoded field is intact and the other bytes are zero |
| ActuatorRequests.OrderDoesNotMatter | someip-feeder/src/someip_feeder/someip_kuksa_adapter.cc:219-355 | with disjoint fields a configuration with the same nodes in any other order, within and across mappings, still fits the values and gives the same final payload |
| ActuatorRequests.MatchedEncode | someip-feeder/src/someip_feeder/someip_kuksa_adapter.cc:228-355 | in a fitting configuration every matched node has a value and an encoding |
| ActuatorRequests.LastRequestHoldsAllFields | someip-feeder/src/someip_feeder/someip_kuksa_adapter.cc:215-380 | end to end, for a fitting configuration whose last matched node can send: the last request holds the encoded field of every matched node, if they are disjoint, and zeros elsewhere |
| EventDecoding.DecodeField | someip-feeder/src/someip_feeder/someip_kuksa_adapter.cc:522-579 | value and table key are those of the node's own bytes; an unsupported type leaves the carried value and is not fed |
| EventDecoding.ByteMeaning | someip-feeder/src/someip_feeder/someip_kuksa_adapter.cc:530-556 | one byte stands for itself, less 2^8 if signed with the top bit set |
| EventDecoding.HalfMeaning | someip-feeder/src/someip_feeder/someip_kuksa_adapter.cc:540-551 | two bytes stand for a number in network order, less 2^16 if signed with the top bit set |
| EventDecoding.WordMeaning | someip-feeder/src/someip_feeder/someip_kuksa_adapter.cc:557-561 | four bytes stand for a number in base 256, lowest first |
| EventDecoding.KeyMatchesValue | someip-feeder/src/someip_feeder/someip_kuksa_adapter.cc:530-590 | the key looked up in a table is the number that would be fed without one |
| EventDecoding.ParseToString | someip-feeder/src/someip_feeder/someip_kuksa_adapter.cc:589-590 | the string looked up reads back as the key and has no leading zeros |
| EventDecoding.EntryKept | someip-feeder/src/someip_feeder/someip_kuksa_adapter.cc:591-594 | a table entry is fed with its own kind and its own bytes |
| EventDecoding.OnSomeipMessage | someip-feeder/src/someip_feeder/someip_kuksa_adapter.cc:501-617 | with one value variable carried through all nodes, what is fed is node by node a function of its configuration and its own bytes |
| EventDecoding.OnlyOwnBytesMatter | someip-feeder/src/someip_feeder/someip_kuksa_adapter.cc:506-611 | payloads, of whatever lengths, that agree on the bytes read by the nodes of the event lead to the same feeds of the whole message |
| EventDecoding.NodesAreIndependent | someip-feeder/src/someip_feeder/someip_kuksa_adapter.cc:515-611 | the feeds of a list of nodes are those of its parts |
| EventDecoding.MappingsAreIndependent | someip-feeder/src/someip_feeder/someip_kuksa_adapter.cc:507-613 | the feeds of a list of mappings are those of its parts |
| EventDecoding.NodeInMessage | someip-feeder/src/someip_feeder/someip_kuksa_adapter.cc:506-613 | wherever a node stands in a message, what is fed is what the nodes ahead feed, what it feeds on its own, and what the nodes behind feed |
| EventDecoding.FedIffKeyInTable | someip-feeder/src/someip_feeder/someip_kuksa_adapter.cc:506-607 | in the feeds of a whole message a node with a table contributes, at its place, the table value of its decoded key if the key is in the table and nothing otherwise |
| EventDecoding.PlainNodeFed | someip-feeder/src/someip_feeder/someip_kuksa_adapter.cc:515-611 | a node without a table contributes its decoded value if it is configured for the event, has a length and a supported type, and nothing otherwise |
| EventDecoding.OthersFeedNothing | someip-feeder/src/someip_feeder/someip_kuksa_adapter.cc:507-515 | a message of another service, or a configuration without event mappings, feeds nothing |
| FieldRoundTrips.Int16ArrayReadsBack | someip-feeder/src/someip_feeder/someip_kuksa_adapter.cc:308-321 | for every offset and prior buffer an INT16 or UINT16 event node over an element reads it modulo 2^16 |
| FieldRoundTrips.Int16ArrayKeepsSign | someip-feeder/src/someip_feeder/someip_kuksa_adapter.cc:308-321 | an INT16 event node reads the element itself if and only if it lies between -2^15 and 2^15 - 1 |
| FieldRoundTrips.Int8Uint16ReadsBack | someip-feeder/src/someip_feeder/someip_kuksa_adapter.cc:322-333 | an INT8 event node reads the byte with its sign and a 16-bit event node the word |
| FieldRoundTrips.Uint16ArrayReadsBack | someip-feeder/src/someip_feeder/someip_kuksa_adapter.cc:290-301 | swapped at 32 bits, the word is read back by a UINT16 event node below 2^16, and otherwise if and only if bits 16-23 are a subset of bits 0-7 |
| FieldRoundTrips.PlainWordComesBackSwapped | someip-feeder/src/someip_feeder/someip_kuksa_adapter.cc:284-307 | a 16-bit event node reads a plain 16-bit field with its bytes exchanged, so as itself if and only if they are equal |
| FieldRoundTrips.BoolReadsBack | someip-feeder/src/someip_feeder/someip_kuksa_adapter.cc:251-533 | a boolean is read back by a BOOL event node |
| FieldRoundTrips.Uint8ReadsBack | someip-feeder/src/someip_feeder/someip_kuksa_adapter.cc:256-538 | a UINT8 event node reads the value if and only if it is below 2^8 |
| FieldRoundTrips.Int8ReadsBack | someip-feeder/src/someip_feeder/someip_kuksa_adapter.cc:261-556 | an INT8 event node reads the value if and only if it lies between -2^7 and 2^7 - 1 |
| FieldRoundTrips.ByteArrayReadsBack | someip-feeder/src/someip_feeder/someip_kuksa_adapter.cc:266-538 | a UINT8 event node reads each element of a byte array, except where the id is moved |
| FieldRoundTrips.Uint32ReadsBack | someip-feeder/src/someip_feeder/someip_kuksa_adapter.cc:334-561 | a UINT32 event node reads the value itself |
| FieldRoundTrips.FloatReadsBack | someip-feeder/src/someip_feeder/someip_kuksa_adapter.cc:340-567 | a FLOAT event node reads the float reversed, so as itself if and only if its bytes are a palindrome |
| FieldRoundTrips.StringRead | someip-feeder/src/someip_feeder/someip_kuksa_adapter.cc:497-575 | a STRING event node reads as many bytes as it is long |
| WiperPoc.FloatToBytes | someip-feeder/src/lib/wiper_poc/wiper_poc.cc:25-35 | the four bytes in memory order at the offset, nothing else changed |
| WiperPoc.SerializeWiperEvent | someip-feeder/src/lib/wiper_poc/wiper_poc.cc:89-111 | refused below 20 bytes and then untouched; otherwise the layout, zeros behind it |
| WiperPoc.DeserializeEvent | someip-feeder/src/lib/wiper_poc/wiper_poc.cc:54-88 | refused below 20 bytes with a zeroed event; otherwise the decoded layout |
| WiperPoc.SerializeVssRequest | someip-feeder/src/lib/wiper_poc/wiper_poc.cc:230-258 | refused below 6 bytes; otherwise frequency, target and mode index by index, bytes behind them unchanged |
| WiperPoc.DeserializeVssRequest | someip-feeder/src/lib/wiper_poc/wiper_poc.cc:261-278 | refused below 6 bytes with a zeroed request; otherwise the decoded layout |
| WiperPoc.EventRoundTrip | someip-feeder/src/lib/wiper_poc/wiper_poc.cc:25-111 | byte fields survive, floats are reversed, equality if and only if both floats are palindromes; a second pass restores the event |
| WiperPoc.RequestRoundTrip | someip-feeder/src/lib/wiper_poc/wiper_poc.cc:230-278 | the same for requests, with the mode reduced to a byte |
| WiperPoc.EventPayloadRoundTrip | someip-feeder/src/lib/wiper_poc/wiper_poc.cc:25-111 | from any 20 bytes: float bytes turned around, all others kept, twice is the identity |
| WiperPoc.RequestPayloadRoundTrip | someip-feeder/src/lib/wiper_poc/wiper_poc.cc:230-278 | from any 6 bytes likewise |
| WiperSim.WiperSimulator.constructor | someip-feeder/src/examples/wiper_service/wiper_sim.cc:26-69 | the initial state |
| WiperSim.WiperSimulator.ModelStep | someip-feeder/src/examples/wiper_service/wiper_sim.cc:71-150 | the whole new state and event after one step |
| WiperSim.WiperSimulator.ModelSet | someip-feeder/src/examples/wiper_service/wiper_sim.cc:162-202 | the whole new state after a setting |
| WiperSim.InvAlways | someip-feeder/src/examples/wiper_service/wiper_sim.cc:43-202 | over every command sequence the position stays in [0, 180.1]; while ending the wiper stands within 0.1 of the target and the count is 1 or 2 |
| WiperSim.ClampsNeverFire | someip-feeder/src/examples/wiper_service/wiper_sim.cc:124-136 | after every command sequence a step goes exactly where the movement goes, as if there were no sanity checks |
| WiperSim.ReachedIffArrives | someip-feeder/src/examples/wiper_service/wiper_sim.cc:87-91 | in motion, the target is reached at `now` if and only if 3·f·T covers 1000 times the distance, or f is zero and the target lies below |
| WiperSim.WipeProfile | someip-feeder/src/examples/wiper_service/wiper_sim.cc:77-147 | for every frequency and however time is sliced: linear motion with every event wiping and neither ending nor reached until the first step that arrives, two ending events, then off exactly at the target |
| WiperSim.EndingJitters | someip-feeder/src/examples/wiper_service/wiper_sim.cc:97-101 | each ending event is off the target by just its own jitter |
| WiperSim.SetStartsWipe | someip-feeder/src/examples/wiper_service/wiper_sim.cc:162-202 | a wipe setting with a target in range starts a wipe from wherever the wiper stands |
| WiperSim.ZeroFrequencyJumps | someip-feeder/src/examples/wiper_service/wiper_sim.cc:177-186 | at frequency zero a wipe to a lower target is never due by 3·f·T and yet jumps there at its first step |
| WiperSim.OtherModesRest | someip-feeder/src/examples/wiper_service/wiper_sim.cc:171-175 | after any mode but WIPE every event until the next setting is off, at the target, without current |
| WiperSim.InitiallyAtRest | someip-feeder/src/examples/wiper_service/wiper_sim.cc:43-69 | until the first setting the wiper rests at 15 degrees |
| WiperSim.EventsNumbered | someip-feeder/src/examples/wiper_service/wiper_sim.cc:79-141 | events are numbered one after the other modulo 2^8 |
| WiperSim.CurrentWhileWiping | someip-feeder/src/examples/wiper_service/wiper_sim.cc:81-139 | the current is 10 plus jitter while wiping and 0 otherwise |
| WiperNotifier.NotifyLoop | someip-feeder/src/examples/wiper_service/wiper_server.cc:320-360 | with settings of other threads arriving before, inside and after the step of any round, the loop steps the simulator and publishes exactly the rounds its filter lets through |
| WiperNotifier.NeverOverdue | someip-feeder/src/examples/wiper_service/wiper_server.cc:321-344 | whatever settings arrive, for a nonzero cycle the accumulated time is below the cycle at the loop top |
| WiperNotifier.PublishedIff | someip-feeder/src/examples/wiper_service/wiper_server.cc:329-358 | a round is published, with its own event, if and only if the cycle is over or the ending flag changed |
| WiperNotifier.PublishedEveryCycle | someip-feeder/src/examples/wiper_service/wiper_server.cc:321-344 | among ceil(cycle / 500) rounds in a row one is published, whatever the wiper does |
| WiperNotifier.WipePublished | someip-feeder/src/examples/wiper_service/wiper_server.cc:326-358 | from any simulator state and any time accumulated: a completed wipe publishes its position-reached event, and its first ending event unless the setting hid it |
| WiperNotifier.OrderedWipePublished | someip-feeder/src/examples/wiper_service/wiper_server.cc:326-358 | over whole runs of the loop, for a wipe ordered at any moment after any rounds with any settings: position-reached is published; the first ending event if and only if the order did not come between reading the flag and stepping, in the settle phase of the wipe before, arriving at once, with the cycle not over |
| WiperNotifier.EndingCanBeHidden | someip-feeder/src/examples/wiper_service/wiper_server.cc:329-336 | the exception is real: for every cycle above 500 ms there is a run from the initial state in which the first ending event is not published |
| TelemetryTree.SplitJoin | cloud-connector/app/src/main.py:99-103 | splitting finds the dot-free parts of a name again |
| TelemetryTree.OneRootOneName | cloud-connector/app/src/main.py:99-105 | under one root two names address the same leaf if and only if they are equal |
| TelemetryTree.SameLeafIff | cloud-connector/app/src/main.py:99-105 | two names address the same leaf if and only if they agree behind the root |
| TelemetryTree.Connection.Lookup | cloud-connector/app/src/main.py:100-105 | the cached message always equals the one a full walk finds |
| TelemetryTree.Connection.PublishSignal | cloud-connector/app/src/main.py:94-119 | cache validity and the shape of the tree are kept, the tree changes at the leaf of the name only, the flag is raised if and only if the call succeeds |
| TelemetryTree.LeafHoldsLast | cloud-connector/app/src/main.py:94-117 | after successful calls under one root every leaf holds the last content set for its name, just as it was set; only a text on a repeated leaf is held as its characters, and unset names keep theirs |
| TelemetryTree.SucceedsIff | cloud-connector/app/src/main.py:106-119 | a call succeeds if and only if the library accepts the value, the leaf exists, and it is a single value for a singular leaf or a list or text for a repeated one |
| TelemetryTree.RootsAlias | cloud-connector/app/src/main.py:103-105 | names that differ only in their root overwrite each other |
| TelemetryTree.Connection.constructor | cloud-connector/app/src/main.py:69-87 | over a message tree with nothing set, a connection starts valid and with the empty tree |
| TelemetryTree.FailureKeepsTreeIff | cloud-connector/app/src/main.py:106-119 | a failed call leaves the tree alone if and only if its leaf is not repeated or is empty, as it is before it is first set |
| TelemetryTree.FailuresKeepFresh | cloud-connector/app/src/main.py:106-119 | failing calls, however many, leave a fresh message fresh |
| TelemetryTree.ScalarErasesList | cloud-connector/app/src/main.py:112-119 | in every schema a repeated leaf that has taken a list is emptied by the next scalar set for it |
| TelemetryHeartbeat.HeartbeatBound | cloud-connector/app/src/main.py:121-147 | the first tick more than 500 ms after the last successful publication tries to send every change made before it, whatever the writer does |
| TelemetryHeartbeat.HeartbeatWhileUp | cloud-connector/app/src/main.py:121-147 | with the connection up and binary mode on throughout, that holds of every tick |
| TelemetryHeartbeat.NothingSentEarly | cloud-connector/app/src/main.py:124-136 | as long as no change raises the flag, ticks at most 500 ms after the last publication send nothing |
| TelemetryHeartbeat.NothingSentWhileDown | cloud-connector/app/src/main.py:125-138 | while the connection is down or binary mode is off nothing is sent |
| TelemetryHeartbeat.FailureRetried | cloud-connector/app/src/main.py:127-147 | after a failed publication every tick that finds the connection up and binary mode on tries again until one succeeds, closed ticks in between or not |
| TelemetryHeartbeat.RaiseHeard | cloud-connector/app/src/main.py:117-136 | in every run, a flag raised outside load-to-store and serialize-to-clear makes every open tick from the one in progress on try to send all changes made by then, until one succeeds |
| TelemetryHeartbeat.RaiseLost | cloud-connector/app/src/main.py:117-136 | in every run, a flag raised inside one of the two windows is lost: until another change, and if the publication in progress does not fail, no tick tries anything before the heartbeat is due |
| TelemetryHeartbeat.LostRaiseCaught | cloud-connector/app/src/main.py:121-136 | wherever the flag was raised, a later open tick due for the heartbeat, and every open tick after a failure of the one in progress, tries to send those changes |
| TelemetryHeartbeat.LostBetweenLoadAndStore | cloud-connector/app/src/main.py:127-136 | a run from the start in which an open tick sends nothing although a change was completed during it |
| TelemetryHeartbeat.LostBeforeClear | cloud-connector/app/src/main.py:127-136 | a run from the start in which a completed change is in no snapshot and the flag is down |
| TelemetryHeartbeat.SnapshotExact | cloud-connector/app/src/main.py:114-136 | in every run a tick tries to send exactly the changes made by its serialization, with a repeated leaf empty if and only if its writer was between erasing and filling it |
| TelemetryHeartbeat.TornSnapshotSent | cloud-connector/app/src/main.py:114-136 | a run from the start in which such a torn snapshot is published and the completed change after it is not, until the heartbeat |

## Left out

- gRPC, vsomeip, MQTT, protobuf and jsoncpp themselves: their calls are actions or parameters with arbitrary outcomes.
- JSON configuration files, environment variables, command lines, authentication metadata and logging: the configuration is given.
- The destructors and the gRPC context field of `DataBrokerFeederImpl`, which nothing sets.
- `ActuatorSubscriber::Run` with an empty actuator list, which returns at once.
- The STRING branch of the request encoder, which copies a C++ object, and JSON arrays and objects in transform tables of requests: `Encodable` excludes them, as it excludes copies that read past their source or write past the payload, which the code does not check.
- Event payloads shorter than the configured offsets, which the code reads without looking at the length: `LongEnough` excludes them.
- EventDecoding.DecodeField: the conversion of a float to the integer used as a table key is a parameter, because it is undefined in C++ outside the range of int.
- WiperSim.WiperSimulator.ModelStep: positions are reals, so float rounding is not modelled, nor is the overflow of the 32-bit step counter; the constant fields of the event (temperatures, error flags) are left to `WiperPoc`.
- WiperNotifier.NotifyLoop: the accumulated time is unbounded, so the overflow of a 32-bit counter for cycles near 2^31 ms is not modelled, and a stop of the offer in the middle of a round is the end of the list of rounds.
- TelemetryTree.Connection.PublishSignal: a name that passes through a leaf instead of a message is an unknown name; the code caches the leaf's value and then fails in the same way on every call.
- TelemetryTree.Connection.PublishSignal: whether the protobuf library accepts a value of the right kind is a parameter; an `extend` that fails is taken to append nothing, and the only scalars that can be iterated over are texts.
- SubscriberProtocol.StaysUncancelledExactly: `Finish` on an open stream is taken to return only when the broker ends the stream or the context is cancelled; the time this takes is not modelled.
- Firmware updates, uploads, the idle publication rate, acknowledgements and the vehicle model of the cloud connector; provisioning and container scripts; the wiper client and the offer threads of the wiper server.
