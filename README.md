# Shape pub/sub over UDP multicast — a Dafny model

The system is a small publish/subscribe service for geometric shapes.

- **Subscribers** keep a list of the shape types they want (`CIRCLE = 1`, `SQUARE = 2`, `TRIANGLE = 3`).
  - For each type they periodically multicast a JSON request `{request, shape, udp_port, udp_ip}` to the publishers' group.
  - They track the publishers that answer with `ACK`.
- **The publisher** keeps a registry `_sub_map` from shape type to the list of subscriber endpoints.
  - A `register` request appends the sender's endpoint and an `unregister` request removes it.
  - A request that can be read is answered with an `ACK` to its `(udp_ip, udp_port)`. A request that raises while being applied gets no `ACK`, and neither does one whose address is missing, ill-typed or rejected by `sendto`.
  - At each publishing tick it serialises `{"type": t, "params": [...]}` and walks the list registered for `t`, sending to each endpoint it reaches.
  - An endpoint whose send fails is removed from that list during the walk. The endpoint right after it is then passed over in that tick (see Findings).
- **The subscriber** decodes every non-`ACK` datagram with its shape factory into a `Circle`, `Square` or `Triangle`.

The model has six modules:

- `Wire` (`wire.dfy`): JSON values, endpoints and datagrams.
  - A datagram's text is represented by the JSON value it decodes to.
- `Seqs` (`seqs.dfy`): Python's `list.remove`, and facts about sub-sequences.
- `Shapes` (`shapes.dfy`): the three shape value objects and `print_shape`.
- `Factory` (`factory.dfy`): `ShapeType` and the mutable `ShapeFactory`.
- `Util` (`util.dfy`): the envelopes, the two request send loops and the ACK.
- `Pub` (`publisher.dfy`) and `Sub` (`subscriber.dfy`): the two endpoints of the protocol.
  - Each is a `class` whose fields are the Python object's mutable state.
  - Their loops are methods proved against specification functions: the recursive `Walk`, `KeepDelivered`, `Unsub` and `Transmit`, and the map comprehension `Acked`.

Everything the network, the clock or the operating system decides is passed in as a parameter:

- `sendFails`: which sends fail.
- The received datagram and its source address.
- Which tick runs.

## Model

| member | source | states |
|---|---|---|
| Wire.IntKey | PUB/publisher.py:162-165 | A JSON shape value selects the integer registry key it equals, with `true`/`false` as 1/0. Any other value matches no integer key. |
| Shapes.Fields | data/shape.py:4-52 | A shape keeps its constructor arguments unchanged and in order. A circle has two, and a square or triangle has three, the last being the colour. |
| Shapes.Describe | data/shape.py:15-56 | Every `print_shape` text starts with `shape: ` followed by the class name, and ends with the colour as Python's `str` prints it. |
| Shapes.DescribeTellsVariantsApart | data/shape.py:15-56 | Two shapes with the same `print_shape` text are of the same class. |
| Factory.ShapeTypesDistinct | data/factory_shape.py:7-10 | `CIRCLE`, `SQUARE` and `TRIANGLE` are 1, 2 and 3, and they are pairwise distinct. |
| Factory.Create | data/factory_shape.py:31-42 | A built-in creator succeeds exactly when given as many arguments as its shape has fields. It then builds its own class with the arguments as fields; otherwise it raises. |
| Factory.ShapeFactory.constructor | data/factory_shape.py:14-19 | A new factory maps exactly 1, 2 and 3 to the circle, square and triangle creators. |
| Factory.ShapeFactory.RegisterShape | data/factory_shape.py:21-22 | `register_shape` binds the type to the creator and leaves every other binding as it was. |
| Factory.ShapeFactory.CreateShape | data/factory_shape.py:24-29 | An unknown type raises. Otherwise the parameters are unpacked and the type's creator is called. The result is a shape of that creator's class whose fields are the unpacked parameters; otherwise it raises. |
| Factory.DefaultFactoryBuilds | data/factory_shape.py:14-42 | With the initial table, type 1, 2 or 3 and a parameter list of the right length build the Circle, Square or Triangle holding those parameters. |
| Util.DeserializeJson | common/util.py:34-46 | Decoding succeeds exactly on JSON text and gives back the encoded value. |
| Util.Serialize | common/util.py:48-62 | A notification is a dictionary with exactly the keys `type` and `params`. |
| Util.DeserializeShape | common/util.py:140-153 | `deserialize_shape` returns `(type, params)` exactly when both keys are present. Otherwise it raises on `type` first, then on `params`. |
| Util.SerializeRoundTrip | common/util.py:140-153 | Decoding a serialised notification gives back its type and parameter list. |
| Util.RegisterUnregisterDifferInTagOnly | common/util.py:64-116 | Both loops build one message per shape, in order. Each message has the four keys, and the register and unregister messages differ only in `request`. |
| Util.TransmitStopsAtFirstFailure | common/util.py:78-89 | On an open socket the messages leave in order up to the first failed send. Nothing after it is sent, and the socket ends closed exactly when a send failed. |
| Util.TransmitNeedsOpenSocket | common/util.py:105-116 | A closed socket sends nothing and raises nothing. A missing socket (`None`) raises as soon as there is something to send. |
| Util.SendRegisterRequest | common/util.py:64-89 | The loop's messages, final socket state and escaping exception are exactly those of `Transmit` on the `register` messages. |
| Util.SendUnRegisterRequest | common/util.py:91-116 | The same as `SendRegisterRequest`, for the `unregister` messages. |
| Util.SendAckToSub | common/util.py:199-203 | The ACK is the literal `ACK`, addressed to the given ip and port. It goes out exactly when the port is one `sendto` accepts (0 to 65535); otherwise the send raises. |
| Pub.ParseRequestMessage | PUB/publisher.py:211-217 | A request built by the subscriber is read back as the operation it names, for its shape and its callback endpoint. |
| Pub.BooleanPortIsInteger | PUB/publisher.py:188-217 | A boolean `udp_port` stands for the integer it equals, as it does in Python. The request is read as the same operation on the same endpoint as with port 1 or 0, and its ACK address uses that port. |
| Pub.RegisteredSpec | PUB/publisher.py:154-170 | Registering creates the type's list when missing. It appends the endpoint only when it is absent, leaves other types alone, and keeps every list free of duplicates. |
| Pub.RegisteredIdempotent | PUB/publisher.py:162-165 | Registering the same endpoint twice is the same as registering it once. |
| Pub.UnregisteredSpec | PUB/publisher.py:172-186 | Unregistering removes exactly that endpoint and keeps the order of the rest. It keeps the type's key even when the list empties, and it is a no-op when the type or the endpoint is missing. |
| Pub.FoldPairMembership | PUB/publisher.py:154-186 | After any sequence of register and unregister requests for one pair, the endpoint is listed exactly when the last request was a register, and never twice. |
| Pub.WalkKeepsOrder | PUB/publisher.py:145-152 | The as-written fan-out keeps a sub-sequence of the list in its original order. It sends at most once per listed endpoint. |
| Pub.WalkEvictsFailed | PUB/publisher.py:145-152 | With the as-written fan-out an endpoint stays listed exactly when it was not sent to or its send succeeded, and the list keeps no duplicates. |
| Pub.KeepDeliveredSpec | PUB/publisher.py:145-152 | The corrected fan-out keeps exactly the endpoints whose send succeeded, in order and without duplicates. |
| Pub.WalkSkipsSuccessorOfEvicted | PUB/publisher.py:145-152 | For the list `[a, b]` where only `a` fails, the as-written pass never sends to `b`; the corrected pass keeps `b`. |
| Pub.Publisher.constructor | PUB/publisher.py:15-41 | A new publisher has an empty registry, is not publishing, and its request receiver is running. |
| Pub.Publisher.Publish | PUB/publisher.py:55-64 | `Publish` sets the publishing flag. |
| Pub.Publisher.Stop | PUB/publisher.py:66-70 | `Stop` clears both the publishing and the running flag. |
| Pub.Publisher.RegisterSub | PUB/publisher.py:154-170 | The registry becomes `Registered(old, t, ep)`, and no list gains a duplicate. |
| Pub.Publisher.UnRegisterSub | PUB/publisher.py:172-186 | The registry becomes `Unregistered(old, t, ep)`, and no list gains a duplicate. |
| Pub.Publisher.PreformRequest | PUB/publisher.py:211-219 | `register` registers and `unregister` unregisters; any other tag changes nothing. A missing key raises before the registry changes. |
| Pub.Publisher.HandleData | PUB/publisher.py:188-205 | The request is applied first. Then one ACK goes to the request's `(udp_ip, udp_port)` whatever the tag was. No ACK goes out when the request raised, the address is missing or ill-typed, or the port is out of range (the send's exception is caught). |
| Pub.Publisher.ReceiveRequest | PUB/publisher.py:94-123 | While running, a decodable datagram is handled as a request: the registry is updated as `Applied` says, and an ACK goes to the request's address exactly when `_HandleData` sends one. Anything else leaves the registry unchanged and sends no ACK. |
| Pub.FanOut | PUB/publisher.py:145-152 | The loop over the list it removes from sends to exactly the endpoints `Walk` reaches, and leaves the list `Walk` computes. |
| Pub.Publisher.NotifyShape | PUB/publisher.py:135-152 | As written: one payload, the `Walk` destinations, and the type's list replaced by what `Walk` keeps. It raises (`KeyError`) exactly when the type has no list, and then nothing is sent or changed. |
| Pub.FanOutSnapshot | PUB/publisher.py:145-152 | Looping over a snapshot sends to every listed endpoint, in order, and leaves `KeepDelivered` of the list. |
| Pub.Publisher.NotifyShapeSnapshot | PUB/publisher.py:135-152 | Corrected: every registered endpoint receives the payload once, and exactly the failed ones are removed. It raises exactly when the type has no list. |
| Pub.Publisher.PublishTick | PUB/publisher.py:125-133 | A tick of one of the publisher's jobs. No tick runs once publishing has stopped, and a type with no key sends nothing and changes nothing. Otherwise the tick is one as-written `_NotifyShape` pass with the job's parameters: the `Walk` destinations, and the list `Walk` keeps. |
| Pub.Publisher.PublishTickSnapshot | PUB/publisher.py:125-133 | The same tick with the corrected pass: every endpoint registered for the job's type is sent to, and the list keeps exactly those whose send succeeded. |
| Sub.RecAck | SUB/subscriber.py:175-207 | The acker becomes tracked with count 1 and the new message. Every other tracked publisher gains one and keeps its message, and the keys are the old ones plus the acker. Exactly the entries whose count is at least `threshold` are reported, never the acker. |
| Sub.IncrementAll | SUB/subscriber.py:195-205 | The loop over the table adds one to every count and reports exactly the entries that reach the threshold. |
| Sub.AckedSpec | SUB/subscriber.py:185-205 | The same facts as `RecAck`, stated about the specification function `Acked`. |
| Sub.CountSinceLastAck | SUB/subscriber.py:175-207 | After any ACK sequence, a publisher's count is one plus the number of ACKs from others since its own last ACK, and its message is that ACK's. So it is reported lost once `threshold - 1` other ACKs have arrived. |
| Sub.UnsubMultiset | SUB/subscriber.py:113-122 | Counted with multiplicity, the removed shapes are those both listed and targeted. The list keeps the old list minus the targets. |
| Sub.UnsubOrder | SUB/subscriber.py:113-122 | The remaining list is a sub-sequence of the old list, and the removed shapes are a sub-sequence of the targets. |
| Sub.UnsubAll | SUB/subscriber.py:109-117 | Targeting the whole list empties it and removes every shape in list order. |
| Sub.RemoveTargets | SUB/subscriber.py:113-122 | The removal loop leaves the list and the removed shapes that `Unsub` describes. |
| Sub.NotificationDelivers | SUB/subscriber.py:161-167 | A notification serialised for a built-in type, with as many parameters as that shape has fields, decodes into that shape with those parameters. |
| Sub.Subscriber.constructor | SUB/subscriber.py:16-43 | A new subscriber holds the given interests. It has no multicast socket and a fresh factory, is neither running nor registering, and tracks no publisher. |
| Sub.Subscriber.AddShape | SUB/subscriber.py:57-62 | The given shapes are appended in order, with no deduplication. |
| Sub.Subscriber.Subscribe | SUB/subscriber.py:64-89 | The multicast socket is open and both flags are set. |
| Sub.Subscriber.Stop | SUB/subscriber.py:91-96 | Both flags are cleared. Joining raises when `Subscribe` never created the receiver thread. |
| Sub.Subscriber.UnSubscribe | SUB/subscriber.py:98-130 | The list and the removed shapes are `Unsub` of the targets, where no argument targets the whole list and empties it, while an empty target list removes nothing. Exactly the removed shapes are unregistered, with the send-loop semantics. Stop runs exactly when no exception escaped and the list is empty. |
| Sub.Subscriber.SendRegTick | SUB/subscriber.py:209-218 | While registration is on, one `register` request is sent per current interest, with the send-loop semantics. Otherwise nothing is sent. |
| Sub.Subscriber.RecvStep | SUB/subscriber.py:132-173 | While running, `ACK` only updates the liveness table, as `Acked` says. Any other datagram leaves the table alone and yields a shape exactly when decoding and the factory succeed. |

## Left out

- Sockets, `select`, `recvfrom`, multicast options, threads, locks, `time.sleep`, `atexit` and logging are not modelled.
  - Each infinite loop is modelled as one step or tick.
  - Send failures are the parameter `sendFails`.
- Concurrency between the receiver, the publishing threads and the registration thread is not modelled.
  - `UnSubscribe`'s removal loop runs under the registration lock, so the model writes the list back once after the loop.
  - `_NotifyShape` takes no lock. Its list is still written back once after the pass, so a register or unregister request that lands in the middle of a fan-out pass is not modelled.
- `json.dumps`/`json.loads` are assumed to be inverse to each other; the UTF-8 text is not modelled.
  - `Util.DeserializeJson` maps `Unparsable` (any text that is not JSON) to an error.
  - JSON numbers with a fraction or an exponent are not in `Json`.
- `max_buf_size` (1024): truncation of long datagrams by `recvfrom` is not modelled.
- `Pub.ParseRequest`: a request whose `shape` is not an integer or boolean, whose `udp_ip` is not a string, or whose `udp_port` is neither an integer nor a boolean is reported as `IllTyped`. It then changes nothing and gets no ACK. Python does otherwise:
  - A hashable non-integer `shape` (a string, `null`) is registered under that key and ACKed at once. No publishing job reads that key.
  - A list or dictionary `shape` raises `TypeError` in the registry lookup, so nothing changes and no ACK goes out, as in the model.
  - A non-string `udp_ip`, or a `udp_port` that is neither an integer nor a boolean, is registered. Its ACK's `sendto` raises `TypeError`, which `_HandleData` catches. Its first fan-out then raises `TypeError` out of `_NotifyShape`, which is neither `socket.error` nor `KeyError`. So the endpoint stays listed and that job's publishing thread ends.
- `Pub.FanOut`: an endpoint that `sendto` rejects with something other than a socket error is sent to like any other, with the outcome that `sendFails` gives. This covers a port outside 0 to 65535, which raises `OverflowError`.
  - In Python the exception escapes `_NotifyShape` (only `socket.error` is caught there, and only `KeyError` in `_PublishByFreq`). The endpoint stays listed and that job's publishing thread ends.
- `Util.SendAckToSub`: an ACK to an address that name resolution or the operating system rejects is still modelled as sent; only the port range is checked. Port 0, which a `false` port stands for, is one such address.
- `Factory.Arguments`: unpacking a JSON object as `*params` is treated as not iterable.
  - Python would pass the object's keys as arguments.
- `Shapes.Show`: a JSON object inside a shape prints as `{...}` instead of Python's dictionary repr.
- `Shapes.Repr`: a string inside a list field is always put in single quotes and never escaped. Python's `repr` uses double quotes when the string contains `'` and no `"`, and it escapes `\`, quotes and control characters.
- `Factory.ShapeFactory.RegisterShape`: only the three built-in creators can be registered; arbitrary Python callables are not modelled.
- `Sub.RecAck`: the lost publishers are a set, and the order in which they are logged is not modelled.
- Setup failures are not modelled: binding the unicast socket, `gethostbyname`, or `Subscribe`'s socket creation failing.
  - A second `Subscribe` cannot restart the threads in Python. The model's ticks run whenever the flags are set.
- The aliasing of `SubscriberParams.shape_types` with `_shape_types` and with the caller's list is not modelled.
  - `UnSubscribe` passes the removed shapes, and `SendRegTick` the current list, directly to the send loop.
- `Util.Transmit`, `Pub.Walk`: a send's failure is a function of the message (or endpoint). Two sends of the same message in one loop, as after `AddShape([2])` on `[2]`, therefore share one outcome, and the first cannot succeed while the second fails.
- `__del__` finalizers and `_Execute`'s multicast setup are not modelled.

## Findings

| source | as written | input that shows it | evidently intended | confidence | as-written member | corrected member |
|---|---|---|---|---|---|---|
| PUB/publisher.py:145-152 | `for (addr, port) in self._sub_map[shape_type]` removes a failed endpoint from the list it is iterating over. The iterator then steps over the endpoint that slides into the freed position, so that endpoint gets no notification in this tick. | registry list `[a, b]`, where the send to `a` fails and the send to `b` would succeed: `b` is never sent to | every registered endpoint receives the notification, and exactly the failed ones are removed (iterate over a copy of the list) | not executed | Pub.WalkSkipsSuccessorOfEvicted | Pub.Publisher.NotifyShapeSnapshot |
