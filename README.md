# Phoenix Channels client: endpoint address, delivery loop and join error mapping

A Dafny model of the sequential logic in `src/client.rs` of a Rust client for
the Phoenix Channels protocol. The client opens a websocket on an endpoint it
builds from a base URL and auth parameters. It runs a background task that
drains the inbound message stream into an application channel, and it maps
the failures of connecting and joining onto one `ClientError` type.

Modules, one per concern of the file:

- `Wrappers` (`wrappers.dfy`): `Option` and `Result`.
- `Errors` (`errors.dfy`): `ClientError` and its two `From` conversions. The
  error types of the unseen `error` module (`ConnectError`, `JoinError`,
  `MessageError`) are represented by the description they carry.
- `Connection` (`connection.dfy`): `connect`. `ParamsUri` and `BuildAddress`
  specify the address. `ConnectAddress` is the imperative loop that appends
  `&key=value` per parameter, proved equal to `BuildAddress`. The lemmas are
  about order, verbatim copying, length, the empty case and the fixed
  example. `ParseParams` reads the parameters back; they read back exactly
  when no key holds `&` or `=` and no value holds `&`. `Connect` covers the three
  transport stages and the rule that the first failure wins.
- `Delivery` (`delivery.dfy`): `process_messages` and `MessageIterator`. The
  receiver is a finite sequence of items with a read position. The
  application channel accepts pushes until the application closes it, with
  the close point fixed up front (`Closing`). `ProcessMessages` is the loop,
  proved against the specification function `Deliver`. The lemmas about
  `Deliver` give prefix, order, first-failure and forward-everything.
- `Client` (`client.dfy`): the error path of `Client::new`, and
  `Client::join` over a `Lock` datatype (`Poisoned | Held(sender)`). The
  sender's own `join` is a function parameter.

`connect` copies keys and values verbatim, with no URL encoding
(src/client.rs:52-54). `NoEscapingCollision` and `ParamsRoundTripExactly`
state what follows from that.

## Model

| member | source | states |
|---|---|---|
| `Errors.FromConnectError` | src/client.rs:33-37 | a `ConnectError` becomes `ClientError::Connect` carrying the same error unchanged |
| `Errors.FromJoinError` | src/client.rs:39-43 | a `JoinError` becomes `ClientError::Join` carrying the same error unchanged |
| `Errors.ConversionsDistinguishCauses` | src/client.rs:26-43 | both conversions are injective, never collide with each other, and never yield `Thread` |
| `Connection.ComponentVerbatim` | src/client.rs:53 | one parameter contributes `&`, the key verbatim, `=`, the value verbatim, and nothing else (length 2 + key + value) |
| `Connection.ConnectAddress` | src/client.rs:51-59 | the loop starting from an empty `params_uri`, appending `&k=v` per pair, then formatting with the route and version, yields exactly `BuildAddress(url, params)` |
| `Connection.ParamsUriAppend` | src/client.rs:51-54 | the params string of a concatenated list is the concatenation of the params strings, so parameters keep the caller's order |
| `Connection.ParamsUriCons` | src/client.rs:52-54 | read from the front, the params string is the first parameter's `&k=v` followed by the rest in order |
| `Connection.ParamsUriLength` | src/client.rs:53 | the params string is as long as the sum of 2 + key length + value length over all parameters |
| `Connection.NoParamsAddress` | src/client.rs:51-59 | with no parameters the address is exactly `url + "/websocket?vsn=2.0.0"`, with no trailing `&` |
| `Connection.TokenAddressExample` | src/client.rs:59 | `"wss://host"` with `[("token","abc")]` gives `"wss://host/websocket?vsn=2.0.0&token=abc"` |
| `Connection.AddressShape` | src/client.rs:59 | the address starts with `url`, then `/websocket?vsn=2.0.0`, and its length is the URL plus 20 plus the parameters' total length |
| `Connection.ParamInPlace` | src/client.rs:52-59 | parameter `i`'s `&key=value` sits, verbatim, right after the route, the version and the parameters before it |
| `Connection.NoEscapingCollision` | src/client.rs:53 | since nothing is escaped, `[("a","b&c=d")]` and `[("a","b"),("c","d")]` give the same address |
| `Connection.ParamsRoundTrip` | src/client.rs:51-54 | when no key holds `&` or `=` and no value holds `&`, splitting the params string on `&` and the first `=` gives back the parameters exactly |
| `Connection.ParsedAreUnambiguous` | src/client.rs:53 | every pair read back from a query string has a key without `&` or `=` and a value without `&` |
| `Connection.ParamsRoundTripExactly` | src/client.rs:51-54 | splitting the params string gives back the parameters if and only if no key holds `&` or `=` and no value holds `&` |
| `Connection.Connect` | src/client.rs:60-68 | the builder receives the built address; a failure of the builder or the handshake is returned unchanged, the first one winning; once both succeed the result is exactly the split's outcome (its error unchanged, or the halves); success means all three stages succeeded |
| `Connection.RejectedAddressStopsConnect` | src/client.rs:60-62 | when the builder rejects the address, the handshake and the split are never reached: the outcome does not depend on them |
| `Delivery.DeliverIsPrefix` | src/client.rs:120-127 | the delivered items are a prefix of the receiver's items in order; every pulled item is pushed; a run stops on a failed push exactly when the channel refuses while items remain, and then exactly one item past the delivered ones was pulled and none after it; otherwise all items are delivered |
| `Delivery.NeverClosedForwardsAll` | src/client.rs:120-121 | if the channel never closes, every item (Ok or Err alike) is delivered, all are pulled, and the loop ends with the receiver |
| `Delivery.DeliverUntilClosed` | src/client.rs:121-126 | against a channel that closes after `limit` items, exactly the first `min(items, room)` items are delivered, and the loop stops on a failed push iff items exceed the room |
| `Delivery.MessageIterator.constructor` | src/client.rs:151-157 | the iterator wraps the given receiver |
| `Delivery.MessageIterator.Next` | src/client.rs:159-165 | `next` yields exactly what the receiver yields: its next item and one step forward, or `None` at its end |
| `Delivery.Channel.Send` | src/client.rs:121 | a push succeeds and appends the item iff the application has not closed its end; a failed push leaves the channel unchanged |
| `Delivery.ProcessMessages` | src/client.rs:118-129 | after the loop the channel holds its old contents followed by `Deliver(remaining items).delivered`, and the receiver has advanced by exactly the items pulled |
| `Client.NewClient` | src/client.rs:80-99 | construction fails iff connecting fails, and then with `ClientError::Connect` of that very `ConnectError`; on success the client holds the connection's halves |
| `Client.Join` | src/client.rs:131-136 | a poisoned lock yields `ClientError::Thread` with the fixed message and stays poisoned, and only a poisoned lock yields it; a healthy lock returns the sender's `Ok(r)` unchanged, or its `JoinError` as `ClientError::Join` unchanged; `join` never reports `Connect` |
| `Client.PoisonedJoinIgnoresSender` | src/client.rs:132-134 | on a poisoned lock `join` never calls the sender: the outcome is the same for every sender behaviour |
| `Client.PoisonedStaysPoisoned` | src/client.rs:131-136 | once poisoned, every later `join` fails with `ClientError::Thread` and the lock stays poisoned |

## Left out

- `ClientBuilder::new`, `connect_insecure` and `split` (src/client.rs:60-63) are websocket I/O from an external crate. They are the function parameters of `Connection.Connect`, and only their success or `ConnectError` is modelled.
- The `slog` logger setup and `debug!` calls (src/client.rs:48, 65-66, 81-82) are logging only.
- `Sender::new` and `Receiver::new` (src/client.rs:65-66) are in modules that are not part of this model. The connected halves are an opaque type parameter.
- `thread::spawn`, `Arc<Mutex<...>>`, `mpsc::channel` and `join_threads` (src/client.rs:86-97, 108, 119, 138-142) are concurrency and thread lifecycle. The delivery task is modelled as its sequential loop. The mutex is modelled as the `Lock` value `join` sees. The moment the application closes the channel is fixed up front as a count of accepted items.
- `Client::keepalive` (src/client.rs:107-116) is an endless 2-second sleep-and-heartbeat loop, with no terminating behaviour to state.
- `Client::send` (src/client.rs:102-105) is a lock (panicking when poisoned) plus a delegation to `Sender::send`, whose body is not part of this model.
- `Sender`, `Receiver`, `Message`, `EventKind` and the error types' internals are in modules that are not part of this model. This includes the reference counter that makes join references distinct and increasing, and envelope encoding and decoding. `Delivery.Receiver` is an abstract stand-in: a finite sequence of already-decoded items.
- Timing of the channel's close: the item whose push fails is dropped, so it counts as pulled but not delivered. How soon after the application closes its end this happens depends on thread timing, which the model does not capture.
- `Client.Join`: a panic inside `Sender::join` while the guard is held would poison the Rust mutex; the model's `senderJoin` is total, so `Join` never moves a lock from `Held` to `Poisoned`. Panics are not modelled.
- `Connection.AddressShape`: lengths are counted in characters, while Rust's `String::len` counts UTF-8 bytes; the two agree only for ASCII addresses.
