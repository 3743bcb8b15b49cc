/**
 * The client orchestrator's error mapping (src/client.rs:80-100, 131-136):
 * construction fails with `ClientError::Connect`, and `join` goes through the
 * mutex that guards the shared sender.
 */
module Client {
  import opened Wrappers
  import opened Errors
  import Connection

  /** Rust's `u32`, the type of a join reference. */
  newtype U32 = x: int | 0 <= x < 0x1_0000_0000

  /**
   * The error path of `Client::new`: the connection is established (three
   * transport stages, see `Connection.Connect`) and a `ConnectError` becomes
   * `ClientError::Connect` through `?`. On success the client owns the two
   * halves; the background tasks it then spawns are not part of this model.
   */
  function NewClient<B, C, H>(
    url: string, params: seq<Connection.Param>,
    parse: string -> Result<B, ConnectError>,
    upgrade: B -> Result<C, ConnectError>,
    split: C -> Result<H, ConnectError>): (r: Result<H, ClientError>)
    ensures r.Err? <==> Connection.Connect(url, params, parse, upgrade, split).Err?
    ensures r.Err? ==> r.error == Connect(Connection.Connect(url, params, parse, upgrade, split).error)
    ensures r.Ok? ==> r.value == Connection.Connect(url, params, parse, upgrade, split).value
  {
    match Connection.Connect(url, params, parse, upgrade, split)
    case Err(e) => Err(FromConnectError(e))
    case Ok(halves) => Ok(halves)
  }

  /**
   * The mutex around the shared sender: poisoned by a holder that panicked,
   * or holding the sender's state `S` (the sender is not part of this model).
   */
  datatype Lock<S> = Poisoned | Held(sender: S)

  /** The message `join` reports on a poisoned lock. */
  const PoisonedJoinMessage: string := "Cannot join as sender mutex has been poisoned"

  /**
   * `Client::join`. `senderJoin` stands for `Sender::join`: from the sender's
   * state and the channel name it gives the sender's new state and either
   * the join reference or a `JoinError`. The result pairs the lock's state
   * after the call with what `join` returns.
   */
  function Join<S>(lock: Lock<S>, channel: string, senderJoin: (S, string) -> (S, Result<U32, JoinError>))
    : (out: (Lock<S>, Result<U32, ClientError>))
    ensures out.1 == Err(Thread(PoisonedJoinMessage)) <==> lock.Poisoned?
    ensures lock.Poisoned? ==> out.0 == Poisoned
    ensures lock.Held? ==> out.0 == Held(senderJoin(lock.sender, channel).0)
    ensures lock.Held? && senderJoin(lock.sender, channel).1.Ok? ==>
              out.1 == Ok(senderJoin(lock.sender, channel).1.value)
    ensures lock.Held? && senderJoin(lock.sender, channel).1.Err? ==>
              out.1 == Err(ClientError.Join(senderJoin(lock.sender, channel).1.error))
    ensures out.1.Err? ==> !out.1.error.Connect?
  {
    match lock
    case Poisoned => (Poisoned, Err(Thread(PoisonedJoinMessage)))
    case Held(sender) =>
      var (sender', result) := senderJoin(sender, channel);
      (Held(sender'), match result
                      case Ok(reference) => Ok(reference)
                      case Err(e) => Err(FromJoinError(e)))
  }

  /** On a poisoned lock `join` never reaches the sender: its outcome is the same whatever the sender would do. */
  lemma PoisonedJoinIgnoresSender<S>(channel: string,
                                     senderJoin1: (S, string) -> (S, Result<U32, JoinError>),
                                     senderJoin2: (S, string) -> (S, Result<U32, JoinError>))
    ensures Join(Poisoned, channel, senderJoin1) == Join(Poisoned, channel, senderJoin2)
  {
  }

  /** `join` called once per channel, in order, each call seeing the lock the previous one left. */
  function JoinEach<S>(lock: Lock<S>, channels: seq<string>, senderJoin: (S, string) -> (S, Result<U32, JoinError>))
    : (out: (Lock<S>, seq<Result<U32, ClientError>>))
    ensures |out.1| == |channels|
    decreases |channels|
  {
    if channels == [] then (lock, [])
    else
      var (lock', first) := Join(lock, channels[0], senderJoin);
      var (last, rest) := JoinEach(lock', channels[1..], senderJoin);
      (last, [first] + rest)
  }

  /**
   * Poisoning is sticky: every `join` in a row after the lock is poisoned
   * fails with `ClientError::Thread`, and the lock stays poisoned.
   */
  lemma {:induction false} PoisonedStaysPoisoned<S>(channels: seq<string>,
                                                    senderJoin: (S, string) -> (S, Result<U32, JoinError>))
    ensures JoinEach(Poisoned, channels, senderJoin).0 == Poisoned
    ensures forall i :: 0 <= i < |channels| ==>
              JoinEach(Poisoned, channels, senderJoin).1[i] == Err(Thread(PoisonedJoinMessage))
  {
    if channels != [] {
      PoisonedStaysPoisoned(channels[1..], senderJoin);
    }
  }
}
