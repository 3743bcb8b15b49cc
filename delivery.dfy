/**
 * The message-delivery task (src/client.rs:118-129, 146-165): the items the
 * receiver yields are pushed, in order, onto the application's channel until
 * the receiver is exhausted or a push fails because the application closed
 * its end.
 *
 * The loop never looks inside an item, so the model is generic in the item
 * type; in the client it is `Result<Message, MessageError>`, and `Err` items
 * are forwarded exactly like `Ok` items.
 */
module Delivery {
  import opened Wrappers

  /**
   * When the application drops its end of the channel, measured in the
   * number of items the channel has accepted by then.
   */
  datatype Closing = Never | AfterAccepting(limit: nat)

  /** Whether a push succeeds once `accepted` items have gone through. */
  predicate Accepts(closing: Closing, accepted: nat)
  {
    closing.Never? || accepted < closing.limit
  }

  /**
   * The outcome of one run of the delivery loop: what reached the channel,
   * how many items were pulled from the receiver, and whether the run ended
   * on a failed push (rather than on the end of the receiver).
   */
  datatype Run<T> = Run(delivered: seq<T>, pulled: nat, stoppedByClose: bool)

  /** Extends a run by items that were pulled and delivered before it. */
  function Prepend<T>(done: seq<T>, run: Run<T>): Run<T>
  {
    Run(done + run.delivered, |done| + run.pulled, run.stoppedByClose)
  }

  /** The delivery loop over the items still to come, when the channel has accepted `accepted` items so far. */
  function Deliver<T>(items: seq<T>, closing: Closing, accepted: nat): Run<T>
  {
    if items == [] then Run([], 0, false)
    else if !Accepts(closing, accepted) then Run([], 1, true)
    else Prepend([items[0]], Deliver(items[1..], closing, accepted + 1))
  }

  /**
   * What is delivered is a prefix of the receiver's items in their order;
   * every pulled item was pushed, and a run that ends on a failed push has
   * pulled exactly one item (the lost one) past what it delivered and none
   * after it.
   */
  lemma {:induction false} DeliverIsPrefix<T>(items: seq<T>, closing: Closing, accepted: nat)
    ensures var run := Deliver(items, closing, accepted);
            && |run.delivered| <= run.pulled <= |items|
            && run.delivered == items[..|run.delivered|]
            && run.pulled == |run.delivered| + (if run.stoppedByClose then 1 else 0)
            && (run.stoppedByClose <==> !Accepts(closing, accepted + |run.delivered|) && |run.delivered| < |items|)
            && (!run.stoppedByClose ==> run.delivered == items)
  {
    if items != [] && Accepts(closing, accepted) {
      DeliverIsPrefix(items[1..], closing, accepted + 1);
      assert items == [items[0]] + items[1..];
    }
  }

  /** A channel that is never closed receives every item, including the error items, and the loop ends with the receiver. */
  lemma {:induction false} NeverClosedForwardsAll<T>(items: seq<T>, accepted: nat)
    ensures Deliver(items, Never, accepted) == Run(items, |items|, false)
  {
    if items != [] {
      NeverClosedForwardsAll(items[1..], accepted + 1);
      assert [items[0]] + items[1..] == items;
    }
  }

  /** The room a channel closing after `limit` items has left once `accepted` went through. */
  function Room(limit: nat, accepted: nat): nat
  {
    if accepted <= limit then limit - accepted else 0
  }

  /**
   * Closed form of a run against a channel that closes: exactly the first
   * `min(|items|, room)` items are delivered, and the run stops on a failed
   * push exactly when there were more items than room.
   */
  lemma {:induction false} DeliverUntilClosed<T>(items: seq<T>, limit: nat, accepted: nat)
    ensures var n := if |items| <= Room(limit, accepted) then |items| else Room(limit, accepted);
            var run := Deliver(items, AfterAccepting(limit), accepted);
            && run.delivered == items[..n]
            && (run.stoppedByClose <==> Room(limit, accepted) < |items|)
  {
    if items != [] && accepted < limit {
      var n := if |items| <= Room(limit, accepted) then |items| else Room(limit, accepted);
      DeliverUntilClosed(items[1..], limit, accepted + 1);
      assert [items[0]] + items[1..][..n - 1] == items[..n];
    }
  }

  /** One iteration of the loop: pull the next item, then push it or stop. */
  lemma DeliverStep<T>(items: seq<T>, closing: Closing, accepted: nat)
    requires items != []
    ensures Deliver(items, closing, accepted)
            == if Accepts(closing, accepted) then Prepend([items[0]], Deliver(items[1..], closing, accepted + 1))
               else Run([], 1, true)
  {
  }

  lemma PrependTwice<T>(done: seq<T>, item: T, run: Run<T>)
    ensures Prepend(done, Prepend([item], run)) == Prepend(done + [item], run)
  {
    assert done + ([item] + run.delivered) == (done + [item]) + run.delivered;
  }

  /**
   * The receiver half of the connection (`receiver::Receiver`, not part of
   * this model): the items its connection will yield, in arrival order,
   * and how many of them have been pulled.
   */
  class Receiver<T> {
    const items: seq<T>
    var pos: nat

    ghost predicate Valid()
      reads this
    {
      pos <= |items|
    }

    /** The items not yet pulled. */
    function Remaining(): seq<T>
      reads this
      requires Valid()
    {
      items[pos..]
    }

    constructor (items: seq<T>)
      ensures Valid() && this.items == items && pos == 0
    {
      this.items := items;
      pos := 0;
    }

    /** Pulls the next item, or reports the end of the connection. */
    method Next() returns (next: Option<T>)
      requires Valid()
      modifies this
      ensures Valid()
      ensures old(Remaining()) == [] ==> next == None && pos == old(pos)
      ensures old(Remaining()) != [] ==> next == Some(old(Remaining())[0]) && pos == old(pos) + 1
    {
      if pos == |items| {
        next := None;
      } else {
        next := Some(items[pos]);
        pos := pos + 1;
      }
    }
  }

  /** `MessageIterator`: an iterator over a receiver that owns it. */
  class MessageIterator<T> {
    const receiver: Receiver<T>

    constructor (receiver: Receiver<T>)
      ensures this.receiver == receiver
    {
      this.receiver := receiver;
    }

    /** `next` delegates to the receiver and yields exactly what it yields. */
    method Next() returns (next: Option<T>)
      requires receiver.Valid()
      modifies receiver
      ensures receiver.Valid()
      ensures old(receiver.Remaining()) == [] ==> next == None && receiver.pos == old(receiver.pos)
      ensures old(receiver.Remaining()) != [] ==>
                next == Some(old(receiver.Remaining())[0]) && receiver.pos == old(receiver.pos) + 1
    {
      next := receiver.Next();
    }
  }

  /**
   * The producer end of the application's delivery channel. `accepted` is
   * everything the application can receive, in push order; the
   * application's closing of its end is fixed up front as `closing`.
   */
  class Channel<T> {
    const closing: Closing
    var accepted: seq<T>

    constructor (closing: Closing)
      ensures this.closing == closing && accepted == []
    {
      this.closing := closing;
      accepted := [];
    }

    /** Pushes one item; fails, leaving the channel as it was, once the application has closed its end. */
    method Send(item: T) returns (ok: bool)
      modifies this
      ensures ok == Accepts(closing, |old(accepted)|)
      ensures accepted == if ok then old(accepted) + [item] else old(accepted)
    {
      ok := Accepts(closing, |accepted|);
      if ok {
        accepted := accepted + [item];
      }
    }
  }

  /**
   * The loop invariant of `ProcessMessages`: `pos` items have been pulled
   * since `start` and all of them delivered, and what remains of the run is
   * the run over the items not yet pulled.
   */
  ghost predicate Progress<T>(items: seq<T>, closing: Closing, start: nat, pos: nat,
                              accepted0: seq<T>, accepted: seq<T>, goal: Run<T>)
  {
    && start <= pos <= |items|
    && accepted == accepted0 + items[start..pos]
    && goal == Prepend(items[start..pos], Deliver(items[pos..], closing, |accepted|))
  }

  lemma ProgressStep<T>(items: seq<T>, closing: Closing, start: nat, pos: nat,
                        accepted0: seq<T>, accepted: seq<T>, goal: Run<T>)
    requires Progress(items, closing, start, pos, accepted0, accepted, goal)
    requires pos < |items| && Accepts(closing, |accepted|)
    ensures Progress(items, closing, start, pos + 1, accepted0, accepted + [items[pos]], goal)
  {
    var done, rest := items[start..pos], items[pos..];
    DeliverStep(rest, closing, |accepted|);
    PrependTwice(done, rest[0], Deliver(rest[1..], closing, |accepted| + 1));
    assert items[start..pos + 1] == done + [rest[0]];
    assert rest[1..] == items[pos + 1..];
  }

  lemma ProgressStopped<T>(items: seq<T>, closing: Closing, start: nat, pos: nat,
                           accepted0: seq<T>, accepted: seq<T>, goal: Run<T>)
    requires Progress(items, closing, start, pos, accepted0, accepted, goal)
    requires pos < |items| && !Accepts(closing, |accepted|)
    ensures accepted == accepted0 + goal.delivered && pos + 1 == start + goal.pulled
  {
    DeliverStep(items[pos..], closing, |accepted|);
  }

  lemma ProgressExhausted<T>(items: seq<T>, closing: Closing, start: nat, pos: nat,
                             accepted0: seq<T>, accepted: seq<T>, goal: Run<T>)
    requires Progress(items, closing, start, pos, accepted0, accepted, goal)
    requires pos == |items|
    ensures accepted == accepted0 + goal.delivered && pos == start + goal.pulled
  {
    assert items[pos..] == [];
  }

  /**
   * The body of the delivery task of `process_messages`: pull from the
   * iterator, push onto the channel, stop at the end of the receiver or on
   * the first failed push.
   */
  method ProcessMessages<T>(messages: MessageIterator<T>, tx: Channel<T>)
    requires messages.receiver.Valid()
    modifies messages.receiver, tx
    ensures messages.receiver.Valid()
    ensures var run := Deliver(old(messages.receiver.Remaining()), tx.closing, |old(tx.accepted)|);
            && tx.accepted == old(tx.accepted) + run.delivered
            && messages.receiver.pos == old(messages.receiver.pos) + run.pulled
  {
    var rx := messages.receiver;
    ghost var items, closing := rx.items, tx.closing;
    ghost var start, accepted0 := rx.pos, tx.accepted;
    ghost var goal := Deliver(items[start..], closing, |accepted0|);
    assert items[start..start] == [];
    while true
      invariant rx.Valid()
      invariant Progress(items, closing, start, rx.pos, accepted0, tx.accepted, goal)
      decreases |items| - rx.pos
    {
      ghost var pos, accepted := rx.pos, tx.accepted;
      var next := messages.Next();
      if next.None? {
        ProgressExhausted(items, closing, start, pos, accepted0, accepted, goal);
        break;
      }
      var ok := tx.Send(next.value);
      if !ok {
        ProgressStopped(items, closing, start, pos, accepted0, accepted, goal);
        break;
      }
      ProgressStep(items, closing, start, pos, accepted0, accepted, goal);
    }
  }
}
