/** The broker's consumer: one reply to every message it is handed, and a true one. */
module Consumer {
  import opened Basics
  import opened Worker
  import opened Dispatcher

  const SECOND: Time := 1_000_000_000

  const BACKOFF: seq<Time> := [5 * SECOND, 30 * SECOND, 120 * SECOND, 600 * SECOND]

  /** A message as the broker hands it over. No metadata, or data that does not decode, is None. */
  datatype Msg = Msg(delivered: Option<nat>, delivery: Option<Id>)

  datatype Reply = Ack | Nak(delay: Time) | Term

  /** As many intervals as there can be attempts, from the front of the table. */
  function DelaysFor(maxAttempts: nat): seq<Time> {
    if maxAttempts >= |BACKOFF| then BACKOFF else BACKOFF[..maxAttempts]
  }

  class Consumer {
    const dispatcher: Dispatcher
    const backoff: seq<Time>
    var replies: seq<Reply>

    constructor (dispatcher: Dispatcher)
      requires dispatcher.cfg.maxAttempts > 0
      ensures this.dispatcher == dispatcher && backoff == DelaysFor(dispatcher.cfg.maxAttempts) && replies == []
    {
      this.dispatcher, backoff, replies := dispatcher, DelaysFor(dispatcher.cfg.maxAttempts), [];
    }

    /** How long before a message is offered again: the last interval repeats. */
    function Delay(attempt: nat): (d: Time)
      requires backoff != []
      ensures d in backoff
      ensures 1 <= attempt <= |backoff| ==> d == backoff[attempt - 1]
      ensures attempt > |backoff| ==> d == backoff[|backoff| - 1]
      ensures attempt == 0 ==> d == backoff[0]
    {
      var from1 := if attempt < 1 then 1 else attempt;
      backoff[(if from1 > |backoff| then |backoff| else from1) - 1]
    }

    /**
     * Exactly one reply to each message. A message nobody could ever read is terminated and
     * nothing else happens. Ack is given only for a delivery that has settled or is gone, and
     * at the delivery limit always, unless a store call or the sender lookup failed.
     */
    method Handle(msg: Msg, a: Answers)
      requires backoff != []
      modifies this`replies, dispatcher`callbacks, dispatcher.deliveries
      ensures |replies| == |old(replies)| + 1 && replies[..|old(replies)|] == old(replies)
      ensures var reply := replies[|old(replies)|];
              && (reply == Term <==> msg.delivered.None? || msg.delivery.None?)
              && (reply == Term ==> dispatcher.deliveries.rows == old(dispatcher.deliveries.rows)
                                    && dispatcher.callbacks == old(dispatcher.callbacks))
              && (reply != Term ==>
                    var end := old(dispatcher.Ends(Handling(msg.delivery.value, msg.delivered.value), a));
                    && Answered(end.w, reply == Ack)
                    && dispatcher.deliveries.rows == end.rows && dispatcher.callbacks == end.sent)
              && (reply == Ack ==> SettledIn(dispatcher.deliveries.rows, msg.delivery.value))
              && (reply.Nak? ==> reply.delay == Delay(msg.delivered.value))
              && (reply != Term && msg.delivered.value >= dispatcher.cfg.maxAttempts && a.read.Fine? && Undisturbed(a)
                  ==> reply == Ack)
    {
      if msg.delivered.None? {
        replies := replies + [Term];
        return;
      }
      if msg.delivery.None? {
        replies := replies + [Term];
        return;
      }
      var attempt := msg.delivered.value;
      var ok := dispatcher.Handle(msg.delivery.value, attempt, a);
      if !ok {
        replies := replies + [Nak(Delay(attempt))];
        return;
      }
      replies := replies + [Ack];
    }
  }

  /**
   * Five seconds, half a minute, two minutes, ten: as many as there can be attempts. Waiting
   * never gets shorter, and the limit never leaves the consumer without a delay.
   */
  lemma DelaysGrow(maxAttempts: nat)
    requires maxAttempts > 0
    ensures var ds := DelaysFor(maxAttempts);
            && |ds| == (if maxAttempts < 4 then maxAttempts else 4)
            && ds <= [5_000_000_000, 30_000_000_000, 120_000_000_000, 600_000_000_000]
            && forall i, j :: 0 <= i <= j < |ds| ==> 0 < ds[i] <= ds[j]
  {
    assert BACKOFF[0] <= BACKOFF[1] <= BACKOFF[2] <= BACKOFF[3];
  }
}
