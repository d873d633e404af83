/**
 * Alerts: a bounded queue that drops when it is full, one worker, and a stop that lets the
 * worker finish what is queued.
 */
module Alert {
  import opened Basics
  import opened Runs

  datatype Item = Item(subject: string, detail: string)

  /** Where the worker is: waiting for an item or the signal, or emptying the queue, or gone. */
  datatype Phase = Waiting | Draining | Gone

  /**
   * `accepted` and `pushed` are what was taken in and what was sent off, in order; `due` is
   * how much had been accepted when the signal was given.
   */
  datatype State = State(
    capacity: nat, queue: seq<Item>, hand: Option<Item>, phase: Phase, stopped: bool,
    accepted: seq<Item>, pushed: seq<Item>, due: nat)

  datatype Action =
    | Notify(item: Item, parked: bool)
    | Take
    | PushDone(delivered: bool)
    | Stop
    | SeeStop
    | SeeEmpty

  function Start(capacity: nat): State {
    State(capacity, [], None, Waiting, false, [], [], 0)
  }

  predicate CanQueue(s: State) {
    |s.queue| < s.capacity
  }

  /**
   * A worker parked on an empty queue takes the item from the caller's hands, whatever the
   * capacity; the signal unparks it.
   */
  predicate CanHandOver(s: State, parked: bool) {
    parked && s.phase.Waiting? && s.hand.None? && s.queue == [] && !s.stopped
  }

  /** An action that is not enabled changes nothing; an alert that finds no room is dropped. */
  function Apply(s: State, a: Action): State {
    match a
    case Notify(item, parked) =>
      if CanHandOver(s, parked) then s.(hand := Some(item), accepted := s.accepted + [item])
      else if CanQueue(s) then s.(queue := s.queue + [item], accepted := s.accepted + [item])
      else s
    case Take =>
      if !s.phase.Gone? && s.hand.None? && s.queue != [] then s.(hand := Some(s.queue[0]), queue := s.queue[1..]) else s
    case PushDone(delivered) =>
      if s.hand.Some? then s.(hand := None, pushed := s.pushed + [s.hand.value]) else s
    case Stop => if s.stopped then s else s.(stopped := true, due := |s.accepted|)
    case SeeStop => if s.phase.Waiting? && s.hand.None? && s.stopped then s.(phase := Draining) else s
    case SeeEmpty => if s.phase.Draining? && s.hand.None? && s.queue == [] then s.(phase := Gone) else s
  }

  function Run(s: State, acts: seq<Action>): State {
    RunOf(Apply, s, acts)
  }

  function InHand(s: State): seq<Item> {
    if s.hand.Some? then [s.hand.value] else []
  }

  predicate Inv(s: State) {
    && s.accepted == s.pushed + InHand(s) + s.queue
    && |s.queue| <= s.capacity
    && (s.stopped ==> s.due <= |s.accepted|)
    && (!s.phase.Waiting? ==> s.stopped)
    && (s.phase.Gone? ==> s.hand.None? && s.due <= |s.pushed|)
  }

  lemma ApplyKeepsInv(s: State, a: Action)
    requires Inv(s)
    ensures Inv(Apply(s, a))
    ensures s.stopped ==> Apply(s, a).stopped && Apply(s, a).due == s.due
    ensures s.accepted <= Apply(s, a).accepted && s.pushed <= Apply(s, a).pushed
  {
  }

  /**
   * At every moment of every run, what was accepted is what was pushed, then what is in the
   * worker's hand, then what is queued: nothing is lost, doubled or reordered, and the queue
   * keeps to its bound.
   */
  lemma {:induction false} NothingIsLost(s: State, acts: seq<Action>)
    requires Inv(s)
    ensures Inv(Run(s, acts)) && s.accepted <= Run(s, acts).accepted && s.pushed <= Run(s, acts).pushed
    ensures var s' := Run(s, acts);
            var hand := if s'.hand.Some? then [s'.hand.value] else [];
            s'.accepted == s'.pushed + hand + s'.queue && |s'.queue| <= s'.capacity
    ensures s.stopped ==> Run(s, acts).stopped && Run(s, acts).due == s.due
    decreases |acts|
  {
    if acts != [] {
      ApplyKeepsInv(s, acts[0]);
      NothingIsLost(Apply(s, acts[0]), acts[1..]);
    }
  }

  /**
   * When the worker is gone, which is when Close returns, everything accepted before the
   * signal has been pushed, in order, however many alerts arrived while it drained.
   */
  lemma AcceptedBeforeStopIsPushed(capacity: nat, before: seq<Action>, after: seq<Action>)
    requires !Run(Start(capacity), before).stopped
    ensures var s := Run(Start(capacity), before);
            var s' := Run(Start(capacity), before + [Stop] + after);
            s'.phase.Gone? ==> s.accepted <= s'.pushed
  {
    var s := Run(Start(capacity), before);
    NothingIsLost(Start(capacity), before);
    RunInParts(Apply, Start(capacity), before + [Stop], after);
    RunInParts(Apply, Start(capacity), before, [Stop]);
    var s1 := Apply(s, Stop);
    assert Run(s, [Stop]) == s1;
    ApplyKeepsInv(s, Stop);
    NothingIsLost(s1, after);
    var s' := Run(s1, after);
    if s'.phase.Gone? {
      assert s'.accepted[..|s.accepted|] == s.accepted;
      assert s'.pushed == s'.accepted[..|s'.pushed|];
    }
  }

  /**
   * An alert is accepted if and only if the queue has room or the worker stands there with free
   * hands; it is queued last, and an alert that is not accepted changes nothing.
   */
  lemma AcceptsExactlyWhen(s: State, item: Item, parked: bool)
    ensures var s' := Apply(s, Notify(item, parked));
            var handedOver := parked && s.phase.Waiting? && s.hand.None? && s.queue == [] && !s.stopped;
            && (s'.accepted == s.accepted + [item] <==> |s.queue| < s.capacity || handedOver)
            && (s'.accepted != s.accepted + [item] ==> s' == s)
            && (s'.accepted == s.accepted + [item] ==>
                  s' == if handedOver then s.(hand := Some(item), accepted := s'.accepted)
                        else s.(queue := s.queue + [item], accepted := s'.accepted))
  {
    assert |s.accepted + [item]| > |s.accepted|;
  }

  /** Left alone after the signal, the worker gets to its end in two steps for each alert it still has. */
  function Finishing(s: State): seq<Action>
    decreases |s.queue| + |InHand(s)|, |s.queue|
  {
    if s.hand.Some? then [PushDone(true)] + Finishing(s.(hand := None, pushed := s.pushed + [s.hand.value]))
    else if s.queue != [] then [Take] + Finishing(s.(hand := Some(s.queue[0]), queue := s.queue[1..]))
    else [SeeStop, SeeEmpty]
  }

  lemma {:induction false} WorkerFinishes(s: State)
    requires Inv(s) && s.stopped && s.phase.Waiting?
    ensures var s' := Run(s, Finishing(s)); s'.phase.Gone? && s'.pushed == s.accepted && s'.accepted == s.accepted
    ensures |Finishing(s)| == 2 * |s.queue| + |InHand(s)| + 2
    decreases |s.queue| + |InHand(s)|, |s.queue|
  {
    if s.hand.Some? || s.queue != [] {
      var a := if s.hand.Some? then PushDone(true) else Take;
      ApplyKeepsInv(s, a);
      var rest := Finishing(Apply(s, a));
      assert Finishing(s) == [a] + rest;
      assert ([a] + rest)[1..] == rest;
      WorkerFinishes(Apply(s, a));
    } else {
      var acts := [SeeStop, SeeEmpty];
      var s1 := Apply(s, SeeStop);
      var s2 := Apply(s1, SeeEmpty);
      assert acts[1..] == [SeeEmpty] && [SeeEmpty][1..] == [];
      assert Run(s1, [SeeEmpty]) == s2;
      assert Run(s, acts) == s2;
    }
  }

  // --- the alerter -----------------------------------------------------------

  /** The queue, the signal and the one worker. Without a pusher there is no queue and no worker. */
  class Alerter {
    const hasPusher: bool
    const capacity: nat
    var queue: seq<Item>
    var hand: Option<Item>
    var phase: Phase
    var stopped: bool
    var accepted: seq<Item>
    var pushed: seq<Item>
    var due: nat

    constructor (hasPusher: bool, capacity: nat)
      ensures this.hasPusher == hasPusher && this.capacity == capacity && Seen() == Start(capacity)
    {
      this.hasPusher, this.capacity := hasPusher, capacity;
      queue, hand, phase, stopped, accepted, pushed, due := [], None, Waiting, false, [], [], 0;
    }

    function Seen(): State
      reads this
    {
      State(capacity, queue, hand, phase, stopped, accepted, pushed, due)
    }

    /** Queues, hands over or drops; never waits, and never fails. */
    method Notify(subject: string, detail: string, parked: bool)
      modifies this
      ensures Seen() == if hasPusher then Apply(old(Seen()), Action.Notify(Item(subject, detail), parked))
                else old(Seen())
    {
      if !hasPusher {
        return;
      }
      var item := Item(subject, detail);
      if parked && phase.Waiting? && hand.None? && |queue| == 0 && !stopped {
        hand, accepted := Some(item), accepted + [item];
      } else if |queue| < capacity {
        queue, accepted := queue + [item], accepted + [item];
      }
    }

    /** The worker takes the next item, if there is one and its hands are free. */
    method TakeNext() returns (taken: bool)
      requires !phase.Gone? && hand.None?
      modifies this`queue, this`hand
      ensures taken <==> old(queue) != []
      ensures Seen() == Apply(old(Seen()), Take)
    {
      if |queue| == 0 {
        return false;
      }
      hand, queue := Some(queue[0]), queue[1..];
      return true;
    }

    /** One push; a failure is logged and forgotten. */
    method Push(delivered: bool)
      requires hand.Some?
      modifies this`hand, this`pushed
      ensures Seen() == Apply(old(Seen()), PushDone(delivered))
    {
      pushed, hand := pushed + [hand.value], None;
    }

    /** The worker, once it has seen the signal: takes and pushes until the queue is empty. */
    method Drain()
      requires phase.Draining? && hand.None?
      modifies this`queue, this`hand, this`pushed
      ensures queue == [] && hand.None? && pushed == old(pushed) + old(queue)
    {
      var more := true;
      while more
        invariant phase.Draining? && hand.None? && pushed + queue == old(pushed) + old(queue)
        invariant !more ==> queue == []
        decreases |queue|, more
      {
        more := TakeNext();
        if more {
          Push(true);
        }
      }
    }

    /**
     * Gives the signal and waits for the worker: what it has in hand and all that is queued is
     * pushed, in that order. A second close finds the worker gone and does nothing.
     */
    method Close()
      requires Inv(Seen()) && (!hasPusher ==> queue == [] && hand.None?)
      modifies this
      ensures !hasPusher ==> Seen() == old(Seen())
      ensures hasPusher && !old(phase).Gone? ==>
                && phase.Gone? && stopped && hand.None? && queue == []
                && pushed == old(accepted) && accepted == old(accepted)
      ensures hasPusher && old(phase).Gone? ==> Seen() == old(Seen())
      ensures Inv(Seen())
    {
      if !hasPusher {
        return;
      }
      if !stopped {
        stopped, due := true, |accepted|;
      }
      if phase.Gone? {
        return;
      }
      if hand.Some? {
        Push(true);
      }
      phase := Draining;
      Drain();
      phase := Gone;
    }
  }
}
