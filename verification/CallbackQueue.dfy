/** The bounded queue between a model's callbacks and one stream (agent_service/services/stream_chat_service.py). */
module CallbackQueue {

  import opened FirstToken

  class QueueStreamCallback {
    const capacity: nat
    var queue: seq<Packet>
    var overflowed: bool
    var bound: bool
    var stopped: bool
    ghost var pushed: seq<Packet>
    ghost var taken: seq<Packet>

    /**
     * What has been taken and what waits is a gapless beginning of what the model sent, and all of it
     * until the queue overflows. After an overflow a bound model is told to stop.
     */
    ghost predicate Valid()
      reads this
    {
      && (if overflowed then taken + queue <= pushed else taken + queue == pushed)
      && (overflowed && bound ==> stopped)
      && (capacity > 0 ==> |queue| <= capacity)
      && (capacity == 0 ==> !overflowed)
    }

    constructor (capacity: nat)
      ensures Valid() && pushed == taken == queue == [] && !overflowed && !bound && !stopped && this.capacity == capacity
    {
      this.capacity := capacity;
      queue, overflowed, bound, stopped, pushed, taken := [], false, false, false, [], [];
    }

    method BindHandle()
      requires Valid()
      modifies this`bound, this`stopped
      ensures Valid() && bound && (stopped <==> old(stopped) || overflowed)
    {
      bound := true;
      if overflowed {
        stopped := true;
      }
    }

    method Cancel()
      requires Valid()
      modifies this`stopped
      ensures Valid() && stopped
    {
      stopped := true;
    }

    /** A queue of capacity 0 is unbounded. */
    method Push(p: Packet)
      requires Valid()
      modifies this
      ensures Valid() && pushed == old(pushed) + [p] && taken == old(taken) && bound == old(bound)
      ensures queue == if !overflowed then old(queue) + [p] else old(queue)
      ensures overflowed <==> old(overflowed) || (capacity > 0 && |old(queue)| == capacity)
      ensures old(stopped) ==> stopped
    {
      pushed := pushed + [p];
      if overflowed {
        return;
      }
      if capacity > 0 && |queue| >= capacity {
        overflowed := true;
        if bound {
          stopped := true;
        }
        return;
      }
      queue := queue + [p];
    }

    method Arrive(packets: seq<Packet>)
      requires Valid()
      modifies this
      ensures Valid() && pushed == old(pushed) + packets && taken == old(taken) && bound == old(bound)
      ensures old(overflowed) ==> overflowed
      ensures old(stopped) ==> stopped
    {
      for i := 0 to |packets|
        invariant Valid() && pushed == old(pushed) + packets[..i] && taken == old(taken) && bound == old(bound)
        invariant old(overflowed) ==> overflowed
        invariant old(stopped) ==> stopped
      {
        assert packets[..i + 1] == packets[..i] + [packets[i]];
        Push(packets[i]);
      }
      assert packets[..|packets|] == packets;
    }

    method Get() returns (p: Packet)
      requires Valid() && queue != []
      modifies this`queue, this`taken
      ensures Valid() && p == old(queue)[0] && taken == old(taken) + [p] && queue == old(queue)[1..]
    {
      p := queue[0];
      assert taken + queue == (taken + [queue[0]]) + queue[1..];
      taken := taken + [p];
      queue := queue[1..];
    }
  }
}
