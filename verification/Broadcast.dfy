/** The broadcast that wakes a resource's waiters: a channel that is closed, never sent on, and replaced. */
module Broadcast {

  /** Which change a committed transaction announces. */
  datatype Target = One(resource: string) | All

  predicate Covers(target: Target, resource: string) {
    target.All? || target.resource == resource
  }

  /** Channels are numbered in the order they are made; a closed one stays closed. */
  datatype Board = Board(current: map<string, nat>, closed: set<nat>, issued: nat)
  {
    /** The channels waiters may still be given are open, distinct and already made. */
    ghost predicate Valid() {
      && (forall r <- current :: current[r] !in closed && current[r] < issued)
      && (forall q <- current, r <- current :: current[q] == current[r] ==> q == r)
      && (forall c <- closed :: c < issued)
    }

    function Watched(resource: string): Board {
      if resource in current then this
      else this.(current := current[resource := issued], issued := issued + 1)
    }

    function Signalled(target: Target): Board {
      match target
      case One(r) =>
        if r in current then this.(current := current - {r}, closed := closed + {current[r]}) else this
      case All => this.(current := map[], closed := closed + current.Values)
    }

    /** Every one of these resources signalled, in whatever order. */
    ghost function SignalledEach(resources: set<string>): Board {
      this.(current := current - resources,
            closed := closed + (set r | r in resources && r in current :: current[r]))
    }
  }

  lemma WatchedIsValid(b: Board, resource: string)
    requires b.Valid()
    ensures b.Watched(resource).Valid()
    ensures resource in b.Watched(resource).current
    ensures b.Watched(resource).current[resource] !in b.Watched(resource).closed
  {
  }

  lemma SignalledIsValid(b: Board, target: Target)
    requires b.Valid()
    ensures b.Signalled(target).Valid()
  {
  }

  /** A signal closes exactly the channels of the resources it covers; the next watch gets a fresh one. */
  lemma SignalClosesWhatItCovers(b: Board, target: Target, resource: string)
    requires b.Valid() && resource in b.current
    ensures b.current[resource] in b.Signalled(target).closed <==> Covers(target, resource)
    ensures Covers(target, resource) ==>
      b.Signalled(target).Watched(resource).current[resource] !in b.Signalled(target).closed
  {
    SignalledIsValid(b, target);
    WatchedIsValid(b.Signalled(target), resource);
  }

  lemma NoneSignalled(b: Board)
    ensures b.SignalledEach({}) == b
  {
    assert b.current - {} == b.current;
  }

  lemma SignalOneMore(b: Board, resources: set<string>, resource: string)
    ensures b.SignalledEach(resources).Signalled(One(resource)) == b.SignalledEach(resources + {resource})
  {
    var more := resources + {resource};
    assert b.current - resources - {resource} == b.current - more;
    if resource in b.current {
      assert (set r | r in more && r in b.current :: b.current[r])
          == (set r | r in resources && r in b.current :: b.current[r]) + {b.current[resource]};
      if resource in resources {
        assert b.current - resources == b.current - more;
      }
    } else {
      assert b.current - resources == b.current - more;
    }
  }

  class Waiters {
    var channels: map<string, nat>
    var closed: set<nat>
    var issued: nat

    ghost function View(): Board
      reads this
    {
      Board(channels, closed, issued)
    }

    constructor ()
      ensures View() == Board(map[], {}, 0)
    {
      channels, closed, issued := map[], {}, 0;
    }

    /** Hands out the channel the next signal for the resource will close, making one if need be. */
    method Watch(resource: string) returns (channel: nat)
      modifies this
      ensures View() == old(View()).Watched(resource)
      ensures resource in channels && channel == channels[resource]
    {
      if resource !in channels {
        channels := channels[resource := issued];
        issued := issued + 1;
      }
      channel := channels[resource];
    }

    /** Wakes everyone waiting on the resource. */
    method Signal(resource: string)
      modifies this
      ensures View() == old(View()).Signalled(One(resource))
    {
      if resource in channels {
        closed := closed + {channels[resource]};
        channels := channels - {resource};
      }
    }

    /** Wakes everyone waiting on anything, one channel at a time. */
    method SignalAll()
      modifies this
      ensures View() == old(View()).Signalled(All)
    {
      ghost var before := channels;
      while channels != map[]
        invariant channels.Keys <= before.Keys
        invariant forall r <- channels :: channels[r] == before[r]
        invariant closed == old(closed) + (set r | r in before && r !in channels :: before[r])
        invariant issued == old(issued)
        decreases channels.Keys
      {
        var resource :| resource in channels;
        closed := closed + {channels[resource]};
        channels := channels - {resource};
      }
      assert before.Values == set r | r in before :: before[r];
    }
  }
}
