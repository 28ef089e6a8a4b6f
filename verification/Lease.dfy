/** The lease as one process holds it (internal/lease/lease.go:85-364): the grant it believes in, and the
    calls that take, keep and give up the key in the store.

    Each call is proved against the steps of the protocol it makes, so that what Leadership.dfy proves of
    every run holds of processes that use the lease this way. Round trips may fail; a wait for replicas may
    fall short. */
module Lease {
  import opened Text
  import opened Store
  import opened Handoff
  import opened Protocol
  import opened Leadership

  const NO_EPOCH: int := 0

  /** Acquire's results: the new grant; somebody else's lease; a grant given back because its epoch did not
      reach enough replicas; or a failed call, after which the lease may or may not have been granted. */
  datatype Attempt = Won(epoch: int) | HeldElsewhere | NotDurable | Unanswered

  /** The keys in the store are those of the election. */
  ghost predicate Shows(store: Store, e: Election)
    reads store
  {
    store.holder == e.holder && store.leaderEpoch == e.leaderEpoch && store.fence == e.fence
  }

  /** The last grant. */
  function Newest(e: Election): Grant
    requires e.grants != []
  {
    e.grants[|e.grants| - 1]
  }

  class Lease {
    const owner: string
    const waitReplicas: int
    var value: string
    var epoch: int

    constructor (owner: string, waitReplicas: int)
      ensures this.owner == owner && this.waitReplicas == waitReplicas && value == "" && epoch == NO_EPOCH
    {
      this.owner, this.waitReplicas := owner, waitReplicas;
      value, epoch := "", NO_EPOCH;
    }

    /** It believes in no grant, or in one that was issued to it. */
    ghost predicate Valid(e: Election)
      reads this
      requires GrantsInv(e)
    {
      || (value == "" && epoch == NO_EPOCH)
      || (1 <= epoch <= |e.grants| && e.grants[epoch - 1] == Grant(owner, epoch) && value == HolderValue(owner, epoch))
    }

    /** Acquire, with awaitEpochDurable: `acked` replicas confirmed the epoch in time, and the release that
        follows a shortfall may itself not arrive. A grant that is not durable, or whose answer is lost, is
        never acted on, but its epoch is spent. */
    method Acquire(store: Store, trip: Trip, acked: int, releaseArrives: bool, ghost e: Election)
      returns (r: Attempt, ghost e': Election)
      requires GrantsInv(e) && Shows(store, e) && Valid(e)
      modifies this`value, this`epoch, store`holder, store`leaderEpoch
      ensures GrantsInv(e') && Shows(store, e') && Valid(e')
      ensures r.Unanswered? <==> !trip.Answered?
      ensures r.HeldElsewhere? <==> trip.Answered? && e.holder.Some?
      ensures r.NotDurable? <==> trip.Answered? && e.holder.None? && waitReplicas > 0 && acked < waitReplicas
      ensures r.Won? ==> e' == Granted(e, owner) && r.epoch == Newest(e').epoch
      ensures r.Won? ==> (value, epoch) == (ValueOf(Newest(e')), r.epoch)
      ensures r.Unanswered? ==> e' == if trip.ReplyLost? then Granted(e, owner) else e
      ensures r.HeldElsewhere? ==> e' == e
      ensures r.NotDurable? ==>
                var spent := Granted(e, owner);
                e' == if releaseArrives then Released(spent, ValueOf(Newest(spent))) else spent
      ensures !r.Won? ==> value == old(value) && epoch == old(epoch)
    {
      e' := e;
      if trip.NeverArrived? {
        return Unanswered, e';
      }
      e' := Granted(e, owner);
      var issued := store.AcquireLease(owner);
      if trip.ReplyLost? {
        return Unanswered, e';
      }
      if issued <= 0 {
        return HeldElsewhere, e';
      }
      var grant := HolderValue(owner, issued);
      if waitReplicas > 0 && acked < waitReplicas {
        if releaseArrives {
          var _ := store.ReleaseLease(grant);
          e' := Released(e', grant);
        }
        return NotDurable, e';
      }
      value, epoch := grant, issued;
      return Won(issued), e';
    }

    /** Renew; `None` when the round trip failed, which proves nothing either way. */
    method Renew(store: Store, arrives: bool, ghost e: Election) returns (kept: Option<bool>)
      requires GrantsInv(e) && Shows(store, e) && Valid(e)
      modifies this`value, this`epoch
      ensures Valid(e)
      ensures kept == if old(value) == "" then Some(false)
                      else if arrives then Some(e.holder == Some(old(value))) else None
      ensures kept == Some(true) ==> epoch == e.leaderEpoch && epoch >= e.fence
      ensures kept == Some(false) ==> value == "" && epoch == NO_EPOCH
      ensures kept != Some(false) ==> value == old(value) && epoch == old(epoch)
    {
      var v := value;
      if v == "" {
        return Some(false);
      }
      if !arrives {
        return None;
      }
      var extended := store.RenewLease(v);
      if !extended {
        Forget(v);
        return Some(false);
      }
      HolderValueIsInjective(owner, epoch, Newest(e).owner, Newest(e).epoch);
      return Some(true);
    }

    /** Release: afterwards it believes in no grant, and the key is gone only if it was this very grant's. */
    method Release(store: Store, arrives: bool, ghost e: Election) returns (ghost e': Election)
      requires GrantsInv(e) && Shows(store, e) && Valid(e)
      modifies this`value, this`epoch, store`holder
      ensures GrantsInv(e') && Shows(store, e') && Valid(e')
      ensures value == "" && epoch == NO_EPOCH
      ensures e' == if old(value) != "" && arrives then Released(e, old(value)) else e
      ensures e.holder != Some(old(value)) ==> store.holder == old(store.holder)
    {
      e' := e;
      var v := value;
      if v == "" {
        return;
      }
      if arrives {
        var _ := store.ReleaseLease(v);
        e' := Released(e, v);
      }
      Forget(v);
    }

    /** forget: only if the grant is still the one passed in. */
    method Forget(v: string)
      modifies this`value, this`epoch
      ensures (value, epoch) == if old(value) == v then ("", NO_EPOCH) else (old(value), old(epoch))
    {
      if value == v {
        value, epoch := "", NO_EPOCH;
      }
    }
  }
}
