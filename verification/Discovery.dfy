/** Discovery's imperative claim/renew/release API over the lease store, tied to the
    decision the election protocol is built on. */
module Discovery {
  import opened Wrappers
  import opened Lease

  datatype ClaimResult = Claimed | Held | StoreError

  /** The conditional store. `up` is whether it answers. */
  class Store {
    var record: Option<Record>
    var nextHandle: Handle
    var up: bool

    predicate Matches(prev: Option<Handle>)
      reads this
    {
      match prev
      case None => record.None?
      case Some(h) => record.Some? && record.value.handle == h
    }

    method Write(prev: Option<Handle>, owner: Node, gen: int, expires: int) returns (r: ClaimResult, h: Handle)
      modifies this
      ensures up == old(up) && h == old(nextHandle)
      ensures r == if !old(up) then StoreError else if old(Matches(prev)) then Claimed else Held
      ensures r.Claimed? ==> record == Some(Record(owner, gen, expires, h)) && nextHandle == h + 1
      ensures !r.Claimed? ==> record == old(record) && nextHandle == old(nextHandle)
    {
      h := nextHandle;
      if !up {
        return StoreError, h;
      }
      if !Matches(prev) {
        return Held, h;
      }
      record := Some(Record(owner, gen, expires, h));
      nextHandle := h + 1;
      return Claimed, h;
    }

    method Delete(h: Handle)
      modifies this
      ensures up == old(up) && nextHandle == old(nextHandle)
      ensures record == if old(up) && old(Matches(Some(h))) then None else old(record)
    {
      if up && Matches(Some(h)) {
        record := None;
      }
    }
  }

  class Client {
    const me: Node
    const ttl: nat
    var handle: Option<Handle>

    constructor (me: Node, ttl: nat)
      ensures this.me == me && this.ttl == ttl && handle == None
    {
      this.me, this.ttl, handle := me, ttl, None;
    }

    // tryClaim with nobody in between its read and its write.
    method TryClaim(store: Store, now: int) returns (r: ClaimResult)
      modifies this, store
      ensures store.up == old(store.up)
      ensures var d := Decision(old(store.record), me, now);
              r == if !store.up then StoreError else if d.None? then Held else Claimed
      ensures r.Claimed? ==>
                handle == Some(old(store.nextHandle)) && store.nextHandle == old(store.nextHandle) + 1 &&
                store.record ==
                  Some(Record(me, Decision(old(store.record), me, now).value.gen, now + ttl, old(store.nextHandle)))
      ensures !r.Claimed? ==>
                handle == old(handle) && store.record == old(store.record) && store.nextHandle == old(store.nextHandle)
    {
      if !store.up {
        return StoreError;
      }
      match store.record
      case None => r := Refresh(store, None, 1, now);
      case Some(state) =>
        if state.owner == me {
          r := Refresh(store, Some(state.handle), state.gen, now);
        } else if now > state.expires {
          r := Refresh(store, Some(state.handle), state.gen + 1, now);
        } else {
          r := Held;
        }
    }

    method Refresh(store: Store, prev: Option<Handle>, gen: int, now: int) returns (r: ClaimResult)
      modifies this, store
      ensures store.up == old(store.up)
      ensures r == if !store.up then StoreError else if old(store.Matches(prev)) then Claimed else Held
      ensures r.Claimed? ==>
                handle == Some(old(store.nextHandle)) && store.nextHandle == old(store.nextHandle) + 1 &&
                store.record == Some(Record(me, gen, now + ttl, old(store.nextHandle)))
      ensures !r.Claimed? ==>
                handle == old(handle) && store.record == old(store.record) && store.nextHandle == old(store.nextHandle)
    {
      var h;
      r, h := store.Write(prev, me, gen, now + ttl);
      if r.Claimed? {
        handle := Some(h);
      }
    }

    // displaced tells a real loss of the lease from an unreachable store.
    method RenewLease(store: Store, now: int) returns (renewed: bool, displaced: bool)
      modifies this, store
      ensures store.up == old(store.up)
      ensures renewed <==> store.up && Decision(old(store.record), me, now).Some?
      ensures displaced <==> store.up && Decision(old(store.record), me, now).None?
      ensures renewed ==>
                store.record.Some? && store.record.value.owner == me && store.record.value.expires == now + ttl
      ensures !renewed ==> store.record == old(store.record) && handle == old(handle)
    {
      var r := TryClaim(store, now);
      return r.Claimed?, r.Held?;
    }

    // Best effort; the cached handle is forgotten whatever the store answers.
    method ReleaseLeadership(store: Store)
      modifies this, store
      ensures handle == None && store.nextHandle == old(store.nextHandle)
      ensures store.record ==
                if old(handle).Some? && old(store.up) && old(store.Matches(handle)) then None else old(store.record)
    {
      var h := handle;
      handle := None;
      if h.None? {
        return;
      }
      store.Delete(h.value);
    }
  }
}
