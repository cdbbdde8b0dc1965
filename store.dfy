/** The document store as the client sees it: replies to reads and writes,
    and the table of live snapshot listeners, each identified by the handle
    its unsubscribe function releases. */
module Store {
  import opened Wrappers

  /** The reply to a write (an insert or a delete): success, or a failure
      carrying the store's error code when it has one. */
  datatype WriteReply = WriteOk | WriteFailed(code: Option<string>)

  /** The reply to a one-off read: whether the matching result set was empty,
      or the error the read was rejected with. */
  datatype ReadReply = Rows(empty: bool) | ReadFailed(message: string)

  const PermissionDeniedCode := "permission-denied"

  /** The settled outcome of a write: a permission-denied failure gets the
      `denied` message, every other failure the `generic` one. */
  function SettleWrite(reply: WriteReply, denied: string, generic: string): (r: Outcome)
    ensures r.Done? <==> reply.WriteOk?
    ensures reply == WriteFailed(Some(PermissionDeniedCode)) ==> r == Thrown(denied)
    ensures reply.WriteFailed? && reply.code != Some(PermissionDeniedCode) ==> r == Thrown(generic)
  {
    match reply
    case WriteOk => Done
    case WriteFailed(code) =>
      if code == Some(PermissionDeniedCode) then Thrown(denied) else Thrown(generic)
  }

  type Handle = nat

  /** The listeners registered with the store: which handles are live and
      what each listens to, the next handle to hand out, and every release
      in the order it was made (a stale handle may be released again; the
      store ignores it). */
  class Registry<Q> {
    var live: map<Handle, Q>
    var next: Handle
    var released: seq<Handle>

    ghost predicate Valid()
      reads this
    {
      forall h :: h in live ==> h < next
    }

    constructor ()
      ensures Valid()
      ensures live == map[] && next == 0 && released == []
    {
      live := map[];
      next := 0;
      released := [];
    }

    /** `onSnapshot`: registers a listener for `query` under a fresh handle. */
    method Listen(query: Q) returns (h: Handle)
      requires Valid()
      modifies this
      ensures Valid()
      ensures h == old(next) && h !in old(live)
      ensures live == old(live)[h := query]
      ensures next == old(next) + 1 && released == old(released)
    {
      h := next;
      live := live[h := query];
      next := next + 1;
    }

    /** The unsubscribe function of handle `h`: the listener stops, if it
        still runs. */
    method Release(h: Handle)
      requires Valid()
      modifies this
      ensures Valid()
      ensures live == old(live) - {h}
      ensures next == old(next) && released == old(released) + [h]
    {
      live := live - {h};
      released := released + [h];
    }

    /** The store ends listener `h` itself after reporting an error to it;
        its unsubscribe function is not called. */
    method Drop(h: Handle)
      requires Valid()
      modifies this
      ensures Valid()
      ensures live == old(live) - {h}
      ensures next == old(next) && released == old(released)
    {
      live := live - {h};
    }
  }
}
