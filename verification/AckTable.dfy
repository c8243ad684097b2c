/**
 * The table of reply channels shared by the senders, the reader and the closer of a channel
 * (`acks` in `network/channel.go`), on values. A Go channel is named by its position in
 * `chans`: creating one appends to the sequence, so a number is never used twice. `panicked`
 * records the two mistakes Go answers with a panic: sending on a closed channel and closing a
 * closed channel.
 */
module AckTables {
  import opened Prelude

  /** A Go channel with room for one message. */
  datatype Chan<+M> = Chan(buf: Option<M>, closed: bool)

  datatype AckTable<+M> = AckTable(acks: map<Bytes, nat>, chans: seq<Chan<M>>, panicked: bool)

  /** Every registered channel exists and is open, and no two ids share one. */
  ghost predicate Safe<M>(t: AckTable<M>) {
    && !t.panicked
    && (forall id | id in t.acks :: t.acks[id] < |t.chans| && !t.chans[t.acks[id]].closed)
    && (forall id, id' | id in t.acks && id' in t.acks && t.acks[id] == t.acks[id'] :: id == id')
  }

  /** `Send`, under the lock: a new channel is made and entered under the id of the request. */
  function Register<M>(t: AckTable<M>, id: Bytes): AckTable<M> {
    t.(chans := t.chans + [Chan(None, false)], acks := t.acks[id := |t.chans|])
  }

  /** `Send`, under the lock again: whatever is registered under the id is forgotten. */
  function Unregister<M>(t: AckTable<M>, id: Bytes): AckTable<M> {
    t.(acks := t.acks - {id})
  }

  /** `Read`, under the lock: a reply goes to its waiter if there is one with room for it. */
  function Offer<M>(t: AckTable<M>, id: Bytes, m: M): AckTable<M> {
    if id !in t.acks || t.acks[id] >= |t.chans| then t
    else
      var c := t.acks[id];
      if t.chans[c].closed then t.(panicked := true)
      else if t.chans[c].buf.Some? then t
      else t.(chans := t.chans[c := Chan(Some(m), false)])
  }

  /** `Close`, under the lock: every registered channel is closed and the table emptied. */
  ghost function CloseAll<M>(t: AckTable<M>): AckTable<M> {
    AckTable(map[],
             seq(|t.chans|, i requires 0 <= i < |t.chans| =>
               if i in t.acks.Values then t.chans[i].(closed := true) else t.chans[i]),
             t.panicked
             || (exists id | id in t.acks :: t.acks[id] < |t.chans| && t.chans[t.acks[id]].closed)
             || (exists id, id' | id in t.acks && id' in t.acks :: id != id' && t.acks[id] == t.acks[id']))
  }

  /** The receive of a waiting sender. */
  function Take<M>(t: AckTable<M>, c: nat): AckTable<M>
    requires c < |t.chans|
  {
    t.(chans := t.chans[c := t.chans[c].(buf := None)])
  }

  /** No operation, in any order and with any ids, ever sends on or closes a closed channel. */
  lemma OperationsStaySafe<M>(t: AckTable<M>, id: Bytes, m: M, c: nat)
    requires Safe(t)
    ensures Safe(Register(t, id)) && Safe(Unregister(t, id)) && Safe(Offer(t, id, m)) && Safe(CloseAll(t))
    ensures c < |t.chans| ==> Safe(Take(t, c))
  {
    assert Safe(Register(t, id)) by {
      forall k | k in Register(t, id).acks ensures k != id ==> k in t.acks {}
    }
  }
}
