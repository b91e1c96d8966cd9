/**
 * The acknowledgment ledger both node variants keep: a map from the id of a
 * locally sent packet to whether an ack for it has arrived. Entries are
 * added on send, flipped to true by a matching ack and never removed.
 */
module Ledger {

  /** `acknowledgments[uuid] = False` after a send. */
  function Register(acks: map<string, bool>, id: string): (r: map<string, bool>)
    ensures r.Keys == acks.Keys + {id}
    ensures !r[id]
    ensures forall k :: k in acks && k != id ==> r[k] == acks[k]
  {
    acks[id := false]
  }

  /** The ack handler's update: an existing entry becomes true; an unknown id changes nothing. */
  function Acknowledge(acks: map<string, bool>, id: string): (r: map<string, bool>)
    ensures r.Keys == acks.Keys
    ensures id in acks ==> r[id]
    ensures forall k :: k in acks && k != id ==> r[k] == acks[k]
    ensures id !in acks ==> r == acks
  {
    if id in acks then acks[id := true] else acks
  }

  /** Acknowledging twice is the same as acknowledging once. */
  lemma AcknowledgeIdempotent(acks: map<string, bool>, id: string)
    ensures Acknowledge(Acknowledge(acks, id), id) == Acknowledge(acks, id)
  {
  }

  /** Acks for a sequence of ids, in arrival order. */
  function AcknowledgeAll(acks: map<string, bool>, ids: seq<string>): map<string, bool>
    decreases |ids|
  {
    if ids == [] then acks else AcknowledgeAll(Acknowledge(acks, ids[0]), ids[1..])
  }

  /** No ack ever adds a key, however many arrive. */
  lemma {:induction false} AcknowledgeAllKeys(acks: map<string, bool>, ids: seq<string>)
    ensures AcknowledgeAll(acks, ids).Keys == acks.Keys
    decreases |ids|
  {
    if ids != [] {
      AcknowledgeAllKeys(Acknowledge(acks, ids[0]), ids[1..]);
    }
  }

  /**
   * An entry is true after a run of acks exactly when it was true before or
   * its own id is among them: pending entries never time out, and acks for
   * other ids never touch them.
   */
  lemma {:induction false} AcknowledgeAllEntry(acks: map<string, bool>, ids: seq<string>, id: string)
    requires id in acks
    ensures id in AcknowledgeAll(acks, ids)
    ensures AcknowledgeAll(acks, ids)[id] <==> acks[id] || id in ids
    decreases |ids|
  {
    if ids != [] {
      AcknowledgeAllEntry(Acknowledge(acks, ids[0]), ids[1..], id);
      assert id in ids <==> id == ids[0] || id in ids[1..];
    }
  }

  const AckedLabel := "ACKED"
  const PendingLabel := "PENDING"

  /** `get_acknowledgments`: the same ids, each labelled ACKED or PENDING. */
  function Report(acks: map<string, bool>): (r: map<string, string>)
    ensures r.Keys == acks.Keys
    ensures forall k :: k in acks ==> (r[k] == AckedLabel <==> acks[k])
    ensures forall k :: k in acks ==> (r[k] == PendingLabel <==> !acks[k])
  {
    map k | k in acks :: if acks[k] then AckedLabel else PendingLabel
  }
}
