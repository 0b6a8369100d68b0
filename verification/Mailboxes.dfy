/** `basic_mailbox`: one queue per (peer, name), made on first use, and the mailbox half of
    the message handler. */
module Mailboxes {

  datatype Key = Key(peer: nat, name: string)

  class Box<T> {
    const cap: nat
    var items: seq<T>

    constructor (cap: nat)
      ensures items == [] && this.cap == cap
    {
      this.cap, items := cap, [];
    }
  }

  const BOX_CAPACITY: nat := 1

  class Mailbox<T> {
    var boxes: map<Key, Box<T>>

    ghost predicate Valid()
      reads this
    {
      && (forall k :: k in boxes ==> boxes[k].cap == BOX_CAPACITY)
      && forall j, k :: j in boxes && k in boxes && j != k ==> boxes[j] != boxes[k]
    }

    constructor ()
      ensures Valid() && boxes == map[]
    {
      boxes := map[];
    }

    /** What waits under a key, whether or not it was ever used. */
    function Items(k: Key): seq<T>
      reads this, boxes.Values
    {
      if k in boxes then boxes[k].items else []
    }

    /** The same queue for the same key every time, and another for every other key. */
    method Require(k: Key) returns (q: Box<T>)
      requires Valid()
      modifies this
      ensures Valid() && boxes.Keys == old(boxes).Keys + {k} && boxes[k] == q
      ensures k !in old(boxes) ==> fresh(q)
      ensures forall j :: j in old(boxes) ==> boxes[j] == old(boxes)[j]
      ensures forall j :: Items(j) == old(Items(j))
    {
      if k in boxes {
        return boxes[k];
      }
      q := new Box(BOX_CAPACITY);
      boxes := boxes[k := q];
    }

    /** The handler's `put` of one body, once the queue has room. */
    method Deliver(k: Key, body: T)
      requires Valid() && |Items(k)| < BOX_CAPACITY
      modifies this, boxes.Values
      ensures Valid() && forall j :: Items(j) == old(Items(j)) + if j == k then [body] else []
    {
      var q := Require(k);
      q.items := q.items + [body];
    }

    /** The protocol's `get`, once something is there: the oldest body under that key. */
    method Receive(k: Key) returns (body: T)
      requires Valid() && Items(k) != []
      modifies this, boxes.Values
      ensures Valid() && body == old(Items(k))[0]
      ensures forall j :: Items(j) == if j == k then old(Items(j))[1..] else old(Items(j))
    {
      var q := Require(k);
      body := q.items[0];
      q.items := q.items[1..];
    }
  }
}
