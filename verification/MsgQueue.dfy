/** The linked queue the producer threads share (msgqueue.c). */
module MsgQueue {
  import opened Bytes

  class Node<T> {
    const msg: T
    var prev: Node?<T>    // the message pushed next, nearer to the back

    constructor (msg: T)
      ensures this.msg == msg && prev == null
    {
      this.msg, prev := msg, null;
    }
  }

  class Queue<T> {
    var front: Node?<T>
    var back: Node?<T>
    ghost var nodes: seq<Node<T>>
    ghost var repr: set<object>

    ghost predicate Valid()
      reads this, repr
      ensures Valid() ==> this in repr
    {
      && this in repr && (forall n | n in nodes :: n in repr)
      && (forall i, j | 0 <= i < j < |nodes| :: nodes[i] != nodes[j])
      && (forall i | 0 <= i < |nodes| - 1 :: nodes[i].prev == nodes[i + 1])
      && (if nodes == [] then front == null && back == null
          else front == nodes[0] && back == nodes[|nodes| - 1] && back.prev == null)
    }

    /** The messages from front to back. */
    ghost function Contents(): (s: seq<T>)
      reads this
      ensures |s| == |nodes| && forall i | 0 <= i < |s| :: s[i] == nodes[i].msg
    {
      var ns := nodes;
      seq(|ns|, i requires 0 <= i < |ns| => ns[i].msg)
    }

    constructor ()
      ensures Valid() && Contents() == [] && fresh(repr)
    {
      front, back, nodes, repr := null, null, [], {this};
    }

    /** msgqueue_push; malloc tells whether a node can be allocated. */
    method Push(msg: T, malloc: bool) returns (ok: bool)
      requires Valid()
      modifies repr
      ensures Valid() && fresh(repr - old(repr))
      ensures ok == malloc
      ensures Contents() == if ok then old(Contents()) + [msg] else old(Contents())
    {
      if !malloc {
        return false;
      }
      var message := new Node(msg);
      if back == null {
        front := message;
        back := message;
      } else {
        back.prev := message;
        back := message;
      }
      nodes, repr := nodes + [message], repr + {message};
      return true;
    }

    /** msgqueue_pop. */
    method Pop() returns (msg: Option<T>)
      requires Valid()
      modifies this
      ensures Valid() && repr == old(repr)
      ensures msg == if old(Contents()) == [] then None else Some(old(Contents())[0])
      ensures Contents() == if old(Contents()) == [] then [] else old(Contents())[1..]
    {
      if front == null {
        return None;
      }
      msg := Some(front.msg);
      assert |nodes| > 1 ==> nodes[0].prev == nodes[1];
      front := front.prev;
      if front == null {
        back := null;
      }
      nodes := nodes[1..];
    }

    /** msgqueue_empty. */
    method Empty() returns (empty: bool)
      requires Valid()
      ensures empty <==> Contents() == []
    {
      empty := front == null;
    }
  }
}
