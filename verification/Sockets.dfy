/**
 The little that is assumed of a message socket: frames travel in order, each with its MORE flag,
 and the flag of the last frame received can be asked for.
 */
module Sockets {
  import opened Bytes

  datatype Packet = Packet(data: bytes, more: bool)

  /** One multipart message on the wire: MORE on every frame but the last. */
  function Flagged(frames: seq<bytes>): (ps: seq<Packet>)
    ensures |ps| == |frames|
  {
    seq(|frames|, i requires 0 <= i < |frames| => Packet(frames[i], i < |frames| - 1))
  }

  /** Frames sent while a countdown of frames still to send runs from `left`: MORE until it reaches 0. */
  function Tagged(frames: seq<bytes>, left: nat): (ps: seq<Packet>)
    requires |frames| <= left
    ensures |ps| == |frames|
  {
    seq(|frames|, i requires 0 <= i < |frames| => Packet(frames[i], left - 1 - i > 0))
  }

  lemma TaggedSplit(a: seq<bytes>, b: seq<bytes>, left: nat)
    requires |a| + |b| <= left
    ensures Tagged(a + b, left) == Tagged(a, left) + Tagged(b, left - |a|)
  {
  }

  class Socket {
    var queue: seq<Packet>
    var rcvmore: bool

    constructor ()
      ensures queue == [] && !rcvmore
    {
      queue, rcvmore := [], false;
    }

    method Send(data: bytes, more: bool)
      modifies this`queue
      ensures queue == old(queue) + [Packet(data, more)]
    {
      queue := queue + [Packet(data, more)];
    }

    /** zmq_msg_recv, zframe_recv: the next frame. */
    method Recv() returns (data: bytes)
      requires queue != []
      modifies this
      ensures data == old(queue)[0].data && rcvmore == old(queue)[0].more && queue == old(queue)[1..]
    {
      data, rcvmore, queue := queue[0].data, queue[0].more, queue[1..];
    }

    /** zmsg_recv: every frame up to and including one without MORE. */
    method RecvAll(ghost frames: seq<bytes>, ghost later: seq<Packet>) returns (parts: seq<bytes>)
      requires frames != [] && queue == Flagged(frames) + later
      modifies this
      ensures parts == frames && !rcvmore && queue == later
    {
      parts := [];
      rcvmore := true;
      while rcvmore
        invariant |parts| <= |frames| && parts == frames[..|parts|]
        invariant queue == Flagged(frames)[|parts|..] + later
        invariant rcvmore == (|parts| < |frames|)
        decreases |frames| - |parts|
      {
        var data := Recv();
        parts := parts + [data];
      }
    }
  }
}
