/**
 One object sends, another receives: the round trip through the real buffers, frame countdown and
 socket, whatever either object held before.
 */
module Exchange {
  import opened Bytes
  import opened Wire
  import opened RoundTrip
  import opened CodecLaws
  import opened Sockets
  import opened Codec

  /** The sizing and writing passes agree to the octet exactly when no unset hash retains a size. */
  lemma {:induction false} SlackIsRetained(kinds: seq<Kind>, vals: seq<Value>, retained: seq<nat>)
    requires HoldsAll(kinds, vals) && |retained| == |kinds|
    ensures TotalSlack(kinds, vals, retained) == 0 <==>
      forall i :: 0 <= i < |kinds| && kinds[i].Hash? && vals[i].table.None? ==> retained[i] == 0
  {
    if kinds != [] {
      SlackIsRetained(kinds[1..], vals[1..], retained[1..]);
      if forall i ::
        0 <= i < |kinds[1..]| && kinds[1..][i].Hash? && vals[1..][i].table.None? ==> retained[1..][i] == 0
      {
        forall i | 0 < i < |kinds| && kinds[i].Hash? && vals[i].table.None? ensures retained[i] == 0 {
          assert kinds[1..][i - 1] == kinds[i] && vals[1..][i - 1] == vals[i] && retained[1..][i - 1] == retained[i];
        }
      }
      forall i | 0 <= i < |kinds[1..]| ensures kinds[1..][i] == kinds[i + 1] && vals[1..][i] == vals[i + 1]
                                              && retained[1..][i] == retained[i + 1] {}
    }
  }

  /** Send then receive: the receiver ends with the sender's message, unset fields normalised. */
  method SendAndReceive(sender: Object, receiver: Object, wire: Socket) returns (rc: int)
    requires sender != receiver && sender.cls == receiver.cls && sender.Valid() && receiver.Valid()
    requires sender.id in sender.cls.messages && FitsAll(sender.Kinds(), sender.Values())
    requires wire.queue == []
    modifies sender, receiver, wire
    ensures sender.Valid() && receiver.Valid()
    ensures rc == 0 && receiver.id == old(sender.id)
    ensures receiver.Values() == NormalAll(old(sender.Values()))
    ensures wire.queue == [] && sender.Values() == old(sender.Values())
  {
    hide PutFields, Wire.Recv, TotalSlack, NormalAll, FitsAll, HoldsAll, PartsOf, GetNumber, Class.Indexed,
      Schema.Valid, WellFormedAll;
    ghost var schema := sender.cls.ToSchema();
    ghost var m := Message(sender.id, sender.Values());
    ghost var first := sender.Send(wire);
    ghost var frames := [first] + PartsOf(sender.Kinds(), sender.Values());
    assert wire.queue == Flagged(frames) + [];
    ghost var tail := first[|FirstFrame(schema, m)|..];
    assert FirstFrame(schema, m) + tail == first;
    assert frames[1..] == OtherFrames(schema, m) + [];
    MessageRoundTrip(schema, m, receiver.Olds(), tail, []);
    ghost var exit;
    rc, exit := receiver.Recv(wire, frames, []);
    assert Flagged([]) + [] == [];
  }
}
