/**
 The protocol-level laws: for every schema, every message and every received frame.
 */
module CodecLaws {
  import opened Options
  import opened Bytes
  import opened Wire
  import opened RoundTrip
  import opened Reading

  // ---------------------------------------------------------------- round trip

  lemma HeaderReads(s: Schema, id: nat, olds: map<nat, seq<Value>>, body: bytes, parts: seq<bytes>)
    requires s.Valid() && id in s.messages && Contents(s, olds)
    ensures var o := RecvFields(s.messages[id], olds[id], body, parts);
      Recv(s, olds, s.Header(id) + body, parts) == Received(o.exit, Some(id), o.values, 3 + o.used, o.parts)
  {
    hide RecvFields, WellFormedAll;
    var tail := PutNumber(id, 1) + body;
    assert s.Header(id) + body == PutNumber(s.Magic(), 2) + tail;
    assert Radix(2) == 65536 && Radix(1) == 256;
    NumRoundTrip(s.Magic(), 2, tail);
    NumRoundTrip(id, 1, body);
    assert (s.Header(id) + body)[2..] == tail;
    assert (s.Header(id) + body)[3..] == body;
  }

  /** Decoding an encoding followed by anything yields the normalised message and stops at its end. */
  lemma MessageRoundTrip(s: Schema, m: Message, olds: map<nat, seq<Value>>, tail: bytes, rest: seq<bytes>)
    requires Sendable(s, m) && Conforms(s, m) && Contents(s, olds)
    requires Msg in s.messages[m.id] ==> rest == []
    ensures Recv(s, olds, FirstFrame(s, m) + tail, OtherFrames(s, m) + rest)
         == Received(Done, Some(m.id), NormalAll(m.values), |FirstFrame(s, m)|, rest)
  {
    hide Recv, RecvFields, PutFields, PartsOf, WellFormedAll, FitsAll, HoldsAll;
    var kinds := s.messages[m.id];
    var body := PutFields(kinds, m.values) + tail;
    assert FirstFrame(s, m) + tail == s.Header(m.id) + body;
    HeaderReads(s, m.id, olds, body, OtherFrames(s, m) + rest);
    FieldsRoundTrip(kinds, m.values, olds[m.id], tail, rest);
  }

  lemma FitsNormal(k: Kind, v: Value)
    requires Holds(k, v) && Holds(k, Normal(v)) && Fits(k, Normal(v))
    ensures Fits(k, v)
  {
  }

  /** The limits on lengths and counts are exactly what a round trip needs. */
  lemma RoundTripExactly(s: Schema, m: Message, olds: map<nat, seq<Value>>)
    requires Sendable(s, m) && Contents(s, olds)
    ensures Conforms(s, m) <==>
      var r := Recv(s, olds, FirstFrame(s, m), OtherFrames(s, m));
      r.exit.Done? && r.id == Some(m.id) && r.values == NormalAll(m.values)
  {
    hide RecvFields, PutFields, PartsOf, NormalAll, GetNumber, WellFormed;
    var frame, parts := FirstFrame(s, m), OtherFrames(s, m);
    var kinds := s.messages[m.id];
    if Conforms(s, m) {
      assert frame + [] == frame && parts + [] == parts;
      MessageRoundTrip(s, m, olds, [], []);
    }
    var r := Recv(s, olds, frame, parts);
    if r.exit.Done? && r.id == Some(m.id) && r.values == NormalAll(m.values) {
      FieldsRead(kinds, olds[m.id], frame[3..], parts);
      forall i | 0 <= i < |kinds| ensures Fits(kinds[i], m.values[i]) {
        assert NormalAll(m.values)[i] == Normal(m.values[i]);
        FitsNormal(kinds[i], m.values[i]);
      }
    }
  }

  /** A message with octets, a chunk, a uuid, a frame and a msg field, behind its sequence number. */
  const BINARY: seq<Kind> := [Number(2, None), Octets(4), Chunk, Uuid, Frame, Msg]

  /**
   Its frames are the first, the address (empty if unset) and those of the content (one empty frame if
   unset); receiving them restores the address and the content.
   */
  lemma MultipartIsExact(s: Schema, m: Message, olds: map<nat, seq<Value>>, tail: bytes)
    requires Sendable(s, m) && Conforms(s, m) && Contents(s, olds) && s.messages[m.id] == BINARY
    ensures Holds(Frame, m.values[4]) && Holds(Msg, m.values[5])
    ensures var address, content := m.values[4].part.GetOr([]), m.values[5].parts.GetOr([[]]);
      var r := Recv(s, olds, FirstFrame(s, m) + tail, OtherFrames(s, m));
      && OtherFrames(s, m) == [address] + content
      && r.exit.Done? && r.parts == [] && |r.values| == 6
      && r.values[4] == Part(Some(address)) && r.values[5] == Parts(Some(content))
  {
    hide Recv, PutFields, PartsOf, FieldParts, WellFormedAll, FitsAll, Schema.Header;
    assert Holds(BINARY[4], m.values[4]) && Holds(BINARY[5], m.values[5]);
    assert OtherFrames(s, m) + [] == OtherFrames(s, m);
    MessageRoundTrip(s, m, olds, tail, []);
    BinaryParts(m.values);
  }

  lemma BinaryParts(vals: seq<Value>)
    requires HoldsAll(BINARY, vals)
    ensures Holds(Frame, vals[4]) && Holds(Msg, vals[5])
    ensures PartsOf(BINARY, vals) == [vals[4].part.GetOr([])] + vals[5].parts.GetOr([[]])
  {
    hide Holds;
    DataPart(BINARY, vals);
    DataPart(BINARY[1..], vals[1..]);
    DataPart(BINARY[2..], vals[2..]);
    DataPart(BINARY[3..], vals[3..]);
    assert BINARY[1..][1..] == BINARY[2..] && vals[1..][1..] == vals[2..];
    assert BINARY[2..][1..] == BINARY[3..] && vals[2..][1..] == vals[3..];
    assert BINARY[3..][1..] == BINARY[4..] && vals[3..][1..] == vals[4..];
    assert Holds(BINARY[4], vals[4]) && Holds(BINARY[5], vals[5]);
    FrameThenMsg(vals[4..]);
    assert BINARY[4..] == [Frame, Msg];
  }

  /** A field that travels in the first frame adds no frame. */
  lemma DataPart(kinds: seq<Kind>, vals: seq<Value>)
    requires HoldsAll(kinds, vals) && kinds != [] && !kinds[0].Frame? && !kinds[0].Msg?
    ensures HoldsAll(kinds[1..], vals[1..])
    ensures PartsOf(kinds, vals) == PartsOf(kinds[1..], vals[1..])
  {
    hide Holds;
  }

  lemma FrameThenMsg(vals: seq<Value>)
    requires HoldsAll([Frame, Msg], vals)
    ensures Holds(Frame, vals[0]) && Holds(Msg, vals[1])
    ensures PartsOf([Frame, Msg], vals) == [vals[0].part.GetOr([])] + vals[1].parts.GetOr([[]])
  {
    var kinds := [Frame, Msg];
    assert Holds(kinds[0], vals[0]) && Holds(kinds[1], vals[1]);
    assert kinds[1..] == [Msg] && vals[1..] == [vals[1]] && [Msg][1..] == [] && [vals[1]][1..] == [];
    var content := FieldParts(Msg, vals[1]);
    assert PartsOf([Msg], [vals[1]]) == content + PartsOf([], []);
    assert PartsOf([Msg], [vals[1]]) == content;
  }

  // ---------------------------------------------------------------- prefixes and extensions

  /** Octets behind a frame the decoder accepts never change what it decodes. */
  lemma Extends(s: Schema, olds: map<nat, seq<Value>>, frame: bytes, parts: seq<bytes>, more: bytes)
    requires s.Valid() && Contents(s, olds)
    requires Recv(s, olds, frame, parts).exit.Done?
    ensures Recv(s, olds, frame + more, parts) == Recv(s, olds, frame, parts)
  {
    hide RecvFields, GetNumber, WellFormedAll;
    var id := GetNum(frame[2..], 1).value;
    assert (frame + more)[..2] == frame[..2];
    assert (frame + more)[2..][..1] == frame[2..][..1];
    SuffixExtends(frame, more, 3);
    RecvFieldsExtends(s.messages[id], olds[id], frame[3..], parts, more);
  }

  /**
   Previous contents never matter: two objects, whatever they hold, take the same exit on a frame, read the
   same octets and frames, and hold the same message if it is accepted.
   */
  lemma ReceiveForgets(
      s: Schema, olds: map<nat, seq<Value>>, olds': map<nat, seq<Value>>, frame: bytes, parts: seq<bytes>)
    requires s.Valid() && Contents(s, olds) && Contents(s, olds')
    ensures var r, r' := Recv(s, olds, frame, parts), Recv(s, olds', frame, parts);
      && r.exit == r'.exit && r.id == r'.id && r.used == r'.used && r.parts == r'.parts
      && (r.exit.Done? ==> r == r')
  {
    hide RecvFields, GetNumber, WellFormedAll;
    var sig, id := GetNum(frame, 2), GetNum(if |frame| < 2 then [] else frame[2..], 1);
    if sig.exit.Done? && sig.value == s.Magic() && id.exit.Done? && id.value in s.messages {
      var kinds := s.messages[id.value];
      RecvFieldsForgets(kinds, olds[id.value], olds'[id.value], frame[3..], parts);
    }
  }

  lemma {:induction false} UsedIgnoresFrames(
      kinds: seq<Kind>, olds: seq<Value>, input: bytes, parts: seq<bytes>, parts': seq<bytes>)
    requires |olds| == |kinds|
    requires RecvFields(kinds, olds, input, parts).exit.Done?
    requires RecvFields(kinds, olds, input, parts').exit.Done?
    ensures RecvFields(kinds, olds, input, parts).used == RecvFields(kinds, olds, input, parts').used
  {
    hide GetNum, GetSized, GetList, GetPairs, GetNumber, CStr, InsertAll, Radix, RecvFields;
    RecvFieldsTurn(kinds, olds, input, parts);
    RecvFieldsTurn(kinds, olds, input, parts');
    if kinds != [] {
      var s, s' := RecvField(kinds[0], input, parts), RecvField(kinds[0], input, parts');
      UsedIgnoresFrames(kinds[1..], olds[1..], input[s.used..], s.parts, s'.parts);
    }
  }

  /** No encoding is a proper prefix of another; equal encodings are the same message. */
  lemma PrefixFree(s: Schema, m: Message, m': Message, olds: map<nat, seq<Value>>)
    requires Sendable(s, m) && Conforms(s, m) && Sendable(s, m') && Conforms(s, m') && Contents(s, olds)
    requires FirstFrame(s, m) <= FirstFrame(s, m')
    ensures FirstFrame(s, m) == FirstFrame(s, m') && m.id == m'.id
    ensures OtherFrames(s, m) == OtherFrames(s, m') ==> NormalAll(m.values) == NormalAll(m'.values)
  {
    hide FirstFrame, OtherFrames, Conforms, RecvFields, GetNumber;
    var frame, frame' := FirstFrame(s, m), FirstFrame(s, m');
    var parts, parts' := OtherFrames(s, m), OtherFrames(s, m');
    var tail := frame'[|frame|..];
    assert frame + tail == frame' && frame' + [] == frame' && parts + [] == parts && parts' + [] == parts';
    MessageRoundTrip(s, m, olds, tail, []);
    MessageRoundTrip(s, m', olds, [], []);
    UsedIgnoresFrames(s.messages[m.id], olds[m.id], frame'[3..], parts, parts');
  }

  // ---------------------------------------------------------------- receive, then send again

  /** The same field, a hash possibly visited in another order. */
  predicate SameValue(v: Value, w: Value) {
    v == w || (v.Table? && w.Table? && v.table.Some? && w.table.Some?
               && multiset(v.table.value) == multiset(w.table.value) && DistinctKeys(w.table.value))
  }

  predicate SameValues(vs: seq<Value>, ws: seq<Value>) {
    |vs| == |ws| && forall i :: 0 <= i < |vs| ==> SameValue(vs[i], ws[i])
  }

  lemma {:induction false} PutTableRemove(t: seq<Pair>, i: nat)
    requires i < |t|
    ensures |PutTable(t)| == |PutPair(t[i])| + |PutTable(t[..i] + t[i + 1..])|
  {
    hide PutPair;
    if i == 0 {
      assert t[..0] + t[1..] == t[1..];
    } else {
      var u := t[..i] + t[i + 1..];
      assert u[1..] == t[1..][..i - 1] + t[1..][i..];
      PutTableRemove(t[1..], i - 1);
    }
  }

  lemma RemoveOne<T>(u: seq<T>, i: nat)
    requires i < |u|
    ensures multiset(u[..i] + u[i + 1..]) == multiset(u) - multiset{u[i]}
  {
    assert u == u[..i] + ([u[i]] + u[i + 1..]);
  }

  lemma SameFirst<T>(t: seq<T>, u: seq<T>) returns (i: nat)
    requires t != [] && multiset(t) == multiset(u)
    ensures i < |u| && u[i] == t[0] && multiset(t[1..]) == multiset(u[..i] + u[i + 1..])
  {
    assert t[0] in multiset(t);
    i :| 0 <= i < |u| && u[i] == t[0];
    RemoveOne(t, 0);
    assert t[..0] + t[1..] == t[1..];
    RemoveOne(u, i);
  }

  lemma {:induction false} PutTableSize(t: seq<Pair>, u: seq<Pair>)
    requires multiset(t) == multiset(u)
    ensures |t| == |u| && |PutTable(t)| == |PutTable(u)|
  {
    hide PutPair;
    assert |multiset(t)| == |t| && |multiset(u)| == |u|;
    if t != [] {
      var i := SameFirst(t, u);
      PutTableSize(t[1..], u[..i] + u[i + 1..]);
      PutTableRemove(u, i);
    }
  }

  lemma ReorderedField(k: Kind, v: Value, w: Value)
    requires WellFormed(k) && Resendable(k, v) && SameValue(v, w)
    ensures Resendable(k, w) && |PutField(k, w)| == |PutField(k, v)| && FieldParts(k, w) == FieldParts(k, v)
  {
    if v != w {
      var t, u := v.table.value, w.table.value;
      hide PutTable, DistinctKeys, Pair.NulFree, Pair.Fits;
      PutTableSize(t, u);
      forall i | 0 <= i < |u| ensures u[i].NulFree() && u[i].Fits() {
        assert u[i] in multiset(t);
      }
    }
  }

  lemma {:induction false} ReorderedFields(kinds: seq<Kind>, vs: seq<Value>, ws: seq<Value>)
    requires WellFormedAll(kinds) && HoldsAll(kinds, vs) && FitsAll(kinds, vs) && NormalAll(vs) == vs
    requires SameValues(vs, ws)
    ensures HoldsAll(kinds, ws) && FitsAll(kinds, ws) && NormalAll(ws) == ws
    ensures |PutFields(kinds, ws)| == |PutFields(kinds, vs)| && PartsOf(kinds, ws) == PartsOf(kinds, vs)
  {
    hide PutField, FieldParts, Holds, Fits, WellFormed, Normal, SameValue;
    if kinds != [] {
      assert NormalAll(vs)[0] == vs[0];
      assert Resendable(kinds[0], vs[0]);
      ReorderedField(kinds[0], vs[0], ws[0]);
      assert NormalAll(vs[1..]) == vs[1..] by {
        forall i | 0 <= i < |vs[1..]| ensures NormalAll(vs[1..])[i] == vs[1..][i] {
          assert NormalAll(vs)[i + 1] == vs[i + 1];
        }
      }
      ReorderedFields(kinds[1..], vs[1..], ws[1..]);
      assert NormalAll(ws) == [Normal(ws[0])] + NormalAll(ws[1..]);
    }
  }

  /**
   On every frame the receiver accepts - embedded NULs, duplicate keys and trailing octets included -
   sending the result again, whatever order its hashes are visited in, takes no more octets than were
   read, carries the same further frames, and is received as exactly the message sent.
   */
  lemma ReceiveNormalises(
      s: Schema, olds: map<nat, seq<Value>>, frame: bytes, parts: seq<bytes>, again: seq<Value>, tail: bytes)
    requires s.Valid() && Contents(s, olds)
    requires Recv(s, olds, frame, parts).exit.Done?
    requires SameValues(Recv(s, olds, frame, parts).values, again)
    ensures var r := Recv(s, olds, frame, parts);
      && r.id.Some?
      && var m := Message(r.id.value, again);
      && Sendable(s, m) && Conforms(s, m)
      && |FirstFrame(s, m)| <= r.used <= |frame|
      && OtherFrames(s, m) + r.parts == parts
      && Recv(s, olds, FirstFrame(s, m) + tail, OtherFrames(s, m) + r.parts)
         == Received(Done, r.id, again, |FirstFrame(s, m)|, r.parts)
  {
    hide RecvFields, PutFields, PartsOf, GetNumber, WellFormed, Holds, Fits, NormalAll, SameValue;
    var r := Recv(s, olds, frame, parts);
    var id := r.id.value;
    var kinds := s.messages[id];
    FieldsRead(kinds, olds[id], frame[3..], parts);
    ReorderedFields(kinds, r.values, again);
    MsgTakesAll(kinds, olds[id], frame[3..], parts);
    MessageRoundTrip(s, Message(id, again), olds, tail, r.parts);
  }

  lemma {:induction false} MsgTakesAll(kinds: seq<Kind>, olds: seq<Value>, input: bytes, parts: seq<bytes>)
    requires |olds| == |kinds| && WellFormedAll(kinds)
    requires RecvFields(kinds, olds, input, parts).exit.Done?
    ensures Msg in kinds ==> RecvFields(kinds, olds, input, parts).parts == []
  {
    hide GetNum, GetSized, GetList, GetPairs, GetNumber, CStr, InsertAll, Radix, RecvFields, WellFormed;
    RecvFieldsTurn(kinds, olds, input, parts);
    if kinds != [] {
      var s := RecvField(kinds[0], input, parts);
      MsgTakesAll(kinds[1..], olds[1..], input[s.used..], s.parts);
      RecvFieldsTurn(kinds[1..], olds[1..], input[s.used..], s.parts);
    }
  }

  // ---------------------------------------------------------------- bounded work

  /** Whatever count a frame claims, the list loop takes at most a quarter of the octets left, plus one. */
  lemma {:induction false} ListWorkIsLinear(count: nat, input: bytes)
    ensures ListTurns(count, input) <= |input| / 4 + 1 && ListTurns(count, input) <= count
  {
    if count > 0 {
      var s := GetSized(input, 4);
      if s.exit.Done? { ListWorkIsLinear(count - 1, input[s.used..]); }
    }
  }

  lemma {:induction false} PairWorkIsLinear(count: nat, input: bytes)
    ensures PairTurns(count, input) <= |input| / 5 + 1 && PairTurns(count, input) <= count
  {
    hide CStr, GetNumber;
    if count > 0 {
      var p := GetPair(input);
      if p.exit.Done? {
        assert p.used >= 5;
        PairWorkIsLinear(count - 1, input[p.used..]);
      }
    }
  }

  /** A turn for each string or pair read, and one for the failure. */
  lemma {:induction false} TurnsAreReads(count: nat, input: bytes)
    ensures ListTurns(count, input)
         == |GetList(count, input).value| + (if GetList(count, input).exit.Done? then 0 else 1)
    ensures PairTurns(count, input)
         == |GetPairs(count, input).value| + (if GetPairs(count, input).exit.Done? then 0 else 1)
  {
    hide GetSized, GetPair, CStr;
    if count > 0 {
      var s, p := GetSized(input, 4), GetPair(input);
      if s.exit.Done? { TurnsAreReads(count - 1, input[s.used..]); }
      if p.exit.Done? { TurnsAreReads(count - 1, input[p.used..]); }
    }
  }
}
