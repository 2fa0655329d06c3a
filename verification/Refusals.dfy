/**
 What the receiver refuses, and how: a wrong signature, an unknown message, a wrong fixed value, a missing
 frame; what unset fields are on the wire; what a failed receive leaves behind.
 */
module Refusals {
  import opened Options
  import opened Bytes
  import opened Wire
  import opened RoundTrip
  import opened CodecLaws

  // ---------------------------------------------------------------- the header

  /**
   A frame that is accepted starts with 0xAAA0 and the class's signature, and the id of one of its messages;
   one of two octets or more that starts otherwise, or has another id, is refused with -2.
   */
  lemma HeaderDecides(s: Schema, olds: map<nat, seq<Value>>, frame: bytes, parts: seq<bytes>)
    requires s.Valid() && Contents(s, olds)
    ensures var r := Recv(s, olds, frame, parts);
      && (r.exit.Done? ==>
            |frame| >= 3 && frame[0] as nat * 256 + frame[1] as nat == 0xAAA0 + s.signature
            && frame[2] as nat in s.messages && r.id == Some(frame[2] as nat))
      && (|frame| >= 2 && frame[0] as nat * 256 + frame[1] as nat != 0xAAA0 + s.signature ==> r.exit.Rc() == -2)
      && (|frame| >= 3 && frame[2] as nat !in s.messages ==> r.exit.Rc() == -2)
  {
    hide RecvFields, WellFormedAll, GetNumber;
    if |frame| >= 2 { TwoOctets(frame[..2]); }
    if |frame| >= 3 { OneOctet(frame[2..][..1]); }
  }

  // ---------------------------------------------------------------- fixed values

  predicate Constant(k: Kind) {
    (k.Number? && k.fixed.Some?) || (k.Str? && k.text.Some?)
  }

  /** Kinds of the same field but for its fixed value. */
  predicate OtherValue(k: Kind, k': Kind) {
    match (k, k')
    case (Number(size, Some(n)), Number(size', Some(n'))) => size == size' && n != n'
    case (Str(Some(t)), Str(Some(t'))) => t != t'
    case _ => false
  }

  /**
   On arbitrary octets a fixed number is read exactly when there are enough of them and they decode to that
   value; with enough octets and another value the field is refused with -2.
   */
  lemma FixedNumberExactly(size: nat, n: nat, input: bytes, parts: seq<bytes>)
    ensures var e := RecvField(Number(size, Some(n)), input, parts).exit;
      && (e.Done? <==> |input| >= size && GetNumber(input[..size]) == n)
      && (|input| >= size && GetNumber(input[..size]) != n ==> e.Rc() == -2)
      && (|input| < size ==> e == Truncated)
  {
    hide GetNumber;
  }

  /** A fixed string is read exactly when a whole string stands there, and it is that one up to its first NUL. */
  lemma FixedStringExactly(text: bytes, input: bytes, parts: seq<bytes>)
    ensures var e := RecvField(Str(Some(text)), input, parts).exit;
      var whole := |input| >= 1 && |input| - 1 >= GetNumber(input[..1]);
      && (e.Done? <==> whole && CStr(input[1..1 + GetNumber(input[..1])]) == text)
      && (whole && CStr(input[1..1 + GetNumber(input[..1])]) != text ==> e.Rc() == -2)
      && (!whole ==> e == Truncated)
  {
    hide GetNumber, CStr;
  }

  lemma OtherValueRejects(k: Kind, k': Kind, v: Value, tail: bytes, parts: seq<bytes>)
    requires WellFormed(k) && OtherValue(k, k') && Holds(k, v)
    ensures RecvField(k', PutField(k, v) + tail, parts).exit.Rejected?
  {
    hide GetNumber, CStr;
    if k.Number? {
      NumRoundTrip(k.fixed.value, k.size, tail);
      FixedNumberExactly(k'.size, k'.fixed.value, PutField(k, v) + tail, parts);
    } else {
      assert Radix(1) == 256;
      SizedRoundTrip(k.text.value, 1, tail);
      CStrOfNulFree(k.text.value);
    }
  }

  lemma {:induction false} WrongValueRejects(
      kinds: seq<Kind>, kinds': seq<Kind>, i: nat, vals: seq<Value>, olds: seq<Value>, tail: bytes, rest: seq<bytes>)
    requires WellFormedAll(kinds) && HoldsAll(kinds, vals) && FitsAll(kinds, vals) && |olds| == |kinds|
    requires Msg in kinds ==> rest == []
    requires |kinds'| == |kinds| && i < |kinds| && OtherValue(kinds[i], kinds'[i])
    requires forall j :: 0 <= j < i ==> kinds'[j] == kinds[j]
    ensures RecvFields(kinds', olds, PutFields(kinds, vals) + tail, PartsOf(kinds, vals) + rest).exit.Rejected?
    decreases i
  {
    hide RecvField, PutField, FieldParts, Holds, Fits, WellFormed, RecvFields, PutFields, PartsOf, OtherValue;
    var k, v := kinds[0], vals[0];
    var more := PutFields(kinds[1..], vals[1..]) + tail;
    var moreParts := PartsOf(kinds[1..], vals[1..]) + rest;
    RecvFieldsTurn(kinds', olds, PutFields(kinds, vals) + tail, PartsOf(kinds, vals) + rest);
    PutFieldsTurn(kinds, vals, tail);
    if i == 0 {
      OtherValueRejects(k, kinds'[0], v, more, PartsOf(kinds, vals) + rest);
    } else {
      PartsTurn(kinds, vals, rest);
      FieldRoundTrip(k, v, more, moreParts);
      assert (PutField(k, v) + more)[|PutField(k, v)|..] == more;
      assert Msg in kinds[1..] ==> Msg in kinds;
      WrongValueRejects(kinds[1..], kinds'[1..], i - 1, vals[1..], olds[1..], tail, rest);
    }
  }

  /**
   Two versions of a protocol that differ in one fixed number or string of a message: each refuses the
   other's message with -2, whatever its fields hold and whatever stands behind it.
   */
  lemma OtherVersionIsRefused(
      s: Schema, s': Schema, m: Message, i: nat, olds: map<nat, seq<Value>>, tail: bytes, rest: seq<bytes>)
    requires Sendable(s, m) && Conforms(s, m) && s'.Valid() && Contents(s', olds)
    requires s'.signature == s.signature && m.id in s'.messages
    requires |s'.messages[m.id]| == |s.messages[m.id]| && i < |s.messages[m.id]|
    requires OtherValue(s.messages[m.id][i], s'.messages[m.id][i])
    requires forall j :: 0 <= j < i ==> s'.messages[m.id][j] == s.messages[m.id][j]
    requires Msg in s.messages[m.id] ==> rest == []
    ensures Recv(s', olds, FirstFrame(s, m) + tail, OtherFrames(s, m) + rest).exit.Rc() == -2
  {
    hide Recv, RecvFields, PutFields, PartsOf, WellFormedAll, FitsAll, HoldsAll, OtherValue;
    var kinds := s.messages[m.id];
    var body := PutFields(kinds, m.values) + tail;
    assert s.Header(m.id) == s'.Header(m.id);
    assert FirstFrame(s, m) + tail == s'.Header(m.id) + body;
    HeaderReads(s', m.id, olds, body, OtherFrames(s, m) + rest);
    WrongValueRejects(kinds, s'.messages[m.id], i, m.values, olds[m.id], tail, rest);
  }

  /** The LOG message: its version is the second field. */
  function LogFields(version: nat): seq<Kind> {
    [Number(2, None), Number(2, Some(version)), Number(1, None), Number(1, None), Number(2, None), Number(2, None),
     Number(8, None), Str(None), LongStr]
  }

  /** A LOG message of any version but 3 is refused with -2 by a receiver for version 3. */
  lemma OtherLogVersionIsRefused(
      version: nat, vals: seq<Value>, olds: map<nat, seq<Value>>, tail: bytes, rest: seq<bytes>)
    requires version < 0x1_0000 && version != 3
    requires HoldsAll(LogFields(version), vals) && FitsAll(LogFields(version), vals)
    requires Contents(Schema(0, map[1 := LogFields(3)]), olds)
    ensures var s := Schema(0, map[1 := LogFields(version)]);
      && Sendable(s, Message(1, vals))
      && Recv(Schema(0, map[1 := LogFields(3)]), olds, FirstFrame(s, Message(1, vals)) + tail, rest).exit.Rc() == -2
  {
    hide Recv, HoldsAll, FitsAll, PutFields;
    var s, m := Schema(0, map[1 := LogFields(version)]), Message(1, vals);
    LogIsWellFormed(version);
    LogIsWellFormed(3);
    NoLogFrames(version, vals);
    assert [] + rest == rest;
    OtherVersionIsRefused(s, Schema(0, map[1 := LogFields(3)]), m, 1, olds, tail, rest);
  }

  lemma LogIsWellFormed(version: nat)
    requires version < 0x1_0000
    ensures WellFormedAll(LogFields(version)) && Msg !in LogFields(version)
  {
    assert Radix(2) == 0x1_0000;
  }

  lemma {:induction false} NoFrames(kinds: seq<Kind>, vals: seq<Value>)
    requires HoldsAll(kinds, vals) && forall i :: 0 <= i < |kinds| ==> !kinds[i].Frame? && !kinds[i].Msg?
    ensures PartsOf(kinds, vals) == []
  {
    hide Holds;
    if kinds != [] {
      DataPart(kinds, vals);
      NoFrames(kinds[1..], vals[1..]);
    }
  }

  lemma NoLogFrames(version: nat, vals: seq<Value>)
    requires HoldsAll(LogFields(version), vals)
    ensures PartsOf(LogFields(version), vals) == []
  {
    NoFrames(LogFields(version), vals);
  }

  // ---------------------------------------------------------------- missing frames

  /** How many frame fields there are. */
  function FrameFields(kinds: seq<Kind>): nat {
    if kinds == [] then 0 else (if kinds[0].Frame? then 1 else 0) + FrameFields(kinds[1..])
  }

  lemma FramesBounded(kinds: seq<Kind>, vals: seq<Value>)
    requires HoldsAll(kinds, vals)
    ensures FrameFields(kinds) <= |PartsOf(kinds, vals)|
  {
    hide Holds;
  }

  /** With fewer frames behind the first than frame fields, the message is refused with -2. */
  lemma {:induction false} MissingFrameRejects(
      kinds: seq<Kind>, vals: seq<Value>, olds: seq<Value>, tail: bytes, parts: seq<bytes>)
    requires WellFormedAll(kinds) && HoldsAll(kinds, vals) && FitsAll(kinds, vals) && |olds| == |kinds|
    requires |parts| < FrameFields(kinds)
    ensures RecvFields(kinds, olds, PutFields(kinds, vals) + tail, parts).exit.Rejected?
    decreases |kinds|
  {
    hide RecvField, PutField, Holds, Fits, WellFormed, RecvFields, PutFields;
    RecvFieldsTurn(kinds, olds, PutFields(kinds, vals) + tail, parts);
    if kinds != [] {
      var k, v := kinds[0], vals[0];
      var more := PutFields(kinds[1..], vals[1..]) + tail;
      PutFieldsTurn(kinds, vals, tail);
      assert (PutField(k, v) + more)[|PutField(k, v)|..] == more;
      if k.Frame? {
        FrameTakes(v, more, parts);
        if parts != [] { MissingFrameRejects(kinds[1..], vals[1..], olds[1..], tail, parts[1..]); }
      } else {
        if k.Msg? { MsgIsLast(kinds); }
        DataTakes(k, v, more, parts);
        MissingFrameRejects(kinds[1..], vals[1..], olds[1..], tail, parts);
      }
    }
  }

  lemma FrameTakes(v: Value, more: bytes, parts: seq<bytes>)
    requires Holds(Frame, v)
    ensures var s := RecvField(Frame, PutField(Frame, v) + more, parts);
      && PutField(Frame, v) == [] && s.used == 0
      && (parts == [] ==> s.exit.Rejected?) && (parts != [] ==> s.exit.Done? && s.parts == parts[1..])
  {
  }

  lemma MsgIsLast(kinds: seq<Kind>)
    requires WellFormedAll(kinds) && kinds != [] && kinds[0].Msg?
    ensures FrameFields(kinds) == 0
  {
    hide WellFormed;
    assert |kinds| == 1 && kinds[1..] == [];
  }

  lemma DataTakes(k: Kind, v: Value, more: bytes, parts: seq<bytes>)
    requires WellFormed(k) && Holds(k, v) && Fits(k, v) && !k.Frame? && !k.Msg?
    ensures var s := RecvField(k, PutField(k, v) + more, parts);
      s.exit.Done? && s.used == |PutField(k, v)| && s.parts == parts
  {
    hide RecvField, PutField, Holds, Fits, WellFormed;
    FieldRoundTrip(k, v, more, parts);
    NoParts(k, v);
    assert [] + parts == parts;
  }

  lemma NoParts(k: Kind, v: Value)
    requires Holds(k, v) && !k.Frame? && !k.Msg?
    ensures FieldParts(k, v) == []
  {
  }

  lemma MissingFrameIsRefused(s: Schema, m: Message, olds: map<nat, seq<Value>>, tail: bytes, parts: seq<bytes>)
    requires Sendable(s, m) && Conforms(s, m) && Contents(s, olds)
    requires |parts| < FrameFields(s.messages[m.id])
    ensures Recv(s, olds, FirstFrame(s, m) + tail, parts).exit.Rc() == -2
  {
    hide Recv, RecvFields, PutFields, WellFormedAll, FitsAll, HoldsAll, FrameFields;
    var body := PutFields(s.messages[m.id], m.values) + tail;
    assert FirstFrame(s, m) + tail == s.Header(m.id) + body;
    HeaderReads(s, m.id, olds, body, parts);
    MissingFrameRejects(s.messages[m.id], m.values, olds[m.id], tail, parts);
  }

  // ---------------------------------------------------------------- unset fields, and what they become

  predicate Empty(k: Kind, v: Value)
    requires Holds(k, v)
  {
    match v
    case Long(None) => true
    case List(None) => true
    case Table(None) => true
    case Blob(None) => true
    case Id(None) => true
    case _ => false
  }

  /** What the receiver holds for a field its sender had not set; every other value arrives as it was. */
  lemma NormalMeans(k: Kind, v: Value)
    requires Holds(k, v)
    ensures k.LongStr? && v.long.None? ==> Normal(v) == Long(Some([]))
    ensures k.Strings? && v.list.None? ==> Normal(v) == List(Some([]))
    ensures k.Hash? && v.table.None? ==> Normal(v) == Table(Some([]))
    ensures k.Chunk? && v.blob.None? ==> Normal(v) == Blob(Some([]))
    ensures k.Uuid? && v.uuid.None? ==> Normal(v) == Id(Some(seq(16, _ => 0 as byte)))
    ensures k.Frame? && v.part.None? ==> Normal(v) == Part(Some([]))
    ensures k.Msg? && v.parts.None? ==> Normal(v) == Parts(Some([[]]))
    ensures !Empty(k, v) && !(k.Frame? && v.part.None?) && !(k.Msg? && v.parts.None?) ==> Normal(v) == v
  {
    hide Octet;
    ZeroNumber(16);
  }

  // ---------------------------------------------------------------- what a failed receive leaves

  /**
   A receive that fails at field k: the fields before it hold what was read for them, those behind it what
   they held before, and it is field k's reader that failed.
   */
  lemma {:induction false} FailureLeaves(kinds: seq<Kind>, olds: seq<Value>, input: bytes, parts: seq<bytes>)
      returns (k: nat)
    requires |olds| == |kinds| && !RecvFields(kinds, olds, input, parts).exit.Done?
    ensures k < |kinds|
    ensures var o := RecvFields(kinds, olds, input, parts);
      var before := RecvFields(kinds[..k], olds[..k], input, parts);
      && before.exit.Done? && o.values[..k] == before.values && o.values[k + 1..] == olds[k + 1..]
      && var s := RecvField(kinds[k], input[before.used..], before.parts);
      && o.exit == s.exit && o.values[k] == s.update.GetOr(olds[k])
    decreases |kinds|
  {
    hide RecvField, RecvFields;
    RecvFieldsTurn(kinds, olds, input, parts);
    if kinds == [] { return; }
    var s := RecvField(kinds[0], input, parts);
    if !s.exit.Done? {
      k := 0;
      RecvFieldsTurn([], [], input, parts);
      assert kinds[..0] == [] && olds[..0] == [];
    } else {
      var j := FailureLeaves(kinds[1..], olds[1..], input[s.used..], s.parts);
      k := j + 1;
      RecvFieldsTurn(kinds[..k], olds[..k], input, parts);
      assert kinds[..k][1..] == kinds[1..][..j] && olds[..k][1..] == olds[1..][..j];
      var inner := RecvFields(kinds[1..][..j], olds[1..][..j], input[s.used..], s.parts);
      assert input[s.used..][inner.used..] == input[s.used + inner.used..];
    }
  }

  /** A list cut short is left holding the strings read so far. */
  lemma {:induction false} FailedListHoldsPrefix(count: nat, input: bytes) returns (j: nat)
    requires !GetList(count, input).exit.Done?
    ensures j < count
    ensures GetList(j, input).exit.Done? && GetList(j, input).value == GetList(count, input).value
  {
    hide GetSized, CStr, GetList;
    ListTurn(count, input);
    ListTurn(0, input);
    if count == 0 { return; }
    var s := GetSized(input, 4);
    if !s.exit.Done? {
      j := 0;
    } else {
      j := FailedListHoldsPrefix(count - 1, input[s.used..]);
      j := j + 1;
      ListTurn(j, input);
    }
  }

  /** And a hash the pairs. */
  lemma {:induction false} FailedTableHoldsPrefix(count: nat, input: bytes) returns (j: nat)
    requires !GetPairs(count, input).exit.Done?
    ensures j < count
    ensures GetPairs(j, input).exit.Done? && GetPairs(j, input).value == GetPairs(count, input).value
  {
    hide GetPair, GetPairs;
    PairsTurn(count, input);
    PairsTurn(0, input);
    if count == 0 { return; }
    var p := GetPair(input);
    if !p.exit.Done? {
      j := 0;
    } else {
      j := FailedTableHoldsPrefix(count - 1, input[p.used..]);
      j := j + 1;
      PairsTurn(j, input);
    }
  }

  /** The object field: a new list or table once the count has been read, before that nothing. */
  lemma FailedCollection(k: Kind, input: bytes, parts: seq<bytes>)
    requires (k.Strings? || k.Hash?) && !RecvField(k, input, parts).exit.Done?
    ensures var u := RecvField(k, input, parts).update;
      && (u.None? <==> |input| < 4)
      && (|input| >= 4 && k.Strings? ==> u == Some(List(Some(GetList(GetNumber(input[..4]), input[4..]).value))))
      && (|input| >= 4 && k.Hash? ==>
            u == Some(Table(Some(InsertAll(GetPairs(GetNumber(input[..4]), input[4..]).value)))))
  {
    hide GetNumber, GetList, GetPairs, InsertAll;
  }

  /** Any other field is left alone by a failed read; a fixed value never is held. */
  lemma FailedFieldIsKept(k: Kind, input: bytes, parts: seq<bytes>)
    requires !k.Strings? && !k.Hash? && !RecvField(k, input, parts).exit.Done?
    ensures RecvField(k, input, parts).update in {None, Some(Fixed)}
    ensures RecvField(k, input, parts).update == Some(Fixed) ==> Constant(k)
  {
    hide GetNumber, GetSized, CStr;
  }
}
