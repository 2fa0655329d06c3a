/**
 Truncated frames: the exit a cut frame takes and the return code it gives, for every accepted frame and
 every place of the cut.
 */
module Truncation {
  import opened Options
  import opened Bytes
  import opened Wire
  import opened RoundTrip
  import opened Reading
  import opened CodecLaws

  /**
   The octets read as these fields, cut after n of them, end inside a uuid, or inside a chunk behind its
   length: the readers that set -2 themselves. Every other reader leaves a cut field through a GET macro.
   */
  predicate CutRejects(kinds: seq<Kind>, input: bytes, parts: seq<bytes>, n: nat) {
    kinds != [] &&
    var s := RecvField(kinds[0], input, parts);
    if n < s.used then kinds[0].Uuid? || (kinds[0].Chunk? && n >= 4)
    else CutRejects(kinds[1..], input[s.used..], s.parts, n - s.used)
  }

  lemma CutRejectsTurn(kinds: seq<Kind>, input: bytes, parts: seq<bytes>, n: nat)
    ensures CutRejects(kinds, input, parts, n) ==
      (kinds != [] &&
       var s := RecvField(kinds[0], input, parts);
       if n < s.used then kinds[0].Uuid? || (kinds[0].Chunk? && n >= 4)
       else CutRejects(kinds[1..], input[s.used..], s.parts, n - s.used))
  {
    hide RecvField;
  }

  /** A field that was read in full is not read from a strict prefix of its octets. */
  lemma CutIsNotDone(k: Kind, input: bytes, parts: seq<bytes>, n: nat)
    requires RecvField(k, input, parts).exit.Done? && n < RecvField(k, input, parts).used
    ensures !RecvField(k, input[..n], parts).exit.Done?
  {
    hide RecvField;
    assert input[..n] + input[n..] == input;
    if RecvField(k, input[..n], parts).exit.Done? {
      RecvFieldExtends(k, input[..n], parts, input[n..]);
    }
  }

  /** Which exit it takes, for the fields that are not a list or a hash. */
  lemma CutPlain(k: Kind, input: bytes, parts: seq<bytes>, n: nat)
    requires RecvField(k, input, parts).exit.Done? && n < RecvField(k, input, parts).used
    requires !k.Strings? && !k.Hash? && !RecvField(k, input[..n], parts).exit.Done?
    ensures RecvField(k, input[..n], parts).exit.Rejected? <==> k.Uuid? || (k.Chunk? && n >= 4)
  {
    hide GetNumber, CStr;
    if k.Str? {
      assert input[..n] + input[n..] == input;
      if GetSized(input[..n], 1).exit.Done? {
        GetSizedExtends(input[..n], input[n..], 1);
      }
    }
  }

  lemma CollectionNeverRejects(k: Kind, input: bytes, parts: seq<bytes>)
    requires k.Strings? || k.Hash?
    ensures !RecvField(k, input, parts).exit.Rejected?
  {
    hide GetNumber, GetList, GetPairs, InsertAll;
    if |input| >= 4 {
      ListNeverRejects(GetNum(input, 4).value, input[4..]);
      PairsNeverReject(GetNum(input, 4).value, input[4..]);
    }
  }

  lemma CutField(k: Kind, input: bytes, parts: seq<bytes>, n: nat)
    requires RecvField(k, input, parts).exit.Done? && n < RecvField(k, input, parts).used
    ensures var e := RecvField(k, input[..n], parts).exit;
      !e.Done? && (e.Rejected? <==> k.Uuid? || (k.Chunk? && n >= 4))
  {
    hide RecvField;
    CutIsNotDone(k, input, parts, n);
    if k.Strings? || k.Hash? {
      CollectionNeverRejects(k, input[..n], parts);
    } else {
      CutPlain(k, input, parts, n);
    }
  }

  /** A field list cut short: the reader leaves at the field the cut is in. */
  lemma {:induction false} CutFields(
      kinds: seq<Kind>, olds: seq<Value>, input: bytes, parts: seq<bytes>, n: nat)
    requires |olds| == |kinds| && RecvFields(kinds, olds, input, parts).exit.Done?
    requires n < RecvFields(kinds, olds, input, parts).used
    ensures var e := RecvFields(kinds, olds, input[..n], parts).exit;
      !e.Done? && (e.Rejected? <==> CutRejects(kinds, input, parts, n))
  {
    hide RecvField, RecvFields, CutRejects;
    RecvFieldsTurn(kinds, olds, input, parts);
    RecvFieldsTurn(kinds, olds, input[..n], parts);
    CutRejectsTurn(kinds, input, parts, n);
    if kinds != [] {
      var s := RecvField(kinds[0], input, parts);
      if n < s.used {
        CutField(kinds[0], input, parts, n);
      } else {
        WholeFieldInPrefix(kinds[0], input, parts, n);
        assert input[..n][s.used..] == input[s.used..][..n - s.used];
        CutFields(kinds[1..], olds[1..], input[s.used..], s.parts, n - s.used);
      }
    }
  }

  /** A field that ends before the cut is read as before. */
  lemma WholeFieldInPrefix(k: Kind, input: bytes, parts: seq<bytes>, n: nat)
    requires RecvField(k, input, parts).exit.Done? && RecvField(k, input, parts).used <= n <= |input|
    ensures RecvField(k, input[..n], parts) == RecvField(k, input, parts)
  {
    hide GetNumber, CStr, InsertAll, GetSized, GetList, GetPairs;
    match k
    case Str(_) => SizedInPrefix(input, 1, n);
    case LongStr => SizedInPrefix(input, 4, n);
    case Chunk => SizedInPrefix(input, 4, n);
    case Strings =>
      assert input[..n][4..] == input[4..][..n - 4] && input[..n][..4] == input[..4];
      ListInPrefix(GetNum(input, 4).value, input[4..], n - 4);
    case Hash =>
      assert input[..n][4..] == input[4..][..n - 4] && input[..n][..4] == input[..4];
      PairsInPrefix(GetNum(input, 4).value, input[4..], n - 4);
    case Number(size, _) => assert input[..n][..size] == input[..size];
    case Octets(size) => assert input[..n][..size] == input[..size];
    case Uuid => assert input[..n][..UUID_LEN] == input[..UUID_LEN];
    case _ =>
  }

  lemma SizedInPrefix(input: bytes, width: nat, n: nat)
    requires GetSized(input, width).exit.Done? && GetSized(input, width).used <= n <= |input|
    ensures GetSized(input[..n], width) == GetSized(input, width)
  {
    hide GetNumber;
    assert input[..n][..width] == input[..width];
    var size := GetNum(input, width).value;
    assert input[..n][width..width + size] == input[width..width + size];
  }

  lemma {:induction false} ListInPrefix(count: nat, input: bytes, n: nat)
    requires GetList(count, input).exit.Done? && GetList(count, input).used <= n <= |input|
    ensures GetList(count, input[..n]) == GetList(count, input)
  {
    hide GetSized, GetList, CStr;
    ListTurn(count, input);
    ListTurn(count, input[..n]);
    if count > 0 {
      var s := GetSized(input, 4);
      SizedInPrefix(input, 4, n);
      assert input[..n][s.used..] == input[s.used..][..n - s.used];
      ListInPrefix(count - 1, input[s.used..], n - s.used);
    }
  }

  lemma PairInPrefix(input: bytes, n: nat)
    requires GetPair(input).exit.Done? && GetPair(input).used <= n <= |input|
    ensures GetPair(input[..n]) == GetPair(input)
  {
    hide GetSized, CStr;
    var k := GetSized(input, 1);
    SizedInPrefix(input, 1, n);
    assert input[..n][k.used..] == input[k.used..][..n - k.used];
    SizedInPrefix(input[k.used..], 4, n - k.used);
  }

  lemma {:induction false} PairsInPrefix(count: nat, input: bytes, n: nat)
    requires GetPairs(count, input).exit.Done? && GetPairs(count, input).used <= n <= |input|
    ensures GetPairs(count, input[..n]) == GetPairs(count, input)
  {
    hide GetPair, GetPairs;
    PairsTurn(count, input);
    PairsTurn(count, input[..n]);
    if count > 0 {
      var p := GetPair(input);
      PairInPrefix(input, n);
      assert input[..n][p.used..] == input[p.used..][..n - p.used];
      PairsInPrefix(count - 1, input[p.used..], n - p.used);
    }
  }

  lemma {:induction false} ListNeverRejects(count: nat, input: bytes)
    ensures !GetList(count, input).exit.Rejected?
  {
    if count > 0 && GetSized(input, 4).exit.Done? {
      ListNeverRejects(count - 1, input[GetSized(input, 4).used..]);
    }
  }

  lemma {:induction false} PairsNeverReject(count: nat, input: bytes)
    ensures !GetPairs(count, input).exit.Rejected?
  {
    if count > 0 && GetPair(input).exit.Done? {
      PairsNeverReject(count - 1, input[GetPair(input).used..]);
    }
  }

  /**
   Every strict prefix of the octets read from an accepted frame, embedded NULs and all, takes the
   malformed exit. The documented -2 comes back exactly when the cut is inside a uuid, or inside a chunk
   behind its length; every other one returns 0.
   */
  lemma TruncationReturnCode(s: Schema, olds: map<nat, seq<Value>>, frame: bytes, parts: seq<bytes>, n: nat)
    requires s.Valid() && Contents(s, olds)
    requires Recv(s, olds, frame, parts).exit.Done? && n < Recv(s, olds, frame, parts).used
    ensures var id := Recv(s, olds, frame, parts).id.value;
      var e := Recv(s, olds, frame[..n], parts).exit;
      && !e.Done?
      && e.Rc() == if n >= 3 && CutRejects(s.messages[id], frame[3..], parts, n - 3) then -2 else 0
  {
    hide RecvFields, GetNumber, WellFormedAll, CutRejects;
    var id := GetNum(frame[2..], 1).value;
    if n >= 2 {
      assert frame[..n][..2] == frame[..2];
    }
    if n >= 3 {
      assert frame[..n][2..][..1] == frame[2..][..1];
      assert frame[..n][3..] == frame[3..][..n - 3];
      CutFields(s.messages[id], olds[id], frame[3..], parts, n - 3);
    }
  }

  /** The same cut, told from the message: the encoding of its fields, cut after n octets. */
  predicate CutsInside(kinds: seq<Kind>, vals: seq<Value>, n: nat)
    requires HoldsAll(kinds, vals)
  {
    kinds != []
    && (assert Holds(kinds[0], vals[0]); HoldsRest(kinds, vals);
        var size := |PutField(kinds[0], vals[0])|;
        if n < size then kinds[0].Uuid? || (kinds[0].Chunk? && n >= 4)
        else CutsInside(kinds[1..], vals[1..], n - size))
  }

  lemma HoldsRest(kinds: seq<Kind>, vals: seq<Value>)
    requires HoldsAll(kinds, vals) && kinds != []
    ensures HoldsAll(kinds[1..], vals[1..])
  {
    hide Holds;
  }

  lemma CutsInsideTurn(kinds: seq<Kind>, vals: seq<Value>, n: nat)
    requires HoldsAll(kinds, vals) && kinds != []
    ensures Holds(kinds[0], vals[0]) && HoldsAll(kinds[1..], vals[1..])
    ensures var size := |PutField(kinds[0], vals[0])|;
      CutsInside(kinds, vals, n)
      == if n < size then kinds[0].Uuid? || (kinds[0].Chunk? && n >= 4)
         else CutsInside(kinds[1..], vals[1..], n - size)
  {
    hide Holds, PutField;
    HoldsRest(kinds, vals);
  }

  lemma {:induction false} SameCut(kinds: seq<Kind>, vals: seq<Value>, rest: seq<bytes>, n: nat)
    requires WellFormedAll(kinds) && HoldsAll(kinds, vals) && FitsAll(kinds, vals)
    requires Msg in kinds ==> rest == []
    ensures CutRejects(kinds, PutFields(kinds, vals), PartsOf(kinds, vals) + rest, n) == CutsInside(kinds, vals, n)
  {
    hide RecvField, PutField, FieldParts, Holds, Fits, WellFormed, PutFields, PartsOf, CutRejects, CutsInside;
    CutRejectsTurn(kinds, PutFields(kinds, vals), PartsOf(kinds, vals) + rest, n);
    if kinds == [] {
      NothingCut(n);
    } else {
      var k, v := kinds[0], vals[0];
      var more, moreParts := PutFields(kinds[1..], vals[1..]), PartsOf(kinds[1..], vals[1..]) + rest;
      CutsInsideTurn(kinds, vals, n);
      PutFieldsTurn(kinds, vals, []);
      assert PutFields(kinds, vals) + [] == PutFields(kinds, vals) && more + [] == more;
      PartsTurn(kinds, vals, rest);
      FieldRoundTrip(k, v, more, moreParts);
      assert (PutField(k, v) + more)[|PutField(k, v)|..] == more;
      assert Msg in kinds[1..] ==> Msg in kinds;
      if n >= |PutField(k, v)| {
        SameCut(kinds[1..], vals[1..], rest, n - |PutField(k, v)|);
      }
    }
  }

  lemma NothingCut(n: nat)
    ensures !CutsInside([], [], n)
  {
  }

  /**
   In particular every strict prefix of an encoding, whatever frames stand behind the message: malformed,
   with -2 exactly when the cut is inside its uuid or its chunk.
   */
  lemma StrictPrefixIsMalformed(s: Schema, m: Message, olds: map<nat, seq<Value>>, n: nat, rest: seq<bytes>)
    requires Sendable(s, m) && Conforms(s, m) && Contents(s, olds)
    requires Msg in s.messages[m.id] ==> rest == []
    requires n < |FirstFrame(s, m)|
    ensures var e := Recv(s, olds, FirstFrame(s, m)[..n], OtherFrames(s, m) + rest).exit;
      && !e.Done?
      && e.Rc() == if n >= 3 && CutsInside(s.messages[m.id], m.values, n - 3) then -2 else 0
  {
    hide Recv, PutFields, PartsOf, HoldsAll, FitsAll, WellFormedAll, CutRejects, CutsInside;
    var frame, parts := FirstFrame(s, m), OtherFrames(s, m) + rest;
    assert frame + [] == frame;
    MessageRoundTrip(s, m, olds, [], rest);
    TruncationReturnCode(s, olds, frame, parts, n);
    if n >= 3 {
      assert frame[3..] == PutFields(s.messages[m.id], m.values);
      SameCut(s.messages[m.id], m.values, rest, n - 3);
    }
  }

  /** A BINARY message cut anywhere inside its uuid returns -2; cut inside its header, or just before, 0. */
  lemma TruncatedBinary(s: Schema, m: Message, olds: map<nat, seq<Value>>, n: nat)
    requires Sendable(s, m) && Conforms(s, m) && Contents(s, olds) && s.messages[m.id] == BINARY
    requires n < |FirstFrame(s, m)|
    ensures var rc := Recv(s, olds, FirstFrame(s, m)[..n], OtherFrames(s, m)).exit.Rc();
      && (n >= |FirstFrame(s, m)| - UUID_LEN ==> rc == -2)
      && (n < 3 + 2 + 4 + 4 ==> rc == 0)
  {
    hide Recv, PutFields, PartsOf, FitsAll, WellFormedAll, CutsInside;
    assert OtherFrames(s, m) + [] == OtherFrames(s, m);
    StrictPrefixIsMalformed(s, m, olds, n, []);
    var chunk := BinarySizes(m.values);
    if n >= 3 {
      BinaryCut(m.values, n - 3);
    }
  }

  lemma BinaryCut(vals: seq<Value>, n: nat)
    requires HoldsAll(BINARY, vals) && n < |PutFields(BINARY, vals)|
    ensures n >= |PutFields(BINARY, vals)| - UUID_LEN ==> CutsInside(BINARY, vals, n)
    ensures n < 2 + 4 + 4 ==> !CutsInside(BINARY, vals, n)
  {
    hide Holds, PutFields, CutsInside;
    var sizes := BinarySizes(vals);
    CutsInsideTurn(BINARY, vals, n);
    if n >= 2 {
      CutsInsideTurn(BINARY[1..], vals[1..], n - 2);
    }
    if n >= 6 {
      CutsInsideTurn(BINARY[2..], vals[2..], n - 6);
    }
    if n >= 6 + sizes {
      CutsInsideTurn(BINARY[3..], vals[3..], n - 6 - sizes);
    }
    assert BINARY[1..][1..] == BINARY[2..] && vals[1..][1..] == vals[2..];
    assert BINARY[2..][1..] == BINARY[3..] && vals[2..][1..] == vals[3..];
  }

  lemma BinaryFieldSizes(vals: seq<Value>)
    requires HoldsAll(BINARY, vals)
    ensures forall i :: 0 <= i < 6 ==> Holds(BINARY[i], vals[i])
    ensures |PutField(BINARY[0], vals[0])| == 2 && |PutField(BINARY[1], vals[1])| == 4
    ensures |PutField(BINARY[2], vals[2])| >= 4 && |PutField(BINARY[3], vals[3])| == UUID_LEN
    ensures PutField(BINARY[4], vals[4]) == [] && PutField(BINARY[5], vals[5]) == []
  {
    hide PutNumber;
    assert forall i :: 0 <= i < 6 ==> Holds(BINARY[i], vals[i]);
  }

  /** The octets of its fields, in order: 2, 4, the chunk with its length, 16, and none for the frames. */
  lemma BinarySizes(vals: seq<Value>) returns (chunk: nat)
    requires HoldsAll(BINARY, vals)
    ensures forall i :: 0 <= i < 6 ==> Holds(BINARY[i], vals[i])
    ensures |PutField(BINARY[0], vals[0])| == 2 && |PutField(BINARY[1], vals[1])| == 4
    ensures chunk == |PutField(BINARY[2], vals[2])| >= 4 && |PutField(BINARY[3], vals[3])| == UUID_LEN
    ensures |PutFields(BINARY, vals)| == 6 + chunk + UUID_LEN
  {
    hide PutFields, PutField, Holds, HoldsAll;
    BinaryFieldSizes(vals);
    SameLength(vals);
    chunk := |PutField(BINARY[2], vals[2])|;
    SizeTurn(BINARY, vals, 0);
    SizeTurn(BINARY, vals, 1);
    SizeTurn(BINARY, vals, 2);
    SizeTurn(BINARY, vals, 3);
    SizeTurn(BINARY, vals, 4);
    SizeTurn(BINARY, vals, 5);
    NoFields([]);
    assert BINARY[0..] == BINARY && vals[0..] == vals && BINARY[6..] == [] && vals[6..] == [];
  }

  lemma SameLength(vals: seq<Value>)
    requires HoldsAll(BINARY, vals)
    ensures |vals| == 6
  {
  }

  lemma SizeTurn(kinds: seq<Kind>, vals: seq<Value>, i: nat)
    requires HoldsAll(kinds, vals) && i < |kinds|
    ensures HoldsAll(kinds[i..], vals[i..]) && HoldsAll(kinds[i + 1..], vals[i + 1..]) && Holds(kinds[i], vals[i])
    ensures |PutFields(kinds[i..], vals[i..])|
         == |PutField(kinds[i], vals[i])| + |PutFields(kinds[i + 1..], vals[i + 1..])|
  {
    hide Holds, PutField;
    assert kinds[i..][1..] == kinds[i + 1..] && vals[i..][1..] == vals[i + 1..];
  }

  function BinaryClass(): Schema {
    Schema(0, map[3 := BINARY])
  }

  function EmptyBinary(): Message {
    Message(3, [Num(1), Oct([0, 0, 0, 0]), Blob(None), Id(None), Part(None), Parts(None)])
  }

  lemma EmptyBinaryFits()
    ensures HoldsAll(BINARY, EmptyBinary().values) && FitsAll(BINARY, EmptyBinary().values)
  {
    assert Radix(2) == 65536;
  }

  lemma BinaryClassIsValid()
    ensures BinaryClass().Valid() && BinaryClass().messages[3] == BINARY
  {
  }

  lemma EmptyBinarySends()
    ensures Sendable(BinaryClass(), EmptyBinary()) && Conforms(BinaryClass(), EmptyBinary())
    ensures BinaryClass().messages[EmptyBinary().id] == BINARY
    ensures Contents(BinaryClass(), map[3 := EmptyBinary().values])
  {
    hide HoldsAll, FitsAll, Schema.Valid;
    EmptyBinaryFits();
    BinaryClassIsValid();
  }

  lemma EmptyBinaryLength()
    requires HoldsAll(BINARY, EmptyBinary().values)
    ensures |PutFields(BINARY, EmptyBinary().values)| == 26
  {
    hide PutFields;
    var chunk := BinarySizes(EmptyBinary().values);
  }

  /** One such frame: cut after 20 octets, inside its uuid, it returns -2; after 2, inside its header, 0. */
  lemma TruncationWitness()
    ensures var s, m, olds := BinaryClass(), EmptyBinary(), map[3 := EmptyBinary().values];
      && Sendable(s, m) && Contents(s, olds) && |FirstFrame(s, m)| == 29
      && Recv(s, olds, FirstFrame(s, m)[..20], OtherFrames(s, m)).exit.Rc() == -2
      && Recv(s, olds, FirstFrame(s, m)[..2], OtherFrames(s, m)).exit.Rc() == 0
  {
    hide Recv, PutFields, PartsOf, BinaryClass, EmptyBinary, Contents, Conforms, HoldsAll;
    var s, m, olds := BinaryClass(), EmptyBinary(), map[3 := EmptyBinary().values];
    EmptyBinarySends();
    EmptyBinaryLength();
    TruncatedBinary(s, m, olds, 20);
    TruncatedBinary(s, m, olds, 2);
  }
}
