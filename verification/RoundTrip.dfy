/**
 Round trips, field by field and then over a whole field list, with any octets and frames behind.
 */
module RoundTrip {
  import opened Options
  import opened Bytes
  import opened Wire

  // ---------------------------------------------------------------- one item at a time

  lemma ListFrom(l: seq<bytes>, j: nat)
    requires j < |l|
    ensures PutList(l[j..]) == PutSized(l[j], 4) + PutList(l[j + 1..])
  {
    assert l[j..][1..] == l[j + 1..];
  }

  lemma TableFrom(t: seq<Pair>, j: nat)
    requires j < |t|
    ensures PutTable(t[j..]) == PutPair(t[j]) + PutTable(t[j + 1..])
  {
    assert t[j..][1..] == t[j + 1..];
  }

  lemma Join<T>(a: seq<T>, b: seq<T>, c: seq<T>)
    ensures a + b + c == a + (b + c)
  {
  }

  /** One unfolding of the list loop. */
  lemma ListTurn(count: nat, input: bytes)
    ensures GetList(count, input) ==
      if count == 0 then Got(Done, [], 0) else
        var s := GetSized(input, 4);
        if !s.exit.Done? then Got(s.exit, [], s.used) else
          var r := GetList(count - 1, input[s.used..]);
          Got(r.exit, [CStr(s.value)] + r.value, s.used + r.used)
  {
  }

  /** One unfolding of the hash loop, for proofs that keep its definition out of sight. */
  lemma PairsTurn(count: nat, input: bytes)
    ensures GetPairs(count, input) ==
      if count == 0 then Got(Done, [], 0) else
        var p := GetPair(input);
        if !p.exit.Done? then Got(p.exit, [], p.used) else
          var r := GetPairs(count - 1, input[p.used..]);
          Got(r.exit, [p.value] + r.value, p.used + r.used)
  {
  }

  // ---------------------------------------------------------------- one field round trips

  /** The message a receiver rebuilds: unset fields become empty ones. */
  function Normal(v: Value): Value {
    match v
    case Long(None) => Long(Some([]))
    case List(None) => List(Some([]))
    case Table(None) => Table(Some([]))
    case Blob(None) => Blob(Some([]))
    case Id(None) => Id(Some(PutNumber(0, UUID_LEN)))
    case Part(None) => Part(Some([]))
    case Parts(None) => Parts(Some([[]]))
    case _ => v
  }

  function NormalAll(vals: seq<Value>): (r: seq<Value>)
    ensures |r| == |vals| && forall i :: 0 <= i < |r| ==> r[i] == Normal(vals[i])
  {
    seq(|vals|, i requires 0 <= i < |vals| => Normal(vals[i]))
  }

  lemma NumRoundTrip(n: nat, size: nat, tail: bytes)
    requires n < Radix(size)
    ensures GetNum(PutNumber(n, size) + tail, size) == Got(Done, n, size)
    ensures (PutNumber(n, size) + tail)[size..] == tail
  {
    assert (PutNumber(n, size) + tail)[..size] == PutNumber(n, size);
    NumberFits(n, size);
  }

  lemma SizedRoundTrip(s: bytes, width: nat, tail: bytes)
    requires |s| < Radix(width)
    ensures GetSized(PutSized(s, width) + tail, width) == Got(Done, s, width + |s|)
    ensures (PutSized(s, width) + tail)[width + |s|..] == tail
  {
    var input := PutSized(s, width) + tail;
    assert input == PutNumber(|s|, width) + (s + tail);
    NumRoundTrip(|s|, width, s + tail);
    assert input[width..width + |s|] == s;
  }

  lemma {:induction false} ListRoundTrip(l: seq<bytes>, tail: bytes)
    requires forall i :: 0 <= i < |l| ==> NulFree(l[i]) && |l[i]| < Radix(4)
    ensures GetList(|l|, PutList(l) + tail) == Got(Done, l, |PutList(l)|)
  {
    hide GetList, GetSized, PutSized, PutList, Radix;
    ListTurn(|l|, PutList(l) + tail);
    if l == [] {
      NoItems();
    } else {
      var rest := PutList(l[1..]) + tail;
      ListFrom(l, 0);
      assert l[0..] == l;
      Join(PutSized(l[0], 4), PutList(l[1..]), tail);
      SizedRoundTrip(l[0], 4, rest);
      CStrOfNulFree(l[0]);
      ListRoundTrip(l[1..], tail);
      PutSizedLength(l[0], 4);
      assert [l[0]] + l[1..] == l;
    }
  }

  lemma NoItems()
    ensures PutList([]) == [] && PutTable([]) == []
  {
  }

  lemma PutSizedLength(s: bytes, width: nat)
    ensures |PutSized(s, width)| == width + |s|
  {
  }

  lemma PairRoundTrip(p: Pair, tail: bytes)
    requires p.NulFree() && p.Fits()
    ensures GetPair(PutPair(p) + tail) == Got(Done, p, |PutPair(p)|)
    ensures (PutPair(p) + tail)[|PutPair(p)|..] == tail
  {
    assert PutPair(p) + tail == PutSized(p.key, 1) + (PutSized(p.value, 4) + tail);
    SizedRoundTrip(p.key, 1, PutSized(p.value, 4) + tail);
    SizedRoundTrip(p.value, 4, tail);
    CStrOfNulFree(p.key);
    CStrOfNulFree(p.value);
  }

  lemma {:induction false} PairsRoundTrip(t: seq<Pair>, tail: bytes)
    requires forall i :: 0 <= i < |t| ==> t[i].NulFree() && t[i].Fits()
    ensures GetPairs(|t|, PutTable(t) + tail) == Got(Done, t, |PutTable(t)|)
  {
    hide GetPairs, GetPair, PutPair, PutTable, Pair.NulFree, Pair.Fits;
    PairsTurn(|t|, PutTable(t) + tail);
    if t == [] {
      NoItems();
    } else {
      var rest := PutTable(t[1..]) + tail;
      TableFrom(t, 0);
      assert t[0..] == t;
      Join(PutPair(t[0]), PutTable(t[1..]), tail);
      PairRoundTrip(t[0], rest);
      PairsRoundTrip(t[1..], tail);
      assert [t[0]] + t[1..] == t;
    }
  }

  /** Inserting pairs whose keys are already distinct keeps them all, in order. */
  lemma {:induction false} InsertDistinct(t: seq<Pair>)
    requires DistinctKeys(t)
    ensures InsertAll(t) == t
  {
    if t != [] {
      InsertDistinct(t[..|t| - 1]);
      assert t[..|t| - 1] + [t[|t| - 1]] == t;
    }
  }

  lemma NumberFieldRoundTrip(k: Kind, v: Value, tail: bytes, parts: seq<bytes>)
    requires k.Number? && WellFormed(k) && Holds(k, v)
    ensures RecvField(k, PutField(k, v) + tail, parts) == Step(Done, Some(Normal(v)), |PutField(k, v)|, parts)
  {
    NumRoundTrip(if k.fixed.Some? then k.fixed.value else v.n, k.size, tail);
  }

  lemma TextFieldRoundTrip(k: Kind, v: Value, tail: bytes, parts: seq<bytes>)
    requires k.Str? || k.LongStr? || k.Chunk?
    requires WellFormed(k) && Holds(k, v) && Fits(k, v)
    ensures RecvField(k, PutField(k, v) + tail, parts) == Step(Done, Some(Normal(v)), |PutField(k, v)|, parts)
  {
    var s := if k.Chunk? then v.blob.GetOr([]) else if k.LongStr? then v.long.GetOr([])
             else if k.text.Some? then k.text.value else v.text;
    var width := if k.Str? then 1 else 4;
    assert PutSized([], 4) == PutNumber(0, 4);
    assert PutField(k, v) == PutSized(s, width);
    SizedRoundTrip(s, width, tail);
    if !k.Chunk? { CStrOfNulFree(s); }
  }

  lemma ListFieldRoundTrip(v: Value, tail: bytes, parts: seq<bytes>)
    requires Holds(Strings, v) && Fits(Strings, v)
    ensures RecvField(Strings, PutField(Strings, v) + tail, parts)
         == Step(Done, Some(Normal(v)), |PutField(Strings, v)|, parts)
  {
    var l := v.list.GetOr([]);
    var input := PutField(Strings, v) + tail;
    assert input == PutNumber(|l|, 4) + (PutList(l) + tail);
    NumRoundTrip(|l|, 4, PutList(l) + tail);
    ListRoundTrip(l, tail);
  }

  lemma TableFieldRoundTrip(v: Value, tail: bytes, parts: seq<bytes>)
    requires Holds(Hash, v) && Fits(Hash, v)
    ensures RecvField(Hash, PutField(Hash, v) + tail, parts)
         == Step(Done, Some(Normal(v)), |PutField(Hash, v)|, parts)
  {
    var t := v.table.GetOr([]);
    var input := PutField(Hash, v) + tail;
    assert input == PutNumber(|t|, 4) + (PutTable(t) + tail);
    NumRoundTrip(|t|, 4, PutTable(t) + tail);
    PairsRoundTrip(t, tail);
    InsertDistinct(t);
  }

  lemma FieldRoundTrip(k: Kind, v: Value, tail: bytes, rest: seq<bytes>)
    requires WellFormed(k) && Holds(k, v) && Fits(k, v)
    requires k == Msg ==> rest == []
    ensures RecvField(k, PutField(k, v) + tail, FieldParts(k, v) + rest)
         == Step(Done, Some(Normal(v)), |PutField(k, v)|, rest)
  {
    if k.Number? {
      NumberFieldRoundTrip(k, v, tail, rest);
    } else if k.Str? || k.LongStr? || k.Chunk? {
      TextFieldRoundTrip(k, v, tail, rest);
    } else if k.Strings? {
      ListFieldRoundTrip(v, tail, rest);
    } else if k.Hash? {
      TableFieldRoundTrip(v, tail, rest);
    } else if k.Octets? || k.Uuid? {
      assert (PutField(k, v) + tail)[..|PutField(k, v)|] == PutField(k, v);
    }
    if k.Msg? { assert FieldParts(k, v) + rest == FieldParts(k, v); }
    else if !k.Frame? { assert FieldParts(k, v) + rest == rest; }
  }

  // One unfolding each, for proofs that keep the definitions out of sight.

  lemma RecvFieldsTurn(kinds: seq<Kind>, olds: seq<Value>, input: bytes, parts: seq<bytes>)
    requires |olds| == |kinds|
    ensures RecvFields(kinds, olds, input, parts) ==
      if kinds == [] then Outcome(Done, [], 0, parts) else
        var s := RecvField(kinds[0], input, parts);
        var v := s.update.GetOr(olds[0]);
        if !s.exit.Done? then Outcome(s.exit, [v] + olds[1..], s.used, s.parts) else
          var r := RecvFields(kinds[1..], olds[1..], input[s.used..], s.parts);
          Outcome(r.exit, [v] + r.values, s.used + r.used, r.parts)
  {
  }

  lemma PutFieldsTurn(kinds: seq<Kind>, vals: seq<Value>, tail: bytes)
    requires HoldsAll(kinds, vals) && kinds != []
    ensures HoldsAll(kinds[1..], vals[1..])
    ensures PutFields(kinds, vals) + tail
         == PutField(kinds[0], vals[0]) + (PutFields(kinds[1..], vals[1..]) + tail)
  {
    hide PutField, Holds;
  }

  lemma PartsTurn(kinds: seq<Kind>, vals: seq<Value>, rest: seq<bytes>)
    requires HoldsAll(kinds, vals) && kinds != []
    requires Msg in kinds ==> rest == []
    requires WellFormedAll(kinds)
    ensures HoldsAll(kinds[1..], vals[1..])
    ensures PartsOf(kinds, vals) + rest
         == FieldParts(kinds[0], vals[0]) + (PartsOf(kinds[1..], vals[1..]) + rest)
    ensures kinds[0] == Msg ==> PartsOf(kinds[1..], vals[1..]) + rest == []
  {
    hide FieldParts, Holds;
  }

  lemma {:induction false} FieldsRoundTrip(
      kinds: seq<Kind>, vals: seq<Value>, olds: seq<Value>, tail: bytes, rest: seq<bytes>)
    requires WellFormedAll(kinds) && HoldsAll(kinds, vals) && FitsAll(kinds, vals) && |olds| == |kinds|
    requires Msg in kinds ==> rest == []
    ensures RecvFields(kinds, olds, PutFields(kinds, vals) + tail, PartsOf(kinds, vals) + rest)
         == Outcome(Done, NormalAll(vals), |PutFields(kinds, vals)|, rest)
  {
    hide RecvField, PutField, FieldParts, Holds, Fits, WellFormed, RecvFields, PutFields, PartsOf;
    RecvFieldsTurn(kinds, olds, PutFields(kinds, vals) + tail, PartsOf(kinds, vals) + rest);
    if kinds == [] {
      NoFields(rest);
    } else {
      var k, v := kinds[0], vals[0];
      var more := PutFields(kinds[1..], vals[1..]) + tail;
      var moreParts := PartsOf(kinds[1..], vals[1..]) + rest;
      PutFieldsTurn(kinds, vals, tail);
      PartsTurn(kinds, vals, rest);
      FieldRoundTrip(k, v, more, moreParts);
      assert (PutField(k, v) + more)[|PutField(k, v)|..] == more;
      assert Msg in kinds[1..] ==> Msg in kinds;
      FieldsRoundTrip(kinds[1..], vals[1..], olds[1..], tail, rest);
      assert NormalAll(vals) == [Normal(v)] + NormalAll(vals[1..]);
    }
  }

  lemma NoFields(rest: seq<bytes>)
    ensures PutFields([], []) == [] && PartsOf([], []) + rest == rest && NormalAll([]) == []
  {
  }
}
