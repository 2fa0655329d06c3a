/**
 What reading guarantees on arbitrary octets, field by field: the result is a value the object can
 hold and resend, no longer than what was read; more octets behind a complete read change nothing;
 the object's previous contents never matter.
 */
module Reading {
  import opened Bytes
  import opened Wire
  import opened RoundTrip

  // ---------------------------------------------------------------- octets behind a complete read

  lemma SuffixExtends(input: bytes, more: bytes, n: nat)
    requires n <= |input|
    ensures (input + more)[n..] == input[n..] + more
    ensures (input + more)[..n] == input[..n]
  {
  }

  lemma GetSizedExtends(input: bytes, more: bytes, width: nat)
    requires GetSized(input, width).exit.Done?
    ensures GetSized(input + more, width) == GetSized(input, width)
  {
    SuffixExtends(input, more, width);
    var g := GetSized(input, width);
    assert (input + more)[width..width + |g.value|] == input[width..width + |g.value|];
  }

  lemma {:induction false} GetListExtends(count: nat, input: bytes, more: bytes)
    requires GetList(count, input).exit.Done?
    ensures GetList(count, input + more) == GetList(count, input)
  {
    if count > 0 {
      hide GetSized;
      var s := GetSized(input, 4);
      GetSizedExtends(input, more, 4);
      SuffixExtends(input, more, s.used);
      GetListExtends(count - 1, input[s.used..], more);
    }
  }

  lemma GetPairExtends(input: bytes, more: bytes)
    requires GetPair(input).exit.Done?
    ensures GetPair(input + more) == GetPair(input)
  {
    hide GetSized;
    var k := GetSized(input, 1);
    GetSizedExtends(input, more, 1);
    SuffixExtends(input, more, k.used);
    GetSizedExtends(input[k.used..], more, 4);
  }

  lemma {:induction false} GetPairsExtends(count: nat, input: bytes, more: bytes)
    requires GetPairs(count, input).exit.Done?
    ensures GetPairs(count, input + more) == GetPairs(count, input)
  {
    if count > 0 {
      hide GetPair;
      var p := GetPair(input);
      GetPairExtends(input, more);
      SuffixExtends(input, more, p.used);
      GetPairsExtends(count - 1, input[p.used..], more);
    }
  }

  lemma RecvFieldExtends(k: Kind, input: bytes, parts: seq<bytes>, more: bytes)
    requires RecvField(k, input, parts).exit.Done?
    ensures RecvField(k, input + more, parts) == RecvField(k, input, parts)
  {
    hide GetSized, GetList, GetPairs, GetNumber, CStr, InsertAll;
    match k
    case Number(size, _) => SuffixExtends(input, more, size);
    case Octets(n) => SuffixExtends(input, more, n);
    case Str(_) => GetSizedExtends(input, more, 1);
    case LongStr => GetSizedExtends(input, more, 4);
    case Strings =>
      SuffixExtends(input, more, 4);
      GetListExtends(GetNum(input, 4).value, input[4..], more);
    case Hash =>
      SuffixExtends(input, more, 4);
      GetPairsExtends(GetNum(input, 4).value, input[4..], more);
    case Chunk => GetSizedExtends(input, more, 4);
    case Uuid => SuffixExtends(input, more, UUID_LEN);
    case Frame =>
    case Msg =>
  }

  lemma {:induction false} RecvFieldsExtends(
      kinds: seq<Kind>, olds: seq<Value>, input: bytes, parts: seq<bytes>, more: bytes)
    requires |olds| == |kinds| && RecvFields(kinds, olds, input, parts).exit.Done?
    ensures RecvFields(kinds, olds, input + more, parts) == RecvFields(kinds, olds, input, parts)
  {
    if kinds != [] {
      hide RecvField;
      var s := RecvField(kinds[0], input, parts);
      RecvFieldExtends(kinds[0], input, parts, more);
      SuffixExtends(input, more, s.used);
      RecvFieldsExtends(kinds[1..], olds[1..], input[s.used..], s.parts, more);
    }
  }

  // ---------------------------------------------------------------- loop turns

  /** Turns the list loop takes, the failing one included. */
  function ListTurns(count: nat, input: bytes): nat {
    if count == 0 then 0 else
      var s := GetSized(input, 4);
      if !s.exit.Done? then 1 else 1 + ListTurns(count - 1, input[s.used..])
  }

  function PairTurns(count: nat, input: bytes): nat {
    if count == 0 then 0 else
      var p := GetPair(input);
      if !p.exit.Done? then 1 else 1 + PairTurns(count - 1, input[p.used..])
  }

  // ---------------------------------------------------------------- previous contents

  lemma {:induction false} RecvFieldsForgets(
      kinds: seq<Kind>, olds: seq<Value>, olds': seq<Value>, input: bytes, parts: seq<bytes>)
    requires |olds| == |olds'| == |kinds|
    ensures var o, o' := RecvFields(kinds, olds, input, parts), RecvFields(kinds, olds', input, parts);
            o.exit == o'.exit && o.used == o'.used && o.parts == o'.parts && (o.exit.Done? ==> o == o')
  {
    if kinds != [] {
      hide RecvField;
      var s := RecvField(kinds[0], input, parts);
      RecvFieldsForgets(kinds[1..], olds[1..], olds'[1..], input[s.used..], s.parts);
    }
  }

  // ---------------------------------------------------------------- what a read value is

  predicate Resendable(k: Kind, v: Value) {
    Holds(k, v) && Fits(k, v) && Normal(v) == v
  }

  lemma {:induction false} ListRead(count: nat, input: bytes)
    ensures var g := GetList(count, input);
      && |g.value| <= count && (g.exit.Done? ==> |g.value| == count)
      && (forall i :: 0 <= i < |g.value| ==> NulFree(g.value[i]) && |g.value[i]| < Radix(4))
      && |PutList(g.value)| <= g.used
  {
    if count > 0 {
      hide GetSized;
      var s := GetSized(input, 4);
      if s.exit.Done? {
        ListRead(count - 1, input[s.used..]);
        var r := GetList(count - 1, input[s.used..]);
        assert ([CStr(s.value)] + r.value)[1..] == r.value;
      }
    }
  }

  lemma PairRead(input: bytes)
    ensures var g := GetPair(input);
      g.exit.Done? ==> Sound(g.value) && |PutPair(g.value)| <= g.used
  {
    hide GetSized;
  }

  predicate Sound(p: Pair) {
    p.NulFree() && p.Fits()
  }

  ghost predicate AllSound(pairs: seq<Pair>) {
    forall i :: 0 <= i < |pairs| ==> Sound(pairs[i])
  }

  lemma {:induction false} PairsSound(count: nat, input: bytes)
    ensures var g := GetPairs(count, input);
      && |g.value| <= count && AllSound(g.value) && |PutTable(g.value)| <= g.used
  {
    hide *;
    PairsTurn(count, input);
    NoPairs();
    var p := GetPair(input);
    if count > 0 && p.exit.Done? {
      var r := GetPairs(count - 1, input[p.used..]);
      PairRead(input);
      PairsSound(count - 1, input[p.used..]);
      PutTableFirst(p.value, r.value);
    }
  }

  lemma NoPairs()
    ensures AllSound([]) && PutTable([]) == []
  {
  }

  lemma PutTableFirst(p: Pair, rest: seq<Pair>)
    ensures PutTable([p] + rest) == PutPair(p) + PutTable(rest)
    ensures Sound(p) && AllSound(rest) ==> AllSound([p] + rest)
  {
    assert ([p] + rest)[1..] == rest;
  }

  lemma {:induction false} PutTableAppend(t: seq<Pair>, p: Pair)
    ensures PutTable(t + [p]) == PutTable(t) + PutPair(p)
  {
    if t == [] {
      assert t + [p] == [p];
    } else {
      assert (t + [p])[1..] == t[1..] + [p];
      PutTableAppend(t[1..], p);
    }
  }

  lemma {:induction false} Inserted(pairs: seq<Pair>)
    ensures var t := InsertAll(pairs);
      && DistinctKeys(t) && |t| <= |pairs|
      && forall i :: 0 <= i < |t| ==> t[i] in pairs
  {
    if pairs != [] {
      Inserted(pairs[..|pairs| - 1]);
    }
  }

  lemma {:induction false} InsertedSize(pairs: seq<Pair>)
    ensures |PutTable(InsertAll(pairs))| <= |PutTable(pairs)|
  {
    if pairs != [] {
      hide PutTable, PutPair, HasKey;
      var init, p := pairs[..|pairs| - 1], pairs[|pairs| - 1];
      InsertedSize(init);
      assert pairs == init + [p];
      PutTableAppend(init, p);
      PutTableAppend(InsertAll(init), p);
    }
  }

  lemma TableRead(count: nat, input: bytes)
    ensures var g := GetPairs(count, input);
      var t := InsertAll(g.value);
      && |t| <= count && DistinctKeys(t)
      && (forall i :: 0 <= i < |t| ==> t[i].NulFree() && t[i].Fits())
      && |PutTable(t)| <= g.used
  {
    hide GetPairs, PutTable, InsertAll, DistinctKeys;
    var pairs := GetPairs(count, input).value;
    PairsSound(count, input);
    Inserted(pairs);
    InsertedSize(pairs);
  }

  /** A complete read gives a field that can be sent back in no more octets; a failed one a legal object. */
  lemma FieldRead(k: Kind, input: bytes, parts: seq<bytes>)
    requires WellFormed(k)
    ensures var s := RecvField(k, input, parts);
      && (s.exit.Done? ==>
            && Resendable(k, s.update.value)
            && |PutField(k, s.update.value)| <= s.used
            && FieldParts(k, s.update.value) + s.parts == parts)
      && (s.update.Some? ==> Holds(k, s.update.value))
  {
    hide *;
    if k.Strings? || k.Hash? {
      CollectionRead(k, input, parts);
    } else {
      PlainRead(k, input, parts);
    }
  }

  lemma PlainRead(k: Kind, input: bytes, parts: seq<bytes>)
    requires WellFormed(k) && !k.Strings? && !k.Hash?
    ensures var s := RecvField(k, input, parts);
      && (s.exit.Done? ==>
            && Resendable(k, s.update.value) && |PutField(k, s.update.value)| <= s.used
            && FieldParts(k, s.update.value) + s.parts == parts)
      && (s.update.Some? ==> Holds(k, s.update.value))
  {
    hide *;
    match k
    case Number(_, _) => NumberRead(k, input, parts);
    case Str(_) => TextRead(k, input, parts);
    case LongStr => TextRead(k, input, parts);
    case Chunk => TextRead(k, input, parts);
    case _ => FixedRead(k, input, parts);
  }

  lemma NumberRead(k: Kind, input: bytes, parts: seq<bytes>)
    requires WellFormed(k) && k.Number?
    ensures var s := RecvField(k, input, parts);
      && (s.exit.Done? ==>
            && Resendable(k, s.update.value) && |PutField(k, s.update.value)| <= s.used
            && FieldParts(k, s.update.value) + s.parts == parts)
      && (s.update.Some? ==> Holds(k, s.update.value))
  {
  }

  lemma TextRead(k: Kind, input: bytes, parts: seq<bytes>)
    requires WellFormed(k) && (k.Str? || k.LongStr? || k.Chunk?)
    ensures var s := RecvField(k, input, parts);
      && (s.exit.Done? ==>
            && Resendable(k, s.update.value) && |PutField(k, s.update.value)| <= s.used
            && FieldParts(k, s.update.value) + s.parts == parts)
      && (s.update.Some? ==> Holds(k, s.update.value))
  {
    hide GetSized, CStr, NulFree;
  }

  /** Fields of fixed size, and those that are frames. */
  lemma FixedRead(k: Kind, input: bytes, parts: seq<bytes>)
    requires k.Octets? || k.Uuid? || k.Frame? || k.Msg?
    ensures var s := RecvField(k, input, parts);
      && (s.exit.Done? ==>
            && Resendable(k, s.update.value) && |PutField(k, s.update.value)| <= s.used
            && FieldParts(k, s.update.value) + s.parts == parts)
      && (s.update.Some? ==> Holds(k, s.update.value))
  {
    hide GetSized, GetList, GetPairs, InsertAll, PutList, PutTable;
  }

  lemma CollectionRead(k: Kind, input: bytes, parts: seq<bytes>)
    requires k.Strings? || k.Hash?
    ensures var s := RecvField(k, input, parts);
      && (s.exit.Done? ==>
            && Resendable(k, s.update.value) && |PutField(k, s.update.value)| <= s.used
            && FieldParts(k, s.update.value) + s.parts == parts)
      && (s.update.Some? ==> Holds(k, s.update.value))
  {
    hide GetSized, GetList, GetPairs, InsertAll, PutList, PutTable, DistinctKeys, GetNumber;
    if |input| >= 4 {
      var count := GetNum(input, 4).value;
      if k.Strings? { ListRead(count, input[4..]); } else { TableRead(count, input[4..]); }
    }
  }

  lemma {:induction false} ValuesRead(kinds: seq<Kind>, olds: seq<Value>, input: bytes, parts: seq<bytes>)
    requires WellFormedAll(kinds) && |olds| == |kinds|
    requires RecvFields(kinds, olds, input, parts).exit.Done?
    ensures var o := RecvFields(kinds, olds, input, parts);
      forall i :: 0 <= i < |kinds| ==> Resendable(kinds[i], o.values[i])
  {
    hide RecvField, RecvFields, WellFormed, Resendable;
    RecvFieldsTurn(kinds, olds, input, parts);
    if kinds != [] {
      var s := RecvField(kinds[0], input, parts);
      FieldRead(kinds[0], input, parts);
      ValuesRead(kinds[1..], olds[1..], input[s.used..], s.parts);
    }
  }

  lemma AllResendable(kinds: seq<Kind>, vals: seq<Value>)
    requires |vals| == |kinds| && forall i :: 0 <= i < |kinds| ==> Resendable(kinds[i], vals[i])
    ensures HoldsAll(kinds, vals) && FitsAll(kinds, vals) && NormalAll(vals) == vals
  {
    hide Holds, Fits, Normal;
  }

  lemma {:induction false} OctetsRead(kinds: seq<Kind>, olds: seq<Value>, input: bytes, parts: seq<bytes>)
    requires WellFormedAll(kinds) && |olds| == |kinds|
    requires RecvFields(kinds, olds, input, parts).exit.Done?
    requires HoldsAll(kinds, RecvFields(kinds, olds, input, parts).values)
    ensures var o := RecvFields(kinds, olds, input, parts);
      |PutFields(kinds, o.values)| <= o.used
  {
    hide RecvField, RecvFields, PutField, PutFields, Holds, WellFormed;
    RecvFieldsTurn(kinds, olds, input, parts);
    if kinds == [] {
      NoFields([]);
    } else {
      var s := RecvField(kinds[0], input, parts);
      var o := RecvFields(kinds, olds, input, parts);
      FieldRead(kinds[0], input, parts);
      assert o.values[1..] == RecvFields(kinds[1..], olds[1..], input[s.used..], s.parts).values;
      PutFieldsTurn(kinds, o.values, []);
      OctetsRead(kinds[1..], olds[1..], input[s.used..], s.parts);
    }
  }

  lemma {:induction false} PartsRead(kinds: seq<Kind>, olds: seq<Value>, input: bytes, parts: seq<bytes>)
    requires WellFormedAll(kinds) && |olds| == |kinds|
    requires RecvFields(kinds, olds, input, parts).exit.Done?
    requires HoldsAll(kinds, RecvFields(kinds, olds, input, parts).values)
    ensures var o := RecvFields(kinds, olds, input, parts);
      PartsOf(kinds, o.values) + o.parts == parts
  {
    hide RecvField, RecvFields, FieldParts, PartsOf, Holds, WellFormed;
    RecvFieldsTurn(kinds, olds, input, parts);
    if kinds == [] {
      NoFields(parts);
    } else {
      var s := RecvField(kinds[0], input, parts);
      var o := RecvFields(kinds, olds, input, parts);
      FieldRead(kinds[0], input, parts);
      assert o.values[1..] == RecvFields(kinds[1..], olds[1..], input[s.used..], s.parts).values;
      PartsOfTurn(kinds, o.values);
      PartsRead(kinds[1..], olds[1..], input[s.used..], s.parts);
      Join(FieldParts(kinds[0], o.values[0]), PartsOf(kinds[1..], o.values[1..]), o.parts);
    }
  }

  lemma PartsOfTurn(kinds: seq<Kind>, vals: seq<Value>)
    requires HoldsAll(kinds, vals) && kinds != []
    ensures HoldsAll(kinds[1..], vals[1..])
    ensures PartsOf(kinds, vals) == FieldParts(kinds[0], vals[0]) + PartsOf(kinds[1..], vals[1..])
  {
    hide FieldParts, Holds;
  }

  lemma {:induction false} FieldsRead(kinds: seq<Kind>, olds: seq<Value>, input: bytes, parts: seq<bytes>)
    requires WellFormedAll(kinds) && |olds| == |kinds|
    requires RecvFields(kinds, olds, input, parts).exit.Done?
    ensures var o := RecvFields(kinds, olds, input, parts);
      && HoldsAll(kinds, o.values) && FitsAll(kinds, o.values) && NormalAll(o.values) == o.values
      && |PutFields(kinds, o.values)| <= o.used
      && PartsOf(kinds, o.values) + o.parts == parts
  {
    hide *;
    ValuesRead(kinds, olds, input, parts);
    AllResendable(kinds, RecvFields(kinds, olds, input, parts).values);
    OctetsRead(kinds, olds, input, parts);
    PartsRead(kinds, olds, input, parts);
  }
}
