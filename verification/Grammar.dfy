/**
 The documented wire format, as the generated ABNF gives it: a relation between octets and messages that
 says nothing of how either is computed. The encoder writes the one frame the grammar derives.
 */
module Grammar {
  import opened Bytes
  import opened Wire

  // ---------------------------------------------------------------- the grammar

  /** Unsigned, in network byte order. */
  predicate IsNumber(size: nat, bs: bytes, n: nat) {
    match size
    case 1 => |bs| == 1 && n == bs[0] as nat
    case 2 => |bs| == 2 && n == 0x100 * bs[0] as nat + bs[1] as nat
    case 4 => IsNumber4(bs, n)
    case 8 =>
      |bs| == 8 && IsNumber4(bs[..4], n / 0x1_0000_0000) && IsNumber4(bs[4..], n % 0x1_0000_0000)
    case _ => false
  }

  predicate IsNumber4(bs: bytes, n: nat) {
    |bs| == 4
    && n == 0x100_0000 * bs[0] as nat + 0x1_0000 * bs[1] as nat + 0x100 * bs[2] as nat + bs[3] as nat
  }

  /** string (width 1), longstr and chunk (width 4): a length and the contents. */
  predicate IsSized(width: nat, bs: bytes, s: bytes) {
    |bs| == width + |s| && IsNumber(width, bs[..width], |s|) && bs[width..] == s
  }

  ghost predicate IsItems(bs: bytes, l: seq<bytes>) {
    if l == [] then bs == []
    else exists cut: nat :: cut <= |bs| && IsSized(4, bs[..cut], l[0]) && IsItems(bs[cut..], l[1..])
  }

  ghost predicate IsStrings(bs: bytes, l: seq<bytes>) {
    |bs| >= 4 && IsNumber(4, bs[..4], |l|) && IsItems(bs[4..], l)
  }

  /** A name and a value. */
  ghost predicate IsPair(bs: bytes, p: Pair) {
    exists cut: nat :: cut <= |bs| && IsSized(1, bs[..cut], p.key) && IsSized(4, bs[cut..], p.value)
  }

  ghost predicate IsPairs(bs: bytes, t: seq<Pair>) {
    if t == [] then bs == []
    else exists cut: nat :: cut <= |bs| && IsPair(bs[..cut], t[0]) && IsPairs(bs[cut..], t[1..])
  }

  ghost predicate IsHash(bs: bytes, t: seq<Pair>) {
    |bs| >= 4 && IsNumber(4, bs[..4], |t|) && IsPairs(bs[4..], t)
  }

  predicate IsZeros(bs: bytes, n: nat) {
    |bs| == n && forall i :: 0 <= i < n ==> bs[i] == 0
  }

  /** The octets of a field; one that is not set is written as an empty one. */
  ghost predicate IsField(k: Kind, bs: bytes, v: Value)
    requires Holds(k, v)
  {
    match k
    case Number(size, Some(n)) => IsNumber(size, bs, n)
    case Number(size, None) => IsNumber(size, bs, v.n)
    case Octets(_) => bs == v.octets
    case Str(Some(text)) => IsSized(1, bs, text)
    case Str(None) => IsSized(1, bs, v.text)
    case LongStr => IsSized(4, bs, v.long.GetOr([]))
    case Strings => IsStrings(bs, v.list.GetOr([]))
    case Hash => IsHash(bs, v.table.GetOr([]))
    case Chunk => IsSized(4, bs, v.blob.GetOr([]))
    case Uuid => if v.uuid.Some? then bs == v.uuid.value else IsZeros(bs, 16)
    // a frame of its own, behind the first
    case Frame => bs == []
    case Msg => bs == []
  }

  /** The fields of a message, in the order of their declaration. */
  ghost predicate IsFields(kinds: seq<Kind>, bs: bytes, vals: seq<Value>)
    requires HoldsAll(kinds, vals)
  {
    if kinds == [] then bs == []
    else
      exists cut: nat ::
        cut <= |bs| && IsField(kinds[0], bs[..cut], vals[0]) && IsFields(kinds[1..], bs[cut..], vals[1..])
  }

  /** %xAA %xA0 with the signature in the low four bits, the message id, and the fields. */
  ghost predicate IsFrame(s: Schema, bs: bytes, m: Message)
    requires Sendable(s, m)
  {
    && |bs| >= 3 && bs[0] == 0xAA && bs[1] as nat == 0xA0 + s.signature && bs[2] as nat == m.id
    && IsFields(s.messages[m.id], bs[3..], m.values)
  }

  // ---------------------------------------------------------------- numbers

  lemma {:induction false} SameNumber(a: bytes, b: bytes)
    requires |a| == |b| && GetNumber(a) == GetNumber(b)
    ensures a == b
  {
    if a != [] {
      var n := |a| - 1;
      assert GetNumber(a) == 256 * GetNumber(a[..n]) + a[n] as nat;
      assert GetNumber(b) == 256 * GetNumber(b[..n]) + b[n] as nat;
      SameNumber(a[..n], b[..n]);
      assert a == a[..n] + [a[n]] && b == b[..n] + [b[n]];
    }
  }

  /** Octets that are read as n are those written for n. */
  lemma WrittenAs(bs: bytes, n: nat)
    ensures GetNumber(bs) == n <==> n < Radix(|bs|) && bs == PutNumber(n, |bs|)
  {
    if n < Radix(|bs|) {
      NumberFits(n, |bs|);
      if GetNumber(bs) == n { SameNumber(bs, PutNumber(n, |bs|)); }
    }
  }

  lemma Number4Reads(bs: bytes, n: nat)
    requires |bs| == 4
    ensures IsNumber4(bs, n) <==> GetNumber(bs) == n
  {
    TwoOctets(bs[..2]);
    assert bs[..3][..2] == bs[..2];
    assert GetNumber(bs[..3]) == 256 * GetNumber(bs[..2]) + bs[2] as nat;
    assert GetNumber(bs) == 256 * GetNumber(bs[..3]) + bs[3] as nat;
  }

  lemma {:induction false} ReadsInTwo(a: bytes, b: bytes)
    ensures GetNumber(a + b) == GetNumber(a) * Radix(|b|) + GetNumber(b)
  {
    if b == [] {
      assert a + b == a;
    } else {
      var n := |b| - 1;
      assert (a + b)[..|a + b| - 1] == a + b[..n];
      ReadsInTwo(a, b[..n]);
      Shifted(GetNumber(a), Radix(n), GetNumber(b[..n]), b[n] as nat);
    }
  }

  lemma Shifted(a: nat, r: nat, b: nat, c: nat)
    ensures 256 * (a * r + b) + c == a * (256 * r) + (256 * b + c)
  {
  }

  /** The octets the grammar derives for a number are the ones written for it. */
  lemma NumberIs(size: nat, bs: bytes, n: nat)
    requires size in {1, 2, 4, 8}
    ensures IsNumber(size, bs, n) <==> n < Radix(size) && bs == PutNumber(n, size)
  {
    hide PutNumber;
    if |bs| == size {
      WrittenAs(bs, n);
      if size == 1 { OneOctet(bs); }
      else if size == 2 { TwoOctets(bs); }
      else if size == 4 { Number4Reads(bs, n); }
      else { Number8Reads(bs, n); }
    }
  }

  lemma Number8Reads(bs: bytes, n: nat)
    requires |bs| == 8
    ensures IsNumber(8, bs, n) <==> GetNumber(bs) == n
  {
    hide GetNumber, IsNumber4, Radix;
    var h, l := n / 0x1_0000_0000, n % 0x1_0000_0000;
    Number4Reads(bs[..4], h);
    Number4Reads(bs[4..], l);
    assert bs == bs[..4] + bs[4..];
    ReadsInTwo(bs[..4], bs[4..]);
    Radix4();
    if GetNumber(bs) == n {
      DivModIs(n, 0x1_0000_0000, GetNumber(bs[..4]), GetNumber(bs[4..]));
    }
  }

  lemma Radix4()
    ensures Radix(4) == 0x1_0000_0000
  {
    assert Radix(2) == 0x1_0000;
  }

  // ---------------------------------------------------------------- lengths, lists and tables

  lemma SizedIs(width: nat, bs: bytes, s: bytes)
    requires width in {1, 4}
    ensures IsSized(width, bs, s) <==> |s| < Radix(width) && bs == PutSized(s, width)
  {
    hide PutNumber, IsNumber;
    if |bs| == width + |s| {
      NumberIs(width, bs[..width], |s|);
      assert bs == bs[..width] + bs[width..];
    }
  }

  lemma {:induction false} ItemsAre(bs: bytes, l: seq<bytes>)
    requires forall i :: 0 <= i < |l| ==> |l[i]| < Radix(4)
    ensures IsItems(bs, l) <==> bs == PutList(l)
    decreases |l|
  {
    hide PutSized, IsSized, Radix;
    if l != [] {
      forall cut: nat | cut <= |bs|
        ensures IsSized(4, bs[..cut], l[0]) <==> bs[..cut] == PutSized(l[0], 4)
        ensures IsItems(bs[cut..], l[1..]) <==> bs[cut..] == PutList(l[1..])
      {
        SizedIs(4, bs[..cut], l[0]);
        ItemsAre(bs[cut..], l[1..]);
        assert bs == bs[..cut] + bs[cut..];
      }
      CutAt(bs, PutSized(l[0], 4), PutList(l[1..]));
    }
  }

  /** A sequence is a + b exactly when it can be cut into them. */
  lemma CutAt(bs: bytes, a: bytes, b: bytes)
    ensures bs == a + b ==> |a| <= |bs| && bs[..|a|] == a && bs[|a|..] == b
  {
  }

  lemma PairIs(bs: bytes, p: Pair)
    requires p.Fits()
    ensures IsPair(bs, p) <==> bs == PutPair(p)
  {
    hide PutSized, IsSized, Radix;
    forall cut: nat | cut <= |bs|
      ensures IsSized(1, bs[..cut], p.key) <==> bs[..cut] == PutSized(p.key, 1)
      ensures IsSized(4, bs[cut..], p.value) <==> bs[cut..] == PutSized(p.value, 4)
    {
      SizedIs(1, bs[..cut], p.key);
      SizedIs(4, bs[cut..], p.value);
      assert bs == bs[..cut] + bs[cut..];
    }
    CutAt(bs, PutSized(p.key, 1), PutSized(p.value, 4));
  }

  lemma {:induction false} PairsAre(bs: bytes, t: seq<Pair>)
    requires forall i :: 0 <= i < |t| ==> t[i].Fits()
    ensures IsPairs(bs, t) <==> bs == PutTable(t)
    decreases |t|
  {
    hide PutPair, IsPair, Pair.Fits;
    if t != [] {
      forall cut: nat | cut <= |bs|
        ensures IsPair(bs[..cut], t[0]) <==> bs[..cut] == PutPair(t[0])
        ensures IsPairs(bs[cut..], t[1..]) <==> bs[cut..] == PutTable(t[1..])
      {
        PairIs(bs[..cut], t[0]);
        PairsAre(bs[cut..], t[1..]);
        assert bs == bs[..cut] + bs[cut..];
      }
      CutAt(bs, PutPair(t[0]), PutTable(t[1..]));
    }
  }

  /** A count and what it counts. */
  lemma CountedIs(bs: bytes, n: nat, items: bytes)
    requires n < Radix(4)
    ensures |bs| >= 4 && IsNumber(4, bs[..4], n) && bs[4..] == items <==> bs == PutNumber(n, 4) + items
  {
    hide IsNumber, Radix, PutNumber;
    if |bs| >= 4 {
      NumberIs(4, bs[..4], n);
      assert bs == bs[..4] + bs[4..];
    }
    CutAt(bs, PutNumber(n, 4), items);
  }

  lemma StringsAre(bs: bytes, l: seq<bytes>)
    requires |l| < Radix(4) && forall i :: 0 <= i < |l| ==> |l[i]| < Radix(4)
    ensures IsStrings(bs, l) <==> bs == PutNumber(|l|, 4) + PutList(l)
  {
    hide IsNumber, IsItems, PutNumber, PutList, Radix;
    CountedIs(bs, |l|, PutList(l));
    if |bs| >= 4 { ItemsAre(bs[4..], l); }
  }

  lemma HashIs(bs: bytes, t: seq<Pair>)
    requires |t| < Radix(4) && forall i :: 0 <= i < |t| ==> t[i].Fits()
    ensures IsHash(bs, t) <==> bs == PutNumber(|t|, 4) + PutTable(t)
  {
    hide IsNumber, IsPairs, PutNumber, PutTable, Radix, Pair.Fits;
    CountedIs(bs, |t|, PutTable(t));
    if |bs| >= 4 { PairsAre(bs[4..], t); }
  }

  // ---------------------------------------------------------------- fields and frames

  lemma NoneWritten()
    ensures PutNumber(0, 4) + PutList([]) == PutNumber(0, 4) == PutNumber(0, 4) + PutTable([])
    ensures PutSized([], 4) == PutNumber(0, 4)
    ensures 0 < Radix(4)
  {
  }

  lemma ZerosAre(bs: bytes)
    ensures IsZeros(bs, 16) <==> bs == PutNumber(0, 16)
  {
    ZeroNumber(16);
  }

  /** For every kind of field the grammar derives exactly what is written. */
  lemma FieldIs(k: Kind, bs: bytes, v: Value)
    requires WellFormed(k) && Holds(k, v) && Fits(k, v)
    ensures IsField(k, bs, v) <==> bs == PutField(k, v)
  {
    hide IsNumber, IsSized, IsStrings, IsHash, IsZeros, PutNumber, PutSized, PutList, PutTable, Radix;
    NoneWritten();
    match k
    case Number(size, fixed) => NumberIs(size, bs, if fixed.Some? then fixed.value else v.n);
    case Octets(_) =>
    case Str(text) => TextIs(k, bs, v);
    case LongStr => SizedIs(4, bs, v.long.GetOr([]));
    case Strings => StringsAre(bs, v.list.GetOr([]));
    case Hash => HashIs(bs, v.table.GetOr([]));
    case Chunk => SizedIs(4, bs, v.blob.GetOr([]));
    case Uuid => ZerosAre(bs);
    case Frame =>
    case Msg =>
  }

  lemma TextIs(k: Kind, bs: bytes, v: Value)
    requires k.Str? && WellFormed(k) && Holds(k, v)
    ensures IsField(k, bs, v) <==> bs == PutField(k, v)
  {
    hide IsSized, PutSized;
    assert Radix(1) == 256;
    SizedIs(1, bs, if k.text.Some? then k.text.value else v.text);
  }

  lemma {:induction false} FieldsAre(kinds: seq<Kind>, bs: bytes, vals: seq<Value>)
    requires HoldsAll(kinds, vals) && FitsAll(kinds, vals) && forall i :: 0 <= i < |kinds| ==> WellFormed(kinds[i])
    ensures IsFields(kinds, bs, vals) <==> bs == PutFields(kinds, vals)
    decreases |kinds|
  {
    hide Holds, Fits, WellFormed, IsField, PutField;
    if kinds != [] {
      forall cut: nat | cut <= |bs|
        ensures IsField(kinds[0], bs[..cut], vals[0]) <==> bs[..cut] == PutField(kinds[0], vals[0])
        ensures IsFields(kinds[1..], bs[cut..], vals[1..]) <==> bs[cut..] == PutFields(kinds[1..], vals[1..])
      {
        FieldIs(kinds[0], bs[..cut], vals[0]);
        FieldsAre(kinds[1..], bs[cut..], vals[1..]);
        assert bs == bs[..cut] + bs[cut..];
      }
      CutAt(bs, PutField(kinds[0], vals[0]), PutFields(kinds[1..], vals[1..]));
    }
  }

  /**
   For every schema and conforming message, the documented grammar derives exactly one first frame, and it
   is the one the encoder writes.
   */
  lemma EncodingIsDocumented(s: Schema, m: Message, bs: bytes)
    requires Sendable(s, m) && Conforms(s, m)
    ensures IsFrame(s, bs, m) <==> bs == FirstFrame(s, m)
  {
    hide IsFields, PutFields, Holds, Fits, WellFormed, PutNumber;
    HeaderIs(s, m.id);
    FieldsAre(s.messages[m.id], if |bs| >= 3 then bs[3..] else [], m.values);
    if |bs| >= 3 { assert bs == bs[..3] + bs[3..]; }
    CutAt(bs, s.Header(m.id), PutFields(s.messages[m.id], m.values));
  }

  lemma HeaderIs(s: Schema, id: nat)
    requires s.Valid() && id in s.messages
    ensures s.Header(id) == [0xAA, (0xA0 + s.signature) as byte, id as byte]
  {
    hide WellFormedAll;
    MostSignificantFirst(s.Magic());
    MostSignificantFirst(id);
  }
}
