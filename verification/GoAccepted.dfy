/**
 Every STRUCTURES frame the C receiver accepts, read by both sides: the Go reader takes the same octets
 for the same fields, keeps what follows a NUL, and keeps the last value of a key read twice.
 */
module GoAccepted {
  import opened Options
  import opened Bytes
  import opened Wire
  import opened RoundTrip
  import opened GoStructures

  // ---------------------------------------------------------------- the same slices

  /** The C strings in what Go read. */
  function CutTexts(l: seq<bytes>): seq<bytes> {
    if l == [] then [] else [CStr(l[0])] + CutTexts(l[1..])
  }

  function CutPair(p: Pair): Pair {
    Pair(CStr(p.key), CStr(p.value))
  }

  function CutPairs(t: seq<Pair>): seq<Pair> {
    if t == [] then [] else [CutPair(t[0])] + CutPairs(t[1..])
  }

  lemma NumAgrees(input: bytes, size: nat)
    requires GetNum(input, size).exit.Done?
    ensures ReadNum(input, size) == (GetNum(input, size).value, input[size..])
  {
  }

  lemma SizedAgrees(input: bytes, width: nat)
    requires GetSized(input, width).exit.Done?
    ensures var g := GetSized(input, width);
      ReadSized(input, width) == (g.value, input[g.used..])
  {
    hide GetNumber;
    var n := GetNum(input, width).value;
    assert input[width..][..n] == input[width..width + n];
    assert input[width..][n..] == input[width + n..];
  }

  lemma {:induction false} ListAgrees(count: nat, input: bytes)
    requires GetList(count, input).exit.Done?
    ensures var g := GetList(count, input);
      var (l, rest) := ReadList(count, input);
      g.value == CutTexts(l) && rest == input[g.used..]
  {
    hide GetSized, ReadSized, GetList, CStr;
    ListTurn(count, input);
    if count > 0 {
      var s := GetSized(input, 4);
      SizedAgrees(input, 4);
      ListAgrees(count - 1, input[s.used..]);
      var (l, rest) := ReadList(count - 1, input[s.used..]);
      assert ([s.value] + l)[1..] == l;
      SuffixOfSuffix(input, s.used, GetList(count - 1, input[s.used..]).used);
    }
  }

  lemma SuffixOfSuffix(input: bytes, a: nat, b: nat)
    requires a + b <= |input|
    ensures input[a..][b..] == input[a + b..]
  {
  }

  lemma PairAgrees(input: bytes)
    requires GetPair(input).exit.Done?
    ensures var g := GetPair(input);
      var (p, rest) := ReadPair(input);
      g.value == CutPair(p) && rest == input[g.used..]
  {
    hide GetSized, ReadSized, CStr;
    var k := GetSized(input, 1);
    SizedAgrees(input, 1);
    SizedAgrees(input[k.used..], 4);
    SuffixOfSuffix(input, k.used, GetSized(input[k.used..], 4).used);
  }

  lemma {:induction false} PairsAgree(count: nat, input: bytes)
    requires GetPairs(count, input).exit.Done?
    ensures GetPairs(count, input).value == CutPairs(ReadPairs(count, input).0)
  {
    hide GetPair, ReadPair, GetPairs, CutPair;
    PairsTurn(count, input);
    if count > 0 {
      var p := GetPair(input);
      PairAgrees(input);
      PairsAgree(count - 1, input[p.used..]);
      var read, more := ReadPair(input).0, ReadPairs(count - 1, input[p.used..]).0;
      assert ([read] + more)[1..] == more;
    }
  }

  /** The three fields of a message both sides read from its octets behind the header. */
  lemma FieldsAgree(olds: seq<Value>, body: bytes, parts: seq<bytes>)
    requires |olds| == 3 && RecvFields(STRUCTURES, olds, body, parts).exit.Done?
    ensures var (sequence, list, pairs) := Unmarshalled(body);
      && sequence.Some?
      && RecvFields(STRUCTURES, olds, body, parts).values
         == [Num(sequence.value), List(Some(CutTexts(list))), Table(Some(InsertAll(CutPairs(pairs))))]
  {
    hide RecvFields, GetList, GetPairs, GetNumber, ReadList, ReadPairs, CutTexts, CutPairs, InsertAll;
    RecvFieldsTurn(STRUCTURES, olds, body, parts);
    assert STRUCTURES[1..] == [Strings, Hash] && [Strings, Hash][1..] == [Hash] && [Hash][1..] == [];
    assert |body| >= 2;
    var rest := body[2..];
    RecvFieldsTurn([Strings, Hash], olds[1..], rest, parts);
    NumAgrees(rest, 4);
    var n := GetNum(rest, 4).value;
    ListAgrees(n, rest[4..]);
    var used := GetList(n, rest[4..]).used;
    SuffixOfSuffix(rest, 4, used);
    var last := rest[4 + used..];
    RecvFieldsTurn([Hash], olds[1..][1..], last, parts);
    NumAgrees(last, 4);
    PairsAgree(GetNum(last, 4).value, last[4..]);
    RecvFieldsTurn([], olds[1..][1..][1..], last[RecvField(Hash, last, parts).used..], parts);
  }

  /**
   For every frame C accepts, whatever it holds behind the message: Go does not refuse it, reads the same
   sequence number, and C's list and table are the C strings in Go's list and pairs, first values kept.
   */
  lemma GoReadsWhatCAccepts(olds: map<nat, seq<Value>>, frame: bytes, parts: seq<bytes>)
    requires Contents(EXAMPLE, olds) && Recv(EXAMPLE, olds, frame, parts).exit.Done?
    ensures Refusal([frame]) == None && |frame| >= 3
    ensures var (sequence, list, pairs) := Unmarshalled(frame[3..]);
      && sequence.Some?
      && Recv(EXAMPLE, olds, frame, parts).values
         == [Num(sequence.value), List(Some(CutTexts(list))), Table(Some(InsertAll(CutPairs(pairs))))]
  {
    hide RecvFields, GetNumber, Unmarshalled, CutTexts, CutPairs, InsertAll;
    NumAgrees(frame, 2);
    NumAgrees(frame[2..], 1);
    FieldsAgree(olds[STRUCTURES_ID], frame[3..], parts);
  }

  // ---------------------------------------------------------------- when the contents are the same

  predicate AllNulFree(l: seq<bytes>) {
    forall i :: 0 <= i < |l| ==> NulFree(l[i])
  }

  predicate PairsNulFree(t: seq<Pair>) {
    forall i :: 0 <= i < |t| ==> t[i].NulFree()
  }

  lemma {:induction false} CutTextsSame(l: seq<bytes>)
    ensures CutTexts(l) == l <==> AllNulFree(l)
  {
    hide CStr, NulFree;
    if l != [] {
      CutTextsSame(l[1..]);
      CStrSame(l[0]);
      assert CutTexts(l)[1..] == CutTexts(l[1..]) && CutTexts(l)[0] == CStr(l[0]);
      if CutTexts(l[1..]) == l[1..] && CStr(l[0]) == l[0] {
        assert l == [l[0]] + l[1..];
      }
      if AllNulFree(l[1..]) && NulFree(l[0]) {
        forall i | 0 <= i < |l| ensures NulFree(l[i]) {
          if i > 0 { assert l[i] == l[1..][i - 1]; }
        }
      }
      if AllNulFree(l) {
        assert l[0] == l[0];
        forall i | 0 <= i < |l[1..]| ensures NulFree(l[1..][i]) {
          assert l[1..][i] == l[i + 1];
        }
      }
    }
  }

  lemma CStrSame(s: bytes)
    ensures CStr(s) == s <==> NulFree(s)
  {
    if NulFree(s) {
      CStrOfNulFree(s);
    }
  }

  lemma {:induction false} CutPairsSame(t: seq<Pair>)
    requires PairsNulFree(t)
    ensures CutPairs(t) == t
  {
    hide CStr, NulFree;
    if t != [] {
      CStrSame(t[0].key);
      CStrSame(t[0].value);
      assert t[0].NulFree();
      forall i | 0 <= i < |t[1..]| ensures t[1..][i].NulFree() {
        assert t[1..][i] == t[i + 1];
      }
      CutPairsSame(t[1..]);
      assert t == [t[0]] + t[1..];
    }
  }

  /** The value a key has last, and first, among some pairs. */
  function LastValue(t: seq<Pair>, k: bytes): Option<bytes> {
    if t == [] then None
    else if t[|t| - 1].key == k then Some(t[|t| - 1].value)
    else LastValue(t[..|t| - 1], k)
  }

  function FirstValue(t: seq<Pair>, k: bytes): Option<bytes> {
    if t == [] then None
    else if FirstValue(t[..|t| - 1], k).Some? then FirstValue(t[..|t| - 1], k)
    else if t[|t| - 1].key == k then Some(t[|t| - 1].value) else None
  }

  function ValueIn(m: map<bytes, bytes>, k: bytes): Option<bytes> {
    if k in m then Some(m[k]) else None
  }

  /** A Go map keeps the last value. */
  lemma {:induction false} AssignKeepsLast(t: seq<Pair>, k: bytes)
    ensures ValueIn(Assign(map[], t), k) == LastValue(t, k)
  {
    if t != [] {
      AssignKeepsLast(t[..|t| - 1], k);
    }
  }

  lemma {:induction false} HasKeyIsValue(t: seq<Pair>, k: bytes)
    ensures HasKey(t, k) <==> LastValue(t, k).Some?
  {
    if t != [] {
      HasKeyLast(t, k);
      HasKeyIsValue(t[..|t| - 1], k);
    }
  }

  /** A C hash keeps the first. */
  lemma {:induction false} InsertKeepsFirst(t: seq<Pair>, k: bytes)
    ensures LastValue(InsertAll(t), k) == FirstValue(t, k)
  {
    hide HasKey;
    if t != [] {
      var init, p := t[..|t| - 1], t[|t| - 1];
      InsertKeepsFirst(init, k);
      InsertKeepsFirst(init, p.key);
      HasKeyIsValue(InsertAll(init), p.key);
      assert (InsertAll(init) + [p])[..|InsertAll(init)|] == InsertAll(init);
    }
  }

  /** No key is read twice with different first and last values. */
  ghost predicate KeysAgree(t: seq<Pair>) {
    forall k :: FirstValue(t, k) == LastValue(t, k)
  }

  lemma SameTableExactly(pairs: seq<Pair>)
    ensures Assign(map[], InsertAll(pairs)) == Assign(map[], pairs) <==> KeysAgree(pairs)
  {
    hide Assign, InsertAll, FirstValue, LastValue;
    var c, go := Assign(map[], InsertAll(pairs)), Assign(map[], pairs);
    forall k ensures ValueIn(c, k) == FirstValue(pairs, k) && ValueIn(go, k) == LastValue(pairs, k) {
      AssignKeepsLast(InsertAll(pairs), k);
      AssignKeepsLast(pairs, k);
      InsertKeepsFirst(pairs, k);
    }
    if KeysAgree(pairs) {
      forall k ensures (k in c <==> k in go) && (k in c ==> c[k] == go[k]) {
        assert ValueIn(c, k) == ValueIn(go, k);
      }
      assert c == go;
    }
  }

  lemma DistinctKeysAgree(t: seq<Pair>)
    requires DistinctKeys(t)
    ensures KeysAgree(t)
  {
    hide FirstValue, LastValue;
    InsertDistinct(t);
    forall k ensures FirstValue(t, k) == LastValue(t, k) {
      InsertKeepsFirst(t, k);
    }
  }

  /**
   For every frame C accepts: C's aliases are Go's exactly when those are free of NULs; and when the header
   texts are, C's headers are those of a fresh Go object exactly when no key is repeated with another
   value, first against last. Distinct keys always agree.
   */
  lemma SameContentsExactly(olds: map<nat, seq<Value>>, frame: bytes, parts: seq<bytes>)
    requires Contents(EXAMPLE, olds) && Recv(EXAMPLE, olds, frame, parts).exit.Done?
    ensures |frame| >= 3 && Refusal([frame]) == None
    ensures var (sequence, list, pairs) := Unmarshalled(frame[3..]);
      var values := Recv(EXAMPLE, olds, frame, parts).values;
      && |values| == 3 && values[1].List? && values[1].list.Some? && values[2].Table? && values[2].table.Some?
      && sequence.Some? && values[0] == Num(sequence.value)
      && (values[1].list.value == list <==> AllNulFree(list))
      && (PairsNulFree(pairs) ==>
            (Assign(map[], values[2].table.value) == Assign(map[], pairs) <==> KeysAgree(pairs)))
      && (DistinctKeys(pairs) ==> KeysAgree(pairs))
  {
    hide Recv, Unmarshalled, Refusal, CutTexts, CutPairs, InsertAll, Assign, AllNulFree, PairsNulFree, KeysAgree,
      DistinctKeys;
    GoReadsWhatCAccepts(olds, frame, parts);
    var (sequence, list, pairs) := Unmarshalled(frame[3..]);
    CutTextsSame(list);
    SameTableExactly(pairs);
    if PairsNulFree(pairs) {
      CutPairsSame(pairs);
    }
    if DistinctKeys(pairs) {
      DistinctKeysAgree(pairs);
    }
  }
}
