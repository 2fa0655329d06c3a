/**
 The Go implementation of the STRUCTURES message: a second encoder and decoder for the same octets.
 Its reader never reports truncation; its map is visited in any order.
 */
module GoStructures {
  import opened Options
  import opened Bytes
  import opened Wire
  import opened RoundTrip
  import opened CodecLaws

  const STRUCTURES_ID := 2

  /** sequence, aliases, headers. */
  const STRUCTURES: seq<Kind> := [Number(2, None), Strings, Hash]

  /** The example protocol as far as this message goes: signature 0. */
  const EXAMPLE := Schema(0, map[STRUCTURES_ID := STRUCTURES])

  // ---------------------------------------------------------------- maps and visiting orders

  /** One run of `range` over a map: every key once. */
  ghost predicate Visits(order: seq<bytes>, m: map<bytes, bytes>) {
    (forall i, j :: 0 <= i < j < |order| ==> order[i] != order[j]) && (forall k :: k in order <==> k in m)
  }

  function Visited(m: map<bytes, bytes>, order: seq<bytes>): (t: seq<Pair>)
    requires forall i :: 0 <= i < |order| ==> order[i] in m
    ensures |t| == |order|
  {
    seq(|order|, i requires 0 <= i < |order| => Pair(order[i], m[order[i]]))
  }

  lemma VisitLength(order: seq<bytes>, m: map<bytes, bytes>)
    requires Visits(order, m)
    ensures |order| == |m|
  {
    DistinctCount(order);
    assert (set k | k in order) == m.Keys;
  }

  lemma {:induction false} DistinctCount(s: seq<bytes>)
    requires forall i, j :: 0 <= i < j < |s| ==> s[i] != s[j]
    ensures |set k | k in s| == |s|
  {
    if s != [] {
      DistinctCount(s[1..]);
      assert (set k | k in s) == (set k | k in s[1..]) + {s[0]};
    }
  }

  /** Assigning the pairs to a map one by one. */
  function Assign(m: map<bytes, bytes>, t: seq<Pair>): map<bytes, bytes> {
    if t == [] then m else Assign(m, t[..|t| - 1])[t[|t| - 1].key := t[|t| - 1].value]
  }

  lemma HasKeyLast(t: seq<Pair>, k: bytes)
    requires t != []
    ensures HasKey(t, k) <==> HasKey(t[..|t| - 1], k) || k == t[|t| - 1].key
  {
    var n := |t| - 1;
    if HasKey(t, k) && k != t[n].key {
      var i :| 0 <= i < |t| && t[i].key == k;
      assert t[..n][i].key == k;
    }
    if HasKey(t[..n], k) {
      var i :| 0 <= i < n && t[..n][i].key == k;
      assert t[i].key == k;
    }
    if k == t[n].key { assert t[n].key == k; }
  }

  lemma {:induction false} AssignIs(m: map<bytes, bytes>, t: seq<Pair>)
    requires DistinctKeys(t)
    ensures forall k :: k in Assign(m, t) <==> k in m || HasKey(t, k)
    ensures forall i :: 0 <= i < |t| ==> t[i].key in Assign(m, t) && Assign(m, t)[t[i].key] == t[i].value
  {
    hide HasKey;
    if t != [] {
      AssignIs(m, t[..|t| - 1]);
      forall k ensures HasKey(t, k) <==> HasKey(t[..|t| - 1], k) || k == t[|t| - 1].key {
        HasKeyLast(t, k);
      }
    } else {
      NoKeys();
    }
  }

  lemma NoKeys()
    ensures forall k :: !HasKey([], k)
  {
  }

  lemma VisitedKeys(m: map<bytes, bytes>, order: seq<bytes>)
    requires Visits(order, m)
    ensures DistinctKeys(Visited(m, order))
    ensures forall k :: HasKey(Visited(m, order), k) <==> k in m
  {
    var t := Visited(m, order);
    forall k ensures HasKey(t, k) <==> k in m {
      if k in m { var i :| 0 <= i < |order| && order[i] == k; assert t[i].key == k; }
      if HasKey(t, k) { var i :| 0 <= i < |t| && t[i].key == k; assert order[i] == k; }
    }
  }

  /** A visit of a map, assigned to an empty map, is the map again. */
  lemma VisitRebuilds(m: map<bytes, bytes>, order: seq<bytes>)
    requires Visits(order, m)
    ensures DistinctKeys(Visited(m, order)) && Assign(map[], Visited(m, order)) == m
  {
    hide Assign, DistinctKeys;
    var t := Visited(m, order);
    VisitedKeys(m, order);
    AssignIs(map[], t);
    forall k | k in m ensures Assign(map[], t)[k] == m[k] {
      assert HasKey(t, k);
      var i :| 0 <= i < |t| && t[i].key == k;
    }
  }

  lemma NothingAssigned(m: map<bytes, bytes>)
    ensures Assign(m, []) == m
  {
  }

  lemma AssignLast(m: map<bytes, bytes>, t: seq<Pair>, p: Pair)
    ensures Assign(m, t + [p]) == Assign(m, t)[p.key := p.value]
  {
    assert (t + [p])[..|t|] == t;
  }

  // ---------------------------------------------------------------- bytes.Buffer and binary.Read

  /** binary.Read of a fixed-size number into a zero variable: a short read consumes what there is. */
  function ReadNum(data: bytes, size: nat): (r: (nat, bytes))
    ensures |r.1| <= |data|
  {
    if |data| < size then (0, []) else (GetNumber(data[..size]), data[size..])
  }

  /** A length and that many octets; a short read leaves the zeros the slice was made of. */
  function ReadSized(data: bytes, width: nat): (bytes, bytes) {
    var (n, rest) := ReadNum(data, width);
    if |rest| < n then (seq(n, _ => 0 as byte), []) else (rest[..n], rest[n..])
  }

  function ReadList(count: nat, data: bytes): (seq<bytes>, bytes) {
    if count == 0 then ([], data) else
      var (s, rest) := ReadSized(data, 4);
      var (more, end) := ReadList(count - 1, rest);
      ([s] + more, end)
  }

  function ReadPair(data: bytes): (Pair, bytes) {
    var (k, rest) := ReadSized(data, 1);
    var (v, rest') := ReadSized(rest, 4);
    (Pair(k, v), rest')
  }

  function ReadPairs(count: nat, data: bytes): (seq<Pair>, bytes) {
    if count == 0 then ([], data) else
      var (p, rest) := ReadPair(data);
      var (more, end) := ReadPairs(count - 1, rest);
      ([p] + more, end)
  }

  class Buffer {
    var data: bytes

    constructor (data: bytes)
      ensures this.data == data
    {
      this.data := data;
    }

    /** binary.Write of an unsigned number. */
    method WriteNum(n: nat, size: nat)
      modifies this
      ensures data == old(data) + PutNumber(n, size)
    {
      data := data + PutNumber(n, size);
    }

    /** putString and putLongString. */
    method PutText(s: bytes, width: nat)
      modifies this
      ensures data == old(data) + PutSized(s, width)
    {
      WriteNum(|s|, width);
      data := data + s;
    }

    method NextNum(size: nat) returns (n: nat)
      modifies this
      ensures (n, data) == ReadNum(old(data), size)
    {
      if |data| < size {
        n, data := 0, [];
      } else {
        n, data := GetNumber(data[..size]), data[size..];
      }
    }

    /** getString and getLongString. */
    method GetText(width: nat) returns (s: bytes)
      modifies this
      ensures (s, data) == ReadSized(old(data), width)
    {
      var n := NextNum(width);
      if |data| < n {
        s, data := seq(n, _ => 0 as byte), [];
      } else {
        s, data := data[..n], data[n..];
      }
    }
  }

  // ---------------------------------------------------------------- the message

  datatype Error = NoFrames | InvalidSignature | WrongId

  function Refusal(frames: seq<bytes>): Option<Error> {
    if frames == [] then Some(NoFrames) else
      var (signature, rest) := ReadNum(frames[0], 2);
      if signature != 0xAAA0 then Some(InvalidSignature)
      else if ReadNum(rest, 1).0 != STRUCTURES_ID then Some(WrongId) else None
  }

  /** What Unmarshal makes of a first frame that carries the right signature and id. */
  function Unmarshalled(data: bytes): (r: (Option<nat>, seq<bytes>, seq<Pair>)) {
    var sequence := if |data| < 2 then None else Some(GetNumber(data[..2]));
    var rest := if |data| < 2 then [] else data[2..];
    var (n, rest') := ReadNum(rest, 4);
    var (aliases, rest'') := ReadList(n, rest');
    var (m, rest''') := ReadNum(rest'', 4);
    (sequence, aliases, ReadPairs(m, rest''').0)
  }

  /** The octets Marshal produces when its map is visited as `table`. */
  function Marshalled(sequence: nat, aliases: seq<bytes>, table: seq<Pair>): bytes {
    EXAMPLE.Header(STRUCTURES_ID) + (PutNumber(sequence, 2)
      + ((PutNumber(|aliases|, 4) + PutList(aliases)) + (PutNumber(|table|, 4) + PutTable(table))))
  }

  class Structures {
    var sequence: nat
    var aliases: seq<bytes>
    var headers: map<bytes, bytes>

    constructor ()
      ensures sequence == 0 && aliases == [] && headers == map[]
    {
      sequence, aliases, headers := 0, [], map[];
    }

    method WriteAliases(buffer: Buffer)
      modifies buffer
      ensures buffer.data == old(buffer.data) + (PutNumber(|aliases|, 4) + PutList(aliases))
    {
      hide PutNumber;
      buffer.WriteNum(|aliases|, 4);
      ghost var start := buffer.data;
      for i := 0 to |aliases|
        invariant buffer.data + PutList(aliases[i..]) == start + PutList(aliases)
      {
        ListFrom(aliases, i);
        Join(buffer.data, PutSized(aliases[i], 4), PutList(aliases[i + 1..]));
        buffer.PutText(aliases[i], 4);
      }
      Join(old(buffer.data), PutNumber(|aliases|, 4), PutList(aliases));
    }

    method WriteHeader(buffer: Buffer, key: bytes)
      requires key in headers
      modifies buffer
      ensures buffer.data == old(buffer.data) + PutPair(Pair(key, headers[key]))
    {
      hide PutSized;
      Join(buffer.data, PutSized(key, 1), PutSized(headers[key], 4));
      buffer.PutText(key, 1);
      buffer.PutText(headers[key], 4);
    }

    method WriteHeaders(buffer: Buffer, order: seq<bytes>)
      requires Visits(order, headers)
      modifies buffer
      ensures buffer.data == old(buffer.data) + (PutNumber(|order|, 4) + PutTable(Visited(headers, order)))
    {
      hide PutNumber, PutPair, PutTable;
      ghost var table := Visited(headers, order);
      VisitLength(order, headers);
      buffer.WriteNum(|headers|, 4);
      ghost var start := buffer.data;
      NoItems();
      assert table[0..] == table;
      for i := 0 to |order|
        invariant buffer.data + PutTable(table[i..]) == start + PutTable(table)
      {
        TableFrom(table, i);
        Join(buffer.data, PutPair(table[i]), PutTable(table[i + 1..]));
        WriteHeader(buffer, order[i]);
      }
      assert table[|order|..] == [] && buffer.data + [] == buffer.data;
      Join(old(buffer.data), PutNumber(|order|, 4), PutTable(table));
    }

    /** Marshal, its map visited in some order. */
    method Marshal(order: seq<bytes>) returns (frame: bytes)
      requires Visits(order, headers)
      ensures frame == Marshalled(sequence, aliases, Visited(headers, order))
    {
      hide PutNumber, PutList, PutTable, Visits, Visited;
      var buffer := new Buffer([]);
      buffer.WriteNum(0xAAA0, 2);
      buffer.WriteNum(STRUCTURES_ID, 1);
      buffer.WriteNum(sequence, 2);
      WriteAliases(buffer);
      WriteHeaders(buffer, order);
      frame := buffer.data;
    }

    /** The aliases loop of Unmarshal: what is read is appended to the aliases there are. */
    method ReadAliases(buffer: Buffer, count: nat)
      requires buffer as object != this
      modifies this`aliases, buffer
      ensures var (list, rest) := ReadList(count, old(buffer.data));
        aliases == old(aliases) + list && buffer.data == rest
    {
      var left := count;
      ghost var list, rest := ReadList(count, buffer.data).0, ReadList(count, buffer.data).1;
      while left != 0
        invariant aliases + ReadList(left, buffer.data).0 == old(aliases) + list
        invariant ReadList(left, buffer.data).1 == rest
      {
        ghost var more := ReadList(left - 1, ReadSized(buffer.data, 4).1).0;
        Join(aliases, [ReadSized(buffer.data, 4).0], more);
        var s := buffer.GetText(4);
        aliases := aliases + [s];
        left := left - 1;
      }
    }

    /** The headers loop: a key read twice keeps its last value. */
    method ReadHeaders(buffer: Buffer, count: nat)
      requires buffer as object != this
      modifies this`headers, buffer
      ensures headers == Assign(old(headers), ReadPairs(count, old(buffer.data)).0)
    {
      hide ReadSized, Assign;
      var left := count;
      NothingAssigned(headers);
      ghost var all, done: seq<Pair> := ReadPairs(count, buffer.data).0, [];
      while left != 0
        invariant done + ReadPairs(left, buffer.data).0 == all
        invariant headers == Assign(old(headers), done)
      {
        ghost var p := ReadPair(buffer.data);
        Join(done, [p.0], ReadPairs(left - 1, p.1).0);
        var key := buffer.GetText(1);
        var val := buffer.GetText(4);
        headers := headers[key := val];
        AssignLast(old(headers), done, p.0);
        done := done + [p.0];
        left := left - 1;
      }
      assert done + [] == done;
    }

    /** Unmarshal appends aliases to those it finds and overwrites headers. */
    method Unmarshal(frames: seq<bytes>) returns (err: Option<Error>)
      modifies this
      ensures err == Refusal(frames)
      ensures err.Some? ==> unchanged(this)
      ensures err.None? ==>
        var (seqNo, list, pairs) := Unmarshalled(frames[0][3..]);
        && sequence == seqNo.GetOr(old(sequence)) && aliases == old(aliases) + list
        && headers == Assign(old(headers), pairs)
    {
      hide GetNumber, ReadList, ReadPairs, Assign;
      if frames == [] { return Some(NoFrames); }
      var buffer := new Buffer(frames[0]);
      var signature := buffer.NextNum(2);
      if signature != 0xAAA0 { return Some(InvalidSignature); }
      var id := buffer.NextNum(1);
      if id != STRUCTURES_ID { return Some(WrongId); }
      assert buffer.data == frames[0][3..];
      if |buffer.data| >= 2 {
        sequence := buffer.NextNum(2);
      } else {
        buffer.data := [];
      }
      var count := buffer.NextNum(4);
      ReadAliases(buffer, count);
      count := buffer.NextNum(4);
      ReadHeaders(buffer, count);
      err := None;
    }
  }

  // ---------------------------------------------------------------- two implementations, one format

  function AsMessage(sequence: nat, aliases: seq<bytes>, table: seq<Pair>): Message {
    Message(STRUCTURES_ID, [Num(sequence), List(Some(aliases)), Table(Some(table))])
  }

  /** Go and C write the same octets for the same contents visited in the same order. */
  lemma SameOctets(sequence: nat, aliases: seq<bytes>, table: seq<Pair>)
    requires Sendable(EXAMPLE, AsMessage(sequence, aliases, table))
    ensures Marshalled(sequence, aliases, table)
         == FirstFrame(EXAMPLE, AsMessage(sequence, aliases, table))
  {
    hide PutNumber, PutList, PutTable;
    var vals := [Num(sequence), List(Some(aliases)), Table(Some(table))];
    var strings, hash := PutField(Strings, vals[1]), PutField(Hash, vals[2]);
    assert STRUCTURES[1..] == [Strings, Hash] && vals[1..] == [vals[1], vals[2]];
    assert [Strings, Hash][1..] == [Hash] && [vals[1], vals[2]][1..] == [vals[2]];
    assert [Hash][1..] == [] && [vals[2]][1..] == [];
    assert PutFields([Hash], [vals[2]]) == hash;
    assert PutFields([Strings, Hash], [vals[1], vals[2]]) == strings + hash;
  }

  lemma ReadNumBack(n: nat, size: nat, tail: bytes)
    requires n < Radix(size)
    ensures ReadNum(PutNumber(n, size) + tail, size) == (n, tail)
  {
    NumRoundTrip(n, size, tail);
  }

  lemma ReadSizedBack(s: bytes, width: nat, tail: bytes)
    requires |s| < Radix(width)
    ensures ReadSized(PutSized(s, width) + tail, width) == (s, tail)
  {
    assert PutSized(s, width) + tail == PutNumber(|s|, width) + (s + tail);
    ReadNumBack(|s|, width, s + tail);
  }

  lemma {:induction false} ReadListBack(l: seq<bytes>, tail: bytes)
    requires forall i :: 0 <= i < |l| ==> |l[i]| < Radix(4)
    ensures ReadList(|l|, PutList(l) + tail) == (l, tail)
  {
    if l != [] {
      Join(PutSized(l[0], 4), PutList(l[1..]), tail);
      ReadSizedBack(l[0], 4, PutList(l[1..]) + tail);
      ReadListBack(l[1..], tail);
      assert [l[0]] + l[1..] == l;
    } else {
      assert PutList(l) + tail == tail;
    }
  }

  lemma ReadPairBack(p: Pair, tail: bytes)
    requires p.Fits()
    ensures ReadPair(PutPair(p) + tail) == (p, tail)
  {
    Join(PutSized(p.key, 1), PutSized(p.value, 4), tail);
    ReadSizedBack(p.key, 1, PutSized(p.value, 4) + tail);
    ReadSizedBack(p.value, 4, tail);
  }

  lemma {:induction false} ReadPairsBack(t: seq<Pair>, tail: bytes)
    requires forall i :: 0 <= i < |t| ==> t[i].Fits()
    ensures ReadPairs(|t|, PutTable(t) + tail) == (t, tail)
  {
    hide PutPair, ReadPair;
    if t != [] {
      Join(PutPair(t[0]), PutTable(t[1..]), tail);
      ReadPairBack(t[0], PutTable(t[1..]) + tail);
      ReadPairsBack(t[1..], tail);
      assert [t[0]] + t[1..] == t;
    } else {
      assert PutTable(t) + tail == tail;
    }
  }

  /** Go accepts and recovers whatever C encodes within the limits, trailing octets ignored. */
  lemma GoReadsBack(sequence: nat, aliases: seq<bytes>, table: seq<Pair>, tail: bytes)
    requires sequence < Radix(2) && |aliases| < Radix(4) && |table| < Radix(4)
    requires forall i :: 0 <= i < |aliases| ==> |aliases[i]| < Radix(4)
    requires forall i :: 0 <= i < |table| ==> table[i].Fits()
    ensures var frame := Marshalled(sequence, aliases, table) + tail;
      && Refusal([frame]) == None && |frame| >= 3
      && Unmarshalled(frame[3..]) == (Some(sequence), aliases, table)
  {
    hide PutNumber, PutList, PutTable, GetNumber, ReadList, ReadPairs, ReadNum;
    var hash := PutNumber(|table|, 4) + (PutTable(table) + tail);
    var strings := PutNumber(|aliases|, 4) + (PutList(aliases) + hash);
    var body := PutNumber(sequence, 2) + strings;
    var frame := Marshalled(sequence, aliases, table) + tail;
    assert frame == PutNumber(0xAAA0, 2) + (PutNumber(STRUCTURES_ID, 1) + body);
    assert frame[3..] == body;
    RadixIs();
    ReadNumBack(0xAAA0, 2, PutNumber(STRUCTURES_ID, 1) + body);
    ReadNumBack(STRUCTURES_ID, 1, body);
    ReadNumBack(sequence, 2, strings);
    FirstTwo(sequence, strings);
    ReadNumBack(|aliases|, 4, PutList(aliases) + hash);
    ReadListBack(aliases, hash);
    ReadNumBack(|table|, 4, PutTable(table) + tail);
    ReadPairsBack(table, tail);
  }

  lemma RadixIs()
    ensures Radix(1) == 256 && Radix(2) == 65536
  {
  }

  lemma FirstTwo(n: nat, tail: bytes)
    requires n < Radix(2)
    ensures GetNumber((PutNumber(n, 2) + tail)[..2]) == n && (PutNumber(n, 2) + tail)[2..] == tail
  {
    NumRoundTrip(n, 2, tail);
  }

  /** Contents both sides can hold and the format can carry. */
  predicate Limits(sequence: nat, aliases: seq<bytes>, headers: map<bytes, bytes>) {
    && sequence < Radix(2) && |aliases| < Radix(4) && |headers| < Radix(4)
    && (forall i :: 0 <= i < |aliases| ==> NulFree(aliases[i]) && |aliases[i]| < Radix(4))
    && (forall k :: k in headers ==> Pair(k, headers[k]).NulFree() && Pair(k, headers[k]).Fits())
  }

  lemma WithinLimits(
      sequence: nat, aliases: seq<bytes>, headers: map<bytes, bytes>, order: seq<bytes>)
    requires Limits(sequence, aliases, headers) && Visits(order, headers)
    ensures var m := AsMessage(sequence, aliases, Visited(headers, order));
      Sendable(EXAMPLE, m) && Conforms(EXAMPLE, m)
    ensures |order| < Radix(4)
    ensures forall i :: 0 <= i < |order| ==> Visited(headers, order)[i].Fits()
  {
    hide Assign, Pair.NulFree, Pair.Fits, DistinctKeys, HasKey;
    VisitLength(order, headers);
    VisitedKeys(headers, order);
    forall i | 0 <= i < |order|
      ensures Visited(headers, order)[i].NulFree() && Visited(headers, order)[i].Fits()
    {
      assert order[i] in headers && Visited(headers, order)[i] == Pair(order[i], headers[order[i]]);
    }
  }

  /** C to Go: whatever order C visits its table in, a fresh Go object recovers the contents. */
  lemma GoRecoversC(
      sequence: nat, aliases: seq<bytes>, headers: map<bytes, bytes>, order: seq<bytes>, tail: bytes)
    requires Limits(sequence, aliases, headers) && Visits(order, headers)
    ensures var m := AsMessage(sequence, aliases, Visited(headers, order));
      && Sendable(EXAMPLE, m)
      && var frame := FirstFrame(EXAMPLE, m) + tail;
      && Refusal([frame]) == None
      && var (seqNo, list, pairs) := Unmarshalled(frame[3..]);
      && seqNo == Some(sequence) && list == aliases && Assign(map[], pairs) == headers
  {
    hide Limits, Visited, Assign, Sendable, Conforms, FirstFrame, Marshalled, Unmarshalled, Refusal, Pair.Fits;
    LimitsAre(sequence, aliases, headers);
    WithinLimits(sequence, aliases, headers, order);
    SameOctets(sequence, aliases, Visited(headers, order));
    GoReadsBack(sequence, aliases, Visited(headers, order), tail);
    VisitRebuilds(headers, order);
  }

  lemma LimitsAre(sequence: nat, aliases: seq<bytes>, headers: map<bytes, bytes>)
    requires Limits(sequence, aliases, headers)
    ensures sequence < Radix(2) && |aliases| < Radix(4)
    ensures forall i :: 0 <= i < |aliases| ==> |aliases[i]| < Radix(4)
  {
  }

  /** Go to C: whatever order Go ranges over its map in, C recovers the same table. */
  lemma CRecoversGo(
      sequence: nat, aliases: seq<bytes>, headers: map<bytes, bytes>, order: seq<bytes>,
      olds: map<nat, seq<Value>>, tail: bytes)
    requires Limits(sequence, aliases, headers) && Visits(order, headers) && Contents(EXAMPLE, olds)
    ensures var r := Recv(EXAMPLE, olds, Marshalled(sequence, aliases, Visited(headers, order)) + tail, []);
      && r.exit.Done? && r.id == Some(STRUCTURES_ID)
      && r.values == AsMessage(sequence, aliases, Visited(headers, order)).values
      && Assign(map[], Visited(headers, order)) == headers
  {
    hide Limits, Visited, Assign, Sendable, Conforms, FirstFrame, Marshalled, Recv, NormalAll, Pair.Fits;
    var m := AsMessage(sequence, aliases, Visited(headers, order));
    WithinLimits(sequence, aliases, headers, order);
    SameOctets(sequence, aliases, Visited(headers, order));
    NoFurtherFrames(m);
    assert [] + [] == OtherFrames(EXAMPLE, m) + [];
    MessageRoundTrip(EXAMPLE, m, olds, tail, []);
    AlreadyNormal(m);
    VisitRebuilds(headers, order);
  }

  lemma NoFurtherFrames(m: Message)
    requires Sendable(EXAMPLE, m) && m.id == STRUCTURES_ID
    ensures OtherFrames(EXAMPLE, m) == []
  {
    var vals := m.values;
    assert STRUCTURES[1..] == [Strings, Hash] && vals[1..] == [vals[1], vals[2]];
    assert [Strings, Hash][1..] == [Hash] && [vals[1], vals[2]][1..] == [vals[2]];
    assert PartsOf([Hash], [vals[2]]) == [];
    assert PartsOf([Strings, Hash], [vals[1], vals[2]]) == [];
  }

  lemma AlreadyNormal(m: Message)
    requires |m.values| == 3 && m.values[0].Num?
    requires m.values[1].List? && m.values[1].list.Some? && m.values[2].Table? && m.values[2].table.Some?
    ensures NormalAll(m.values) == m.values
  {
  }

  // ---------------------------------------------------------------- what Go refuses

  /**
   Unmarshal refuses a message exactly when it has no frames, or its first one does not start with the
   octets AA A0 and the id of STRUCTURES; a frame of fewer than three octets among them.
   */
  lemma RefusesExactly(frames: seq<bytes>)
    ensures Refusal(frames).None? <==>
      frames != [] && |frames[0]| >= 3 && frames[0][0] == 0xAA && frames[0][1] == 0xA0 && frames[0][2] == 2
    ensures frames != [] && |frames[0]| >= 2 && !(frames[0][0] == 0xAA && frames[0][1] == 0xA0) ==>
      Refusal(frames) == Some(InvalidSignature)
    ensures frames != [] && |frames[0]| >= 3 && frames[0][0] == 0xAA && frames[0][1] == 0xA0 && frames[0][2] != 2 ==>
      Refusal(frames) == Some(WrongId)
    ensures frames == [] ==> Refusal(frames) == Some(NoFrames)
  {
    hide GetNumber;
    if frames != [] && |frames[0]| >= 2 {
      TwoOctets(frames[0][..2]);
      if |frames[0]| >= 3 { OneOctet(frames[0][2..][..1]); }
    }
  }

  /** A string read from a buffer that is too short has its full length all the same, of zeros. */
  lemma ShortReadIsZeros(data: bytes, width: nat)
    requires |data| >= width
    ensures var n, (s, rest) := GetNumber(data[..width]), ReadSized(data, width);
      && |s| == n
      && (|data| - width >= n ==> s == data[width..width + n] && rest == data[width + n..])
      && (|data| - width < n ==> rest == [] && forall i :: 0 <= i < n ==> s[i] == 0)
  {
    hide GetNumber;
    var n := GetNumber(data[..width]);
    if |data| - width >= n {
      assert data[width..][..n] == data[width..width + n] && data[width..][n..] == data[width + n..];
    }
  }

  /** From an exhausted buffer every string and pair is read as empty, as many as the count claims. */
  lemma {:induction false} ExhaustedReads(count: nat)
    ensures var (l, rest) := ReadList(count, []);
      |l| == count && rest == [] && forall i :: 0 <= i < count ==> l[i] == []
    ensures var (t, rest) := ReadPairs(count, []);
      |t| == count && rest == [] && forall i :: 0 <= i < count ==> t[i] == Pair([], [])
  {
    if count > 0 {
      ExhaustedReads(count - 1);
      ExhaustedText(1);
      ExhaustedText(4);
    }
  }

  lemma ExhaustedText(width: nat)
    requires width > 0
    ensures ReadSized([], width) == ([], [])
  {
    var none: bytes := [];
    assert ReadNum(none, width) == (0, none) && none[..0] == none && none[0..] == none;
  }

  /**
   A frame that ends before its sequence number leaves that alone; one that ends before a count has nothing
   behind it; and one that ends with the count of its aliases has that many, all empty.
   */
  lemma ShortFrames(data: bytes)
    ensures |data| < 2 ==> Unmarshalled(data) == (None, [], [])
    ensures 2 <= |data| < 6 ==> Unmarshalled(data) == (Some(GetNumber(data[..2])), [], [])
    ensures |data| == 6 ==>
      var (sequence, aliases, table) := Unmarshalled(data);
      && sequence == Some(GetNumber(data[..2])) && table == []
      && |aliases| == GetNumber(data[2..6]) && forall i :: 0 <= i < |aliases| ==> aliases[i] == []
  {
    hide GetNumber;
    ExhaustedReads(0);
    if |data| == 6 {
      assert data[2..][..4] == data[2..6];
      ExhaustedReads(GetNumber(data[2..6]));
    }
  }
}
