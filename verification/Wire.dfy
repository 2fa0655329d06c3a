/**
 The wire format for every schema: what the generated encoder writes and what the
 generated receiver reads, as functions over octets.
 */
module Wire {
  import opened Options
  import opened Bytes

  // ---------------------------------------------------------------- schemas and values

  /** Field types of the model language; `fixed` and `text` are fields with a `value` attribute. */
  datatype Kind =
    | Number(size: nat, fixed: Option<nat>)
    | Octets(length: nat)
    | Str(text: Option<bytes>)
    | LongStr
    | Strings
    | Hash
    | Chunk
    | Uuid
    | Frame
    | Msg

  datatype Pair = Pair(key: bytes, value: bytes) {
    predicate NulFree() { Bytes.NulFree(key) && Bytes.NulFree(value) }
    predicate Fits() { |key| < Radix(1) && |value| < Radix(4) }
  }

  /** What a message object holds for a field; None is a null pointer. A hash is listed in visiting order. */
  datatype Value =
    | Num(n: nat)
    | Oct(octets: bytes)
    | Text(text: bytes)
    | Long(long: Option<bytes>)
    | List(list: Option<seq<bytes>>)
    | Table(table: Option<seq<Pair>>)
    | Blob(blob: Option<bytes>)
    | Id(uuid: Option<bytes>)
    | Part(part: Option<bytes>)
    | Parts(parts: Option<seq<bytes>>)
    | Fixed

  const UUID_LEN := 16

  predicate WellFormed(k: Kind) {
    match k
    case Number(size, fixed) => size in {1, 2, 4, 8} && (fixed.Some? ==> fixed.value < Radix(size))
    case Str(Some(text)) => NulFree(text) && |text| < 256
    case _ => true
  }

  predicate DistinctKeys(t: seq<Pair>) {
    forall i, j :: 0 <= i < j < |t| ==> t[i].key != t[j].key
  }

  /** v is a value the C object can hold in a field of kind k. */
  predicate Holds(k: Kind, v: Value) {
    match (k, v)
    case (Number(size, None), Num(n)) => n < Radix(size)
    case (Number(_, Some(_)), Fixed) => true
    case (Octets(n), Oct(bs)) => |bs| == n
    case (Str(None), Text(s)) => NulFree(s) && |s| < 256
    case (Str(Some(_)), Fixed) => true
    case (LongStr, Long(s)) => s.Some? ==> NulFree(s.value)
    case (Strings, List(l)) => l.Some? ==> forall i :: 0 <= i < |l.value| ==> NulFree(l.value[i])
    case (Hash, Table(t)) =>
      t.Some? ==> DistinctKeys(t.value) && forall i :: 0 <= i < |t.value| ==> t.value[i].NulFree()
    case (Chunk, Blob(_)) => true
    case (Uuid, Id(u)) => u.Some? ==> |u.value| == UUID_LEN
    case (Frame, Part(_)) => true
    case (Msg, Parts(_)) => true
    case _ => false
  }

  /** The limits of the length and count prefixes. */
  predicate Fits(k: Kind, v: Value)
    requires Holds(k, v)
  {
    match v
    case Long(Some(s)) => |s| < Radix(4)
    case List(Some(l)) => |l| < Radix(4) && forall i :: 0 <= i < |l| ==> |l[i]| < Radix(4)
    case Table(Some(t)) => |t| < Radix(4) && forall i :: 0 <= i < |t| ==> t[i].Fits()
    case Blob(Some(bs)) => |bs| < Radix(4)
    case _ => true
  }

  predicate HoldsAll(kinds: seq<Kind>, vals: seq<Value>) {
    |vals| == |kinds| && forall i :: 0 <= i < |kinds| ==> Holds(kinds[i], vals[i])
  }

  predicate FitsAll(kinds: seq<Kind>, vals: seq<Value>)
    requires HoldsAll(kinds, vals)
  {
    forall i :: 0 <= i < |kinds| ==> Fits(kinds[i], vals[i])
  }

  /** A field list the generator accepts without an error: a msg field only in last place. */
  predicate WellFormedAll(kinds: seq<Kind>) {
    && (forall i :: 0 <= i < |kinds| ==> WellFormed(kinds[i]))
    && (forall i :: 0 <= i < |kinds| - 1 ==> kinds[i] != Msg)
  }

  // ---------------------------------------------------------------- writing

  /** PUT_STRING (width 1), PUT_LONGSTR and a chunk (width 4). */
  function PutSized(s: bytes, width: nat): bytes {
    PutNumber(|s|, width) + s
  }

  function PutList(l: seq<bytes>): bytes {
    if l == [] then [] else PutSized(l[0], 4) + PutList(l[1..])
  }

  function PutPair(p: Pair): bytes {
    PutSized(p.key, 1) + PutSized(p.value, 4)
  }

  function PutTable(t: seq<Pair>): bytes {
    if t == [] then [] else PutPair(t[0]) + PutTable(t[1..])
  }

  /** The octets of one field in the first frame. */
  function PutField(k: Kind, v: Value): bytes
    requires Holds(k, v)
  {
    match k
    case Number(size, fixed) => PutNumber(if fixed.Some? then fixed.value else v.n, size)
    case Octets(_) => v.octets
    case Str(text) => PutSized(if text.Some? then text.value else v.text, 1)
    case LongStr => if v.long.Some? then PutSized(v.long.value, 4) else PutNumber(0, 4)
    case Strings =>
      if v.list.Some? then PutNumber(|v.list.value|, 4) + PutList(v.list.value) else PutNumber(0, 4)
    case Hash =>
      if v.table.Some? then PutNumber(|v.table.value|, 4) + PutTable(v.table.value) else PutNumber(0, 4)
    case Chunk => if v.blob.Some? then PutSized(v.blob.value, 4) else PutNumber(0, 4)
    case Uuid => if v.uuid.Some? then v.uuid.value else PutNumber(0, UUID_LEN)
    case Frame => []
    case Msg => []
  }

  function PutFields(kinds: seq<Kind>, vals: seq<Value>): bytes
    requires HoldsAll(kinds, vals)
  {
    if kinds == [] then [] else PutField(kinds[0], vals[0]) + PutFields(kinds[1..], vals[1..])
  }

  /** The frames that follow the first one: frame fields in order, then the msg field. */
  function PartsOf(kinds: seq<Kind>, vals: seq<Value>): seq<bytes>
    requires HoldsAll(kinds, vals)
  {
    if kinds == [] then [] else FieldParts(kinds[0], vals[0]) + PartsOf(kinds[1..], vals[1..])
  }

  function FieldParts(k: Kind, v: Value): seq<bytes>
    requires Holds(k, v)
  {
    match k
    case Frame => [v.part.GetOr([])]
    case Msg => v.parts.GetOr([[]])
    case _ => []
  }

  // ---------------------------------------------------------------- reading

  /** How a read ends. Truncated leaves rc at 0 (the GET macros); Rejected sets rc to -2. */
  datatype Exit = Done | Truncated | Rejected {
    function Rc(): int { if Rejected? then -2 else 0 }
  }

  datatype Got<T> = Got(exit: Exit, value: T, used: nat)

  function GetNum(input: bytes, size: nat): (g: Got<nat>)
    ensures g.used <= |input|
  {
    if |input| < size then Got(Truncated, 0, 0) else Got(Done, GetNumber(input[..size]), size)
  }

  /** A length prefix of `width` octets and that many octets. */
  function GetSized(input: bytes, width: nat): (g: Got<bytes>)
    ensures g.used <= |input|
    ensures g.exit.Done? ==> g.used == width + |g.value| && |g.value| < Radix(width)
    ensures !g.exit.Done? ==> g.exit.Truncated? && g.value == []
  {
    var n := GetNum(input, width);
    if !n.exit.Done? then Got(Truncated, [], 0)
    else if |input| - width < n.value then Got(Truncated, [], width)
    else Got(Done, input[width..width + n.value], width + n.value)
  }

  /** The list loop: up to `count` long strings, each kept as a C string by zlist_append. */
  function GetList(count: nat, input: bytes): (g: Got<seq<bytes>>)
    ensures g.used <= |input|
  {
    if count == 0 then Got(Done, [], 0) else
      var s := GetSized(input, 4);
      if !s.exit.Done? then Got(s.exit, [], s.used) else
        var r := GetList(count - 1, input[s.used..]);
        Got(r.exit, [CStr(s.value)] + r.value, s.used + r.used)
  }

  /** One turn of the hash loop: a short key and a long value. */
  function GetPair(input: bytes): (g: Got<Pair>)
    ensures g.used <= |input|
  {
    var k := GetSized(input, 1);
    if !k.exit.Done? then Got(k.exit, Pair([], []), k.used) else
      var v := GetSized(input[k.used..], 4);
      Got(v.exit, Pair(CStr(k.value), CStr(v.value)), k.used + v.used)
  }

  /** The pairs the hash loop reads, in order, before insertion. */
  function GetPairs(count: nat, input: bytes): (g: Got<seq<Pair>>)
    ensures g.used <= |input|
  {
    if count == 0 then Got(Done, [], 0) else
      var p := GetPair(input);
      if !p.exit.Done? then Got(p.exit, [], p.used) else
        var r := GetPairs(count - 1, input[p.used..]);
        Got(r.exit, [p.value] + r.value, p.used + r.used)
  }

  predicate HasKey(t: seq<Pair>, key: bytes) {
    exists i :: 0 <= i < |t| && t[i].key == key
  }

  /** zhash_insert: a key already present keeps its first value. */
  function Insert(t: seq<Pair>, p: Pair): seq<Pair> {
    if HasKey(t, p.key) then t else t + [p]
  }

  function InsertAll(pairs: seq<Pair>): seq<Pair> {
    if pairs == [] then [] else Insert(InsertAll(pairs[..|pairs| - 1]), pairs[|pairs| - 1])
  }

  /**
   One field read: what the object's field becomes (None leaves it as it was), octets consumed,
   frames left. A failed list or hash read leaves the part read so far in the object.
   */
  datatype Step = Step(exit: Exit, update: Option<Value>, used: nat, parts: seq<bytes>)

  function RecvField(k: Kind, input: bytes, parts: seq<bytes>): (s: Step)
    ensures s.used <= |input|
    ensures s.exit.Done? ==> s.update.Some?
  {
    match k
    case Number(size, fixed) =>
      var g := GetNum(input, size);
      if !g.exit.Done? then Step(g.exit, None, g.used, parts)
      else if fixed.None? then Step(Done, Some(Num(g.value)), g.used, parts)
      else Step(if g.value == fixed.value then Done else Rejected, Some(Fixed), g.used, parts)
    case Octets(n) =>
      if |input| < n then Step(Truncated, None, 0, parts) else Step(Done, Some(Oct(input[..n])), n, parts)
    case Str(text) =>
      var g := GetSized(input, 1);
      if !g.exit.Done? then Step(g.exit, None, g.used, parts)
      else if text.None? then Step(Done, Some(Text(CStr(g.value))), g.used, parts)
      else Step(if CStr(g.value) == text.value then Done else Rejected, Some(Fixed), g.used, parts)
    case LongStr =>
      var g := GetSized(input, 4);
      Step(g.exit, if g.exit.Done? then Some(Long(Some(CStr(g.value)))) else None, g.used, parts)
    case Strings =>
      var n := GetNum(input, 4);
      if !n.exit.Done? then Step(n.exit, None, n.used, parts) else
        var g := GetList(n.value, input[4..]);
        Step(g.exit, Some(List(Some(g.value))), 4 + g.used, parts)
    case Hash =>
      var n := GetNum(input, 4);
      if !n.exit.Done? then Step(n.exit, None, n.used, parts) else
        var g := GetPairs(n.value, input[4..]);
        Step(g.exit, Some(Table(Some(InsertAll(g.value)))), 4 + g.used, parts)
    case Chunk =>
      var g := GetSized(input, 4);
      if g.exit.Done? then Step(Done, Some(Blob(Some(g.value))), g.used, parts)
      else Step(if g.used == 0 then Truncated else Rejected, None, g.used, parts)
    case Uuid =>
      if |input| < UUID_LEN then Step(Rejected, None, 0, parts)
      else Step(Done, Some(Id(Some(input[..UUID_LEN]))), UUID_LEN, parts)
    case Frame =>
      if parts == [] then Step(Rejected, None, 0, parts)
      else Step(Done, Some(Part(Some(parts[0]))), 0, parts[1..])
    case Msg => Step(Done, Some(Parts(Some(parts))), 0, [])
  }

  datatype Outcome = Outcome(exit: Exit, values: seq<Value>, used: nat, parts: seq<bytes>)

  function RecvFields(kinds: seq<Kind>, olds: seq<Value>, input: bytes, parts: seq<bytes>): (o: Outcome)
    requires |olds| == |kinds|
    ensures |o.values| == |kinds| && o.used <= |input|
  {
    if kinds == [] then Outcome(Done, [], 0, parts) else
      var s := RecvField(kinds[0], input, parts);
      var v := s.update.GetOr(olds[0]);
      if !s.exit.Done? then Outcome(s.exit, [v] + olds[1..], s.used, s.parts) else
        var r := RecvFields(kinds[1..], olds[1..], input[s.used..], s.parts);
        Outcome(r.exit, [v] + r.values, s.used + r.used, r.parts)
  }

  // ---------------------------------------------------------------- whole messages

  /** A protocol class: its 4-bit signature and the field list of every message id. */
  datatype Schema = Schema(signature: nat, messages: map<nat, seq<Kind>>) {
    predicate Valid() {
      signature < 16 && forall id :: id in messages ==> id < 256 && WellFormedAll(messages[id])
    }

    /** 0xAAA0 | signature. */
    function Magic(): nat { 0xAAA0 + signature }

    function Header(id: nat): bytes { PutNumber(Magic(), 2) + PutNumber(id, 1) }
  }

  datatype Message = Message(id: nat, values: seq<Value>)

  /** m is an object state that can be sent under schema s. */
  predicate Sendable(s: Schema, m: Message) {
    s.Valid() && m.id in s.messages && HoldsAll(s.messages[m.id], m.values)
  }

  predicate Conforms(s: Schema, m: Message)
    requires Sendable(s, m)
  {
    FitsAll(s.messages[m.id], m.values)
  }

  function FirstFrame(s: Schema, m: Message): bytes
    requires Sendable(s, m)
  {
    s.Header(m.id) + PutFields(s.messages[m.id], m.values)
  }

  function OtherFrames(s: Schema, m: Message): seq<bytes>
    requires Sendable(s, m)
  {
    PartsOf(s.messages[m.id], m.values)
  }

  /** What `recv` makes of a first frame and the frames behind it. */
  datatype Received = Received(exit: Exit, id: Option<nat>, values: seq<Value>, used: nat, parts: seq<bytes>)

  /** What the object's fields may hold before a receive call, per message id. */
  predicate Contents(s: Schema, olds: map<nat, seq<Value>>) {
    olds.Keys == s.messages.Keys && forall id :: id in s.messages ==> |olds[id]| == |s.messages[id]|
  }

  function Recv(s: Schema, olds: map<nat, seq<Value>>, frame: bytes, parts: seq<bytes>): (r: Received)
    requires Contents(s, olds)
    ensures r.used <= |frame|
  {
    var sig := GetNum(frame, 2);
    if !sig.exit.Done? then Received(Truncated, None, [], 0, parts)
    else if sig.value != s.Magic() then Received(Rejected, None, [], 2, parts)
    else
      var id := GetNum(frame[2..], 1);
      if !id.exit.Done? then Received(Truncated, None, [], 2, parts)
      else if id.value !in s.messages then Received(Rejected, Some(id.value), [], 3, parts)
      else
        var o := RecvFields(s.messages[id.value], olds[id.value], frame[3..], parts);
        Received(o.exit, Some(id.value), o.values, 3 + o.used, o.parts)
  }
}
