/**
 The textual form of a LOG message: zproto_example_zpl writes it to a zconfig tree, and
 zproto_example_new_zpl reads it back. The C long is taken to have 64 bits.
 */
module Zpl {
  import opened Options
  import opened Bytes

  const TWO_TO_THE_63: int := 0x8000_0000_0000_0000
  const TWO_TO_THE_64: int := 0x1_0000_0000_0000_0000

  // ---------------------------------------------------------------- octets as hex

  function HexDigit(n: nat): byte
    requires n < 16
  {
    (if n < 10 then 48 + n else 87 + n) as byte
  }

  predicate IsHex(c: byte) {
    48 <= c <= 57 || 97 <= c <= 102 || 65 <= c <= 70
  }

  function HexValue(c: byte): (n: nat)
    requires IsHex(c)
    ensures n < 16
  {
    if c <= 57 then c as nat - 48 else if c <= 70 then c as nat - 55 else c as nat - 87
  }

  /** sprintf "%02x" of every octet. */
  function Hex(mem: bytes): (s: bytes)
    ensures |s| == 2 * |mem|
  {
    if mem == [] then []
    else HexPair(mem[0]) + Hex(mem[1..])
  }

  function HexPair(b: byte): (s: bytes)
    ensures |s| == 2
  {
    [HexDigit(b as nat / 16), HexDigit(b as nat % 16)]
  }

  lemma Regroup(a: bytes, b: bytes, c: bytes)
    ensures (a + b) + c == a + (b + c)
  {
  }

  /**
   What `sscanf "%x"` leaves for the k-th pair of characters when they are not two hex digits: any octet,
   or None for a number above 0xff, on which an assertion ends the process. C leaves part of this open,
   so nothing is assumed of it.
   */
  type Scan = nat -> Option<byte>

  /** What BYTES_FROM_STR makes of a string. */
  datatype Unhexed = Octets(mem: bytes) | NotEven | Overflow

  predicate HexPairAt(s: bytes, k: nat)
    requires 2 * k + 1 < |s|
  {
    IsHex(s[2 * k]) && IsHex(s[2 * k + 1])
  }

  function ScanAt(s: bytes, k: nat, scan: Scan): Option<byte>
    requires 2 * k + 1 < |s|
  {
    if HexPairAt(s, k) then Some(OctetAt(s, k)) else scan(k)
  }

  predicate Scans(s: bytes, scan: Scan) {
    forall k :: 0 <= k < |s| / 2 ==> ScanAt(s, k, scan).Some?
  }

  function Unhex(s: bytes, scan: Scan): Unhexed {
    if |s| % 2 != 0 then NotEven
    else if !Scans(s, scan) then Overflow
    else Octets(seq(|s| / 2, k requires 0 <= k < |s| / 2 => ScanAt(s, k, scan).value))
  }

  function OctetAt(s: bytes, k: nat): byte
    requires 2 * k + 1 < |s| && HexPairAt(s, k)
  {
    (16 * HexValue(s[2 * k]) + HexValue(s[2 * k + 1])) as byte
  }

  /** The STR_FROM_BYTES macro. */
  method StrFromBytes(mem: bytes) returns (s: bytes)
    ensures s == Hex(mem)
  {
    hide HexPair;
    s := [];
    assert mem[0..] == mem;
    for i := 0 to |mem|
      invariant s + Hex(mem[i..]) == Hex(mem)
    {
      assert mem[i..][1..] == mem[i + 1..];
      Regroup(s, HexPair(mem[i]), Hex(mem[i + 1..]));
      s := s + HexPair(mem[i]);
    }
  }

  /** The BYTES_FROM_STR macro. */
  method BytesFromStr(s: bytes, scan: Scan) returns (r: Unhexed)
    ensures r == Unhex(s, scan)
  {
    hide OctetAt, IsHex;
    if |s| % 2 != 0 {
      return NotEven;
    }
    var mem: bytes := [];
    for i := 0 to |s| / 2
      invariant |mem| == i
      invariant forall k :: 0 <= k < i ==> ScanAt(s, k, scan) == Some(mem[k])
    {
      var octet := ScanAt(s, i, scan);
      if octet.None? {
        return Overflow;
      }
      mem := mem + [octet.value];
    }
    r := Octets(mem);
  }

  lemma {:induction false} HexAt(mem: bytes, k: nat)
    requires k < |mem|
    ensures Hex(mem)[2 * k] == HexDigit(mem[k] as nat / 16) && Hex(mem)[2 * k + 1] == HexDigit(mem[k] as nat % 16)
  {
    if k > 0 {
      HexAt(mem[1..], k - 1);
    }
  }

  lemma HexDigitIsHex(n: nat)
    requires n < 16
    ensures IsHex(HexDigit(n)) && HexValue(HexDigit(n)) == n
  {
  }

  /** Printing octets and parsing the text is the identity. */
  lemma {:induction false} HexRoundTrip(mem: bytes, scan: Scan)
    ensures Unhex(Hex(mem), scan) == Octets(mem)
  {
    hide Hex, HexDigit, IsHex, HexValue;
    var s := Hex(mem);
    forall k | 0 <= k < |mem|
      ensures ScanAt(s, k, scan) == Some(mem[k])
    {
      HexAt(mem, k);
      HexDigitIsHex(mem[k] as nat / 16);
      HexDigitIsHex(mem[k] as nat % 16);
    }
  }

  /** The hex digits are read in either case, and nothing else is one. */
  lemma HexDigitsAre(c: byte)
    ensures IsHex(c) <==> 48 <= c <= 57 || 65 <= c <= 70 || 97 <= c <= 102
    ensures 48 <= c <= 57 ==> HexValue(c) == c as nat - 48
    ensures 65 <= c <= 70 ==> HexValue(c) == 10 + c as nat - 65 && HexValue(c + 32) == HexValue(c)
  {
  }

  // ---------------------------------------------------------------- numbers as signed decimals

  function Decimal(n: nat): (s: bytes)
    ensures |s| > 0
    ensures forall i :: 0 <= i < |s| ==> IsDigit(s[i])
  {
    if n < 10 then [(48 + n) as byte] else Decimal(n / 10) + [(48 + n % 10) as byte]
  }

  predicate IsDigit(c: byte) {
    48 <= c <= 57
  }

  function DigitValue(c: byte): nat
    requires IsDigit(c)
  {
    c as nat - 48
  }

  predicate IsSpace(c: byte) {
    c == 32 || 9 <= c <= 13
  }

  /** printf "%ld". */
  function SignedDecimal(n: int): bytes {
    if n < 0 then [45] + Decimal(-n) else Decimal(n)
  }

  function Spaces(s: bytes): (n: nat)
    ensures n <= |s|
  {
    if s == [] || !IsSpace(s[0]) then 0 else 1 + Spaces(s[1..])
  }

  function Digits(s: bytes): (n: nat)
    ensures n <= |s| && forall i :: 0 <= i < n ==> IsDigit(s[i])
  {
    if s == [] || !IsDigit(s[0]) then 0 else 1 + Digits(s[1..])
  }

  function ValueOf(s: bytes): nat
    requires forall i :: 0 <= i < |s| ==> IsDigit(s[i])
  {
    if s == [] then 0 else 10 * ValueOf(s[..|s| - 1]) + DigitValue(s[|s| - 1])
  }

  function Clamp(n: int): int {
    if n < -TWO_TO_THE_63 then -TWO_TO_THE_63 else if n >= TWO_TO_THE_63 then TWO_TO_THE_63 - 1 else n
  }

  /** strtoll in base 10: the value, and how many characters it used. */
  datatype Parsed = Parsed(value: int, used: nat)

  /** Where the digits start: behind the spaces and a sign. */
  function Start(s: bytes): (n: nat)
    ensures Spaces(s) <= n <= |s|
  {
    var skipped := Spaces(s);
    if skipped < |s| && (s[skipped] == 45 || s[skipped] == 43) then skipped + 1 else skipped
  }

  function StrToLL(s: bytes): Parsed {
    var rest := s[Start(s)..];
    var digits := Digits(rest);
    if digits == 0 then Parsed(0, 0)
    else
      var magnitude: int := ValueOf(rest[..digits]);
      var negative := Spaces(s) < Start(s) && s[Spaces(s)] == 45;
      Parsed(Clamp(if negative then -magnitude else magnitude), Start(s) + digits)
  }

  /** (long) of a uint64_t, and back. */
  function AsLong(n: nat): int {
    if n < TWO_TO_THE_63 then n else n - TWO_TO_THE_64
  }

  function AsUnsigned(n: int): nat {
    n % TWO_TO_THE_64
  }

  lemma {:induction false} ValueOfDecimal(n: nat)
    ensures ValueOf(Decimal(n)) == n
  {
    if n < 10 {
      assert Decimal(n)[..0] == [];
    } else {
      ValueOfDecimal(n / 10);
      assert Decimal(n)[..|Decimal(n)| - 1] == Decimal(n / 10);
    }
  }

  lemma {:induction false} DigitsAll(s: bytes)
    requires forall i :: 0 <= i < |s| ==> IsDigit(s[i])
    ensures Digits(s) == |s|
  {
    if s != [] {
      DigitsAll(s[1..]);
    }
  }

  lemma {:induction false} SpacesAre(s: bytes, n: nat)
    requires n <= |s| && (forall i :: 0 <= i < n ==> IsSpace(s[i])) && (n < |s| ==> !IsSpace(s[n]))
    ensures Spaces(s) == n
  {
    if n > 0 { SpacesAre(s[1..], n - 1); }
  }

  /**
   A decimal behind spaces and a sign is read as the number, and the whole text is used; beyond a long it is
   the longest one.
   */
  lemma SpacedNumber(p: bytes, n: nat)
    requires forall i :: 0 <= i < |p| ==> p[i] in {9, 10, 11, 12, 13, 32}
    ensures StrToLL(p + Decimal(n)) == StrToLL(p + [43] + Decimal(n)).(used := |p| + |Decimal(n)|)
    ensures StrToLL(p + [43] + Decimal(n)) ==
      Parsed(if n < 0x8000_0000_0000_0000 then n else 0x7FFF_FFFF_FFFF_FFFF, |p| + 1 + |Decimal(n)|)
    ensures StrToLL(p + [45] + Decimal(n)) ==
      Parsed(if n <= 0x8000_0000_0000_0000 then 0 - n else -0x8000_0000_0000_0000, |p| + 1 + |Decimal(n)|)
  {
    SignedNumber(p, [], n);
    SignedNumber(p, [43], n);
    SignedNumber(p, [45], n);
    assert p + [] == p;
  }

  lemma SignedNumber(p: bytes, sign: bytes, n: nat)
    requires (forall i :: 0 <= i < |p| ==> IsSpace(p[i])) && (sign == [] || sign == [43] || sign == [45])
    ensures StrToLL(p + sign + Decimal(n)) ==
      Parsed(Clamp(if sign == [45] then 0 - n else n), |p| + |sign| + |Decimal(n)|)
  {
    hide Decimal, ValueOf, Clamp, Digits, Spaces;
    var d, s := Decimal(n), p + sign + Decimal(n);
    assert IsDigit(d[0]) && !IsSpace(d[0]);
    SpacesAre(s, |p|);
    ValueOfDecimal(n);
    DigitsAll(d);
    assert s[|p| + |sign|..] == d && d[..|d|] == d;
  }

  /** Every long survives printing and parsing, and the whole text is used; beyond a long the value is clamped. */
  lemma LongRoundTrip(n: int)
    ensures StrToLL(SignedDecimal(n)) == Parsed(Clamp(n), |SignedDecimal(n)|)
    ensures -TWO_TO_THE_63 <= n < TWO_TO_THE_63 ==> StrToLL(SignedDecimal(n)).value == n
  {
    hide StrToLL, Decimal;
    SignedNumber([], if n < 0 then [45] else [], if n < 0 then -n else n);
    assert [] + [45] == [45];
    assert [] + [] + Decimal(if n < 0 then -n else n) == Decimal(if n < 0 then -n else n);
  }

  /** Every unsigned 64-bit value does, wrapping around to a negative long and back. */
  lemma UnsignedRoundTrip(n: nat)
    requires n < TWO_TO_THE_64
    ensures var s := SignedDecimal(AsLong(n));
            StrToLL(s).used == |s| && AsUnsigned(StrToLL(s).value) == n
  {
    LongRoundTrip(AsLong(n));
    if n >= TWO_TO_THE_63 {
      DivModIs(n - TWO_TO_THE_64, TWO_TO_THE_64, -1, n);
    }
  }

  // ---------------------------------------------------------------- the LOG message

  datatype Log = Log(
    routingId: Option<bytes>, sequence: nat, level: nat, event: nat, node: nat, peer: nat, time: nat,
    host: bytes, data: Option<bytes>)

  /** What the C structure can hold: number widths, and strings that are C strings. */
  predicate Holds(m: Log) {
    && m.sequence < Radix(2) && m.level < Radix(1) && m.event < Radix(1)
    && m.node < Radix(2) && m.peer < Radix(2) && m.time < Radix(8)
    && |m.host| <= 255 && NulFree(m.host) && (m.data.Some? ==> NulFree(m.data.value))
  }

  /** The zconfig tree, as far as the two functions look at it; all values are C strings. */
  datatype Config = Config(message: Option<string>, routingId: Option<bytes>, content: Option<map<string, bytes>>)

  predicate CStrings(c: Config) {
    c.content.Some? ==> forall k :: k in c.content.value ==> NulFree(c.content.value[k])
  }

  function Number(n: nat): bytes {
    SignedDecimal(AsLong(n))
  }

  /** zproto_example_zpl. */
  function Export(m: Log): Config {
    var hex := if m.routingId.Some? then Some(Hex(m.routingId.value)) else None;
    var content := map[
      "sequence" := Number(m.sequence), "version" := [51], "level" := Number(m.level), "event" := Number(m.event),
      "node" := Number(m.node), "peer" := Number(m.peer), "time" := Number(m.time), "host" := m.host];
    Config(Some("ZPROTO_EXAMPLE_LOG"), hex,
           Some(if m.data.Some? then content["data" := m.data.value] else content))
  }

  /** A number field of that many octets; None when it is missing or not a number. */
  function ReadNumber(content: map<string, bytes>, name: string, size: nat): (n: Option<nat>)
    ensures n.Some? ==> n.value < Radix(size)
  {
    if name !in content then None
    else
      var parsed := StrToLL(content[name]);
      if parsed.used != |content[name]| then None else Some(AsUnsigned(parsed.value) % Radix(size))
  }

  /** How reading a tree ends: a message, a null pointer, or a failed assertion. */
  datatype Reading = Message(message: Log) | Refused | Aborted

  function ReadContent(id: Option<bytes>, t: map<string, bytes>): Reading {
    var sequence, level, event := ReadNumber(t, "sequence", 2), ReadNumber(t, "level", 1), ReadNumber(t, "event", 1);
    var node, peer, time := ReadNumber(t, "node", 2), ReadNumber(t, "peer", 2), ReadNumber(t, "time", 8);
    if sequence.None? || level.None? || event.None? || node.None? || peer.None? || time.None? then Refused
    else if "host" !in t || "data" !in t then Refused
    else
      Message(Log(id, sequence.value, level.value, event.value, node.value, peer.value, time.value,
                  Shortened(t["host"]), Some(t["data"])))
  }

  /** zproto_example_new_zpl, for a LOG message. */
  function Import(c: Config, scan: Scan): Reading {
    if c.message != Some("ZPROTO_EXAMPLE_LOG") then Refused
    else if c.routingId.None? then ReadFrom(None, c.content)
    else
      match Unhex(c.routingId.value, scan)
      case Octets(mem) => ReadFrom(Some(mem), c.content)
      case NotEven => Refused
      case Overflow => Aborted
  }

  function ReadFrom(id: Option<bytes>, content: Option<map<string, bytes>>): Reading {
    if content.None? then Refused else ReadContent(id, content.value)
  }

  method WriteZpl(m: Log) returns (c: Config)
    ensures c == Export(m)
  {
    hide Hex, Number;
    var hex: Option<bytes> := None;
    if m.routingId.Some? {
      var text := StrFromBytes(m.routingId.value);
      hex := Some(text);
    }
    var content: map<string, bytes> := map[];
    content := content["sequence" := Number(m.sequence)];
    content := content["version" := [51]];
    content := content["level" := Number(m.level)];
    content := content["event" := Number(m.event)];
    content := content["node" := Number(m.node)];
    content := content["peer" := Number(m.peer)];
    content := content["time" := Number(m.time)];
    content := content["host" := m.host];
    if m.data.Some? {
      content := content["data" := m.data.value];
    }
    c := Config(Some("ZPROTO_EXAMPLE_LOG"), hex, Some(content));
  }

  method NewZpl(c: Config, scan: Scan) returns (r: Reading)
    ensures r == Import(c, scan)
  {
    hide Unhex, ReadNumber;
    if c.message != Some("ZPROTO_EXAMPLE_LOG") { return Refused; }
    var id: Option<bytes> := None;
    if c.routingId.Some? {
      var bvalue := BytesFromStr(c.routingId.value, scan);
      if bvalue.Overflow? { return Aborted; }
      if bvalue.NotEven? { return Refused; }
      id := Some(bvalue.mem);
    }
    if c.content.None? { return Refused; }
    var t := c.content.value;
    var sequence := ReadNumber(t, "sequence", 2);
    if sequence.None? { return Refused; }
    var level := ReadNumber(t, "level", 1);
    if level.None? { return Refused; }
    var event := ReadNumber(t, "event", 1);
    if event.None? { return Refused; }
    var node := ReadNumber(t, "node", 2);
    if node.None? { return Refused; }
    var peer := ReadNumber(t, "peer", 2);
    if peer.None? { return Refused; }
    var time := ReadNumber(t, "time", 8);
    if time.None? { return Refused; }
    if "host" !in t { return Refused; }
    if "data" !in t { return Refused; }
    r := Message(Log(id, sequence.value, level.value, event.value, node.value, peer.value, time.value,
                     Shortened(t["host"]), Some(t["data"])));
  }

  lemma RadixValues()
    ensures Radix(1) == 0x100 && Radix(2) == 0x1_0000 && Radix(8) == TWO_TO_THE_64
  {
    assert Radix(4) == 0x1_0000_0000;
    assert Radix(6) == 0x1_0000_0000_0000;
  }

  lemma NumberReadsBack(t: map<string, bytes>, name: string, size: nat, n: nat)
    requires name in t && t[name] == Number(n)
    requires n < Radix(size) && n < TWO_TO_THE_64
    ensures ReadNumber(t, name, size) == Some(n)
  {
    hide StrToLL, SignedDecimal, AsLong, AsUnsigned;
    UnsignedRoundTrip(n);
    DivModIs(n, Radix(size), 0, n);
  }

  lemma ContentReadsBack(m: Log, t: map<string, bytes>)
    requires Holds(m) && Export(m).content == Some(t)
    ensures ReadContent(m.routingId, t) == if m.data.Some? then Message(m) else Refused
  {
    hide ReadNumber, Number, Radix;
    RadixValues();
    NumberReadsBack(t, "sequence", 2, m.sequence);
    NumberReadsBack(t, "level", 1, m.level);
    NumberReadsBack(t, "event", 1, m.event);
    NumberReadsBack(t, "node", 2, m.node);
    NumberReadsBack(t, "peer", 2, m.peer);
    NumberReadsBack(t, "time", 8, m.time);
  }

  /** The zpl form undoes itself exactly for the messages with data set; others are refused. */
  lemma ZplRoundTrip(m: Log, scan: Scan)
    requires Holds(m)
    ensures Import(Export(m), scan) == if m.data.Some? then Message(m) else Refused
  {
    hide ReadContent, Unhex, Hex, Number;
    ContentReadsBack(m, Export(m).content.value);
    if m.routingId.Some? {
      HexRoundTrip(m.routingId.value, scan);
    }
  }

  lemma ImportHolds(c: Config, scan: Scan)
    requires CStrings(c)
    ensures var r := Import(c, scan);
            r.Message? ==> Holds(r.message) && r.message.data.Some?
  {
    hide ReadNumber, Unhex, Radix;
  }

  /**
   Whatever tree is accepted, its routing id not hex digits included, the message read from it survives
   being written and read again.
   */
  lemma {:induction false} AcceptedSurvives(c: Config, scan: Scan, scan': Scan)
    requires CStrings(c)
    ensures var r := Import(c, scan);
            r.Message? ==> Import(Export(r.message), scan') == r
  {
    hide Import, Export, Holds;
    ImportHolds(c, scan);
    if Import(c, scan).Message? {
      ZplRoundTrip(Import(c, scan).message, scan');
    }
  }

  // ---------------------------------------------------------------- what is refused

  /** Digits only, behind spaces and a sign if there are any. */
  ghost predicate IsNumeral(s: bytes, spaces: nat, sign: nat) {
    && spaces + sign < |s| && sign <= 1
    && (forall i :: 0 <= i < spaces ==> s[i] in {9, 10, 11, 12, 13, 32})
    && (sign == 1 ==> s[spaces] == 45 || s[spaces] == 43)
    && (forall i :: spaces + sign <= i < |s| ==> 48 <= s[i] <= 57)
  }

  lemma {:induction false} SpacesMeans(s: bytes)
    ensures var n := Spaces(s);
      (forall i :: 0 <= i < n ==> IsSpace(s[i])) && (n < |s| ==> !IsSpace(s[n]))
  {
    if s != [] && IsSpace(s[0]) {
      SpacesMeans(s[1..]);
      forall i | 0 <= i < Spaces(s) ensures IsSpace(s[i]) {
        if i > 0 { assert s[i] == s[1..][i - 1]; }
      }
    }
  }

  /** A field is a number exactly when all of it is a numeral, or it is empty. */
  lemma WholeNumeralExactly(s: bytes)
    ensures StrToLL(s).used == |s| <==> s == [] || exists spaces, sign :: IsNumeral(s, spaces, sign)
  {
    hide Digits, Spaces, ValueOf, Clamp;
    SpacesMeans(s);
    var rest := s[Start(s)..];
    if s != [] && StrToLL(s).used == |s| {
      forall i | Start(s) <= i < |s| ensures IsDigit(s[i]) {
        assert s[i] == rest[i - Start(s)];
      }
      assert IsNumeral(s, Spaces(s), Start(s) - Spaces(s));
    }
    if a, b :| IsNumeral(s, a, b) {
      NumeralIsUsed(s, a, b);
    }
  }

  lemma NumeralIsUsed(s: bytes, spaces: nat, sign: nat)
    requires IsNumeral(s, spaces, sign)
    ensures StrToLL(s).used == |s|
  {
    hide Digits, Spaces, ValueOf, Clamp;
    assert IsDigit(s[spaces + sign]);
    SpacesAre(s, spaces);
    DigitsAll(s[spaces + sign..]);
  }

  /** A tree without one of the number fields, or with one that is not a number, is refused. */
  predicate HasNumber(t: map<string, bytes>, name: string) {
    name in t && StrToLL(t[name]).used == |t[name]|
  }

  /**
   A tree is accepted exactly when it is a LOG message, its routing id, if any, is of even length and scans,
   and its content has all six numbers, the host and the data; the text of a number must be a whole numeral.
   */
  lemma AcceptsExactly(c: Config, scan: Scan)
    ensures Import(c, scan).Message? <==>
      && c.message == Some("ZPROTO_EXAMPLE_LOG")
      && (c.routingId.Some? ==> |c.routingId.value| % 2 == 0 && Scans(c.routingId.value, scan))
      && c.content.Some?
      && var t := c.content.value;
      && HasNumber(t, "sequence") && HasNumber(t, "level") && HasNumber(t, "event") && HasNumber(t, "node")
      && HasNumber(t, "peer") && HasNumber(t, "time") && "host" in t && "data" in t
    ensures c.message == Some("ZPROTO_EXAMPLE_LOG") && c.routingId.Some? ==>
      (Import(c, scan).Aborted? <==> |c.routingId.value| % 2 == 0 && !Scans(c.routingId.value, scan))
  {
    hide StrToLL, Scans;
  }

  /** The number read is the one written, cut to the octets of its field; beyond a long it is clamped first. */
  lemma NumberIsCut(t: map<string, bytes>, name: string, size: nat, n: int)
    requires name in t && t[name] == SignedDecimal(n) && size in {1, 2, 8}
    ensures ReadNumber(t, name, size) == Some(Clamp(n) % Radix(size))
  {
    hide SignedDecimal, Decimal, StrToLL;
    RadixValues();
    LongRoundTrip(n);
    CutTwice(Clamp(n), TWO_TO_THE_64 / Radix(size), Radix(size));
  }

  /** Cutting to k * d first does not matter to what is cut to d afterwards. */
  lemma CutTwice(n: int, k: nat, d: nat)
    requires k > 0 && d > 0
    ensures k * d > 0 && n % (k * d) % d == n % d
  {
    Product(k, d);
    var q, r := n / (k * d), n % (k * d);
    Regrouped(q, k, d, r / d, r % d);
    DivModIs(n, d, q * k + r / d, r % d);
  }

  lemma Product(k: nat, d: nat)
    requires k > 0 && d > 0
    ensures k * d > 0
  {
  }

  lemma Regrouped(q: int, k: nat, d: nat, a: int, b: int)
    ensures q * (k * d) + (a * d + b) == (q * k + a) * d + b
  {
    assert (q * k + a) * d == q * k * d + a * d;
    assert q * k * d == q * (k * d);
  }

  /** Hex is printed in lower case, the high digit first; decimals without leading zeros. */
  lemma {:induction false} PrintedForms(n: nat)
    ensures n < 256 ==> Hex([n as byte])[0] == (if n / 16 < 10 then 48 + n / 16 else 97 + n / 16 - 10) as byte
    ensures n < 256 ==> Hex([n as byte])[1] == (if n % 16 < 10 then 48 + n % 16 else 97 + n % 16 - 10) as byte
    ensures Decimal(n)[0] == 48 ==> Decimal(n) == [48]
  {
    if n >= 10 { PrintedForms(n / 10); }
  }

  /** The names the fields are written under. */
  lemma WrittenNames(m: Log)
    ensures var c := Export(m);
      && c.message == Some("ZPROTO_EXAMPLE_LOG") && c.content.Some?
      && c.content.value.Keys
         == {"sequence", "version", "level", "event", "node", "peer", "time", "host"}
            + (if m.data.Some? then {"data"} else {})
      && c.content.value["version"] == [51] && c.content.value["host"] == m.host
      && c.content.value["sequence"] == SignedDecimal(AsLong(m.sequence))
      && c.content.value["node"] == SignedDecimal(AsLong(m.node))
      && c.content.value["peer"] == SignedDecimal(AsLong(m.peer))
      && c.content.value["time"] == SignedDecimal(AsLong(m.time))
      && c.content.value["level"] == SignedDecimal(AsLong(m.level))
      && c.content.value["event"] == SignedDecimal(AsLong(m.event))
  {
    hide SignedDecimal, AsLong, Hex;
  }
}
