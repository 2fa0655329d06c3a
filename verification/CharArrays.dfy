/**
 A char [256] field of a message object, in place: what the setter, the receiver and the zpl reader
 write into it, over any sequence of calls.
 */
module CharArrays {
  import opened Bytes
  import opened Options
  import opened RoundTrip
  import opened Wire

  const SIZE: nat := 256

  /** The calls that write the field. A frame is received from `needle` up to its end. */
  datatype Write =
    | Set(value: bytes)
    | SetToItself
    | Receive(frame: bytes, needle: nat)

  /** GET_STRING succeeds when its length octet and all the characters lie within the frame. */
  predicate Arrives(frame: bytes, needle: nat) {
    needle < |frame| && needle + 1 + frame[needle] as nat <= |frame|
  }

  function Arrived(frame: bytes, needle: nat): bytes
    requires Arrives(frame, needle)
  {
    frame[needle + 1..needle + 1 + frame[needle] as nat]
  }

  /** The string in the field after a call. */
  function Written(text: bytes, w: Write): bytes {
    match w
    case Set(value) => Shortened(CStr(value))
    case SetToItself => text
    case Receive(frame, needle) => if Arrives(frame, needle) then CStr(Arrived(frame, needle)) else text
  }

  function WrittenAll(text: bytes, writes: seq<Write>): bytes
    decreases |writes|
  {
    if writes == [] then text else WrittenAll(Written(text, writes[0]), writes[1..])
  }

  // ---------------------------------------------------------------- C strings in a buffer

  /** The string in a buffer is what stands before its first NUL. */
  lemma {:induction false} CStrIs(raw: bytes, s: bytes)
    requires |s| < |raw| && raw[..|s|] == s && NulFree(s) && raw[|s|] == 0
    ensures CStr(raw) == s
  {
    if s == [] {
    } else {
      assert raw[0] == s[0];
      assert raw[1..][..|s| - 1] == s[1..];
      CStrIs(raw[1..], s[1..]);
    }
  }

  lemma {:induction false} CStrStopsAtNul(raw: bytes, k: nat)
    requires k < |raw| && raw[k] == 0
    ensures |CStr(raw)| <= k
  {
    if k > 0 && raw[0] != 0 {
      CStrStopsAtNul(raw[1..], k - 1);
    }
  }

  lemma {:induction false} CStrBeforeNul(s: bytes, rest: bytes)
    ensures CStr(s + [0] + rest) == CStr(s)
  {
    var t := CStr(s);
    CStrIs(s + [0] + rest, t);
  }

  class CharArray {
    const chars: array<byte>

    /** The last character is always NUL. */
    ghost predicate Valid()
      reads this, chars
    {
      chars.Length == SIZE && chars[255] == 0
    }

    ghost function Text(): (s: bytes)
      requires Valid()
      reads this, chars
      ensures |s| <= 255 && NulFree(s) && s == chars[..|s|] && chars[|s|] == 0
    {
      CStrStopsAtNul(chars[..], 255);
      CStr(chars[..])
    }

    /** A new message object is zeroed. */
    constructor ()
      ensures Valid() && fresh(chars) && Text() == []
    {
      chars := new byte[SIZE](i => 0);
    }

    /** strncpy (chars, value, 255): what is left of the 255 characters is filled with NULs. */
    method Strncpy(value: bytes)
      requires Valid()
      modifies chars
      ensures Valid() && Text() == Shortened(CStr(value))
    {
      ghost var s := CStr(value);
      for i := 0 to 255
        invariant chars[255] == 0
        invariant forall k :: 0 <= k < i ==> chars[k] == if k < |s| then s[k] else 0
      {
        if i < |value| && (i == 0 || chars[i - 1] != 0) {
          chars[i] := value[i];
        } else {
          chars[i] := 0;
        }
      }
      CStrIs(chars[..], Shortened(s));
    }

    /** The setter. */
    method SetValue(value: bytes)
      requires Valid()
      modifies chars
      ensures Valid() && Text() == Written(old(Text()), Set(value))
    {
      Strncpy(value);
      chars[255] := 0;
    }

    /** GET_STRING: on failure nothing is written. */
    method GetString(frame: bytes, needle: nat) returns (next: nat, malformed: bool)
      requires Valid()
      modifies chars
      ensures Valid() && Text() == Written(old(Text()), Receive(frame, needle))
      ensures malformed <==> !Arrives(frame, needle)
      ensures !malformed ==> next == needle + 1 + frame[needle] as nat
    {
      next, malformed := needle, true;
      if needle >= |frame| { return; }
      var size := frame[needle] as nat;
      next := needle + 1;
      if next + size > |frame| { return; }
      for i := 0 to size
        invariant chars[255] == 0
        invariant forall k :: 0 <= k < i ==> chars[k] == frame[next + k]
      {
        chars[i] := frame[next + i];
      }
      chars[size] := 0;
      assert chars[..] == Arrived(frame, needle) + [0] + chars[size + 1..];
      CStrBeforeNul(Arrived(frame, needle), chars[size + 1..]);
      next, malformed := next + size, false;
    }

    /** Any sequence of calls. */
    method WriteAll(writes: seq<Write>)
      requires Valid()
      modifies chars
      ensures Valid() && Text() == WrittenAll(old(Text()), writes)
    {
      hide Written;
      assert writes[0..] == writes;
      for i := 0 to |writes|
        invariant Valid()
        invariant WrittenAll(Text(), writes[i..]) == WrittenAll(old(Text()), writes)
      {
        assert writes[i..][1..] == writes[i + 1..];
        match writes[i]
        case Set(value) => SetValue(value);
        case SetToItself => WrittenToItself(Text());
        case Receive(frame, needle) =>
          var next, malformed := GetString(frame, needle);
      }
    }
  }

  lemma WrittenToItself(text: bytes)
    ensures Written(text, SetToItself) == text
  {
  }

  lemma WrittenFits(text: bytes, w: Write)
    requires |text| <= 255 && NulFree(text)
    ensures |Written(text, w)| <= 255 && NulFree(Written(text, w))
  {
  }

  /**
   After any sequence of calls the field holds a value the codec can send: its length octet is not
   truncated, so reading the field back gives the whole string.
   */
  lemma {:induction false} AlwaysSendable(text: bytes, writes: seq<Write>, tail: bytes)
    requires |text| <= 255 && NulFree(text)
    ensures Holds(Str(None), Text(WrittenAll(text, writes)))
    ensures var s := WrittenAll(text, writes);
            GetSized(PutSized(s, 1) + tail, 1) == Got(Done, s, 1 + |s|)
    decreases |writes|
  {
    hide Written, GetSized, PutSized;
    if writes == [] {
      SizedRoundTrip(text, 1, tail);
    } else {
      WrittenFits(text, writes[0]);
      AlwaysSendable(Written(text, writes[0]), writes[1..], tail);
    }
  }

  /**
   What a call leaves in the field, octet by octet: the characters of the argument, or of the string in the
   frame, up to the first NUL and at most 255 of them; on failure what was there.
   */
  lemma WrittenMeans(text: bytes, value: bytes, frame: bytes, needle: nat)
    ensures var s := Written(text, Set(value));
      && |s| <= 255 && |s| <= |value| && (forall i :: 0 <= i < |s| ==> s[i] == value[i] != 0)
      && (|s| < 255 && |s| < |value| ==> value[|s|] == 0)
    ensures Written(text, SetToItself) == text
    ensures var s := Written(text, Receive(frame, needle));
      var whole := needle < |frame| && frame[needle] as nat <= |frame| - needle - 1;
      && (!whole ==> s == text)
      && (whole ==>
            && |s| <= frame[needle] as nat && (forall i :: 0 <= i < |s| ==> s[i] == frame[needle + 1 + i] != 0)
            && (|s| < frame[needle] as nat ==> frame[needle + 1 + |s|] == 0))
  {
    hide CStr, Arrived;
    CStrMeans(value);
    if Arrives(frame, needle) {
      var n := frame[needle] as nat;
      assert Arrived(frame, needle) == frame[needle + 1..][..n] by { ArrivedIs(frame, needle); }
      CStrMeans(frame[needle + 1..][..n]);
    }
  }

  lemma ArrivedIs(frame: bytes, needle: nat)
    requires Arrives(frame, needle)
    ensures Arrived(frame, needle) == frame[needle + 1..][..frame[needle]]
  {
  }

  lemma CStrMeans(raw: bytes)
    ensures var s := CStr(raw); |s| <= |raw| && forall i :: 0 <= i < |s| ==> s[i] == raw[i] != 0
  {
    hide CStr;
    assert CStr(raw) == raw[..|CStr(raw)|];
  }
}
