/**
 The frame buffer and its needle: the PUT and GET macros as updates in place.
 */
module Buffers {
  import opened Bytes
  import opened Wire

  /** A frame being written: the needle is the number of octets written so far. */
  class Writer {
    const data: array<byte>
    var needle: nat

    ghost predicate Valid()
      reads this
    {
      needle <= data.Length
    }

    ghost function Written(): bytes
      requires Valid()
      reads this, data
    {
      data[..needle]
    }

    constructor (size: nat)
      ensures Valid() && fresh(data) && data.Length == size && needle == 0
    {
      data := new byte[size];
      needle := 0;
    }

    /** Move the needle past the octets of a number just written at it. */
    method Advance(n: nat, size: nat)
      requires Valid() && needle + size <= data.Length
      requires data[needle..needle + size] == PutNumber(n, size)
      modifies this`needle
      ensures Valid() && needle == old(needle) + size
      ensures Written() == old(Written()) + PutNumber(n, size)
    {
      hide PutNumber;
      needle := needle + size;
      assert data[..needle] == data[..old(needle)] + data[old(needle)..needle];
    }

    method PutNumber1(n: nat)
      requires Valid() && needle + 1 <= data.Length
      modifies this`needle, data
      ensures Valid() && needle == old(needle) + 1
      ensures Written() == old(Written()) + PutNumber(n, 1)
    {
      hide Octet;
      data[needle] := Octet(n, 0);
      assert data[needle..needle + 1] == PutNumber(n, 1);
      Advance(n, 1);
    }

    method PutNumber2(n: nat)
      requires Valid() && needle + 2 <= data.Length
      modifies this`needle, data
      ensures Valid() && needle == old(needle) + 2
      ensures Written() == old(Written()) + PutNumber(n, 2)
    {
      hide Octet;
      data[needle], data[needle + 1] := Octet(n, 1), Octet(n, 0);
      assert data[needle..needle + 2] == PutNumber(n, 2);
      Advance(n, 2);
    }

    method PutNumber4(n: nat)
      requires Valid() && needle + 4 <= data.Length
      modifies this`needle, data
      ensures Valid() && needle == old(needle) + 4
      ensures Written() == old(Written()) + PutNumber(n, 4)
    {
      hide Octet;
      data[needle], data[needle + 1] := Octet(n, 3), Octet(n, 2);
      data[needle + 2], data[needle + 3] := Octet(n, 1), Octet(n, 0);
      assert data[needle..needle + 4] == PutNumber(n, 4);
      Advance(n, 4);
    }

    method PutNumber8(n: nat)
      requires Valid() && needle + 8 <= data.Length
      modifies this`needle, data
      ensures Valid() && needle == old(needle) + 8
      ensures Written() == old(Written()) + PutNumber(n, 8)
    {
      hide Octet;
      data[needle], data[needle + 1] := Octet(n, 7), Octet(n, 6);
      data[needle + 2], data[needle + 3] := Octet(n, 5), Octet(n, 4);
      data[needle + 4], data[needle + 5] := Octet(n, 3), Octet(n, 2);
      data[needle + 6], data[needle + 7] := Octet(n, 1), Octet(n, 0);
      assert data[needle..needle + 8] == PutNumber(n, 8);
      Advance(n, 8);
    }

    /** The PUT_NUMBER macro of that size. */
    method PutNum(n: nat, size: nat)
      requires Valid() && size in {1, 2, 4, 8} && needle + size <= data.Length
      modifies this`needle, data
      ensures Valid() && needle == old(needle) + size
      ensures Written() == old(Written()) + PutNumber(n, size)
    {
      hide PutNumber;
      if size == 1 {
        PutNumber1(n);
      } else if size == 2 {
        PutNumber2(n);
      } else if size == 4 {
        PutNumber4(n);
      } else {
        PutNumber8(n);
      }
    }

    /** memcpy to the needle. */
    method PutOctets(bs: bytes)
      requires Valid() && needle + |bs| <= data.Length
      modifies this`needle, data
      ensures Valid() && needle == old(needle) + |bs|
      ensures Written() == old(Written()) + bs
    {
      forall i | 0 <= i < |bs| {
        data[needle + i] := bs[i];
      }
      needle := needle + |bs|;
    }

    /** PUT_STRING (width 1) and PUT_LONGSTR (width 4). */
    method PutText(s: bytes, width: nat)
      requires Valid() && width in {1, 4} && needle + width + |s| <= data.Length
      modifies this`needle, data
      ensures Valid() && needle == old(needle) + width + |s|
      ensures Written() == old(Written()) + PutSized(s, width)
    {
      hide PutNumber;
      PutNum(|s|, width);
      PutOctets(s);
    }
  }

  /** A received frame: the needle never passes the ceiling, the end of the octets received. */
  class Reader {
    const input: bytes
    var needle: nat

    ghost predicate Valid()
      reads this
    {
      needle <= |input|
    }

    ghost function Rest(): bytes
      requires Valid()
      reads this
    {
      input[needle..]
    }

    constructor (input: bytes)
      ensures Valid() && this.input == input && needle == 0
    {
      this.input := input;
      needle := 0;
    }

    /** GET_NUMBER1, 2, 4 and 8. */
    method GetNumeral(size: nat) returns (ok: bool, n: nat)
      requires Valid()
      modifies this`needle
      ensures Valid()
      ensures var g := GetNum(old(Rest()), size);
        ok == g.exit.Done? && n == g.value && needle == old(needle) + g.used
    {
      hide GetNumber;
      if needle + size > |input| {
        return false, 0;
      }
      assert input[needle..][..size] == input[needle..needle + size];
      n := GetNumber(input[needle..needle + size]);
      needle := needle + size;
      ok := true;
    }

    /** A length and that many octets: GET_STRING (width 1), GET_LONGSTR and a chunk (width 4). */
    method GetText(width: nat) returns (ok: bool, raw: bytes)
      requires Valid()
      modifies this`needle
      ensures Valid()
      ensures var g := GetSized(old(Rest()), width);
        ok == g.exit.Done? && raw == g.value && needle == old(needle) + g.used
    {
      hide GetNumber;
      raw := [];
      var size: nat;
      ok, size := GetNumeral(width);
      if ok {
        if needle + size > |input| {
          return false, [];
        }
        assert input[old(needle)..][width..width + size] == input[needle..needle + size];
        raw := input[needle..needle + size];
        needle := needle + size;
      }
    }

    method GetOctets(size: nat) returns (ok: bool, bs: bytes)
      requires Valid()
      modifies this`needle
      ensures Valid() && ok == (size <= |old(Rest())|)
      ensures ok ==> bs == old(Rest())[..size] && needle == old(needle) + size
      ensures !ok ==> needle == old(needle)
    {
      bs := [];
      ok := needle + size <= |input|;
      if ok {
        bs := input[needle..needle + size];
        needle := needle + size;
      }
    }
  }
}
