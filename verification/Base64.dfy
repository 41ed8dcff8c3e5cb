/**
 Unpadded URL-safe base64 (RFC 4648, section 5) as the reconciliation cursor uses it (alert_triggers.py:175-203): the
 encoder drops the padding, the decoder puts it back and, through its alternative characters, also reads '+' and '/'.
 */
module Base64 {
  import opened Json

  type Byte = n: nat | n < 256

  type Sextet = n: nat | n < 64

  function EncodeSextet(s: Sextet): char {
    if s < 26 then (65 + s) as char
    else if s < 52 then (97 + s - 26) as char
    else if s < 62 then (48 + s - 52) as char
    else if s == 62 then '-' else '_'
  }

  function DecodeSextet(c: char): Option<Sextet> {
    var n := c as int;
    if 65 <= n <= 90 then Some(n - 65)
    else if 97 <= n <= 122 then Some(n - 97 + 26)
    else if 48 <= n <= 57 then Some(n - 48 + 52)
    else if c == '-' || c == '+' then Some(62)
    else if c == '_' || c == '/' then Some(63)
    else None
  }

  lemma SextetRoundTrip(s: Sextet)
    ensures DecodeSextet(EncodeSextet(s)) == Some(s) && EncodeSextet(s) != '='
  {
  }

  // The four sextets of three bytes, and back.

  function Sextet0(x: nat): nat { x / 4 }

  function Sextet1(x: nat, y: nat): nat { x % 4 * 16 + y / 16 }

  function Sextet2(y: nat, z: nat): nat { y % 16 * 4 + z / 64 }

  function Byte0(a: nat, b: nat): nat { a * 4 + b / 16 }

  function Byte1(b: nat, c: nat): nat { b % 16 * 16 + c / 4 }

  function Byte2(c: nat, d: nat): nat { c % 4 * 64 + d }

  /** Three bytes make four characters; a rest of one or two bytes makes two or three. */
  function Encode(b: seq<Byte>): string {
    if |b| == 0 then ""
    else if |b| == 1 then [EncodeSextet(Sextet0(b[0])), EncodeSextet(Sextet1(b[0], 0))]
    else if |b| == 2 then [EncodeSextet(Sextet0(b[0])), EncodeSextet(Sextet1(b[0], b[1])), EncodeSextet(Sextet2(b[1], 0))]
    else
      [EncodeSextet(Sextet0(b[0])), EncodeSextet(Sextet1(b[0], b[1])), EncodeSextet(Sextet2(b[1], b[2])), EncodeSextet(b[2] % 64)]
      + Encode(b[3..])
  }

  /** `"=" * (-len(value) % 4)` */
  function Padding(n: nat): nat { (4 - n % 4) % 4 }

  function Repeat(n: nat): string { if n == 0 then "" else "=" + Repeat(n - 1) }

  function Padded(s: string): string { s + Repeat(Padding(|s|)) }

  /** A strict decoder of padded text: whole groups of four, with padding only at the end of the last. */
  function DecodePadded(s: string): Option<seq<Byte>> {
    if s == "" then Some([])
    else if |s| < 4 then None
    else
      var (a, b, c, d) := (DecodeSextet(s[0]), DecodeSextet(s[1]), DecodeSextet(s[2]), DecodeSextet(s[3]));
      if a.None? || b.None? then None
      else if |s| == 4 && s[2] == '=' && s[3] == '=' then Some([Byte0(a.value, b.value)])
      else if c.None? then None
      else if |s| == 4 && s[3] == '=' then Some([Byte0(a.value, b.value), Byte1(b.value, c.value)])
      else if d.None? then None
      else
        var rest := DecodePadded(s[4..]);
        if rest.None? then None else Some([Byte0(a.value, b.value), Byte1(b.value, c.value), Byte2(c.value, d.value)] + rest.value)
  }

  function Decode(s: string): Option<seq<Byte>> { DecodePadded(Padded(s)) }

  lemma {:induction false} EncodedSize(b: seq<Byte>)
    ensures |Encode(b)| == (4 * |b| + 2) / 3
    ensures |b| % 3 == 0 ==> |Encode(b)| % 4 == 0
    ensures |b| % 3 == 1 ==> |Encode(b)| % 4 == 2
    ensures |b| % 3 == 2 ==> |Encode(b)| % 4 == 3
  {
    hide EncodeSextet, Sextet0, Sextet1, Sextet2;
    if |b| >= 3 {
      EncodedSize(b[3..]);
    }
  }

  lemma Bytes(x: Byte, y: Byte, z: Byte)
    ensures Byte0(Sextet0(x), Sextet1(x, y)) == x && Byte1(Sextet1(x, y), Sextet2(y, z)) == y && Byte2(Sextet2(y, z), z % 64) == z
  {
  }

  /** The characters of a group decode to its sextets. */
  lemma Group(x: Byte, y: Byte, z: Byte)
    ensures DecodeSextet(EncodeSextet(Sextet0(x))) == Some(Sextet0(x)) && DecodeSextet(EncodeSextet(Sextet1(x, y))) == Some(Sextet1(x, y))
    ensures DecodeSextet(EncodeSextet(Sextet2(y, z))) == Some(Sextet2(y, z)) && DecodeSextet(EncodeSextet(z % 64)) == Some(z % 64)
    ensures EncodeSextet(Sextet2(y, z)) != '=' && EncodeSextet(z % 64) != '='
  {
    SextetRoundTrip(Sextet0(x));
    SextetRoundTrip(Sextet1(x, y));
    SextetRoundTrip(Sextet2(y, z));
    SextetRoundTrip(z % 64);
  }

  lemma LastByte(b: seq<Byte>)
    requires |b| == 1
    ensures DecodePadded(Encode(b) + "==") == Some(b)
  {
    hide EncodeSextet, DecodeSextet, Sextet0, Sextet1, Sextet2, Byte0, Byte1, Byte2;
    Group(b[0], 0, 0);
    Bytes(b[0], 0, 0);
    var s := Encode(b) + "==";
    assert s[0] == Encode(b)[0] && s[1] == Encode(b)[1] && s[2] == '=' && s[3] == '=';
    assert b == [b[0]];
  }

  lemma LastTwoBytes(b: seq<Byte>)
    requires |b| == 2
    ensures DecodePadded(Encode(b) + "=") == Some(b)
  {
    hide EncodeSextet, DecodeSextet, Sextet0, Sextet1, Sextet2, Byte0, Byte1, Byte2;
    Group(b[0], b[1], 0);
    Bytes(b[0], b[1], 0);
    var s := Encode(b) + "=";
    assert s[0] == Encode(b)[0] && s[1] == Encode(b)[1] && s[2] == Encode(b)[2] && s[3] == '=';
    assert b == [b[0], b[1]];
  }

  lemma WholeGroup(b: seq<Byte>, pad: string)
    requires |b| >= 3 && DecodePadded(Encode(b[3..]) + pad) == Some(b[3..])
    ensures DecodePadded(Encode(b) + pad) == Some(b)
  {
    hide EncodeSextet, DecodeSextet, Sextet0, Sextet1, Sextet2, Byte0, Byte1, Byte2;
    Group(b[0], b[1], b[2]);
    Bytes(b[0], b[1], b[2]);
    var s := Encode(b) + pad;
    assert s[0] == Encode(b)[0] && s[1] == Encode(b)[1] && s[2] == Encode(b)[2] && s[3] == Encode(b)[3];
    assert s[4..] == Encode(b[3..]) + pad;
    assert b == [b[0], b[1], b[2]] + b[3..];
  }

  lemma {:induction false} PaddedRoundTrip(b: seq<Byte>, pad: string)
    requires pad == Repeat(Padding(|Encode(b)|))
    ensures DecodePadded(Encode(b) + pad) == Some(b)
  {
    hide EncodeSextet, DecodeSextet, Sextet0, Sextet1, Sextet2, Byte0, Byte1, Byte2;
    EncodedSize(b);
    assert Repeat(1) == "=" && Repeat(2) == "=" + Repeat(1);
    if |b| == 0 {
      assert Encode(b) + pad == "";
    } else if |b| == 1 {
      LastByte(b);
    } else if |b| == 2 {
      LastTwoBytes(b);
    } else {
      EncodedSize(b[3..]);
      PaddedRoundTrip(b[3..], pad);
      WholeGroup(b, pad);
    }
  }

  /** Every byte string survives the unpadded codec. */
  lemma RoundTrip(b: seq<Byte>)
    ensures Decode(Encode(b)) == Some(b)
  {
    PaddedRoundTrip(b, Repeat(Padding(|Encode(b)|)));
  }

  /** The decoder is not injective: the standard alphabet's characters read as the URL-safe ones. */
  lemma StandardAlphabetAccepted()
    ensures Decode("-_-_") == Decode("+/+/") && Decode("-_-_").Some?
  {
    assert Padded("-_-_") == "-_-_" && Padded("+/+/") == "+/+/";
    assert DecodePadded("-_-_"[4..]) == Some([]) && DecodePadded("+/+/"[4..]) == Some([]);
  }

  // ---------------------------------------------------------------- the alphabet and what is accepted

  /** The alphabet of RFC 4648, section 5: A to Z, a to z and 0 to 9 in their order, then the minus and the underline. */
  lemma AlphabetOrder(s: Sextet)
    ensures (EncodeSextet(0), EncodeSextet(26), EncodeSextet(52), EncodeSextet(62), EncodeSextet(63)) == ('A', 'a', '0', '-', '_')
    ensures s < 63 && s !in {25, 51, 61, 62} ==> EncodeSextet(s + 1) as int == EncodeSextet(s) as int + 1
  {
  }

  /** A group's four sextets, read as one number, are its three bytes, read as one number. */
  lemma GroupIsNumber(x: Byte, y: Byte, z: Byte)
    ensures ((Sextet0(x) * 64 + Sextet1(x, y)) * 64 + Sextet2(y, z)) * 64 + z % 64 == (x * 256 + y) * 256 + z
  {
    assert x == x / 4 * 4 + x % 4 && y == y / 16 * 16 + y % 16 && z == z / 64 * 64 + z % 64;
  }

  predicate Readable(c: char) { 'A' <= c <= 'Z' || 'a' <= c <= 'z' || '0' <= c <= '9' || c in {'-', '_', '+', '/'} }

  lemma ReadableIff(c: char)
    ensures DecodeSextet(c).Some? <==> Readable(c)
  {
  }

  /** Whole groups of four readable characters, the last of which may end in one or two padding characters. */
  predicate WellPadded(s: string, pad: nat) {
    && pad <= 2 && pad <= |s| && |s| % 4 == 0
    && (forall i | 0 <= i < |s| - pad :: Readable(s[i])) && (forall i | |s| - pad <= i < |s| :: s[i] == '=')
  }

  lemma {:induction false} PaddedIff(s: string)
    ensures DecodePadded(s).Some? <==> exists pad | 0 <= pad <= 2 :: WellPadded(s, pad)
  {
    hide DecodeSextet, Byte0, Byte1, Byte2;
    if s == "" {
      assert WellPadded(s, 0);
    } else if |s| >= 4 {
      ReadableIff(s[0]);
      ReadableIff(s[1]);
      ReadableIff(s[2]);
      ReadableIff(s[3]);
      assert !Readable('=');
      PaddedIff(s[4..]);
      if |s| == 4 {
        assert WellPadded(s[4..], 0);
        LastGroup(s);
      } else {
        forall pad | 0 <= pad <= 2
          ensures WellPadded(s, pad) <==> Readable(s[0]) && Readable(s[1]) && Readable(s[2]) && Readable(s[3]) && WellPadded(s[4..], pad)
        {
          GroupPadded(s, pad);
        }
      }
    }
  }

  lemma LastGroup(s: string)
    requires |s| == 4
    ensures WellPadded(s, 0) <==> Readable(s[0]) && Readable(s[1]) && Readable(s[2]) && Readable(s[3])
    ensures WellPadded(s, 1) <==> Readable(s[0]) && Readable(s[1]) && Readable(s[2]) && s[3] == '='
    ensures WellPadded(s, 2) <==> Readable(s[0]) && Readable(s[1]) && s[2] == '=' && s[3] == '='
  {
    hide Readable;
  }

  lemma GroupPadded(s: string, pad: nat)
    requires |s| > 4 && pad <= 2
    ensures WellPadded(s, pad) <==> Readable(s[0]) && Readable(s[1]) && Readable(s[2]) && Readable(s[3]) && WellPadded(s[4..], pad)
  {
    var rest := s[4..];
    hide Readable;
    assert forall i | 0 <= i < |rest| :: rest[i] == s[i + 4];
    if WellPadded(s, pad) {
      assert |s| >= 8;
    }
    if Readable(s[0]) && Readable(s[1]) && Readable(s[2]) && Readable(s[3]) && WellPadded(rest, pad) {
      forall i | 0 <= i < |s| - pad ensures Readable(s[i]) {
        if i >= 4 { assert s[i] == rest[i - 4]; }
      }
      forall i | |s| - pad <= i < |s| ensures s[i] == '=' {
        assert s[i] == rest[i - 4];
      }
    }
  }

  /** Exactly the texts that are well padded once their padding is put back are decoded. */
  lemma DecodesIff(s: string)
    ensures Decode(s).Some? <==> exists pad | 0 <= pad <= 2 :: WellPadded(Padded(s), pad)
    ensures |Padded(s)| % 4 == 0 && s <= Padded(s) && |Padded(s)| - |s| <= 3 && forall i | |s| <= i < |Padded(s)| :: Padded(s)[i] == '='
  {
    PaddedIff(Padded(s));
    RepeatIs(Padding(|s|));
  }

  lemma {:induction false} RepeatIs(n: nat)
    ensures |Repeat(n)| == n && forall i | 0 <= i < n :: Repeat(n)[i] == '='
  {
    if n > 0 {
      RepeatIs(n - 1);
    }
  }
}
