/** The UTF-8 encoding (section 3 of RFC 3629), by whose length every text is measured. */
module Utf8 {
  import opened MacroCore

  function Bytes(c: char): (bytes: seq<int>) {
    var n := c as int;
    if n < 0x80 then [n]
    else if n < 0x800 then [0xC0 + n / 64, 0x80 + n % 64]
    else if n < 0x1_0000 then [0xE0 + n / 4096, 0x80 + n / 64 % 64, 0x80 + n % 64]
    else [0xF0 + n / 262144, 0x80 + n / 4096 % 64, 0x80 + n / 64 % 64, 0x80 + n % 64]
  }

  function Encoded(s: string): seq<int> {
    if s == "" then [] else Bytes(s[0]) + Encoded(s[1..])
  }

  /** The scalar value that bytes begin with. */
  function FirstOf(bytes: seq<int>): int
    requires bytes != []
  {
    var b := bytes[0];
    if b < 0xC0 || |bytes| < 2 then b
    else if b < 0xE0 || |bytes| < 3 then (b - 0xC0) * 64 + (bytes[1] - 0x80)
    else if b < 0xF0 || |bytes| < 4 then (b - 0xE0) * 4096 + (bytes[1] - 0x80) * 64 + (bytes[2] - 0x80)
    else (b - 0xF0) * 262144 + (bytes[1] - 0x80) * 4096 + (bytes[2] - 0x80) * 64 + (bytes[3] - 0x80)
  }

  lemma FirstRead(c: char, more: seq<int>)
    ensures FirstOf(Bytes(c) + more) == c as int
  {
    var n := c as int;
    var bytes := Bytes(c) + more;
    assert forall i :: 0 <= i < |Bytes(c)| ==> bytes[i] == Bytes(c)[i];
    assert n == n / 64 * 64 + n % 64;
    assert n / 64 == n / 4096 * 64 + n / 64 % 64;
    assert n / 4096 == n / 262144 * 64 + n / 4096 % 64;
  }

  /** An encoding belongs to one text. */
  lemma {:induction false} EncodingIsUnique(s: string, t: string)
    requires Encoded(s) == Encoded(t)
    ensures s == t
  {
    if s != "" && t != "" {
      FirstRead(s[0], Encoded(s[1..]));
      FirstRead(t[0], Encoded(t[1..]));
      assert Encoded(s)[|Bytes(s[0])|..] == Encoded(s[1..]) && Encoded(t)[|Bytes(t[0])|..] == Encoded(t[1..]);
      EncodingIsUnique(s[1..], t[1..]);
      assert s == [s[0]] + s[1..] && t == [t[0]] + t[1..];
    }
  }

  /** The length that every limit is about is that of the encoding. */
  lemma {:induction false} LengthOfEncoding(s: string)
    ensures |Encoded(s)| == Utf8Len(s)
  {
    if s != "" { LengthOfEncoding(s[1..]); }
  }

  lemma {:induction false} EncodingIsBytes(s: string)
    ensures forall b | b in Encoded(s) :: 0 <= b < 256
  {
    if s != "" { EncodingIsBytes(s[1..]); }
  }
}
