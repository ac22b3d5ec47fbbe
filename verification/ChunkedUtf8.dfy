/** The chunk decoder's test for UTF-8 accepts exactly the encodings of section 3 of RFC 3629. */
module ChunkedUtf8 {
  import opened ChunkedBody

  /** A Unicode scalar value: a code point that is no surrogate. */
  predicate Scalar(c: int) {
    0 <= c < 0xD800 || 0xE000 <= c <= 0x10FFFF
  }

  function Encoding(c: int): seq<byte>
    requires Scalar(c)
  {
    if c < 0x80 then [c]
    else if c < 0x800 then [0xC0 + c / 64, 0x80 + c % 64]
    else if c < 0x1_0000 then [0xE0 + c / 64 / 64, 0x80 + c / 64 % 64, 0x80 + c % 64]
    else [0xF0 + c / 64 / 64 / 64, 0x80 + c / 64 / 64 % 64, 0x80 + c / 64 % 64, 0x80 + c % 64]
  }

  predicate Scalars(cs: seq<int>) {
    forall c | c in cs :: Scalar(c)
  }

  function Encoded(cs: seq<int>): seq<byte>
    requires Scalars(cs)
  {
    if cs == [] then [] else Encoding(cs[0]) + Encoded(cs[1..])
  }

  lemma OneMore(c: int, s: seq<byte>)
    requires Scalar(c)
    ensures Utf8(Encoding(c) + s) == Utf8(s)
  {
    var t := Encoding(c) + s;
    assert t[|Encoding(c)|..] == s;
  }

  lemma {:induction false} EncodedIsUtf8(cs: seq<int>)
    requires Scalars(cs)
    ensures Utf8(Encoded(cs))
  {
    if cs != [] {
      OneMore(cs[0], Encoded(cs[1..]));
      EncodedIsUtf8(cs[1..]);
    }
  }

  function Tail(b: byte): int {
    b as int - 0x80
  }

  lemma Shifted(high: int, low: int)
    requires 0 <= low < 64
    ensures (high * 64 + low) / 64 == high && (high * 64 + low) % 64 == low
  {
  }

  lemma TwoBytes(a: byte, b: byte) returns (c: int)
    requires 0xC2 <= a <= 0xDF && 0x80 <= b <= 0xBF
    ensures Scalar(c) && Encoding(c) == [a, b]
  {
    c := (a as int - 0xC0) * 64 + Tail(b);
  }

  lemma ThreeBytes(a: byte, b: byte, d: byte) returns (c: int)
    requires 0xE0 <= a <= 0xEF && 0x80 <= b <= 0xBF && 0x80 <= d <= 0xBF
    requires (a == 0xE0 ==> b >= 0xA0) && (a == 0xED ==> b <= 0x9F)
    ensures Scalar(c) && Encoding(c) == [a, b, d]
  {
    var high := (a as int - 0xE0) * 64 + Tail(b);
    c := high * 64 + Tail(d);
    Shifted(high, Tail(d));
    Shifted(a as int - 0xE0, Tail(b));
  }

  lemma FourBytes(a: byte, b: byte, d: byte, e: byte) returns (c: int)
    requires 0xF0 <= a <= 0xF4 && 0x80 <= b <= 0xBF && 0x80 <= d <= 0xBF && 0x80 <= e <= 0xBF
    requires (a == 0xF0 ==> b >= 0x90) && (a == 0xF4 ==> b <= 0x8F)
    ensures Scalar(c) && Encoding(c) == [a, b, d, e]
  {
    var high := (a as int - 0xF0) * 64 + Tail(b);
    c := (high * 64 + Tail(d)) * 64 + Tail(e);
    Shifted(high * 64 + Tail(d), Tail(e));
    Shifted(high, Tail(d));
    Shifted(a as int - 0xF0, Tail(b));
  }

  /** The scalar value at the beginning of well-formed bytes. */
  lemma FirstScalar(s: seq<byte>) returns (c: int)
    requires s != [] && Utf8(s)
    ensures Scalar(c) && Encoding(c) <= s && Utf8(s[|Encoding(c)|..])
  {
    if s[0] < 0x80 {
      c := s[0];
    } else if s[0] < 0xE0 {
      c := TwoBytes(s[0], s[1]);
    } else if s[0] < 0xF0 {
      c := ThreeBytes(s[0], s[1], s[2]);
    } else {
      c := FourBytes(s[0], s[1], s[2], s[3]);
    }
  }

  lemma {:induction false} Utf8IsEncoded(s: seq<byte>) returns (cs: seq<int>)
    requires Utf8(s)
    ensures Scalars(cs) && s == Encoded(cs)
    decreases |s|
  {
    if s == [] {
      cs := [];
    } else {
      var c := FirstScalar(s);
      var more := Utf8IsEncoded(s[|Encoding(c)|..]);
      cs := [c] + more;
      assert cs[1..] == more;
    }
  }

  /** The bytes are accepted exactly if they encode a sequence of scalar values. */
  lemma Utf8Iff(s: seq<byte>)
    ensures Utf8(s) <==> exists cs :: Scalars(cs) && s == Encoded(cs)
  {
    if Utf8(s) {
      var cs := Utf8IsEncoded(s);
    } else {
      forall cs | Scalars(cs)
        ensures s != Encoded(cs)
      {
        EncodedIsUtf8(cs);
      }
    }
  }
}
