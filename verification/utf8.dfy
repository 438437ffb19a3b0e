/**
 * `std::str::from_utf8`: the well-formed byte sequences of RFC 3629
 * (section 4), decoded to Unicode scalar values. Overlong forms, surrogates
 * and code points above U+10FFFF are rejected, as Rust rejects them.
 */
module Utf8 {
  import opened Wrappers

  type byte = b: int | 0 <= b < 256

  predicate InRange(b: byte, lo: int, hi: int) {
    lo <= b <= hi
  }

  /** The scalar value encoded at the start of `s` and the number of bytes it
      takes, or `None` when `s` does not start with a well-formed sequence. */
  function DecodeFirst(s: seq<byte>): (r: Option<(char, nat)>)
    ensures r.Some? ==> 1 <= r.value.1 <= 4 && r.value.1 <= |s|
  {
    if |s| == 0 then None
    else
      var b0: int := s[0];
      if b0 < 0x80 then
        Some((b0 as char, 1))
      else if 0xC2 <= b0 <= 0xDF then
        if |s| >= 2 && InRange(s[1], 0x80, 0xBF) then
          var b1: int := s[1];
          Some((((b0 - 0xC0) * 0x40 + (b1 - 0x80)) as char, 2))
        else None
      else if 0xE0 <= b0 <= 0xEF then
        var lo := if b0 == 0xE0 then 0xA0 else 0x80;
        var hi := if b0 == 0xED then 0x9F else 0xBF;
        if |s| >= 3 && InRange(s[1], lo, hi) && InRange(s[2], 0x80, 0xBF) then
          var b1: int, b2: int := s[1], s[2];
          Some((((b0 - 0xE0) * 0x1000 + (b1 - 0x80) * 0x40 + (b2 - 0x80)) as char, 3))
        else None
      else if 0xF0 <= b0 <= 0xF4 then
        var lo := if b0 == 0xF0 then 0x90 else 0x80;
        var hi := if b0 == 0xF4 then 0x8F else 0xBF;
        if |s| >= 4 && InRange(s[1], lo, hi) && InRange(s[2], 0x80, 0xBF) && InRange(s[3], 0x80, 0xBF) then
          var b1: int, b2: int, b3: int := s[1], s[2], s[3];
          Some((((b0 - 0xF0) * 0x40000 + (b1 - 0x80) * 0x1000 + (b2 - 0x80) * 0x40 + (b3 - 0x80)) as char, 4))
        else None
      else None
  }

  /** `from_utf8`: the decoded text, or `None` when any part is ill-formed. */
  function Decode(s: seq<byte>): Option<string>
    decreases |s|
  {
    if s == [] then Some([])
    else match DecodeFirst(s)
      case None => None
      case Some((c, n)) =>
        match Decode(s[n..])
        case None => None
        case Some(t) => Some([c] + t)
  }

  /** Decoding the first character only looks at that character's bytes. */
  lemma DecodeFirstPrefix(s: seq<byte>, t: seq<byte>)
    requires DecodeFirst(s).Some?
    ensures DecodeFirst(s + t) == DecodeFirst(s)
  {
    var n := DecodeFirst(s).value.1;
    assert (s + t)[..n] == s[..n];
    assert forall i :: 0 <= i < n ==> (s + t)[i] == s[i];
  }

  /** One step of `Decode`: a well-formed first character followed by the rest. */
  lemma DecodeStep(s: seq<byte>, c: char, n: nat)
    requires DecodeFirst(s) == Some((c, n))
    ensures Decode(s) == if Decode(s[n..]).Some? then Some([c] + Decode(s[n..]).value) else None
  {
  }

  /** Decoding distributes over concatenation of well-formed pieces: a text
      delivered in two well-formed parts decodes to the joined text. */
  lemma {:induction false} DecodeAppend(a: seq<byte>, b: seq<byte>)
    requires Decode(a).Some? && Decode(b).Some?
    ensures Decode(a + b) == Some(Decode(a).value + Decode(b).value)
    decreases |a|
  {
    if a == [] {
      assert a + b == b && Decode(a).value == [];
      assert Decode(a).value + Decode(b).value == Decode(b).value;
    } else {
      var c, n := DecodeFirst(a).value.0, DecodeFirst(a).value.1;
      DecodeStep(a, c, n);
      DecodeFirstPrefix(a, b);
      DecodeStep(a + b, c, n);
      assert (a + b)[n..] == a[n..] + b;
      DecodeAppend(a[n..], b);
      var x, y := Decode(a[n..]).value, Decode(b).value;
      assert Decode(a + b) == Some([c] + (x + y));
      assert Decode(a) == Some([c] + x);
      assert [c] + (x + y) == ([c] + x) + y;
    }
  }

  /** Bytes below 0x80 are well-formed on their own and decode one to one. */
  lemma {:induction false} DecodeAscii(s: seq<byte>)
    requires forall i :: 0 <= i < |s| ==> s[i] < 0x80
    ensures Decode(s).Some? && |Decode(s).value| == |s|
    ensures forall i :: 0 <= i < |s| ==> Decode(s).value[i] as int == s[i]
    decreases |s|
  {
    if s != [] {
      DecodeAscii(s[1..]);
    }
  }

  /** A read that ends inside a two-byte character is ill-formed, and so is
      the read that starts with the rest of it, although the two bytes
      together decode: every lead byte 0xC2..0xDF with every continuation
      byte 0x80..0xBF. */
  lemma SplitCharacterIsIllFormed(b0: byte, b1: byte)
    requires 0xC2 <= b0 <= 0xDF && 0x80 <= b1 <= 0xBF
    ensures Decode([b0, b1]).Some? && |Decode([b0, b1]).value| == 1
    ensures Decode([b0]).None? && Decode([b1]).None?
  {
    assert DecodeFirst([b0, b1]).Some?;
    assert [b0, b1][2..] == [];
  }
}
