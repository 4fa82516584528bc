/**
 * The base64 encoding of section 4 of RFC 4648: every three input bytes
 * become four characters of a 64-character alphabet, and a final group of
 * one or two bytes is completed with `=` padding. The decoder is the
 * partner that shows the encoding loses nothing.
 */
module Base64 {
  import opened Values

  type byte = x: int | 0 <= x < 256
  type sextet = x: int | 0 <= x < 64

  predicate IsAlphabetChar(c: char) {
    ('A' <= c <= 'Z') || ('a' <= c <= 'z') || ('0' <= c <= '9') || c == '+' || c == '/'
  }

  /** The value of an alphabet character (the inverse of `CharOf`). */
  function IndexOf(c: char): (i: sextet)
    requires IsAlphabetChar(c)
  {
    if 'A' <= c <= 'Z' then c as int - 'A' as int
    else if 'a' <= c <= 'z' then c as int - 'a' as int + 26
    else if '0' <= c <= '9' then c as int - '0' as int + 52
    else if c == '+' then 62
    else 63
  }

  /** The character that encodes the 6-bit value `i`: Table 1 of RFC 4648,
      "A".."Z", "a".."z", "0".."9", "+", "/". */
  function CharOf(i: sextet): (c: char)
    ensures IsAlphabetChar(c) && IndexOf(c) == i
  {
    if i < 26 then ('A' as int + i) as char
    else if i < 52 then ('a' as int + i - 26) as char
    else if i < 62 then ('0' as int + i - 52) as char
    else if i == 62 then '+'
    else '/'
  }

  /** A character the encoder may emit: an alphabet character or the pad. */
  predicate IsEncodedChar(c: char) {
    IsAlphabetChar(c) || c == '='
  }

  /** Three bytes, 24 bits, as four 6-bit groups, most significant first. */
  function EncodeQuantum(a: byte, b: byte, c: byte): (r: string)
    ensures |r| == 4 && forall k :: 0 <= k < 4 ==> IsAlphabetChar(r[k])
  {
    [CharOf(a / 4), CharOf((a % 4) * 16 + b / 16), CharOf((b % 16) * 4 + c / 64), CharOf(c % 64)]
  }

  /** A final group of one byte: two characters and two pads. */
  function EncodeOne(a: byte): (r: string)
    ensures |r| == 4 && r[2] == '=' && r[3] == '='
  {
    [CharOf(a / 4), CharOf((a % 4) * 16), '=', '=']
  }

  /** A final group of two bytes: three characters and one pad. */
  function EncodeTwo(a: byte, b: byte): (r: string)
    ensures |r| == 4 && r[2] != '=' && r[3] == '='
  {
    [CharOf(a / 4), CharOf((a % 4) * 16 + b / 16), CharOf((b % 16) * 4), '=']
  }

  /** `Buffer.toString('base64')`. */
  function Encode(bs: seq<byte>): (r: string)
    ensures |r| == 4 * ((|bs| + 2) / 3)
    ensures forall k :: 0 <= k < |r| ==> IsEncodedChar(r[k])
    decreases |bs|
  {
    if |bs| == 0 then ""
    else if |bs| == 1 then EncodeOne(bs[0])
    else if |bs| == 2 then EncodeTwo(bs[0], bs[1])
    else
      var head := EncodeQuantum(bs[0], bs[1], bs[2]);
      var tail := Encode(bs[3..]);
      assert (|bs| + 2) / 3 == (|bs| - 3 + 2) / 3 + 1;
      assert forall k :: 4 <= k < |head + tail| ==> (head + tail)[k] == tail[k - 4];
      head + tail
  }

  /** Decodes one group of four characters, which may end in padding. */
  function DecodeQuantum(q: string): (r: Option<seq<byte>>)
    requires |q| == 4
    ensures r.Some? ==> 1 <= |r.value| <= 3
    ensures r.Some? && q[3] != '=' ==> |r.value| == 3
  {
    if !IsAlphabetChar(q[0]) || !IsAlphabetChar(q[1]) then None
    else
      var i0, i1 := IndexOf(q[0]), IndexOf(q[1]);
      var first: byte := i0 * 4 + i1 / 16;
      if q[2] == '=' && q[3] == '=' then Some([first])
      else if !IsAlphabetChar(q[2]) then None
      else
        var i2 := IndexOf(q[2]);
        var second: byte := (i1 % 16) * 16 + i2 / 4;
        if q[3] == '=' then Some([first, second])
        else if !IsAlphabetChar(q[3]) then None
        else Some([first, second, (i2 % 4) * 64 + IndexOf(q[3])])
  }

  /** The inverse of `Encode`: padding is accepted only in the last group. */
  function Decode(s: string): (r: Option<seq<byte>>)
    decreases |s|
  {
    if |s| == 0 then Some([])
    else if |s| < 4 then None
    else
      match DecodeQuantum(s[..4])
      case None => None
      case Some(head) =>
        if |s| == 4 then Some(head)
        else if |head| < 3 then None
        else
          match Decode(s[4..])
          case None => None
          case Some(tail) => Some(head + tail)
  }

  /** Splitting a number into a high part and a low part of a fixed width. */
  lemma Digits(h: int, l: int, w: int)
    requires w == 4 || w == 16 || w == 64
    requires 0 <= l < w
    ensures (h * w + l) / w == h && (h * w + l) % w == l
  {
  }

  lemma QuantumRoundTrip(a: byte, b: byte, c: byte)
    ensures DecodeQuantum(EncodeQuantum(a, b, c)) == Some([a, b, c])
  {
    var q := EncodeQuantum(a, b, c);
    var i0, i1, i2, i3 := a / 4, (a % 4) * 16 + b / 16, (b % 16) * 4 + c / 64, c % 64;
    assert IndexOf(q[0]) == i0 && IndexOf(q[1]) == i1 && IndexOf(q[2]) == i2 && IndexOf(q[3]) == i3;
    Digits(a % 4, b / 16, 16);
    Digits(b % 16, c / 64, 4);
    assert i0 * 4 + i1 / 16 == a;
    assert (i1 % 16) * 16 + i2 / 4 == b;
    assert (i2 % 4) * 64 + i3 == c;
  }

  lemma OneRoundTrip(a: byte)
    ensures Decode(EncodeOne(a)) == Some([a])
  {
    var q := EncodeOne(a);
    assert q[..4] == q;
    var i0, i1 := a / 4, (a % 4) * 16;
    assert IndexOf(q[0]) == i0 && IndexOf(q[1]) == i1;
    Digits(a % 4, 0, 16);
    assert i0 * 4 + i1 / 16 == a;
    assert DecodeQuantum(q) == Some([a]);
  }

  lemma TwoRoundTrip(a: byte, b: byte)
    ensures Decode(EncodeTwo(a, b)) == Some([a, b])
  {
    var q := EncodeTwo(a, b);
    assert q[..4] == q;
    var i0, i1, i2 := a / 4, (a % 4) * 16 + b / 16, (b % 16) * 4;
    assert IndexOf(q[0]) == i0 && IndexOf(q[1]) == i1 && IndexOf(q[2]) == i2;
    Digits(a % 4, b / 16, 16);
    Digits(b % 16, 0, 4);
    assert i0 * 4 + i1 / 16 == a;
    assert (i1 % 16) * 16 + i2 / 4 == b;
    assert DecodeQuantum(q) == Some([a, b]);
  }

  /** Decoding a full group followed by more text. */
  lemma DecodeCons(q: string, rest: string, head: seq<byte>, tail: seq<byte>)
    requires |q| == 4 && |rest| > 0
    requires DecodeQuantum(q) == Some(head) && |head| == 3
    requires Decode(rest) == Some(tail)
    ensures Decode(q + rest) == Some(head + tail)
  {
    var s := q + rest;
    assert s[..4] == q;
    assert s[4..] == rest;
  }

  /** Decoding an encoding gives the original bytes back. */
  lemma {:induction false} DecodeEncode(bs: seq<byte>)
    ensures Decode(Encode(bs)) == Some(bs)
    decreases |bs|, 1
  {
    if |bs| == 0 {
    } else if |bs| == 1 {
      assert Encode(bs) == EncodeOne(bs[0]);
      OneRoundTrip(bs[0]);
      assert bs == [bs[0]];
    } else if |bs| == 2 {
      assert Encode(bs) == EncodeTwo(bs[0], bs[1]);
      TwoRoundTrip(bs[0], bs[1]);
      assert bs == [bs[0], bs[1]];
    } else {
      DecodeEncodeLong(bs);
    }
  }

  lemma {:induction false} DecodeEncodeLong(bs: seq<byte>)
    requires |bs| >= 3
    ensures Decode(Encode(bs)) == Some(bs)
    decreases |bs|, 0
  {
    var head := EncodeQuantum(bs[0], bs[1], bs[2]);
    var tail := Encode(bs[3..]);
    assert Encode(bs) == head + tail;
    QuantumRoundTrip(bs[0], bs[1], bs[2]);
    DecodeEncode(bs[3..]);
    assert bs == [bs[0], bs[1], bs[2]] + bs[3..];
    if |tail| == 0 {
      assert bs[3..] == [];
      assert head + tail == head;
      assert head[..4] == head;
      assert Decode(head) == Some([bs[0], bs[1], bs[2]]);
      assert |bs| == 3 && bs == [bs[0], bs[1], bs[2]];
      assert Encode(bs) == head;
    } else {
      DecodeCons(head, tail, [bs[0], bs[1], bs[2]], bs[3..]);
    }
  }
}
