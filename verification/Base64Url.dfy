/**
 Unpadded base64url as the session tokens use it (sections 3.2 and 5 of RFC 4648). Encoding
 strips the padding; decoding recomputes it and runs the lenient decoder of the host
 language, which skips characters outside both base64 alphabets.
 */
module Base64Url {
  import opened Wrappers

  type Octet = b: int | 0 <= b < 256
  type Digit = d: int | 0 <= d < 64

  function EncodeDigit(d: Digit): (ch: char)
    ensures DecodeDigit(ch) == Some(d) && ch != '=' && ch != '.'
  {
    if d < 26 then ('A' as int + d) as char
    else if d < 52 then ('a' as int + (d - 26)) as char
    else if d < 62 then ('0' as int + (d - 52)) as char
    else if d == 62 then '-'
    else '_'
  }

  /** Both the url-safe and the standard digits are accepted. */
  function DecodeDigit(ch: char): Option<Digit> {
    if 'A' <= ch <= 'Z' then Some(ch as int - 'A' as int)
    else if 'a' <= ch <= 'z' then Some(ch as int - 'a' as int + 26)
    else if '0' <= ch <= '9' then Some(ch as int - '0' as int + 52)
    else if ch == '-' || ch == '+' then Some(62)
    else if ch == '_' || ch == '/' then Some(63)
    else None
  }

  /** With padding, four characters for every three octets begun. */
  function EncodePadded(data: seq<Octet>): (s: string)
    ensures |s| % 4 == 0
    decreases |data|
  {
    if data == [] then ""
    else if |data| == 1 then
      [EncodeDigit(data[0] / 4), EncodeDigit(data[0] % 4 * 16), '=', '=']
    else if |data| == 2 then
      [EncodeDigit(data[0] / 4), EncodeDigit(data[0] % 4 * 16 + data[1] / 16), EncodeDigit(data[1] % 16 * 4), '=']
    else
      [EncodeDigit(data[0] / 4), EncodeDigit(data[0] % 4 * 16 + data[1] / 16),
       EncodeDigit(data[1] % 16 * 4 + data[2] / 64), EncodeDigit(data[2] % 64)]
      + EncodePadded(data[3..])
  }

  function WithoutPadding(s: string): string {
    if s != "" && s[|s| - 1] == '=' then WithoutPadding(s[..|s| - 1]) else s
  }

  function Encode(data: seq<Octet>): string {
    WithoutPadding(EncodePadded(data))
  }

  function Repeat(ch: char, n: nat): string {
    if n == 0 then "" else Repeat(ch, n - 1) + [ch]
  }

  /** The padding the decoder adds back: `-len(value) % 4` characters. */
  function Padding(length: nat): string {
    Repeat('=', (4 - length % 4) % 4)
  }

  /**
   The decoder's scan: `quad` digits of the current group seen, `left` the bits not yet output,
   `pads` the padding characters since the last digit.
   */
  function Scan(s: string, quad: nat, left: Digit, pads: nat, out: seq<Octet>): Option<seq<Octet>>
    requires quad < 4 && (quad == 2 ==> left < 16) && (quad == 3 ==> left < 4)
    decreases |s|
  {
    if s == "" then (if quad == 0 then Some(out) else None)
    else if s[0] == '=' then
      if quad >= 2 && quad + pads + 1 >= 4 then Some(out)
      else Scan(s[1..], quad, left, if quad >= 2 then pads + 1 else pads, out)
    else
      var digit := DecodeDigit(s[0]);
      if digit.None? then Scan(s[1..], quad, left, pads, out)
      else
        var d := digit.value;
        if quad == 0 then Scan(s[1..], 1, d, 0, out)
        else if quad == 1 then Scan(s[1..], 2, d % 16, 0, out + [left * 4 + d / 16])
        else if quad == 2 then Scan(s[1..], 3, d % 4, 0, out + [left * 16 + d / 4])
        else Scan(s[1..], 0, 0, 0, out + [left * 64 + d])
  }

  /** None stands for the ValueError raised on non-ASCII text or a group that breaks off. */
  function Decode(value: string): Option<seq<Octet>> {
    if exists i | 0 <= i < |value| :: value[i] as int >= 128 then None
    else Scan(value + Padding(|value|), 0, 0, 0, [])
  }

  // ----- stripping and restoring the padding -----

  predicate IsPlain(s: string) {
    forall i | 0 <= i < |s| :: DecodeDigit(s[i]).Some? && s[i] != '=' && s[i] != '.'
  }

  lemma StripOne(s: string)
    ensures WithoutPadding(s + ['=']) == WithoutPadding(s)
  {
    assert (s + ['='])[..|s|] == s;
  }

  lemma PlainIsUnpadded(s: string)
    requires IsPlain(s)
    ensures WithoutPadding(s) == s
  {
    hide DecodeDigit;
  }

  /** A group with `n` padding characters: they are what is stripped, and what is put back. */
  lemma LastGroup(digits: string, n: nat)
    requires 1 <= n <= 2 && |digits| == 4 - n && IsPlain(digits)
    ensures WithoutPadding(digits + Repeat('=', n)) == digits
    ensures digits + Padding(|digits|) == digits + Repeat('=', n)
  {
    PlainIsUnpadded(digits);
    TwoPads();
    PaddingOf(|digits|, n);
    hide WithoutPadding, IsPlain, Repeat, Padding;
    StripOne(digits);
    StripOne(digits + ['=']);
    if n == 1 {
      assert Repeat('=', n) == ['='];
    } else {
      assert digits + ['='] + ['='] == digits + ['=', '='];
    }
  }

  lemma PaddingOf(length: nat, n: nat)
    requires 1 <= n <= 2 && length == 4 - n
    ensures Padding(length) == Repeat('=', n)
  {
    hide Repeat;
  }

  lemma ShortShape(data: seq<Octet>)
    requires 1 <= |data| <= 2
    ensures Encode(data) + Padding(|Encode(data)|) == EncodePadded(data)
    ensures IsPlain(Encode(data))
  {
    var s := EncodePadded(data);
    var n := 3 - |data|;
    assert IsPlain(s[..4 - n]);
    hide WithoutPadding, DecodeDigit, IsPlain, Padding;
    TwoPads();
    assert s == s[..4 - n] + Repeat('=', n);
    LastGroup(s[..4 - n], n);
  }

  lemma PaddingHasPeriodFour(n: nat)
    ensures Padding(n + 4) == Padding(n)
  {
    hide Repeat;
  }

  lemma PlainConcat(a: string, b: string)
    requires IsPlain(a) && IsPlain(b)
    ensures IsPlain(a + b)
  {
    hide DecodeDigit;
  }

  lemma FirstGroup(data: seq<Octet>) returns (head: string)
    requires |data| >= 3
    ensures |head| == 4 && IsPlain(head) && head[3] != '=' && EncodePadded(data) == head + EncodePadded(data[3..])
  {
    head := EncodePadded(data)[..4];
  }

  lemma LongShape(data: seq<Octet>, tail: string, rest: string)
    requires |data| >= 3 && tail == Encode(data[3..]) && rest == EncodePadded(data[3..])
    requires tail + Padding(|tail|) == rest && IsPlain(tail)
    ensures Encode(data) + Padding(|Encode(data)|) == EncodePadded(data)
    ensures IsPlain(Encode(data))
  {
    hide DecodeDigit, IsPlain, Padding, EncodePadded;
    var head := FirstGroup(data);
    StripAfterPrefix(head, rest);
    hide WithoutPadding;
    PaddingHasPeriodFour(|tail|);
    PlainConcat(head, tail);
    assert Encode(data) == head + tail;
    assert head + (tail + Padding(|tail|)) == (head + tail) + Padding(|tail|);
  }

  /** Encoding yields digits only, and the recomputed padding completes them to the padded form. */
  lemma {:induction false} EncodedShape(data: seq<Octet>)
    ensures Encode(data) + Padding(|Encode(data)|) == EncodePadded(data)
    ensures IsPlain(Encode(data))
    decreases |data|
  {
    if data == [] {
      NothingToStrip();
      assert Padding(0) == "";
    } else if |data| < 3 {
      hide WithoutPadding, DecodeDigit, IsPlain, Padding, EncodePadded;
      ShortShape(data);
    } else {
      hide Encode, DecodeDigit, IsPlain, Padding, EncodePadded;
      EncodedShape(data[3..]);
      LongShape(data, Encode(data[3..]), EncodePadded(data[3..]));
    }
  }

  lemma NothingToStrip()
    ensures WithoutPadding("") == ""
  {
  }

  lemma TwoPads()
    ensures Repeat('=', 1) == ['='] && Repeat('=', 2) == ['=', '=']
  {
    assert Repeat('=', 0) == "" && Repeat('=', 1) == Repeat('=', 0) + ['='] && Repeat('=', 2) == Repeat('=', 1) + ['='];
  }

  lemma {:induction false} StripAfterPrefix(head: string, tail: string)
    requires head != "" && head[|head| - 1] != '='
    ensures WithoutPadding(head + tail) == head + WithoutPadding(tail)
  {
    if tail == "" {
      assert head + tail == head;
    } else if tail[|tail| - 1] == '=' {
      assert (head + tail)[..|head + tail| - 1] == head + tail[..|tail| - 1];
      StripAfterPrefix(head, tail[..|tail| - 1]);
    }
  }

  // ----- the round trip -----

  lemma OneGroup(b0: Octet, b1: Octet, b2: Octet, rest: string, out: seq<Octet>)
    ensures Scan([EncodeDigit(b0 / 4), EncodeDigit(b0 % 4 * 16 + b1 / 16),
                  EncodeDigit(b1 % 16 * 4 + b2 / 64), EncodeDigit(b2 % 64)] + rest, 0, 0, 0, out)
         == Scan(rest, 0, 0, 0, out + [b0, b1, b2])
  {
    var d0, d1, d2, d3 := EncodeDigit(b0 / 4), EncodeDigit(b0 % 4 * 16 + b1 / 16), EncodeDigit(b1 % 16 * 4 + b2 / 64),
                          EncodeDigit(b2 % 64);
    var s := [d0, d1, d2, d3] + rest;
    assert s[1..] == [d1, d2, d3] + rest && s[1..][1..] == [d2, d3] + rest;
    assert s[1..][1..][1..] == [d3] + rest && s[1..][1..][1..][1..] == rest;
    FirstOctet(b0, b1);
    SecondOctet(b1, b2);
    var x, y, z := out + [b0], out + [b0] + [b1], out + [b0] + [b1] + [b2];
    calc {
      Scan(s, 0, 0, 0, out);
      Scan(s[1..], 1, b0 / 4, 0, out);
      Scan(s[1..][1..], 2, b1 / 16, 0, x);
      Scan(s[1..][1..][1..], 3, b2 / 64, 0, y);
      Scan(rest, 0, 0, 0, z);
    }
    assert z == out + [b0, b1, b2];
  }

  lemma FirstOctet(b0: Octet, b1: Octet)
    ensures (b0 / 4) * 4 + (b0 % 4 * 16 + b1 / 16) / 16 == b0
    ensures (b0 % 4 * 16 + b1 / 16) % 16 == b1 / 16
  {
  }

  lemma SecondOctet(b1: Octet, b2: Octet)
    ensures (b1 / 16) * 16 + (b1 % 16 * 4 + b2 / 64) / 4 == b1
    ensures (b1 % 16 * 4 + b2 / 64) % 4 == b2 / 64
  {
  }

  lemma LoneOctet(b0: Octet, out: seq<Octet>)
    ensures Scan([EncodeDigit(b0 / 4), EncodeDigit(b0 % 4 * 16), '=', '='], 0, 0, 0, out) == Some(out + [b0])
  {
    hide EncodeDigit;
    var d0, d1 := EncodeDigit(b0 / 4), EncodeDigit(b0 % 4 * 16);
    var s := [d0, d1, '=', '='];
    assert s[1..] == [d1, '=', '='] && s[1..][1..] == ['=', '='] && s[1..][1..][1..] == ['='];
    FirstOctet(b0, 0);
    calc {
      Scan(s, 0, 0, 0, out);
      Scan(s[1..], 1, b0 / 4, 0, out);
      Scan(s[1..][1..], 2, 0, 0, out + [b0]);
      Scan(s[1..][1..][1..], 2, 0, 1, out + [b0]);
      Some(out + [b0]);
    }
  }

  lemma TwoOctets(b0: Octet, b1: Octet, out: seq<Octet>)
    ensures Scan([EncodeDigit(b0 / 4), EncodeDigit(b0 % 4 * 16 + b1 / 16), EncodeDigit(b1 % 16 * 4), '='], 0, 0, 0, out)
         == Some(out + [b0, b1])
  {
    hide EncodeDigit;
    var d0, d1, d2 := EncodeDigit(b0 / 4), EncodeDigit(b0 % 4 * 16 + b1 / 16), EncodeDigit(b1 % 16 * 4);
    var s := [d0, d1, d2, '='];
    assert s[1..] == [d1, d2, '='] && s[1..][1..] == [d2, '='] && s[1..][1..][1..] == ['='];
    FirstOctet(b0, b1);
    SecondOctet(b1, 0);
    calc {
      Scan(s, 0, 0, 0, out);
      Scan(s[1..], 1, b0 / 4, 0, out);
      Scan(s[1..][1..], 2, b1 / 16, 0, out + [b0]);
      Scan(s[1..][1..][1..], 3, 0, 0, out + [b0] + [b1]);
      Some(out + [b0] + [b1]);
    }
    assert out + [b0] + [b1] == out + [b0, b1];
  }

  lemma {:induction false} ScanUndoesEncode(data: seq<Octet>, out: seq<Octet>)
    ensures Scan(EncodePadded(data), 0, 0, 0, out) == Some(out + data)
    decreases |data|
  {
    if data == [] {
      assert out + data == out;
    } else if |data| == 1 {
      LoneOctet(data[0], out);
      assert [data[0]] == data;
    } else if |data| == 2 {
      TwoOctets(data[0], data[1], out);
      assert [data[0], data[1]] == data;
    } else {
      hide Scan, EncodeDigit;
      OneGroup(data[0], data[1], data[2], EncodePadded(data[3..]), out);
      ScanUndoesEncode(data[3..], out + data[..3]);
      assert out + data[..3] + data[3..] == out + data;
      assert data[..3] == [data[0], data[1], data[2]];
    }
  }

  lemma PlainIsAscii(s: string)
    requires IsPlain(s)
    ensures !exists i | 0 <= i < |s| :: s[i] as int >= 128
  {
  }

  /** Decoding undoes encoding, for every octet string. */
  lemma DecodeUndoesEncode(data: seq<Octet>)
    ensures Decode(Encode(data)) == Some(data)
  {
    hide Scan, Encode, EncodePadded, Padding, IsPlain;
    EncodedShape(data);
    PlainIsAscii(Encode(data));
    ScanUndoesEncode(data, []);
    assert [] + data == data;
  }

  // ----- what decodes -----

  /** Where the scan stands after some digits: `quad` of a group seen, the bits `left` over, the octets `out`. */
  datatype Position = Position(quad: nat, left: Digit, out: seq<Octet>)

  predicate IsPosition(p: Position) {
    p.quad < 4 && (p.quad == 2 ==> p.left < 16) && (p.quad == 3 ==> p.left < 4)
  }

  /** Six bits for every digit and eight for every octet, those of an octet begun left over. */
  function Bits(p: Position): int {
    8 * |p.out| + if p.quad == 0 then 0 else if p.quad == 1 then 6 else if p.quad == 2 then 4 else 2
  }

  function Moved(p: Position, d: Digit): (q: Position)
    requires IsPosition(p)
    ensures IsPosition(q) && q.quad == (p.quad + 1) % 4 && Bits(q) == Bits(p) + 6
  {
    if p.quad == 0 then Position(1, d, p.out)
    else if p.quad == 1 then Position(2, d % 16, p.out + [p.left * 4 + d / 16])
    else if p.quad == 2 then Position(3, d % 4, p.out + [p.left * 16 + d / 4])
    else Position(0, 0, p.out + [p.left * 64 + d])
  }

  /** Where the scan stands after these digits. */
  function PositionAfter(digits: string, p: Position): (q: Position)
    requires IsPosition(p) && IsPlain(digits)
    ensures IsPosition(q) && q.quad == (p.quad + |digits|) % 4 && Bits(q) == Bits(p) + 6 * |digits|
    decreases |digits|
  {
    if digits == "" then p else PositionAfter(digits[1..], Moved(p, DecodeDigit(digits[0]).value))
  }

  lemma PlainTail(digits: string)
    requires IsPlain(digits) && digits != ""
    ensures IsPlain(digits[1..]) && DecodeDigit(digits[0]).Some? && digits[0] != '='
  {
    hide DecodeDigit;
  }

  /** Digits only move the scan on; what follows is scanned from there. */
  lemma {:induction false} ScanDigits(digits: string, p: Position, tail: string)
    requires IsPosition(p) && IsPlain(digits)
    ensures var q := PositionAfter(digits, p);
            Scan(digits + tail, p.quad, p.left, 0, p.out) == Scan(tail, q.quad, q.left, 0, q.out)
    decreases |digits|
  {
    if digits == "" {
      assert digits + tail == tail;
    } else {
      assert (digits + tail)[1..] == digits[1..] + tail && (digits + tail)[0] == digits[0];
      PlainTail(digits);
      ScanDigits(digits[1..], Moved(p, DecodeDigit(digits[0]).value), tail);
    }
  }

  /** Padding ends the scan: two characters after two digits of a group, one after three. */
  lemma {:induction false} ScanPadding(n: nat, p: Position, pads: nat)
    requires IsPosition(p) && (pads > 0 ==> p.quad == 2 && pads == 1)
    ensures Scan(Repeat('=', n), p.quad, p.left, pads, p.out) ==
              if p.quad == 0 || (p.quad == 2 && pads + n >= 2) || (p.quad == 3 && n >= 1) then Some(p.out) else None
  {
    if n > 0 {
      RepeatFromFront('=', n);
      if p.quad < 3 && pads == 0 {
        ScanPadding(n - 1, p, if p.quad == 2 then 1 else 0);
      }
    }
  }

  lemma {:induction false} RepeatFromFront(ch: char, n: nat)
    requires n > 0
    ensures Repeat(ch, n) == [ch] + Repeat(ch, n - 1) && Repeat(ch, n)[1..] == Repeat(ch, n - 1)
  {
    if n > 1 {
      RepeatFromFront(ch, n - 1);
    }
  }

  lemma {:induction false} RepeatTwice(ch: char, m: nat, n: nat)
    ensures Repeat(ch, m) + Repeat(ch, n) == Repeat(ch, m + n) && |Repeat(ch, m)| == m
  {
    if n == 0 {
      RepeatLength(ch, m);
    } else {
      RepeatTwice(ch, m, n - 1);
      assert Repeat(ch, m) + (Repeat(ch, n - 1) + [ch]) == (Repeat(ch, m) + Repeat(ch, n - 1)) + [ch];
    }
  }

  lemma {:induction false} RepeatLength(ch: char, m: nat)
    ensures |Repeat(ch, m)| == m && forall i | 0 <= i < m :: Repeat(ch, m)[i] == ch
  {
    if m > 0 {
      RepeatLength(ch, m - 1);
    }
  }

  lemma PlainIsAsciiText(digits: string, n: nat)
    requires IsPlain(digits)
    ensures !exists i | 0 <= i < |digits + Repeat('=', n)| :: (digits + Repeat('=', n))[i] as int >= 128
  {
    RepeatLength('=', n);
  }

  /**
   Digits decode exactly when no single one is left of the last group, to as many octets as they fill; it makes
   no difference how much padding follows them.
   */
  lemma DigitsDecodeExactly(digits: string, n: nat)
    requires IsPlain(digits)
    ensures Decode(digits + Repeat('=', n)).Some? <==> |digits| % 4 != 1
    ensures Decode(digits + Repeat('=', n)) == Decode(digits)
    ensures Decode(digits).Some? ==> |Decode(digits).value| == 6 * |digits| / 8
  {
    DigitsScan(digits, n);
    DigitsScan(digits, 0);
    assert digits + Repeat('=', 0) == digits;
    hide Decode, IsPlain;
  }

  lemma EnoughPadding(digits: nat, n: nat) returns (m: nat)
    ensures m == (4 - (digits + n) % 4) % 4
    ensures (digits % 4 == 2 ==> n + m >= 2) && (digits % 4 == 3 ==> n + m >= 1)
  {
    m := (4 - (digits + n) % 4) % 4;
  }

  lemma WithPadding(digits: string, n: nat, m: nat)
    requires m == (4 - (|digits| + n) % 4) % 4
    ensures var value := digits + Repeat('=', n);
            value + Padding(|value|) == digits + Repeat('=', n + m)
  {
    RepeatLength('=', n);
    RepeatTwice('=', n, m);
    hide Repeat;
    assert digits + Repeat('=', n) + Repeat('=', m) == digits + (Repeat('=', n) + Repeat('=', m));
  }

  lemma DigitsScan(digits: string, n: nat)
    requires IsPlain(digits)
    ensures Decode(digits + Repeat('=', n)) ==
              if |digits| % 4 != 1 then Some(PositionAfter(digits, Position(0, 0, [])).out) else None
  {
    hide Scan, Repeat, PositionAfter, IsPlain, Padding;
    var start := Position(0, 0, []);
    PlainIsAsciiText(digits, n);
    var m := EnoughPadding(|digits|, n);
    WithPadding(digits, n, m);
    ScanDigits(digits, start, Repeat('=', n + m));
    ScanPadding(n + m, PositionAfter(digits, start), 0);
  }
}
