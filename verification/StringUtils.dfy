/** The percent codec of RFC 3986 section 2.1, over byte strings. */
module StringUtils {

  // Characters stand for bytes.
  predicate IsBytes(s: string) { forall i | 0 <= i < |s| :: s[i] < 256 as char }

  function HexValue(c: char): (v: int)
    ensures -1 <= v < 16
  {
    if '0' <= c <= '9' then c as int - '0' as int
    else if 'a' <= c <= 'f' then c as int - 'a' as int + 10
    else if 'A' <= c <= 'F' then c as int - 'A' as int + 10
    else -1
  }

  const HEX := "0123456789ABCDEF"

  // Two digits after a percent sign, with both inside the string.
  predicate IsEscape(s: string, i: nat) {
    i + 2 < |s| && s[i] == '%' && HexValue(s[i + 1]) >= 0 && HexValue(s[i + 2]) >= 0
  }

  function EscapedByte(s: string, i: nat): char
    requires IsEscape(s, i)
  {
    (16 * HexValue(s[i + 1]) + HexValue(s[i + 2])) as char
  }

  function Decode(s: string): string
    decreases |s|
  {
    if s == [] then []
    else if IsEscape(s, 0) then [EscapedByte(s, 0)] + Decode(s[3..])
    else [if s[0] == '+' then ' ' else s[0]] + Decode(s[1..])
  }

  // The unreserved characters of RFC 3986 section 2.3.
  predicate Unreserved(c: char) {
    'A' <= c <= 'Z' || 'a' <= c <= 'z' || '0' <= c <= '9' || c in "-_.~"
  }

  function EncodeByte(c: char): string {
    if Unreserved(c) then [c] else ['%', HEX[c as int / 16 % 16], HEX[c as int % 16]]
  }

  function Encode(s: string): string {
    if s == [] then [] else EncodeByte(s[0]) + Encode(s[1..])
  }

  // ------------------------------------------------------------------ the loops

  lemma DecodeFrom(s: string, i: nat)
    requires i < |s|
    ensures Decode(s[i..]) == if IsEscape(s, i) then [EscapedByte(s, i)] + Decode(s[i + 3..])
                              else [if s[i] == '+' then ' ' else s[i]] + Decode(s[i + 1..])
  {
    hide HexValue;
    var rest := s[i..];
    assert IsEscape(s, i) == IsEscape(rest, 0);
    assert rest[1..] == s[i + 1..] && (IsEscape(s, i) ==> rest[3..] == s[i + 3..]);
  }

  // Appending a piece of the decoded text keeps what is decoded and what is still to come together.
  lemma Moved(out: string, piece: string, rest: string, all: string)
    requires out + (piece + rest) == all
    ensures out + piece + rest == all
  {
    assert out + piece + rest == out + (piece + rest);
  }

  method UrlDecode(input: string) returns (out: string)
    ensures out == Decode(input)
  {
    hide Decode, HexValue;
    out := [];
    var i := 0;
    assert input[0..] == input;
    while i < |input|
      invariant 0 <= i <= |input|
      invariant out + Decode(input[i..]) == Decode(input)
    {
      DecodeFrom(input, i);
      var c := input[i];
      if c == '%' && i + 2 < |input| {
        var hi, lo := HexValue(input[i + 1]), HexValue(input[i + 2]);
        if hi >= 0 && lo >= 0 {
          Moved(out, [(16 * hi + lo) as char], Decode(input[i + 3..]), Decode(input));
          out := out + [(16 * hi + lo) as char];
          i := i + 3;
          continue;
        }
      }
      Moved(out, [if c == '+' then ' ' else c], Decode(input[i + 1..]), Decode(input));
      if c == '+' {
        out := out + [' '];
      } else {
        out := out + [c];
      }
      i := i + 1;
    }
    assert input[i..] == [];
    NothingCoded();
  }

  lemma NothingCoded()
    ensures Decode([]) == [] && Encode([]) == []
  {
  }

  lemma EncodeFrom(s: string, i: nat)
    requires i < |s|
    ensures Encode(s[i..]) == EncodeByte(s[i]) + Encode(s[i + 1..])
  {
    hide EncodeByte;
    assert s[i..][1..] == s[i + 1..];
  }

  method UrlEncodePathComponent(input: string) returns (out: string)
    ensures out == Encode(input)
  {
    hide Unreserved, Encode;
    out := [];
    assert input[0..] == input;
    for i := 0 to |input|
      invariant out + Encode(input[i..]) == Encode(input)
    {
      var c := input[i];
      EncodeFrom(input, i);
      ghost var before := out;
      if Unreserved(c) {
        out := out + [c];
      } else {
        out := out + ['%'];
        out := out + [HEX[c as int / 16 % 16]];
        out := out + [HEX[c as int % 16]];
      }
      assert out == before + EncodeByte(c);
    }
    assert input[|input|..] == [];
    NothingCoded();
  }

  // ------------------------------------------------------------------ theorems

  lemma HexRoundTrip(n: nat)
    requires n < 16
    ensures HexValue(HEX[n]) == n
  {
  }

  lemma DecodeEncodedByte(c: char, rest: string)
    requires c < 256 as char
    ensures Decode(EncodeByte(c) + rest) == [c] + Decode(rest)
  {
    var s := EncodeByte(c) + rest;
    DecodeFrom(s, 0);
    assert s[0..] == s;
    if Unreserved(c) {
      assert s[1..] == rest;
    } else {
      ReservedByte(c, s);
      hide HexValue;
      assert s[3..] == rest;
    }
  }

  lemma ReservedByte(c: char, s: string)
    requires c < 256 as char && !Unreserved(c) && EncodeByte(c) <= s
    ensures IsEscape(s, 0) && EscapedByte(s, 0) == c
  {
    hide HexValue;
    HexRoundTrip(c as int / 16);
    HexRoundTrip(c as int % 16);
    assert s[0] == EncodeByte(c)[0] && s[1] == EncodeByte(c)[1] && s[2] == EncodeByte(c)[2];
  }

  // Decoding undoes encoding, whatever follows.
  lemma {:induction false} DecodeEncoded(s: string, rest: string)
    requires IsBytes(s)
    ensures Decode(Encode(s) + rest) == s + Decode(rest)
  {
    hide Decode, EncodeByte;
    if s == [] {
      assert Encode(s) + rest == rest;
    } else {
      assert Encode(s) + rest == EncodeByte(s[0]) + (Encode(s[1..]) + rest);
      DecodeEncodedByte(s[0], Encode(s[1..]) + rest);
      DecodeEncoded(s[1..], rest);
    }
  }

  lemma DecodeInvertsEncode(s: string)
    requires IsBytes(s)
    ensures Decode(Encode(s)) == s
  {
    DecodeEncoded(s, []);
    assert Encode(s) + [] == Encode(s);
  }

  // No two byte strings share an encoding.
  lemma EncodeIsInjective(s: string, t: string)
    requires IsBytes(s) && IsBytes(t) && Encode(s) == Encode(t)
    ensures s == t
  {
    DecodeInvertsEncode(s);
    DecodeInvertsEncode(t);
  }

  predicate InAlphabet(c: char) { Unreserved(c) || c == '%' }

  // An encoding is made of unreserved characters and percent signs: nothing in it means anything to
  // a path, a query or a fragment.
  lemma {:induction false} EncodedAlphabet(s: string)
    ensures forall i | 0 <= i < |Encode(s)| :: InAlphabet(Encode(s)[i])
    ensures |s| <= |Encode(s)|
  {
    if s != [] {
      EncodedAlphabet(s[1..]);
      EncodedByteAlphabet(s[0]);
      hide EncodeByte, InAlphabet;
      var e, rest := EncodeByte(s[0]), Encode(s[1..]);
      assert forall i | |e| <= i < |e + rest| :: (e + rest)[i] == rest[i - |e|];
    }
  }

  lemma EncodedByteAlphabet(c: char)
    ensures forall i | 0 <= i < |EncodeByte(c)| :: InAlphabet(EncodeByte(c)[i])
    ensures |EncodeByte(c)| > 0
  {
    HexUnreserved(c as int / 16 % 16);
    HexUnreserved(c as int % 16);
  }

  lemma HexUnreserved(n: nat)
    requires n < 16
    ensures Unreserved(HEX[n])
  {
  }

  // Decoding leaves alone exactly the strings without a plus sign and without a valid escape.
  ghost predicate Literal(s: string) {
    forall i | 0 <= i < |s| :: s[i] != '+' && !IsEscape(s, i)
  }

  lemma {:induction false} DecodeNeverGrows(s: string)
    ensures |Decode(s)| <= |s|
    decreases |s|
  {
    if s != [] {
      if IsEscape(s, 0) {
        DecodeNeverGrows(s[3..]);
      } else {
        DecodeNeverGrows(s[1..]);
      }
    }
  }

  lemma {:induction false} DecodeFixesLiterals(s: string)
    ensures Decode(s) == s <==> Literal(s)
    decreases |s|
  {
    if s != [] {
      var rest := s[1..];
      assert forall i | 0 < i < |s| :: rest[i - 1] == s[i] && (IsEscape(s, i) <==> IsEscape(rest, i - 1));
      if IsEscape(s, 0) {
        DecodeNeverGrows(s[3..]);
        assert |Decode(s)| < |s|;
      } else {
        DecodeFixesLiterals(rest);
        assert s == [s[0]] + rest;
        var head := [if s[0] == '+' then ' ' else s[0]];
        assert Decode(s) == head + Decode(rest);
        if Decode(s) == s {
          assert Decode(s)[0] == s[0] && Decode(s)[1..] == Decode(rest);
        }
        if Literal(s) {
          assert forall i | 0 <= i < |rest| :: rest[i] == s[i + 1];
        }
      }
    }
  }

  // ------------------------------------------------------------------ escapes, in either case

  // The character is the hexadecimal digit of value v, in upper or lower case.
  predicate Writes(c: char, v: int) {
    0 <= v < 16 && (c == "0123456789ABCDEF"[v] || c == "0123456789abcdef"[v])
  }

  lemma HexValueMeans(c: char, v: int)
    ensures Writes(c, v) <==> v >= 0 && HexValue(c) == v
  {
  }

  lemma NotADigit(c: char)
    ensures HexValue(c) < 0 <==> forall v :: !Writes(c, v)
  {
    hide HexValue, Writes;
    if HexValue(c) >= 0 {
      HexValueMeans(c, HexValue(c));
    } else {
      forall v ensures !Writes(c, v) {
        HexValueMeans(c, v);
      }
    }
  }

  // No escape reaches over a character that is not a digit.
  lemma {:induction false} DecodeSplits(a: string, b: string)
    requires b == [] || HexValue(b[0]) < 0
    ensures Decode(a + b) == Decode(a) + Decode(b)
    decreases |a|
  {
    hide Decode, HexValue;
    if a == [] {
      NothingCoded();
      assert a + b == b;
    } else {
      EscapeStays(a, b);
      DecodeStep(a);
      DecodeStep(a + b);
      hide IsEscape, EscapedByte;
      if IsEscape(a, 0) {
        DecodeSplits(a[3..], b);
        assert (a + b)[3..] == a[3..] + b;
      } else {
        DecodeSplits(a[1..], b);
        assert (a + b)[1..] == a[1..] + b;
      }
    }
  }

  lemma DecodeStep(s: string)
    requires s != []
    ensures IsEscape(s, 0) ==> Decode(s) == [EscapedByte(s, 0)] + Decode(s[3..])
    ensures !IsEscape(s, 0) ==> Decode(s) == [if s[0] == '+' then ' ' else s[0]] + Decode(s[1..])
  {
    DecodeFrom(s, 0);
    assert s[0..] == s;
  }

  lemma EscapeStays(a: string, b: string)
    requires a != [] && (b == [] || HexValue(b[0]) < 0)
    ensures IsEscape(a + b, 0) == IsEscape(a, 0)
    ensures IsEscape(a, 0) ==> |a| >= 3 && EscapedByte(a + b, 0) == EscapedByte(a, 0)
  {
    hide HexValue;
    if |a| >= 3 {
      assert (a + b)[1] == a[1] && (a + b)[2] == a[2];
    } else if |a| == 2 {
      assert b != [] ==> (a + b)[2] == b[0];
    } else {
      assert b != [] ==> (a + b)[1] == b[0];
    }
  }

  // A plus sign is a space, wherever it stands.
  lemma PlusIsSpace(a: string, b: string)
    ensures Decode(a + "+" + b) == Decode(a) + " " + Decode(b)
  {
    DecodeSplits(a, "+" + b);
    assert a + "+" + b == a + ("+" + b);
    DecodeFrom("+" + b, 0);
    assert ("+" + b)[0..] == "+" + b && ("+" + b)[1..] == b;
  }

  // An escape is its byte, wherever it stands and in whatever case its digits are.
  lemma EscapeIsByte(a: string, x: char, y: char, b: string, hi: nat, lo: nat)
    requires Writes(x, hi) && Writes(y, lo)
    ensures Decode(a + ['%', x, y] + b) == Decode(a) + [(16 * hi + lo) as char] + Decode(b)
  {
    HexValueMeans(x, hi);
    HexValueMeans(y, lo);
    assert HexValue('%') < 0;
    hide HexValue, Writes, Decode;
    var tail := ['%', x, y] + b;
    DecodeSplits(a, tail);
    assert a + ['%', x, y] + b == a + tail;
    assert tail[0] == '%' && tail[1] == x && tail[2] == y && IsEscape(tail, 0);
    DecodeFrom(tail, 0);
    assert tail[0..] == tail && tail[3..] == b;
  }

  // t is an encoding of s, with the digits of its escapes in either case.
  ghost predicate Spells(t: string, s: string)
    decreases |s|
  {
    if s == [] then t == []
    else if Unreserved(s[0]) then t != [] && t[0] == s[0] && Spells(t[1..], s[1..])
    else
      && |t| >= 3 && t[0] == '%' && Writes(t[1], s[0] as int / 16) && Writes(t[2], s[0] as int % 16)
      && Spells(t[3..], s[1..])
  }

  // Decoding reads each of them.
  lemma {:induction false} DecodeReadsSpellings(t: string, s: string)
    requires IsBytes(s) && Spells(t, s)
    ensures Decode(t) == s
    decreases |s|
  {
    hide Decode, HexValue, Writes;
    NothingCoded();
    if s != [] {
      var c := s[0];
      assert IsBytes(s[1..]);
      if Unreserved(c) {
        DecodeReadsSpellings(t[1..], s[1..]);
        DecodeFrom(t, 0);
        assert t[0..] == t;
      } else {
        DecodeReadsSpellings(t[3..], s[1..]);
        EscapeIsByte([], t[1], t[2], t[3..], c as int / 16, c as int % 16);
        assert t == [] + ['%', t[1], t[2]] + t[3..];
        assert 16 * (c as int / 16) + c as int % 16 == c as int;
      }
    }
  }

  // What the encoder writes for one byte: itself or a percent sign and two capital digits.
  lemma EncodedByte(c: char)
    requires c < 256 as char
    ensures EncodeByte(c) ==
              if 'A' <= c <= 'Z' || 'a' <= c <= 'z' || '0' <= c <= '9' || c == '-' || c == '.' || c == '_' || c == '~'
              then [c]
              else ['%', "0123456789ABCDEF"[c as int / 16], "0123456789ABCDEF"[c as int % 16]]
  {
  }

  lemma {:induction false} EncodeSpells(s: string)
    requires IsBytes(s)
    ensures Spells(Encode(s), s)
  {
    if s != [] {
      EncodeSpells(s[1..]);
      assert Encode(s) == EncodeByte(s[0]) + Encode(s[1..]);
      ByteSpells(s, Encode(s[1..]));
    }
  }

  lemma ByteSpells(s: string, rest: string)
    requires s != [] && s[0] < 256 as char && Spells(rest, s[1..])
    ensures Spells(EncodeByte(s[0]) + rest, s)
  {
    hide Unreserved;
    var e := EncodeByte(s[0]);
    assert (e + rest)[|e|..] == rest;
  }
}
