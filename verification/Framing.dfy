/** What frames a message body, in terms of the bytes of the header block: which header counts, and which number
    its value stands for (RFC 9112 section 6.2).  None of it is said with the parser's own functions. */
module Framing {
  import opened Text
  import opened HttpSyntax

  // ------------------------------------------------------------------ which header

  // The i-th header is the first of that name, in any case.
  ghost predicate FirstNamed(headers: Headers, key: string, i: nat) {
    && i < |headers| && SameButCase(headers[i].0, key)
    && forall j | 0 <= j < i :: !SameButCase(headers[j].0, key)
  }

  // The search finds exactly the first header of the name, however it is spelled.
  lemma {:induction false} FindHeaderMeans(headers: Headers, key: string)
    ensures FindHeader(headers, key).None? <==> forall i: nat :: !FirstNamed(headers, key, i)
    ensures forall i: nat | FirstNamed(headers, key, i) :: FindHeader(headers, key) == Some(headers[i].1)
  {
    hide ToLower, SameButCase;
    if headers != [] {
      var rest := headers[1..];
      ToLowerCompares(headers[0].0, key);
      FindHeaderMeans(rest, key);
      if SameButCase(headers[0].0, key) {
        assert FirstNamed(headers, key, 0);
      } else {
        assert forall i: nat :: i > 0 ==> (FirstNamed(headers, key, i) <==> FirstNamed(rest, key, i - 1)) by {
          forall i: nat | i > 0 ensures FirstNamed(headers, key, i) <==> FirstNamed(rest, key, i - 1) {
            FirstOfRest(headers, key, i - 1, i);
          }
        }
        forall i: nat | FirstNamed(rest, key, i) ensures FirstNamed(headers, key, i + 1) {
          FirstOfRest(headers, key, i, i + 1);
        }
      }
    }
  }

  lemma FirstOfRest(headers: Headers, key: string, h: nat, i: nat)
    requires headers != [] && !SameButCase(headers[0].0, key) && i == h + 1
    ensures FirstNamed(headers, key, i) <==> FirstNamed(headers[1..], key, h)
  {
    hide SameButCase;
    var rest := headers[1..];
    assert forall j | 0 <= j < |rest| :: rest[j] == headers[j + 1];
    if FirstNamed(rest, key, h) {
      forall j | 0 <= j < i ensures !SameButCase(headers[j].0, key) {
        if j > 0 {
          assert rest[j - 1] == headers[j];
        }
      }
    }
  }

  // ------------------------------------------------------------------ which number

  function Pow10(n: nat): nat { if n == 0 then 1 else 10 * Pow10(n - 1) }

  // A decimal numeral, by the places of its digits.
  function Numeral(digits: string): int {
    if digits == "" then 0
    else (digits[0] as int - '0' as int) * Pow10(|digits| - 1) + Numeral(digits[1..])
  }

  predicate Digits(s: string) { s != "" && forall i | 0 <= i < |s| :: '0' <= s[i] <= '9' }

  predicate Blanks(s: string) { forall i | 0 <= i < |s| :: s[i] == ' ' || s[i] == '\t' }

  ghost predicate Padded(value: string, left: string, digits: string, right: string) {
    value == left + digits + right && Blanks(left) && Blanks(right) && Digits(digits)
  }

  // The value is the numeral of n, perhaps with zeros in front and blanks around it.
  ghost predicate StandsFor(value: string, n: int) {
    exists left, digits, right :: Padded(value, left, digits, right) && Numeral(digits) == n
  }

  // A header value names a length: such a numeral, within 64 bits.
  ghost predicate NamesLength(value: string, n: int) { StandsFor(value, n) && n <= 0xFFFF_FFFF_FFFF_FFFF }

  lemma {:induction false} NumeralAppend(s: string, c: char)
    ensures Numeral(s + [c]) == 10 * Numeral(s) + (c as int - '0' as int)
  {
    if s == "" {
      assert (s + [c])[1..] == "";
    } else {
      NumeralAppend(s[1..], c);
      assert (s + [c])[1..] == s[1..] + [c];
      assert |s + [c]| - 1 == |s|;
      Places(s[0] as int - '0' as int, Pow10(|s| - 1));
    }
  }

  lemma Places(d: int, p: int)
    ensures d * (10 * p) == 10 * (d * p)
  {
  }

  lemma {:induction false} DecimalIsNumeral(s: string)
    requires forall i | 0 <= i < |s| :: '0' <= s[i] <= '9'
    ensures Decimal(s) == Numeral(s)
  {
    if s != "" {
      var rest := s[..|s| - 1];
      DecimalIsNumeral(rest);
      NumeralAppend(rest, s[|s| - 1]);
      assert s == rest + [s[|s| - 1]];
    }
  }

  lemma {:induction false} TrimsLeft(left: string, s: string)
    requires Blanks(left) && (s == "" || !IsBlank(s[0]))
    ensures TrimLeft(left + s) == s
  {
    if left == "" {
      assert left + s == s;
    } else {
      assert (left + s)[1..] == left[1..] + s;
      TrimsLeft(left[1..], s);
    }
  }

  lemma {:induction false} TrimsRight(s: string, right: string)
    requires Blanks(right) && (s == "" || !IsBlank(s[|s| - 1]))
    ensures TrimRight(s + right) == s
  {
    if right == "" {
      assert s + right == s;
    } else {
      var n := |right| - 1;
      assert (s + right)[..|s + right| - 1] == s + right[..n];
      TrimsRight(s, right[..n]);
    }
  }

  lemma {:induction false} LeftOf(s: string) returns (left: string)
    ensures s == left + TrimLeft(s) && Blanks(left)
  {
    if s != "" && IsBlank(s[0]) {
      var more := LeftOf(s[1..]);
      left := [s[0]] + more;
    } else {
      left := "";
    }
  }

  lemma {:induction false} RightOf(s: string) returns (right: string)
    ensures s == TrimRight(s) + right && Blanks(right)
  {
    if s != "" && IsBlank(s[|s| - 1]) {
      var more := RightOf(s[..|s| - 1]);
      right := more + [s[|s| - 1]];
    } else {
      right := "";
    }
  }

  // The value is read as the number it names, and refused exactly if it names none.
  lemma ParseLengthMeans(value: string, n: nat)
    ensures ParseLength(value) == Some(n) <==> NamesLength(value, n)
  {
    hide TrimLeft, TrimRight, Decimal, Numeral;
    var trimmed := TrimRight(TrimLeft(value));
    if ParseLength(value).Some? {
      var left := LeftOf(value);
      var right := RightOf(TrimLeft(value));
      assert forall i | 0 <= i < |trimmed| :: trimmed[i] in trimmed;
      assert Padded(value, left, trimmed, right);
      DecimalIsNumeral(trimmed);
    }
    if StandsFor(value, n) {
      var left, digits, right :| Padded(value, left, digits, right) && Numeral(digits) == n;
      assert left + (digits + right) == value;
      assert (digits + right)[0] == digits[0];
      TrimsLeft(left, digits + right);
      TrimsRight(digits, right);
      DecimalIsNumeral(digits);
    }
  }
}
