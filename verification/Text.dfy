/** Byte strings as the program handles them, and the substring search its string classes offer. */
module Text {

  datatype Option<+T> = None | Some(value: T)

  const CRLF := "\r\n"
  const CRLFCRLF := "\r\n\r\n"

  // pat stands in s at offset k.
  predicate At(s: string, pat: string, k: nat) {
    k + |pat| <= |s| && s[k..k + |pat|] == pat
  }

  ghost predicate Occurs(s: string, pat: string) {
    exists k: nat :: At(s, pat, k)
  }

  // k is the first offset from i on where pat stands in s.
  predicate First(s: string, pat: string, i: nat, k: nat) {
    i <= k && At(s, pat, k) && forall j: nat | i <= j < k :: !At(s, pat, j)
  }

  lemma {:induction false} SomeFirst(s: string, pat: string, i: nat, m: nat)
    requires i <= m && At(s, pat, m)
    ensures exists k: nat :: k <= |s| && First(s, pat, i, k)
    decreases m
  {
    if j: nat :| i <= j < m && At(s, pat, j) {
      SomeFirst(s, pat, i, j);
    } else {
      assert First(s, pat, i, m);
    }
  }

  // std::string::find from offset i.
  function FindFrom(s: string, pat: string, i: nat): (r: Option<nat>)
    ensures r.Some? ==> First(s, pat, i, r.value)
    ensures r.None? ==> forall j: nat | i <= j :: !At(s, pat, j)
  {
    if exists k: nat :: k <= |s| && First(s, pat, i, k) then
      var k: nat :| k <= |s| && First(s, pat, i, k);
      Some(k)
    else
      assert forall m: nat | i <= m :: !At(s, pat, m) by {
        forall m: nat | i <= m ensures !At(s, pat, m) {
          if At(s, pat, m) { SomeFirst(s, pat, i, m); }
        }
      }
      None
  }

  function Find(s: string, pat: string): (r: Option<nat>)
    ensures r.Some? ==> First(s, pat, 0, r.value)
    ensures r.None? <==> !Occurs(s, pat)
  {
    FindFrom(s, pat, 0)
  }

  // The first occurrence is the one Find reports.
  lemma FindIs(s: string, pat: string, k: nat)
    requires At(s, pat, k) && forall j | 0 <= j < k :: !At(s, pat, j)
    ensures Find(s, pat) == Some(k)
  {
    assert Occurs(s, pat);
  }

  // Bytes after a match do not move it.
  lemma FindExtends(s: string, t: string, pat: string)
    requires Find(s, pat).Some?
    ensures Find(s + t, pat) == Find(s, pat)
  {
    var k := Find(s, pat).value;
    assert (s + t)[k..k + |pat|] == s[k..k + |pat|];
    forall j | 0 <= j < k ensures !At(s + t, pat, j) {
      assert (s + t)[j..j + |pat|] == s[j..j + |pat|];
      assert !At(s, pat, j);
    }
    FindIs(s + t, pat, k);
  }

  // A two-byte delimiter of distinct bytes ends the text that does not contain it.
  lemma FindDelimiter(line: string, pat: string, t: string)
    requires |pat| == 2 && pat[0] != pat[1] && !Occurs(line, pat)
    ensures Find(line + pat + t, pat) == Some(|line|)
    ensures (line + pat + t)[..|line|] == line && (line + pat + t)[|line| + 2..] == t
  {
    var s := line + pat + t;
    assert s[|line|..|line| + 2] == pat;
    forall j | 0 <= j < |line| ensures !At(s, pat, j) {
      assert !At(line, pat, j);
      if j + 1 < |line| {
        assert s[j..j + 2] == line[j..j + 2];
      } else {
        assert s[j..j + 2][1] == pat[0];
      }
    }
    FindIs(s, pat, |line|);
  }

  // A one-byte delimiter likewise.
  lemma FindByte(line: string, pat: string, t: string)
    requires |pat| == 1 && pat[0] !in line
    ensures Find(line + pat + t, pat) == Some(|line|)
  {
    var s := line + pat + t;
    assert s[|line|..|line| + 1] == pat;
    forall j | 0 <= j < |line| ensures !At(s, pat, j) {
      assert s[j..j + 1][0] == line[j];
    }
    FindIs(s, pat, |line|);
  }

  lemma AtShift(a: string, s: string, pat: string, k: nat)
    ensures At(a + s, pat, |a| + k) <==> At(s, pat, k)
  {
    if k + |pat| <= |s| {
      assert (a + s)[|a| + k..|a| + k + |pat|] == s[k..k + |pat|];
    }
  }

  lemma FindFromIs(s: string, pat: string, i: nat, k: nat)
    requires First(s, pat, i, k)
    ensures FindFrom(s, pat, i) == Some(k)
  {
  }

  // Searching on from an offset is searching in the rest.
  lemma FindFromRest(a: string, s: string, pat: string)
    requires Find(s, pat).Some?
    ensures FindFrom(a + s, pat, |a|) == Some(|a| + Find(s, pat).value)
  {
    var k := Find(s, pat).value;
    AtShift(a, s, pat, k);
    forall j | |a| <= j < |a| + k ensures !At(a + s, pat, j) {
      AtShift(a, s, pat, j - |a|);
      assert !At(s, pat, j - |a|);
    }
    FindFromIs(a + s, pat, |a|, |a| + k);
  }

  lemma ByteOccurs(s: string, c: char)
    ensures Occurs(s, [c]) <==> c in s
  {
    if c in s {
      var k :| 0 <= k < |s| && s[k] == c;
      assert s[k..k + 1] == [c];
      assert At(s, [c], k);
    }
    if Occurs(s, [c]) {
      var k: nat :| At(s, [c], k);
      assert s[k] == s[k..k + 1][0] == c;
    }
  }

  // std::tolower in the C locale.
  function Lower(c: char): char {
    if 'A' <= c <= 'Z' then (c as int + 32) as char else c
  }

  function ToLower(s: string): (r: string)
    ensures |r| == |s| && forall i | 0 <= i < |s| :: r[i] == Lower(s[i])
  {
    seq(|s|, i requires 0 <= i < |s| => Lower(s[i]))
  }

  // The two forms of one letter.
  predicate Pair(upper: char, lower: char) {
    'A' <= upper <= 'Z' && 'a' <= lower <= 'z' && upper as int - 'A' as int == lower as int - 'a' as int
  }

  predicate SameLetter(c: char, d: char) { c == d || Pair(c, d) || Pair(d, c) }

  // The same text, in any case.
  predicate SameButCase(s: string, t: string) {
    |s| == |t| && forall i | 0 <= i < |s| :: SameLetter(s[i], t[i])
  }

  lemma LowerPairs(c: char, d: char)
    ensures Lower(c) == Lower(d) <==> SameLetter(c, d)
  {
  }

  // Comparing in lower case is comparing in any case.
  lemma ToLowerCompares(s: string, t: string)
    ensures ToLower(s) == ToLower(t) <==> SameButCase(s, t)
  {
    hide Lower, SameLetter;
    if |s| == |t| {
      forall i | 0 <= i < |s| ensures ToLower(s)[i] == ToLower(t)[i] <==> SameLetter(s[i], t[i]) {
        LowerPairs(s[i], t[i]);
      }
    }
  }

  // No capital letter is left, and nothing but case has changed.
  lemma ToLowerMeans(s: string)
    ensures SameButCase(ToLower(s), s) && forall c | c in ToLower(s) :: !('A' <= c <= 'Z')
  {
  }

  function Concat(parts: seq<string>): string {
    if parts == [] then "" else parts[0] + Concat(parts[1..])
  }

  lemma {:induction false} ConcatAppend(a: seq<string>, b: seq<string>)
    ensures Concat(a + b) == Concat(a) + Concat(b)
  {
    if a == [] {
      assert a + b == b;
    } else {
      assert (a + b)[1..] == a[1..] + b;
      ConcatAppend(a[1..], b);
    }
  }
}
