/** ASCII models of the JavaScript string operations the routes use:
    `toLowerCase`, `trim`, `includes`, `split` on one character, the
    regular-expression class `\s`, and decimal rendering of numbers. */
module Text {

  /** `\s` restricted to ASCII: space, tab, line feed, vertical tab, form feed, carriage return. */
  predicate IsSpace(c: char) {
    c == ' ' || c == '\t' || c == '\n' || c == '\r' || c == '\U{000B}' || c == '\U{000C}'
  }

  predicate NoSpace(s: string) {
    forall i :: 0 <= i < |s| ==> !IsSpace(s[i])
  }

  predicate IsUpper(c: char) { 'A' <= c <= 'Z' }

  function LowerChar(c: char): (r: char)
    ensures !IsUpper(r)
    ensures IsUpper(c) ==> r as int == c as int + 32
    ensures !IsUpper(c) ==> r == c
  {
    if IsUpper(c) then (c as int + 32) as char else c
  }

  /** `toLowerCase` on ASCII letters. */
  function Lower(s: string): (r: string)
    ensures |r| == |s|
    ensures forall i :: 0 <= i < |s| ==> r[i] == LowerChar(s[i])
  {
    seq(|s|, i requires 0 <= i < |s| => LowerChar(s[i]))
  }

  lemma LowerIdempotent(s: string)
    ensures Lower(Lower(s)) == Lower(s)
  {
  }

  /** Lowering never creates or removes whitespace. */
  lemma LowerKeepsSpaces(s: string)
    ensures forall i :: 0 <= i < |s| ==> (IsSpace(Lower(s)[i]) <==> IsSpace(s[i]))
  {
  }

  /** Number of whitespace characters at the start of `s`. */
  function LeadingSpaces(s: string): (k: nat)
    ensures k <= |s|
    ensures forall i :: 0 <= i < k ==> IsSpace(s[i])
    ensures k < |s| ==> !IsSpace(s[k])
  {
    if |s| > 0 && IsSpace(s[0]) then 1 + LeadingSpaces(s[1..]) else 0
  }

  /** Number of whitespace characters at the end of `s`. */
  function TrailingSpaces(s: string): (k: nat)
    ensures k <= |s|
    ensures forall i :: |s| - k <= i < |s| ==> IsSpace(s[i])
    ensures k < |s| ==> !IsSpace(s[|s| - 1 - k])
  {
    if |s| > 0 && IsSpace(s[|s| - 1]) then 1 + TrailingSpaces(s[..|s| - 1]) else 0
  }

  /** `trim`: the longest infix of `s` that neither starts nor ends with whitespace,
      obtained by removing whitespace only. */
  function Trim(s: string): (r: string)
    ensures |r| <= |s|
    ensures |r| > 0 ==> !IsSpace(r[0]) && !IsSpace(r[|r| - 1])
    ensures exists a :: TrimmedAt(s, r, a)
  {
    var a := LeadingSpaces(s);
    var t := s[a..];
    var b := TrailingSpaces(t);
    var r := t[..|t| - b];
    assert r == s[a..a + |r|];
    assert TrimmedAt(s, r, a);
    r
  }

  /** `r` is the infix of `s` starting at `a`, and everything around it is whitespace. */
  ghost predicate TrimmedAt(s: string, r: string, a: int) {
    && 0 <= a <= |s| - |r| && r == s[a..a + |r|]
    && (forall i :: 0 <= i < a ==> IsSpace(s[i]))
    && (forall i :: a + |r| <= i < |s| ==> IsSpace(s[i]))
  }

  lemma TrimNoSpace(s: string)
    requires NoSpace(s)
    ensures Trim(s) == s
  {
    assert LeadingSpaces(s) == 0;
    assert TrailingSpaces(s) == 0 by {
      if |s| > 0 { assert !IsSpace(s[|s| - 1]); }
    }
  }

  /** Trimming is idempotent. */
  lemma TrimIdempotent(s: string)
    ensures Trim(Trim(s)) == Trim(s)
  {
    var t := Trim(s);
    assert LeadingSpaces(t) == 0;
    assert TrailingSpaces(t) == 0 by {
      if |t| > 0 { assert !IsSpace(t[|t| - 1]); }
    }
  }

  /** `t` occurs in `s` at position `i`. */
  ghost predicate OccursAt(s: string, t: string, i: int) {
    0 <= i <= |s| - |t| && s[i..i + |t|] == t
  }

  /** `s.includes(t)` */
  function Contains(s: string, t: string): (r: bool)
    decreases |s|
    ensures r <==> exists i :: OccursAt(s, t, i)
  {
    if |t| > |s| then false
    else if s[..|t|] == t then
      assert OccursAt(s, t, 0);
      true
    else
      var rest := Contains(s[1..], t);
      assert rest <==> exists i :: OccursAt(s, t, i) by {
        forall i | 1 <= i <= |s| - |t| ensures OccursAt(s[1..], t, i - 1) <==> OccursAt(s, t, i) {
          assert s[1..][i - 1..i - 1 + |t|] == s[i..i + |t|];
        }
        if rest {
          var j :| OccursAt(s[1..], t, j);
          assert OccursAt(s, t, j + 1);
        }
        if exists i :: OccursAt(s, t, i) {
          var i :| OccursAt(s, t, i);
          assert i != 0;
          assert OccursAt(s[1..], t, i - 1);
        }
      }
      rest
  }

  /** Number of occurrences of `c` in `s`. */
  function Count(s: string, c: char): nat {
    if |s| == 0 then 0 else (if s[0] == c then 1 else 0) + Count(s[1..], c)
  }

  /** `s.split(c)` for a one-character separator: the maximal pieces between separators. */
  function Split(s: string, c: char): (r: seq<string>)
    ensures |r| == Count(s, c) + 1
    ensures forall k :: 0 <= k < |r| ==> c !in r[k]
  {
    if |s| == 0 then [""]
    else
      var rest := Split(s[1..], c);
      if s[0] == c then [""] + rest else [[s[0]] + rest[0]] + rest[1..]
  }

  /** Position of the first `c` in `s`, or `|s|` when there is none. */
  function IndexOf(s: string, c: char): (k: nat)
    ensures k <= |s|
    ensures c !in s[..k]
    ensures k < |s| ==> s[k] == c
  {
    if |s| == 0 then 0
    else if s[0] == c then 0
    else
      var k := 1 + IndexOf(s[1..], c);
      assert s[..k] == [s[0]] + s[1..][..k - 1];
      k
  }

  /** The first piece of a split is the text before the first separator, and the other
      pieces are the split of what follows it. */
  lemma {:induction false} SplitHead(s: string, c: char)
    ensures Split(s, c)[0] == s[..IndexOf(s, c)]
    ensures IndexOf(s, c) < |s| ==> Split(s, c)[1..] == Split(s[IndexOf(s, c) + 1..], c)
    ensures IndexOf(s, c) == |s| ==> |Split(s, c)| == 1
  {
    if |s| > 0 && s[0] != c {
      SplitHead(s[1..], c);
      var j := IndexOf(s[1..], c);
      assert IndexOf(s, c) == j + 1;
      if j < |s| - 1 {
        assert s[1..][j + 1..] == s[j + 2..];
      }
    }
  }

  /** `pieces.join(c)` */
  function Join(pieces: seq<string>, c: char): string
    requires |pieces| > 0
  {
    if |pieces| == 1 then pieces[0] else pieces[0] + [c] + Join(pieces[1..], c)
  }

  /** Splitting loses nothing: joining the pieces with the separator gives back the input. */
  lemma {:induction false} JoinSplit(s: string, c: char)
    ensures Join(Split(s, c), c) == s
  {
    if |s| > 0 {
      JoinSplit(s[1..], c);
      var rest := Split(s[1..], c);
      if s[0] == c {
        assert Split(s, c)[1..] == rest;
      } else {
        var r := Split(s, c);
        assert r[0] == [s[0]] + rest[0];
        if |rest| == 1 {
          assert s == [s[0]] + s[1..];
        } else {
          assert r[1..] == rest[1..];
          assert s == [s[0]] + (rest[0] + [c] + Join(rest[1..], c));
        }
      }
    }
  }

  /** Splitting a string without whitespace gives pieces without whitespace. */
  lemma {:induction false} SplitKeepsNoSpace(s: string, c: char)
    requires NoSpace(s)
    ensures forall k :: 0 <= k < |Split(s, c)| ==> NoSpace(Split(s, c)[k])
  {
    if |s| > 0 {
      assert NoSpace(s[1..]);
      SplitKeepsNoSpace(s[1..], c);
      var rest := Split(s[1..], c);
      if s[0] != c {
        assert NoSpace([s[0]] + rest[0]);
        assert Split(s, c)[1..] == rest[1..];
      } else {
        assert Split(s, c)[1..] == rest;
      }
    }
  }

  /** `s.replace(/\s+/g, "_")`: every maximal run of whitespace becomes one underscore. */
  function ReplaceSpaceRuns(s: string): (r: string)
    decreases |s|
    ensures NoSpace(r)
    ensures |r| <= |s|
    ensures forall i :: 0 <= i < |r| ==> r[i] == '_' || r[i] in s
  {
    if |s| == 0 then ""
    else if IsSpace(s[0]) then
      var k := LeadingSpaces(s);
      "_" + ReplaceSpaceRuns(s[k..])
    else [s[0]] + ReplaceSpaceRuns(s[1..])
  }

  /** The whitespace at the start of `x + y`: that of `x`, running on into `y` when `x` is
      all whitespace. */
  lemma {:induction false} LeadingSpacesConcat(x: string, y: string)
    ensures LeadingSpaces(x) < |x| ==> LeadingSpaces(x + y) == LeadingSpaces(x)
    ensures LeadingSpaces(x) == |x| ==> LeadingSpaces(x + y) == |x| + LeadingSpaces(y)
  {
    if |x| > 0 {
      assert (x + y)[1..] == x[1..] + y;
      LeadingSpacesConcat(x[1..], y);
    } else {
      assert x + y == y;
    }
  }

  /** A maximal run `w` of whitespace becomes one underscore, and the text on either side of
      it is replaced on its own. */
  lemma {:induction false} ReplaceSpaceRun(a: string, w: string, b: string)
    requires |w| > 0 && forall i :: 0 <= i < |w| ==> IsSpace(w[i])
    requires |a| > 0 ==> !IsSpace(a[|a| - 1])
    requires |b| > 0 ==> !IsSpace(b[0])
    ensures ReplaceSpaceRuns(a + w + b) == ReplaceSpaceRuns(a) + "_" + ReplaceSpaceRuns(b)
    decreases |a|
  {
    if |a| == 0 {
      assert a + w + b == w + b;
      RunAtStart(w, b);
    } else if IsSpace(a[0]) {
      var k := LeadingSpaces(a);
      LeadingSpacesConcat(a, w + b);
      assert a + w + b == a + (w + b);
      assert (a + w + b)[k..] == a[k..] + w + b;
      ReplaceSpaceRun(a[k..], w, b);
    } else {
      assert (a + w + b)[1..] == a[1..] + w + b;
      ReplaceSpaceRun(a[1..], w, b);
    }
  }

  /** A run of whitespace at the very start becomes one underscore. */
  lemma RunAtStart(w: string, b: string)
    requires |w| > 0 && forall i :: 0 <= i < |w| ==> IsSpace(w[i])
    requires |b| > 0 ==> !IsSpace(b[0])
    ensures ReplaceSpaceRuns(w + b) == "_" + ReplaceSpaceRuns(b)
  {
    LeadingSpacesConcat(w, b);
    assert LeadingSpaces(w + b) == |w|;
    assert (w + b)[|w|..] == b;
  }

  lemma {:induction false} ReplaceSpaceRunsNoSpace(s: string)
    requires NoSpace(s)
    ensures ReplaceSpaceRuns(s) == s
  {
    if |s| > 0 {
      assert NoSpace(s[1..]);
      ReplaceSpaceRunsNoSpace(s[1..]);
    }
  }

  predicate IsDigit(c: char) { '0' <= c <= '9' }

  function DigitChar(d: nat): (c: char)
    requires d < 10
    ensures IsDigit(c)
  {
    ('0' as int + d) as char
  }

  /** Decimal rendering of a natural number, as JavaScript prints it. */
  function NatToString(n: nat): (r: string)
    decreases n
    ensures |r| > 0
    ensures forall i :: 0 <= i < |r| ==> IsDigit(r[i])
  {
    if n < 10 then [DigitChar(n)] else NatToString(n / 10) + [DigitChar(n % 10)]
  }

  function DigitValue(c: char): (d: nat)
    requires IsDigit(c)
    ensures d < 10
  {
    c as int - '0' as int
  }

  /** Value of a string of decimal digits. */
  function DigitsValue(s: string): nat
    requires forall i :: 0 <= i < |s| ==> IsDigit(s[i])
  {
    if |s| == 0 then 0 else 10 * DigitsValue(s[..|s| - 1]) + DigitValue(s[|s| - 1])
  }

  /** Rendering is faithful: reading the digits back yields the number. */
  lemma {:induction false} NatToStringValue(n: nat)
    ensures DigitsValue(NatToString(n)) == n
  {
    if n >= 10 {
      NatToStringValue(n / 10);
      var r := NatToString(n);
      assert r[..|r| - 1] == NatToString(n / 10);
    }
  }

  /** A number in [10^(k-1), 10^k) renders with exactly k digits; here for six digits. */
  lemma SixDigits(n: nat)
    requires 100000 <= n <= 999999
    ensures |NatToString(n)| == 6
  {
    assert |NatToString(n / 100000)| == 1;
    assert |NatToString(n / 10000)| == 2;
    assert |NatToString(n / 1000)| == 3;
    assert |NatToString(n / 100)| == 4;
    assert |NatToString(n / 10)| == 5;
  }
}
