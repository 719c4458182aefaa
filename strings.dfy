/** String helpers standing in for the Python `str` operations the scraper uses:
    `in`, `startswith`, `endswith`, `lower`, `strip`, `isdigit` and `split`. */
module Strings {

  datatype Option<+T> = None | Some(value: T)

  /** `p` occurs in `s` starting at index `i`. */
  predicate OccursAt(s: string, p: string, i: int)
  {
    0 <= i && i + |p| <= |s| && s[i..i + |p|] == p
  }

  /** Python's `p in s` on strings. */
  predicate Contains(s: string, p: string)
    decreases |s|
  {
    p <= s || (s != [] && Contains(s[1..], p))
  }

  lemma {:induction false} ContainsIff(s: string, p: string)
    ensures Contains(s, p) <==> exists i :: OccursAt(s, p, i)
    decreases |s|
  {
    if p <= s {
      assert OccursAt(s, p, 0);
    } else if s == [] {
      assert forall i :: !OccursAt(s, p, i);
    } else {
      ContainsIff(s[1..], p);
      forall i | OccursAt(s[1..], p, i) ensures OccursAt(s, p, i + 1) {
        assert s[i + 1..i + 1 + |p|] == s[1..][i..i + |p|];
      }
      forall i | OccursAt(s, p, i) ensures i > 0 && OccursAt(s[1..], p, i - 1) {
        assert s[1..][i - 1..i - 1 + |p|] == s[i..i + |p|];
      }
    }
  }

  lemma ContainsAt(s: string, p: string, i: int)
    requires OccursAt(s, p, i)
    ensures Contains(s, p)
  {
    ContainsIff(s, p);
  }

  lemma NotContains(s: string, p: string)
    requires forall i :: !OccursAt(s, p, i)
    ensures !Contains(s, p)
  {
    ContainsIff(s, p);
  }

  /** What a suffix of `s` contains, `s` contains. */
  lemma ContainsInSuffix(s: string, t: string, p: string)
    requires |t| <= |s| && s[|s| - |t|..] == t && Contains(t, p)
    ensures Contains(s, p)
  {
    ContainsIff(t, p);
    var i :| OccursAt(t, p, i);
    var off := |s| - |t|;
    assert s[off + i..off + i + |p|] == t[i..i + |p|];
    ContainsAt(s, p, off + i);
  }

  /** Python's `s.startswith(p)`. */
  predicate StartsWith(s: string, p: string)
  {
    p <= s
  }

  /** Python's `s.endswith(p)`. */
  predicate EndsWith(s: string, p: string)
  {
    |p| <= |s| && s[|s| - |p|..] == p
  }

  /** Python's `s.endswith(tuple)`. */
  predicate EndsWithAny(s: string, ps: seq<string>)
  {
    exists p :: p in ps && EndsWith(s, p)
  }

  /** Python's `s.startswith(tuple)`. */
  predicate StartsWithAny(s: string, ps: seq<string>)
  {
    exists p :: p in ps && StartsWith(s, p)
  }

  predicate IsUpper(c: char) { 'A' <= c <= 'Z' }

  predicate IsAsciiLetter(c: char) { 'A' <= c <= 'Z' || 'a' <= c <= 'z' }

  predicate IsDigit(c: char) { '0' <= c <= '9' }

  function LowerChar(c: char): char
  {
    if IsUpper(c) then (c as int + 32) as char else c
  }

  /** `s.lower()`, restricted to the ASCII letters. */
  function Lower(s: string): (r: string)
    ensures |r| == |s|
    ensures forall i :: 0 <= i < |s| ==> r[i] == LowerChar(s[i])
  {
    seq(|s|, i requires 0 <= i < |s| => LowerChar(s[i]))
  }

  /** The characters for which Python's `str.isspace()` holds. */
  predicate IsSpace(c: char)
  {
    || c == ' '
    || '\t' <= c <= '\r'
    || '\U{1C}' <= c <= '\U{1F}'
    || c == '\U{85}' || c == '\U{A0}' || c == '\U{1680}'
    || '\U{2000}' <= c <= '\U{200A}'
    || c == '\U{2028}' || c == '\U{2029}' || c == '\U{202F}'
    || c == '\U{205F}' || c == '\U{3000}'
  }

  /** The end of the run of characters satisfying `drop` that starts at `i`. */
  function SpanFrom(s: string, drop: char -> bool, i: nat): (j: nat)
    requires i <= |s|
    ensures i <= j <= |s|
    ensures forall k :: i <= k < j ==> drop(s[k])
    ensures j == |s| || !drop(s[j])
    decreases |s| - i
  {
    if i < |s| && drop(s[i]) then SpanFrom(s, drop, i + 1) else i
  }

  /** The start of the run of characters satisfying `drop` that ends at `j`,
      not going below `lo`. */
  function SpanBack(s: string, drop: char -> bool, lo: nat, j: nat): (i: nat)
    requires lo <= j <= |s|
    ensures lo <= i <= j
    ensures forall k :: i <= k < j ==> drop(s[k])
    ensures i == lo || !drop(s[i - 1])
    decreases j - lo
  {
    if lo < j && drop(s[j - 1]) then SpanBack(s, drop, lo, j - 1) else j
  }

  /** Where `Trim` starts keeping characters. */
  function TrimLo(s: string, drop: char -> bool): (i: nat)
    ensures i <= |s|
  {
    SpanFrom(s, drop, 0)
  }

  /** Where `Trim` stops keeping characters. */
  function TrimHi(s: string, drop: char -> bool): (j: nat)
    ensures TrimLo(s, drop) <= j <= |s|
  {
    SpanBack(s, drop, TrimLo(s, drop), |s|)
  }

  /** Python's `s.strip(chars)`: the middle slice left after dropping the
      characters that satisfy `drop` at both ends; only such characters are
      dropped, and the two ends of the result are kept characters. */
  function Trim(s: string, drop: char -> bool): (r: string)
    ensures r == s[TrimLo(s, drop)..TrimHi(s, drop)]
    ensures forall k :: 0 <= k < TrimLo(s, drop) ==> drop(s[k])
    ensures forall k :: TrimHi(s, drop) <= k < |s| ==> drop(s[k])
    ensures r == [] || (!drop(r[0]) && !drop(r[|r| - 1]))
  {
    var i := TrimLo(s, drop);
    var j := TrimHi(s, drop);
    assert i < j ==> !drop(s[i]) && !drop(s[j - 1]);
    s[i..j]
  }

  /** Trimming a string whose two ends are kept changes nothing. */
  lemma TrimNoop(s: string, drop: char -> bool)
    requires s == [] || (!drop(s[0]) && !drop(s[|s| - 1]))
    ensures Trim(s, drop) == s
  {
  }

  /** Python's `s.strip()`: `s` without its leading and trailing whitespace. */
  function Strip(s: string): (r: string)
  {
    Trim(s, IsSpace)
  }

  predicate AllDigits(s: string)
  {
    forall i :: 0 <= i < |s| ==> IsDigit(s[i])
  }

  /** Python's `s.isdigit()` on ASCII text: non-empty and all digits. */
  predicate IsDigitString(s: string)
  {
    s != [] && AllDigits(s)
  }

  /** The maximal run of digits at the start of `s`. */
  function DigitRun(s: string): (r: string)
    ensures r <= s && AllDigits(r)
    ensures |r| == |s| || !IsDigit(s[|r|])
    decreases |s|
  {
    if s != [] && IsDigit(s[0]) then [s[0]] + DigitRun(s[1..]) else []
  }

  lemma {:induction false} DigitRunOf(d: string, rest: string)
    requires AllDigits(d)
    requires rest == [] || !IsDigit(rest[0])
    ensures DigitRun(d + rest) == d
    decreases |d|
  {
    if d != [] {
      assert (d + rest)[1..] == d[1..] + rest;
      DigitRunOf(d[1..], rest);
    }
  }

  function DigitChar(n: nat): char
    requires n < 10
  {
    ('0' as int + n) as char
  }

  /** The decimal spelling of `n`, as Python's `str(int)` writes it. */
  function NatToString(n: nat): (r: string)
    ensures IsDigitString(r)
  {
    if n < 10 then [DigitChar(n)] else NatToString(n / 10) + [DigitChar(n % 10)]
  }

  /** The number a digit string spells (`int(s)`). */
  function DigitsValue(s: string): nat
    requires AllDigits(s)
  {
    if s == [] then 0 else 10 * DigitsValue(s[..|s| - 1]) + (s[|s| - 1] as int - '0' as int)
  }

  /** Reading back the decimal spelling gives the number. */
  lemma {:induction false} NatToStringValue(n: nat)
    ensures DigitsValue(NatToString(n)) == n
  {
    if n >= 10 {
      NatToStringValue(n / 10);
      var s := NatToString(n);
      assert s[..|s| - 1] == NatToString(n / 10);
    }
  }

  lemma NatToStringInjective(m: nat, n: nat)
    requires NatToString(m) == NatToString(n)
    ensures m == n
  {
    NatToStringValue(m);
    NatToStringValue(n);
  }

  /** Python's `s.split(sep)` for a one-character separator. */
  function SplitOn(s: string, sep: char): (parts: seq<string>)
    ensures |parts| >= 1
    ensures forall k :: 0 <= k < |parts| ==> sep !in parts[k]
    decreases |s|
  {
    if s == [] then [""]
    else
      var rest := SplitOn(s[1..], sep);
      if s[0] == sep then [""] + rest else [[s[0]] + rest[0]] + rest[1..]
  }

  /** Python's `sep.join(parts)`. */
  function Join(parts: seq<string>, sep: char): string
    requires |parts| >= 1
    decreases |parts|
  {
    if |parts| == 1 then parts[0] else parts[0] + [sep] + Join(parts[1..], sep)
  }

  /** Splitting and joining again gives back the original string. */
  lemma {:induction false} JoinSplit(s: string, sep: char)
    ensures Join(SplitOn(s, sep), sep) == s
    decreases |s|
  {
    if s != [] {
      JoinSplit(s[1..], sep);
      var rest := SplitOn(s[1..], sep);
      if s[0] != sep {
        if |rest| == 1 {
        } else {
          assert ([[s[0]] + rest[0]] + rest[1..])[1..] == rest[1..];
        }
      }
    }
  }

  /** Two neighbouring parts appear, separated by `sep`, in the joined string. */
  lemma {:induction false} JoinContainsNeighbours(parts: seq<string>, sep: char, k: nat)
    requires k + 1 < |parts|
    ensures Contains(Join(parts, sep), parts[k] + [sep] + parts[k + 1])
    decreases k
  {
    var j := Join(parts, sep);
    if k == 0 {
      var p := parts[0] + [sep] + parts[1];
      if |parts| == 2 {
        assert Join(parts[1..], sep) == parts[1];
        assert j == p;
      } else {
        assert parts[1..][1..] == parts[2..];
        assert Join(parts[1..], sep) == parts[1] + [sep] + Join(parts[2..], sep);
        assert j == p + [sep] + Join(parts[2..], sep);
        assert j[..|p|] == p;
      }
      ContainsAt(j, p, 0);
    } else {
      JoinContainsNeighbours(parts[1..], sep, k - 1);
      var t := Join(parts[1..], sep);
      assert j == parts[0] + [sep] + t;
      assert j[|j| - |t|..] == t;
      ContainsInSuffix(j, t, parts[1..][k - 1] + [sep] + parts[1..][k]);
    }
  }

  /** Splitting at a first separator gives the part before it, then the
      parts of what follows. */
  lemma {:induction false} SplitOnCut(a: string, sep: char, b: string)
    requires sep !in a
    ensures SplitOn(a + [sep] + b, sep) == [a] + SplitOn(b, sep)
    decreases |a|
  {
    var s := a + [sep] + b;
    if a == [] {
      assert s[1..] == b;
    } else {
      assert s[1..] == a[1..] + [sep] + b;
      SplitOnCut(a[1..], sep, b);
      assert [a[0]] + a[1..] == a;
    }
  }

  /** A string without the separator is a single part. */
  lemma {:induction false} SplitOnNone(s: string, sep: char)
    requires sep !in s
    ensures SplitOn(s, sep) == [s]
    decreases |s|
  {
    if s != [] {
      SplitOnNone(s[1..], sep);
      assert [s[0]] + s[1..] == s;
    }
  }

  /** What a slice of `s` contains, `s` contains. */
  lemma ContainsInSlice(s: string, lo: nat, hi: nat, p: string)
    requires lo <= hi <= |s| && Contains(s[lo..hi], p)
    ensures Contains(s, p)
  {
    var t := s[lo..hi];
    ContainsIff(t, p);
    var i :| OccursAt(t, p, i);
    var a, b := s[lo + i..lo + i + |p|], t[i..i + |p|];
    forall k | 0 <= k < |p| ensures a[k] == b[k] {
      assert a[k] == s[lo + i + k] && b[k] == t[i + k];
    }
    assert a == b;
    ContainsAt(s, p, lo + i);
  }

  /** The first index of `x` in `xs`, or `|xs|` when there is none. */
  function IndexOf<T(==)>(xs: seq<T>, x: T): (i: nat)
    ensures i <= |xs|
    ensures i < |xs| ==> xs[i] == x
    ensures forall j :: 0 <= j < i ==> xs[j] != x
    decreases |xs|
  {
    if xs == [] then 0 else if xs[0] == x then 0 else 1 + IndexOf(xs[1..], x)
  }

  /** Python's ordering of `str` values: lexicographic by code point. */
  predicate Less(a: string, b: string)
    decreases |a|
  {
    if a == [] then b != []
    else b != [] && (a[0] < b[0] || (a[0] == b[0] && Less(a[1..], b[1..])))
  }

  lemma {:induction false} LessIrreflexive(a: string)
    ensures !Less(a, a)
    decreases |a|
  {
    if a != [] { LessIrreflexive(a[1..]); }
  }

  lemma {:induction false} LessTransitive(a: string, b: string, c: string)
    requires Less(a, b) && Less(b, c)
    ensures Less(a, c)
    decreases |a|
  {
    if a != [] && a[0] == b[0] && b[0] == c[0] {
      LessTransitive(a[1..], b[1..], c[1..]);
    }
  }

  lemma {:induction false} LessTotal(a: string, b: string)
    ensures a == b || Less(a, b) || Less(b, a)
    decreases |a|
  {
    if a != [] && b != [] && a[0] == b[0] {
      LessTotal(a[1..], b[1..]);
      if a[1..] == b[1..] {
        assert a == [a[0]] + a[1..] && b == [b[0]] + b[1..];
      }
    }
  }
}
