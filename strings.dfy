/**
 * The `java.lang.String` operations the gateway calls, written out over Dafny strings:
 * `startsWith`, `contains`, `trim`, `split(",")`, `Long.toString` of a length, and the
 * byte length of `getBytes(UTF_8)`.
 *
 * Dafny characters are Unicode scalar values, so a `string` here stands for a well-formed
 * Java string (no unpaired surrogates).
 */
module Strings {
  import opened JavaLang

  /** `s.startsWith(prefix)`. */
  predicate StartsWith(s: string, prefix: string)
  {
    |prefix| <= |s| && s[..|prefix|] == prefix
  }

  /** Appending text never breaks a prefix relation. */
  lemma StartsWithExtend(s: string, prefix: string, t: string)
    requires StartsWith(s, prefix)
    ensures StartsWith(s + t, prefix)
  {
    assert (s + t)[..|prefix|] == s[..|prefix|];
  }

  // ---------------------------------------------------------------------------
  // contains

  /** `s.contains(needle)`: `needle` starts at position 0 or somewhere further on. */
  predicate Contains(s: string, needle: string)
    decreases |s|
  {
    StartsWith(s, needle) || (s != [] && Contains(s[1..], needle))
  }

  /** `Contains` holds exactly when `needle` occurs at some position of `s`. */
  lemma {:induction false} ContainsIff(s: string, needle: string)
    ensures Contains(s, needle) <==> exists i :: 0 <= i <= |s| && StartsWith(s[i..], needle)
  {
    assert s[0..] == s;
    if s != [] {
      ContainsIff(s[1..], needle);
      if Contains(s, needle) && !StartsWith(s, needle) {
        var j :| 0 <= j <= |s[1..]| && StartsWith(s[1..][j..], needle);
        assert s[1..][j..] == s[j + 1..];
      }
      if exists i :: 0 <= i <= |s| && StartsWith(s[i..], needle) {
        var i :| 0 <= i <= |s| && StartsWith(s[i..], needle);
        if i > 0 {
          assert s[1..][i - 1..] == s[i..];
        }
      }
    }
  }

  /** Any string with `needle` in the middle contains it. */
  lemma ContainsInfix(a: string, needle: string, b: string)
    ensures Contains(a + needle + b, needle)
  {
    var s := a + needle + b;
    assert s[|a|..] == needle + b;
    assert StartsWith(s[|a|..], needle);
    ContainsIff(s, needle);
  }

  // ---------------------------------------------------------------------------
  // trim

  /** `String.trim` strips characters whose code is at most U+0020. */
  predicate IsSpace(c: char)
  {
    c <= ' '
  }

  predicate AllSpace(s: string)
  {
    forall i :: 0 <= i < |s| ==> IsSpace(s[i])
  }

  /** Neither end of `s` can be trimmed. */
  predicate IsTrimmed(s: string)
  {
    s == [] || (!IsSpace(s[0]) && !IsSpace(s[|s| - 1]))
  }

  /** The first position from `k` on that `trim` keeps (`|s|` when there is none): the scan of `trim` from the front. */
  function FirstKept(s: string, k: nat): (n: nat)
    requires k <= |s|
    ensures k <= n <= |s|
    ensures forall i :: k <= i < n ==> IsSpace(s[i])
    ensures n == |s| || !IsSpace(s[n])
    decreases |s| - k
  {
    if k < |s| && IsSpace(s[k]) then FirstKept(s, k + 1) else k
  }

  /** One past the last position before `k` that `trim` keeps (0 when there is none): the scan of `trim` from the back. */
  function LastKept(s: string, k: nat): (n: nat)
    requires k <= |s|
    ensures n <= k
    ensures forall i :: n <= i < k ==> IsSpace(s[i])
    ensures n == 0 || !IsSpace(s[n - 1])
  {
    if k > 0 && IsSpace(s[k - 1]) then LastKept(s, k - 1) else k
  }

  /** The front scan stops at the first kept position and nowhere else. */
  lemma FirstKeptAt(s: string, m: nat)
    requires m <= |s|
    requires forall i :: 0 <= i < m ==> IsSpace(s[i])
    requires m == |s| || !IsSpace(s[m])
    ensures FirstKept(s, 0) == m
  {
  }

  /** The back scan stops just after the last kept position and nowhere else. */
  lemma LastKeptAt(s: string, m: nat)
    requires m <= |s|
    requires forall i :: m <= i < |s| ==> IsSpace(s[i])
    requires m == 0 || !IsSpace(s[m - 1])
    ensures LastKept(s, |s|) == m
  {
  }

  /** `s.trim()`: the text between the leading and the trailing trimmable characters, which can be trimmed no further. */
  function Trim(s: string): (r: string)
    ensures IsTrimmed(r)
    ensures |r| <= |s|
  {
    var start := FirstKept(s, 0);
    if start == |s| then []
    else
      var end := LastKept(s, |s|);
      assert !IsSpace(s[start]);
      s[start..end]
  }

  /**
   * `trim` removes exactly the surrounding space: whatever trimmed core is wrapped in
   * trimmable characters, trimming gives that core back.
   */
  lemma TrimUnique(lead: string, t: string, trail: string)
    requires AllSpace(lead) && AllSpace(trail) && IsTrimmed(t)
    ensures Trim(lead + t + trail) == t
  {
    var s := lead + t + trail;
    var a, b := |lead|, |lead| + |t|;
    assert forall i :: 0 <= i < a ==> s[i] == lead[i];
    assert forall i :: b <= i < |s| ==> s[i] == trail[i - b];
    if t == [] {
      FirstKeptAt(s, |s|);
    } else {
      assert s[a] == t[0] && s[b - 1] == t[|t| - 1];
      FirstKeptAt(s, a);
      LastKeptAt(s, b);
      assert s[a..b] == t;
    }
  }

  /** Trimming twice is trimming once. */
  lemma TrimIdempotent(s: string)
    ensures Trim(Trim(s)) == Trim(s)
  {
    var t := Trim(s);
    assert [] + t + [] == t;
    TrimUnique([], t, []);
  }

  /** `s.trim().isEmpty()` exactly when every character of `s` is trimmable. */
  lemma TrimEmptyIff(s: string)
    ensures Trim(s) == [] <==> AllSpace(s)
  {
    if AllSpace(s) {
      FirstKeptAt(s, |s|);
    } else {
      var i :| 0 <= i < |s| && !IsSpace(s[i]);
      assert FirstKept(s, 0) <= i;
    }
  }

  // ---------------------------------------------------------------------------
  // split(",")

  /** The text before the first comma of `s` (all of `s` when it has none). */
  function BeforeComma(s: string): (r: string)
    ensures |r| <= |s| && r == s[..|r|]
    ensures ',' !in r
    ensures |r| == |s| || s[|r|] == ','
  {
    if s == [] || s[0] == ',' then [] else [s[0]] + BeforeComma(s[1..])
  }

  /** Every comma-separated segment of `s`, empty ones included. */
  function Segments(s: string): (r: seq<string>)
    ensures |r| >= 1 && r[0] == BeforeComma(s)
    decreases |s|
  {
    var head := BeforeComma(s);
    if |head| == |s| then [s] else [head] + Segments(s[|head| + 1..])
  }

  /** Removes the empty strings at the end of `parts`, as `split` with limit 0 does. */
  function DropTrailingEmpty(parts: seq<string>): (r: seq<string>)
    ensures |r| <= |parts| && r == parts[..|r|]
    ensures r == [] || r[|r| - 1] != []
    ensures forall i :: |r| <= i < |parts| ==> parts[i] == []
  {
    if parts != [] && parts[|parts| - 1] == [] then DropTrailingEmpty(parts[..|parts| - 1]) else parts
  }

  /** `s.split(",")`: a string without a comma is returned whole, otherwise the trailing empty segments are dropped. */
  function SplitComma(s: string): seq<string>
  {
    if ',' !in s then [s] else DropTrailingEmpty(Segments(s))
  }

  predicate OnlyCommas(s: string)
  {
    forall i :: 0 <= i < |s| ==> s[i] == ','
  }

  predicate AllEmpty(parts: seq<string>)
  {
    forall i :: 0 <= i < |parts| ==> parts[i] == []
  }

  lemma OnlyCommasAround(head: string, rest: string)
    ensures OnlyCommas(head + [','] + rest) <==> OnlyCommas(head) && OnlyCommas(rest)
  {
    var s := head + [','] + rest;
    if OnlyCommas(head) && OnlyCommas(rest) {
      forall i | 0 <= i < |s| ensures s[i] == ',' {
        if i > |head| {
          assert s[i] == rest[i - |head| - 1];
        }
      }
    }
    if OnlyCommas(s) {
      forall i | 0 <= i < |rest| ensures rest[i] == ',' {
        assert rest[i] == s[|head| + 1 + i];
      }
      forall i | 0 <= i < |head| ensures head[i] == ',' {
        assert head[i] == s[i];
      }
    }
  }

  /** A list of segments is all empty exactly when its head and its tail are. */
  lemma AllEmptyCons(head: string, tail: seq<string>)
    ensures AllEmpty([head] + tail) <==> head == [] && AllEmpty(tail)
  {
    var parts := [head] + tail;
    assert parts[0] == head;
    assert forall i :: 0 <= i < |tail| ==> parts[i + 1] == tail[i];
  }

  /** A text without commas is made of commas only when it is empty. */
  lemma CommaFreeOnlyCommas(t: string)
    requires ',' !in t
    ensures OnlyCommas(t) <==> t == []
  {
    if t != [] {
      assert t[0] in t;
    }
  }

  /** One step of `SegmentsAllEmpty`: a first comma splits both sides of the equivalence. */
  lemma SegmentsAfterComma(s: string, head: string, rest: string)
    requires head == BeforeComma(s) && |head| < |s| && rest == s[|head| + 1..]
    requires AllEmpty(Segments(rest)) <==> OnlyCommas(rest)
    ensures AllEmpty(Segments(s)) <==> OnlyCommas(s)
  {
    assert Segments(s) == [head] + Segments(rest);
    AllEmptyCons(head, Segments(rest));
    assert s == head + [','] + rest;
    OnlyCommasAround(head, rest);
    CommaFreeOnlyCommas(head);
  }

  /** All segments are empty exactly when the string is nothing but commas. */
  lemma {:induction false} SegmentsAllEmpty(s: string)
    ensures AllEmpty(Segments(s)) <==> OnlyCommas(s)
    decreases |s|
  {
    var head := BeforeComma(s);
    if |head| == |s| {
      assert head == s;
      assert Segments(s) == [s] + [];
      AllEmptyCons(s, []);
      CommaFreeOnlyCommas(s);
    } else {
      var rest := s[|head| + 1..];
      SegmentsAllEmpty(rest);
      SegmentsAfterComma(s, head, rest);
    }
  }

  /** The first segment of `a,b` is `a` whenever `a` holds no comma. */
  lemma BeforeCommaOf(a: string, b: string)
    requires ',' !in a
    ensures BeforeComma(a + [','] + b) == a
  {
    var s := a + [','] + b;
    assert s[|a|] == ',';
    assert forall i :: 0 <= i < |a| ==> s[i] == a[i];
  }

  /**
   * `s.split(",")[0]`: `None` when the split yields no segment and indexing it throws.
   * That happens exactly for a non-empty string made only of commas; otherwise the first
   * element is the text before the first comma.
   */
  function SplitFirst(s: string): (r: Option<string>)
    ensures r.None? <==> s != [] && OnlyCommas(s)
    ensures r.Some? ==> r.value == BeforeComma(s)
  {
    var parts := SplitComma(s);
    if ',' in s then
      SegmentsAllEmpty(s);
      var segs := Segments(s);
      assert parts == [] <==> AllEmpty(segs) by {
        if parts != [] {
          assert parts[|parts| - 1] == segs[|parts| - 1] != [];
        }
      }
      if parts == [] then None else Some(parts[0])
    else
      assert s != [] ==> s[0] != ',';
      if parts == [] then None else Some(parts[0])
  }

  // ---------------------------------------------------------------------------
  // Decimal text of a non-negative number (`Long.toString` / `Integer.toString`)

  predicate IsDigits(s: string)
  {
    forall i :: 0 <= i < |s| ==> '0' <= s[i] <= '9'
  }

  function DigitChar(d: nat): (c: char)
    requires d < 10
    ensures '0' <= c <= '9' && c as int - '0' as int == d
  {
    (48 + d) as char
  }

  /** The decimal text of `n`: digits only, no leading zero. */
  function NatToDecimal(n: nat): (r: string)
    ensures |r| >= 1 && IsDigits(r)
    ensures r[0] != '0' || |r| == 1
  {
    if n < 10 then [DigitChar(n)] else NatToDecimal(n / 10) + [DigitChar(n % 10)]
  }

  /** The number a string of decimal digits denotes. */
  function DecimalValue(s: string): nat
    requires IsDigits(s)
  {
    if s == [] then 0 else 10 * DecimalValue(s[..|s| - 1]) + (s[|s| - 1] as int - '0' as int)
  }

  /** The decimal text of `n` reads back as `n`. */
  lemma {:induction false} DecimalRoundTrip(n: nat)
    ensures DecimalValue(NatToDecimal(n)) == n
  {
    if n >= 10 {
      DecimalRoundTrip(n / 10);
      var r := NatToDecimal(n);
      assert r[..|r| - 1] == NatToDecimal(n / 10);
    }
  }

  /** Different numbers have different decimal texts. */
  lemma DecimalInjective(m: nat, n: nat)
    requires NatToDecimal(m) == NatToDecimal(n)
    ensures m == n
  {
    DecimalRoundTrip(m);
    DecimalRoundTrip(n);
  }

  /** `Integer.toString(i)`: a minus sign before the digits of a negative number. */
  function IntToDecimal(i: int): (r: string)
    ensures i >= 0 ==> r == NatToDecimal(i)
    ensures i < 0 ==> r == "-" + NatToDecimal(-i)
  {
    if i < 0 then "-" + NatToDecimal(-i) else NatToDecimal(i)
  }

  /** `String.valueOf(s)`, as string concatenation renders it: `null` becomes the text "null". */
  function StringValueOf(s: Option<string>): string
  {
    match s
    case None => "null"
    case Some(t) => t
  }

  // ---------------------------------------------------------------------------
  // UTF-8 length (`s.getBytes(StandardCharsets.UTF_8).length`)

  /** Bytes UTF-8 spends on one scalar value. */
  function Utf8Width(c: char): (w: nat)
    ensures 1 <= w <= 4
    ensures w == 1 <==> c as int < 0x80
  {
    if c as int < 0x80 then 1
    else if c as int < 0x800 then 2
    else if c as int < 0x1_0000 then 3
    else 4
  }

  function Utf8Length(s: string): nat
  {
    if s == [] then 0 else Utf8Width(s[0]) + Utf8Length(s[1..])
  }

  /** The encoding of a concatenation is the concatenation of the encodings. */
  lemma {:induction false} Utf8LengthAppend(a: string, b: string)
    ensures Utf8Length(a + b) == Utf8Length(a) + Utf8Length(b)
  {
    if a != [] {
      assert (a + b)[1..] == a[1..] + b;
      Utf8LengthAppend(a[1..], b);
    } else {
      assert a + b == b;
    }
  }

  /** Every character takes one to four bytes. */
  lemma {:induction false} Utf8LengthBounds(s: string)
    ensures |s| <= Utf8Length(s) <= 4 * |s|
  {
    if s != [] {
      Utf8LengthBounds(s[1..]);
    }
  }

  /** A string of ASCII characters has as many bytes as characters. */
  lemma {:induction false} Utf8LengthAscii(s: string)
    requires forall i :: 0 <= i < |s| ==> s[i] as int < 0x80
    ensures Utf8Length(s) == |s|
  {
    if s != [] {
      Utf8LengthAscii(s[1..]);
    }
  }
}
