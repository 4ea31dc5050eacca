/**
 * The few Python string operations the core relies on: `strip`, `join`,
 * slicing, `endswith`, `replace` and the decimal rendering of integers.
 */
module Text {

  /** Whitespace as `str.isspace` sees it, restricted to the ASCII range. */
  predicate IsSpace(c: char) {
    // space, tab through carriage return, and the four separators U+1C..U+1F
    c == ' ' || '\t' <= c <= '\r' || '\U{1C}' <= c <= '\U{1F}'
  }

  /** Number of whitespace characters at the front of `s`. */
  function LeadingSpaces(s: string): (n: nat)
    ensures n <= |s|
    ensures forall k :: 0 <= k < n ==> IsSpace(s[k])
    ensures n < |s| ==> !IsSpace(s[n])
  {
    if s == [] || !IsSpace(s[0]) then 0 else 1 + LeadingSpaces(s[1..])
  }

  /** Number of whitespace characters at the back of `s`. */
  function TrailingSpaces(s: string): (n: nat)
    ensures n <= |s|
    ensures forall k :: |s| - n <= k < |s| ==> IsSpace(s[k])
    ensures n < |s| ==> !IsSpace(s[|s| - n - 1])
  {
    if s == [] || !IsSpace(s[|s| - 1]) then 0 else 1 + TrailingSpaces(s[..|s| - 1])
  }

  /**
   * `s.strip()`: the result is a slice of `s`, everything cut away is
   * whitespace, and the result neither starts nor ends with whitespace.
   */
  function Strip(s: string): (r: string)
    ensures exists i, j ::
              && 0 <= i <= j <= |s| && r == s[i..j]
              && (forall k :: 0 <= k < i ==> IsSpace(s[k]))
              && (forall k :: j <= k < |s| ==> IsSpace(s[k]))
    ensures r != [] ==> !IsSpace(r[0]) && !IsSpace(r[|r| - 1])
    ensures (forall k :: 0 <= k < |s| ==> IsSpace(s[k])) <==> r == []
  {
    var front := LeadingSpaces(s);
    if front == |s| then
      assert s[|s|..|s|] == [];
      []
    else
      var back := TrailingSpaces(s);
      assert !IsSpace(s[front]);
      s[front..|s| - back]
  }

  /** Stripping twice is stripping once. */
  lemma StripIdempotent(s: string)
    ensures Strip(Strip(s)) == Strip(s)
  {
    var r := Strip(s);
    if r != [] {
      // the first and last characters of r are not whitespace, so none is cut
      assert !IsSpace(r[0]) && !IsSpace(r[|r| - 1]);
      assert LeadingSpaces(r) == 0 && TrailingSpaces(r) == 0;
      assert r[0..|r|] == r;
    }
  }

  /** `sep.join(parts)`. */
  function Join(parts: seq<string>, sep: string): string {
    if parts == [] then ""
    else if |parts| == 1 then parts[0]
    else parts[0] + sep + Join(parts[1..], sep)
  }

  /** Five parts joined: each separator sits between two neighbours. */
  lemma JoinFive(a: string, b: string, c: string, d: string, e: string, sep: string)
    ensures Join([a, b, c, d, e], sep) == a + sep + b + sep + c + sep + d + sep + e
  {
    var p4, p3, p2, p1 := [e], [d, e], [c, d, e], [b, c, d, e];
    assert Join(p4, sep) == e;
    assert p3[1..] == p4;
    assert Join(p3, sep) == d + sep + e;
    assert p2[1..] == p3;
    assert Join(p2, sep) == c + sep + d + sep + e;
    assert p1[1..] == p2;
    assert Join(p1, sep) == b + sep + c + sep + d + sep + e;
    assert [a, b, c, d, e][1..] == p1;
  }

  /** The slice `s[0:n]`, which Python clamps to the length of `s`. */
  function Prefix(s: string, n: nat): (r: string)
    ensures |r| <= n && |r| <= |s|
    ensures r == s[..|r|]
    ensures |s| <= n ==> r == s
  {
    if |s| <= n then s else s[..n]
  }

  /** `s.endswith(suffix)`. */
  predicate EndsWith(s: string, suffix: string) {
    |suffix| <= |s| && s[|s| - |suffix|..] == suffix
  }

  // ---------------------------------------------------------------------
  // Decimal rendering of non-negative integers, as `str(n)` and f-strings do.

  function DigitChar(d: nat): (c: char)
    requires d < 10
    ensures '0' <= c <= '9'
  {
    "0123456789"[d]
  }

  function DigitValue(c: char): (d: nat)
    ensures '0' <= c <= '9' ==> d < 10
  {
    if '0' <= c <= '9' then (c as int - '0' as int) as nat else 0
  }

  /** `str(n)` for `n >= 0`. */
  function DecimalString(n: nat): (r: string)
    ensures |r| > 0
    ensures forall k :: 0 <= k < |r| ==> '0' <= r[k] <= '9'
    ensures n >= 10 ==> |r| >= 2 && r[0] != '0'
  {
    if n < 10 then [DigitChar(n)] else DecimalString(n / 10) + [DigitChar(n % 10)]
  }

  /** `int(s)` for a string of decimal digits. */
  function ParseDecimal(s: string): nat {
    if s == [] then 0 else 10 * ParseDecimal(s[..|s| - 1]) + DigitValue(s[|s| - 1])
  }

  /** Reading back a rendered number gives the number. */
  lemma {:induction false} DecimalRoundTrip(n: nat)
    ensures ParseDecimal(DecimalString(n)) == n
  {
    var r := DecimalString(n);
    if n < 10 {
      assert r[..0] == [];
      assert DigitValue(DigitChar(n)) == n;
    } else {
      assert r[..|r| - 1] == DecimalString(n / 10);
      DecimalRoundTrip(n / 10);
      assert DigitValue(DigitChar(n % 10)) == n % 10;
    }
  }

  /** Distinct numbers render as distinct strings. */
  lemma DecimalInjective(a: nat, b: nat)
    requires DecimalString(a) == DecimalString(b)
    ensures a == b
  {
    DecimalRoundTrip(a);
    DecimalRoundTrip(b);
  }

  // ---------------------------------------------------------------------
  // `str.replace("\\n", "<br>")`: the two characters backslash and `n`
  // become an HTML line break, scanning from the left without overlaps.

  const EscapedNewline: string := ['\\', 'n']
  const LineBreak: string := "<br>"

  predicate StartsWithEscapedNewline(s: string) {
    |s| >= 2 && s[0] == '\\' && s[1] == 'n'
  }

  /** No backslash is directly followed by `n`. */
  predicate NoEscapedNewline(s: string) {
    forall k :: 0 <= k < |s| - 1 ==> !(s[k] == '\\' && s[k + 1] == 'n')
  }

  function ReplaceEscapedNewlines(s: string): (r: string)
    ensures s != [] ==> r != [] && r[0] == (if StartsWithEscapedNewline(s) then '<' else s[0])
    decreases |s|
  {
    if s == [] then []
    else if StartsWithEscapedNewline(s) then LineBreak + ReplaceEscapedNewlines(s[2..])
    else [s[0]] + ReplaceEscapedNewlines(s[1..])
  }

  /** After the rewrite no escaped newline is left. */
  lemma {:induction false} ReplaceLeavesNone(s: string)
    ensures NoEscapedNewline(ReplaceEscapedNewlines(s))
    decreases |s|
  {
    if s == [] {
    } else if StartsWithEscapedNewline(s) {
      ReplaceLeavesNone(s[2..]);
      var t := ReplaceEscapedNewlines(s[2..]);
      var r := LineBreak + t;
      forall k | 0 <= k < |r| - 1 ensures !(r[k] == '\\' && r[k + 1] == 'n') {
        if k >= 4 { assert r[k] == t[k - 4] && r[k + 1] == t[k - 3]; }
      }
    } else {
      ReplaceLeavesNone(s[1..]);
      var t := ReplaceEscapedNewlines(s[1..]);
      var r := [s[0]] + t;
      forall k | 0 <= k < |r| - 1 ensures !(r[k] == '\\' && r[k + 1] == 'n') {
        if k >= 1 { assert r[k] == t[k - 1] && r[k + 1] == t[k]; }
      }
    }
  }

  /** A body without escaped newlines is sent as it is. */
  lemma {:induction false} ReplaceIdentity(s: string)
    requires NoEscapedNewline(s)
    ensures ReplaceEscapedNewlines(s) == s
    decreases |s|
  {
    if s != [] {
      assert !StartsWithEscapedNewline(s);
      assert NoEscapedNewline(s[1..]) by {
        forall k | 0 <= k < |s[1..]| - 1 ensures !(s[1..][k] == '\\' && s[1..][k + 1] == 'n') {
          assert s[1..][k] == s[k + 1] && s[1..][k + 1] == s[k + 2];
        }
      }
      ReplaceIdentity(s[1..]);
      assert [s[0]] + s[1..] == s;
    }
  }

  /** Rewriting a second time changes nothing. */
  lemma ReplaceIdempotent(s: string)
    ensures ReplaceEscapedNewlines(ReplaceEscapedNewlines(s)) == ReplaceEscapedNewlines(s)
  {
    ReplaceLeavesNone(s);
    ReplaceIdentity(ReplaceEscapedNewlines(s));
  }
  /**
   * `s.split("\\n")`: the pieces between the escaped newlines found
   * scanning from the left. There is always at least one piece.
   */
  function SplitEscaped(s: string): (parts: seq<string>)
    ensures |parts| >= 1
    ensures |parts[0]| <= |s| && parts[0] == s[..|parts[0]|]
    decreases |s|
  {
    if s == [] then [[]]
    else if StartsWithEscapedNewline(s) then [[]] + SplitEscaped(s[2..])
    else
      var t := SplitEscaped(s[1..]);
      [[s[0]] + t[0]] + t[1..]
  }

  /** Joining with a prefix added to the first part adds it in front. */
  lemma JoinPrefixHead(x: string, parts: seq<string>, sep: string)
    requires |parts| >= 1
    ensures Join([x + parts[0]] + parts[1..], sep) == x + Join(parts, sep)
  {
    var q := [x + parts[0]] + parts[1..];
    assert q[1..] == parts[1..];
    if |parts| >= 2 {
      assert x + parts[0] + sep + Join(parts[1..], sep) == x + (parts[0] + sep + Join(parts[1..], sep));
    }
  }

  /** Joining a part list that starts with an empty part. */
  lemma JoinEmptyHead(parts: seq<string>, sep: string)
    requires |parts| >= 1
    ensures Join([[]] + parts, sep) == sep + Join(parts, sep)
  {
    assert ([[]] + parts)[1..] == parts;
  }

  /** The split pieces, joined by the escaped newline again, give back the string. */
  lemma {:induction false} SplitJoin(s: string)
    ensures Join(SplitEscaped(s), EscapedNewline) == s
    decreases |s|
  {
    if s == [] {
    } else if StartsWithEscapedNewline(s) {
      SplitJoin(s[2..]);
      JoinEmptyHead(SplitEscaped(s[2..]), EscapedNewline);
      assert EscapedNewline + s[2..] == s;
    } else {
      SplitJoin(s[1..]);
      JoinPrefixHead([s[0]], SplitEscaped(s[1..]), EscapedNewline);
      assert [s[0]] + s[1..] == s;
    }
  }

  /** No piece of the split holds an escaped newline. */
  lemma {:induction false} SplitPiecesClean(s: string)
    ensures forall i :: 0 <= i < |SplitEscaped(s)| ==> NoEscapedNewline(SplitEscaped(s)[i])
    decreases |s|
  {
    if s == [] {
    } else if StartsWithEscapedNewline(s) {
      SplitPiecesClean(s[2..]);
      var t := SplitEscaped(s[2..]);
      assert SplitEscaped(s) == [[]] + t;
      forall i | 0 < i < |SplitEscaped(s)| ensures NoEscapedNewline(SplitEscaped(s)[i]) {
        assert SplitEscaped(s)[i] == t[i - 1];
      }
    } else {
      SplitPiecesClean(s[1..]);
      var t := SplitEscaped(s[1..]);
      var h := [s[0]] + t[0];
      assert SplitEscaped(s) == [h] + t[1..];
      assert NoEscapedNewline(h) by {
        forall k | 0 <= k < |h| - 1 ensures !(h[k] == '\\' && h[k + 1] == 'n') {
          if k == 0 {
            assert h[1] == t[0][0] == s[1..][0] == s[1];
          } else {
            assert h[k] == t[0][k - 1] && h[k + 1] == t[0][k];
          }
        }
      }
      forall i | 0 < i < |SplitEscaped(s)| ensures NoEscapedNewline(SplitEscaped(s)[i]) {
        assert SplitEscaped(s)[i] == t[i];
      }
    }
  }

  /** Python's `replace`: the split pieces joined by the replacement. */
  lemma {:induction false} ReplaceJoin(s: string)
    ensures ReplaceEscapedNewlines(s) == Join(SplitEscaped(s), LineBreak)
    decreases |s|
  {
    if s == [] {
    } else if StartsWithEscapedNewline(s) {
      ReplaceJoin(s[2..]);
      JoinEmptyHead(SplitEscaped(s[2..]), LineBreak);
    } else {
      ReplaceJoin(s[1..]);
      JoinPrefixHead([s[0]], SplitEscaped(s[1..]), LineBreak);
    }
  }
}
