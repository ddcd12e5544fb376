/**
 * String operations the editors rely on, over `seq<char>`:
 * whitespace trimming and lower-casing restricted to ASCII, substring
 * search (String.prototype.includes), the markup stripper
 * `html.replace(/<[^>]*>/g, "").trim()`, and decimal digits
 * (the regular expression `key(\d+)`, parseInt and number-to-string).
 */
module Strings {
  import opened Collections

  // ---------------------------------------------------------------------
  // Trimming (String.prototype.trim, ASCII whitespace only)
  // ---------------------------------------------------------------------

  predicate IsSpace(c: char)
  {
    c == ' ' || c == '\t' || c == '\n' || c == '\r' || c == '\U{000B}' || c == '\U{000C}'
  }

  predicate AllSpaces(s: string)
  {
    forall k :: 0 <= k < |s| ==> IsSpace(s[k])
  }

  /** The number of whitespace characters `s` starts with. */
  function LeadingSpaces(s: string): (n: nat)
    ensures n <= |s|
    ensures forall k :: 0 <= k < n ==> IsSpace(s[k])
    ensures n == |s| || !IsSpace(s[n])
  {
    if s != [] && IsSpace(s[0]) then
      var m := LeadingSpaces(s[1..]);
      assert forall k :: 1 <= k < 1 + m ==> s[k] == s[1..][k - 1];
      1 + m
    else 0
  }

  /** The number of whitespace characters `s` ends with. */
  function TrailingSpaces(s: string): (n: nat)
    ensures n <= |s|
    ensures forall k :: |s| - n <= k < |s| ==> IsSpace(s[k])
    ensures n == |s| || !IsSpace(s[|s| - n - 1])
  {
    if s != [] && IsSpace(s[|s| - 1]) then
      var m := TrailingSpaces(s[..|s| - 1]);
      assert forall k :: |s| - 1 - m <= k < |s| - 1 ==> s[k] == s[..|s| - 1][k];
      1 + m
    else 0
  }

  /** Drops leading whitespace. */
  function TrimStart(s: string): string
  {
    s[LeadingSpaces(s)..]
  }

  /** Drops trailing whitespace. */
  function TrimEnd(s: string): string
  {
    s[..|s| - TrailingSpaces(s)]
  }

  function Trim(s: string): string
  {
    TrimEnd(TrimStart(s))
  }

  /**
   * Trim removes whitespace from both ends and nothing else: the result is
   * the slice of `s` after its leading whitespace, and only whitespace
   * surrounds it.
   */
  lemma TrimSpec(s: string)
    ensures var i := LeadingSpaces(s); var r := Trim(s);
      && i + |r| <= |s| && r == s[i..i + |r|]
      && (forall k :: 0 <= k < i ==> IsSpace(s[k]))
      && (forall k :: i + |r| <= k < |s| ==> IsSpace(s[k]))
  {
    var i := LeadingSpaces(s);
    var t := TrimStart(s);
    var j := TrailingSpaces(t);
    assert Trim(s) == t[..|t| - j];
    assert t[..|t| - j] == s[i..i + |t| - j];
    forall k | i + |t| - j <= k < |s| ensures IsSpace(s[k]) {
      assert s[k] == t[k - i];
    }
  }

  /** The trimmed string neither starts nor ends with whitespace. */
  lemma TrimEnds(s: string)
    ensures var r := Trim(s); r == [] || (!IsSpace(r[0]) && !IsSpace(r[|r| - 1]))
  {
    var t := TrimStart(s);
    var r := TrimEnd(t);
    if r != [] {
      assert r[0] == t[0];
      assert r[|r| - 1] == t[|t| - TrailingSpaces(t) - 1];
    }
  }

  lemma TrimStartOfTrimmed(s: string)
    requires s == [] || !IsSpace(s[0])
    ensures TrimStart(s) == s
  {
    assert LeadingSpaces(s) == 0;
  }

  lemma TrimEndOfTrimmed(s: string)
    requires s == [] || !IsSpace(s[|s| - 1])
    ensures TrimEnd(s) == s
  {
    assert TrailingSpaces(s) == 0;
  }

  lemma TrimIdempotent(s: string)
    ensures Trim(Trim(s)) == Trim(s)
  {
    var r := Trim(s);
    TrimEnds(s);
    TrimStartOfTrimmed(r);
    TrimEndOfTrimmed(r);
  }

  /** A string is blank after trimming exactly when it is all whitespace. */
  lemma TrimEmptyIffBlank(s: string)
    ensures Trim(s) == [] <==> AllSpaces(s)
  {
    TrimSpec(s);
  }

  // ---------------------------------------------------------------------
  // Lower-casing (ASCII) and substring search
  // ---------------------------------------------------------------------

  function LowerChar(c: char): (d: char)
    ensures 'A' <= c <= 'Z' ==> d as int == c as int + 32
    ensures !('A' <= c <= 'Z') ==> d == c
  {
    if 'A' <= c <= 'Z' then (c as int + 32) as char else c
  }

  function ToLower(s: string): (r: string)
    ensures |r| == |s|
    ensures forall k :: 0 <= k < |s| ==> r[k] == LowerChar(s[k])
  {
    if s == [] then [] else [LowerChar(s[0])] + ToLower(s[1..])
  }

  /** String.prototype.includes: `t` occurs in `s` at some position. */
  predicate Contains(s: string, t: string)
    decreases |s|
  {
    t <= s || (s != [] && Contains(s[1..], t))
  }

  /** `t` occurs in `s` starting at position `i`. */
  predicate OccursAt(s: string, t: string, i: nat)
  {
    i + |t| <= |s| && s[i..i + |t|] == t
  }

  lemma {:induction false} ContainsSpec(s: string, t: string)
    ensures Contains(s, t) <==> exists i :: OccursAt(s, t, i)
  {
    if t <= s {
      assert OccursAt(s, t, 0);
    }
    if s != [] {
      ContainsSpec(s[1..], t);
      if Contains(s[1..], t) {
        var i: nat :| OccursAt(s[1..], t, i);
        assert s[1..][i..i + |t|] == s[i + 1..i + 1 + |t|];
        assert OccursAt(s, t, i + 1);
      }
      if exists i :: OccursAt(s, t, i) {
        var i: nat :| OccursAt(s, t, i);
        if i == 0 {
          assert t <= s;
        } else {
          assert s[1..][i - 1..i - 1 + |t|] == s[i..i + |t|];
          assert OccursAt(s[1..], t, i - 1);
        }
      }
    } else {
      if exists i :: OccursAt(s, t, i) {
        var i: nat :| OccursAt(s, t, i);
        assert t == [];
      }
    }
  }

  // ---------------------------------------------------------------------
  // Markup stripping: s.replace(/<[^>]*>/g, "").trim()
  // ---------------------------------------------------------------------

  /**
   * Global replacement of `<[^>]*>` by nothing: scanning from the left, a
   * `<` that has a `>` somewhere after it starts a run that ends at the
   * first such `>`, and the run is deleted; every other character is kept.
   */
  function StripTags(s: string): (r: string)
    ensures |r| <= |s|
    ensures forall c :: c in r ==> c in s
    decreases |s|
  {
    if s == [] then []
    else if s[0] == '<' && '>' in s[1..] then
      StripTags(s[FirstIndex(s[1..], '>') + 2..])
    else
      [s[0]] + StripTags(s[1..])
  }

  /** No `<` is followed, anywhere later, by a `>`. */
  predicate NoTagLeft(s: string)
  {
    forall i, j :: 0 <= i < j < |s| && s[i] == '<' ==> s[j] != '>'
  }

  lemma {:induction false} StripTagsNoTagLeft(s: string)
    ensures NoTagLeft(StripTags(s))
    decreases |s|
  {
    if s == [] {
    } else if s[0] == '<' && '>' in s[1..] {
      StripTagsNoTagLeft(s[FirstIndex(s[1..], '>') + 2..]);
    } else {
      StripTagsNoTagLeft(s[1..]);
      var rest := StripTags(s[1..]);
      var r := [s[0]] + rest;
      forall i, j | 0 <= i < j < |r| && r[i] == '<' ensures r[j] != '>' {
        if i == 0 {
          assert r[j] in rest;
        } else {
          assert r[i] == rest[i - 1] && r[j] == rest[j - 1];
        }
      }
    }
  }

  /** Text without a complete `<...>` run is left unchanged. */
  lemma {:induction false} StripTagsFixpoint(s: string)
    requires NoTagLeft(s)
    ensures StripTags(s) == s
    decreases |s|
  {
    if s != [] {
      if s[0] == '<' {
        assert '>' !in s[1..] by {
          forall j | 1 <= j < |s| ensures s[j] != '>' { }
        }
      }
      assert NoTagLeft(s[1..]) by {
        forall i, j | 0 <= i < j < |s| - 1 && s[1..][i] == '<' ensures s[1..][j] != '>' {
          assert s[i + 1] == '<';
        }
      }
      StripTagsFixpoint(s[1..]);
    }
  }

  /** A run `<t>` preceded by text without `<` is deleted, and only it. */
  lemma {:induction false} StripTagsDeletesRun(a: string, t: string, b: string)
    requires '<' !in a && '>' !in t
    ensures StripTags(a + ['<'] + t + ['>'] + b) == a + StripTags(b)
    decreases |a|
  {
    var s := a + ['<'] + t + ['>'] + b;
    if a == [] {
      assert s[1..] == t + ['>'] + b;
      assert '>' in s[1..] by { assert s[1..][|t|] == '>'; }
      assert forall m :: 0 <= m < |t| ==> s[1..][m] == t[m];
      FirstIndexAt(s[1..], '>', |t|);
      assert s[|t| + 2..] == b;
    } else {
      assert s[0] == a[0] && s[0] != '<';
      assert s[1..] == a[1..] + ['<'] + t + ['>'] + b;
      StripTagsDeletesRun(a[1..], t, b);
      assert a == [a[0]] + a[1..];
    }
  }

  lemma {:induction false} NoTagLeftSlice(s: string, a: nat, b: nat)
    requires NoTagLeft(s) && a <= b <= |s|
    ensures NoTagLeft(s[a..b])
  {
    var r := s[a..b];
    forall i, j | 0 <= i < j < |r| && r[i] == '<' ensures r[j] != '>' {
      assert r[i] == s[a + i] && r[j] == s[a + j];
    }
  }

  /** The `stripHtml` / `reformatHtmlTags` helper: delete markup runs, then trim. */
  function StripHtml(s: string): (r: string)
    ensures |r| <= |s|
    ensures NoTagLeft(r)
  {
    StripTagsNoTagLeft(s);
    var t := StripTags(s);
    TrimSpec(t);
    var r := Trim(t);
    var i := LeadingSpaces(t);
    NoTagLeftSlice(t, i, i + |r|);
    r
  }

  /** Blank text has no markup, so removing markup leaves it blank. */
  lemma StripHtmlOfBlank(x: string)
    requires Trim(x) == ""
    ensures StripHtml(x) == ""
  {
    TrimEmptyIffBlank(x);
    forall k | 0 <= k < |x| ensures x[k] != '<' {
      assert IsSpace(x[k]);
    }
    StripTagsFixpoint(x);
  }

  lemma StripHtmlIdempotent(s: string)
    ensures StripHtml(StripHtml(s)) == StripHtml(s)
  {
    var r := StripHtml(s);
    StripTagsFixpoint(r);
    TrimIdempotent(StripTags(s));
  }

  // ---------------------------------------------------------------------
  // String order (localeCompare, taken as code-point order)
  // ---------------------------------------------------------------------

  /** Lexicographic comparison by character code: -1, 0 or 1. */
  function CompareStrings(a: string, b: string): (c: int)
    ensures -1 <= c <= 1
    ensures c == 0 <==> a == b
  {
    if a == [] && b == [] then 0
    else if a == [] then -1
    else if b == [] then 1
    else if a[0] < b[0] then -1
    else if a[0] > b[0] then 1
    else
      var c := CompareStrings(a[1..], b[1..]);
      assert c == 0 ==> a == [a[0]] + a[1..] && b == [b[0]] + b[1..];
      c
  }

  lemma {:induction false} CompareStringsAntisymmetric(a: string, b: string)
    ensures CompareStrings(b, a) == -CompareStrings(a, b)
  {
    if a != [] && b != [] && a[0] == b[0] {
      CompareStringsAntisymmetric(a[1..], b[1..]);
    }
  }

  lemma {:induction false} CompareStringsTransitive(a: string, b: string, c: string)
    requires CompareStrings(a, b) <= 0 && CompareStrings(b, c) <= 0
    ensures CompareStrings(a, c) <= 0
  {
    if a != [] && b != [] && c != [] && a[0] == b[0] && b[0] == c[0] {
      CompareStringsTransitive(a[1..], b[1..], c[1..]);
    }
  }

  // ---------------------------------------------------------------------
  // Decimal digits
  // ---------------------------------------------------------------------

  predicate IsDigit(c: char)
  {
    '0' <= c <= '9'
  }

  predicate AllDigits(s: string)
  {
    forall k :: 0 <= k < |s| ==> IsDigit(s[k])
  }

  function DigitChar(d: nat): (c: char)
    requires d < 10
    ensures IsDigit(c) && c as int - '0' as int == d
  {
    ('0' as int + d) as char
  }

  /** parseInt of a run of decimal digits. */
  function ParseDigits(ds: string): nat
    requires AllDigits(ds)
  {
    if ds == [] then 0
    else ParseDigits(ds[..|ds| - 1]) * 10 + (ds[|ds| - 1] as int - '0' as int)
  }

  /** The decimal rendering of a natural number (`${n}` in a template). */
  function NatToString(n: nat): (r: string)
    ensures |r| > 0 && AllDigits(r)
    ensures r[0] == '0' ==> n == 0 && r == "0"
  {
    if n < 10 then [DigitChar(n)] else NatToString(n / 10) + [DigitChar(n % 10)]
  }

  /** The decimal rendering of an integer, with a leading `-` when negative. */
  function IntToString(n: int): (r: string)
    ensures n >= 0 ==> r == NatToString(n)
    ensures n < 0 ==> r == ['-'] + NatToString(-n)
  {
    if n < 0 then ['-'] + NatToString(-n) else NatToString(n)
  }

  /** Rendering then parsing gives the number back. */
  lemma {:induction false} ParseNatToString(n: nat)
    ensures ParseDigits(NatToString(n)) == n
  {
    if n >= 10 {
      ParseNatToString(n / 10);
      var r := NatToString(n);
      assert r[..|r| - 1] == NatToString(n / 10);
    }
  }

  /** The maximal run of digits at the start of `s` (greedy `\d+`/`\d*`). */
  function LeadingDigits(s: string): (r: string)
    ensures AllDigits(r) && r <= s
    ensures |r| < |s| ==> !IsDigit(s[|r|])
  {
    if s != [] && IsDigit(s[0]) then [s[0]] + LeadingDigits(s[1..]) else []
  }

  lemma {:induction false} LeadingDigitsOf(ds: string, rest: string)
    requires AllDigits(ds)
    requires rest == [] || !IsDigit(rest[0])
    ensures LeadingDigits(ds + rest) == ds
  {
    if ds != [] {
      assert (ds + rest)[1..] == ds[1..] + rest;
      LeadingDigitsOf(ds[1..], rest);
    } else {
      assert ds + rest == rest;
    }
  }

  /** The number written at position `n`: parseInt of the digit run there. */
  function DigitsAfter(s: string, n: nat): nat
    requires n <= |s|
  {
    ParseDigits(LeadingDigits(s[n..]))
  }

  /** Dropping the first character moves the number one place left. */
  lemma DigitsAfterShift(s: string, n: nat)
    requires 1 <= n <= |s|
    ensures DigitsAfter(s[1..], n - 1) == DigitsAfter(s, n)
  {
    assert s[1..][n - 1..] == s[n..];
  }

  /** `key` occurs at `i` and is immediately followed by a digit. */
  predicate KeyDigitsAt(s: string, key: string, i: nat)
  {
    i + |key| < |s| && s[i..i + |key|] == key && IsDigit(s[i + |key|])
  }

  /**
   * `s.match(/key(\d+)/)` followed by parseInt of the group: the first
   * position where `key` is followed by at least one digit, and the value
   * of the maximal digit run there.
   */
  function FindKeyDigits(s: string, key: string): Option<nat>
    decreases |s|
  {
    if |s| <= |key| then None
    else if key <= s && IsDigit(s[|key|]) then Some(DigitsAfter(s, |key|))
    else FindKeyDigits(s[1..], key)
  }

  /** Dropping the first character moves every occurrence one place left. */
  lemma KeyDigitsShift(s: string, key: string, i: nat)
    requires s != []
    ensures KeyDigitsAt(s[1..], key, i) <==> KeyDigitsAt(s, key, i + 1)
  {
    if i + |key| < |s| - 1 {
      assert s[1..][i..i + |key|] == s[i + 1..i + 1 + |key|];
    }
  }

  /** Nothing is read exactly when `key` is nowhere followed by a digit. */
  lemma {:induction false} FindKeyDigitsNone(s: string, key: string)
    ensures FindKeyDigits(s, key).None? <==> forall i :: 0 <= i < |s| ==> !KeyDigitsAt(s, key, i)
    decreases |s|
  {
    if |s| <= |key| {
    } else if key <= s && IsDigit(s[|key|]) {
      assert KeyDigitsAt(s, key, 0);
    } else {
      assert !KeyDigitsAt(s, key, 0);
      FindKeyDigitsNone(s[1..], key);
      if FindKeyDigits(s, key).None? {
        forall i | 0 <= i < |s| ensures !KeyDigitsAt(s, key, i) {
          if i > 0 {
            KeyDigitsShift(s, key, i - 1);
          }
        }
      } else {
        var i :| 0 <= i < |s| - 1 && KeyDigitsAt(s[1..], key, i);
        KeyDigitsShift(s, key, i);
      }
    }
  }

  /** The value is read at the first position where `key` is followed by a digit. */
  lemma FindKeyDigitsAtStart(s: string, key: string)
    requires KeyDigitsAt(s, key, 0)
    ensures FindKeyDigits(s, key) == Some(DigitsAfter(s, |key|))
  {
    assert s[..|key|] == key;
  }

  lemma FindKeyDigitsSkip(s: string, key: string)
    requires |key| < |s| && !KeyDigitsAt(s, key, 0)
    ensures FindKeyDigits(s, key) == FindKeyDigits(s[1..], key)
  {
    if key <= s {
      assert s[0..|key|] == key;
    }
  }

  lemma {:induction false} FindKeyDigitsFirst(s: string, key: string, i: nat)
    requires i < |s| && KeyDigitsAt(s, key, i)
    requires forall k :: 0 <= k < i ==> !KeyDigitsAt(s, key, k)
    ensures FindKeyDigits(s, key) == Some(DigitsAfter(s, i + |key|))
    decreases i
  {
    if i == 0 {
      FindKeyDigitsAtStart(s, key);
    } else {
      FindKeyDigitsSkip(s, key);
      KeyDigitsShift(s, key, i - 1);
      NoKeyDigitsShift(s, key, i);
      FindKeyDigitsFirst(s[1..], key, i - 1);
      DigitsAfterShift(s, i + |key|);
    }
  }

  lemma NoKeyDigitsShift(s: string, key: string, i: nat)
    requires 1 <= i <= |s|
    requires forall k :: 0 <= k < i ==> !KeyDigitsAt(s, key, k)
    ensures forall k :: 0 <= k < i - 1 ==> !KeyDigitsAt(s[1..], key, k)
  {
    forall k | 0 <= k < i - 1 ensures !KeyDigitsAt(s[1..], key, k) {
      KeyDigitsShift(s, key, k);
    }
  }

  /** A key written with a rendered number right after it is read back. */
  lemma FindKeyDigitsOfRendered(key: string, n: nat, rest: string)
    requires rest == [] || !IsDigit(rest[0])
    ensures FindKeyDigits(key + NatToString(n) + rest, key) == Some(n)
  {
    var s := key + NatToString(n) + rest;
    assert key <= s;
    assert s[|key|..] == NatToString(n) + rest;
    LeadingDigitsOf(NatToString(n), rest);
    ParseNatToString(n);
  }
}
