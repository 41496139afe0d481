/**
 * String helpers shared by the routing, search, upload and navigation
 * models. Strings are `seq<char>`; case folding is ASCII only and the
 * whitespace class is the six ASCII whitespace characters.
 */
module Text {

  /** `s.startsWith(prefix)` */
  predicate StartsWith(s: string, prefix: string) {
    |prefix| <= |s| && s[..|prefix|] == prefix
  }

  /** `s.endsWith(suffix)` */
  predicate EndsWith(s: string, suffix: string) {
    |suffix| <= |s| && s[|s| - |suffix|..] == suffix
  }

  /** `sub` occurs in `s` starting at index `i`. */
  predicate OccursAt(s: string, sub: string, i: int) {
    0 <= i && i + |sub| <= |s| && s[i..i + |sub|] == sub
  }

  /** `s.includes(sub)` */
  predicate Contains(s: string, sub: string) {
    exists i | 0 <= i <= |s| - |sub| :: OccursAt(s, sub, i)
  }

  /** Every string contains the empty string. */
  lemma ContainsEmpty(s: string)
    ensures Contains(s, "")
  {
    assert OccursAt(s, "", 0);
  }

  /** A string contains itself. */
  lemma ContainsSelf(s: string)
    ensures Contains(s, s)
  {
    assert OccursAt(s, s, 0);
  }

  /**
   * An occurrence of `sub` in `p + s`, where `p` ends in a character that
   * `sub` never contains, lies wholly inside `p` or wholly inside `s`.
   */
  lemma {:induction false} ContainsAcrossSeparator(p: string, s: string, sub: string, sep: char)
    requires |p| > 0 && p[|p| - 1] == sep && sep !in sub
    ensures Contains(p + s, sub) <==> Contains(p, sub) || Contains(s, sub)
  {
    if Contains(p + s, sub) {
      var i :| 0 <= i <= |p + s| - |sub| && OccursAt(p + s, sub, i);
      Straddle(p, s, sub, i);
      if i + |sub| <= |p| {
        assert (p + s)[i..i + |sub|] == p[i..i + |sub|];
        assert OccursAt(p, sub, i);
      } else if i >= |p| {
        assert (p + s)[i..i + |sub|] == s[i - |p|..i - |p| + |sub|];
        assert OccursAt(s, sub, i - |p|);
      }
    }
    if Contains(p, sub) {
      var i :| 0 <= i <= |p| - |sub| && OccursAt(p, sub, i);
      assert (p + s)[i..i + |sub|] == p[i..i + |sub|];
      assert OccursAt(p + s, sub, i);
    }
    if Contains(s, sub) {
      var i :| 0 <= i <= |s| - |sub| && OccursAt(s, sub, i);
      assert (p + s)[|p| + i..|p| + i + |sub|] == s[i..i + |sub|];
      assert OccursAt(p + s, sub, |p| + i);
    }
  }

  /** An occurrence that straddles the end of `p` contains `p`'s last character. */
  lemma Straddle(p: string, s: string, sub: string, i: int)
    requires OccursAt(p + s, sub, i)
    ensures i < |p| < i + |sub| ==> sub[|p| - 1 - i] == p[|p| - 1]
  {
    if i < |p| < i + |sub| {
      assert sub[|p| - 1 - i] == (p + s)[i..i + |sub|][|p| - 1 - i] == (p + s)[|p| - 1];
    }
  }

  /** ASCII `toLowerCase` of one character. */
  function LowerChar(c: char): char {
    if 'A' <= c <= 'Z' then (c as int + 32) as char else c
  }

  predicate IsUpperAscii(c: char) {
    'A' <= c <= 'Z'
  }

  /** `s.toLowerCase()` (ASCII). */
  function ToLower(s: string): (r: string)
    ensures |r| == |s|
    ensures forall i :: 0 <= i < |s| ==> r[i] == LowerChar(s[i])
  {
    seq(|s|, i requires 0 <= i < |s| => LowerChar(s[i]))
  }

  /** The whitespace class matched by `\s` and removed by `trim()`. */
  predicate IsSpace(c: char) {
    c == ' ' || c == '\t' || c == '\n' || c == '\r' || c == '\U{C}' || c == '\U{B}'
  }

  /** `s.trim()` */
  function Trim(s: string): (r: string)
  {
    TrimEnd(TrimStart(s))
  }

  function TrimStart(s: string): string {
    if |s| > 0 && IsSpace(s[0]) then TrimStart(s[1..]) else s
  }

  function TrimEnd(s: string): string {
    if |s| > 0 && IsSpace(s[|s| - 1]) then TrimEnd(s[..|s| - 1]) else s
  }

  /** A string is blank when every character is whitespace. */
  predicate IsBlank(s: string) {
    forall i :: 0 <= i < |s| ==> IsSpace(s[i])
  }

  lemma {:induction false} TrimStartBlank(s: string)
    ensures TrimStart(s) == [] <==> IsBlank(s)
    ensures TrimStart(s) != [] ==> !IsSpace(TrimStart(s)[0])
    ensures |TrimStart(s)| <= |s| && TrimStart(s) == s[|s| - |TrimStart(s)|..]
  {
    if |s| > 0 && IsSpace(s[0]) {
      TrimStartBlank(s[1..]);
      if IsBlank(s[1..]) {
        assert forall i :: 0 <= i < |s| ==> IsSpace(s[i]) by {
          forall i | 0 <= i < |s| ensures IsSpace(s[i]) {
            if i > 0 { assert s[i] == s[1..][i - 1]; }
          }
        }
      }
    }
  }

  lemma {:induction false} TrimEndBlank(s: string)
    ensures TrimEnd(s) == [] <==> IsBlank(s)
    ensures |TrimEnd(s)| <= |s| && TrimEnd(s) == s[..|TrimEnd(s)|]
  {
    if |s| > 0 && IsSpace(s[|s| - 1]) {
      TrimEndBlank(s[..|s| - 1]);
      if IsBlank(s[..|s| - 1]) {
        assert forall i :: 0 <= i < |s| ==> IsSpace(s[i]) by {
          forall i | 0 <= i < |s| ensures IsSpace(s[i]) {
            if i < |s| - 1 { assert s[i] == s[..|s| - 1][i]; }
          }
        }
      }
    }
  }

  /** `s.trim()` is empty exactly when `s` consists of whitespace only. */
  lemma TrimEmptyIffBlank(s: string)
    ensures Trim(s) == [] <==> IsBlank(s)
  {
    TrimStartBlank(s);
    TrimEndBlank(TrimStart(s));
    var t := TrimStart(s);
    if IsBlank(s) {
      assert t == [];
    } else {
      assert t != [];
      assert !IsSpace(t[0]);
      assert !IsBlank(t);
    }
  }

  /**
   * `s.replace(/\s+/g, '-')`: every maximal run of whitespace becomes one
   * hyphen. `inRun` records that the previous character was whitespace.
   */
  function CollapseWhitespace(s: string): (r: string)
  {
    CollapseFrom(s, false)
  }

  function CollapseFrom(s: string, inRun: bool): (r: string)
    decreases |s|
  {
    if |s| == 0 then []
    else if IsSpace(s[0]) then
      (if inRun then [] else ['-']) + CollapseFrom(s[1..], true)
    else [s[0]] + CollapseFrom(s[1..], false)
  }

  lemma {:induction false} CollapseFromFacts(s: string, inRun: bool)
    ensures forall i :: 0 <= i < |CollapseFrom(s, inRun)| ==> !IsSpace(CollapseFrom(s, inRun)[i])
    ensures |CollapseFrom(s, inRun)| <= |s|
    ensures (forall i :: 0 <= i < |s| ==> !IsSpace(s[i])) ==> CollapseFrom(s, inRun) == s
    decreases |s|
  {
    if |s| > 0 {
      CollapseFromFacts(s[1..], IsSpace(s[0]));
      if forall i :: 0 <= i < |s| ==> !IsSpace(s[i]) {
        assert forall i :: 0 <= i < |s[1..]| ==> !IsSpace(s[1..][i]) by {
          forall i | 0 <= i < |s[1..]| ensures !IsSpace(s[1..][i]) {
            assert s[1..][i] == s[i + 1];
          }
        }
        assert [s[0]] + s[1..] == s;
      }
    }
  }

  /** Decimal digits of a natural number, as `String(n)` prints it. */
  function NatToString(n: nat): (r: string)
    ensures |r| > 0
    ensures forall i :: 0 <= i < |r| ==> IsDigit(r[i])
    decreases n
  {
    if n < 10 then [DigitChar(n)] else NatToString(n / 10) + [DigitChar(n % 10)]
  }

  function DigitChar(d: nat): (c: char)
    requires d < 10
    ensures IsDigit(c)
  {
    ('0' as int + d) as char
  }

  predicate IsDigit(c: char) {
    '0' <= c <= '9'
  }
}
