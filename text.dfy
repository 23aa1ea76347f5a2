/** String helpers that stand for the Rust standard library calls the renderers use:
    `join`, `to_uppercase`, integer formatting and `str::replace`. */
module Text {

  /** `parts.join(sep)`. */
  function Join(parts: seq<string>, sep: string): string
  {
    if |parts| == 0 then ""
    else if |parts| == 1 then parts[0]
    else parts[0] + sep + Join(parts[1..], sep)
  }

  /** Joining one more part adds the separator and that part at the end. */
  lemma {:induction false} JoinAppend(parts: seq<string>, last: string, sep: string)
    requires |parts| > 0
    ensures Join(parts + [last], sep) == Join(parts, sep) + sep + last
    decreases |parts|
  {
    if |parts| > 1 {
      assert (parts + [last])[1..] == parts[1..] + [last];
      JoinAppend(parts[1..], last, sep);
    } else {
      assert (parts + [last])[1..] == [last];
    }
  }

  /** Every part occurs in the joined string. */
  lemma {:induction false} JoinHasParts(parts: seq<string>, sep: string, i: nat)
    requires i < |parts|
    ensures IsInfix(parts[i], Join(parts, sep))
    decreases i
  {
    if |parts| == 1 {
      assert InfixAt(parts[0], Join(parts, sep), 0);
    } else if i == 0 {
      assert Join(parts, sep)[..|parts[0]|] == parts[0];
      assert InfixAt(parts[0], Join(parts, sep), 0);
    } else {
      JoinHasParts(parts[1..], sep, i - 1);
      var p :| InfixAt(parts[i], Join(parts[1..], sep), p);
      var pre := parts[0] + sep;
      assert Join(parts, sep) == pre + Join(parts[1..], sep);
      assert (pre + Join(parts[1..], sep))[|pre| + p..|pre| + p + |parts[i]|] == Join(parts[1..], sep)[p..p + |parts[i]|];
      assert InfixAt(parts[i], Join(parts, sep), |pre| + p);
    }
  }

  /** `to_uppercase` restricted to ASCII: lower-case letters are mapped, everything else is kept. */
  function UpperChar(c: char): (r: char)
    ensures 'a' <= c <= 'z' ==> 'A' <= r <= 'Z' && r as int == c as int - 32
    ensures !('a' <= c <= 'z') ==> r == c
  {
    if 'a' <= c <= 'z' then (c as int - 32) as char else c
  }

  function Upper(s: string): (r: string)
    ensures |r| == |s|
    ensures forall i :: 0 <= i < |s| ==> r[i] == UpperChar(s[i])
  {
    if s == [] then [] else [UpperChar(s[0])] + Upper(s[1..])
  }

  function DigitChar(d: nat): char
    requires d < 10
  {
    "0123456789"[d]
  }

  predicate IsDigit(c: char) { '0' <= c <= '9' }

  /** Decimal rendering of an unsigned integer, as `format!("{}", n)` prints it. */
  function NatToDecimal(n: nat): (r: string)
    ensures |r| > 0
    ensures forall i :: 0 <= i < |r| ==> IsDigit(r[i])
    ensures n >= 10 ==> r[0] != '0'
    decreases n
  {
    if n < 10 then [DigitChar(n)] else NatToDecimal(n / 10) + [DigitChar(n % 10)]
  }

  /** The value a decimal string denotes; the partner of NatToDecimal. */
  function DecimalValue(s: string): nat
    requires forall i :: 0 <= i < |s| ==> IsDigit(s[i])
  {
    if s == [] then 0 else 10 * DecimalValue(s[..|s| - 1]) + DigitValue(s[|s| - 1])
  }

  function DigitValue(c: char): (d: nat)
    requires IsDigit(c)
    ensures d < 10
  {
    c as int - '0' as int
  }

  lemma {:induction false} DecimalRoundTrip(n: nat)
    ensures DecimalValue(NatToDecimal(n)) == n
    decreases n
  {
    if n >= 10 {
      var s := NatToDecimal(n);
      assert s[..|s| - 1] == NatToDecimal(n / 10);
      DecimalRoundTrip(n / 10);
    }
  }

  /** `s.replace(pat, rep)`: leftmost, non-overlapping occurrences of `pat`, scanned left to right. */
  function Replace(s: string, pat: string, rep: string): string
    requires |pat| > 0
    decreases |s|
  {
    if |s| < |pat| then s
    else if s[..|pat|] == pat then rep + Replace(s[|pat|..], pat, rep)
    else [s[0]] + Replace(s[1..], pat, rep)
  }

  /** `x` occurs in `s` starting at offset `p`. */
  predicate InfixAt(x: string, s: string, p: int)
  {
    0 <= p <= |s| - |x| && s[p..p + |x|] == x
  }

  ghost predicate IsInfix(x: string, s: string)
  {
    exists p :: InfixAt(x, s, p)
  }

  /** `pat` occurs in `s` starting at offset `k`. */
  predicate MatchAt(s: string, k: nat, pat: string)
  {
    k + |pat| <= |s| && s[k..k + |pat|] == pat
  }

  /** A prefix at none of whose offsets the pattern starts is copied through unchanged. */
  lemma {:induction false} ReplaceCopiesPrefix(w: string, t: string, pat: string, rep: string)
    requires |pat| > 0
    requires forall k :: 0 <= k < |w| ==> !MatchAt(w + t, k, pat)
    ensures Replace(w + t, pat, rep) == w + Replace(t, pat, rep)
    decreases |w|
  {
    if w != [] {
      var s := w + t;
      if |s| < |pat| {
        assert Replace(s, pat, rep) == s;
        assert Replace(t, pat, rep) == t;
      } else {
        assert !MatchAt(s, 0, pat);
        assert s[..|pat|] != pat;
        assert s[1..] == w[1..] + t;
        forall k | 0 <= k < |w[1..]|
          ensures !MatchAt(w[1..] + t, k, pat)
        {
          assert !MatchAt(s, k + 1, pat);
          if k + |pat| <= |s[1..]| {
            assert s[1..][k..k + |pat|] == s[k + 1..k + 1 + |pat|];
          }
        }
        ReplaceCopiesPrefix(w[1..], t, pat, rep);
        calc {
          Replace(s, pat, rep);
          [s[0]] + Replace(s[1..], pat, rep);
          [w[0]] + (w[1..] + Replace(t, pat, rep));
          { assert [w[0]] + w[1..] == w; }
          w + Replace(t, pat, rep);
        }
      }
    } else {
      assert w + t == t;
    }
  }

  /** An offset inside `w` starts the pattern in `w + (pat + rest)` only if it does in `w + pat`. */
  lemma MatchBeforePattern(w: string, pat: string, rest: string, k: nat)
    requires k < |w| && MatchAt(w + (pat + rest), k, pat)
    ensures MatchAt(w + pat, k, pat)
  {
    assert (w + (pat + rest))[k..k + |pat|] == (w + pat)[k..k + |pat|];
  }

  lemma ReplaceAtPattern(t: string, pat: string, rep: string)
    requires |pat| > 0
    ensures Replace(pat + t, pat, rep) == rep + Replace(t, pat, rep)
  {
    var s := pat + t;
    assert s[..|pat|] == pat;
    assert s[|pat|..] == t;
  }

  /** A template whose pieces, each followed by the pattern, have no occurrence of the pattern
      starting inside the piece, has every placeholder replaced and nothing else touched. */
  lemma {:induction false} ReplaceJoin(parts: seq<string>, pat: string, rep: string)
    requires |pat| > 0
    requires forall i, k :: 0 <= i < |parts| && 0 <= k < |parts[i]| ==> !MatchAt(parts[i] + pat, k, pat)
    ensures Replace(Join(parts, pat), pat, rep) == Join(parts, rep)
    decreases |parts|
  {
    if |parts| == 0 {
    } else if |parts| == 1 {
      forall k | 0 <= k < |parts[0]|
        ensures !MatchAt(parts[0] + "", k, pat)
      {
        assert !MatchAt(parts[0] + pat, k, pat);
        assert parts[0] + "" == parts[0];
        if k + |pat| <= |parts[0]| {
          assert (parts[0] + pat)[k..k + |pat|] == parts[0][k..k + |pat|];
        }
      }
      ReplaceCopiesPrefix(parts[0], "", pat, rep);
      assert parts[0] + "" == parts[0];
    } else {
      var rest := Join(parts[1..], pat);
      forall k | 0 <= k < |parts[0]|
        ensures !MatchAt(parts[0] + (pat + rest), k, pat)
      {
        if MatchAt(parts[0] + (pat + rest), k, pat) {
          MatchBeforePattern(parts[0], pat, rest, k);
          assert false;
        }
      }
      calc {
        Replace(Join(parts, pat), pat, rep);
        { assert Join(parts, pat) == parts[0] + (pat + rest); }
        Replace(parts[0] + (pat + rest), pat, rep);
        { ReplaceCopiesPrefix(parts[0], pat + rest, pat, rep); }
        parts[0] + Replace(pat + rest, pat, rep);
        { ReplaceAtPattern(rest, pat, rep); }
        parts[0] + (rep + Replace(rest, pat, rep));
        { ReplaceJoin(parts[1..], pat, rep); }
        parts[0] + (rep + Join(parts[1..], rep));
      }
    }
  }

  /** A string occurs inside any concatenation that places it between two others. */
  lemma InfixOfConcat(pre: string, x: string, post: string)
    ensures IsInfix(x, pre + (x + post))
  {
    assert (pre + (x + post))[|pre|..|pre| + |x|] == x;
    assert InfixAt(x, pre + (x + post), |pre|);
  }

  /** The first character of an infix occurs in the string. */
  lemma InfixHeadOccurs(x: string, s: string, p: int)
    requires |x| > 0 && InfixAt(x, s, p)
    ensures x[0] in s
  {
    assert s[p] == s[p..p + |x|][0];
  }

  /** Appending to a string keeps every infix of it. */
  lemma InfixExtend(x: string, s: string, t: string)
    requires IsInfix(x, s)
    ensures IsInfix(x, s + t)
  {
    var p :| InfixAt(x, s, p);
    assert (s + t)[p..p + |x|] == s[p..p + |x|];
    assert InfixAt(x, s + t, p);
  }
}
