/**
 * The string operations of the JavaScript standard library that the site
 * relies on: the `\s` whitespace class and `trim`, global literal
 * replacement (`replace(/x/g, y)`), `includes`, `toLowerCase`, `join` and its
 * inverse `split`. Strings are sequences of code points.
 */
module Strings {

  /** The line terminators of ECMAScript: the characters the regex `.` does not match. */
  predicate IsLineTerminator(c: char)
  {
    c == '\n' || c == '\r' || c == '\U{2028}' || c == '\U{2029}'
  }

  /**
   * ECMAScript white space and line terminators: the regex class `\s` and
   * what `trim` removes (tab, the vertical tab and form feed, space, no-break
   * space, the Unicode space separators, the line terminators and the byte
   * order mark).
   */
  predicate IsSpace(c: char)
  {
    c == '\t' || c == '\n' || c == '\U{B}' || c == '\U{C}' || c == '\r' || c == ' '
    || c == '\U{A0}' || c == '\U{1680}' || ('\U{2000}' <= c <= '\U{200A}')
    || c == '\U{2028}' || c == '\U{2029}' || c == '\U{202F}' || c == '\U{205F}'
    || c == '\U{3000}' || c == '\U{FEFF}'
  }

  /** Every line terminator is white space. */
  lemma LineTerminatorIsSpace(c: char)
    requires IsLineTerminator(c)
    ensures IsSpace(c)
  {
  }

  predicate AllSpace(s: string)
  {
    forall i :: 0 <= i < |s| ==> IsSpace(s[i])
  }

  /** `s` neither starts nor ends with white space. */
  predicate Trimmed(s: string)
  {
    |s| == 0 || (!IsSpace(s[0]) && !IsSpace(s[|s| - 1]))
  }

  /** Every character of `s` at an index from `i` up to (not including) `j` is white space. */
  predicate SpaceBetween(s: string, i: nat, j: nat)
  {
    forall k :: i <= k < j && k < |s| ==> IsSpace(s[k])
  }

  /** The number of white-space characters `s` starts with. */
  function LeadCount(s: string): (n: nat)
    ensures n <= |s| && SpaceBetween(s, 0, n)
    ensures n == |s| || !IsSpace(s[n])
  {
    if |s| == 0 || !IsSpace(s[0]) then 0
    else
      var n := 1 + LeadCount(s[1..]);
      assert forall k :: 1 <= k < |s| ==> s[k] == s[1..][k - 1];
      n
  }

  /** The number of white-space characters `s` ends with. */
  function TrailCount(s: string): (n: nat)
    ensures n <= |s| && SpaceBetween(s, |s| - n, |s|)
    ensures n == |s| || !IsSpace(s[|s| - n - 1])
  {
    if |s| == 0 || !IsSpace(s[|s| - 1]) then 0
    else
      var init := s[..|s| - 1];
      assert forall k :: 0 <= k < |init| ==> s[k] == init[k];
      1 + TrailCount(init)
  }

  /** The leading white-space count is the only cut point with white space before it and none right after. */
  lemma LeadCountUnique(s: string, n: nat)
    requires n <= |s| && SpaceBetween(s, 0, n) && (n == |s| || !IsSpace(s[n]))
    ensures LeadCount(s) == n
  {
  }

  /** The trailing white-space count is the only cut point with white space after it and none right before. */
  lemma TrailCountUnique(s: string, n: nat)
    requires n <= |s| && SpaceBetween(s, |s| - n, |s|) && (n == |s| || !IsSpace(s[|s| - n - 1]))
    ensures TrailCount(s) == n
  {
  }

  /**
   * `String.prototype.trim`: the middle of `s` once the white space on both
   * sides is cut away. The result has no white space at either end;
   * `TrimShape` says where it sits in `s`.
   */
  function Trim(s: string): (r: string)
    ensures |r| <= |s|
    ensures Trimmed(r)
  {
    var lead := LeadCount(s);
    if lead == |s| then []
    else
      var trail := TrailCount(s);
      assert lead < |s| - trail;
      s[lead..|s| - trail]
  }

  /**
   * Where the trimmed middle sits: right after the leading white space, with
   * only white space after it; it is empty exactly when `s` is all white space.
   */
  lemma TrimShape(s: string)
    ensures LeadCount(s) + |Trim(s)| <= |s|
    ensures Trim(s) == s[LeadCount(s)..LeadCount(s) + |Trim(s)|]
    ensures SpaceBetween(s, LeadCount(s) + |Trim(s)|, |s|)
    ensures Trim(s) == [] <==> AllSpace(s)
  {
    var lead := LeadCount(s);
    if lead < |s| {
      assert !IsSpace(s[lead]);
    }
  }

  /** Every character before the leading count is white space. */
  lemma LeadChar(s: string, k: nat)
    requires k < LeadCount(s)
    ensures IsSpace(s[k])
  {
  }

  /** Every character after the trimmed middle is white space. */
  lemma TrailChar(s: string, k: nat)
    requires LeadCount(s) + |Trim(s)| <= k < |s|
    ensures IsSpace(s[k])
  {
    TrimShape(s);
  }

  /** The last character of a non-empty trimmed middle is not white space. */
  lemma TrimLastChar(s: string)
    requires |Trim(s)| > 0
    ensures LeadCount(s) + |Trim(s)| <= |s|
    ensures !IsSpace(s[LeadCount(s) + |Trim(s)| - 1])
  {
    var l, t := LeadCount(s), TrailCount(s);
    assert l < |s| - t && |Trim(s)| == |s| - t - l;
    assert s[l + |Trim(s)| - 1] == s[|s| - t - 1];
  }

  /** The white space after the trimmed middle, as a string. */
  lemma TrailIsSpace(s: string)
    ensures LeadCount(s) + |Trim(s)| <= |s|
    ensures AllSpace(s[LeadCount(s) + |Trim(s)|..])
  {
    TrimShape(s);
    var m := LeadCount(s) + |Trim(s)|;
    assert forall k :: 0 <= k < |s| - m ==> s[m..][k] == s[m + k];
  }

  /** Trimming a padded string recovers exactly the unpadded middle (the inverse of padding). */
  lemma TrimPadded(pre: string, m: string, post: string)
    requires AllSpace(pre) && AllSpace(post) && Trimmed(m)
    ensures Trim(pre + m + post) == m
  {
    var s := pre + m + post;
    if |m| == 0 {
      assert AllSpace(s) by {
        forall i | 0 <= i < |s|
          ensures IsSpace(s[i])
        {
          if i < |pre| { assert s[i] == pre[i]; } else { assert s[i] == post[i - |pre|]; }
        }
      }
      TrimShape(s);
    } else {
      assert forall k :: 0 <= k < |pre| ==> s[k] == pre[k];
      assert s[|pre|] == m[0];
      LeadCountUnique(s, |pre|);
      assert forall k :: |s| - |post| <= k < |s| ==> s[k] == post[k - (|s| - |post|)];
      assert s[|s| - |post| - 1] == m[|m| - 1];
      TrailCountUnique(s, |post|);
      assert s[|pre|..|s| - |post|] == m;
    }
  }

  /** `TrimPadded`, for a string given as its padded parts. */
  lemma TrimPaddedAt(s: string, pre: string, m: string, post: string)
    requires s == pre + m + post
    requires AllSpace(pre) && AllSpace(post) && Trimmed(m)
    ensures Trim(s) == m
  {
    TrimPadded(pre, m, post);
  }

  /** Trimming twice is trimming once. */
  lemma TrimIdempotent(s: string)
    ensures Trim(Trim(s)) == Trim(s)
  {
    TrimPadded([], Trim(s), []);
    assert [] + Trim(s) + [] == Trim(s);
  }

  /**
   * `s.replace(/pat/g, rep)` (equivalently `s.replaceAll(pat, rep)`) for a
   * literal, non-empty pattern: occurrences are found left to right, never
   * overlapping, and the replacement text is not searched again.
   */
  function ReplaceAll(s: string, pat: string, rep: string): (r: string)
    requires |pat| > 0
    ensures !Contains(s, pat) ==> r == s
    decreases |s|
  {
    if |s| == 0 then []
    else if pat <= s then rep + ReplaceAll(s[|pat|..], pat, rep)
    else [s[0]] + ReplaceAll(s[1..], pat, rep)
  }

  /** Replacing never introduces a character that neither the input nor the replacement contains. */
  lemma {:induction false} ReplaceAllAbsent(s: string, pat: string, rep: string, c: char)
    requires |pat| > 0 && c !in s && c !in rep
    ensures c !in ReplaceAll(s, pat, rep)
    decreases |s|
  {
    if |s| > 0 {
      if pat <= s {
        ReplaceAllAbsent(s[|pat|..], pat, rep, c);
      } else {
        ReplaceAllAbsent(s[1..], pat, rep, c);
      }
    }
  }

  /** Replacing a character by text without it removes every occurrence of it. */
  lemma {:induction false} ReplaceCharGone(s: string, c: char, rep: string)
    requires c !in rep
    ensures c !in ReplaceAll(s, [c], rep)
    decreases |s|
  {
    if |s| > 0 {
      ReplaceCharGone(s[1..], c, rep);
    }
  }

  /** A stretch without the pattern's first character passes through the replacement unchanged. */
  lemma {:induction false} ReplaceAllSkip(a: string, t: string, pat: string, rep: string)
    requires |pat| > 0 && pat[0] !in a
    ensures ReplaceAll(a + t, pat, rep) == a + ReplaceAll(t, pat, rep)
    decreases |a|
  {
    if |a| == 0 {
      assert a + t == t;
    } else {
      var s := a + t;
      assert s[0] == a[0] && s[0] != pat[0];
      assert !(pat <= s);
      assert s[1..] == a[1..] + t;
      assert ReplaceAll(s, pat, rep) == [a[0]] + ReplaceAll(a[1..] + t, pat, rep);
      ReplaceAllSkip(a[1..], t, pat, rep);
      assert a == [a[0]] + a[1..];
    }
  }

  /**
   * Replacing the separator of a join, when no part contains its first
   * character, joins the same parts with the replacement.
   */
  lemma {:induction false} ReplaceSeparator(parts: seq<string>, sep: string, rep: string)
    requires |sep| > 0
    requires forall i :: 0 <= i < |parts| ==> sep[0] !in parts[i]
    ensures ReplaceAll(Join(parts, sep), sep, rep) == Join(parts, rep)
    decreases |parts|
  {
    if |parts| == 1 {
      ReplaceAllSkip(parts[0], [], sep, rep);
      assert parts[0] + [] == parts[0];
    } else if |parts| > 1 {
      var rest := Join(parts[1..], sep);
      assert Join(parts, sep) == parts[0] + (sep + rest);
      ReplaceAllSkip(parts[0], sep + rest, sep, rep);
      assert sep <= sep + rest;
      assert (sep + rest)[|sep|..] == rest;
      ReplaceSeparator(parts[1..], sep, rep);
      assert Join(parts, rep) == parts[0] + (rep + Join(parts[1..], rep));
    }
  }

  /** Replacing a character that no part contains only rewrites the separators. */
  lemma {:induction false} ReplaceCharInJoin(parts: seq<string>, sep: string, c: char, rep: string)
    requires forall i :: 0 <= i < |parts| ==> c !in parts[i]
    ensures ReplaceAll(Join(parts, sep), [c], rep) == Join(parts, ReplaceAll(sep, [c], rep))
    decreases |parts|
  {
    if |parts| == 1 {
      FirstCharAbsent(parts[0], [c]);
    } else if |parts| > 1 {
      var rest := Join(parts[1..], sep);
      assert Join(parts, sep) == parts[0] + (sep + rest);
      ReplaceCharConcat(parts[0], sep + rest, c, rep);
      ReplaceCharConcat(sep, rest, c, rep);
      FirstCharAbsent(parts[0], [c]);
      ReplaceCharInJoin(parts[1..], sep, c, rep);
      var sep2 := ReplaceAll(sep, [c], rep);
      assert Join(parts, sep2) == parts[0] + (sep2 + Join(parts[1..], sep2));
    }
  }

  /** `haystack.includes(needle)`. */
  predicate Contains(haystack: string, needle: string)
    decreases |haystack|
  {
    needle <= haystack || (|haystack| > 0 && Contains(haystack[1..], needle))
  }

  /** `needle` occurs in `haystack` starting at index `i`. */
  predicate OccursAt(haystack: string, needle: string, i: nat)
  {
    i + |needle| <= |haystack| && haystack[i..i + |needle|] == needle
  }

  /** `Contains` agrees with the positional definition of a substring. */
  lemma {:induction false} ContainsIffOccurs(haystack: string, needle: string)
    ensures Contains(haystack, needle) <==> exists i: nat :: OccursAt(haystack, needle, i)
    decreases |haystack|
  {
    if needle <= haystack {
      assert OccursAt(haystack, needle, 0);
    } else if |haystack| > 0 {
      ContainsIffOccurs(haystack[1..], needle);
      if exists i: nat :: OccursAt(haystack, needle, i) {
        var i: nat :| OccursAt(haystack, needle, i);
        assert i != 0;
        assert haystack[1..][i - 1..i - 1 + |needle|] == haystack[i..i + |needle|];
        assert OccursAt(haystack[1..], needle, i - 1);
      }
      if Contains(haystack[1..], needle) {
        var j: nat :| OccursAt(haystack[1..], needle, j);
        assert haystack[j + 1..j + 1 + |needle|] == haystack[1..][j..j + |needle|];
        assert OccursAt(haystack, needle, j + 1);
      }
    }
  }

  /** A string shorter than the needle does not contain it. */
  lemma {:induction false} ShortNotContains(haystack: string, needle: string)
    requires |haystack| < |needle|
    ensures !Contains(haystack, needle)
    decreases |haystack|
  {
    if |haystack| > 0 {
      ShortNotContains(haystack[1..], needle);
    }
  }

  /** A string without the needle's first character does not contain the needle. */
  lemma {:induction false} FirstCharAbsent(haystack: string, needle: string)
    requires |needle| > 0 && needle[0] !in haystack
    ensures !Contains(haystack, needle)
    decreases |haystack|
  {
    if |haystack| > 0 {
      FirstCharAbsent(haystack[1..], needle);
    }
  }

  /** Replacing a one-character pattern replaces that character and nothing else. */
  lemma {:induction false} ReplaceCharConcat(a: string, b: string, c: char, rep: string)
    ensures ReplaceAll(a + b, [c], rep) == ReplaceAll(a, [c], rep) + ReplaceAll(b, [c], rep)
    decreases |a|
  {
    if |a| > 0 {
      assert (a + b)[0] == a[0];
      assert (a + b)[1..] == a[1..] + b;
      assert [c] <= a + b <==> [c] <= a;
      ReplaceCharConcat(a[1..], b, c, rep);
    } else {
      assert a + b == b;
    }
  }

  /**
   * Doubling a character and then collapsing each doubled pair gives back
   * the original: the escaping `replace(/c/g, cc)` has an inverse.
   */
  lemma {:induction false} DoubleThenCollapse(s: string, c: char)
    ensures ReplaceAll(ReplaceAll(s, [c], [c, c]), [c, c], [c]) == s
    decreases |s|
  {
    if |s| > 0 {
      var rest := ReplaceAll(s[1..], [c], [c, c]);
      DoubleThenCollapse(s[1..], c);
      if s[0] == c {
        assert [c] <= s;
        var t := [c, c] + rest;
        assert ReplaceAll(s, [c], [c, c]) == t;
        assert [c, c] <= t && t[2..] == rest;
      } else {
        assert !([c] <= s);
        var t := [s[0]] + rest;
        assert ReplaceAll(s, [c], [c, c]) == t;
        assert !([c, c] <= t) && t[1..] == rest;
      }
    }
  }

  /** After the doubling, the character only ever occurs in adjacent pairs. */
  lemma {:induction false} DoubledOnlyInPairs(s: string, c: char)
    ensures PairedOnly(ReplaceAll(s, [c], [c, c]), c)
    decreases |s|
  {
    if |s| > 0 {
      DoubledOnlyInPairs(s[1..], c);
      var rest := ReplaceAll(s[1..], [c], [c, c]);
      if s[0] == c {
        assert [c] <= s;
        assert ([c, c] + rest)[2..] == rest;
      } else {
        assert !([c] <= s);
        assert ([s[0]] + rest)[1..] == rest;
      }
    }
  }

  /** Every `c` in `s` is one of a run of pairs `cc`, read from the left. */
  predicate PairedOnly(s: string, c: char)
    decreases |s|
  {
    if |s| == 0 then true
    else if s[0] != c then PairedOnly(s[1..], c)
    else |s| >= 2 && s[1] == c && PairedOnly(s[2..], c)
  }

  /** `String.prototype.toLowerCase` on ASCII letters; every other character is left alone. */
  function ToLower(s: string): (r: string)
    ensures |r| == |s|
    ensures forall i :: 0 <= i < |s| ==> r[i] == LowerChar(s[i])
  {
    if |s| == 0 then [] else [LowerChar(s[0])] + ToLower(s[1..])
  }

  function LowerChar(c: char): (d: char)
    ensures !('A' <= d <= 'Z')
    ensures 'a' <= c <= 'z' || !('A' <= c <= 'Z') ==> d == c
  {
    if 'A' <= c <= 'Z' then (c as int + 32) as char else c
  }

  /** Lower-casing twice is lower-casing once. */
  lemma ToLowerIdempotent(s: string)
    ensures ToLower(ToLower(s)) == ToLower(s)
  {
  }

  /** `parts.join(sep)`: the parts with `sep` between each neighbouring pair; `[].join(sep)` is `""`. */
  function Join(parts: seq<string>, sep: string): (r: string)
    ensures |parts| == 1 ==> r == parts[0]
  {
    if |parts| == 0 then []
    else if |parts| == 1 then parts[0]
    else parts[0] + sep + Join(parts[1..], sep)
  }

  /** Joining never introduces a character that neither the parts nor the separator contain. */
  lemma {:induction false} JoinAbsent(parts: seq<string>, sep: string, c: char)
    requires c !in sep
    requires forall i :: 0 <= i < |parts| ==> c !in parts[i]
    ensures c !in Join(parts, sep)
    decreases |parts|
  {
    if |parts| > 1 {
      JoinAbsent(parts[1..], sep, c);
    }
  }

  /** `s.split(c)` for a one-character separator: always at least one piece, none containing `c`. */
  function Split(s: string, c: char): (r: seq<string>)
    ensures |r| >= 1
    ensures forall i :: 0 <= i < |r| ==> c !in r[i]
  {
    if |s| == 0 then [[]]
    else
      var rest := Split(s[1..], c);
      if s[0] == c then [[]] + rest
      else [[s[0]] + rest[0]] + rest[1..]
  }

  /** Splitting right after a separator-free prefix. */
  lemma {:induction false} SplitAfterPrefix(a: string, b: string, c: char)
    requires c !in a
    ensures Split(a + [c] + b, c) == [a] + Split(b, c)
    decreases |a|
  {
    if |a| == 0 {
      assert a + [c] + b == [c] + b;
      assert ([c] + b)[1..] == b;
    } else {
      assert (a + [c] + b)[0] == a[0];
      assert (a + [c] + b)[1..] == a[1..] + [c] + b;
      SplitAfterPrefix(a[1..], b, c);
      assert [a[0]] + a[1..] == a;
    }
  }

  /** A separator-free string is one piece. */
  lemma {:induction false} SplitNoSeparator(s: string, c: char)
    requires c !in s
    ensures Split(s, c) == [s]
    decreases |s|
  {
    if |s| > 0 {
      SplitNoSeparator(s[1..], c);
      assert [s[0]] + s[1..] == s;
    }
  }

  /** `split` undoes `join` when no part contains the separator. */
  lemma {:induction false} SplitJoin(parts: seq<string>, c: char)
    requires |parts| >= 1
    requires forall i :: 0 <= i < |parts| ==> c !in parts[i]
    ensures Split(Join(parts, [c]), c) == parts
    decreases |parts|
  {
    if |parts| == 1 {
      SplitNoSeparator(parts[0], c);
    } else {
      SplitJoin(parts[1..], c);
      SplitAfterPrefix(parts[0], Join(parts[1..], [c]), c);
      assert [parts[0]] + parts[1..] == parts;
    }
  }
}
