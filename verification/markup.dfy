/**
 * The two plain-text transforms built on literal global replacement: the
 * paragraphing of an article body in components/ContentDetail.tsx, and the
 * clean-up of the strategy brief copied into the booking form in
 * components/BookingSection.tsx.
 */
module Markup {
  import opened Strings
  import Seqs

  const LineBreak: string := "<br />"
  const ParagraphBreak: string := "</p><p>"
  const EmptyParagraph: string := "<p></p>"

  /**
   * `markdownToHtml` of the article page: every newline becomes a line
   * break, every two consecutive line breaks close one paragraph and open
   * the next, the whole is wrapped in one paragraph, and the empty
   * paragraphs this leaves are removed in one pass.
   */
  function Paragraphs(text: string): (r: string)
    ensures '\n' !in r
  {
    var html := Breaks(text);
    ReplaceCharGone(text, '\n', LineBreak);
    var inner := Pair(html);
    ReplaceAllAbsent(html, LineBreak + LineBreak, ParagraphBreak, '\n');
    var wrapped := Wrapped(inner);
    ReplaceAllAbsent(wrapped, EmptyParagraph, [], '\n');
    Clean(wrapped)
  }

  /** Every newline becomes a line break. */
  function Breaks(text: string): (r: string)
  {
    ReplaceAll(text, "\n", LineBreak)
  }

  /** Every two consecutive line breaks become a paragraph break. */
  function Pair(html: string): string
  {
    ReplaceAll(html, LineBreak + LineBreak, ParagraphBreak)
  }

  /** The whole wrapped in one paragraph. */
  function Wrapped(inner: string): string
  {
    "<p>" + inner + "</p>"
  }

  /** The empty paragraphs are removed. */
  function Clean(html: string): string
  {
    ReplaceAll(html, EmptyParagraph, [])
  }

  /** Each paragraph wrapped in its own `<p>` element, in order. */
  function Wrap(ps: seq<string>): string
  {
    if |ps| == 0 then [] else "<p>" + ps[0] + "</p>" + Wrap(ps[1..])
  }

  /** A paragraph the transform leaves alone: non-empty, one line, no markup. */
  predicate PlainParagraph(p: string)
  {
    |p| > 0 && '\n' !in p && '<' !in p
  }

  /** An empty body gives no paragraph at all. */
  lemma EmptyGivesNothing()
    ensures Paragraphs("") == ""
  {
    assert ReplaceAll("", "\n", LineBreak) == "";
    assert ReplaceAll("", LineBreak + LineBreak, ParagraphBreak) == "";
    var wrapped := "<p>" + "" + "</p>";
    assert wrapped == EmptyParagraph;
    assert EmptyParagraph <= wrapped;
    assert wrapped[|EmptyParagraph|..] == "";
  }

  /**
   * Paragraphs separated by blank lines come out as one `<p>` element each:
   * every "\n\n" between them became the paragraph break, and nothing was
   * removed as empty.
   */
  lemma ParagraphsOfBlankLines(ps: seq<string>)
    requires forall i :: 0 <= i < |ps| ==> PlainParagraph(ps[i])
    ensures Paragraphs(Join(ps, "\n\n")) == Wrap(ps)
  {
    if |ps| == 0 {
      EmptyGivesNothing();
    } else {
      NonEmptyParagraphs(ps);
    }
  }

  /** `ParagraphsOfBlankLines` for at least one paragraph: the four passes in turn. */
  lemma NonEmptyParagraphs(ps: seq<string>)
    requires |ps| > 0
    requires forall i :: 0 <= i < |ps| ==> PlainParagraph(ps[i])
    ensures Paragraphs(Join(ps, "\n\n")) == Wrap(ps)
  {
    BlankLinesToBreaks(ps);
    BreaksToParagraphs(ps);
    WrapJoin(ps);
    WrapKept(ps);
  }

  /** The first pass: the blank lines between paragraphs become two line breaks. */
  lemma BlankLinesToBreaks(ps: seq<string>)
    requires forall i :: 0 <= i < |ps| ==> PlainParagraph(ps[i])
    ensures ReplaceAll(Join(ps, "\n\n"), "\n", LineBreak) == Join(ps, LineBreak + LineBreak)
  {
    ReplaceCharInJoin(ps, "\n\n", '\n', LineBreak);
    DoubleNewline();
  }

  /** The second pass: each pair of line breaks becomes a paragraph break. */
  lemma BreaksToParagraphs(ps: seq<string>)
    requires forall i :: 0 <= i < |ps| ==> PlainParagraph(ps[i])
    ensures ReplaceAll(Join(ps, LineBreak + LineBreak), LineBreak + LineBreak, ParagraphBreak) == Join(ps, ParagraphBreak)
  {
    ReplaceSeparator(ps, LineBreak + LineBreak, ParagraphBreak);
  }

  /** Replacing each newline of "\n\n" gives two line breaks. */
  lemma DoubleNewline()
    ensures ReplaceAll("\n\n", "\n", LineBreak) == LineBreak + LineBreak
  {
    var nl: string := "\n";
    assert "\n\n" == nl + nl;
    ReplaceCharConcat(nl, nl, '\n', LineBreak);
    assert nl <= nl && nl[1..] == [];
    assert ReplaceAll(nl, nl, LineBreak) == LineBreak + ReplaceAll([], nl, LineBreak);
  }

  /** Wrapping a join by paragraph breaks in one more paragraph is wrapping each part. */
  lemma {:induction false} WrapJoin(ps: seq<string>)
    requires |ps| > 0
    ensures "<p>" + Join(ps, ParagraphBreak) + "</p>" == Wrap(ps)
    decreases |ps|
  {
    if |ps| == 1 {
      assert Wrap(ps[1..]) == [];
    } else {
      WrapJoin(ps[1..]);
      var rest := Join(ps[1..], ParagraphBreak);
      assert ParagraphBreak == "</p>" + "<p>";
      calc {
        "<p>" + Join(ps, ParagraphBreak) + "</p>";
        "<p>" + (ps[0] + ("</p>" + "<p>") + rest) + "</p>";
        { Seqs.RegroupAfterThird("<p>", ps[0], "</p>", "<p>", rest, "</p>"); }
        "<p>" + ps[0] + "</p>" + ("<p>" + rest + "</p>");
      }
    }
  }

  /** No empty paragraph occurs in a wrap of plain paragraphs, so the clean-up pass changes nothing. */
  lemma {:induction false} WrapKept(ps: seq<string>)
    requires forall i :: 0 <= i < |ps| ==> PlainParagraph(ps[i])
    ensures ReplaceAll(Wrap(ps), EmptyParagraph, []) == Wrap(ps)
    decreases |ps|
  {
    if |ps| > 0 {
      WrapKept(ps[1..]);
      OneParagraphKept(ps[0], Wrap(ps[1..]));
    } else {
      assert Wrap(ps) == [];
    }
  }

  /** The clean-up pass steps over one plain paragraph element. */
  lemma OneParagraphKept(p: string, rest: string)
    requires PlainParagraph(p)
    ensures ReplaceAll("<p>" + p + "</p>" + rest, EmptyParagraph, []) == "<p>" + p + "</p>" + ReplaceAll(rest, EmptyParagraph, [])
  {
    var lt: string, pgt: string, sgt: string := "<", "p>", "/p>";
    assert "<p>" == lt + pgt && "</p>" == lt + sgt;
    var y := lt + (sgt + rest);
    var x := (pgt + p) + y;
    Seqs.RegroupTag(lt, pgt, p, lt, sgt, rest);
    assert (lt + x)[3] == (pgt + p)[2] == p[0];
    StepOver(lt, x);
    assert '<' !in pgt + p;
    ReplaceAllSkip(pgt + p, y, EmptyParagraph, []);
    assert y[1] == '/';
    StepOver(lt, sgt + rest);
    ReplaceAllSkip(sgt, rest, EmptyParagraph, []);
    Seqs.RegroupTag(lt, pgt, p, lt, sgt, ReplaceAll(rest, EmptyParagraph, []));
  }

  /** Where no empty paragraph starts at the first character, the pass keeps that character. */
  lemma StepOver(lt: string, x: string)
    requires |lt| == 1 && !(EmptyParagraph <= lt + x)
    ensures ReplaceAll(lt + x, EmptyParagraph, []) == lt + ReplaceAll(x, EmptyParagraph, [])
  {
    assert (lt + x)[1..] == x;
    assert [(lt + x)[0]] == lt;
  }

  /** A single plain paragraph is wrapped as it is. */
  lemma SingleParagraph(p: string)
    requires PlainParagraph(p)
    ensures Paragraphs(p) == "<p>" + p + "</p>"
  {
    ParagraphsOfBlankLines([p]);
    assert Wrap([p][1..]) == [];
  }

  /**
   * The multi-line bullet removal: removes a "- " that starts a line, scanning the
   * original text once from left to right. A line starts at the beginning
   * of the text and after every line terminator; removing a "- " does not
   * start a new line.
   */
  function StripBullets(s: string, lineStart: bool): (r: string)
    ensures |r| <= |s|
    decreases |s|
  {
    if |s| == 0 then []
    else if lineStart && |s| >= 2 && s[0] == '-' && s[1] == ' ' then StripBullets(s[2..], false)
    else [s[0]] + StripBullets(s[1..], IsLineTerminator(s[0]))
  }

  /** The session brief of the booking form: bold markers removed, then leading bullets. */
  function Brief(aiBrief: string): (r: string)
    ensures |r| <= |aiBrief|
    ensures NoPair(r, '*')
  {
    var unstarred := ReplaceAll(aiBrief, "**", []);
    PairsRemoved(aiBrief, '*');
    StripKeepsNoStars(unstarred, true);
    ReplaceAllShrinks(aiBrief, "**");
    StripBullets(unstarred, true)
  }

  /** No two consecutive characters of `s` are both `c`. */
  predicate NoPair(s: string, c: char)
  {
    forall i :: 0 <= i < |s| - 1 ==> !(s[i] == c && s[i + 1] == c)
  }

  /** Deleting a pattern never lengthens the text. */
  lemma {:induction false} ReplaceAllShrinks(s: string, pat: string)
    requires |pat| > 0
    ensures |ReplaceAll(s, pat, [])| <= |s|
    decreases |s|
  {
    if |s| > 0 {
      if pat <= s {
        ReplaceAllShrinks(s[|pat|..], pat);
      } else {
        ReplaceAllShrinks(s[1..], pat);
      }
    }
  }

  /**
   * Deleting every "cc" in one left-to-right pass leaves no two adjacent
   * `c`: a `c` that survives is never followed by another, because that pair
   * would have been deleted.
   */
  lemma {:induction false} PairsRemoved(s: string, c: char)
    ensures NoPair(ReplaceAll(s, [c, c], []), c)
    decreases |s|
  {
    var pat := [c, c];
    if |s| > 0 {
      if pat <= s {
        PairsRemoved(s[2..], c);
      } else {
        PairsRemoved(s[1..], c);
        var t := ReplaceAll(s[1..], pat, []);
        var r := [s[0]] + t;
        assert ReplaceAll(s, pat, []) == r;
        if s[0] == c && |s| > 1 {
          assert s[1] != c;
          assert !(pat <= s[1..]);
          assert t[0] == s[1];
        }
        forall i | 0 <= i < |r| - 1
          ensures !(r[i] == c && r[i + 1] == c)
        {
          if i > 0 {
            assert r[i] == t[i - 1] && r[i + 1] == t[i];
          }
        }
      }
    }
  }

  /** Removing leading bullets cannot put two `*` next to each other. */
  lemma {:induction false} StripKeepsNoStars(s: string, lineStart: bool)
    requires NoPair(s, '*')
    ensures NoPair(StripBullets(s, lineStart), '*')
    decreases |s|
  {
    if |s| > 0 {
      if lineStart && |s| >= 2 && s[0] == '-' && s[1] == ' ' {
        StripKeepsNoStars(s[2..], false);
      } else {
        StripKeepsNoStars(s[1..], IsLineTerminator(s[0]));
        var t := StripBullets(s[1..], IsLineTerminator(s[0]));
        var r := [s[0]] + t;
        if s[0] == '*' && |s| > 1 {
          assert t[0] == s[1];
        }
        forall i | 0 <= i < |r| - 1
          ensures !(r[i] == '*' && r[i + 1] == '*')
        {
          if i > 0 {
            assert r[i] == t[i - 1] && r[i + 1] == t[i];
          }
        }
      }
    }
  }

  /** A bulleted line as the brief writer produces it. */
  function Bullet(line: string): string
  {
    "- " + line
  }

  /** One line of a list: no bold markers and no line break inside. */
  predicate ListLine(line: string)
  {
    '*' !in line && forall i :: 0 <= i < |line| ==> !IsLineTerminator(line[i])
  }

  /**
   * The brief clean-up undoes bulleting: lines each prefixed with "- " and
   * joined by newlines come back as the bare lines joined by newlines.
   */
  lemma BriefUnbullets(lines: seq<string>)
    requires forall i :: 0 <= i < |lines| ==> ListLine(lines[i])
    ensures Brief(Join(Seqs.Map(Bullet, lines), "\n")) == Join(lines, "\n")
  {
    var bulleted := Seqs.Map(Bullet, lines);
    forall i | 0 <= i < |bulleted|
      ensures '*' !in bulleted[i]
    {
      BulletHasNoStar(lines[i]);
    }
    var joined := Join(bulleted, "\n");
    JoinAbsent(bulleted, "\n", '*');
    FirstCharAbsent(joined, "**");
    assert ReplaceAll(joined, "**", []) == joined;
    StripJoined(lines);
  }

  lemma BulletHasNoStar(line: string)
    requires '*' !in line
    ensures '*' !in Bullet(line)
  {
    var b := Bullet(line);
    forall k | 0 <= k < |b|
      ensures b[k] != '*'
    {
      if k >= 2 {
        assert b[k] == line[k - 2];
      }
    }
  }

  /** Stripping bullets from bulleted lines joined by newlines, from a line start. */
  lemma {:induction false} StripJoined(lines: seq<string>)
    requires forall i :: 0 <= i < |lines| ==> ListLine(lines[i])
    ensures StripBullets(Join(Seqs.Map(Bullet, lines), "\n"), true) == Join(lines, "\n")
    decreases |lines|
  {
    var bulleted := Seqs.Map(Bullet, lines);
    if |lines| == 1 {
      var s := "- " + lines[0];
      assert s[2..] == lines[0];
      StripMidLine(lines[0], []);
      assert lines[0] + [] == lines[0];
    } else if |lines| > 1 {
      assert bulleted[1..] == Seqs.Map(Bullet, lines[1..]);
      var rest := Join(bulleted[1..], "\n");
      var s := "- " + lines[0] + ("\n" + rest);
      assert Join(bulleted, "\n") == s;
      assert s[2..] == lines[0] + ("\n" + rest);
      StripMidLine(lines[0], "\n" + rest);
      assert ("\n" + rest)[1..] == rest;
      StripJoined(lines[1..]);
    }
  }

  /** Inside a line nothing is removed: the text up to the next line terminator is kept as it is. */
  lemma {:induction false} StripMidLine(line: string, t: string)
    requires forall i :: 0 <= i < |line| ==> !IsLineTerminator(line[i])
    ensures StripBullets(line + t, false) == line + StripBullets(t, false)
    decreases |line|
  {
    if |line| == 0 {
      assert line + t == t;
    } else {
      var s := line + t;
      assert s[0] == line[0] && !IsLineTerminator(s[0]);
      assert s[1..] == line[1..] + t;
      assert StripBullets(s, false) == [line[0]] + StripBullets(line[1..] + t, false);
      StripMidLine(line[1..], t);
      assert line == [line[0]] + line[1..];
    }
  }
}
