/**
 * The action directives of chat replies (services/geminiService.ts).
 *
 * The reply text of the language model may contain directives such as
 * `[ACTION: Get My Free Playbook|hub]`. They are found with the global
 * regular expression `\[ACTION:\s*(.*?)\s*\|\s*(.*?)\]`; each match whose
 * trimmed second group names one of five views becomes a button, and every
 * match (permitted or not) is deleted from the text, which is then trimmed.
 *
 * The matcher below follows the backtracking order of that expression:
 *   - the first `\s*` is greedy; a shorter choice only makes the lazy label
 *     start on white space and can never succeed where the longest failed,
 *     so only the longest is tried;
 *   - the lazy label `(.*?)` ends at `x = a, a + 1, ...`, and cannot step
 *     over a line terminator (`.` does not match one);
 *   - for a label end `x`, `\s*\|` succeeds only with the longest white
 *     space (a shorter one is followed by white space, not `|`), then the
 *     greedy `\s*` (again only the longest can work) and the lazy view, which
 *     ends at the first `]` unless a line terminator comes first.
 * Matching at a position depends only on the text from that position on, so
 * the global scan is a recursion on suffixes; the first attempt that
 * succeeds is the match, and the scan resumes right after it.
 */
module Directives {
  import opened Wrappers
  import opened Strings
  import opened Types
  import Seqs

  /** The literal every directive starts with. */
  const Open: string := "[ACTION:"

  /** The five views a chat reply may send the visitor to (geminiService.ts:96). */
  const ChatViewNames: seq<string> := ["home", "hub", "services", "book", "courses"]

  /** Greedy `\s*` from `i`: the first index at or after `i` that is not white space. */
  function SkipSpace(t: string, i: nat): (j: nat)
    requires i <= |t|
    ensures i <= j <= |t|
    ensures forall k :: i <= k < j ==> IsSpace(t[k])
    ensures j == |t| || !IsSpace(t[j])
    decreases |t| - i
  {
    if i == |t| || !IsSpace(t[i]) then i else SkipSpace(t, i + 1)
  }

  /** Lazy `(.*?)\]` from `r`: the first `]`, provided no line terminator comes before it. */
  function CloseAt(t: string, r: nat): (e: Option<nat>)
    requires r <= |t|
    ensures e.Some? ==> r <= e.value < |t| && t[e.value] == ']'
    ensures e.Some? ==> forall k :: r <= k < e.value ==> t[k] != ']' && !IsLineTerminator(t[k])
    decreases |t| - r
  {
    if r == |t| || IsLineTerminator(t[r]) then None
    else if t[r] == ']' then Some(r)
    else CloseAt(t, r + 1)
  }

  /**
   * The positions of one match: the label is `t[a..x]`, the `|` is at `p`,
   * the view is `t[r..e]` and the closing `]` is at `e`.
   */
  datatype Match = Match(a: nat, x: nat, p: nat, r: nat, e: nat)

  /** What the two capture groups hold, before trimming. */
  datatype Capture = Capture(caption: string, target: string)


  /** `m` is a parse of a prefix of `t` by the directive grammar. */
  predicate ParsesAs(t: string, m: Match)
  {
    |Open| <= m.a <= m.x <= m.p < m.r <= m.e < |t|
    && Open <= t
    && SpaceBetween(t, |Open|, m.a)
    && (forall k :: m.a <= k < m.x ==> !IsLineTerminator(t[k]))
    && SpaceBetween(t, m.x, m.p)
    && t[m.p] == '|'
    && SpaceBetween(t, m.p + 1, m.r)
    && (forall k :: m.r <= k < m.e ==> t[k] != ']' && !IsLineTerminator(t[k]))
    && t[m.e] == ']'
  }

  /** The positions of `m` are in order and inside `t`. */
  predicate InBounds(t: string, m: Match)
  {
    |Open| <= m.a <= m.x <= m.p < m.r <= m.e < |t|
  }

  /** `\s*\|\s*(.*?)\]` attempted with the label ending at `x`. */
  function TailAt(t: string, a: nat, x: nat): (m: Option<Match>)
    requires |Open| <= a <= x <= |t|
    ensures m.Some? ==> m.value.a == a && m.value.x == x && InBounds(t, m.value)
  {
    var p := SkipSpace(t, x);
    if p < |t| && t[p] == '|' then
      var r := SkipSpace(t, p + 1);
      match CloseAt(t, r)
      case Some(e) => Some(Match(a, x, p, r, e))
      case None => None
    else None
  }

  /** The lazy label: end it at `x`, else at `x + 1`, ...; `.` cannot step over a line terminator. */
  function LazyLabel(t: string, a: nat, x: nat): (m: Option<Match>)
    requires |Open| <= a <= x <= |t|
    ensures m.Some? ==> m.value.a == a && x <= m.value.x && InBounds(t, m.value)
    decreases |t| - x
  {
    match TailAt(t, a, x)
    case Some(m) => Some(m)
    case None =>
      if x < |t| && !IsLineTerminator(t[x]) then LazyLabel(t, a, x + 1) else None
  }

  /** The regular expression attempted at the start of `t`. */
  function MatchHere(t: string): (m: Option<Match>)
    ensures m.Some? ==> Open <= t && InBounds(t, m.value)
    ensures !(Open <= t) ==> m.None?
  {
    if Open <= t then
      var a := SkipSpace(t, |Open|);
      LazyLabel(t, a, a)
    else None
  }

  /** A match of the tail is a parse by the grammar, given a parse of what precedes the label end. */
  lemma TailAtParses(t: string, a: nat, x: nat)
    requires |Open| <= a <= x <= |t| && Open <= t
    requires SpaceBetween(t, |Open|, a)
    requires forall k :: a <= k < x ==> !IsLineTerminator(t[k])
    requires TailAt(t, a, x).Some?
    ensures ParsesAs(t, TailAt(t, a, x).value)
  {
  }

  /** A match of the lazy label is a parse by the grammar. */
  lemma {:induction false} LazyLabelParses(t: string, a: nat, x: nat)
    requires |Open| <= a <= x <= |t| && Open <= t
    requires SpaceBetween(t, |Open|, a)
    requires forall k :: a <= k < x ==> !IsLineTerminator(t[k])
    requires LazyLabel(t, a, x).Some?
    ensures ParsesAs(t, LazyLabel(t, a, x).value)
    decreases |t| - x
  {
    if TailAt(t, a, x).Some? {
      TailAtParses(t, a, x);
    } else {
      LazyLabelParses(t, a, x + 1);
    }
  }

  /** Every match found is a parse of a prefix of the text by the directive grammar. */
  lemma MatchHereParses(t: string)
    requires MatchHere(t).Some?
    ensures ParsesAs(t, MatchHere(t).value)
  {
    var a := SkipSpace(t, |Open|);
    LazyLabelParses(t, a, a);
  }

  /** The captures of a match, before trimming. */
  function CaptureOf(t: string, m: Match): Capture
    requires InBounds(t, m)
  {
    Capture(t[m.a..m.x], t[m.r..m.e])
  }

  /** The result of scanning a text: what survives the deletion of matches, and every match's captures. */
  datatype Scanned = Scanned(kept: string, found: seq<Capture>)

  /**
   * The global scan: the `exec` loop collects the captures and
   * `replace(regex, '')` deletes the same matches, since both find matches
   * left to right from the start. Every match spans at least ten characters.
   */
  function Scan(t: string): (s: Scanned)
    ensures |s.kept| + 10 * |s.found| <= |t|
    ensures s.found == [] ==> s.kept == t
    decreases |t|
  {
    if |t| == 0 then Scanned([], [])
    else match MatchHere(t)
      case Some(m) =>
        var rest := Scan(t[m.e + 1..]);
        Scanned(rest.kept, [CaptureOf(t, m)] + rest.found)
      case None =>
        var rest := Scan(t[1..]);
        Scanned([t[0]] + rest.kept, rest.found)
  }

  /** What survives the deletion is the text with some characters removed, in order. */
  lemma {:induction false} ScanKeepsOrder(t: string)
    ensures Seqs.IsSubseq(Scan(t).kept, t)
    decreases |t|
  {
    if |t| > 0 {
      match MatchHere(t)
      case Some(m) =>
        ScanKeepsOrder(t[m.e + 1..]);
        Seqs.SubseqOfSuffix(Scan(t).kept, t, m.e + 1);
      case None =>
        ScanKeepsOrder(t[1..]);
        assert Scan(t).kept == [t[0]] + Scan(t[1..]).kept;
    }
  }

  /** A text without the opener has no match: nothing is found and nothing deleted. */
  lemma {:induction false} ScanWithoutOpen(t: string)
    requires !Contains(t, Open)
    ensures Scan(t) == Scanned(t, [])
    decreases |t|
  {
    if |t| > 0 {
      assert MatchHere(t).None?;
      ScanWithoutOpen(t[1..]);
      assert [t[0]] + t[1..] == t;
    }
  }

  /** The views a chat button may lead to. */
  predicate ChatView(v: View)
  {
    v.Home? || v.Hub? || v.Services? || v.Book? || v.Courses?
  }

  /** The permitted views are exactly those whose names are in the list of chat view names. */
  lemma ChatViewNamed(v: View)
    ensures ChatView(v) <==> ViewName(v) in ChatViewNames
  {
  }

  /** The view a captured name denotes, when it is one of the five a chat reply may offer. */
  function ChatTarget(name: string): (v: Option<View>)
    ensures v.Some? <==> name in ChatViewNames
    ensures v.Some? ==> ChatView(v.value)
    ensures v.Some? ==> ViewName(v.value) == name
  {
    if name in ChatViewNames then ViewFromName(name) else None
  }

  /** A button a chat reply can carry: a trimmed caption and a permitted view. */
  predicate Button(act: Action)
  {
    Trimmed(act.caption) && ChatView(act.view)
  }

  /** The button for one capture: trimmed label and view, when the trimmed view is permitted. */
  function ActionOf(c: Capture): (act: Option<Action>)
    ensures act.Some? <==> Trim(c.target) in ChatViewNames
    ensures act.Some? ==> Button(act.value)
    ensures act.Some? ==> ViewName(act.value.view) == Trim(c.target) && act.value.caption == Trim(c.caption)
  {
    match ChatTarget(Trim(c.target))
    case Some(v) => Some(Action(Trim(c.caption), v))
    case None => None
  }

  /** The actions for a list of captures, in order: one per capture whose view is permitted. */
  function ActionsOf(cs: seq<Capture>): (acts: seq<Action>)
    ensures |acts| <= |cs|
    ensures forall i :: 0 <= i < |acts| ==> Button(acts[i])
  {
    if |cs| == 0 then []
    else
      var head := match ActionOf(cs[0]) case Some(act) => [act] case None => [];
      head + ActionsOf(cs[1..])
  }

  /** A parsed chat reply. */
  datatype Reply = Reply(text: string, actions: seq<Action>)

  /**
   * The parsing of `sendMessageToAI`: the buttons of the permitted
   * directives, in order, and the text with every directive deleted and then
   * trimmed.
   */
  function ParseReply(raw: string): (rep: Reply)
    ensures Trimmed(rep.text) && |rep.text| <= |raw|
    ensures forall i :: 0 <= i < |rep.actions| ==> Button(rep.actions[i])
    ensures 10 * |rep.actions| <= |raw|
  {
    var s := Scan(raw);
    Reply(Trim(s.kept), ActionsOf(s.found))
  }

  /** A reply without the directive opener is only trimmed, and has no buttons. */
  lemma ParsePlainReply(raw: string)
    requires !Contains(raw, Open)
    ensures ParseReply(raw) == Reply(Trim(raw), [])
  {
    ScanWithoutOpen(raw);
  }

  // ---------------------------------------------------------------------
  // Rendering directives, and reading them back.
  // ---------------------------------------------------------------------

  /** A directive as the model is instructed to write it: `[ACTION:<caption>|<target>]`. */
  function Directive(caption: string, target: string): string
  {
    Open + caption + "|" + target + "]"
  }

  /** Free text, followed by one directive. */
  datatype Piece = Piece(gap: string, caption: string, target: string)

  predicate NoLineTerminator(s: string)
  {
    forall i :: 0 <= i < |s| ==> !IsLineTerminator(s[i])
  }

  /**
   * A piece that reads back as written: the free text holds no directive
   * opener, the caption no `|`, the target no `]`, neither a line break.
   */
  predicate WellFormed(pc: Piece)
  {
    !Contains(pc.gap, Open)
    && '|' !in pc.caption && NoLineTerminator(pc.caption)
    && ']' !in pc.target && NoLineTerminator(pc.target)
  }

  /** A reply made of pieces and a final stretch of free text. */
  function Render(ps: seq<Piece>, tail: string): string
  {
    if |ps| == 0 then tail
    else ps[0].gap + Directive(ps[0].caption, ps[0].target) + Render(ps[1..], tail)
  }

  /** The free text of a rendered reply. */
  function Gaps(ps: seq<Piece>, tail: string): string
  {
    if |ps| == 0 then tail else ps[0].gap + Gaps(ps[1..], tail)
  }

  /** The buttons a rendered reply should produce: one per piece whose trimmed target is permitted. */
  function Expected(ps: seq<Piece>): seq<Action>
  {
    if |ps| == 0 then []
    else
      var v := ChatTarget(Trim(ps[0].target));
      (if v.Some? then [Action(Trim(ps[0].caption), v.value)] else []) + Expected(ps[1..])
  }

  /** The greedy white-space skip stops exactly at the first non-space. */
  lemma {:induction false} SkipSpaceAt(t: string, i: nat, j: nat)
    requires i <= j <= |t|
    requires forall k :: i <= k < j ==> IsSpace(t[k])
    requires j == |t| || !IsSpace(t[j])
    ensures SkipSpace(t, i) == j
    decreases j - i
  {
    if i < j {
      SkipSpaceAt(t, i + 1, j);
    }
  }

  /** The lazy view stops at the first `]` when no line terminator comes before it. */
  lemma {:induction false} CloseAtFirst(t: string, r: nat, e: nat)
    requires r <= e < |t| && t[e] == ']'
    requires forall k :: r <= k < e ==> t[k] != ']' && !IsLineTerminator(t[k])
    ensures CloseAt(t, r) == Some(e)
    decreases e - r
  {
    if r < e {
      CloseAtFirst(t, r + 1, e);
    }
  }

  /**
   * The lazy label moves past every label end before the last non-space of
   * a `|`-free label: the white space after such an end runs into a label
   * character, not into `|`.
   */
  lemma {:induction false} LazyLabelSkips(t: string, a: nat, x: nat, xs: nat)
    requires Open <= t && |Open| <= a <= x <= xs <= |t|
    requires SpaceBetween(t, |Open|, a)
    requires forall k :: a <= k < xs ==> !IsLineTerminator(t[k]) && t[k] != '|'
    requires a < xs ==> !IsSpace(t[xs - 1])
    ensures LazyLabel(t, a, x) == LazyLabel(t, a, xs)
    decreases xs - x
  {
    if x < xs {
      LazyLabelStep(t, a, x, xs);
      LazyLabelSkips(t, a, x + 1, xs);
    }
  }

  /** A label end before the last non-space fails, and the lazy label tries the next end. */
  lemma LazyLabelStep(t: string, a: nat, x: nat, xs: nat)
    requires Open <= t && |Open| <= a <= x < xs <= |t|
    requires SpaceBetween(t, |Open|, a)
    requires forall k :: a <= k < xs ==> !IsLineTerminator(t[k]) && t[k] != '|'
    requires !IsSpace(t[xs - 1])
    ensures LazyLabel(t, a, x) == LazyLabel(t, a, x + 1)
  {
    var p := SkipSpace(t, x);
    assert p <= xs - 1;
    assert TailAt(t, a, x).None?;
  }

  /**
   * The label part of a directive laid out in `t`: white space up to `a`, a
   * label `t[a..xs]` without `|` or line terminators that ends in a
   * non-space, and white space up to the `|` at `bar`.
   */
  predicate LabelLayout(t: string, a: nat, xs: nat, bar: nat)
  {
    Open <= t && |Open| <= a <= xs <= bar < |t|
    && (forall k :: |Open| <= k < a ==> IsSpace(t[k]))
    && (a == bar || !IsSpace(t[a]))
    && (forall k :: a <= k < xs ==> !IsLineTerminator(t[k]) && t[k] != '|')
    && (a < xs ==> !IsSpace(t[xs - 1]))
    && (forall k :: xs <= k < bar ==> IsSpace(t[k]))
    && t[bar] == '|'
  }

  /** The view part of a directive laid out in `t`: white space from `bar + 1` to `r`, then a view up to the first `]` at `e`. */
  predicate ViewLayout(t: string, bar: nat, r: nat, e: nat)
  {
    bar < r <= e < |t|
    && (forall k :: bar + 1 <= k < r ==> IsSpace(t[k]))
    && (r == e || !IsSpace(t[r]))
    && (forall k :: r <= k < e ==> t[k] != ']' && !IsLineTerminator(t[k]))
    && t[e] == ']'
  }

  /** The match found when the text is laid out as a directive. */
  lemma MatchLayout(t: string, a: nat, xs: nat, bar: nat, r: nat, e: nat)
    requires LabelLayout(t, a, xs, bar) && ViewLayout(t, bar, r, e)
    ensures MatchHere(t) == Some(Match(a, xs, bar, r, e))
  {
    SkipSpaceAt(t, |Open|, a);
    assert SpaceBetween(t, |Open|, a);
    LazyLabelSkips(t, a, a, xs);
    TailMatches(t, a, xs, bar, r, e);
  }

  /** With the label ending at `xs`, the rest of the expression matches up to the `]` at `e`. */
  lemma TailMatches(t: string, a: nat, xs: nat, bar: nat, r: nat, e: nat)
    requires Open <= t && |Open| <= a <= xs <= bar < r <= e < |t|
    requires SpaceBetween(t, |Open|, a)
    requires forall k :: a <= k < xs ==> !IsLineTerminator(t[k])
    requires forall k :: xs <= k < bar ==> IsSpace(t[k])
    requires t[bar] == '|'
    requires forall k :: bar + 1 <= k < r ==> IsSpace(t[k])
    requires r == e || !IsSpace(t[r])
    requires forall k :: r <= k < e ==> t[k] != ']' && !IsLineTerminator(t[k])
    requires t[e] == ']'
    ensures TailAt(t, a, xs) == Some(Match(a, xs, bar, r, e))
  {
    SkipSpaceAt(t, xs, bar);
    SkipSpaceAt(t, bar + 1, r);
    CloseAtFirst(t, r, e);
  }

  /** `part` sits in `t` from index `n` on. */
  predicate PartAt(t: string, part: string, n: nat)
    decreases |part|
  {
    n + |part| <= |t| && (|part| == 0 || (t[n] == part[0] && PartAt(t, part[1..], n + 1)))
  }

  /** A part sits in a text made of what precedes it, itself and what follows it. */
  lemma {:induction false} PartOf(pre: string, part: string, post: string)
    ensures PartAt(pre + part + post, part, |pre|)
    decreases |part|
  {
    if |part| > 0 {
      var pre' := pre + [part[0]];
      PartOf(pre', part[1..], post);
      assert pre' + part[1..] + post == pre + part + post;
    }
  }

  /** A character of a part sitting in the text. */
  lemma {:induction false} CharAt(t: string, part: string, n: nat, k: nat, i: nat)
    requires PartAt(t, part, n) && i < |part| && k == n + i
    ensures k < |t| && t[k] == part[i]
    decreases |part|
  {
    if i > 0 {
      CharAt(t, part[1..], n + 1, k, i - 1);
    }
  }

  /**
   * Where the parts of a rendered directive sit in the text: the opener,
   * the caption, the `|`, the target and the closing `]`.
   */
  predicate DirectiveAt(t: string, caption: string, target: string)
  {
    var bar := |Open| + |caption|;
    && Open <= t
    && PartAt(t, caption, |Open|)
    && bar + 1 + |target| < |t|
    && t[bar] == '|'
    && PartAt(t, target, bar + 1)
    && t[bar + 1 + |target|] == ']'
  }

  /** A rendered directive, followed by anything, is laid out as a directive. */
  lemma DirectiveLayout(caption: string, target: string, rest: string)
    ensures DirectiveAt(Directive(caption, target) + rest, caption, target)
  {
    var t := Directive(caption, target) + rest;
    OpenPlaced(caption, target, rest);
    CaptionPlaced(caption, target, rest);
    TargetPlaced(caption, target, rest);
  }

  lemma OpenPlaced(caption: string, target: string, rest: string)
    ensures Open <= Directive(caption, target) + rest
  {
    var t := Directive(caption, target) + rest;
    assert t == Open + (caption + "|" + target + "]" + rest);
  }

  lemma CaptionPlaced(caption: string, target: string, rest: string)
    ensures PartAt(Directive(caption, target) + rest, caption, |Open|)
    ensures (Directive(caption, target) + rest)[|Open| + |caption|] == '|'
  {
    var t := Directive(caption, target) + rest;
    Seqs.RegroupAfterTwo(Open, caption, "|", target, "]", rest);
    PartOf(Open, caption, "|" + target + "]" + rest);
  }

  lemma TargetPlaced(caption: string, target: string, rest: string)
    ensures PartAt(Directive(caption, target) + rest, target, |Open| + |caption| + 1)
    ensures |Open| + |caption| + 1 + |target| < |Directive(caption, target) + rest|
    ensures (Directive(caption, target) + rest)[|Open| + |caption| + 1 + |target|] == ']'
  {
    var t := Directive(caption, target) + rest;
    Seqs.RegroupAroundFourth(Open, caption, "|", target, "]", rest);
    PartOf(Open + caption + "|", target, "]" + rest);
  }

  /** Where a `|`-free caption sits in the text, the label part of the directive is laid out. */
  lemma CaptionInText(t: string, caption: string, a: nat, xs: nat, bar: nat)
    requires '|' !in caption && NoLineTerminator(caption)
    requires Open <= t && PartAt(t, caption, |Open|)
    requires bar == |Open| + |caption| && bar < |t| && t[bar] == '|'
    requires a == |Open| + LeadCount(caption) && xs == a + |Trim(caption)|
    ensures LabelLayout(t, a, xs, bar)
  {
    var n := |Open|;
    LeadInText(t, caption, n);
    LabelInText(t, caption, n, a, xs);
    TrailInText(t, caption, n);
    LabelStartInText(t, caption, n, a);
    if a < xs {
      LabelEndInText(t, caption, n, a, xs);
    }
  }

  /** The trimmed part of a part sitting in the text starts with a non-space, unless the part is all white space. */
  lemma LabelStartInText(t: string, part: string, n: nat, a: nat)
    requires PartAt(t, part, n) && a == n + LeadCount(part)
    ensures a == n + |part| || !IsSpace(t[a])
  {
    if a < n + |part| {
      CharAt(t, part, n, a, LeadCount(part));
    }
  }

  /** A non-empty trimmed part sitting in the text ends with a non-space. */
  lemma LabelEndInText(t: string, part: string, n: nat, a: nat, xs: nat)
    requires PartAt(t, part, n)
    requires a == n + LeadCount(part) && xs == a + |Trim(part)| && a < xs
    ensures !IsSpace(t[xs - 1])
  {
    TrimLastChar(part);
    CharAt(t, part, n, xs - 1, LeadCount(part) + |Trim(part)| - 1);
  }

  /** The leading white space of a part sitting in the text. */
  lemma LeadInText(t: string, part: string, n: nat)
    requires PartAt(t, part, n)
    ensures forall k :: n <= k < n + LeadCount(part) ==> IsSpace(t[k])
  {
    forall k | n <= k < n + LeadCount(part)
      ensures IsSpace(t[k])
    {
      CharAt(t, part, n, k, k - n);
      LeadChar(part, k - n);
    }
  }

  /** The trailing white space of a part sitting in the text. */
  lemma TrailInText(t: string, part: string, n: nat)
    requires PartAt(t, part, n)
    ensures forall k :: n + LeadCount(part) + |Trim(part)| <= k < n + |part| ==> IsSpace(t[k])
  {
    forall k | n + LeadCount(part) + |Trim(part)| <= k < n + |part|
      ensures IsSpace(t[k])
    {
      CharAt(t, part, n, k, k - n);
      TrailChar(part, k - n);
    }
  }

  /** The characters of a `|`-free part without line terminators, sitting in the text. */
  lemma LabelInText(t: string, part: string, n: nat, i: nat, j: nat)
    requires PartAt(t, part, n) && '|' !in part && NoLineTerminator(part)
    requires n <= i <= j <= n + |part|
    ensures forall k :: i <= k < j ==> !IsLineTerminator(t[k]) && t[k] != '|'
  {
    forall k | i <= k < j
      ensures !IsLineTerminator(t[k]) && t[k] != '|'
    {
      CharAt(t, part, n, k, k - n);
      assert part[k - n] in part;
    }
  }

  /** Where a `]`-free target sits in the text, followed by `]`, the view part of the directive is laid out. */
  lemma TargetInText(t: string, target: string, bar: nat, r: nat, e: nat)
    requires ']' !in target && NoLineTerminator(target)
    requires PartAt(t, target, bar + 1)
    requires e == bar + 1 + |target| && e < |t| && t[e] == ']'
    requires r == bar + 1 + LeadCount(target)
    ensures ViewLayout(t, bar, r, e)
  {
    var m := bar + 1;
    LeadInText(t, target, m);
    ViewInText(t, target, m, r, e);
    if r < e {
      CharAt(t, target, m, r, LeadCount(target));
    }
  }

  /** The characters of a `]`-free part without line terminators, sitting in the text. */
  lemma ViewInText(t: string, part: string, n: nat, i: nat, j: nat)
    requires PartAt(t, part, n) && ']' !in part && NoLineTerminator(part)
    requires n <= i <= j <= n + |part|
    ensures forall k :: i <= k < j ==> t[k] != ']' && !IsLineTerminator(t[k])
  {
    forall k | i <= k < j
      ensures t[k] != ']' && !IsLineTerminator(t[k])
    {
      CharAt(t, part, n, k, k - n);
      assert part[k - n] in part;
    }
  }

  /** The positions of the match of a directive with this caption and target, laid out from the start of the text. */
  function DirectiveMatch(caption: string, target: string): Match
  {
    var bar := |Open| + |caption|;
    var a := |Open| + LeadCount(caption);
    Match(a, a + |Trim(caption)|, bar, bar + 1 + LeadCount(target), bar + 1 + |target|)
  }

  /** A text laid out as a directive is matched in full. */
  lemma LaidOutMatches(t: string, caption: string, target: string)
    requires '|' !in caption && NoLineTerminator(caption)
    requires ']' !in target && NoLineTerminator(target)
    requires DirectiveAt(t, caption, target)
    ensures MatchHere(t) == Some(DirectiveMatch(caption, target))
  {
    var m := DirectiveMatch(caption, target);
    CaptionInText(t, caption, m.a, m.x, m.p);
    TargetInText(t, target, m.p, m.r, m.e);
    MatchLayout(t, m.a, m.x, m.p, m.r, m.e);
  }

  /** The captures of a text laid out as a directive: the trimmed caption, and the target without its leading white space. */
  lemma LaidOutCaptures(t: string, caption: string, target: string)
    requires DirectiveAt(t, caption, target)
    ensures DirectiveMatch(caption, target).e < |t|
    ensures t[DirectiveMatch(caption, target).a..DirectiveMatch(caption, target).x] == Trim(caption)
    ensures t[DirectiveMatch(caption, target).r..DirectiveMatch(caption, target).e] == target[LeadCount(target)..]
  {
    var m := DirectiveMatch(caption, target);
    TrimmedPartAt(t, caption, |Open|, m.a, m.x);
    SuffixPartAt(t, target, m.p + 1, m.r, m.e);
  }

  /** A slice of a part sitting in the text is the same slice of the text, shifted. */
  lemma SliceOfPart(t: string, part: string, n: nat, i: nat, j: nat, u: nat, v: nat)
    requires PartAt(t, part, n) && i <= j <= |part|
    requires u == n + i && v == n + j
    ensures v <= |t| && t[u..v] == part[i..j]
  {
    forall q | 0 <= q < j - i
      ensures t[u..v][q] == part[i..j][q]
    {
      CharAt(t, part, n, u + q, i + q);
    }
  }

  /** The trimmed part of a part sitting in the text. */
  lemma TrimmedPartAt(t: string, part: string, n: nat, u: nat, v: nat)
    requires PartAt(t, part, n)
    requires u == n + LeadCount(part) && v == u + |Trim(part)|
    ensures v <= |t| && t[u..v] == Trim(part)
  {
    var lc := LeadCount(part);
    var tr := Trim(part);
    TrimShape(part);
    SliceOfPart(t, part, n, lc, lc + |tr|, u, v);
  }

  /** The part of a part sitting in the text that follows its leading white space. */
  lemma SuffixPartAt(t: string, part: string, n: nat, u: nat, v: nat)
    requires PartAt(t, part, n)
    requires u == n + LeadCount(part) && v == n + |part|
    ensures v <= |t| && t[u..v] == part[LeadCount(part)..]
  {
    assert part[LeadCount(part)..] == part[LeadCount(part)..|part|];
    SliceOfPart(t, part, n, LeadCount(part), |part|, u, v);
  }

  /** A rendered directive is consumed whole by the scan, yielding its captures. */
  lemma ScanDirective(caption: string, target: string, rest: string)
    requires '|' !in caption && NoLineTerminator(caption)
    requires ']' !in target && NoLineTerminator(target)
    ensures Scan(Directive(caption, target) + rest)
      == Scanned(Scan(rest).kept, [Capture(Trim(caption), target[LeadCount(target)..])] + Scan(rest).found)
  {
    var t := Directive(caption, target) + rest;
    DirectiveLayout(caption, target, rest);
    ScanLaidOut(t, caption, target);
    RestAfter(caption, target, rest);
  }

  /** A text laid out as a directive: the scan records its captures and resumes after its `]`. */
  lemma ScanLaidOut(t: string, caption: string, target: string)
    requires '|' !in caption && NoLineTerminator(caption)
    requires ']' !in target && NoLineTerminator(target)
    requires DirectiveAt(t, caption, target)
    ensures Scan(t) == Scanned(Scan(t[|Open| + |caption| + |target| + 2..]).kept,
      [Capture(Trim(caption), target[LeadCount(target)..])] + Scan(t[|Open| + |caption| + |target| + 2..]).found)
  {
    LaidOutMatches(t, caption, target);
    LaidOutCaptures(t, caption, target);
    var m := DirectiveMatch(caption, target);
    var after := t[|Open| + |caption| + |target| + 2..];
    var c := Capture(Trim(caption), target[LeadCount(target)..]);
    assert t[m.e + 1..] == after;
    assert CaptureOf(t, m) == c;
    ScanMatchHere(t, m, after, c);
  }

  /** What follows a rendered directive. */
  lemma RestAfter(caption: string, target: string, rest: string)
    ensures (Directive(caption, target) + rest)[|Open| + |caption| + |target| + 2..] == rest
  {
  }

  /** Where a directive starts, its captures are recorded and the scan resumes after it. */
  lemma ScanMatchHere(t: string, m: Match, after: string, c: Capture)
    requires MatchHere(t) == Some(m)
    requires after == t[m.e + 1..] && c == CaptureOf(t, m)
    ensures Scan(t) == Scanned(Scan(after).kept, [c] + Scan(after).found)
  {
    assert |t| > 0 && MatchHere(t).value == m;
  }

  /** Where no directive starts, the first character is kept and the scan moves on by one. */
  lemma ScanNoMatchHere(t: string)
    requires |t| > 0 && !(Open <= t)
    ensures Scan(t) == Scanned([t[0]] + Scan(t[1..]).kept, Scan(t[1..]).found)
  {
  }

  /** A directive cannot start inside free text without the opener when what follows starts with `[`. */
  lemma NoOpenInGap(g: string, u: string)
    requires |g| > 0 && !Contains(g, Open)
    requires |u| == 0 || u[0] == '['
    ensures !(Open <= g + u)
  {
    var t := g + u;
    assert !(Open <= g);
    if |g| < |Open| && |u| > 0 {
      assert t[|g|] == '[';
      assert Open[|g|] != '[';
    }
  }

  /** Free text without the opener never starts a match, and scanning passes over it unchanged. */
  lemma {:induction false} ScanGap(g: string, u: string)
    requires !Contains(g, Open)
    requires |u| == 0 || u[0] == '['
    ensures Scan(g + u) == Scanned(g + Scan(u).kept, Scan(u).found)
    decreases |g|
  {
    if |g| == 0 {
      assert g + u == u;
    } else {
      var t := g + u;
      NoOpenInGap(g, u);
      assert t[1..] == g[1..] + u;
      ScanNoMatchHere(t);
      ScanGap(g[1..], u);
      Seqs.ConsConcat(g, Scan(u).kept);
    }
  }

  /** One piece: the free text is kept, the directive is consumed and yields its captures. */
  lemma ScanPiece(pc: Piece, rest: string)
    requires WellFormed(pc)
    ensures Scan(pc.gap + Directive(pc.caption, pc.target) + rest)
      == Scanned(pc.gap + Scan(rest).kept,
                 [Capture(Trim(pc.caption), pc.target[LeadCount(pc.target)..])] + Scan(rest).found)
  {
    var u := Directive(pc.caption, pc.target) + rest;
    ScanDirective(pc.caption, pc.target, rest);
    ScanGap(pc.gap, u);
    Seqs.Regroup3(pc.gap, Directive(pc.caption, pc.target), rest);
  }

  /** Scanning a rendered reply recovers the free text and the captures of every directive, in order. */
  lemma {:induction false} ScanRender(ps: seq<Piece>, tail: string)
    requires forall i :: 0 <= i < |ps| ==> WellFormed(ps[i])
    requires !Contains(tail, Open)
    ensures Scan(Render(ps, tail)).kept == Gaps(ps, tail)
    ensures ActionsOf(Scan(Render(ps, tail)).found) == Expected(ps)
    decreases |ps|
  {
    if |ps| == 0 {
      ScanWithoutOpen(tail);
    } else {
      var pc := ps[0];
      var rest := Render(ps[1..], tail);
      ScanRender(ps[1..], tail);
      ScanPiece(pc, rest);
      var c := Capture(Trim(pc.caption), pc.target[LeadCount(pc.target)..]);
      var cs := [c] + Scan(rest).found;
      assert cs[1..] == Scan(rest).found;
      TrimViewCapture(pc.target);
      TrimIdempotent(pc.caption);
    }
  }

  /** Trimming the view capture is trimming the whole target. */
  lemma TrimViewCapture(target: string)
    ensures Trim(target[LeadCount(target)..]) == Trim(target)
  {
    var lt := LeadCount(target);
    var tr := Trim(target);
    TrimShape(target);
    TrailIsSpace(target);
    Seqs.SuffixAround(target, lt, lt + |tr|, tr);
    TrimPaddedAt(target[lt..], [], tr, target[lt + |tr|..]);
  }

  /**
   * Parsing a rendered reply gives the trimmed free text and one button per
   * directive with a permitted view, in order: parsing inverts rendering.
   */
  lemma ParseRender(ps: seq<Piece>, tail: string)
    requires forall i :: 0 <= i < |ps| ==> WellFormed(ps[i])
    requires !Contains(tail, Open)
    ensures ParseReply(Render(ps, tail)) == Reply(Trim(Gaps(ps, tail)), Expected(ps))
  {
    ScanRender(ps, tail);
  }

  /**
   * A directive cut in two by another directive is re-assembled by the
   * deletion: the inner one becomes a button and the outer one is left in the
   * text as a complete directive (the scan is not repeated).
   */
  lemma SpliceExample()
    ensures ParseReply("[ACT[ACTION: a|hub]ION: b|hub]") == Reply("[ACTION: b|hub]", [Action("a", Hub)])
    ensures Contains(ParseReply("[ACT[ACTION: a|hub]ION: b|hub]").text, Open)
  {
    var ps := [Piece("[ACT", " a", "hub")];
    var tail := "ION: b|hub]";
    SpliceWellFormed(ps, tail);
    SpliceRender(ps, tail);
    ParseRender(ps, tail);
    SpliceText(ps, tail);
    SpliceButton(ps);
    assert Open <= "[ACTION: b|hub]";
  }

  /** The spliced reply is made of one well-formed piece and a tail without the opener. */
  lemma SpliceWellFormed(ps: seq<Piece>, tail: string)
    requires ps == [Piece("[ACT", " a", "hub")] && tail == "ION: b|hub]"
    ensures forall i :: 0 <= i < |ps| ==> WellFormed(ps[i])
    ensures !Contains(tail, Open)
  {
    ShortNotContains("[ACT", Open);
    FirstCharAbsent(tail, Open);
  }

  lemma SpliceRender(ps: seq<Piece>, tail: string)
    requires ps == [Piece("[ACT", " a", "hub")] && tail == "ION: b|hub]"
    ensures Render(ps, tail) == "[ACT[ACTION: a|hub]ION: b|hub]"
  {
    assert ps[1..] == [];
  }

  /** The free text of the spliced reply is the outer directive, already trimmed. */
  lemma SpliceText(ps: seq<Piece>, tail: string)
    requires ps == [Piece("[ACT", " a", "hub")] && tail == "ION: b|hub]"
    ensures Trim(Gaps(ps, tail)) == "[ACTION: b|hub]"
  {
    assert ps[1..] == [];
    assert Gaps(ps, tail) == "[ACTION: b|hub]";
    TrimPadded([], "[ACTION: b|hub]", []);
    assert [] + "[ACTION: b|hub]" + [] == "[ACTION: b|hub]";
  }

  /** The inner directive yields the button labelled `a` for the learning hub. */
  lemma SpliceButton(ps: seq<Piece>)
    requires ps == [Piece("[ACT", " a", "hub")]
    ensures Expected(ps) == [Action("a", Hub)]
  {
    TrimSpaceA();
    TrimHub();
    assert ChatTarget("hub") == Some(Hub);
    assert ps[1..] == [];
  }

  lemma TrimSpaceA()
    ensures Trim(" a") == "a"
  {
    TrimPadded([' '], "a", []);
    assert [' '] + "a" + [] == " a";
  }

  lemma TrimHub()
    ensures Trim("hub") == "hub"
  {
    TrimPadded([], "hub", []);
    assert [] + "hub" + [] == "hub";
  }
}
