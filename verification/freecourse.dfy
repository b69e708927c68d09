/**
 * The free-course player of components/FreeCourseExperience.tsx: the
 * modules, the certificate claim, a simulated mint that advances on three
 * timers, and the certificate with its made-up transaction hash.
 */
module FreeCourse {
  import opened Wrappers
  import opened Types
  import CoursePage

  /** One random draw: a whole number from 0 to 15. */
  type Nibble = x: int | 0 <= x < 16

  /** The number of hexadecimal digits after `0x` in a transaction hash. */
  const HashDigits: nat := 64

  /** The sixty-four draws behind one hash. */
  type Draws = s: seq<Nibble> | |s| == HashDigits witness seq(64, i => 0)

  /** `toString(16)` of one draw: a digit or a lower-case letter. */
  function HexChar(d: Nibble): (c: char)
    ensures IsHexChar(c)
  {
    if d < 10 then ('0' as int + d) as char else ('a' as int + d - 10) as char
  }

  predicate IsHexChar(c: char)
  {
    ('0' <= c <= '9') || ('a' <= c <= 'f')
  }

  /** The value of a lower-case hexadecimal digit. */
  function HexValue(c: char): (r: Option<Nibble>)
    ensures r.Some? <==> IsHexChar(c)
  {
    if '0' <= c <= '9' then Some(c as int - '0' as int)
    else if 'a' <= c <= 'f' then Some(c as int - 'a' as int + 10)
    else None
  }

  lemma HexCharValue(d: Nibble)
    ensures HexValue(HexChar(d)) == Some(d)
  {
  }

  function Hex(ds: seq<Nibble>): (r: string)
    ensures |r| == |ds|
    ensures forall i :: 0 <= i < |r| ==> r[i] == HexChar(ds[i])
  {
    if |ds| == 0 then [] else [HexChar(ds[0])] + Hex(ds[1..])
  }

  /** The hash the mint effect builds: `0x` and one digit per draw. */
  function Hash(draws: Draws): (h: string)
    ensures IsHash(h)
  {
    "0x" + Hex(draws)
  }

  /** A well-formed hash: `0x` followed by sixty-four lower-case hexadecimal digits. */
  predicate IsHash(h: string)
  {
    |h| == 2 + HashDigits && h[0] == '0' && h[1] == 'x'
    && forall i :: 2 <= i < |h| ==> IsHexChar(h[i])
  }

  /** Reads the digits back from a string of hexadecimal digits. */
  function ParseHex(s: string): (r: Option<seq<Nibble>>)
    ensures r.Some? ==> |r.value| == |s|
  {
    if |s| == 0 then Some([])
    else match (HexValue(s[0]), ParseHex(s[1..]))
      case (Some(d), Some(rest)) => Some([d] + rest)
      case _ => None
  }

  /** Reads the draws back from a hash. */
  function ParseHash(h: string): (r: Option<seq<Nibble>>)
    ensures r.Some? ==> |r.value| == |h| - 2
  {
    if |h| >= 2 && h[0] == '0' && h[1] == 'x' then ParseHex(h[2..]) else None
  }

  lemma {:induction false} ParseHexRoundTrip(ds: seq<Nibble>)
    ensures ParseHex(Hex(ds)) == Some(ds)
  {
    if |ds| > 0 {
      var s := Hex(ds);
      assert s[1..] == Hex(ds[1..]);
      ParseHexRoundTrip(ds[1..]);
      HexCharValue(ds[0]);
      assert HexValue(s[0]) == Some(ds[0]);
      assert ParseHex(s) == Some([ds[0]] + ds[1..]);
      assert [ds[0]] + ds[1..] == ds;
    }
  }

  /** The hash loses nothing: the draws can be read back from it. */
  lemma HashRoundTrip(draws: Draws)
    ensures ParseHash(Hash(draws)) == Some(draws)
  {
    assert Hash(draws)[2..] == Hex(draws);
    ParseHexRoundTrip(draws);
  }

  datatype Phase = Learning | Claiming | Minting | Success

  /** The message under the spinner while the certificate is issued. */
  datatype Stage = Preparing | Deploying | Confirming

  /** The delays, in milliseconds after the claim, of the three mint timers. */
  const DeployAt: nat := 1500
  const ConfirmAt: nat := 3500
  const FinishAt: nat := 5500

  /** Time spent in the mint is counted in `elapsed`, from the claim. */
  datatype Experience = Experience(phase: Phase, name: string, stage: Stage, hash: string, elapsed: nat)

  const Init: Experience := Experience(Learning, "", Preparing, "", 0)

  /** The stage message the timers have set `t` milliseconds after the claim. */
  function StageAt(t: nat): (s: Stage)
    ensures s == Preparing <==> t < DeployAt
    ensures s == Confirming <==> t >= ConfirmAt
  {
    if t >= ConfirmAt then Confirming else if t >= DeployAt then Deploying else Preparing
  }

  datatype Event =
    | CompleteCourse
    | TypeName(text: string)
    | Claim(draws: Draws)
    | BackToCourse
    | Wait(ms: nat)

  /**
   * One transition. "Complete Course" opens the claim form; the form
   * submits only with a name (the input is `required`), starts the mint and
   * draws the hash; "Back to course" returns to the modules. While minting,
   * waiting fires every timer whose delay has passed: the stage messages at
   * 1.5 s and 3.5 s and the certificate at 5.5 s. Nothing leads back from
   * the mint or the certificate, and the stage message is never reset.
   */
  function Next(x: Experience, e: Event): (r: Experience)
    ensures r.phase == Success ==> x.phase == Minting || x.phase == Success
    ensures x.phase == Success ==> r == x
  {
    match e
    case CompleteCourse => if x.phase == Learning then x.(phase := Claiming) else x
    case TypeName(text) => if x.phase == Claiming then x.(name := text) else x
    case Claim(draws) =>
      if x.phase == Claiming && |x.name| > 0 then x.(phase := Minting, hash := Hash(draws), elapsed := 0) else x
    case BackToCourse => if x.phase == Claiming then x.(phase := Learning) else x
    case Wait(ms) =>
      if x.phase != Minting then x
      else
        var t := x.elapsed + ms;
        Experience(
          if t >= FinishAt then Success else Minting,
          x.name,
          if t >= ConfirmAt then Confirming else if t >= DeployAt then Deploying else x.stage,
          x.hash,
          t)
  }

  function Run(x: Experience, es: seq<Event>): Experience
    decreases |es|
  {
    if |es| == 0 then x else Run(Next(x, es[0]), es[1..])
  }

  /**
   * What every reachable state satisfies: before the claim nothing of the
   * mint has happened; during the mint the stage message is the one the
   * timers have set; and from the claim on the certificate has a name and a
   * well-formed hash.
   */
  predicate Consistent(x: Experience)
  {
    ((x.phase == Learning || x.phase == Claiming) ==> x.stage == Preparing && x.elapsed == 0 && x.hash == "")
    && (x.phase == Minting ==> x.elapsed < FinishAt && x.stage == StageAt(x.elapsed))
    && (x.phase == Success ==> x.elapsed >= FinishAt)
    && ((x.phase == Minting || x.phase == Success) ==> |x.name| > 0 && IsHash(x.hash))
  }

  lemma InitConsistent()
    ensures Consistent(Init)
  {
  }

  lemma NextConsistent(x: Experience, e: Event)
    requires Consistent(x)
    ensures Consistent(Next(x, e))
  {
  }

  lemma {:induction false} RunConsistent(x: Experience, es: seq<Event>)
    requires Consistent(x)
    ensures Consistent(Run(x, es))
    decreases |es|
  {
    if |es| > 0 {
      NextConsistent(x, es[0]);
      RunConsistent(Next(x, es[0]), es[1..]);
    }
  }

  /** What the player shows under the course title. */
  datatype Screen =
    | ModulesScreen(modules: seq<CourseModule>)
    | ClaimScreen(name: string)
    | MintingScreen(stage: Stage)
    | CertificateScreen(name: string, courseTitle: string, hash: string, next: seq<CoursePage.Card>)

  function Render(course: Course, courses: seq<Course>, x: Experience): (r: Screen)
    ensures x.phase == Success <==> r.CertificateScreen?
    ensures r.CertificateScreen? ==> r.courseTitle == course.title && r.next == CoursePage.Cards(courses, course)
  {
    match x.phase
    case Learning => ModulesScreen(course.modules)
    case Claiming => ClaimScreen(x.name)
    case Minting => MintingScreen(x.stage)
    case Success => CertificateScreen(x.name, course.title, x.hash, CoursePage.Cards(courses, course))
  }

  /**
   * The timeline of the mint: `t` milliseconds after claiming, the player
   * shows the stage message for `t`, and from 5.5 s on the certificate
   * with the claimed name and the hash of the draws.
   */
  lemma Timeline(course: Course, courses: seq<Course>, name: string, draws: Draws, t: nat)
    requires |name| > 0
    ensures var claimed := Next(Experience(Claiming, name, Preparing, "", 0), Claim(draws));
      Render(course, courses, Next(claimed, Wait(t)))
      == if t >= FinishAt then CertificateScreen(name, course.title, Hash(draws), CoursePage.Cards(courses, course))
         else MintingScreen(StageAt(t))
  {
  }

  /** Waiting `a` and then `b` milliseconds shows the same as waiting `a + b` at once. */
  lemma WaitSplits(course: Course, courses: seq<Course>, x: Experience, a: nat, b: nat)
    requires Consistent(x)
    ensures Render(course, courses, Next(Next(x, Wait(a)), Wait(b))) == Render(course, courses, Next(x, Wait(a + b)))
  {
  }

  /** Going back from the claim form to the modules keeps the typed name for the next claim. */
  lemma BackKeepsName(x: Experience)
    requires x.phase == Claiming
    ensures Next(Next(x, BackToCourse), CompleteCourse) == x
  {
  }

  /** The claim form does not submit without a name. */
  lemma ClaimNeedsName(x: Experience, draws: Draws)
    requires x.phase == Claiming && x.name == ""
    ensures Next(x, Claim(draws)) == x
  {
  }
}
