/**
 * The NFT minting demo of components/demos/MintNFTDemo.tsx: a form for an
 * artwork, a title and a description, two simulated waits (upload, then
 * mint) and a result card.
 */
module MintDemo {
  import opened Wrappers
  import opened Types

  datatype Step = Initial | Uploading | Minting | Success

  /** The delays, in milliseconds, of the upload and of the mint. */
  const UploadDelay: nat := 1500
  const MintDelay: nat := 3000

  /** `image` is the object URL of the chosen file, `None` for `null`. */
  datatype Session = Session(step: Step, image: Option<string>, title: string, description: string)

  const Init: Session := Session(Initial, None, "", "")

  /** `handleMint`'s guard: an image URL, a title and a description, none of them empty. */
  predicate Complete(d: Session)
  {
    Truthy(d.image) && |d.title| > 0 && |d.description| > 0
  }

  datatype Event =
    | ChooseFile(url: Option<string>)
    | SetTitle(text: string)
    | SetDescription(text: string)
    | MintClicked
    | TimerFired
    | MintAnother

  /**
   * One transition. The form's inputs only exist on the first step; picking
   * no file keeps the earlier image. Minting an incomplete form does
   * nothing. The one pending timer moves uploading to minting and minting
   * to success; "Mint Another" clears everything.
   */
  function Next(d: Session, e: Event): (r: Session)
    ensures e == MintAnother && d.step == Success ==> r == Init
    ensures d.step == Initial && r.step != Initial ==> e == MintClicked && Complete(d) && r.step == Uploading
  {
    match e
    case ChooseFile(url) => if d.step == Initial && url.Some? then d.(image := url) else d
    case SetTitle(text) => if d.step == Initial then d.(title := text) else d
    case SetDescription(text) => if d.step == Initial then d.(description := text) else d
    case MintClicked => if d.step == Initial && Complete(d) then d.(step := Uploading) else d
    case TimerFired =>
      if d.step == Uploading then d.(step := Minting)
      else if d.step == Minting then d.(step := Success)
      else d
    case MintAnother => if d.step == Success then Init else d
  }

  function Run(d: Session, es: seq<Event>): Session
    decreases |es|
  {
    if |es| == 0 then d else Run(Next(d, es[0]), es[1..])
  }

  /** Past the form, the artwork, title and description are all present. */
  predicate Consistent(d: Session)
  {
    d.step != Initial ==> Complete(d)
  }

  lemma {:induction false} RunConsistent(d: Session, es: seq<Event>)
    requires Consistent(d)
    ensures Consistent(Run(d, es))
    decreases |es|
  {
    if |es| > 0 {
      RunConsistent(Next(d, es[0]), es[1..]);
    }
  }

  /** What `renderContent` shows. `MissingImage` is the result card with `image!` null. */
  datatype Screen =
    | FormScreen(preview: Option<string>, title: string, description: string)
    | UploadingScreen
    | MintingScreen
    | ResultScreen(image: string, title: string, description: string)
    | MissingImage

  function Render(d: Session): (r: Screen)
    ensures r.ResultScreen? ==> d.step == Success && Some(r.image) == d.image
    ensures r.FormScreen? <==> d.step == Initial
  {
    match d.step
    case Initial => FormScreen(if Truthy(d.image) then d.image else None, d.title, d.description)
    case Uploading => UploadingScreen
    case Minting => MintingScreen
    case Success => if d.image.Some? then ResultScreen(d.image.value, d.title, d.description) else MissingImage
  }

  /** The non-null assertion on the result card's image always holds: no reachable state shows `MissingImage`. */
  lemma NeverMissingImage(es: seq<Event>)
    ensures Render(Run(Init, es)) != MissingImage
  {
    RunConsistent(Init, es);
  }

  /**
   * A complete form is uploaded, then minted, and after both timers the
   * card shows exactly what was entered; "Mint Another" then brings back
   * the empty form.
   */
  lemma MintShowsEntry(image: string, title: string, description: string)
    requires |image| > 0 && |title| > 0 && |description| > 0
    ensures var d := Session(Initial, Some(image), title, description);
      var done := Next(Next(Next(d, MintClicked), TimerFired), TimerFired);
      Render(done) == ResultScreen(image, title, description)
      && Next(done, MintAnother) == Init
      && Render(Init) == FormScreen(None, "", "")
  {
  }

  /** Without a title, a description or an image the form stays where it is. */
  lemma IncompleteStays(d: Session)
    requires d.step == Initial && !Complete(d)
    ensures Next(d, MintClicked) == d
  {
  }
}
