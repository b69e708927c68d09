/**
 * The lead-capture form that guards the hub (components/Gate.tsx): three
 * required fields and an `isSubmitting` flag that disables the button while
 * the parent's unlock handler runs.
 */
module Gate {
  import opened Wrappers
  import opened Types

  datatype GateForm = GateForm(submitting: bool, name: string, email: string, phone: string)

  const Blank: GateForm := GateForm(false, "", "", "")

  datatype Field = Name | Email | Phone

  /** Typing into one field; the fields stay editable while submitting. */
  function Edit(g: GateForm, f: Field, text: string): (r: GateForm)
    ensures r.submitting == g.submitting
    ensures f == Name ==> r.name == text && r.email == g.email && r.phone == g.phone
    ensures f == Email ==> r.email == text && r.name == g.name && r.phone == g.phone
    ensures f == Phone ==> r.phone == text && r.name == g.name && r.email == g.email
  {
    match f
    case Name => g.(name := text)
    case Email => g.(email := text)
    case Phone => g.(phone := text)
  }

  /**
   * Whether the browser lets the form submit: every `required` field filled
   * in and the button not disabled by `isSubmitting`.
   */
  predicate CanSubmit(g: GateForm)
  {
    !g.submitting && |g.name| > 0 && |g.email| > 0 && |g.phone| > 0
  }

  /** The form after a submit, and what it hands to the unlock handler, if anything. */
  datatype Submitted = Submitted(form: GateForm, payload: Option<LeadInput>)

  /**
   * `handleSubmit`: the button becomes disabled and the handler receives
   * exactly the three typed fields.
   */
  function Submit(g: GateForm): (r: Submitted)
    ensures r.payload.Some? <==> CanSubmit(g)
    ensures r.payload.Some? ==> r.payload.value == LeadInput(g.name, g.email, g.phone)
    ensures r.payload.Some? ==> r.form == g.(submitting := true)
    ensures r.payload.None? ==> r.form == g
  {
    if CanSubmit(g) then Submitted(g.(submitting := true), Some(LeadInput(g.name, g.email, g.phone)))
    else Submitted(g, None)
  }

  /**
   * The awaited handler settles. A rejection re-enables the button so the
   * visitor can retry; on success the flag stays set, because the parent is
   * expected to unmount the form.
   */
  function Settle(g: GateForm, rejected: bool): (r: GateForm)
    ensures r.submitting <==> g.submitting && !rejected
    ensures r.name == g.name && r.email == g.email && r.phone == g.phone
  {
    if rejected then g.(submitting := false) else g
  }

  /** The caption of the submit button. */
  function ButtonLabel(g: GateForm): string
  {
    if g.submitting then "Unlocking..." else "Get My Free Playbook"
  }

  /** Once submitted, the form cannot be submitted again until the handler rejects. */
  lemma NoDoubleSubmit(g: GateForm)
    requires CanSubmit(g)
    ensures Submit(Submit(g).form).payload.None?
    ensures !CanSubmit(Settle(Submit(g).form, false))
    ensures CanSubmit(Settle(Submit(g).form, true))
  {
  }
}
