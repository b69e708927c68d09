/**
 * The lead log of services/apiService.ts and services/leadService.ts. Both
 * read and write the same browser-storage key; the store is modelled as what
 * each key holds, already decoded (JSON encoding is not modelled). Whether a
 * read or a write throws, the generated id and the capture time are
 * parameters.
 */
module LeadStore {
  import opened Types
  import Seqs

  /** The single key both services use. */
  const LeadsKey: string := "web3hub_leads"

  /** Browser storage: the lead list held under each key. */
  type Store = map<string, seq<Lead>>

  /** Whether two stores agree on every key but the lead log. */
  ghost predicate OthersUnchanged(a: Store, b: Store)
  {
    forall k :: k != LeadsKey ==> (k in a <==> k in b) && (k in a ==> a[k] == b[k])
  }

  /**
   * `getLeadsFromStorage` / `getLeads` (and `fetchLeads`, which resolves to
   * it): the stored list, or the empty list when the key is absent or the
   * read throws.
   */
  function GetLeads(store: Store, readFails: bool): (r: seq<Lead>)
    ensures readFails || LeadsKey !in store ==> r == []
    ensures !readFails && LeadsKey in store ==> r == store[LeadsKey]
  {
    if readFails || LeadsKey !in store then [] else store[LeadsKey]
  }

  /** `saveLeadsToStorage` / `saveLeads`: a failed write is swallowed and leaves the store as it was. */
  function SaveLeads(store: Store, leads: seq<Lead>, writeFails: bool): (r: Store)
    ensures OthersUnchanged(store, r)
    ensures writeFails ==> r == store
    ensures !writeFails ==> LeadsKey in r && r[LeadsKey] == leads
  {
    if writeFails then store else store[LeadsKey := leads]
  }

  /** What a successful save stores is what the next successful read returns. */
  lemma SaveThenGet(store: Store, leads: seq<Lead>)
    ensures GetLeads(SaveLeads(store, leads, false), false) == leads
  {
  }

  /** The lead built from the form: the visitor's fields plus the generated id and capture time. */
  function NewLead(input: LeadInput, id: string, capturedAt: string): (l: Lead)
    ensures l.name == input.name && l.email == input.email && l.phone == input.phone
    ensures l.id == id && l.capturedAt == capturedAt
  {
    Lead(id, input.name, input.email, input.phone, capturedAt)
  }

  /** The lead handed back and the store afterwards. */
  datatype Added = Added(lead: Lead, store: Store)

  /**
   * `submitLead` (apiService) and `addLead` (leadService), which do the same
   * thing: read the log, prepend the new lead, write the log back, and return
   * the lead whatever the write did.
   */
  function AddLead(store: Store, input: LeadInput, id: string, capturedAt: string, readFails: bool, writeFails: bool): (r: Added)
    ensures r.lead == NewLead(input, id, capturedAt)
    ensures OthersUnchanged(store, r.store)
    ensures writeFails ==> r.store == store
    ensures !writeFails ==> GetLeads(r.store, false) == [r.lead] + GetLeads(store, readFails)
  {
    var lead := NewLead(input, id, capturedAt);
    Added(lead, SaveLeads(store, [lead] + GetLeads(store, readFails), writeFails))
  }

  /** With working storage the log grows by exactly one, at the front, and keeps the earlier leads in order. */
  lemma AddPrepends(store: Store, input: LeadInput, id: string, capturedAt: string)
    ensures var after := GetLeads(AddLead(store, input, id, capturedAt, false, false).store, false);
      |after| == |GetLeads(store, false)| + 1
      && after[0] == NewLead(input, id, capturedAt)
      && after[1..] == GetLeads(store, false)
  {
  }

  /**
   * A read that throws makes the earlier log look empty, so a following
   * successful write replaces the whole log with the one new lead.
   */
  lemma ReadFailureDropsLog(store: Store, input: LeadInput, id: string, capturedAt: string)
    ensures GetLeads(AddLead(store, input, id, capturedAt, true, false).store, false) == [NewLead(input, id, capturedAt)]
  {
  }

  /** One submission of the gate form: what was typed and the generated id and time. */
  datatype Submission = Submission(input: LeadInput, id: string, capturedAt: string)

  /** The store after a series of submissions with working storage, oldest first. */
  function AddAll(store: Store, subs: seq<Submission>): Store
    decreases |subs|
  {
    if |subs| == 0 then store
    else AddAll(AddLead(store, subs[0].input, subs[0].id, subs[0].capturedAt, false, false).store, subs[1..])
  }

  /** The leads the submissions create, newest first. */
  function NewestFirst(subs: seq<Submission>): (r: seq<Lead>)
    ensures |r| == |subs|
    decreases |subs|
  {
    if |subs| == 0 then []
    else NewestFirst(subs[1..]) + [NewLead(subs[0].input, subs[0].id, subs[0].capturedAt)]
  }

  /**
   * After any series of submissions the log is their leads, newest first,
   * followed by the log as it was: nothing is lost or reordered.
   */
  lemma {:induction false} AddAllLog(store: Store, subs: seq<Submission>)
    ensures GetLeads(AddAll(store, subs), false) == NewestFirst(subs) + GetLeads(store, false)
    ensures OthersUnchanged(store, AddAll(store, subs))
    decreases |subs|
  {
    if |subs| > 0 {
      var s0 := subs[0];
      var next := AddLead(store, s0.input, s0.id, s0.capturedAt, false, false).store;
      AddAllLog(next, subs[1..]);
      var lead := NewLead(s0.input, s0.id, s0.capturedAt);
      assert GetLeads(next, false) == [lead] + GetLeads(store, false);
      Seqs.Regroup3(NewestFirst(subs[1..]), [lead], GetLeads(store, false));
    }
  }
}
