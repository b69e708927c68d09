/**
 * The DAO voting demo of components/demos/DaoVotingDemo.tsx: two mock
 * proposals and a fixed voting power that can be cast once per proposal.
 */
module Dao {
  import opened Seqs

  datatype Proposal = Proposal(id: int, title: string, proposer: string, votesFor: nat, votesAgainst: nat)

  /** `userVotingPower`. */
  const Power: nat := 5000

  /** `initialProposals` (the long descriptions are not modelled). */
  const Initial: seq<Proposal> := [
    Proposal(1, "Q4 Budget Allocation for Protocol Grants", "0x1234...abcd", 125000, 15000),
    Proposal(2, "Integrate New Cross-Chain Bridge", "0x5678...efgh", 80000, 95000)
  ]

  datatype Choice = For | Against

  datatype Ballot = Ballot(proposals: seq<Proposal>, votedOn: seq<int>)

  const Start: Ballot := Ballot(Initial, [])

  function Cast(p: Proposal, choice: Choice): (r: Proposal)
    ensures r.id == p.id && r.title == p.title && r.proposer == p.proposer
    ensures r.votesFor + r.votesAgainst == p.votesFor + p.votesAgainst + Power
    ensures choice == For ==> r.votesFor == p.votesFor + Power && r.votesAgainst == p.votesAgainst
    ensures choice == Against ==> r.votesAgainst == p.votesAgainst + Power && r.votesFor == p.votesFor
  {
    match choice
    case For => p.(votesFor := p.votesFor + Power)
    case Against => p.(votesAgainst := p.votesAgainst + Power)
  }

  function CastOn(ps: seq<Proposal>, id: int, choice: Choice): (r: seq<Proposal>)
    ensures |r| == |ps|
    ensures forall i :: 0 <= i < |ps| ==> r[i] == if ps[i].id == id then Cast(ps[i], choice) else ps[i]
  {
    if |ps| == 0 then [] else [if ps[0].id == id then Cast(ps[0], choice) else ps[0]] + CastOn(ps[1..], id, choice)
  }

  /**
   * `handleVote`: a second vote on a proposal is ignored; otherwise the
   * power goes to the chosen side of every proposal with the id, and the id
   * is recorded, even when no proposal has it.
   */
  function Vote(b: Ballot, id: int, choice: Choice): (r: Ballot)
    ensures id in b.votedOn ==> r == b
    ensures id !in b.votedOn ==> r.votedOn == b.votedOn + [id] && r.proposals == CastOn(b.proposals, id, choice)
  {
    if id in b.votedOn then b else Ballot(CastOn(b.proposals, id, choice), b.votedOn + [id])
  }

  function Run(b: Ballot, votes: seq<(int, Choice)>): Ballot
    decreases |votes|
  {
    if |votes| == 0 then b else Run(Vote(b, votes[0].0, votes[0].1), votes[1..])
  }

  /**
   * How a ballot stands against the proposals it started from: the same
   * proposals in the same order, each id recorded at most once, and each
   * proposal carrying its starting votes plus the power on exactly one side
   * if its id was recorded, and nothing otherwise.
   */
  predicate Tallied(b: Ballot, start: seq<Proposal>)
  {
    NoDuplicates(b.votedOn)
    && |b.proposals| == |start|
    && forall i :: 0 <= i < |start| ==> Counted(b.proposals[i], start[i], start[i].id in b.votedOn)
  }

  predicate Counted(p: Proposal, s: Proposal, voted: bool)
  {
    p.id == s.id && p.title == s.title && p.proposer == s.proposer
    && (if voted then
          (p.votesFor == s.votesFor + Power && p.votesAgainst == s.votesAgainst)
          || (p.votesAgainst == s.votesAgainst + Power && p.votesFor == s.votesFor)
        else p.votesFor == s.votesFor && p.votesAgainst == s.votesAgainst)
  }

  lemma VoteTallied(b: Ballot, start: seq<Proposal>, id: int, choice: Choice)
    requires Tallied(b, start)
    ensures Tallied(Vote(b, id, choice), start)
  {
    if id !in b.votedOn {
      var r := Vote(b, id, choice);
      forall i | 0 <= i < |start|
        ensures Counted(r.proposals[i], start[i], start[i].id in r.votedOn)
      {
        assert start[i].id in r.votedOn <==> start[i].id in b.votedOn || start[i].id == id;
      }
      forall i, j | 0 <= i < j < |r.votedOn|
        ensures r.votedOn[i] != r.votedOn[j]
      {
        if j == |b.votedOn| {
          assert r.votedOn[i] == b.votedOn[i];
        }
      }
    }
  }

  /**
   * However the visitor votes, every proposal ends with its starting votes
   * plus at most one share of the voting power, on one side, and only if
   * its id was recorded.
   */
  lemma {:induction false} RunTallied(b: Ballot, start: seq<Proposal>, votes: seq<(int, Choice)>)
    requires Tallied(b, start)
    ensures Tallied(Run(b, votes), start)
    decreases |votes|
  {
    if |votes| > 0 {
      VoteTallied(b, start, votes[0].0, votes[0].1);
      RunTallied(Vote(b, votes[0].0, votes[0].1), start, votes[1..]);
    }
  }

  lemma StartTallied()
    ensures Tallied(Start, Initial)
  {
  }

  /** A proposal card: its title and counts, and whether the vote buttons are shown. */
  datatype Card = Card(title: string, votesFor: nat, votesAgainst: nat, canVote: bool)

  function Cards(b: Ballot): (r: seq<Card>)
    ensures |r| == |b.proposals|
    ensures forall i :: 0 <= i < |r| ==> (r[i].canVote <==> b.proposals[i].id !in b.votedOn)
    decreases |b.proposals|
  {
    if |b.proposals| == 0 then []
    else
      var p := b.proposals[0];
      [Card(p.title, p.votesFor, p.votesAgainst, p.id !in b.votedOn)] + Cards(Ballot(b.proposals[1..], b.votedOn))
  }

  /** Voting on a proposal hides its buttons and leaves every other card's buttons as they were. */
  lemma VoteHidesButtons(b: Ballot, id: int, choice: Choice)
    ensures forall i :: 0 <= i < |b.proposals| ==>
      (Cards(Vote(b, id, choice))[i].canVote <==> Cards(b)[i].canVote && b.proposals[i].id != id)
  {
  }

  /** Voting "for" on the first proposal adds the power to its "for" count only. */
  lemma FirstVoteExample()
    ensures Vote(Start, 1, For).proposals == [
      Proposal(1, "Q4 Budget Allocation for Protocol Grants", "0x1234...abcd", 130000, 15000),
      Proposal(2, "Integrate New Cross-Chain Bridge", "0x5678...efgh", 80000, 95000)]
    ensures Vote(Vote(Start, 1, For), 1, Against) == Vote(Start, 1, For)
  {
  }
}
