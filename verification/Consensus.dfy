/**
 Majority and unanimity among agent responses (src/consensus/mod.rs).
 */
module Consensus {
  import opened Wrappers

  datatype AgentResponse = AgentResponse(agent: string, content: string, timedOut: bool)

  datatype Strategy = Majority | Unanimous

  datatype ConsensusResult = ConsensusResult(
    decision: Option<string>, responses: seq<AgentResponse>, strategyUsed: Strategy, consensusReached: bool)

  /** The contents of the responses that have not timed out. */
  function Active(responses: seq<AgentResponse>): seq<string> {
    if responses == [] then [] else Vote(responses[0]) + Active(responses[1..])
  }

  function Vote(response: AgentResponse): seq<string> {
    if response.timedOut then [] else [response.content]
  }

  /** How often `c` was answered, timed-out responses left aside. */
  function Votes(responses: seq<AgentResponse>, c: string): nat {
    multiset(Active(responses))[c]
  }

  /** More than half of the votes. */
  predicate StrictMajority(responses: seq<AgentResponse>, c: string) {
    2 * Votes(responses, c) > |Active(responses)|
  }

  /** `counts` holds the number of times each string occurs in `votes`. */
  ghost predicate Counts(counts: map<string, nat>, votes: seq<string>) {
    && (forall c :: c in counts <==> c in votes)
    && (forall c | c in counts :: counts[c] == multiset(votes)[c])
  }

  method CountVotes(votes: seq<string>) returns (counts: map<string, nat>)
    ensures Counts(counts, votes)
  {
    counts := map[];
    for i := 0 to |votes|
      invariant Counts(counts, votes[..i])
    {
      CountOne(counts, votes, i);
      counts := counts[votes[i] := (if votes[i] in counts then counts[votes[i]] else 0) + 1];
    }
    assert votes[..|votes|] == votes;
  }

  lemma CountOne(counts: map<string, nat>, votes: seq<string>, i: nat)
    requires i < |votes| && Counts(counts, votes[..i])
    ensures Counts(counts[votes[i] := (if votes[i] in counts then counts[votes[i]] else 0) + 1], votes[..i + 1])
  {
    assert votes[..i + 1] == votes[..i] + [votes[i]];
    if votes[i] !in counts {
      assert multiset(votes[..i])[votes[i]] == 0;
    }
  }

  /** Some entry of greatest count, whichever the iteration order of the hash map turns up. */
  method PickWinner(counts: map<string, nat>) returns (winner: string)
    requires counts != map[]
    ensures winner in counts && forall c | c in counts :: counts[c] <= counts[winner]
  {
    var left := counts.Keys;
    var first :| first in counts;
    winner := first;
    while left != {}
      invariant left <= counts.Keys && winner in counts
      invariant forall c | c in counts && c !in left :: counts[c] <= counts[winner]
      decreases left
    {
      var c :| c in left;
      left := left - {c};
      if counts[winner] <= counts[c] {
        winner := c;
      }
    }
  }

  /** The pick among equals depends on the hash order; the decision does not: it is the strict majority, if there is one. */
  method ResolveMajority(responses: seq<AgentResponse>) returns (r: ConsensusResult)
    ensures forall c :: r.decision == Some(c) <==> StrictMajority(responses, c)
    ensures r.consensusReached == r.decision.Some? && r.responses == responses && r.strategyUsed == Majority
  {
    var active := Active(responses);
    if active == [] {
      return ConsensusResult(None, responses, Majority, false);
    }
    var counts := CountVotes(active);
    assert active[0] in counts;
    var winner := PickWinner(counts);
    var threshold := |active| / 2 + 1;
    var reached := counts[winner] >= threshold;
    forall c ensures (reached && c == winner) <==> StrictMajority(responses, c) {
      MajorityIsTheWinner(active, counts, winner, c);
    }
    r := ConsensusResult(if reached then Some(winner) else None, responses, Majority, reached);
  }

  lemma MajorityIsTheWinner(votes: seq<string>, counts: map<string, nat>, winner: string, c: string)
    requires Counts(counts, votes) && winner in counts && forall d | d in counts :: counts[d] <= counts[winner]
    ensures (counts[winner] >= |votes| / 2 + 1 && c == winner) <==> 2 * multiset(votes)[c] > |votes|
  {
    TwoShareTheVotes(votes, winner, c);
  }

  /** Different answers share the votes. */
  lemma {:induction false} TwoShareTheVotes(votes: seq<string>, a: string, b: string)
    ensures a != b ==> multiset(votes)[a] + multiset(votes)[b] <= |votes|
    ensures multiset(votes)[a] <= |votes|
    ensures a in votes <==> multiset(votes)[a] > 0
    ensures b in votes <==> multiset(votes)[b] > 0
  {
    if votes != [] {
      TwoShareTheVotes(votes[1..], a, b);
      assert votes == [votes[0]] + votes[1..];
    }
  }

  /** The indices of the responses that count for `c`: not timed out, and answering just that. */
  function VotersFor(responses: seq<AgentResponse>, c: string): set<int> {
    set i | 0 <= i < |responses| && Backs(responses[i], c)
  }

  predicate Backs(response: AgentResponse, c: string) {
    !response.timedOut && response.content == c
  }

  function Voters(responses: seq<AgentResponse>): set<int> {
    set i | 0 <= i < |responses| && !responses[i].timedOut
  }

  /** Votes are counted by responses, whoever sent them: one for each that has not timed out and answers `c`. */
  lemma {:induction false} VotesCountResponses(responses: seq<AgentResponse>, c: string)
    ensures Votes(responses, c) == |VotersFor(responses, c)|
    ensures |Active(responses)| == |Voters(responses)|
    decreases |responses|
  {
    if responses == [] {
      assert VotersFor(responses, c) == {} && Voters(responses) == {};
    } else {
      var n := |responses| - 1;
      assert responses == responses[..n] + [responses[n]];
      hide Active, Votes, Voters, VotersFor;
      VotesCountResponses(responses[..n], c);
      VotesSnoc(responses[..n], responses[n], c);
      VotersSnoc(responses[..n], responses[n], c);
    }
  }

  lemma VotesSnoc(responses: seq<AgentResponse>, last: AgentResponse, c: string)
    ensures Votes(responses + [last], c) == Votes(responses, c) + if !last.timedOut && last.content == c then 1 else 0
    ensures |Active(responses + [last])| == |Active(responses)| + if last.timedOut then 0 else 1
  {
    ActiveConcat(responses, [last]);
    OneVote(last);
    hide Active;
  }

  lemma VotersSnoc(responses: seq<AgentResponse>, last: AgentResponse, c: string)
    ensures |VotersFor(responses + [last], c)| == |VotersFor(responses, c)| + if !last.timedOut && last.content == c then 1 else 0
    ensures |Voters(responses + [last])| == |Voters(responses)| + if last.timedOut then 0 else 1
  {
    BackersSnoc(responses, last, c);
    AnswersSnoc(responses, last);
    hide VotersFor, Voters;
  }

  lemma BackersSnoc(responses: seq<AgentResponse>, last: AgentResponse, c: string)
    ensures |responses| !in VotersFor(responses, c)
    ensures VotersFor(responses + [last], c)
            == if Backs(last, c) then VotersFor(responses, c) + {|responses|} else VotersFor(responses, c)
  {
    hide Backs;
    var all := responses + [last];
    assert all[|responses|] == last && forall i | 0 <= i < |responses| :: all[i] == responses[i];
  }

  lemma AnswersSnoc(responses: seq<AgentResponse>, last: AgentResponse)
    ensures |responses| !in Voters(responses)
    ensures Voters(responses + [last]) == if last.timedOut then Voters(responses) else Voters(responses) + {|responses|}
  {
    var all := responses + [last];
    assert all[|responses|] == last && forall i | 0 <= i < |responses| :: all[i] == responses[i];
  }

  lemma OneVote(r: AgentResponse)
    ensures Active([r]) == if r.timedOut then [] else [r.content]
  {
    assert [r][1..] == [];
  }

  /** At most one answer has a strict majority. */
  lemma MajorityIsUnique(responses: seq<AgentResponse>, a: string, b: string)
    requires StrictMajority(responses, a) && StrictMajority(responses, b)
    ensures a == b
  {
    TwoShareTheVotes(Active(responses), a, b);
  }

  lemma ActiveUnfolds(responses: seq<AgentResponse>)
    ensures responses == [] ==> Active(responses) == []
    ensures responses != [] ==> Active(responses) == Vote(responses[0]) + Active(responses[1..])
  {
  }

  lemma {:induction false} ActiveConcat(a: seq<AgentResponse>, b: seq<AgentResponse>)
    ensures Active(a + b) == Active(a) + Active(b)
  {
    hide Active, Vote;
    ActiveUnfolds(a);
    if a == [] {
      assert a + b == b;
    } else {
      ActiveConcat(a[1..], b);
      ActiveUnfolds(a + b);
      assert (a + b)[1..] == a[1..] + b;
      Regroup(Vote(a[0]), Active(a[1..]), Active(b));
    }
  }

  lemma Regroup<T>(a: seq<T>, b: seq<T>, c: seq<T>)
    ensures a + (b + c) == (a + b) + c
  {
  }

  lemma ActiveCounts(responses: seq<AgentResponse>, i: nat)
    requires i < |responses|
    ensures multiset(Active(responses))
            == multiset(Active([responses[i]])) + multiset(Active(responses[..i] + responses[i + 1..]))
  {
    var before, after := responses[..i], responses[i + 1..];
    assert responses == before + ([responses[i]] + after);
    hide Active;
    ActiveConcat(before, [responses[i]] + after);
    ActiveConcat([responses[i]], after);
    ActiveConcat(before, after);
  }

  lemma RemoveOne<T>(s: seq<T>, i: nat)
    requires i < |s|
    ensures multiset(s[..i] + s[i + 1..]) == multiset(s) - multiset{s[i]}
  {
    assert s == s[..i] + ([s[i]] + s[i + 1..]);
  }

  lemma PlaceOf<T>(x: T, s: seq<T>) returns (i: nat)
    requires x in multiset(s)
    ensures i < |s| && s[i] == x
  {
    i :| i < |s| && s[i] == x;
  }

  lemma SameElsewhere<T>(a: seq<T>, b: seq<T>) returns (i: nat)
    requires a != [] && multiset(a) == multiset(b)
    ensures i < |b| && b[i] == a[0] && multiset(a[1..]) == multiset(b[..i] + b[i + 1..])
  {
    i := PlaceOf(a[0], b);
    RemoveOne(a, 0);
    RemoveOne(b, i);
    assert a[..0] + a[1..] == a[1..];
  }

  /** The votes do not depend on the order of the responses. */
  lemma {:induction false} VotesIgnoreOrder(a: seq<AgentResponse>, b: seq<AgentResponse>)
    requires multiset(a) == multiset(b)
    ensures multiset(Active(a)) == multiset(Active(b))
    decreases |a|
  {
    if a == [] {
      assert |multiset(b)| == 0;
    } else {
      hide Active;
      var i := SameElsewhere(a, b);
      assert a[..0] + a[1..] == a[1..];
      VotesIgnoreOrder(a[1..], b[..i] + b[i + 1..]);
      ActiveCounts(a, 0);
      ActiveCounts(b, i);
    }
  }

  /** Two orders of the same responses have the same majority, or none. */
  lemma OrderDoesNotMatter(a: seq<AgentResponse>, b: seq<AgentResponse>, c: string)
    requires multiset(a) == multiset(b)
    ensures StrictMajority(a, c) <==> StrictMajority(b, c)
  {
    VotesIgnoreOrder(a, b);
    assert |Active(a)| == |multiset(Active(a))| && |Active(b)| == |multiset(Active(b))|;
  }

  /** `resolve_unanimous` */
  function ResolveUnanimous(responses: seq<AgentResponse>): ConsensusResult {
    var active := Active(responses);
    if active == [] then ConsensusResult(None, responses, Unanimous, false)
    else
      var first := active[0];
      var agree := forall i | 0 <= i < |active| :: active[i] == first;
      ConsensusResult(if agree then Some(first) else None, responses, Unanimous, agree)
  }

  lemma {:induction false} AllTheSame(votes: seq<string>, c: string)
    ensures multiset(votes)[c] == |votes| <==> forall i | 0 <= i < |votes| :: votes[i] == c
  {
    if votes != [] {
      var rest := votes[1..];
      AllTheSame(rest, c);
      TwoShareTheVotes(rest, c, c);
      assert votes == [votes[0]] + rest;
      assert multiset(votes)[c] == (if votes[0] == c then 1 else 0) + multiset(rest)[c];
    }
  }

  /** A unanimous decision is an answer that has every vote, and there is at least one. */
  lemma UnanimousMeansEveryVote(responses: seq<AgentResponse>, c: string)
    ensures ResolveUnanimous(responses).decision == Some(c)
            <==> 0 < Votes(responses, c) == |Active(responses)|
  {
    AllTheSame(Active(responses), c);
  }

  /** What all agents answer is the majority answer; adding timed-out responses changes neither. */
  lemma UnanimityImpliesMajority(responses: seq<AgentResponse>, c: string)
    requires ResolveUnanimous(responses).decision == Some(c)
    ensures StrictMajority(responses, c)
  {
    UnanimousMeansEveryVote(responses, c);
  }

  lemma TimedOutDoNotCount(responses: seq<AgentResponse>, late: seq<AgentResponse>)
    requires forall i | 0 <= i < |late| :: late[i].timedOut
    ensures Active(responses + late) == Active(responses)
  {
    ActiveConcat(responses, late);
    NoneActive(late);
  }

  lemma {:induction false} NoneActive(late: seq<AgentResponse>)
    requires forall i | 0 <= i < |late| :: late[i].timedOut
    ensures Active(late) == []
  {
    if late != [] {
      NoneActive(late[1..]);
    }
  }
}
