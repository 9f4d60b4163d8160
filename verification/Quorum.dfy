/** The orchestrator's two signing rounds (pkg/mpc/node/sign_orchestrator.go). Map iteration order,
    the completion order of the per-peer goroutines and every peer's answer are arbitrary. */
module Quorum {
  import opened Bytes
  import opened Nodes

  type Payload = seq<Byte>

  /** What each peer's call ends with: a payload, or an error (`None`, or no entry). */
  type Answers = map<NodeId, Option<Payload>>

  predicate Replies(answers: Answers, id: NodeId) {
    id in answers && answers[id].Some?
  }

  /** The replies of the peers in `asked`. */
  ghost function Responses(answers: Answers, asked: set<NodeId>): (r: map<NodeId, Payload>)
    ensures r.Keys <= asked
  {
    map id | id in asked && Replies(answers, id) :: answers[id].value
  }

  /** A list of the set's members, each once, in any order. */
  ghost predicate Enumerates(order: seq<NodeId>, ids: set<NodeId>) {
    Distinct(order) && Elements(order) == ids
  }

  function Min(a: nat, b: nat): (r: nat) {
    if a < b then a else b
  }

  function Uint32(n: nat): (r: nat)
    ensures r <= n
  {
    n % 0x1_0000_0000
  }

  /** How many peers are selected: the bound is tested after a peer is added, so zero acts as one. */
  function Wanted(threshold: nat, available: nat): (r: nat)
    ensures r <= available
  {
    Min(available, if threshold == 0 then 1 else threshold)
  }

  /** `selectSigners`; `order` is the iteration order of the peer map. */
  method SelectSigners(order: seq<NodeId>, threshold: nat) returns (signers: seq<NodeId>)
    ensures signers == order[..Wanted(threshold, |order|)]
  {
    signers := [];
    for i := 0 to |order|
      invariant signers == order[..i]
      invariant i == 0 || i < threshold
    {
      signers := signers + [order[i]];
      if |signers| >= threshold {
        break;
      }
    }
  }

  /** The goroutines of one round fill the results. `completion` lists the peers in the order in which
      their calls end; those not asked have no call. */
  method Collect(asked: set<NodeId>, completion: seq<NodeId>, answers: Answers)
    returns (results: map<NodeId, Payload>)
    requires asked <= Elements(completion)
    ensures results == Responses(answers, asked)
  {
    results := map[];
    for i := 0 to |completion|
      invariant results == Responses(answers, asked * Elements(completion[..i]))
    {
      var id := completion[i];
      assert completion[..i + 1] == completion[..i] + [id];
      if id in asked && Replies(answers, id) {
        results := results[id := answers[id].value];
      }
    }
    assert completion[..|completion|] == completion;
    assert asked * Elements(completion) == asked;
  }

  ghost function Enough(threshold: nat, results: map<NodeId, Payload>): (r: Option<map<NodeId, Payload>>) {
    if |results| < threshold then None else Some(results)
  }

  /** Round 1 asks the listed signers that are connected. */
  method ExecuteSignRound1(peers: set<NodeId>, threshold: nat, signers: seq<NodeId>, completion: seq<NodeId>,
                           answers: Answers)
    returns (r: Option<map<NodeId, Payload>>)
    requires Distinct(signers) && Enumerates(completion, peers)
    ensures r == Enough(threshold, Responses(answers, Elements(signers) * peers))
  {
    var asked: set<NodeId> := {};
    for i := 0 to |signers|
      invariant asked == Elements(signers[..i]) * peers
    {
      assert signers[..i + 1] == signers[..i] + [signers[i]];
      if signers[i] in peers {
        asked := asked + {signers[i]};
      }
    }
    assert signers[..|signers|] == signers;
    var results := Collect(asked, completion, answers);
    r := if |results| < threshold then None else Some(results);
  }

  /** Round 2 asks the connected peers that have a round-1 result. */
  method ExecuteSignRound2(peers: set<NodeId>, threshold: nat, round1: map<NodeId, Payload>, order: seq<NodeId>,
                           completion: seq<NodeId>, answers: Answers)
    returns (r: Option<map<NodeId, Payload>>)
    requires Enumerates(order, peers) && Enumerates(completion, peers)
    ensures r == Enough(threshold, Responses(answers, peers * round1.Keys))
  {
    var asked: set<NodeId> := {};
    for i := 0 to |order|
      invariant asked == Elements(order[..i]) * round1.Keys
    {
      assert order[..i + 1] == order[..i] + [order[i]];
      if order[i] in round1 {
        asked := asked + {order[i]};
      }
    }
    assert order[..|order|] == order;
    var results := Collect(asked, completion, answers);
    r := if |results| < threshold then None else Some(results);
  }

  datatype Outcome =
    NotEnoughPeers
  | Round1Failed
  | Round2Failed
  | Collected(signers: seq<NodeId>, round1: map<NodeId, Payload>, round2: map<NodeId, Payload>)

  /** What the two rounds end with. No completion order occurs in it. */
  ghost function SignOutcome(peers: set<NodeId>, threshold: nat, selection: seq<NodeId>, first: Answers, second: Answers)
    : (r: Outcome)
    requires Enumerates(selection, peers)
  {
    var signers := selection[..Wanted(threshold, |selection|)];
    var round1 := Responses(first, Elements(signers) * peers);
    var round2 := Responses(second, peers * round1.Keys);
    if Uint32(|peers|) < threshold then NotEnoughPeers
    else if |round1| < threshold then Round1Failed
    else if |round2| < threshold then Round2Failed
    else Collected(signers, round1, round2)
  }

  /** `SignMessage` up to aggregation, over the connected peers. */
  method SignMessage(peers: set<NodeId>, threshold: nat, selection: seq<NodeId>, order: seq<NodeId>,
                     completion1: seq<NodeId>, completion2: seq<NodeId>, first: Answers, second: Answers)
    returns (r: Outcome)
    requires Enumerates(selection, peers) && Enumerates(order, peers)
    requires Enumerates(completion1, peers) && Enumerates(completion2, peers)
    ensures r.Collected? ==>
              (forall id :: id in r.round1 ==> id in first && first[id] == Some(r.round1[id])) &&
              (forall id :: id in r.round2 ==> id in second && second[id] == Some(r.round2[id]))
    ensures r == SignOutcome(peers, threshold, selection, first, second)
  {
    if Uint32(|peers|) < threshold {
      return NotEnoughPeers;
    }
    var signers := SelectSigners(selection, threshold);
    var round1 := ExecuteSignRound1(peers, threshold, signers, completion1, first);
    if round1.None? {
      return Round1Failed;
    }
    var round2 := ExecuteSignRound2(peers, threshold, round1.value, order, completion2, second);
    if round2.None? {
      return Round2Failed;
    }
    r := Collected(signers, round1.value, round2.value);
  }

  /** The selected signers are `threshold` distinct connected peers, and they are exactly the peers that
      answered round 1 and exactly those that answered round 2. */
  ghost predicate ExactQuorum(peers: set<NodeId>, threshold: nat, r: Outcome) {
    && r.Collected?
    && Distinct(r.signers) && |r.signers| == threshold && Elements(r.signers) <= peers
    && r.round1.Keys == Elements(r.signers)
    && r.round2.Keys == Elements(r.signers)
  }

  /** A round has as many results as peers asked exactly when every one of them replied. */
  lemma RoundComplete(answers: Answers, asked: set<NodeId>)
    ensures |Responses(answers, asked)| >= |asked| <==> forall id :: id in asked ==> Replies(answers, id)
    ensures |Responses(answers, asked)| >= |asked| ==> Responses(answers, asked).Keys == asked
  {
    var results := Responses(answers, asked);
    assert |results| == |results.Keys|;
    if |results| >= |asked| {
      FullSubset(results.Keys, asked);
      forall id | id in asked ensures Replies(answers, id) {
        assert id in results;
      }
    }
    if forall id :: id in asked ==> Replies(answers, id) {
      assert results.Keys == asked;
    }
  }

  /** The selected signers: distinct, connected, and as many as wanted. */
  lemma Selection(peers: set<NodeId>, threshold: nat, selection: seq<NodeId>)
    requires Enumerates(selection, peers)
    ensures |selection| == |peers|
    ensures var signers := selection[..Wanted(threshold, |selection|)];
            && Distinct(signers) && Elements(signers) <= peers && |Elements(signers)| == |signers|
            && Elements(signers) * peers == Elements(signers)
  {
    DistinctCount(selection);
    DistinctCount(selection[..Wanted(threshold, |selection|)]);
  }

  /** When both rounds succeed the quorum is exact, for every positive threshold, whatever fails and in
      whatever order calls end. At threshold zero it is exact only if nobody is connected. */
  lemma CollectedQuorumIsExact(peers: set<NodeId>, threshold: nat, selection: seq<NodeId>, first: Answers,
                               second: Answers)
    requires Enumerates(selection, peers)
    requires SignOutcome(peers, threshold, selection, first, second).Collected?
    ensures ExactQuorum(peers, threshold, SignOutcome(peers, threshold, selection, first, second))
       <==> threshold >= 1 || peers == {}
  {
    hide Distinct, Responses, Replies, Uint32;
    var r := SignOutcome(peers, threshold, selection, first, second);
    Selection(peers, threshold, selection);
    var chosen := Elements(r.signers);
    if threshold >= 1 {
      assert |chosen| == threshold;
      RoundComplete(first, chosen);
      assert peers * r.round1.Keys == chosen;
      RoundComplete(second, chosen);
    } else if peers == {} {
      assert r.round1.Keys == chosen && r.round2.Keys == chosen;
    }
  }

  /** With a positive threshold the rounds succeed exactly when enough peers are connected and every
      selected one replies in both rounds: one failure among the selected peers fails the attempt, even
      if other connected peers could have replaced it. */
  lemma CollectsExactlyWhen(peers: set<NodeId>, threshold: nat, selection: seq<NodeId>, first: Answers,
                            second: Answers)
    requires Enumerates(selection, peers) && threshold >= 1
    ensures SignOutcome(peers, threshold, selection, first, second).Collected?
       <==> threshold <= Uint32(|peers|)
            && (forall id :: id in Elements(selection[..Wanted(threshold, |selection|)]) ==> Replies(first, id))
            && (forall id :: id in Elements(selection[..Wanted(threshold, |selection|)]) ==> Replies(second, id))
  {
    hide Distinct, Responses, Replies, Uint32, Elements;
    if threshold <= Uint32(|peers|) {
      Selection(peers, threshold, selection);
      var chosen := Elements(selection[..Wanted(threshold, |selection|)]);
      assert |chosen| == threshold;
      RoundComplete(first, chosen);
      RoundComplete(second, chosen);
      if |Responses(first, chosen)| >= threshold {
        assert peers * Responses(first, chosen).Keys == chosen;
      }
    }
  }

  /** The collected maps hold each peer's own answer, of the round they belong to, and round 2 holds every
      answer a round-1 responder gave. */
  lemma CollectedPayloads(peers: set<NodeId>, threshold: nat, selection: seq<NodeId>, first: Answers,
                          second: Answers)
    requires Enumerates(selection, peers)
    requires SignOutcome(peers, threshold, selection, first, second).Collected?
    ensures var r := SignOutcome(peers, threshold, selection, first, second);
            && (forall id :: id in r.round1 ==> id in first && first[id] == Some(r.round1[id]))
            && (forall id :: id in r.round2 ==> id in second && second[id] == Some(r.round2[id]))
            && (forall id :: id in r.round1 && id in second && second[id].Some? ==> id in r.round2)
            && r.signers <= selection
  {
    hide Distinct, Uint32;
    var signers := selection[..Wanted(threshold, |selection|)];
    assert forall id :: id in signers ==> id in Elements(selection);
  }

  /** Why the rounds fail: too few peers; else a selected peer without a reply in round 1; else one without
      a reply in round 2. */
  lemma FailureReasons(peers: set<NodeId>, threshold: nat, selection: seq<NodeId>, first: Answers,
                       second: Answers)
    requires Enumerates(selection, peers) && threshold >= 1
    ensures var r := SignOutcome(peers, threshold, selection, first, second);
            var chosen := Elements(selection[..Wanted(threshold, |selection|)]);
            && (r.NotEnoughPeers? <==> |peers| % 0x1_0000_0000 < threshold)
            && (r.Round1Failed? <==> !r.NotEnoughPeers? && exists id :: id in chosen && !Replies(first, id))
            && (r.Round2Failed? <==> !r.NotEnoughPeers? && !r.Round1Failed? &&
                                     exists id :: id in chosen && !Replies(second, id))
  {
    hide Distinct, Responses, Replies, Elements;
    if threshold <= Uint32(|peers|) {
      Selection(peers, threshold, selection);
      var chosen := Elements(selection[..Wanted(threshold, |selection|)]);
      assert |chosen| == threshold;
      RoundComplete(first, chosen);
      RoundComplete(second, chosen);
      if |Responses(first, chosen)| >= threshold {
        assert peers * Responses(first, chosen).Keys == chosen;
      }
    }
  }

  // ----- What is handed to the aggregating peer -----

  /** The partial signatures sent to `asked`: a copy of the collected ones, with the coordinator's entry
      set to the asked peer's (nothing, when that peer did not sign). */
  function PartialsFor(self: NodeId, asked: NodeId, partials: map<NodeId, Payload>): (r: map<NodeId, Payload>) {
    partials[self := if asked in partials then partials[asked] else []]
  }

  /** The aggregating peer receives one entry too many, unless the coordinator is itself among the
      selected peers; and then it receives the collected partials unchanged only if the coordinator's
      own partial is the asked peer's. */
  lemma AggregationEntries(peers: set<NodeId>, threshold: nat, r: Outcome, self: NodeId, asked: NodeId)
    requires ExactQuorum(peers, threshold, r)
    ensures PartialsFor(self, asked, r.round2).Keys == Elements(r.signers) + {self}
    ensures |PartialsFor(self, asked, r.round2)| == (if self in r.signers then threshold else threshold + 1)
    ensures PartialsFor(self, asked, r.round2) == r.round2 <==>
              self in r.signers && r.round2[self] == if asked in r.signers then r.round2[asked] else []
  {
    var sent := PartialsFor(self, asked, r.round2);
    DistinctCount(r.signers);
    assert sent.Keys == Elements(r.signers) + {self};
    assert |sent| == |sent.Keys|;
    assert self in r.signers <==> self in Elements(r.signers);
    assert asked in r.signers <==> asked in Elements(r.signers);
    if self in r.signers {
      assert Elements(r.signers) + {self} == Elements(r.signers);
    } else {
      assert |Elements(r.signers) + {self}| == threshold + 1;
    }
    if sent == r.round2 {
      assert sent[self] == r.round2[self];
    }
  }

  // ----- Instances -----

  /** Threshold zero: one connected peer is selected, nobody answers, and both rounds succeed. */
  lemma ZeroThresholdExample()
    ensures Enumerates([4], {4})
    ensures SignOutcome({4}, 0, [4], map[], map[]) == Collected([4], map[], map[])
  {
    assert Elements([4]) == {4};
    assert Responses(map[], Elements([4]) * {4}) == map[];
    assert Responses(map[], {4} * {}) == map[];
  }

  /** Peer 2 answers 20 and then 21, peer 3 answers 30 and then 31. */
  function FirstReplies(): (r: Answers) {
    map[2 := Some([20]), 3 := Some([30])]
  }

  function SecondReplies(): (r: Answers) {
    map[2 := Some([21]), 3 := Some([31])]
  }

  lemma BothReplied()
    ensures Enumerates([2, 3], {2, 3}) && |{2, 3}| == 2
    ensures Responses(FirstReplies(), {2, 3}) == map[2 := [20], 3 := [30]]
    ensures Responses(SecondReplies(), {2, 3}) == map[2 := [21], 3 := [31]]
  {
    assert Elements([2, 3]) == {2, 3};
  }

  lemma TwoEntries(x: Payload, y: Payload)
    ensures var m: map<NodeId, Payload> := map[2 := x, 3 := y]; m.Keys == {2, 3} && |m| == 2
  {
    var m: map<NodeId, Payload> := map[2 := x, 3 := y];
    assert m.Keys == {2, 3} && |m| == |m.Keys|;
  }

  lemma BothCollected()
    ensures Enumerates([2, 3], {2, 3})
    ensures SignOutcome({2, 3}, 2, [2, 3], FirstReplies(), SecondReplies())
         == Collected([2, 3], map[2 := [20], 3 := [30]], map[2 := [21], 3 := [31]])
  {
    BothReplied();
    TwoEntries([20], [30]);
    TwoEntries([21], [31]);
    hide Responses, FirstReplies, SecondReplies, Distinct;
    assert [2, 3][..Wanted(2, 2)] == [2, 3];
    assert {2, 3} * {2, 3} == {2, 3};
  }

  /** Coordinator 1 collects from peers 2 and 3 at threshold 2 and hands three partials to peer 2, its own
      entry being a copy of peer 2's. */
  lemma ExtraPartialExample()
    ensures Enumerates([2, 3], {2, 3})
    ensures var r := SignOutcome({2, 3}, 2, [2, 3], FirstReplies(), SecondReplies());
            r == Collected([2, 3], map[2 := [20], 3 := [30]], map[2 := [21], 3 := [31]]) &&
            PartialsFor(1, 2, r.round2) == map[1 := [21], 2 := [21], 3 := [31]]
  {
    BothCollected();
    hide SignOutcome;
    var partials: map<NodeId, Payload> := map[2 := [21], 3 := [31]];
    assert PartialsFor(1, 2, partials) == map[1 := [21], 2 := [21], 3 := [31]];
  }
}
