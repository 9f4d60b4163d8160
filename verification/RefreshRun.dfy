/** One refresh epoch executed end to end with the operations of the enclave and the coordinator,
    shown to produce exactly the epoch's share transition. */
module RefreshRun {
  import opened PrimeField
  import opened Bytes
  import opened Nodes
  import opened ShareRefresh
  import opened RefreshProtocol

  ghost function SharesOf(packages: map<NodeId, KeyPackage>): (r: Shares) {
    map id | id in packages :: packages[id].signingShare
  }

  /** What peer `i` answers in round 1. */
  ghost function AnswerOf(p: int, e: Epoch, i: NodeId): (r: EvalResult)
    requires 2 <= p
  {
    if i in e.dealers then Answered(i, Dealt(p, e.dealers[i], e.peers + {e.coordinator})) else Failed(i)
  }

  /** One answer from each peer in `from`, and nothing else. */
  ghost predicate AnswersFrom(p: int, e: Epoch, from: set<NodeId>, arrivals: seq<EvalResult>)
    requires 2 <= p
  {
    && OnePerPeer(arrivals)
    && (forall r :: r in arrivals ==> r.nodeId in from && r == AnswerOf(p, e, r.nodeId))
    && (forall i :: i in from ==> AnswerOf(p, e, i) in arrivals)
  }

  lemma AnswersGrow(p: int, e: Epoch, from: set<NodeId>, arrivals: seq<EvalResult>, i: NodeId)
    requires 2 <= p && AnswersFrom(p, e, from, arrivals) && i !in from
    ensures AnswersFrom(p, e, from + {i}, arrivals + [AnswerOf(p, e, i)])
  {
    hide Dealt;
    var more := arrivals + [AnswerOf(p, e, i)];
    assert more[|arrivals|] == AnswerOf(p, e, i);
    assert forall r :: r in arrivals ==> r in more;
    forall k, l | 0 <= k < l < |more| ensures more[k].nodeId != more[l].nodeId {
      assert more[k] in arrivals;
      if l < |arrivals| {
        assert more[k] == arrivals[k] && more[l] == arrivals[l];
      }
    }
  }

  /** Round 1 over all peers: dealers answer with their evaluations, the rest fail. */
  method RoundOne(p: nat, threshold: nat, e: Epoch, participants: seq<NodeId>) returns (arrivals: seq<EvalResult>)
    requires 2 <= p && 1 <= threshold && WellFormed(e, threshold)
    requires Elements(participants) == e.peers + {e.coordinator}
    ensures AnswersFrom(p, e, e.peers, arrivals)
  {
    hide Dealt, AnswersFrom;
    arrivals := [];
    var todo := e.peers;
    NoAnswersYet(p, e);
    while todo != {}
      invariant todo <= e.peers
      invariant AnswersFrom(p, e, e.peers - todo, arrivals)
      decreases |todo|
    {
      var i :| i in todo;
      AnswersGrow(p, e, e.peers - todo, arrivals, i);
      if i in e.dealers {
        var evals := RefreshGenerateEvaluations(p, threshold, e.dealers[i], participants);
        arrivals := arrivals + [Answered(i, evals)];
      } else {
        arrivals := arrivals + [Failed(i)];
      }
      assert e.peers - todo + {i} == e.peers - (todo - {i});
      todo := todo - {i};
    }
    assert e.peers - todo == e.peers;
  }

  lemma NoAnswersYet(p: int, e: Epoch)
    requires 2 <= p
    ensures AnswersFrom(p, e, e.peers - e.peers, [])
  {
  }

  /** Honest answers from every peer give the coordinator exactly the epoch's matrix. */
  lemma CollectedByCoordinator(p: int, e: Epoch, arrivals: seq<EvalResult>, all: Matrix)
    requires 2 <= p && Collects(arrivals, all)
    requires AnswersFrom(p, e, e.peers, arrivals) && e.dealers.Keys <= e.peers
    ensures all == Collected(p, e)
  {
    hide Dealt;
    forall i ensures i in all <==> i in e.dealers {
      if i in e.dealers {
        assert AnswerOf(p, e, i) in arrivals;
      }
      if i in all {
        assert Answered(i, all[i]) == AnswerOf(p, e, i);
      }
    }
    forall i | i in all ensures all[i] == Collected(p, e)[i] {
      assert Answered(i, all[i]) == AnswerOf(p, e, i);
    }
  }

  ghost function NextPackage(p: int, package: KeyPackage, e: Epoch, id: NodeId): (r: KeyPackage)
    requires 2 <= p
  {
    if id in e.applied
    then package.(signingShare := ShareAfter(p, package.signingShare, Column(Collected(p, e), id)))
    else package
  }

  lemma AppliedPackage(p: int, package: KeyPackage, e: Epoch, id: NodeId)
    requires 2 <= p && id in e.applied
    ensures NextPackage(p, package, e, id)
         == package.(signingShare := ShareAfter(p, package.signingShare, Column(Collected(p, e), id)))
  {
  }

  lemma SkippedPackages(p: int, packages: map<NodeId, KeyPackage>, e: Epoch)
    requires 2 <= p
    ensures forall id :: id in packages && id !in e.applied ==>
              NextPackage(p, packages[id], e, id) == packages[id]
  {
  }

  /** Round 2 at the peers that are reached: each adds its column to its share. */
  method RoundTwo(p: nat, packages: map<NodeId, KeyPackage>, e: Epoch, routed: Matrix)
    returns (next: map<NodeId, KeyPackage>)
    requires ScalarField(p) && e.applied <= e.peers
    requires routed.Keys == e.peers
    requires forall j :: j in e.peers ==> routed[j] == Column(Collected(p, e), j)
    ensures next.Keys == packages.Keys
    ensures forall id :: id in packages ==> next[id] == NextPackage(p, packages[id], e, id)
  {
    hide IsPrime, Cong, Pow256, ReceivedSum, Column, Collected, AllCanonical, ShareAfter, NextPackage;
    next := packages;
    var todo := packages.Keys * e.applied;
    SkippedPackages(p, packages, e);
    while todo != {}
      invariant next.Keys == packages.Keys && todo <= packages.Keys * e.applied
      invariant forall id :: id in todo ==> next[id] == packages[id]
      invariant forall id :: id in packages && id !in todo ==> next[id] == NextPackage(p, packages[id], e, id)
      decreases |todo|
    {
      var j :| j in todo;
      RoutedShiftIsCommonPolynomial(p, e, j);
      AppliedPackage(p, packages[j], e, j);
      var r := RefreshApply(p, Some(packages[j]), routed[j]);
      next := next[j := r.newKeyPackage];
      todo := todo - {j};
    }
  }

  /** An epoch run with the enclave's and the coordinator's code yields the epoch's share transition,
      and changes nothing in a key package but the signing share. */
  method RunEpoch(p: nat, threshold: nat, packages: map<NodeId, KeyPackage>, e: Epoch, participants: seq<NodeId>)
    returns (next: map<NodeId, KeyPackage>)
    requires ScalarField(p) && 1 <= threshold && WellFormed(e, threshold)
    requires Elements(participants) == e.peers + {e.coordinator}
    ensures SharesOf(next) == NextShares(p, SharesOf(packages), e)
    ensures next.Keys == packages.Keys
    ensures forall id :: id in packages ==>
              next[id] == packages[id].(signingShare := next[id].signingShare)
  {
    hide IsPrime, Pow256, Column, Collected, Collects, ShareAfter, Elements, AnswerOf;
    var arrivals := RoundOne(p, threshold, e, participants);
    var all, mine, routed := RunRefresh(e.coordinator, e.peers, arrivals);
    CollectedByCoordinator(p, e, arrivals, all);
    next := RoundTwo(p, packages, e, routed);
  }
}
