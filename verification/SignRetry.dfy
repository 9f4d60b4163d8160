/** The node's signing retry loop over a shrinking signer list (pkg/mpc/node/node.go). */
module SignRetry {
  import opened Bytes
  import opened Nodes
  import opened Texts

  const MAX_RETRIES: nat := 3

  // ----- Naming a peer in an error text -----

  function PeerText(id: NodeId): (r: string) {
    "peer " + Decimal(id)
  }

  predicate Contains(text: string, part: string) {
    exists i :: 0 <= i <= |text| && part <= text[i..]
  }

  predicate Names(self: NodeId, text: string, id: NodeId) {
    id != self && Contains(text, PeerText(id))
  }

  /** A text that names a peer also names every peer whose number is a prefix of that one's. */
  lemma PrefixIsNamed(text: string, b: NodeId, c: NodeId)
    requires Contains(text, PeerText(c)) && Decimal(b) <= Decimal(c)
    ensures Contains(text, PeerText(b))
  {
    var i :| 0 <= i <= |text| && PeerText(c) <= text[i..];
    assert PeerText(b) <= PeerText(c);
    assert PeerText(b) <= text[i..];
  }

  // ----- Excluding a signer -----

  /** The first signer, other than this node, that the text names. */
  function Blamed(self: NodeId, signers: seq<NodeId>, text: string): (r: Option<NodeId>)
    ensures r.Some? ==> r.value in signers && Names(self, text, r.value)
    ensures r.None? ==> forall s :: s in signers ==> !Names(self, text, s)
  {
    if signers == [] then None
    else if Names(self, text, signers[0]) then Some(signers[0])
    else Blamed(self, signers[1..], text)
  }

  function Without(signers: seq<NodeId>, x: NodeId): (r: seq<NodeId>)
    ensures |r| <= |signers|
  {
    if signers == [] then [] else
      var n := |signers| - 1;
      Without(signers[..n], x) + if signers[n] != x then [signers[n]] else []
  }

  function Excluded(self: NodeId, signers: seq<NodeId>, text: string): (r: seq<NodeId>) {
    if |signers| <= 1 then signers else
      match Blamed(self, signers, text)
      case Some(b) => Without(signers, b)
      case None => signers[..|signers| - 1]
  }

  lemma {:induction false} BlamedSplit(self: NodeId, a: seq<NodeId>, b: seq<NodeId>, text: string)
    requires forall s :: s in a ==> !Names(self, text, s)
    ensures Blamed(self, a + b, text) == Blamed(self, b, text)
    decreases |a|
  {
    hide Names;
    if a == [] {
      assert a + b == b;
    } else {
      assert (a + b)[1..] == a[1..] + b;
      BlamedSplit(self, a[1..], b, text);
    }
  }

  /** `excludeFailedSigners`. */
  method ExcludeFailedSigners(self: NodeId, signers: seq<NodeId>, text: string) returns (r: seq<NodeId>)
    ensures r == Excluded(self, signers, text)
  {
    hide Names;
    if |signers| <= 1 {
      return signers;
    }
    for i := 0 to |signers|
      invariant forall s :: s in signers[..i] ==> !Names(self, text, s)
    {
      var signer := signers[i];
      if Names(self, text, signer) {
        assert signers == signers[..i] + signers[i..];
        BlamedSplit(self, signers[..i], signers[i..], text);
        r := [];
        for j := 0 to |signers|
          invariant r == Without(signers[..j], signer)
        {
          assert signers[..j + 1][..j] == signers[..j];
          if signers[j] != signer {
            r := r + [signers[j]];
          }
        }
        assert signers[..|signers|] == signers;
        return;
      }
      assert signers[..i + 1] == signers[..i] + [signer];
    }
    assert signers[..|signers|] == signers;
    r := signers[..|signers| - 1];
  }

  // ----- Subsequences -----

  /** `a` is what `b` holds at the increasing positions `at`. */
  ghost predicate Picks(a: seq<NodeId>, b: seq<NodeId>, at: seq<nat>) {
    && |at| == |a|
    && (forall i :: 0 <= i < |at| ==> at[i] < |b| && a[i] == b[at[i]])
    && (forall i, j :: 0 <= i < j < |at| ==> at[i] < at[j])
  }

  ghost predicate Subsequence(a: seq<NodeId>, b: seq<NodeId>) {
    exists at :: Picks(a, b, at)
  }

  lemma SubsequenceRefl(a: seq<NodeId>)
    ensures Subsequence(a, a)
  {
    assert Picks(a, a, seq(|a|, (i: nat) => i));
  }

  lemma SubsequenceTransitive(a: seq<NodeId>, b: seq<NodeId>, c: seq<NodeId>)
    requires Subsequence(a, b) && Subsequence(b, c)
    ensures Subsequence(a, c)
  {
    var f :| Picks(a, b, f);
    var g :| Picks(b, c, g);
    var h := seq(|f|, i requires 0 <= i < |f| => g[f[i]]);
    assert Picks(a, c, h);
  }

  lemma SubsequenceDistinct(a: seq<NodeId>, b: seq<NodeId>)
    requires Subsequence(a, b) && Distinct(b)
    ensures Distinct(a)
  {
    var f :| Picks(a, b, f);
  }

  lemma {:induction false} WithoutPicks(signers: seq<NodeId>, x: NodeId) returns (at: seq<nat>)
    ensures Picks(Without(signers, x), signers, at)
    decreases |signers|
  {
    if signers == [] {
      at := [];
    } else {
      var n := |signers| - 1;
      at := WithoutPicks(signers[..n], x);
      if signers[n] != x {
        at := at + [n];
      }
    }
  }

  lemma {:induction false} WithoutAbsent(signers: seq<NodeId>, x: NodeId)
    requires x !in signers
    ensures Without(signers, x) == signers
    decreases |signers|
  {
    if signers != [] {
      WithoutAbsent(signers[..|signers| - 1], x);
    }
  }

  lemma {:induction false} WithoutShorter(signers: seq<NodeId>, x: NodeId)
    requires x in signers
    ensures x !in Without(signers, x) && |Without(signers, x)| < |signers|
    ensures Distinct(signers) ==> |Without(signers, x)| == |signers| - 1
    decreases |signers|
  {
    var n := |signers| - 1;
    if x in signers[..n] {
      WithoutShorter(signers[..n], x);
    } else {
      WithoutAbsent(signers[..n], x);
    }
  }

  /** One exclusion: a subsequence, shorter exactly when there were at least two signers, and by exactly
      one when they are distinct. */
  lemma ExclusionShrinks(self: NodeId, signers: seq<NodeId>, text: string)
    ensures Subsequence(Excluded(self, signers, text), signers)
    ensures |Excluded(self, signers, text)| < |signers| <==> |signers| >= 2
    ensures |signers| < 2 ==> Excluded(self, signers, text) == signers
    ensures Distinct(signers) && |signers| >= 2 ==> |Excluded(self, signers, text)| == |signers| - 1
  {
    hide Names, Distinct;
    if |signers| <= 1 {
      SubsequenceRefl(signers);
    } else {
      match Blamed(self, signers, text)
      case Some(b) =>
        var at := WithoutPicks(signers, b);
        WithoutShorter(signers, b);
      case None =>
        var n := |signers| - 1;
        assert Picks(signers[..n], signers, seq(n, (i: nat) => i));
    }
  }

  lemma {:induction false} WithoutCount(signers: seq<NodeId>, x: NodeId, y: NodeId)
    ensures multiset(Without(signers, x))[y] == if y == x then 0 else multiset(signers)[y]
    decreases |signers|
  {
    if signers != [] {
      var n := |signers| - 1;
      WithoutCount(signers[..n], x, y);
      assert signers == signers[..n] + [signers[n]];
    }
  }

  /** If the text names no signer other than the node itself, the last one is dropped. */
  lemma NobodyNamedDropsLast(self: NodeId, signers: seq<NodeId>, text: string)
    requires |signers| >= 2
    requires forall s :: s in signers ==> s == self || !Contains(text, PeerText(s))
    ensures Excluded(self, signers, text) == signers[..|signers| - 1]
  {
    assert forall s :: s in signers ==> !Names(self, text, s);
  }

  /** If `signers[j]` is the first that the text names, it is dropped and everybody else is kept as often as
      before (in order, by `ExclusionShrinks`). */
  lemma FirstNamedDropped(self: NodeId, signers: seq<NodeId>, text: string, j: nat, y: NodeId)
    requires |signers| >= 2 && j < |signers| && signers[j] != self && Contains(text, PeerText(signers[j]))
    requires forall k :: 0 <= k < j ==> signers[k] == self || !Contains(text, PeerText(signers[k]))
    ensures multiset(Excluded(self, signers, text))[y] == if y == signers[j] then 0 else multiset(signers)[y]
  {
    assert Names(self, text, signers[j]);
    assert forall s :: s in signers[..j] ==> !Names(self, text, s);
    FirstNamedIsBlamed(self, signers, text, j);
    WithoutCount(signers, signers[j], y);
  }

  lemma FirstNamedIsBlamed(self: NodeId, signers: seq<NodeId>, text: string, j: nat)
    requires j < |signers| && Names(self, text, signers[j])
    requires forall s :: s in signers[..j] ==> !Names(self, text, s)
    ensures Blamed(self, signers, text) == Some(signers[j])
  {
    hide Names;
    BlamedSplit(self, signers[..j], signers[j..], text);
    assert signers == signers[..j] + signers[j..];
  }

  /** Blame by substring can hit the wrong peer: if an earlier signer's number is a prefix of the failed
      peer's, the failed peer is not the one removed. */
  lemma PrefixTakesTheBlame(self: NodeId, signers: seq<NodeId>, text: string, i: nat, j: nat)
    requires i < j < |signers| && Distinct(signers) && signers[i] != self
    requires Contains(text, PeerText(signers[j])) && Decimal(signers[i]) <= Decimal(signers[j])
    ensures Blamed(self, signers, text).Some? && Blamed(self, signers, text) != Some(signers[j])
    ensures signers[j] in Excluded(self, signers, text)
  {
    PrefixIsNamed(text, signers[i], signers[j]);
    assert Names(self, text, signers[i]);
    BlamedNoLater(self, signers, text, i);
    var b := Blamed(self, signers, text).value;
    WithoutKeeps(signers, b, j);
  }

  lemma {:induction false} BlamedNoLater(self: NodeId, signers: seq<NodeId>, text: string, i: nat)
    requires i < |signers| && Names(self, text, signers[i])
    ensures Blamed(self, signers, text).Some? && Blamed(self, signers, text).value in signers[..i + 1]
    decreases |signers|
  {
    hide Names;
    if !Names(self, text, signers[0]) {
      BlamedNoLater(self, signers[1..], text, i - 1);
      assert signers[..i + 1] == [signers[0]] + signers[1..][..i];
    }
  }

  lemma {:induction false} WithoutKeeps(signers: seq<NodeId>, x: NodeId, j: nat)
    requires j < |signers| && signers[j] != x
    ensures signers[j] in Without(signers, x)
    decreases |signers|
  {
    var n := |signers| - 1;
    if j < n {
      WithoutKeeps(signers[..n], x, j);
    }
  }

  /** Exactly when a named peer is the one removed, for any error text: there is someone to keep, and no
      signer before it is named too. */
  lemma RemovedExactlyWhenFirstNamed(self: NodeId, signers: seq<NodeId>, text: string, j: nat)
    requires j < |signers| && Distinct(signers) && Names(self, text, signers[j])
    ensures signers[j] !in Excluded(self, signers, text) <==>
              |signers| >= 2 && forall k :: 0 <= k < j ==> !Names(self, text, signers[k])
  {
    hide Names;
    if |signers| >= 2 {
      BlamedNoLater(self, signers, text, j);
      var b := Blamed(self, signers, text).value;
      if forall k :: 0 <= k < j ==> !Names(self, text, signers[k]) {
        assert b == signers[j];
        WithoutShorter(signers, b);
      } else {
        var k :| 0 <= k < j && Names(self, text, signers[k]);
        BlamedNoLater(self, signers, text, k);
        assert b != signers[j];
        WithoutKeeps(signers, b, j);
      }
    }
  }

  /** What a missing peer is reported as. */
  function NotFound(id: NodeId): (r: string) {
    PeerText(id) + " not found"
  }

  /** "peer c not found" names exactly the peers whose number is a prefix of c. */
  lemma NotFoundNames(b: NodeId, c: NodeId)
    ensures Contains(NotFound(c), PeerText(b)) <==> Decimal(b) <= Decimal(c)
  {
    hide Decimal;
    var text, part := NotFound(c), PeerText(b);
    if Decimal(b) <= Decimal(c) {
      assert text[0..] == text;
      assert PeerText(b) <= text[0..];
    }
    if Contains(text, part) {
      var i :| 0 <= i <= |text| && part <= text[i..];
      assert text[i] == part[0] == 'p';
      OnlyFirstIsP(c);
      assert text[i..] == "peer " + (Decimal(c) + " not found");
      DropSamePrefix("peer ", Decimal(b), Decimal(c) + " not found");
      assert forall k :: 0 <= k < |Decimal(b)| ==> Decimal(b)[k] in Decimal(b);
      PrefixOfDigits(Decimal(b), Decimal(c), " not found");
    }
  }

  lemma DropSamePrefix(p: string, a: string, b: string)
    requires p + a <= p + b
    ensures a <= b
  {
    assert (p + a)[|p|..] == a && (p + b)[|p|..] == b;
    assert forall k :: 0 <= k < |a| ==> a[k] == (p + a)[|p| + k] == (p + b)[|p| + k];
  }

  lemma OnlyFirstIsP(c: NodeId)
    ensures forall i :: 0 < i < |NotFound(c)| ==> NotFound(c)[i] != 'p'
  {
    hide Decimal;
    var text, d, tail := NotFound(c), Decimal(c), " not found";
    assert text == "peer " + d + tail;
    assert forall k :: 0 <= k < |tail| ==> tail[k] != 'p';
    forall i | 0 < i < |text| ensures text[i] != 'p' {
      if 5 <= i < 5 + |d| {
        assert text[i] == d[i - 5] && d[i - 5] in d;
      } else if 5 + |d| <= i {
        assert text[i] == tail[i - 5 - |d|];
      }
    }
  }

  lemma PrefixOfDigits(a: string, d: string, rest: string)
    requires a <= d + rest && (forall k :: 0 <= k < |a| ==> IsDigit(a[k])) && rest != "" && !IsDigit(rest[0])
    ensures a <= d
  {
    assert |a| <= |d| by {
      assert (d + rest)[|d|] == rest[0];
    }
  }

  /** Exactly when a missing peer is the one removed: no earlier signer, other than the node itself, has a
      number that is a prefix of the missing one's. */
  lemma MissingPeerRemovedExactlyWhen(self: NodeId, signers: seq<NodeId>, j: nat)
    requires j < |signers| && Distinct(signers) && signers[j] != self
    ensures signers[j] !in Excluded(self, signers, NotFound(signers[j])) <==>
              |signers| >= 2 &&
              forall k :: 0 <= k < j && signers[k] != self ==> !(Decimal(signers[k]) <= Decimal(signers[j]))
  {
    var c := signers[j];
    forall k | 0 <= k < |signers|
      ensures Names(self, NotFound(c), signers[k]) <==> signers[k] != self && Decimal(signers[k]) <= Decimal(c)
    {
      NotFoundNames(signers[k], c);
    }
    hide Names, NotFound, Excluded, Decimal;
    RemovedExactlyWhenFirstNamed(self, signers, NotFound(c), j);
  }

  lemma OneIsNamed()
    ensures Names(7, "peer 12 not found", 1)
  {
    var text := "peer 12 not found";
    assert Decimal(1) == "1";
    assert PeerText(1) == "peer 1";
    assert text[0..] == text;
    assert PeerText(1) <= text[0..];
  }

  /** Peer 12 failed; peer 1 is excluded. */
  lemma WrongPeerExcluded()
    ensures Excluded(7, [7, 1, 12], "peer 12 not found") == [7, 12]
  {
    hide Names, Excluded;
    OneIsNamed();
    OneExcluded("peer 12 not found");
  }

  lemma OneExcluded(text: string)
    requires Names(7, text, 1)
    ensures Excluded(7, [7, 1, 12], text) == [7, 12]
  {
    hide Names, Without;
    SelfNeverNamed(7, text);
    BlamedSplit(7, [7], [1, 12], text);
    assert [7, 1, 12] == [7] + [1, 12];
    WithoutOne();
  }

  lemma WithoutOne()
    ensures Without([7, 1, 12], 1) == [7, 12]
  {
    assert [7, 1, 12][..2] == [7, 1] && [7, 1][..1] == [7] && [7][..0] == [];
    assert Without([7], 1) == [7];
    assert Without([7, 1], 1) == [7];
  }

  lemma SelfNeverNamed(self: NodeId, text: string)
    ensures !Names(self, text, self)
  {
  }

  // ----- The retry loop -----

  datatype Attempt = Signature(bytes: seq<Byte>) | Failure(text: string)

  datatype Result = NotReady | Signed(bytes: seq<Byte>) | NotEnoughSigners(have: nat) | GaveUp(lastError: string)

  /** The signer list of every attempt, for a given outcome of each attempt. */
  function Attempts(self: NodeId, threshold: nat, current: seq<NodeId>, outcomes: seq<Attempt>)
    : (r: seq<seq<NodeId>>)
    ensures |r| <= |outcomes|
    decreases |outcomes|
  {
    if outcomes == [] || |current| < threshold then []
    else if outcomes[0].Signature? then [current]
    else [current] + Attempts(self, threshold, Excluded(self, current, outcomes[0].text), outcomes[1..])
  }

  function Outcome(self: NodeId, threshold: nat, current: seq<NodeId>, outcomes: seq<Attempt>, lastError: string)
    : (r: Result)
    decreases |outcomes|
  {
    if outcomes == [] then GaveUp(lastError)
    else if |current| < threshold then NotEnoughSigners(|current|)
    else match outcomes[0]
      case Signature(bytes) => Signed(bytes)
      case Failure(text) => Outcome(self, threshold, Excluded(self, current, text), outcomes[1..], text)
  }

  lemma Unfold(self: NodeId, threshold: nat, current: seq<NodeId>, outcomes: seq<Attempt>, e: string)
    ensures outcomes == [] ==>
              Attempts(self, threshold, current, outcomes) == []
              && Outcome(self, threshold, current, outcomes, e) == GaveUp(e)
    ensures outcomes != [] && |current| < threshold ==>
              Attempts(self, threshold, current, outcomes) == []
              && Outcome(self, threshold, current, outcomes, e) == NotEnoughSigners(|current|)
    ensures outcomes != [] && |current| >= threshold && outcomes[0].Signature? ==>
              Attempts(self, threshold, current, outcomes) == [current]
              && Outcome(self, threshold, current, outcomes, e) == Signed(outcomes[0].bytes)
    ensures outcomes != [] && |current| >= threshold && outcomes[0].Failure? ==>
              var next := Excluded(self, current, outcomes[0].text);
              Attempts(self, threshold, current, outcomes) == [current] + Attempts(self, threshold, next, outcomes[1..])
              && Outcome(self, threshold, current, outcomes, e)
                 == Outcome(self, threshold, next, outcomes[1..], outcomes[0].text)
  {
    hide Excluded;
  }

  datatype NodeState = Ready | Signing | OtherState

  class MpcNode {
    const nodeId: NodeId
    const threshold: nat
    var state: NodeState

    constructor (nodeId: NodeId, threshold: nat, state: NodeState)
      ensures this.nodeId == nodeId && this.threshold == threshold && this.state == state
    {
      this.nodeId := nodeId;
      this.threshold := threshold;
      this.state := state;
    }

    /** `Sign`. `outcomes` holds what each signing attempt would end with. */
    method Sign(signers: seq<NodeId>, outcomes: seq<Attempt>) returns (r: Result, ghost tried: seq<seq<NodeId>>)
      requires |outcomes| == MAX_RETRIES
      modifies this`state
      ensures state == old(state)
      ensures state != Ready ==> r == NotReady && tried == []
      ensures |tried| <= 3
      ensures r.Signed? <==> tried != [] && outcomes[|tried| - 1].Signature?
      ensures r.Signed? ==> r.bytes == outcomes[|tried| - 1].bytes
      ensures r.GaveUp? ==> |tried| == 3 && outcomes[2] == Failure(r.lastError)
      ensures r.NotEnoughSigners? ==> r.have < threshold
      ensures state == Ready ==> tried == Attempts(nodeId, threshold, signers, outcomes)
      ensures state == Ready ==> r == Outcome(nodeId, threshold, signers, outcomes, "")
    {
      hide Attempts, Outcome, Excluded;
      tried := [];
      if state != Ready {
        return NotReady, tried;
      }
      r, tried := SignLoop(signers, outcomes);
      LoopResult(nodeId, threshold, signers, outcomes, "");
    }

    method SignLoop(signers: seq<NodeId>, outcomes: seq<Attempt>) returns (r: Result, ghost tried: seq<seq<NodeId>>)
      requires |outcomes| == MAX_RETRIES && state == Ready
      modifies this`state
      ensures state == Ready
      ensures tried == Attempts(nodeId, threshold, signers, outcomes)
      ensures r == Outcome(nodeId, threshold, signers, outcomes, "")
    {
      hide Attempts, Outcome, Excluded;
      tried := [];
      var current := signers;
      var lastError := "";
      assert outcomes[0..] == outcomes;
      for attempt := 0 to MAX_RETRIES
        invariant state == Ready
        invariant tried + Attempts(nodeId, threshold, current, outcomes[attempt..])
               == Attempts(nodeId, threshold, signers, outcomes)
        invariant Outcome(nodeId, threshold, current, outcomes[attempt..], lastError)
               == Outcome(nodeId, threshold, signers, outcomes, "")
      {
        Unfold(nodeId, threshold, current, outcomes[attempt..], lastError);
        if |current| < threshold {
          return NotEnoughSigners(|current|), tried;
        }
        assert outcomes[attempt..][1..] == outcomes[attempt + 1..];
        tried := tried + [current];
        state := Signing;
        var outcome := outcomes[attempt];
        state := Ready;
        match outcome {
          case Signature(bytes) =>
            return Signed(bytes), tried;
          case Failure(text) =>
            lastError := text;
            current := ExcludeFailedSigners(nodeId, current, text);
        }
      }
      Unfold(nodeId, threshold, current, outcomes[MAX_RETRIES..], lastError);
      r := GaveUp(lastError);
    }
  }

  /** How the attempts follow each other and what the loop returns: it starts with the given list, goes on
      while attempts fail and enough signers are left, and returns the first signature, the last error after
      three failures, or the number of signers that was too small. */
  lemma {:induction false} LoopResult(self: NodeId, threshold: nat, signers: seq<NodeId>, outcomes: seq<Attempt>, e: string)
    ensures var tried := Attempts(self, threshold, signers, outcomes);
            var r := Outcome(self, threshold, signers, outcomes, e);
            && |tried| <= |outcomes|
            && (outcomes != [] ==> (tried == [] <==> |signers| < threshold))
            && (tried != [] ==> tried[0] == signers)
            && (forall k :: 0 <= k < |tried| - 1 ==>
                  outcomes[k].Failure? && tried[k + 1] == Excluded(self, tried[k], outcomes[k].text))
            && (r.Signed? <==> tried != [] && outcomes[|tried| - 1].Signature?)
            && (r.Signed? ==> r.bytes == outcomes[|tried| - 1].bytes)
            && (r.GaveUp? <==> |tried| == |outcomes| && (outcomes != [] ==> outcomes[|outcomes| - 1].Failure?))
            && (r.GaveUp? ==> r.lastError == if outcomes == [] then e else outcomes[|outcomes| - 1].text)
            && (r.NotEnoughSigners? ==> r.have < threshold) && !r.NotReady?
    decreases |outcomes|
  {
    hide Excluded;
    Unfold(self, threshold, signers, outcomes, e);
    if outcomes != [] && |signers| >= threshold && outcomes[0].Failure? {
      var next := Excluded(self, signers, outcomes[0].text);
      LoopResult(self, threshold, next, outcomes[1..], outcomes[0].text);
      var rest := Attempts(self, threshold, next, outcomes[1..]);
      var tried := Attempts(self, threshold, signers, outcomes);
      assert tried == [signers] + rest;
      forall k | 0 <= k < |tried| - 1
        ensures outcomes[k].Failure? && tried[k + 1] == Excluded(self, tried[k], outcomes[k].text)
      {
        if k > 0 {
          assert tried[k] == rest[k - 1] && tried[k + 1] == rest[k] && outcomes[k] == outcomes[1..][k - 1];
        }
      }
    }
  }

  // ----- What every run of the loop keeps -----

  ghost predicate Shrinking(tried: seq<seq<NodeId>>) {
    forall k :: 0 <= k < |tried| - 1 ==> |tried[k + 1]| < |tried[k]|
  }

  /** Every attempt works on a subsequence of the given list with at least `threshold` members, distinct
      when the given ones are; the next attempt's list is a subsequence of this one's and shorter exactly
      when this one has two or more members. */
  ghost predicate AttemptsGood(threshold: nat, signers: seq<NodeId>, tried: seq<seq<NodeId>>) {
    && (forall k :: 0 <= k < |tried| ==> |tried[k]| >= threshold && Subsequence(tried[k], signers))
    && (forall k :: 0 <= k < |tried| && Distinct(signers) ==> Distinct(tried[k]))
    && (forall k :: 0 <= k < |tried| - 1 ==> Subsequence(tried[k + 1], tried[k]))
    && (forall k :: 0 <= k < |tried| - 1 ==> (|tried[k + 1]| < |tried[k]| <==> |tried[k]| >= 2))
  }

  lemma {:induction false} EveryAttemptGood(self: NodeId, threshold: nat, signers: seq<NodeId>, outcomes: seq<Attempt>)
    ensures AttemptsGood(threshold, signers, Attempts(self, threshold, signers, outcomes))
    decreases |outcomes|
  {
    hide Subsequence, Distinct, Excluded;
    SubsequenceRefl(signers);
    var tried := Attempts(self, threshold, signers, outcomes);
    if tried != [] && outcomes[0].Failure? {
      var next := Excluded(self, signers, outcomes[0].text);
      var rest := Attempts(self, threshold, next, outcomes[1..]);
      ExclusionShrinks(self, signers, outcomes[0].text);
      EveryAttemptGood(self, threshold, next, outcomes[1..]);
      assert tried == [signers] + rest;
      if rest != [] {
        assert rest[0] == next;
      }
      if Distinct(signers) {
        SubsequenceDistinct(next, signers);
      }
      forall k | 0 <= k < |tried| ensures |tried[k]| >= threshold && Subsequence(tried[k], signers) {
        if k > 0 {
          assert tried[k] == rest[k - 1];
          SubsequenceTransitive(tried[k], next, signers);
        }
      }
    }
  }

  /** With a threshold of at least two every retry works with strictly fewer signers, so there are at
      most `n - t + 1` attempts (and never more than the retry limit). */
  lemma {:induction false} AttemptsBounded(self: NodeId, threshold: nat, signers: seq<NodeId>, outcomes: seq<Attempt>)
    requires threshold >= 2
    ensures Shrinking(Attempts(self, threshold, signers, outcomes))
    ensures |Attempts(self, threshold, signers, outcomes)| <= |outcomes|
    ensures |Attempts(self, threshold, signers, outcomes)|
         <= if |signers| < threshold then 0 else |signers| - threshold + 1
    decreases |outcomes|
  {
    EveryAttemptGood(self, threshold, signers, outcomes);
    if outcomes != [] && |signers| >= threshold && outcomes[0].Failure? {
      ExclusionShrinks(self, signers, outcomes[0].text);
      AttemptsBounded(self, threshold, Excluded(self, signers, outcomes[0].text), outcomes[1..]);
    }
  }

  /** Distinct signers are lost at most one per attempt. */
  lemma {:induction false} AttemptLengths(self: NodeId, threshold: nat, signers: seq<NodeId>, outcomes: seq<Attempt>, k: nat)
    requires Distinct(signers) && k < |Attempts(self, threshold, signers, outcomes)|
    ensures |Attempts(self, threshold, signers, outcomes)[k]| >= |signers| - k
    decreases k
  {
    hide Distinct, Subsequence, Excluded;
    Unfold(self, threshold, signers, outcomes, "");
    if k > 0 {
      var next := Excluded(self, signers, outcomes[0].text);
      ExclusionShrinks(self, signers, outcomes[0].text);
      SubsequenceDistinct(next, signers);
      AttemptLengths(self, threshold, next, outcomes[1..], k - 1);
    }
  }

  lemma ManySignersShrink(self: NodeId, threshold: nat, signers: seq<NodeId>, outcomes: seq<Attempt>)
    requires Distinct(signers) && |signers| >= 3 && |outcomes| == MAX_RETRIES
    ensures Shrinking(Attempts(self, threshold, signers, outcomes))
  {
    var tried := Attempts(self, threshold, signers, outcomes);
    EveryAttemptGood(self, threshold, signers, outcomes);
    forall k | 0 <= k < |tried| - 1 ensures |tried[k + 1]| < |tried[k]| {
      AttemptLengths(self, threshold, signers, outcomes, k);
    }
  }

  /** Three failures in a row, with texts that name nobody. */
  function AllFail(): (r: seq<Attempt>) {
    [Failure(""), Failure(""), Failure("")]
  }

  lemma FewSignersRepeat(self: NodeId, threshold: nat, signers: seq<NodeId>)
    requires threshold <= 1 && threshold <= |signers| <= 2
    ensures |Attempts(self, threshold, signers, AllFail())| == 3
    ensures !Shrinking(Attempts(self, threshold, signers, AllFail()))
  {
    hide Excluded, Attempts, Subsequence;
    var second := Excluded(self, signers, "");
    var third := Excluded(self, second, "");
    ExclusionShrinks(self, signers, "");
    ExclusionShrinks(self, second, "");
    assert AllFail()[1..][0] == Failure("") && AllFail()[1..][1..][0] == Failure("");
    Unfold(self, threshold, signers, AllFail(), "");
    ExcludedKeepsOne(self, signers);
    Unfold(self, threshold, second, AllFail()[1..], "");
    ExcludedKeepsOne(self, second);
    Unfold(self, threshold, third, AllFail()[1..][1..], "");
    ExcludedKeepsOne(self, third);
    Unfold(self, threshold, Excluded(self, third, ""), AllFail()[1..][1..][1..], "");
    var tried := Attempts(self, threshold, signers, AllFail());
    assert tried == [signers, second, third];
    assert |tried[2]| == |tried[1]|;
  }

  lemma ExcludedKeepsOne(self: NodeId, signers: seq<NodeId>)
    requires |signers| <= 2
    ensures |Excluded(self, signers, "")| == if |signers| == 2 then 1 else |signers|
  {
    NobodyNamed(self);
  }

  lemma NobodyNamed(self: NodeId)
    ensures forall id :: !Names(self, "", id)
  {
    forall id ensures !Names(self, "", id) {
      assert |PeerText(id)| > 0;
    }
  }

  /** Below a threshold of two the lists can repeat. For distinct signers, the lists shrink on every retry
      of every run exactly when the threshold is at least two, or there are at least three signers, or too
      few to start. */
  lemma ShrinksExactlyWhen(self: NodeId, threshold: nat, signers: seq<NodeId>)
    requires Distinct(signers)
    ensures (forall outcomes: seq<Attempt> | |outcomes| == MAX_RETRIES ::
               Shrinking(Attempts(self, threshold, signers, outcomes)))
       <==> threshold >= 2 || |signers| >= 3 || |signers| < threshold
  {
    hide Distinct, Attempts, Excluded, Shrinking;
    if threshold >= 2 || |signers| >= 3 || |signers| < threshold {
      forall outcomes: seq<Attempt> | |outcomes| == MAX_RETRIES
        ensures Shrinking(Attempts(self, threshold, signers, outcomes))
      {
        if threshold >= 2 {
          AttemptsBounded(self, threshold, signers, outcomes);
        } else if |signers| >= 3 {
          ManySignersShrink(self, threshold, signers, outcomes);
        } else {
          Unfold(self, threshold, signers, outcomes, "");
          NothingShrinks();
        }
      }
    } else {
      FewSignersRepeat(self, threshold, signers);
      assert |AllFail()| == MAX_RETRIES;
    }
  }

  lemma NothingShrinks()
    ensures Shrinking([])
  {
  }

  /** A lone signer at threshold one is tried three times over. */
  lemma LoneSignerRepeats(self: NodeId, id: NodeId)
    ensures Attempts(self, 1, [id], AllFail()) == [[id], [id], [id]]
  {
    var outs := AllFail();
    assert outs[1..] == [Failure(""), Failure("")] && outs[1..][1..] == [Failure("")];
    Unfold(self, 1, [id], outs, "");
    Unfold(self, 1, [id], outs[1..], "");
    Unfold(self, 1, [id], outs[1..][1..], "");
  }
}
