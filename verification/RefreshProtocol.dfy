/** Whole refresh epochs over a cluster of share holders, built from the enclave and coordinator
    operations, and what they do to the shared secret. */
module RefreshProtocol {
  import opened PrimeField
  import opened FiniteSums
  import opened Polynomials
  import opened Bytes
  import opened Nodes
  import opened ShareRefresh

  type Shares = map<NodeId, nat>

  /** One call of the coordinator. `dealers` are the peers whose round-1 answer arrived, with the
      coefficients each drew; `applied` are the peers whose round-2 request got through. */
  datatype Epoch = Epoch(
    coordinator: NodeId, peers: set<NodeId>, dealers: map<NodeId, seq<nat>>, applied: set<NodeId>)

  ghost predicate WellFormed(e: Epoch, threshold: nat) {
    && e.dealers.Keys <= e.peers && e.applied <= e.peers
    && forall i :: i in e.dealers ==> |e.dealers[i]| + 1 == threshold
  }

  /** What the coordinator holds after round 1 when every dealer runs the enclave code. */
  ghost function Collected(p: int, e: Epoch): (r: Matrix)
    requires 2 <= p
  {
    map i | i in e.dealers :: Dealt(p, e.dealers[i], e.peers + {e.coordinator})
  }

  /** The shares after the epoch: applied peers add their routed column, everyone else keeps theirs. */
  ghost function NextShares(p: int, shares: Shares, e: Epoch): (r: Shares)
    requires 2 <= p
  {
    map id | id in shares ::
      if id in e.applied then ShareAfter(p, shares[id], Column(Collected(p, e), id)) else shares[id]
  }

  ghost function RunEpochs(p: int, shares: Shares, epochs: seq<Epoch>): (r: Shares)
    requires 2 <= p
  {
    if epochs == [] then shares else RunEpochs(p, NextShares(p, shares, epochs[0]), epochs[1..])
  }

  ghost predicate OnPoly(p: int, shares: Shares, c: Poly) {
    forall id :: id in shares ==> Cong(p, shares[id], Eval(c, id))
  }

  function ShareAt(shares: Shares): (r: nat -> int) {
    (i: nat) => if i < 0x1_0000_0000 && i in shares then shares[i] else 0
  }

  /** Shamir reconstruction from the members of `quorum`. */
  ghost function Reconstruct(p: int, shares: Shares, quorum: set<NodeId>): (r: int)
    requires 2 <= p
  {
    AtZero(p, quorum, ShareAt(shares)) % p
  }

  // ----- The common polynomial -----

  /** The sum of all dealt polynomials. */
  ghost function Total(dealers: map<NodeId, seq<nat>>, over: set<NodeId>): (r: Poly)
    requires over <= dealers.Keys
    decreases |over|
  {
    if over == {} then [] else
      var i :| i in over;
      PolyAdd(ZeroConstant(dealers[i]), Total(dealers, over - {i}))
  }

  ghost function DealtPoly(e: Epoch): (r: Poly) {
    Total(e.dealers, e.dealers.Keys)
  }

  ghost function DealtAt(dealers: map<NodeId, seq<nat>>, x: nat): (r: nat -> int) {
    (i: nat) => if i < 0x1_0000_0000 && i in dealers then Eval(ZeroConstant(dealers[i]), x) else 0
  }

  lemma {:induction false} TotalEval(dealers: map<NodeId, seq<nat>>, over: set<NodeId>, x: nat)
    requires over <= dealers.Keys
    ensures Eval(Total(dealers, over), x) == Sum(over, DealtAt(dealers, x))
    decreases |over|
  {
    hide Eval;
    if over == {} {
      EvalNil(x);
    } else {
      var i :| i in over && Total(dealers, over) == PolyAdd(ZeroConstant(dealers[i]), Total(dealers, over - {i}));
      EvalAdd(ZeroConstant(dealers[i]), Total(dealers, over - {i}), x);
      TotalEval(dealers, over - {i}, x);
      SumTake(over, DealtAt(dealers, x), i);
    }
  }

  lemma EvalNil(x: int)
    ensures Eval([], x) == 0
  {
  }

  lemma {:induction false} TotalShape(dealers: map<NodeId, seq<nat>>, over: set<NodeId>, threshold: nat)
    requires over <= dealers.Keys
    requires forall i :: i in dealers ==> |dealers[i]| + 1 == threshold
    ensures |Total(dealers, over)| <= threshold
    ensures Eval(Total(dealers, over), 0) == 0
    decreases |over|
  {
    if over != {} {
      var i :| i in over && Total(dealers, over) == PolyAdd(ZeroConstant(dealers[i]), Total(dealers, over - {i}));
      TotalShape(dealers, over - {i}, threshold);
      EvalAdd(ZeroConstant(dealers[i]), Total(dealers, over - {i}), 0);
      assert Eval(ZeroConstant(dealers[i]), 0) == 0;
    }
  }

  /** What dealer `i` addresses to `id` is accepted there and is the dealer's polynomial at `id`. */
  lemma ColumnEntry(p: int, e: Epoch, id: NodeId, i: NodeId)
    requires ScalarField(p) && id in e.peers + {e.coordinator} && i in e.dealers
    ensures var column := Column(Collected(p, e), id);
            i in column && Canonical(p, column[i]) &&
            Cong(p, ScalarAt(column)(i), DealtAt(e.dealers, id)(i))
  {
    hide IsPrime, Cong, Eval, Pow256, ToLE, FromLE;
    var column := Column(Collected(p, e), id);
    var v := Eval(ZeroConstant(e.dealers[i]), id);
    assert column[i] == EncodeScalar(v % p);
    ScalarRoundTrip(p, v % p);
    CongMod(p, v);
  }

  lemma ColumnKeys(p: int, e: Epoch, id: NodeId)
    requires 2 <= p && id in e.peers + {e.coordinator}
    ensures Column(Collected(p, e), id).Keys == e.dealers.Keys
  {
  }

  /** Every participant's column sums to the value, at its own id, of one common polynomial. */
  lemma RoutedShiftIsCommonPolynomial(p: int, e: Epoch, id: NodeId)
    requires ScalarField(p) && id in e.peers + {e.coordinator}
    ensures AllCanonical(p, Column(Collected(p, e), id))
    ensures Column(Collected(p, e), id).Keys == e.dealers.Keys
    ensures Cong(p, ReceivedSum(Column(Collected(p, e), id)), Eval(DealtPoly(e), id))
  {
    hide IsPrime, Cong, Sum, Eval, Canonical, ScalarAt, DealtAt, FromLE, Column, Collected, Pow256;
    ColumnKeys(p, e, id);
    var column := Column(Collected(p, e), id);
    forall i: NodeId | i in e.dealers
      ensures i in column && Canonical(p, column[i])
      ensures Cong(p, ScalarAt(column)(i), DealtAt(e.dealers, id)(i))
    {
      ColumnEntry(p, e, id, i);
    }
    SumCong(p, e.dealers.Keys, ScalarAt(column), DealtAt(e.dealers, id));
    TotalEval(e.dealers, e.dealers.Keys, id);
  }

  /** An applied share moves by the common polynomial's value at its id. */
  lemma AppliedShare(p: int, shares: Shares, e: Epoch, id: NodeId)
    requires ScalarField(p) && id in shares && id in e.applied && e.applied <= e.peers
    ensures Cong(p, NextShares(p, shares, e)[id], shares[id] + Eval(DealtPoly(e), id))
  {
    hide IsPrime, Cong, Sum, Product, Eval, Pow256, ToLE, FromLE;
    var sum := ReceivedSum(Column(Collected(p, e), id));
    RoutedShiftIsCommonPolynomial(p, e, id);
    CongMod(p, shares[id] + sum);
    CongRefl(p, shares[id]);
    CongAdd(p, shares[id], shares[id], sum, Eval(DealtPoly(e), id));
    CongTrans(p, NextShares(p, shares, e)[id], shares[id] + sum, shares[id] + Eval(DealtPoly(e), id));
  }

  // ----- The secret is unchanged -----

  /** One epoch moves the shares to another polynomial of the same degree bound and constant term. */
  lemma EpochKeepsPolynomial(p: int, threshold: nat, shares: Shares, c: Poly, e: Epoch)
    requires ScalarField(p) && WellFormed(e, threshold)
    requires OnPoly(p, shares, c) && |c| <= threshold
    requires shares.Keys <= e.applied
    ensures OnPoly(p, NextShares(p, shares, e), PolyAdd(c, DealtPoly(e)))
    ensures |PolyAdd(c, DealtPoly(e))| <= threshold
    ensures Eval(PolyAdd(c, DealtPoly(e)), 0) == Eval(c, 0)
  {
    hide IsPrime, Cong, Eval, Collected, ShareAfter;
    var q := DealtPoly(e);
    TotalShape(e.dealers, e.dealers.Keys, threshold);
    EvalAdd(c, q, 0);
    var next := NextShares(p, shares, e);
    forall id | id in next ensures Cong(p, next[id], Eval(PolyAdd(c, q), id)) {
      MovedShare(p, shares, c, e, id);
    }
  }

  lemma MovedShare(p: int, shares: Shares, c: Poly, e: Epoch, id: NodeId)
    requires ScalarField(p) && id in shares && id in e.applied && e.applied <= e.peers
    requires OnPoly(p, shares, c)
    ensures Cong(p, NextShares(p, shares, e)[id], Eval(PolyAdd(c, DealtPoly(e)), id))
  {
    hide IsPrime, Cong, Eval, Collected, ShareAfter;
    var q := DealtPoly(e);
    AppliedShare(p, shares, e, id);
    CongRefl(p, Eval(q, id));
    CongAdd(p, shares[id], Eval(c, id), Eval(q, id), Eval(q, id));
    EvalAdd(c, q, id);
    CongTrans(p, NextShares(p, shares, e)[id], shares[id] + Eval(q, id), Eval(PolyAdd(c, q), id));
  }

  lemma IdsAreDistinctResidues(p: int, ids: set<NodeId>)
    requires ScalarField(p)
    ensures DistinctResidues(p, ids)
  {
    forall x, y | x in ids && y in ids && x != y ensures !Cong(p, x, y) {
      SmallDistinct(p, x, y);
    }
  }

  /** Any quorum of at least `threshold` holders reconstructs the constant term. */
  lemma ReconstructsConstantTerm(p: int, threshold: nat, shares: Shares, c: Poly, quorum: set<NodeId>)
    requires ScalarField(p) && OnPoly(p, shares, c) && |c| <= threshold
    requires quorum <= shares.Keys && threshold <= |quorum|
    ensures Reconstruct(p, shares, quorum) == Eval(c, 0) % p
  {
    IdsAreDistinctResidues(p, quorum);
    InterpolatesConstantTerm(p, quorum, c);
    AtZeroCong(p, quorum, ShareAt(shares), Values(c));
    CongTrans(p, AtZero(p, quorum, ShareAt(shares)), AtZero(p, quorum, Values(c)), Eval(c, 0));
    CongIffSameResidue(p, AtZero(p, quorum, ShareAt(shares)), Eval(c, 0));
  }

  /** Refresh keeps the key: whatever the threshold, the dealers that answered and their coefficients,
      and however many epochs run, every quorum still reconstructs the original secret, provided every
      share holder applied every epoch. */
  lemma {:induction false} RefreshKeepsSecret(
    p: int, threshold: nat, shares: Shares, c: Poly, epochs: seq<Epoch>, quorum: set<NodeId>)
    requires ScalarField(p) && OnPoly(p, shares, c) && |c| <= threshold
    requires forall e :: e in epochs ==> WellFormed(e, threshold) && shares.Keys <= e.applied
    requires quorum <= shares.Keys && threshold <= |quorum|
    ensures Reconstruct(p, RunEpochs(p, shares, epochs), quorum) == Eval(c, 0) % p
    decreases |epochs|
  {
    if epochs == [] {
      ReconstructsConstantTerm(p, threshold, shares, c, quorum);
    } else {
      var e := epochs[0];
      EpochKeepsPolynomial(p, threshold, shares, c, e);
      RefreshKeepsSecret(p, threshold, NextShares(p, shares, e), PolyAdd(c, DealtPoly(e)), epochs[1..], quorum);
    }
  }

  // ----- Shares that miss an epoch -----

  ghost function Missing(e: Epoch, quorum: set<NodeId>): (r: set<NodeId>) {
    quorum - e.applied
  }

  /** The interpolation terms after the epoch, up to congruence. */
  ghost function MovedTerms(p: int, c: Poly, e: Epoch, quorum: set<NodeId>): (r: nat -> int)
    requires 2 <= p
  {
    var q := DealtPoly(e);
    var g, h := Term(p, quorum, Values(PolyAdd(c, q))), Term(p, quorum, Values(q));
    (x: nat) => if x in Missing(e, quorum) then 1 * g(x) + (0 - 1) * h(x) else g(x)
  }

  lemma MovedTerm(p: int, shares: Shares, c: Poly, e: Epoch, quorum: set<NodeId>, x: NodeId)
    requires ScalarField(p) && e.applied <= e.peers
    requires OnPoly(p, shares, c) && x in quorum && quorum <= shares.Keys
    ensures Cong(p, Term(p, quorum, ShareAt(NextShares(p, shares, e)))(x), MovedTerms(p, c, e, quorum)(x))
  {
    hide IsPrime, Cong, Eval, Basis, NextShares, ShareAt, PolyAdd, DealtPoly, Pow256;
    NextShareAt(p, shares, e, x);
    var q := DealtPoly(e);
    var b := Basis(p, quorum, x);
    if x in e.applied {
      MovedShare(p, shares, c, e, x);
      CongScale(p, b, NextShares(p, shares, e)[x], Eval(PolyAdd(c, q), x));
    } else {
      EvalAdd(c, q, x);
      CongScale(p, b, shares[x], Eval(c, x));
      TakeBack(b, Eval(c, x), Eval(q, x));
    }
  }

  lemma NextShareAt(p: int, shares: Shares, e: Epoch, x: NodeId)
    requires 2 <= p && x in shares
    ensures x in NextShares(p, shares, e)
    ensures ShareAt(NextShares(p, shares, e))(x) == NextShares(p, shares, e)[x]
    ensures x !in e.applied ==> NextShares(p, shares, e)[x] == shares[x]
  {
  }

  lemma TakeBack(b: int, cx: int, qx: int)
    ensures b * cx == 1 * (b * (cx + qx)) + (0 - 1) * (b * qx)
  {
    assert b * (cx + qx) == b * cx + b * qx;
  }

  lemma MovedTermsSum(p: int, c: Poly, e: Epoch, quorum: set<NodeId>)
    requires 2 <= p
    ensures Sum(quorum, MovedTerms(p, c, e, quorum))
         == AtZero(p, quorum, Values(PolyAdd(c, DealtPoly(e))))
            - Sum(Missing(e, quorum), Term(p, quorum, Values(DealtPoly(e))))
  {
    hide Sum, Basis, Values, PolyAdd, DealtPoly;
    var missing := Missing(e, quorum);
    var kept := quorum - missing;
    var w := MovedTerms(p, c, e, quorum);
    var g, h := Term(p, quorum, Values(PolyAdd(c, DealtPoly(e)))), Term(p, quorum, Values(DealtPoly(e)));
    assert quorum == missing + kept;
    SumSplit(missing, kept, w);
    SumSplit(missing, kept, g);
    SumLinear(missing, 1, g, 0 - 1, h, w);
    SumSame(kept, w, g);
  }

  /** What a quorum reconstructs when some members missed the epoch: the secret, off by the
      Lagrange-weighted shifts those members did not add. */
  lemma MissedApplyShiftsSecret(p: int, threshold: nat, shares: Shares, c: Poly, e: Epoch, quorum: set<NodeId>)
    requires ScalarField(p) && WellFormed(e, threshold)
    requires OnPoly(p, shares, c) && |c| <= threshold
    requires quorum <= shares.Keys && threshold <= |quorum|
    ensures Cong(p, AtZero(p, quorum, ShareAt(NextShares(p, shares, e))),
                 Eval(c, 0) - Sum(Missing(e, quorum), Term(p, quorum, Values(DealtPoly(e)))))
  {
    hide IsPrime, Cong, Sum, Eval, Values, ShareAt, NextShares, Basis, MovedTerms, Term;
    var q := DealtPoly(e);
    var f, w := Term(p, quorum, ShareAt(NextShares(p, shares, e))), MovedTerms(p, c, e, quorum);
    forall x: NodeId | x in quorum ensures Cong(p, f(x), w(x)) {
      MovedTerm(p, shares, c, e, quorum, x);
    }
    SumCong(p, quorum, f, w);
    MovedTermsSum(p, c, e, quorum);
    IdsAreDistinctResidues(p, quorum);
    TotalShape(e.dealers, e.dealers.Keys, threshold);
    EvalAdd(c, q, 0);
    InterpolatesConstantTerm(p, quorum, PolyAdd(c, q));
    var owed := Sum(Missing(e, quorum), Term(p, quorum, Values(q)));
    CongRefl(p, 0 - owed);
    CongAdd(p, AtZero(p, quorum, Values(PolyAdd(c, q))), Eval(c, 0), 0 - owed, 0 - owed);
    CongTrans(p, Sum(quorum, f), Sum(quorum, w), Eval(c, 0) - owed);
  }

  /** The coordinator builds its own column but never adds it to its share. Unless it is listed among
      its own peers, a quorum that includes it therefore still reconstructs the secret exactly when the
      evaluations the coordinator was dealt sum to zero. */
  lemma CoordinatorShareGoesStale(p: int, threshold: nat, shares: Shares, c: Poly, e: Epoch, quorum: set<NodeId>)
    requires ScalarField(p) && WellFormed(e, threshold)
    requires OnPoly(p, shares, c) && |c| <= threshold
    requires quorum <= shares.Keys && threshold <= |quorum| && 0 !in quorum
    requires e.coordinator !in e.peers
    requires e.coordinator in quorum && quorum - {e.coordinator} <= e.applied
    ensures Reconstruct(p, NextShares(p, shares, e), quorum) == Eval(c, 0) % p
       <==> ReceivedSum(Column(Collected(p, e), e.coordinator)) % p == 0
  {
    hide IsPrime, Cong, Sum, Product, Eval, Basis, Pow256, ToLE, FromLE;
    var k, q := e.coordinator, DealtPoly(e);
    var h := Term(p, quorum, Values(q));
    var total := AtZero(p, quorum, ShareAt(NextShares(p, shares, e)));
    var mine := ReceivedSum(Column(Collected(p, e), k));
    MissedApplyShiftsSecret(p, threshold, shares, c, e, quorum);
    assert Missing(e, quorum) == {k};
    SumOne(k, h);
    RoutedShiftIsCommonPolynomial(p, e, k);
    CoordinatorWeight(p, quorum, k);
    OffByMultiple(p, total, Eval(c, 0), Basis(p, quorum, k), Eval(q, k), mine);
    CongIffSameResidue(p, total, Eval(c, 0));
    CongIffSameResidue(p, mine, 0);
    SmallResidue(p, 0);
  }

  lemma SumOne(k: nat, f: nat -> int)
    ensures Sum({k}, f) == f(k)
  {
    SumTake({k}, f, k);
    assert {k} - {k} == {};
    assert Sum({}, f) == 0;
  }

  lemma CoordinatorWeight(p: int, quorum: set<NodeId>, k: NodeId)
    requires ScalarField(p) && k in quorum && 0 !in quorum
    ensures !Cong(p, Basis(p, quorum, k), 0)
  {
    IdsAreDistinctResidues(p, quorum);
    forall y | y in quorum ensures !Cong(p, y, 0) {
      SmallDistinct(p, y, 0);
    }
    BasisNonZero(p, quorum, k);
  }

  lemma OffByMultiple(p: int, total: int, secret: int, b: int, q: int, mine: int)
    requires IsPrime(p) && !Cong(p, b, 0)
    requires Cong(p, total, secret - b * q) && Cong(p, mine, q)
    ensures Cong(p, total, secret) <==> Cong(p, mine, 0)
  {
    CongSym(p, mine, q);
    if Cong(p, total, secret) {
      CongSym(p, total, secret);
      CongTrans(p, secret, total, secret - b * q);
      CongDiff(p, secret, secret - b * q);
      NoZeroDivisors(p, b, q);
      CongTrans(p, mine, q, 0);
    }
    if Cong(p, mine, 0) {
      CongTrans(p, q, mine, 0);
      CongScale(p, 0 - b, q, 0);
      assert (0 - b) * q == 0 - b * q;
      CongRefl(p, secret);
      CongAdd(p, secret, secret, 0 - b * q, 0);
      CongTrans(p, total, secret - b * q, secret);
    }
  }

  // ----- A concrete failing epoch: 2-of-3, node 1 coordinating, node 2 dealing `1 * x` -----

  ghost const ExampleEpoch: Epoch := Epoch(1, {2, 3}, map[2 := [1]], {2, 3})

  ghost const ExampleShares: Shares := map[1 := 5, 2 := 5, 3 := 5]

  lemma ConstantFive(x: int)
    ensures Eval([5], x) == 5
  {
    assert [5][1..] == [];
    EvalNil(x);
  }

  lemma ExampleOnPoly(p: int)
    ensures OnPoly(p, ExampleShares, [5])
  {
    forall id: NodeId | id in ExampleShares ensures Cong(p, ExampleShares[id], Eval([5], id)) {
      ConstantFive(id);
      CongRefl(p, 5);
    }
  }

  lemma ExampleShift(p: int)
    requires ScalarField(p)
    ensures ReceivedSum(Column(Collected(p, ExampleEpoch), 1)) % p == 1
  {
    hide IsPrime, Cong, Sum, Column, Collected, ReceivedSum, Total;
    var over: set<NodeId> := {2};
    assert ExampleEpoch.dealers.Keys == over;
    TotalEval(ExampleEpoch.dealers, over, 1);
    SumOne(2, DealtAt(ExampleEpoch.dealers, 1));
    assert ZeroConstant([1]) == [0, 1];
    IdentityPoly(1);
    assert Eval(DealtPoly(ExampleEpoch), 1) == 1;
    RoutedShiftIsCommonPolynomial(p, ExampleEpoch, 1);
    CongIffSameResidue(p, ReceivedSum(Column(Collected(p, ExampleEpoch), 1)), 1);
    SmallResidue(p, 1);
  }

  lemma ExamplePeersAgree(p: int)
    requires ScalarField(p)
    ensures Reconstruct(p, NextShares(p, ExampleShares, ExampleEpoch), {2, 3}) == 5
  {
    hide IsPrime, Cong, NextShares, AtZero, Eval, DealtPoly;
    ExampleOnPoly(p);
    assert |{2, 3}| == 2;
    MissedApplyShiftsSecret(p, 2, ExampleShares, [5], ExampleEpoch, {2, 3});
    assert Missing(ExampleEpoch, {2, 3}) == {};
    ConstantFive(0);
    CongIffSameResidue(p, AtZero(p, {2, 3}, ShareAt(NextShares(p, ExampleShares, ExampleEpoch))), 5);
    SmallResidue(p, 5);
  }

  /** After this epoch the two peers still agree on the secret 5, but the coordinator's quorum does not. */
  lemma StaleCoordinatorExample(p: int)
    requires ScalarField(p)
    ensures WellFormed(ExampleEpoch, 2) && OnPoly(p, ExampleShares, [5])
    ensures Reconstruct(p, NextShares(p, ExampleShares, ExampleEpoch), {2, 3}) == 5
    ensures Reconstruct(p, NextShares(p, ExampleShares, ExampleEpoch), {1, 2}) != 5
  {
    hide IsPrime, Cong, NextShares, Reconstruct, Eval, ReceivedSum;
    ExampleOnPoly(p);
    ExamplePeersAgree(p);
    assert |{1, 2}| == 2;
    CoordinatorShareGoesStale(p, 2, ExampleShares, [5], ExampleEpoch, {1, 2});
    ExampleShift(p);
    ConstantFive(0);
    SmallResidue(p, 5);
  }
}
