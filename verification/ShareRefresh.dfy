/** Same-key share refresh: the enclave's polynomial evaluation and share update
    (cmd/mpc-enclave/src/crypto.rs) and the coordinator's routing of evaluations
    (pkg/mpc/node/refresh_orchestrator.go). */
module ShareRefresh {
  import opened PrimeField
  import opened FiniteSums
  import opened Polynomials
  import opened Bytes
  import opened Nodes

  const SCALAR_BYTES: nat := 32

  /** The scalar field: a prime order, wider than node ids and no wider than a 32-byte scalar. */
  ghost predicate ScalarField(p: int) {
    IsPrime(p) && 0x1_0000_0000 <= p <= Pow256(SCALAR_BYTES)
  }

  type Wire = seq<Byte>

  // ----- Scalars on the wire -----

  function EncodeScalar(v: nat): (r: Wire)
    ensures |r| == SCALAR_BYTES
  {
    ToLE(v, SCALAR_BYTES)
  }

  predicate Canonical(p: int, w: Wire) {
    |w| == SCALAR_BYTES && FromLE(w) < p
  }

  /** What one dealer sends is accepted by the receiver and read back as the same scalar. */
  lemma ScalarRoundTrip(p: int, v: nat)
    requires ScalarField(p) && v < p
    ensures |EncodeScalar(v)| == 32 && FromLE(EncodeScalar(v)) == v
    ensures Canonical(p, EncodeScalar(v))
  {
    LittleEndianRoundTrip(v, SCALAR_BYTES);
  }

  // ----- Round 1: evaluating a zero-constant polynomial -----

  function Power(x: int, n: nat): (r: int) {
    if n == 0 then 1 else x * Power(x, n - 1)
  }

  lemma {:induction false} EvalSnoc(c: Poly, a: int, x: int)
    ensures Eval(c + [a], x) == Eval(c, x) + a * Power(x, |c|)
  {
    if c == [] {
      assert (c + [a])[1..] == [];
      assert Eval([a], x) == a + x * Eval([a][1..], x);
    } else {
      EvalSnoc(c[1..], a, x);
      assert (c + [a])[1..] == c[1..] + [a];
      Rearrange(c[0], x, Eval(c[1..], x), a, Power(x, |c| - 1));
    }
  }

  lemma Rearrange(c0: int, x: int, e: int, a: int, w: int)
    ensures c0 + x * (e + a * w) == (c0 + x * e) + a * (x * w)
  {
    assert x * (a * w) == a * (x * w);
    assert x * (e + a * w) == x * e + x * (a * w);
  }

  /** The polynomial a dealer draws: its random coefficients above a zero constant term. */
  function ZeroConstant(coefficients: seq<nat>): (r: Poly) {
    [0] + coefficients
  }

  /** Powers multiply as powers do. */
  lemma {:induction false} PowerLaw(x: int, m: nat, n: nat)
    ensures Power(x, 0) == 1 && Power(x, 1) == x
    ensures Power(x, m + n) == Power(x, m) * Power(x, n)
    decreases m
  {
    assert Power(x, 1) == x * Power(x, 0);
    if m > 0 {
      PowerLaw(x, m - 1, n);
      MulAssociates(x, Power(x, m - 1), Power(x, n));
    }
  }

  lemma MulAssociates(a: int, b: int, c: int)
    ensures a * (b * c) == (a * b) * c
  {
  }

  function Indices(n: nat): (r: set<nat>)
    ensures forall k: nat :: k in r <==> k < n
  {
    if n == 0 then {} else Indices(n - 1) + {n - 1}
  }

  /** The term a_{k+1} x^{k+1} of the dealer's polynomial. */
  function Monomial(coefficients: seq<nat>, x: nat): (r: nat -> int) {
    (k: nat) => if k < |coefficients| then coefficients[k] * Power(x, k + 1) else 0
  }

  /** P(x) = a_1 x + a_2 x^2 + ... + a_{t-1} x^{t-1}. */
  ghost function PowerSum(coefficients: seq<nat>, x: nat): (r: int) {
    Sum(Indices(|coefficients|), Monomial(coefficients, x))
  }

  lemma {:induction false} EvalIsPowerSum(coefficients: seq<nat>, x: nat)
    ensures Eval(ZeroConstant(coefficients), x) == PowerSum(coefficients, x)
    decreases |coefficients|
  {
    if coefficients == [] {
      assert Indices(0) == {};
      assert Eval([0], x) == 0 + x * Eval([0][1..], x);
      assert ZeroConstant(coefficients) == [0];
    } else {
      hide Sum, Eval, Power;
      var n := |coefficients| - 1;
      var before := coefficients[..n];
      EvalIsPowerSum(before, x);
      EvalSnoc(ZeroConstant(before), coefficients[n], x);
      assert ZeroConstant(coefficients) == ZeroConstant(before) + [coefficients[n]];
      SumTake(Indices(n + 1), Monomial(coefficients, x), n);
      assert Indices(n + 1) - {n} == Indices(n);
      SumSame(Indices(n), Monomial(coefficients, x), Monomial(before, x));
    }
  }

  /** The running-power loop for one participant. */
  method EvaluateAt(p: nat, coefficients: seq<nat>, x: nat) returns (result: nat)
    requires 2 <= p
    ensures result < p
    ensures Cong(p, result, Sum(Indices(|coefficients|), Monomial(coefficients, x)))
    ensures result == Eval(ZeroConstant(coefficients), x) % p
  {
    result := 0;
    var xPower := x % p;
    assert Eval([0], x) == 0 + x * Eval([0][1..], x);
    CongMod(p, x);
    CongRefl(p, 0);
    assert Power(x, 1) == x * Power(x, 0);
    assert coefficients[..0] == [];
    for i := 0 to |coefficients|
      invariant result < p
      invariant Cong(p, result, Eval(ZeroConstant(coefficients[..i]), x))
      invariant Cong(p, xPower, Power(x, i + 1))
    {
      ghost var e, w := Eval(ZeroConstant(coefficients[..i]), x), Power(x, i + 1);
      ghost var r0, w0 := result, xPower;
      result := (result + coefficients[i] * xPower) % p;
      xPower := (xPower * x) % p;
      PowerStep(p, r0, e, coefficients[i], w0, w, x);
      EvalSnoc(ZeroConstant(coefficients[..i]), coefficients[i], x);
      assert ZeroConstant(coefficients[..i + 1]) == ZeroConstant(coefficients[..i]) + [coefficients[i]];
      assert Power(x, i + 2) == x * Power(x, i + 1);
    }
    assert coefficients[..|coefficients|] == coefficients;
    EvalIsPowerSum(coefficients, x);
    CongIffSameResidue(p, result, Eval(ZeroConstant(coefficients), x));
    SmallResidue(p, result);
  }

  lemma SmallResidue(p: int, v: int)
    requires 0 <= v < p
    ensures v % p == v
  {
    CongMod(p, v);
    SmallCongEqual(p, v % p, v);
  }

  lemma PowerStep(p: nat, r0: int, e: int, a: int, w0: int, w: int, x: int)
    requires 2 <= p && Cong(p, r0, e) && Cong(p, w0, w)
    ensures Cong(p, (r0 + a * w0) % p, e + a * w)
    ensures Cong(p, (w0 * x) % p, x * w)
  {
    CongScale(p, a, w0, w);
    CongAdd(p, r0, e, a * w0, a * w);
    CongMod(p, r0 + a * w0);
    CongTrans(p, (r0 + a * w0) % p, r0 + a * w0, e + a * w);
    CongScale(p, x, w0, w);
    CongMod(p, w0 * x);
    assert w0 * x == x * w0;
    CongTrans(p, (w0 * x) % p, x * w0, x * w);
  }

  /** What a dealer with these coefficients sends, by recipient. */
  ghost function Dealt(p: int, coefficients: seq<nat>, ids: set<NodeId>): (r: map<NodeId, Wire>)
    requires 2 <= p
  {
    map x: NodeId | x in ids :: EncodeScalar(Eval(ZeroConstant(coefficients), x) % p)
  }

  /** `refresh_generate_evaluations`, with the drawn coefficients as an argument. */
  method RefreshGenerateEvaluations(p: nat, threshold: nat, coefficients: seq<nat>, participantIds: seq<NodeId>)
    returns (evaluations: map<NodeId, Wire>)
    requires 2 <= p
    requires 1 <= threshold && |coefficients| == threshold - 1
    ensures evaluations.Keys == Elements(participantIds)
    ensures p <= Pow256(32) ==>
              forall x :: x in participantIds ==>
                |evaluations[x]| == 32 && FromLE(evaluations[x]) < p &&
                Cong(p, FromLE(evaluations[x]), Sum(Indices(|coefficients|), Monomial(coefficients, x)))
    ensures evaluations == Dealt(p, coefficients, Elements(participantIds))
  {
    hide Sum, Cong, Eval, Pow256, ToLE, FromLE;
    evaluations := map[];
    for i := 0 to |participantIds|
      invariant evaluations == Dealt(p, coefficients, Elements(participantIds[..i]))
    {
      var id := participantIds[i];
      var result := EvaluateAt(p, coefficients, id);
      evaluations := evaluations[id := EncodeScalar(result)];
      assert participantIds[..i + 1] == participantIds[..i] + [id];
    }
    assert participantIds[..|participantIds|] == participantIds;
    if p <= Pow256(32) {
      forall x | x in participantIds
        ensures x in evaluations && FromLE(evaluations[x]) < p
        ensures Cong(p, FromLE(evaluations[x]), Sum(Indices(|coefficients|), Monomial(coefficients, x)))
      {
        DealtValue(p, coefficients, x);
      }
    }
  }

  lemma DealtValue(p: nat, coefficients: seq<nat>, x: NodeId)
    requires 2 <= p <= Pow256(32)
    ensures var w := EncodeScalar(Eval(ZeroConstant(coefficients), x) % p);
            FromLE(w) < p && Cong(p, FromLE(w), PowerSum(coefficients, x))
  {
    hide Sum, Cong, Pow256, ToLE, FromLE;
    var v := Eval(ZeroConstant(coefficients), x);
    LittleEndianRoundTrip(v % p, 32);
    EvalIsPowerSum(coefficients, x);
    CongMod(p, v);
  }

  // ----- Coordinator: collecting and routing -----

  /** A peer's round-1 answer as it comes off the results channel. */
  datatype EvalResult = Answered(nodeId: NodeId, evals: map<NodeId, Wire>) | Failed(nodeId: NodeId)

  type Matrix = map<NodeId, map<NodeId, Wire>>

  ghost predicate OnePerPeer(arrivals: seq<EvalResult>) {
    forall i, j :: 0 <= i < j < |arrivals| ==> arrivals[i].nodeId != arrivals[j].nodeId
  }

  /** `all` holds exactly the rows of the peers that answered. */
  ghost predicate Collects(arrivals: seq<EvalResult>, all: Matrix) {
    && (forall r :: r in arrivals && r.Answered? ==> r.nodeId in all && all[r.nodeId] == r.evals)
    && (forall i :: i in all ==> Answered(i, all[i]) in arrivals)
  }

  /** The evaluations addressed to `target`, by source. */
  function Column(all: Matrix, target: NodeId): (r: map<NodeId, Wire>) {
    map source | source in all && target in all[source] :: all[source][target]
  }

  method CollectColumn(all: Matrix, target: NodeId) returns (column: map<NodeId, Wire>)
    ensures column == Column(all, target)
  {
    column := map[];
    var todo := all.Keys;
    while todo != {}
      invariant todo <= all.Keys
      invariant column == map s | s in all && s !in todo && target in all[s] :: all[s][target]
      decreases |todo|
    {
      var source :| source in todo;
      todo := todo - {source};
      if target in all[source] {
        column := column[source := all[source][target]];
      }
    }
  }

  /** `RunRefresh` between the two rounds: fill the matrix in arrival order, then transpose it. */
  method RunRefresh(self: NodeId, peers: set<NodeId>, arrivals: seq<EvalResult>)
    returns (ghost all: Matrix, mine: map<NodeId, Wire>, routed: Matrix)
    requires OnePerPeer(arrivals)
    ensures Collects(arrivals, all)
    ensures mine == Column(all, self)
    ensures routed.Keys == peers
    ensures forall j :: j in peers ==> routed[j] == Column(all, j)
  {
    var rows: Matrix := map[];
    for i := 0 to |arrivals|
      invariant Collects(arrivals[..i], rows)
    {
      var r := arrivals[i];
      assert r.nodeId !in rows;
      if r.Answered? {
        rows := rows[r.nodeId := r.evals];
      }
      assert arrivals[..i + 1] == arrivals[..i] + [r];
    }
    assert arrivals[..|arrivals|] == arrivals;
    all := rows;
    mine := CollectColumn(rows, self);
    routed := map[];
    var todo := peers;
    while todo != {}
      invariant todo <= peers
      invariant routed.Keys == peers - todo
      invariant forall j :: j in routed ==> routed[j] == Column(rows, j)
      decreases |todo|
    {
      var j :| j in todo;
      todo := todo - {j};
      var column := CollectColumn(rows, j);
      routed := routed[j := column];
    }
  }

  /** The collected matrix does not depend on the order in which answers arrive. */
  lemma ArrivalOrderIrrelevant(a: seq<EvalResult>, b: seq<EvalResult>, m: Matrix, n: Matrix)
    requires multiset(a) == multiset(b)
    requires Collects(a, m) && Collects(b, n)
    ensures m == n
  {
    forall r ensures r in a <==> r in b {
      assert r in a <==> r in multiset(a);
      assert r in b <==> r in multiset(b);
    }
    forall i | i in m ensures i in n && m[i] == n[i] {
      assert Answered(i, m[i]) in b;
    }
    forall i | i in n ensures i in m {
      assert Answered(i, n[i]) in a;
    }
  }

  // ----- Round 2: applying the received evaluations -----

  /** A key package; points are kept as opaque bytes. */
  datatype KeyPackage = KeyPackage(
    identifier: NodeId, signingShare: nat, verifyingShare: seq<Byte>, verifyingKey: seq<Byte>, minSigners: nat)

  datatype RefreshError = BadKeyPackage | NotScalarSized | NotCanonical

  datatype ApplyResult = Applied(newKeyPackage: KeyPackage, verifyingKey: seq<Byte>) | Refused(error: RefreshError)

  function ScalarAt(received: map<NodeId, Wire>): (r: nat -> int) {
    (i: nat) => if i < 0x1_0000_0000 && i in received then FromLE(received[i]) else 0
  }

  ghost function ReceivedSum(received: map<NodeId, Wire>): (r: int) {
    Sum(received.Keys, ScalarAt(received))
  }

  predicate AllCanonical(p: int, received: map<NodeId, Wire>) {
    forall i :: i in received ==> Canonical(p, received[i])
  }

  /** The first malformed evaluation in ascending source order decides the error. */
  ghost predicate FirstBad(p: int, received: map<NodeId, Wire>, i: NodeId, e: RefreshError) {
    && i in received && !Canonical(p, received[i])
    && (forall j :: j in received && j < i ==> Canonical(p, received[j]))
    && e == if |received[i]| != SCALAR_BYTES then NotScalarSized else NotCanonical
  }

  /** The next key of an ordered map. */
  method Smallest(s: set<NodeId>) returns (m: NodeId)
    requires s != {}
    ensures m in s && forall j :: j in s ==> m <= j
    decreases |s|
  {
    m :| m in s;
    if s != {m} {
      var r := s - {m};
      assert s == r + {m};
      var k := Smallest(r);
      m := if k < m then k else m;
    }
  }

  lemma SumEmpty(p: int, f: nat -> int)
    ensures Cong(p, 0, Sum({}, f))
  {
    CongRefl(p, 0);
  }

  lemma AccumulateStep(p: nat, acc: int, total: int, v: int)
    requires 2 <= p && Cong(p, acc, total)
    ensures Cong(p, (acc + v) % p, v + total)
    ensures Cong(p, (v + acc) % p, v + total)
  {
    CongRefl(p, v);
    CongAdd(p, v, v, acc, total);
    CongMod(p, v + acc);
    CongTrans(p, (v + acc) % p, v + acc, v + total);
  }

  datatype SumResult = Total(sum: nat) | Malformed(error: RefreshError)

  /** The accumulation loop of `refresh_apply`, over the received map in ascending source order. */
  method SumReceived(p: nat, received: map<NodeId, Wire>) returns (r: SumResult)
    requires 2 <= p
    ensures AllCanonical(p, received) ==> r.Total? && Cong(p, r.sum, ReceivedSum(received))
    ensures !AllCanonical(p, received) ==> r.Malformed? && exists i :: FirstBad(p, received, i, r.error)
  {
    hide Sum, FromLE, Cong;
    var refresh: nat := 0;
    var todo := received.Keys;
    ghost var done: set<NodeId> := {};
    SumEmpty(p, ScalarAt(received));
    while todo != {}
      invariant todo + done == received.Keys && todo !! done
      invariant Before(done, todo)
      invariant forall i :: i in done ==> Canonical(p, received[i])
      invariant Cong(p, refresh, Sum(done, ScalarAt(received)))
      decreases |todo|
    {
      var k := Smallest(todo);
      if |received[k]| != SCALAR_BYTES {
        assert FirstBad(p, received, k, NotScalarSized);
        return Malformed(NotScalarSized);
      }
      if FromLE(received[k]) >= p {
        assert FirstBad(p, received, k, NotCanonical);
        return Malformed(NotCanonical);
      }
      AccumulateNext(p, received, done, k, refresh);
      BeforeNext(done, todo, k);
      refresh := (refresh + FromLE(received[k])) % p;
      todo := todo - {k};
      done := done + {k};
    }
    assert done == received.Keys;
    r := Total(refresh);
  }

  ghost predicate Before(done: set<NodeId>, todo: set<NodeId>) {
    forall i, j :: i in done && j in todo ==> i < j
  }

  lemma BeforeNext(done: set<NodeId>, todo: set<NodeId>, k: NodeId)
    requires Before(done, todo) && k in todo && forall j :: j in todo ==> k <= j
    ensures Before(done + {k}, todo - {k})
  {
  }

  lemma AccumulateNext(p: nat, received: map<NodeId, Wire>, done: set<NodeId>, k: NodeId, acc: nat)
    requires 2 <= p && k in received && k !in done
    requires Cong(p, acc, Sum(done, ScalarAt(received)))
    ensures Cong(p, (acc + FromLE(received[k])) % p, Sum(done + {k}, ScalarAt(received)))
  {
    SumTake(done + {k}, ScalarAt(received), k);
    assert done + {k} - {k} == done;
    AccumulateStep(p, acc, Sum(done, ScalarAt(received)), FromLE(received[k]));
  }

  /** `refresh_apply`: add the sum of the received scalars to the signing share. */
  method RefreshApply(p: nat, package: Option<KeyPackage>, received: map<NodeId, Wire>)
    returns (r: ApplyResult)
    requires 2 <= p
    ensures r.Applied? <==>
              package.Some? && forall i :: i in received ==> |received[i]| == 32 && FromLE(received[i]) < p
    ensures r == Refused(NotScalarSized) ==> exists i :: i in received && |received[i]| != 32
    ensures r == Refused(NotCanonical) ==> exists i :: i in received && |received[i]| == 32 && FromLE(received[i]) >= p
    ensures package.None? ==> r == Refused(BadKeyPackage)
    ensures package.Some? && AllCanonical(p, received) ==>
              r.Applied? && r.verifyingKey == package.value.verifyingKey &&
              r.newKeyPackage == package.value.(signingShare := ShareAfter(p, package.value.signingShare, received))
    ensures package.Some? && !AllCanonical(p, received) ==>
              r.Refused? && exists i :: FirstBad(p, received, i, r.error)
  {
    if package.None? {
      return Refused(BadKeyPackage);
    }
    var sum := SumReceived(p, received);
    match sum {
      case Malformed(e) =>
        return Refused(e);
      case Total(refresh) =>
        var share := (package.value.signingShare + refresh) % p;
        AccumulateStep(p, refresh, ReceivedSum(received), package.value.signingShare);
        CongIffSameResidue(p, share, package.value.signingShare + ReceivedSum(received));
        SmallResidue(p, share);
        return Applied(package.value.(signingShare := share), package.value.verifyingKey);
    }
  }

  /** The share after adding everything received. */
  ghost function ShareAfter(p: int, share: nat, received: map<NodeId, Wire>): (r: nat)
    requires 2 <= p
  {
    (share + ReceivedSum(received)) % p
  }
}
