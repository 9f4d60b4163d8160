/** What the enclave's operations do, told by the requests themselves: the time windows, complete signing
    and DKG flows, and where a session, a signature and a key come from. */
module SessionHistory {
  import opened Bytes
  import opened ReplayCache
  import opened EnclaveModel
  import opened EnclaveRuns

  // ----- Windows -----

  /** A signing round more than 60 seconds after the start of its session times out and empties the slot;
      one within 60 seconds never times out. */
  lemma SigningWindow(s: State, op: Op)
    requires op.SignRound1? || op.SignRound2?
    requires s.signing.Some? && s.signing.value.sessionId == op.sessionId
    ensures op.now > s.signing.value.startTime + 60 ==>
              Step(s, op) == Result(s.(signing := None, phase := Ready), Failed(TimedOut))
    ensures op.now <= s.signing.value.startTime + 60 ==> Step(s, op).outcome != Failed(TimedOut)
  {
    hide Mark, Fresh;
  }

  /** A DKG part more than 600 seconds after the start of its session times out and empties the slot; one
      within 600 seconds never times out. */
  lemma DkgWindow(s: State, op: Op)
    requires op.DkgPart1? || op.DkgPart2? || op.DkgPart3?
    requires s.dkg.Some? && s.dkg.value.sessionId == op.sessionId
    ensures op.now > s.dkg.value.startTime + 600 ==>
              Step(s, op) == Result(s.(dkg := None), Failed(TimedOut))
    ensures op.now <= s.dkg.value.startTime + 600 ==> Step(s, op).outcome != Failed(TimedOut)
  {
  }

  predicate NeedsSigning(op: Op) {
    op.SignRound1? || op.SignRound2? || op.AddCommitment? || op.SignAbort?
  }

  /** A request that finds no session, or not the one it names, or comes in the wrong round, is refused for
      that reason and changes nothing. */
  lemma StrangersRefused(s: State, op: Op)
    ensures NeedsSigning(op) && s.signing.None? ==> Step(s, op) == Result(s, Failed(NoSession))
    ensures NeedsSigning(op) && s.signing.Some? && s.signing.value.sessionId != op.sessionId ==>
              Step(s, op) == Result(s, Failed(OtherSession))
    ensures (op.SignRound1? || op.SignRound2?) && s.signing.Some? ==>
              var g := s.signing.value;
              g.sessionId == op.sessionId && g.round != 1 && op.now <= g.startTime + 60 ==>
                Step(s, op) == Result(s, Failed(WrongRound))
    ensures (op.DkgPart2? || op.DkgPart3? || op.DkgAbort?) && s.dkg.None? ==>
              Step(s, op) == Result(s, Failed(NoSession))
    ensures DkgOp(op) && !op.DkgStartSession? && s.dkg.Some? && s.dkg.value.sessionId != op.sessionId ==>
              Step(s, op) == Result(s, Failed(OtherSession))
    ensures (op.DkgPart1? || op.DkgPart2? || op.DkgPart3?) && s.dkg.Some? ==>
              var d := s.dkg.value;
              d.sessionId == op.sessionId && d.round != (if op.DkgPart3? then 2 else 1) && op.now <= d.startTime + 600 ==>
                Step(s, op) == Result(s, Failed(WrongRound))
  {
    hide Mark, Fresh;
  }

  // ----- Complete flows -----

  lemma StartRounds(s: State, id: string, hash: Blob, participants: seq<NodeId>, t0: nat, t1: nat, nonces: Blob)
    requires s.share.Some? && Fresh(s.replay, Use(id, 1, hash))
    ensures var a := Step(s, SignStart(id, hash, participants, t0));
            var b := Step(a.state, SignRound1(id, t1, Some(nonces)));
            && a.outcome == Done
            && (b.outcome == Done <==> t1 <= t0 + 60)
            && (b.outcome == Done ==>
                  b.state == s.(
                    phase := Signing, signings := s.signings + 1,
                    signing := Some(SigningSession(id, hash, participants, t0, Some(nonces), map[], 1)),
                    replay := Mark(s.replay, Use(id, 1, hash)),
                    log := s.log + [Round1(s.signings + 1, id, hash, t0, t1)]))
  {
    hide Mark, Fresh;
  }

  lemma FinishRounds(s: State, id: string, t2: nat)
    requires s.share.Some? && s.signing.Some?
    requires var g := s.signing.value;
             g.sessionId == id && g.round == 1 && g.nonces.Some? && Fresh(s.replay, Use(id, 2, g.hash))
    ensures var g, c := s.signing.value, Step(s, SignRound2(id, t2, true));
            && (c.outcome == Done <==> t2 <= g.startTime + 60)
            && (c.outcome == Done ==>
                  c.state == s.(phase := Ready, signing := None, replay := Mark(s.replay, Use(id, 2, g.hash)),
                                log := s.log + [Round2(s.signings, id, g.hash, g.startTime, t2)]))
  {
    hide Mark, Fresh;
  }

  /** No success of the pair is on record. */
  predicate Unused(log: seq<Event>, id: string, hash: Blob) {
    forall i :: 0 <= i < |log| && (log[i].Round1? || log[i].Round2?) ==> !(log[i].sessionId == id && log[i].hash == hash)
  }

  lemma {:induction false} UnusedMarks(log: seq<Event>, id: string, hash: Blob)
    requires Unused(log, id, hash)
    ensures Use(id, 1, hash) !in Marks(log) && Use(id, 2, hash) !in Marks(log)
    decreases |log|
  {
    if log != [] {
      UnusedMarks(log[..|log| - 1], id, hash);
    }
  }

  /** From every reachable state with a share, and for every pair not used before: starting, round 1 and
      round 2 all succeed if and only if both rounds come within 60 seconds, and then the slot is empty,
      the phase Ready, the share untouched, and exactly the two successes are recorded. */
  lemma UnusedPairSigns(ops: seq<Op>, id: string, hash: Blob, participants: seq<NodeId>, nonces: Blob,
                        t0: nat, t1: nat, t2: nat)
    requires Run(ops).share.Some? && Unused(Run(ops).log, id, hash)
    ensures var s := Run(ops);
            var a := Step(s, SignStart(id, hash, participants, t0));
            var b := Step(a.state, SignRound1(id, t1, Some(nonces)));
            var c := Step(b.state, SignRound2(id, t2, true));
            && (a.outcome == Done && b.outcome == Done && c.outcome == Done <==> t1 <= t0 + 60 && t2 <= t0 + 60)
            && (t1 <= t0 + 60 && t2 <= t0 + 60 ==>
                  c.state.signing.None? && c.state.phase == Ready && c.state.share == s.share && c.state.dkg == s.dkg &&
                  c.state.log == s.log + [Round1(s.signings + 1, id, hash, t0, t1),
                                          Round2(s.signings + 1, id, hash, t0, t2)])
  {
    RunKeepsInv(ops);
    hide Run, Step, Mark, Fresh, MarkAll, Marks, Unused;
    var s := Run(ops);
    var u := Use(id, 1, hash);
    UnusedMarks(s.log, id, hash);
    NeverRejectsUnused(Marks(s.log), u);
    NeverRejectsUnused(Marks(s.log) + [u], Use(id, 2, hash));
    MarkAllSnoc(Marks(s.log), u);
    StartRounds(s, id, hash, participants, t0, t1, nonces);
    if t1 <= t0 + 60 {
      var b := Step(Step(s, SignStart(id, hash, participants, t0)).state, SignRound1(id, t1, Some(nonces)));
      FinishRounds(b.state, id, t2);
    }
  }

  /** From every state that is Ready: a DKG session and its three parts all succeed if and only if every
      part comes within 600 seconds of the start, and then the package is the key and the share. */
  lemma DkgCompletes(s: State, id: string, t0: nat, t1: nat, t2: nat, t3: nat, x: Blob, y: Blob, package: Blob)
    requires s.phase == Ready
    ensures var a := Step(s, DkgStartSession(id, t0));
            var b := Step(a.state, DkgPart1(id, t1, Some(x)));
            var c := Step(b.state, DkgPart2(id, t2, Some(y)));
            var d := Step(c.state, DkgPart3(id, t3, Some(package)));
            && (a.outcome == Done && b.outcome == Done && c.outcome == Done && d.outcome == Done
                <==> t1 <= t0 + 600 && t2 <= t0 + 600 && t3 <= t0 + 600)
            && (t1 <= t0 + 600 && t2 <= t0 + 600 && t3 <= t0 + 600 ==>
                  d.state == s.(keyPackage := Some(package), share := Some(package), phase := Ready, dkg := None,
                                dkgs := s.dkgs + 1,
                                log := s.log + [Part1(s.dkgs + 1, id, t0, t1)] + [Part2(s.dkgs + 1, id, t0, t2)]
                                       + [KeyInstalled(s.dkgs + 1, id, t0, t3)]))
  {
  }

  // ----- What an operation may touch -----

  predicate SigningOp(op: Op) {
    op.SignStart? || op.SignRound1? || op.AddCommitment? || op.SignRound2? || op.SignAbort?
  }

  predicate DkgOp(op: Op) {
    op.DkgStartSession? || op.DkgPart1? || op.DkgPart2? || op.DkgPart3? || op.DkgAbort?
  }

  /** Signing requests leave the DKG slot, the key package and the share alone; DKG requests leave the
      signing slot and the replay cache alone. */
  lemma StepFrame(s: State, op: Op)
    ensures var t := Step(s, op).state;
            && (SigningOp(op) ==> t.dkg == s.dkg && t.keyPackage == s.keyPackage && t.share == s.share)
            && (!SigningOp(op) ==> t.signing == s.signing && t.replay == s.replay && t.signings == s.signings)
            && (!DkgOp(op) ==> t.dkg == s.dkg && t.dkgs == s.dkgs)
            && (!op.Initialize? ==> t.hasIdentity == s.hasIdentity)
  {
    hide Mark, Fresh;
  }

  /** The replay cache changes only by the mark of a round that succeeded, under that round's number. */
  lemma ReplayAfterStep(s: State, op: Op)
    ensures var r := Step(s, op);
            r.state.replay != s.replay ==>
              r.outcome == Done && s.signing.Some? && (op.SignRound1? || op.SignRound2?) &&
              r.state.replay == Mark(s.replay, Use(op.sessionId, if op.SignRound1? then 1 else 2, s.signing.value.hash))
  {
    hide Mark, Fresh;
  }

  /** The phase after every operation, by what was asked and how it ended. */
  lemma PhaseAfter(s: State, op: Op)
    ensures var r := Step(s, op);
            var ready := op.Initialize? ||
                         (r.outcome == Done && (op.SignRound2? || op.SignAbort? || op.DkgPart3? || op.DkgAbort?)) ||
                         (r.outcome == Failed(TimedOut) && SigningOp(op));
            var generating := (r.outcome == Done && (op.DkgStartSession? || op.DkgPart1?)) ||
                              (r.outcome == Failed(CryptoFailed) && (op.DkgStart? || op.DkgPart1?));
            r.state.phase == if ready then Ready
                             else if generating then KeyGeneration
                             else if op.SignStart? && r.outcome == Done then Signing
                             else s.phase
  {
    hide Mark, Fresh;
  }

  /** What starting needs: a signing session a share, either kind of key generation a Ready enclave. A refused
      start still drops the session that was there. */
  lemma StartsNeed(s: State, op: Op)
    ensures op.SignStart? ==>
              (Step(s, op).outcome == Done <==> s.share.Some?) &&
              (s.share.None? ==> Step(s, op) == Result(s.(signing := None), Failed(NoShare)))
    ensures op.DkgStartSession? ==>
              (Step(s, op).outcome == Done <==> s.phase == Ready) &&
              (s.phase != Ready ==> Step(s, op) == Result(s.(dkg := None), Failed(NotReady)))
    ensures op.DkgStart? ==>
              (Step(s, op).outcome == Done <==> s.phase == Ready && op.ourShare.Some?) &&
              (s.phase != Ready ==> Step(s, op) == Result(s, Failed(NotReady)))
  {
  }

  /** Aborting ends exactly the session that is named. */
  lemma AbortEnds(s: State, id: string)
    ensures var r := Step(s, SignAbort(id));
            (r.outcome == Done <==> s.signing.Some? && s.signing.value.sessionId == id) &&
            r.state == if r.outcome == Done then s.(signing := None, phase := Ready) else s
    ensures var r := Step(s, DkgAbort(id));
            (r.outcome == Done <==> s.dkg.Some? && s.dkg.value.sessionId == id) &&
            r.state == if r.outcome == Done then s.(dkg := None, phase := Ready) else s
  {
  }

  // ----- The share in use -----

  /** The key material a request brings. */
  function Supplied(op: Op): (r: Option<Blob>) {
    match op
    case Initialize(loaded) => loaded
    case DkgStart(ourShare) => ourShare
    case DkgPart3(_, _, package) => package
    case RefreshApply(package) => package
    case _ => None
  }

  /** A refresh succeeds exactly when there is a share and applying works, and then replaces the share and
      nothing else. */
  lemma RefreshReplacesShare(s: State, package: Option<Blob>)
    ensures var r := Step(s, RefreshApply(package));
            (r.outcome == Done <==> s.share.Some? && package.Some?) &&
            r.state == if r.outcome == Done then s.(share := package) else s
  {
  }

  /** An operation keeps the share or installs the material it brought. */
  lemma ShareAfterStep(s: State, op: Op)
    ensures var r := Step(s, op);
            r.state.share == s.share || (r.outcome == Done && Supplied(op).Some? && r.state.share == Supplied(op))
    ensures var r := Step(s, op);
            r.outcome == Done && (op.DkgStart? || op.DkgPart3? || op.RefreshApply?) ==>
              Supplied(op).Some? && r.state.share == Supplied(op)
    ensures op.Initialize? ==>
              Step(s, op).state.share == if s.hasIdentity || Supplied(op).None? then s.share else Supplied(op)
  {
    hide Mark, Fresh;
  }

  /** The request at `m` succeeded in bringing key material. */
  ghost predicate Installed(ops: seq<Op>, m: nat)
    requires m < |ops|
  {
    var s := Run(ops[..m]);
    Step(s, ops[m]).outcome == Done && Supplied(ops[m]).Some? && (ops[m].Initialize? ==> !s.hasIdentity)
  }

  ghost predicate LatestInstall(ops: seq<Op>, m: nat) {
    m < |ops| && Installed(ops, m) && forall i: nat :: m < i < |ops| ==> !Installed(ops, i)
  }

  /** The share in use is always the one that the latest successful key operation brought. */
  lemma {:induction false} ShareIsLatest(ops: seq<Op>)
    requires Run(ops).share.Some?
    ensures exists m: nat :: m < |ops| && LatestInstall(ops, m) && Run(ops).share == Supplied(ops[m])
    decreases |ops|
  {
    hide Step, Installed, LatestInstall, Supplied;
    if ops != [] {
      var n := |ops| - 1;
      var before := ops[..n];
      LastInstall(ops);
      if Installed(ops, n) {
        assert LatestInstall(ops, n);
      } else {
        ShareIsLatest(before);
        var m: nat :| m < |before| && LatestInstall(before, m) && Run(before).share == Supplied(before[m]);
        StillLatest(ops, m);
      }
    }
  }

  /** Either the last request installed its material, or it left the share alone. */
  lemma LastInstall(ops: seq<Op>)
    requires ops != []
    ensures var n := |ops| - 1;
            if Installed(ops, n) then LatestInstall(ops, n) && Run(ops).share == Supplied(ops[n])
            else Run(ops).share == Run(ops[..n]).share
  {
    hide Step, Supplied;
    var s, op := Run(ops[..|ops| - 1]), ops[|ops| - 1];
    if Installed(ops, |ops| - 1) {
      InstallTakes(s, op);
    } else {
      NoInstall(s, op);
    }
  }

  lemma StillLatest(ops: seq<Op>, m: nat)
    requires ops != [] && LatestInstall(ops[..|ops| - 1], m) && !Installed(ops, |ops| - 1)
    ensures LatestInstall(ops, m) && ops[m] == ops[..|ops| - 1][m]
  {
    hide Installed;
    var n := |ops| - 1;
    SameInstalls(ops, n);
    forall i: nat | m < i < |ops| ensures !Installed(ops, i) {
      if i < n {
        assert !Installed(ops[..n], i);
      }
    }
  }

  lemma SameInstalls(ops: seq<Op>, n: nat)
    requires n <= |ops|
    ensures forall m: nat :: m < n ==> (Installed(ops[..n], m) <==> Installed(ops, m))
  {
    hide Run, Step;
    forall m: nat | m < n ensures Installed(ops[..n], m) <==> Installed(ops, m) {
      assert ops[..n][..m] == ops[..m];
    }
  }

  lemma InstallTakes(s: State, op: Op)
    requires Step(s, op).outcome == Done && Supplied(op).Some? && (op.Initialize? ==> !s.hasIdentity)
    ensures Step(s, op).state.share == Supplied(op)
  {
  }

  lemma NoInstall(s: State, op: Op)
    requires !(Step(s, op).outcome == Done && Supplied(op).Some? && (op.Initialize? ==> !s.hasIdentity))
    ensures Step(s, op).state.share == s.share
  {
    hide Mark, Fresh;
  }

  // ----- Where a signing session comes from -----

  /** The commitments posted to a session, the last one from each node. */
  function Posted(ops: seq<Op>, id: string): (r: map<NodeId, Blob>) {
    if ops == [] then map[] else
      var op, before := ops[|ops| - 1], Posted(ops[..|ops| - 1], id);
      if op.AddCommitment? && op.sessionId == id then before[op.from := op.commitment] else before
  }

  /** The session `g` is the one started by request `m`, the last start so far, and not aborted since. It
      holds exactly the commitments posted since, and its nonces come from a round 1 within 60 seconds. */
  ghost predicate StartedBy(ops: seq<Op>, m: nat, g: SigningSession) {
    && m < |ops| && ops[m] == SignStart(g.sessionId, g.hash, g.participants, g.startTime)
    && (forall i :: m < i < |ops| ==> !ops[i].SignStart? && ops[i] != SignAbort(g.sessionId))
    && g.commitments == Posted(ops[m + 1..], g.sessionId)
    && (g.nonces.Some? ==> exists j :: m < j < |ops| && NoncesBy(ops[j], g))
  }

  predicate NoncesBy(op: Op, g: SigningSession) {
    op.SignRound1? && op.sessionId == g.sessionId && op.nonces == g.nonces && op.now <= g.startTime + 60
  }

  /** How one operation changes the signing slot. */
  predicate SlotMove(s: State, op: Op, t: State) {
    match (s.signing, t.signing)
    case (_, None) => true
    case (None, Some(h)) => op == SignStart(h.sessionId, h.hash, h.participants, h.startTime) && h.nonces.None? && h.commitments == map[]
    case (Some(g), Some(h)) =>
      || (op == SignStart(h.sessionId, h.hash, h.participants, h.startTime) && h.nonces.None? && h.commitments == map[])
      || (!op.SignStart? && op != SignAbort(g.sessionId) &&
          h == g.(nonces := h.nonces, round := h.round, commitments := h.commitments) &&
          (h.nonces == g.nonces || NoncesBy(op, h)) &&
          h.commitments == if op.AddCommitment? && op.sessionId == g.sessionId
                           then g.commitments[op.from := op.commitment] else g.commitments)
  }

  lemma StepMovesSlot(s: State, op: Op)
    ensures SlotMove(s, op, Step(s, op).state)
  {
    hide Mark, Fresh;
  }

  lemma StartedJustNow(ops: seq<Op>, op: Op, h: SigningSession)
    requires op == SignStart(h.sessionId, h.hash, h.participants, h.startTime) && h.nonces.None? && h.commitments == map[]
    ensures StartedBy(ops + [op], |ops|, h)
  {
    assert (ops + [op])[|ops| + 1..] == [];
  }

  lemma StartedStill(ops: seq<Op>, op: Op, m: nat, g: SigningSession, h: SigningSession)
    requires StartedBy(ops, m, g) && !op.SignStart? && op != SignAbort(g.sessionId)
    requires h == g.(nonces := h.nonces, round := h.round, commitments := h.commitments)
    requires h.nonces == g.nonces || NoncesBy(op, h)
    requires h.commitments == if op.AddCommitment? && op.sessionId == g.sessionId
                              then g.commitments[op.from := op.commitment] else g.commitments
    ensures StartedBy(ops + [op], m, h)
  {
    var more := ops + [op];
    assert more[m + 1..] == ops[m + 1..] + [op];
    assert (ops[m + 1..] + [op])[..|ops[m + 1..]|] == ops[m + 1..];
    assert h.commitments == Posted(more[m + 1..], h.sessionId);
    if h.nonces.Some? {
      if NoncesBy(op, h) {
        assert more[|ops|] == op;
      } else {
        var j :| m < j < |ops| && NoncesBy(ops[j], g);
        assert more[j] == ops[j] && NoncesBy(more[j], h);
      }
    }
  }

  /** In every run, a session in the slot is what its requests made it. */
  lemma {:induction false} SessionHasStart(ops: seq<Op>)
    requires Run(ops).signing.Some?
    ensures exists m: nat :: StartedBy(ops, m, Run(ops).signing.value)
    decreases |ops|
  {
    if ops != [] {
      hide Step, StartedBy, Posted, NoncesBy;
      var before, op := ops[..|ops| - 1], ops[|ops| - 1];
      assert ops == before + [op];
      var s, h := Run(before), Run(ops).signing.value;
      StepMovesSlot(s, op);
      if op.SignStart? {
        StartedJustNow(before, op, h);
      } else {
        SessionHasStart(before);
        var m: nat :| StartedBy(before, m, s.signing.value);
        StartedStill(before, op, m, s.signing.value, h);
      }
    }
  }

  /** What a signature needs: the last start names its id, and after it a round 1 of that id generated
      nonces; both rounds come at most 60 seconds after the start, and nothing aborted the session. */
  ghost predicate Signable(ops: seq<Op>, k: nat, m: nat, j: nat)
    requires k < |ops| && ops[k].SignRound2?
  {
    && m < j < k
    && ops[m].SignStart? && ops[m].sessionId == ops[k].sessionId
    && ops[j].SignRound1? && ops[j].sessionId == ops[k].sessionId && ops[j].nonces.Some?
    && ops[j].now <= ops[m].now + 60 && ops[k].now <= ops[m].now + 60
    && forall i :: m < i < k ==> !ops[i].SignStart? && ops[i] != SignAbort(ops[k].sessionId)
  }

  lemma SignatureHistory(ops: seq<Op>, k: nat)
    requires k < |ops| && ops[k].SignRound2? && Step(Run(ops[..k]), ops[k]).outcome == Done
    ensures exists m: nat, j: nat :: Signable(ops, k, m, j)
  {
    hide Run, Mark, Fresh;
    var s, before := Run(ops[..k]), ops[..k];
    SessionHasStart(before);
    var g := s.signing.value;
    var m: nat :| StartedBy(before, m, g);
    var j: nat :| m < j < k && NoncesBy(before[j], g);
    assert before[m] == ops[m] && before[j] == ops[j];
    assert forall i :: m < i < k ==> ops[i] == before[i];
    assert Signable(ops, k, m, j);
  }

  // ----- Where a key comes from -----

  /** The DKG session `d` was opened by request `m`: a start, or a part 1 that found the slot empty. */
  predicate Opens(op: Op, d: DkgSession) {
    op == DkgStartSession(d.sessionId, d.startTime) ||
    (op.DkgPart1? && op.sessionId == d.sessionId && op.now == d.startTime)
  }

  predicate FirstPart(op: Op, d: DkgSession) {
    op.DkgPart1? && op.sessionId == d.sessionId && op.secret == d.secret1 && op.now <= d.startTime + 600
  }

  predicate SecondPart(op: Op, d: DkgSession) {
    op.DkgPart2? && op.sessionId == d.sessionId && op.secret == d.secret2 && op.now <= d.startTime + 600
  }

  ghost predicate OpenedBy(ops: seq<Op>, m: nat, d: DkgSession) {
    && m < |ops| && Opens(ops[m], d)
    && (forall i :: m < i < |ops| ==> !ops[i].DkgStartSession? && ops[i] != DkgAbort(d.sessionId))
    && (d.secret1.Some? ==> exists i :: m <= i < |ops| && FirstPart(ops[i], d))
    && (d.round == 2 ==> exists i, j :: m <= i < j < |ops| && FirstPart(ops[i], d) && SecondPart(ops[j], d))
  }

  predicate Blank(d: DkgSession) {
    d.round == 1 && d.secret1.None? && d.secret2.None?
  }

  predicate DkgKeeps(op: Op, d: DkgSession, e: DkgSession) {
    && !op.DkgStartSession? && op != DkgAbort(d.sessionId)
    && (|| e == d
        || (e == d.(secret1 := e.secret1) && d.round == 1 && e.secret1.Some? && FirstPart(op, e))
        || (e == d.(round := 2, secret2 := e.secret2) && d.round == 1 && d.secret1.Some? && SecondPart(op, e)))
  }

  /** How one operation changes the DKG slot. */
  predicate DkgMove(s: State, op: Op, t: State) {
    match (s.dkg, t.dkg)
    case (_, None) => true
    case (None, Some(e)) => Opens(op, e) && (Blank(e) || (Blank(e.(secret1 := None)) && FirstPart(op, e)))
    case (Some(d), Some(e)) => (Opens(op, e) && op.DkgStartSession? && Blank(e)) || DkgKeeps(op, d, e)
  }

  lemma StepMovesDkg(s: State, op: Op)
    ensures DkgMove(s, op, Step(s, op).state)
  {
    hide Mark, Fresh, SignRound1Step, SignRound2Step;
    if SigningOp(op) {
      StepFrame(s, op);
    }
  }

  lemma OpenedJustNow(ops: seq<Op>, op: Op, e: DkgSession)
    requires Opens(op, e) && (Blank(e) || (Blank(e.(secret1 := None)) && FirstPart(op, e)))
    ensures OpenedBy(ops + [op], |ops|, e)
  {
    assert (ops + [op])[|ops|] == op;
  }

  lemma OpenedStill(ops: seq<Op>, op: Op, m: nat, d: DkgSession, e: DkgSession)
    requires OpenedBy(ops, m, d) && DkgKeeps(op, d, e)
    ensures OpenedBy(ops + [op], m, e)
  {
    var more := ops + [op];
    assert more[|ops|] == op;
    assert forall i :: 0 <= i < |ops| ==> more[i] == ops[i];
    if e == d {
      if d.secret1.Some? {
        var i :| m <= i < |ops| && FirstPart(ops[i], d);
        assert FirstPart(more[i], e);
      }
      if d.round == 2 {
        var i, j :| m <= i < j < |ops| && FirstPart(ops[i], d) && SecondPart(ops[j], d);
        assert FirstPart(more[i], e) && SecondPart(more[j], e);
      }
    } else if op.DkgPart1? {
      assert FirstPart(more[|ops|], e);
    } else {
      var i :| m <= i < |ops| && FirstPart(ops[i], d);
      assert FirstPart(more[i], e) && SecondPart(more[|ops|], e);
    }
  }

  lemma {:induction false} DkgHasOpening(ops: seq<Op>)
    requires Run(ops).dkg.Some?
    ensures exists m: nat :: OpenedBy(ops, m, Run(ops).dkg.value)
    decreases |ops|
  {
    if ops != [] {
      hide Step, OpenedBy, Opens, FirstPart, SecondPart;
      var before, op := ops[..|ops| - 1], ops[|ops| - 1];
      assert ops == before + [op];
      var s, e := Run(before), Run(ops).dkg.value;
      StepMovesDkg(s, op);
      if s.dkg.None? || !DkgKeeps(op, s.dkg.value, e) {
        OpenedJustNow(before, op, e);
      } else {
        DkgHasOpening(before);
        var m: nat :| OpenedBy(before, m, s.dkg.value);
        OpenedStill(before, op, m, s.dkg.value, e);
      }
    }
  }

  /** What an installed key needs: a session of its id was opened, and parts 1, 2 and 3 under that id
      followed in order, each at most 600 seconds after the opening, with no abort or new start between. */
  ghost predicate Installable(ops: seq<Op>, k: nat, m: nat, i: nat, j: nat)
    requires k < |ops| && ops[k].DkgPart3?
  {
    var id := ops[k].sessionId;
    && m <= i < j < k
    && ((ops[m].DkgStartSession? && ops[m].sessionId == id) || (ops[m].DkgPart1? && ops[m].sessionId == id))
    && ops[i].DkgPart1? && ops[i].sessionId == id && ops[i].secret.Some? && ops[i].now <= ops[m].now + 600
    && ops[j].DkgPart2? && ops[j].sessionId == id && ops[j].secret.Some? && ops[j].now <= ops[m].now + 600
    && ops[k].now <= ops[m].now + 600
    && forall n :: m < n < k ==> !ops[n].DkgStartSession? && ops[n] != DkgAbort(id)
  }

  lemma KeyHistory(ops: seq<Op>, k: nat)
    requires k < |ops| && ops[k].DkgPart3? && Step(Run(ops[..k]), ops[k]).outcome == Done
    ensures exists m: nat, i: nat, j: nat :: Installable(ops, k, m, i, j)
    ensures Run(ops[..k + 1]).keyPackage == ops[k].package && ops[k].package.Some?
  {
    hide Run, Step, OpenedBy, Installable;
    var s, before := Run(ops[..k]), ops[..k];
    RunStep(ops, k);
    Part3Success(s, ops[k]);
    RunSessionsConsistent(before);
    DkgHasOpening(before);
    var m: nat :| OpenedBy(before, m, s.dkg.value);
    var i, j := PartsSince(before, m, s.dkg.value);
    InstallableSince(ops, k, m, i, j, s.dkg.value);
  }

  lemma RunStep(ops: seq<Op>, k: nat)
    requires k < |ops|
    ensures Run(ops[..k + 1]) == Step(Run(ops[..k]), ops[k]).state
  {
    hide Step;
    assert ops[..k + 1][..k] == ops[..k];
  }

  lemma Part3Success(s: State, op: Op)
    requires op.DkgPart3? && Step(s, op).outcome == Done
    ensures s.dkg.Some? && s.dkg.value.sessionId == op.sessionId && s.dkg.value.round == 2
    ensures s.dkg.value.secret2.Some? && op.now <= s.dkg.value.startTime + 600
    ensures op.package.Some? && Step(s, op).state.keyPackage == op.package
  {
  }

  lemma PartsSince(ops: seq<Op>, m: nat, d: DkgSession) returns (i: nat, j: nat)
    requires OpenedBy(ops, m, d) && d.round == 2
    ensures m <= i < j < |ops| && FirstPart(ops[i], d) && SecondPart(ops[j], d)
  {
    i, j :| m <= i < j < |ops| && FirstPart(ops[i], d) && SecondPart(ops[j], d);
  }

  lemma InstallableSince(ops: seq<Op>, k: nat, m: nat, i: nat, j: nat, d: DkgSession)
    requires k < |ops| && ops[k].DkgPart3? && ops[k].sessionId == d.sessionId && ops[k].now <= d.startTime + 600
    requires OpenedBy(ops[..k], m, d) && d.secret1.Some? && d.secret2.Some?
    requires m <= i < j < k && FirstPart(ops[..k][i], d) && SecondPart(ops[..k][j], d)
    ensures Installable(ops, k, m, i, j)
  {
    assert forall n :: 0 <= n < k ==> ops[n] == ops[..k][n];
  }
}
