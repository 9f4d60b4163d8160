/** Invariants of every serialised run of the enclave. */
module EnclaveRuns {
  import opened Bytes
  import opened ReplayCache
  import opened EnclaveModel

  /** No operation clears the key share. */
  lemma StepKeepsShare(s: State, op: Op)
    ensures s.share.Some? ==> Step(s, op).state.share.Some?
    ensures s.keyPackage.Some? ==> Step(s, op).state.keyPackage.Some?
  {
    hide Mark, Fresh;
  }

  /** An operation appends at most one event, and only on success. */
  lemma StepLog(s: State, op: Op)
    ensures Step(s, op).state.log == s.log ||
            (Step(s, op).outcome == Done && exists e :: Step(s, op).state.log == s.log + [e])
  {
    hide Mark, Fresh;
  }

  lemma Round1Keeps(s: State, id: string, now: nat, nonces: Option<Blob>)
    requires Inv(s)
    ensures Inv(SignRound1Step(s, id, now, nonces).state)
  {
    hide Mark, Fresh, HadRound1, HadPart1, HadPart2, HistoryGood;
    var r := SignRound1Step(s, id, now, nonces);
    if r.outcome == Done {
      var g := s.signing.value;
      var e := Round1(s.signings, id, g.hash, g.startTime, now);
      Round1Grows(s.log, e, s.signings, id, g.hash, g.startTime);
      HistoryAfterRound(s.log, s.replay, e);
      DkgSlotGrows(s, e);
      PackageSnoc(s.log, e);
    }
  }

  /** Appending an event that is not a DKG one keeps the DKG slot justified. */
  lemma DkgSlotGrows(s: State, e: Event)
    requires DkgJustified(s)
    ensures s.dkg.Some? ==> var d := s.dkg.value;
              (d.secret1.Some? ==> HadPart1(s.log + [e], s.dkgs, d.sessionId, d.startTime)) &&
              (d.round == 2 ==> HadPart2(s.log + [e], s.dkgs, d.sessionId, d.startTime))
  {
    hide HadPart1, HadPart2;
    if s.dkg.Some? {
      var d := s.dkg.value;
      Part1Grows(s.log, e, s.dkgs, d.sessionId, d.startTime);
      if d.round == 2 {
        Part2Grows(s.log, e, s.dkgs, d.sessionId, d.startTime);
      }
    }
  }

  lemma NonceSlotGrows(s: State, e: Event)
    requires NoncesJustified(s)
    ensures s.signing.Some? && s.signing.value.nonces.Some? ==> var g := s.signing.value;
              HadRound1(s.log + [e], s.signings, g.sessionId, g.hash, g.startTime)
  {
    hide HadRound1;
    if s.signing.Some? {
      var g := s.signing.value;
      Round1Grows(s.log, e, s.signings, g.sessionId, g.hash, g.startTime);
    }
  }

  /** The three ways a failing round 2 leaves the state. */
  lemma Round2Failure(s: State, id: string, now: nat, signed: bool)
    requires SignRound2Step(s, id, now, signed).outcome != Done
    ensures var s' := SignRound2Step(s, id, now, signed).state;
            s' == s || s' == s.(signing := None, phase := Ready) ||
            (s.signing.Some? && s' == s.(signing := Some(s.signing.value.(round := 2))))
  {
    hide Mark, Fresh;
  }

  lemma Round2FailureKeeps(s: State, id: string, now: nat, signed: bool)
    requires Inv(s) && SignRound2Step(s, id, now, signed).outcome != Done
    ensures Inv(SignRound2Step(s, id, now, signed).state)
  {
    hide HadRound1, HadPart1, HadPart2, HistoryGood, SignRound2Step;
    Round2Failure(s, id, now, signed);
  }

  /** What a round-2 success did and what it relied on. */
  lemma Round2Success(s: State, id: string, now: nat, signed: bool)
    requires SignRound2Step(s, id, now, signed).outcome == Done
    ensures s.signing.Some? && s.signing.value.nonces.Some? && s.signing.value.sessionId == id
    ensures var g := s.signing.value;
            Elapsed(now, g.startTime) <= SIGNING_TIMEOUT && Fresh(s.replay, Use(id, 2, g.hash)) &&
            SignRound2Step(s, id, now, signed).state
            == s.(signing := None, phase := Ready, replay := Mark(s.replay, Use(id, 2, g.hash)),
                  log := s.log + [Round2(s.signings, id, g.hash, g.startTime, now)])
  {
    hide Mark, Fresh;
  }

  lemma Round2Keeps(s: State, id: string, now: nat, signed: bool)
    requires Inv(s)
    ensures Inv(SignRound2Step(s, id, now, signed).state)
  {
    hide Mark, Fresh, HadRound1, HadPart1, HadPart2, HistoryGood, SignRound2Step;
    if SignRound2Step(s, id, now, signed).outcome != Done {
      Round2FailureKeeps(s, id, now, signed);
    } else {
      Round2Success(s, id, now, signed);
      var g := s.signing.value;
      var e := Round2(s.signings, id, g.hash, g.startTime, now);
      HistoryAfterRound(s.log, s.replay, e);
      DkgSlotGrows(s, e);
      PackageSnoc(s.log, e);
    }
  }

  lemma Part1Keeps(s: State, id: string, now: nat, secret: Option<Blob>)
    requires Inv(s)
    ensures Inv(DkgPart1Step(s, id, now, secret).state)
  {
    hide Mark, Fresh, HadRound1, HadPart1, HadPart2, HistoryGood;
    var r := DkgPart1Step(s, id, now, secret);
    if r.outcome == Done {
      var g := DkgPart1Guard(s, id, now).state;
      var d := g.dkg.value;
      var e := Part1(g.dkgs, d.sessionId, d.startTime, now);
      HistoryAfterDkg(s.log, s.replay, e);
      NonceSlotGrows(s, e);
      Part1Grows(s.log, e, g.dkgs, d.sessionId, d.startTime);
      PackageSnoc(s.log, e);
    }
  }

  lemma Part2Keeps(s: State, id: string, now: nat, secret: Option<Blob>)
    requires Inv(s)
    ensures Inv(DkgPart2Step(s, id, now, secret).state)
  {
    hide Mark, Fresh, HadRound1, HadPart1, HadPart2, HistoryGood;
    var r := DkgPart2Step(s, id, now, secret);
    if r.outcome == Done {
      var d := s.dkg.value;
      var e := Part2(s.dkgs, d.sessionId, d.startTime, now);
      HistoryAfterDkg(s.log, s.replay, e);
      NonceSlotGrows(s, e);
      Part1Grows(s.log, e, s.dkgs, d.sessionId, d.startTime);
      Part2Grows(s.log, e, s.dkgs, d.sessionId, d.startTime);
      PackageSnoc(s.log, e);
    }
  }

  lemma Part3Keeps(s: State, id: string, now: nat, package: Option<Blob>)
    requires Inv(s)
    ensures Inv(DkgPart3Step(s, id, now, package).state)
  {
    hide Mark, Fresh, HadRound1, HadPart1, HadPart2, HistoryGood;
    var r := DkgPart3Step(s, id, now, package);
    if r.outcome == Done {
      var d := s.dkg.value;
      var e := KeyInstalled(s.dkgs, d.sessionId, d.startTime, now);
      HistoryAfterDkg(s.log, s.replay, e);
      NonceSlotGrows(s, e);
      PackageSnoc(s.log, e);
    }
  }

  lemma QuietSigningKeeps(s: State, op: Op)
    requires Inv(s)
    requires op.SignStart? || op.AddCommitment? || op.SignAbort?
    ensures Inv(Step(s, op).state)
  {
    hide HadRound1, HadPart1, HadPart2, HistoryGood;
  }

  /** Changes of phase and share alone keep the invariant if they respect the session slot. */
  lemma SlotsUntouched(s: State, t: State)
    requires Inv(s) && t == s.(phase := t.phase, share := t.share, hasIdentity := t.hasIdentity)
    requires s.share.Some? ==> t.share.Some?
    requires t.phase == Signing ==> s.phase == Signing
    ensures Inv(t)
  {
    hide HadRound1, HadPart1, HadPart2, HistoryGood;
  }

  lemma QuietKeyKeeps(s: State, op: Op)
    requires Inv(s)
    requires op.Initialize? || op.DkgStart? || op.RefreshApply?
    ensures Inv(Step(s, op).state)
  {
    hide Inv;
    SlotsUntouched(s, Step(s, op).state);
  }

  lemma QuietDkgKeeps(s: State, op: Op)
    requires Inv(s)
    requires op.DkgStartSession? || op.DkgAbort?
    ensures Inv(Step(s, op).state)
  {
    hide HadRound1, HadPart1, HadPart2, HistoryGood;
  }

  /** Every operation keeps the invariant. */
  lemma StepKeepsInv(s: State, op: Op)
    requires Inv(s)
    ensures Inv(Step(s, op).state)
  {
    hide Inv, SignRound1Step, SignRound2Step, DkgPart1Step, DkgPart2Step, DkgPart3Step;
    match op
    case SignRound1(id, now, nonces) => Round1Keeps(s, id, now, nonces);
    case SignRound2(id, now, signed) => Round2Keeps(s, id, now, signed);
    case DkgPart1(id, now, secret) => Part1Keeps(s, id, now, secret);
    case DkgPart2(id, now, secret) => Part2Keeps(s, id, now, secret);
    case DkgPart3(id, now, package) => Part3Keeps(s, id, now, package);
    case SignStart(_, _, _, _) => QuietSigningKeeps(s, op);
    case AddCommitment(_, _, _) => QuietSigningKeeps(s, op);
    case SignAbort(_) => QuietSigningKeeps(s, op);
    case DkgStartSession(_, _) => QuietDkgKeeps(s, op);
    case DkgAbort(_) => QuietDkgKeeps(s, op);
    case _ => QuietKeyKeeps(s, op);
  }

  lemma {:induction false} RunKeepsInv(ops: seq<Op>)
    ensures Inv(Run(ops))
  {
    if ops != [] {
      RunKeepsInv(ops[..|ops| - 1]);
      StepKeepsInv(Run(ops[..|ops| - 1]), ops[|ops| - 1]);
    }
  }

  // ----- Consequences for whole runs -----

  /** Two successes of one round for one (session id, message hash) pair. */
  predicate SameRound(e: Event, f: Event) {
    ((e.Round1? && f.Round1?) || (e.Round2? && f.Round2?)) && e.sessionId == f.sessionId && e.hash == f.hash
  }

  ghost predicate RoundsOnce(log: seq<Event>) {
    forall i, j :: 0 <= i < j < |log| ==> !SameRound(log[i], log[j])
  }

  /** In every serialised run with at most 1001 marks, no (session id, message hash) pair gets two
      round-1 successes or two round-2 successes, however often the id is restarted. */
  lemma RoundsAtMostOnce(ops: seq<Op>)
    requires |Marks(Run(ops).log)| <= 1001
    ensures RoundsOnce(Run(ops).log)
  {
    RunKeepsInv(ops);
    hide Run, Marks;
    var log := Run(ops).log;
    forall i, j | 0 <= i < j < |log| ensures !SameRound(log[i], log[j]) {
      if (log[i].Round1? && log[j].Round1?) || (log[i].Round2? && log[j].Round2?) {
        MarksReflectLog(log, i, j);
      }
    }
  }

  /** Two marking events at different places of the log are two marks at different places. */
  lemma {:induction false} MarksReflectLog(log: seq<Event>, i: nat, j: nat)
    requires i < j < |log| && Distinct(Marks(log))
    requires log[i].Round1? || log[i].Round2?
    requires log[j].Round1? || log[j].Round2?
    ensures UseOf(log[i]) != UseOf(log[j])
    decreases |log|
  {
    var before, e := log[..|log| - 1], log[|log| - 1];
    assert log == before + [e];
    MarksSnoc(before, e);
    if j < |before| {
      DistinctPrefix(before, e);
      MarksReflectLog(before, i, j);
    } else {
      MarkOf(before, i);
      var m :| 0 <= m < |Marks(before)| && Marks(before)[m] == UseOf(log[i]);
      assert Marks(log)[m] == UseOf(log[i]) && Marks(log)[|Marks(before)|] == UseOf(e);
    }
  }

  lemma DistinctPrefix(log: seq<Event>, e: Event)
    requires Distinct(Marks(log + [e]))
    ensures Distinct(Marks(log))
  {
    MarksSnoc(log, e);
    forall a, b | 0 <= a < b < |Marks(log)| ensures Marks(log)[a] != Marks(log)[b] {
      assert Marks(log)[a] == Marks(log + [e])[a] && Marks(log)[b] == Marks(log + [e])[b];
    }
  }

  lemma {:induction false} MarkOf(log: seq<Event>, i: nat)
    requires i < |log| && (log[i].Round1? || log[i].Round2?)
    ensures exists m :: 0 <= m < |Marks(log)| && Marks(log)[m] == UseOf(log[i])
    decreases |log|
  {
    var before, e := log[..|log| - 1], log[|log| - 1];
    assert log == before + [e];
    MarksSnoc(before, e);
    if i < |before| {
      MarkOf(before, i);
      var m :| 0 <= m < |Marks(before)| && Marks(before)[m] == UseOf(before[i]);
      assert Marks(log)[m] == UseOf(log[i]);
    } else {
      assert Marks(log)[|Marks(before)|] == UseOf(log[i]);
    }
  }

  /** Every round-2 success follows a round-1 success of the same session object with the same id and
      message, and both happen at most 60 seconds after that session started. */
  lemma Round2FollowsRound1(ops: seq<Op>, k: nat)
    requires k < |Run(ops).log| && Run(ops).log[k].Round2?
    ensures var e := Run(ops).log[k];
            e.now <= e.start + 60 &&
            exists i :: 0 <= i < k &&
              Run(ops).log[i] == Round1(e.instance, e.sessionId, e.hash, e.start, Run(ops).log[i].now) &&
              Run(ops).log[i].now <= e.start + 60
  {
    RunKeepsInv(ops);
    var log := Run(ops).log;
    var e := log[k];
    var i :| 0 <= i < k && IsRound1(log[..k][i], e.instance, e.sessionId, e.hash, e.start);
    assert log[..k][i] == log[i];
    assert log[i] == Round1(e.instance, e.sessionId, e.hash, e.start, log[i].now);
  }

  /** A key package is present only if some DKG session object went through part 1, part 2 and part 3
      in that order under one session id, each at most 600 seconds after the session started. */
  lemma KeyPackageNeedsFullDkg(ops: seq<Op>)
    requires Run(ops).keyPackage.Some?
    ensures exists k :: 0 <= k < |Run(ops).log| && Run(ops).log[k].KeyInstalled?
    ensures var log := Run(ops).log;
            forall k :: 0 <= k < |log| && log[k].KeyInstalled? ==>
              log[k].now <= log[k].start + 600 &&
              exists i, j :: 0 <= i < j < k &&
                log[i] == Part1(log[k].instance, log[k].sessionId, log[k].start, log[i].now) &&
                log[j] == Part2(log[k].instance, log[k].sessionId, log[k].start, log[j].now) &&
                log[i].now <= log[k].start + 600 && log[j].now <= log[k].start + 600
  {
    RunKeepsInv(ops);
    var log := Run(ops).log;
    hide Run, HadPart2, HadPart1, HadRound1, IsPart1, IsPart2;
    forall k | 0 <= k < |log| && log[k].KeyInstalled?
      ensures exists i, j :: 0 <= i < j < k &&
                log[i] == Part1(log[k].instance, log[k].sessionId, log[k].start, log[i].now) &&
                log[j] == Part2(log[k].instance, log[k].sessionId, log[k].start, log[j].now) &&
                log[i].now <= log[k].start + 600 && log[j].now <= log[k].start + 600
    {
      var i, j := PartsBefore(log, k);
      PartFacts(log[i], log[j], log[k].instance, log[k].sessionId, log[k].start);
      assert log[i] == Part1(log[k].instance, log[k].sessionId, log[k].start, log[i].now);
      assert log[j] == Part2(log[k].instance, log[k].sessionId, log[k].start, log[j].now);
    }
  }

  lemma PartFacts(e: Event, f: Event, n: nat, id: string, start: nat)
    requires IsPart1(e, n, id, start) && IsPart2(f, n, id, start)
    ensures e == Part1(n, id, start, e.now) && e.now <= start + 600
    ensures f == Part2(n, id, start, f.now) && f.now <= start + 600
  {
  }

  lemma PartsBefore(log: seq<Event>, k: nat) returns (i: nat, j: nat)
    requires InstallsJustified(log) && k < |log| && log[k].KeyInstalled?
    ensures i < j < k
    ensures IsPart1(log[i], log[k].instance, log[k].sessionId, log[k].start)
    ensures IsPart2(log[j], log[k].instance, log[k].sessionId, log[k].start)
  {
    var n, id, start := log[k].instance, log[k].sessionId, log[k].start;
    assert HadPart2(log[..k], n, id, start);
    j :| 0 <= j < k && IsPart2(log[..k][j], n, id, start) && HadPart1(log[..k][..j], n, id, start);
    i :| 0 <= i < j && IsPart1(log[..k][..j][i], n, id, start);
    assert log[..k][j] == log[j] && log[..k][..j][i] == log[i];
  }

  /** The key package changes only in the step that logs an installation. */
  lemma OnlyPart3Installs(s: State, op: Op)
    requires Step(s, op).state.keyPackage != s.keyPackage
    ensures op.DkgPart3? && Step(s, op).outcome == Done
    ensures Step(s, op).state.log[|Step(s, op).state.log| - 1].KeyInstalled?
  {
    hide Mark, Fresh;
  }

  /** Phase and slots along every run: signing implies a session, a session implies a share, DKG
      rounds are 1 or 2 and the round-2 secret is there exactly in round 2. */
  lemma RunSessionsConsistent(ops: seq<Op>)
    ensures SessionsConsistent(Run(ops))
  {
    RunKeepsInv(ops);
  }

  /** Once present, the share stays present through any continuation of the run. */
  lemma {:induction false} ShareNeverCleared(ops: seq<Op>, n: nat)
    requires n <= |ops| && Run(ops[..n]).share.Some?
    ensures Run(ops).share.Some?
    decreases |ops|
  {
    if n == |ops| {
      assert ops[..n] == ops;
    } else {
      var before := ops[..|ops| - 1];
      assert before[..n] == ops[..n];
      ShareNeverCleared(before, n);
      StepKeepsShare(Run(before), ops[|ops| - 1]);
    }
  }
}
