/** A request that runs without interference does exactly its atomic step: the lock-level requests
    refine the enclave operations. */
module SoloRequests {
  import opened Bytes
  import opened ReplayCache
  import opened EnclaveModel
  import opened SigningLocks

  /** Runs one request for at most `n` critical sections. */
  ghost function Drive(l: Local, n: nat): (r: Local)
    decreases n
  {
    if n == 0 || l.pc.Finished? then l else Drive(Micro(l.global, l.pc), n - 1)
  }

  lemma DriveOne(l: Local, n: nat)
    requires n > 0 && !l.pc.Finished?
    ensures Drive(l, n) == Drive(Micro(l.global, l.pc), n - 1)
  {
  }

  lemma DriveDone(l: Local, n: nat)
    requires l.pc.Finished?
    ensures Drive(l, n) == l
  {
  }

  lemma DriveNone(l: Local)
    ensures Drive(l, 0) == l
  {
  }

  /** The slot holds the session object started last. */
  ghost predicate Aligned(g: Global) {
    g.shared.signing.Some? ==> g.current == g.shared.signings
  }

  ghost predicate Refines(g: Global, op: Op, l: Local) {
    var r := Step(g.shared, op);
    l.pc == Finished(r.outcome) && l.global.shared == r.state && Aligned(l.global)
  }

  const LONGEST: nat := 8

  lemma SoloStart(g: Global, op: StartOp)
    requires Aligned(g)
    ensures Refines(g, op, Drive(Local(g, Begin(op)), LONGEST))
  {
    hide Drive, DkgMicro, BeginDkg, Round1Micro, Round2Micro, FinishMicro;
    var l0 := Local(g, Begin(op));
    var l1 := Micro(l0.global, l0.pc);
    DriveOne(l0, 8);
    var l2 := Micro(l1.global, l1.pc);
    DriveOne(l1, 7);
    if l2.pc.Finished? {
      DriveDone(l2, 6);
    } else {
      var l3 := Micro(l2.global, l2.pc);
      DriveOne(l2, 6);
      var l4 := Micro(l3.global, l3.pc);
      DriveOne(l3, 5);
      DriveDone(l4, 4);
    }
  }

  lemma SoloAbort(g: Global, op: Op)
    requires Aligned(g) && op.SignAbort?
    ensures Refines(g, op, Drive(Local(g, Begin(op)), LONGEST))
  {
    hide Drive, DkgMicro, BeginDkg, Round1Micro, Round2Micro, StartStep;
    var l0 := Local(g, Begin(op));
    var l1 := Micro(l0.global, l0.pc);
    DriveOne(l0, 8);
    if l1.pc.Finished? {
      DriveDone(l1, 7);
    } else {
      var l2 := Micro(l1.global, l1.pc);
      DriveOne(l1, 7);
      var l3 := Micro(l2.global, l2.pc);
      DriveOne(l2, 6);
      DriveDone(l3, 5);
    }
  }

  lemma SoloRound1(g: Global, op: Round1Op)
    requires Aligned(g)
    ensures Refines(g, op, Drive(Local(g, Begin(op)), LONGEST))
  {
    hide Drive, Mark, Fresh, DkgMicro, BeginDkg, StartStep, Round2Micro, FinishMicro;
    var l0 := Local(g, Begin(op));
    var l1 := Micro(l0.global, l0.pc);
    DriveOne(l0, 8);
    if l1.pc.Finished? {
      DriveDone(l1, 7);
      return;
    }
    var s := g.shared.signing.value;
    var e := Entry(op, g.current, s.startTime);
    assert l1 == Local(g, R1Read(e));
    DriveOne(l1, 7);
    var l2 := Local(g, R1Check(e, s.hash));
    assert Micro(g, l1.pc) == l2;
    DriveOne(l2, 6);
    if !Fresh(g.shared.replay, Use(op.sessionId, 1, s.hash)) {
      DriveDone(Micro(g, l2.pc), 5);
      return;
    }
    DriveOne(Local(g, R1Share(e)), 5);
    if g.shared.share.None? {
      DriveDone(Micro(g, R1Share(e)), 4);
      return;
    }
    DriveOne(Local(g, R1Reread(e, g.shared.share.value)), 4);
    DriveOne(Local(g, R1Generate(e, g.shared.share.value, s.hash)), 3);
    if op.nonces.None? {
      DriveDone(Micro(g, R1Generate(e, g.shared.share.value, s.hash)), 2);
      return;
    }
    var l6 := Micro(g, R1Generate(e, g.shared.share.value, s.hash));
    DriveOne(l6, 2);
    var l7 := Micro(l6.global, l6.pc);
    DriveOne(l7, 1);
    DriveDone(Micro(l7.global, l7.pc), 0);
  }

  /** The state right after the round-2 guard let the request through. */
  ghost predicate PastGuard(g: Global, op: Round2Op, h: Global, r: Grab) {
    && g.shared.signing.Some?
    && var s := g.shared.signing.value;
       r == Grab(op, g.current, s.startTime, s.hash, s.nonces, g.nonce) &&
       h == Slot(g, Some(s.(round := 2))).(trace := g.trace + [Passed(g.current)]) &&
       s.sessionId == op.sessionId && Elapsed(op.now, s.startTime) <= SIGNING_TIMEOUT && s.round == 1
  }

  /** Past the guard, the checks before signing. */
  lemma Round2Checks(g: Global, op: Round2Op, h: Global, r: Grab)
    requires Aligned(g) && PastGuard(g, op, h, r)
    ensures Refines(g, op, Drive(Local(h, R2Check(r)), 7))
         || (Drive(Local(h, R2Check(r)), 7) == Drive(Local(h, R2Sign(r)), 4) &&
             Fresh(g.shared.replay, Use(op.sessionId, 2, r.hash)) && r.nonces.Some? && g.shared.share.Some?)
  {
    hide Drive, Mark, Fresh, DkgMicro, BeginDkg, StartStep, Round1Micro, FinishMicro;
    DriveOne(Local(h, R2Check(r)), 7);
    if !Fresh(g.shared.replay, Use(op.sessionId, 2, r.hash)) {
      DriveDone(Micro(h, R2Check(r)), 6);
      return;
    }
    DriveOne(Local(h, R2Nonces(r)), 6);
    if r.nonces.None? || g.shared.share.None? {
      DriveDone(Micro(h, R2Nonces(r)), 5);
      return;
    }
    DriveOne(Local(h, R2Commitments(r)), 5);
  }

  /** Past the checks, signing and the rest. */
  lemma Round2Signs(g: Global, op: Round2Op, h: Global, r: Grab)
    requires Aligned(g) && PastGuard(g, op, h, r)
    requires Fresh(g.shared.replay, Use(op.sessionId, 2, r.hash)) && r.nonces.Some? && g.shared.share.Some?
    ensures Refines(g, op, Drive(Local(h, R2Sign(r)), 4))
  {
    hide Drive, Mark, Fresh, DkgMicro, BeginDkg, StartStep, Round1Micro;
    DriveOne(Local(h, R2Sign(r)), 4);
    if !op.signed {
      DriveDone(Micro(h, R2Sign(r)), 3);
    } else {
      SignedTail(h, r);
    }
  }

  lemma SoloRound2(g: Global, op: Round2Op)
    requires Aligned(g)
    ensures Refines(g, op, Drive(Local(g, Begin(op)), LONGEST))
  {
    hide Drive, Mark, Fresh, DkgMicro, BeginDkg, StartStep, Round1Micro;
    var l1 := Micro(g, Begin(op));
    DriveOne(Local(g, Begin(op)), 8);
    if l1.pc.Finished? {
      DriveDone(l1, 7);
    } else {
      hide Refines, Micro;
      var h, r := l1.global, l1.pc.r2;
      assert PastGuard(g, op, h, r);
      Round2Checks(g, op, h, r);
      if !Refines(g, op, Drive(Local(h, R2Check(r)), 7)) {
        Round2Signs(g, op, h, r);
      }
    }
  }

  /** From the signature to the end of the request. */
  lemma SignedTail(h: Global, r: Grab)
    requires r.op.signed
    ensures var g := Micro(h, R2Sign(r)).global;
            Drive(Micro(h, R2Sign(r)), 3) ==
            Local(g.(shared := h.shared.(
                       signing := None, phase := Ready,
                       replay := Mark(h.shared.replay, Use(r.op.sessionId, 2, r.hash)),
                       log := h.shared.log + [Round2(r.instance, r.op.sessionId, r.hash, r.start, r.op.now)])),
                  Finished(Done))
  {
    hide Drive, Mark, DkgMicro, BeginDkg, StartStep, Round1Micro;
    var l5 := Micro(h, R2Sign(r));
    DriveOne(l5, 3);
    var l6 := Micro(l5.global, l5.pc);
    DriveOne(l6, 2);
    var l7 := Micro(l6.global, l6.pc);
    DriveOne(l7, 1);
    DriveDone(Micro(l7.global, l7.pc), 0);
  }

  // ----- DKG sessions -----

  /** A finished request ends where it is; any other takes its next critical section. */
  lemma DriveNext(l: Local, n: nat)
    ensures Drive(l, n + 1) == if l.pc.Finished? then l else Drive(Micro(l.global, l.pc), n)
  {
  }

  lemma SoloDkgStart(g: Global, op: DkgStartOp)
    requires Aligned(g)
    ensures Refines(g, op, Drive(Local(g, Begin(op)), LONGEST))
  {
    hide Drive, StartStep, Round1Micro, Round2Micro, FinishMicro;
    var h := DkgSlot(g, None);
    DriveNext(Local(g, Begin(op)), 7);
    DriveNext(Local(h, Dkg(StartCheck(op))), 6);
    var l := DkgMicro(h, StartCheck(op));
    DriveNext(l, 5);
    if !l.pc.Finished? {
      var put := DkgMicro(l.global, l.pc.step);
      DriveNext(put, 4);
      DriveDone(DkgMicro(put.global, StartDone), 4);
    }
  }

  lemma SoloPart1(g: Global, op: Part1Op)
    requires Aligned(g)
    ensures Refines(g, op, Drive(Local(g, Begin(op)), LONGEST))
  {
    hide Drive, StartStep, Round1Micro, Round2Micro, FinishMicro;
    DriveNext(Local(g, Begin(op)), 7);
    var l := BeginPart1(g, op);
    DriveNext(l, 6);
    if !l.pc.Finished? {
      var phased := DkgMicro(l.global, l.pc.step);
      DriveNext(phased, 5);
      if !phased.pc.Finished? {
        DriveDone(DkgMicro(phased.global, phased.pc.step), 5);
      }
    }
  }

  lemma SoloPart2(g: Global, op: Part2Op)
    requires Aligned(g)
    ensures Refines(g, op, Drive(Local(g, Begin(op)), LONGEST))
  {
    hide Drive, StartStep, Round1Micro, Round2Micro, FinishMicro;
    DriveNext(Local(g, Begin(op)), 7);
    var l := BeginPart2(g, op);
    DriveNext(l, 6);
    if !l.pc.Finished? {
      DriveDone(DkgMicro(l.global, l.pc.step), 6);
    }
  }

  /** From the installed key package to the end of the request. */
  lemma Part3Tail(g: Global, op: Part3Op, n: nat)
    requires n >= 4
    ensures Drive(Local(g, Dkg(P3Share(op))), n)
         == Local(g.(shared := g.shared.(share := op.package, phase := Ready, dkg := None)), Finished(Done))
  {
    hide Drive, StartStep, Round1Micro, Round2Micro, FinishMicro, BeginDkg;
    DriveOne(Local(g, Dkg(P3Share(op))), n);
    var share := DkgMicro(g, P3Share(op));
    DriveOne(share, n - 1);
    var phase := DkgMicro(share.global, P3Phase);
    DriveOne(phase, n - 2);
    DriveDone(DkgMicro(phase.global, P3Clear), n - 3);
  }

  lemma SoloPart3(g: Global, op: Part3Op)
    requires Aligned(g)
    ensures Refines(g, op, Drive(Local(g, Begin(op)), LONGEST))
  {
    hide Drive, StartStep, Round1Micro, Round2Micro, FinishMicro;
    DriveNext(Local(g, Begin(op)), 7);
    var l := BeginPart3(g, op);
    DriveNext(l, 6);
    if !l.pc.Finished? {
      Part3Tail(DkgMicro(l.global, l.pc.step).global, op, 6);
    }
  }

  lemma SoloDkgAbort(g: Global, op: Op)
    requires Aligned(g) && op.DkgAbort?
    ensures Refines(g, op, Drive(Local(g, Begin(op)), LONGEST))
  {
    hide Drive, StartStep, Round1Micro, Round2Micro, FinishMicro;
    DriveNext(Local(g, Begin(op)), 7);
    var l := BeginDkg(g, op);
    DriveNext(l, 6);
    if !l.pc.Finished? {
      var cleared := DkgMicro(g, DkgAbortClear);
      DriveNext(cleared, 5);
      DriveDone(DkgMicro(cleared.global, DkgAbortPhase), 5);
    }
  }

  lemma SoloDkg(g: Global, op: Op)
    requires Aligned(g) && IsDkg(op)
    ensures Refines(g, op, Drive(Local(g, Begin(op)), LONGEST))
  {
    hide Drive, Refines;
    match op
    case DkgStartSession(_, _) => SoloDkgStart(g, op);
    case DkgPart1(_, _, _) => SoloPart1(g, op);
    case DkgPart2(_, _, _) => SoloPart2(g, op);
    case DkgPart3(_, _, _) => SoloPart3(g, op);
    case DkgAbort(_) => SoloDkgAbort(g, op);
  }

  /** Every operation, run alone as a request, has the outcome and the effect of its atomic step. */
  lemma SoloRequestIsAtomic(g: Global, op: Op)
    requires Aligned(g)
    ensures Refines(g, op, Drive(Local(g, Begin(op)), LONGEST))
  {
    if op.SignStart? {
      SoloStart(g, op);
    } else if op.SignAbort? {
      SoloAbort(g, op);
    } else if op.SignRound1? {
      SoloRound1(g, op);
    } else if op.SignRound2? {
      SoloRound2(g, op);
    } else if IsDkg(op) {
      SoloDkg(g, op);
    } else {
      hide Drive, Step;
      DriveOne(Local(g, Begin(op)), 8);
      DriveDone(Micro(g, Begin(op)), 7);
      OtherOpAligned(g.shared, op);
    }
  }

  lemma OtherOpAligned(s: State, op: Op)
    requires !op.SignStart? && !op.SignRound1? && !op.SignRound2? && !op.SignAbort?
    ensures Step(s, op).state.signings == s.signings
    ensures Step(s, op).state.signing.Some? ==> s.signing.Some?
  {
  }
}
