/** The enclave's session operations as atomic steps over an explicit state, with a log of the
    successes that matter (cmd/mpc-enclave/src/ipc.rs). Cryptographic calls, the clock and the disk
    are arguments of the operations: `None` means the call failed. */
module EnclaveModel {
  import opened Bytes
  import opened ReplayCache
  import Nodes

  const SIGNING_TIMEOUT: nat := 60
  const DKG_TIMEOUT: nat := 600

  type NodeId = Nodes.NodeId
  type Blob = seq<Byte>

  datatype Phase = Uninitialized | Ready | KeyGeneration | Signing

  datatype SigningSession = SigningSession(
    sessionId: string, hash: Blob, participants: seq<NodeId>, startTime: nat,
    nonces: Option<Blob>, commitments: map<NodeId, Blob>, round: Byte)

  datatype DkgSession = DkgSession(
    sessionId: string, startTime: nat, round: Byte, secret1: Option<Blob>, secret2: Option<Blob>)

  /** A success worth remembering. `instance` numbers the session objects of each kind, `start` is
      the session's start time and `now` the time of the success. */
  datatype Event =
    | Round1(instance: nat, sessionId: string, hash: Blob, start: nat, now: nat)
    | Round2(instance: nat, sessionId: string, hash: Blob, start: nat, now: nat)
    | Part1(instance: nat, sessionId: string, start: nat, now: nat)
    | Part2(instance: nat, sessionId: string, start: nat, now: nat)
    | KeyInstalled(instance: nat, sessionId: string, start: nat, now: nat)

  datatype State = State(
    phase: Phase, hasIdentity: bool, share: Option<Blob>, keyPackage: Option<Blob>,
    signing: Option<SigningSession>, dkg: Option<DkgSession>, replay: Cache,
    signings: nat, dkgs: nat, log: seq<Event>)

  datatype Failure =
    | NotReady | NoShare | NoSession | OtherSession | TimedOut | WrongRound | Replayed
    | NoNonces | NoSecret | CryptoFailed

  datatype Outcome = Done | Failed(why: Failure)

  datatype Result = Result(state: State, outcome: Outcome)

  datatype Op =
    | Initialize(loaded: Option<Blob>)
    | DkgStart(ourShare: Option<Blob>)
    | DkgStartSession(sessionId: string, now: nat)
    | DkgPart1(sessionId: string, now: nat, secret: Option<Blob>)
    | DkgPart2(sessionId: string, now: nat, secret: Option<Blob>)
    | DkgPart3(sessionId: string, now: nat, package: Option<Blob>)
    | DkgAbort(sessionId: string)
    | RefreshApply(package: Option<Blob>)
    | SignStart(sessionId: string, hash: Blob, participants: seq<NodeId>, now: nat)
    | SignRound1(sessionId: string, now: nat, nonces: Option<Blob>)
    | AddCommitment(sessionId: string, from: NodeId, commitment: Blob)
    | SignRound2(sessionId: string, now: nat, signed: bool)
    | SignAbort(sessionId: string)

  const InitialState := State(Uninitialized, false, None, None, None, None, map[], 0, 0, [])

  function Elapsed(now: nat, start: nat): (r: nat) {
    if now > start then now - start else 0
  }

  function NewDkg(sessionId: string, now: nat): (r: DkgSession) {
    DkgSession(sessionId, now, 1, None, None)
  }

  function Fail(s: State, why: Failure): (r: Result) {
    Result(s, Failed(why))
  }

  function InitializeStep(s: State, loaded: Option<Blob>): (r: Result) {
    Result(s.(phase := Ready, hasIdentity := true,
              share := if !s.hasIdentity && loaded.Some? then loaded else s.share), Done)
  }

  /** Single-dealer key generation; a failing dealer leaves the phase at KeyGeneration. */
  function DkgStartStep(s: State, ourShare: Option<Blob>): (r: Result) {
    if s.phase != Ready then Fail(s, NotReady)
    else if ourShare.None? then Fail(s.(phase := KeyGeneration), CryptoFailed)
    else Result(s.(share := ourShare), Done)
  }

  function DkgStartSessionStep(s: State, sessionId: string, now: nat): (r: Result) {
    if s.phase != Ready then Fail(s.(dkg := None), NotReady)
    else Result(s.(dkg := Some(NewDkg(sessionId, now)), dkgs := s.dkgs + 1, phase := KeyGeneration), Done)
  }

  /** The session check of part 1, which creates a session when there is none. */
  function DkgPart1Guard(s: State, sessionId: string, now: nat): (r: Result)
    ensures r.outcome == Done ==> r.state.dkg.Some?
  {
    match s.dkg
    case None => Result(s.(dkg := Some(NewDkg(sessionId, now)), dkgs := s.dkgs + 1), Done)
    case Some(d) =>
      if d.sessionId != sessionId then Fail(s, OtherSession)
      else if Elapsed(now, d.startTime) > DKG_TIMEOUT then Fail(s.(dkg := None), TimedOut)
      else if d.round != 1 then Fail(s, WrongRound)
      else Result(s, Done)
  }

  function DkgPart1Step(s: State, sessionId: string, now: nat, secret: Option<Blob>): (r: Result) {
    var g := DkgPart1Guard(s, sessionId, now);
    if g.outcome != Done then g
    else if secret.None? then Fail(g.state.(phase := KeyGeneration), CryptoFailed)
    else
      var d := g.state.dkg.value;
      Result(g.state.(phase := KeyGeneration, dkg := Some(d.(secret1 := secret)),
                      log := s.log + [Part1(g.state.dkgs, d.sessionId, d.startTime, now)]), Done)
  }

  function DkgPart2Step(s: State, sessionId: string, now: nat, secret: Option<Blob>): (r: Result) {
    match s.dkg
    case None => Fail(s, NoSession)
    case Some(d) =>
      if d.sessionId != sessionId then Fail(s, OtherSession)
      else if Elapsed(now, d.startTime) > DKG_TIMEOUT then Fail(s.(dkg := None), TimedOut)
      else if d.round != 1 then Fail(s, WrongRound)
      else if d.secret1.None? then Fail(s, NoSecret)
      else if secret.None? then Fail(s, CryptoFailed)
      else Result(s.(dkg := Some(d.(round := 2, secret2 := secret)),
                     log := s.log + [Part2(s.dkgs, d.sessionId, d.startTime, now)]), Done)
  }

  function DkgPart3Step(s: State, sessionId: string, now: nat, package: Option<Blob>): (r: Result) {
    match s.dkg
    case None => Fail(s, NoSession)
    case Some(d) =>
      if d.sessionId != sessionId then Fail(s, OtherSession)
      else if Elapsed(now, d.startTime) > DKG_TIMEOUT then Fail(s.(dkg := None), TimedOut)
      else if d.round != 2 then Fail(s, WrongRound)
      else if d.secret2.None? then Fail(s, NoSecret)
      else if package.None? then Fail(s, CryptoFailed)
      else Result(s.(keyPackage := package, share := package, phase := Ready, dkg := None,
                     log := s.log + [KeyInstalled(s.dkgs, d.sessionId, d.startTime, now)]), Done)
  }

  function DkgAbortStep(s: State, sessionId: string): (r: Result) {
    match s.dkg
    case None => Fail(s, NoSession)
    case Some(d) =>
      if d.sessionId != sessionId then Fail(s, OtherSession)
      else Result(s.(dkg := None, phase := Ready), Done)
  }

  function RefreshApplyStep(s: State, package: Option<Blob>): (r: Result) {
    if s.share.None? then Fail(s, NoShare)
    else if package.None? then Fail(s, CryptoFailed)
    else Result(s.(share := package), Done)
  }

  /** Starting a session first drops whatever session is there, even if starting then fails. */
  function SignStartStep(s: State, sessionId: string, hash: Blob, participants: seq<NodeId>, now: nat): (r: Result) {
    if s.share.None? then Fail(s.(signing := None), NoShare)
    else Result(s.(signing := Some(SigningSession(sessionId, hash, participants, now, None, map[], 1)),
                   signings := s.signings + 1, phase := Signing), Done)
  }

  ghost function SignRound1Step(s: State, sessionId: string, now: nat, nonces: Option<Blob>): (r: Result) {
    match s.signing
    case None => Fail(s, NoSession)
    case Some(g) =>
      if g.sessionId != sessionId then Fail(s, OtherSession)
      else if Elapsed(now, g.startTime) > SIGNING_TIMEOUT then Fail(s.(signing := None, phase := Ready), TimedOut)
      else if g.round != 1 then Fail(s, WrongRound)
      else if !Fresh(s.replay, Use(sessionId, 1, g.hash)) then Fail(s, Replayed)
      else if s.share.None? then Fail(s, NoShare)
      else if nonces.None? then Fail(s, CryptoFailed)
      else Result(s.(signing := Some(g.(nonces := nonces)), replay := Mark(s.replay, Use(sessionId, 1, g.hash)),
                     log := s.log + [Round1(s.signings, sessionId, g.hash, g.startTime, now)]), Done)
  }

  function AddCommitmentStep(s: State, sessionId: string, from: NodeId, commitment: Blob): (r: Result) {
    match s.signing
    case None => Fail(s, NoSession)
    case Some(g) =>
      if g.sessionId != sessionId then Fail(s, OtherSession)
      else Result(s.(signing := Some(g.(commitments := g.commitments[from := commitment]))), Done)
  }

  /** Passing the guard moves the session to round 2 even if signing then fails. */
  ghost function SignRound2Step(s: State, sessionId: string, now: nat, signed: bool): (r: Result) {
    match s.signing
    case None => Fail(s, NoSession)
    case Some(g) =>
      var passed := s.(signing := Some(g.(round := 2)));
      if g.sessionId != sessionId then Fail(s, OtherSession)
      else if Elapsed(now, g.startTime) > SIGNING_TIMEOUT then Fail(s.(signing := None, phase := Ready), TimedOut)
      else if g.round != 1 then Fail(s, WrongRound)
      else if !Fresh(s.replay, Use(sessionId, 2, g.hash)) then Fail(passed, Replayed)
      else if g.nonces.None? then Fail(passed, NoNonces)
      else if s.share.None? then Fail(passed, NoShare)
      else if !signed then Fail(passed, CryptoFailed)
      else Result(s.(signing := None, phase := Ready, replay := Mark(s.replay, Use(sessionId, 2, g.hash)),
                     log := s.log + [Round2(s.signings, sessionId, g.hash, g.startTime, now)]), Done)
  }

  function SignAbortStep(s: State, sessionId: string): (r: Result) {
    match s.signing
    case None => Fail(s, NoSession)
    case Some(g) =>
      if g.sessionId != sessionId then Fail(s, OtherSession)
      else Result(s.(signing := None, phase := Ready), Done)
  }

  ghost function Step(s: State, op: Op): (r: Result) {
    match op
    case Initialize(loaded) => InitializeStep(s, loaded)
    case DkgStart(ourShare) => DkgStartStep(s, ourShare)
    case DkgStartSession(id, now) => DkgStartSessionStep(s, id, now)
    case DkgPart1(id, now, secret) => DkgPart1Step(s, id, now, secret)
    case DkgPart2(id, now, secret) => DkgPart2Step(s, id, now, secret)
    case DkgPart3(id, now, package) => DkgPart3Step(s, id, now, package)
    case DkgAbort(id) => DkgAbortStep(s, id)
    case RefreshApply(package) => RefreshApplyStep(s, package)
    case SignStart(id, hash, participants, now) => SignStartStep(s, id, hash, participants, now)
    case SignRound1(id, now, nonces) => SignRound1Step(s, id, now, nonces)
    case AddCommitment(id, from, commitment) => AddCommitmentStep(s, id, from, commitment)
    case SignRound2(id, now, signed) => SignRound2Step(s, id, now, signed)
    case SignAbort(id) => SignAbortStep(s, id)
  }

  /** The state after a serialised run from a fresh enclave. */
  ghost function Run(ops: seq<Op>): (r: State) {
    if ops == [] then InitialState else Step(Run(ops[..|ops| - 1]), ops[|ops| - 1]).state
  }

  // ----- What every operation keeps -----

  ghost predicate SessionsConsistent(s: State) {
    && (s.phase == Signing ==> s.signing.Some?)
    && (s.signing.Some? ==> s.share.Some? && s.signing.value.round in {1, 2})
    && (s.dkg.Some? ==> var d := s.dkg.value;
          d.round in {1, 2} && (d.secret2.Some? <==> d.round == 2) && (d.round == 2 ==> d.secret1.Some?))
  }

  /** Round 1 succeeded for this session object, in time. */
  ghost predicate HadRound1(log: seq<Event>, instance: nat, sessionId: string, hash: Blob, start: nat) {
    exists i :: 0 <= i < |log| && IsRound1(log[i], instance, sessionId, hash, start)
  }

  predicate IsRound1(e: Event, instance: nat, sessionId: string, hash: Blob, start: nat) {
    e.Round1? && e.instance == instance && e.sessionId == sessionId && e.hash == hash && e.start == start &&
    Elapsed(e.now, start) <= SIGNING_TIMEOUT
  }

  /** Every round-2 success follows a round-1 success of the same session object, both in time. */
  ghost predicate Round2Justified(log: seq<Event>) {
    forall k :: 0 <= k < |log| && log[k].Round2? ==>
      Elapsed(log[k].now, log[k].start) <= SIGNING_TIMEOUT &&
      HadRound1(log[..k], log[k].instance, log[k].sessionId, log[k].hash, log[k].start)
  }

  ghost predicate NoncesJustified(s: State) {
    s.signing.Some? && s.signing.value.nonces.Some? ==>
      var g := s.signing.value;
      HadRound1(s.log, s.signings, g.sessionId, g.hash, g.startTime)
  }

  predicate IsPart1(e: Event, instance: nat, sessionId: string, start: nat) {
    e.Part1? && e.instance == instance && e.sessionId == sessionId && e.start == start &&
    Elapsed(e.now, start) <= DKG_TIMEOUT
  }

  predicate IsPart2(e: Event, instance: nat, sessionId: string, start: nat) {
    e.Part2? && e.instance == instance && e.sessionId == sessionId && e.start == start &&
    Elapsed(e.now, start) <= DKG_TIMEOUT
  }

  ghost predicate HadPart1(log: seq<Event>, instance: nat, sessionId: string, start: nat) {
    exists i :: 0 <= i < |log| && IsPart1(log[i], instance, sessionId, start)
  }

  /** Part 1 and then part 2 succeeded for this session object. */
  ghost predicate HadPart2(log: seq<Event>, instance: nat, sessionId: string, start: nat) {
    exists j :: 0 <= j < |log| && IsPart2(log[j], instance, sessionId, start) &&
                HadPart1(log[..j], instance, sessionId, start)
  }

  ghost predicate InstallsJustified(log: seq<Event>) {
    forall k :: 0 <= k < |log| && log[k].KeyInstalled? ==>
      Elapsed(log[k].now, log[k].start) <= DKG_TIMEOUT &&
      HadPart2(log[..k], log[k].instance, log[k].sessionId, log[k].start)
  }

  ghost predicate DkgJustified(s: State) {
    s.dkg.Some? ==>
      var d := s.dkg.value;
      (d.secret1.Some? ==> HadPart1(s.log, s.dkgs, d.sessionId, d.startTime)) &&
      (d.round == 2 ==> HadPart2(s.log, s.dkgs, d.sessionId, d.startTime))
  }

  ghost predicate PackageInstalled(s: State) {
    s.keyPackage.Some? ==> exists k :: 0 <= k < |s.log| && s.log[k].KeyInstalled?
  }

  /** The uses marked so far, in order. */
  function Marks(log: seq<Event>): (r: seq<Use>) {
    if log == [] then [] else
      var e := log[|log| - 1];
      var before := Marks(log[..|log| - 1]);
      if e.Round1? then before + [Use(e.sessionId, 1, e.hash)]
      else if e.Round2? then before + [Use(e.sessionId, 2, e.hash)]
      else before
  }

  ghost predicate Distinct(marks: seq<Use>) {
    forall i, j :: 0 <= i < j < |marks| ==> marks[i] != marks[j]
  }

  /** The replay map is what the logged marks make it. */
  ghost predicate ReplayTracks(log: seq<Event>, replay: Cache) {
    replay == MarkAll(Marks(log))
  }

  /** The mark after the one that fills the cache is still checked against an exact cache. */
  ghost predicate MarksDistinct(log: seq<Event>) {
    |Marks(log)| <= CAPACITY + 1 ==> Distinct(Marks(log))
  }

  ghost predicate HistoryGood(log: seq<Event>, replay: Cache) {
    Round2Justified(log) && InstallsJustified(log) && ReplayTracks(log, replay) && MarksDistinct(log)
  }

  ghost predicate Inv(s: State) {
    && SessionsConsistent(s)
    && NoncesJustified(s) && DkgJustified(s) && PackageInstalled(s)
    && HistoryGood(s.log, s.replay)
  }

  // ----- Monotonicity of the log -----

  lemma SnocPrefix(log: seq<Event>, e: Event, k: nat)
    requires k <= |log|
    ensures (log + [e])[..k] == log[..k]
  {
  }

  lemma Round1Grows(log: seq<Event>, e: Event, n: nat, id: string, h: Blob, start: nat)
    ensures HadRound1(log, n, id, h, start) || IsRound1(e, n, id, h, start)
       <==> HadRound1(log + [e], n, id, h, start)
  {
    var more := log + [e];
    if HadRound1(log, n, id, h, start) {
      var i :| 0 <= i < |log| && IsRound1(log[i], n, id, h, start);
      assert more[i] == log[i];
    }
    if IsRound1(e, n, id, h, start) {
      assert more[|log|] == e;
    }
  }

  lemma Part1Grows(log: seq<Event>, e: Event, n: nat, id: string, start: nat)
    ensures HadPart1(log, n, id, start) || IsPart1(e, n, id, start) <==> HadPart1(log + [e], n, id, start)
  {
    var more := log + [e];
    if HadPart1(log, n, id, start) {
      var i :| 0 <= i < |log| && IsPart1(log[i], n, id, start);
      assert more[i] == log[i];
    }
    if IsPart1(e, n, id, start) {
      assert more[|log|] == e;
    }
  }

  lemma Part2Grows(log: seq<Event>, e: Event, n: nat, id: string, start: nat)
    requires HadPart2(log, n, id, start) || (IsPart2(e, n, id, start) && HadPart1(log, n, id, start))
    ensures HadPart2(log + [e], n, id, start)
  {
    var more := log + [e];
    if HadPart2(log, n, id, start) {
      var j :| 0 <= j < |log| && IsPart2(log[j], n, id, start) && HadPart1(log[..j], n, id, start);
      assert more[j] == log[j] && more[..j] == log[..j];
    } else {
      assert more[|log|] == e && more[..|log|] == log;
    }
  }

  lemma Round2JustifiedSnoc(log: seq<Event>, e: Event)
    requires Round2Justified(log)
    requires e.Round2? ==> Elapsed(e.now, e.start) <= SIGNING_TIMEOUT &&
                           HadRound1(log, e.instance, e.sessionId, e.hash, e.start)
    ensures Round2Justified(log + [e])
  {
    hide HadRound1;
    var more := log + [e];
    forall k | 0 <= k < |more| && more[k].Round2?
      ensures Elapsed(more[k].now, more[k].start) <= SIGNING_TIMEOUT
      ensures HadRound1(more[..k], more[k].instance, more[k].sessionId, more[k].hash, more[k].start)
    {
      SnocPrefix(log, e, k);
      if k < |log| {
        assert more[k] == log[k];
      } else {
        assert more[k] == e && log[..k] == log;
      }
    }
  }

  lemma InstallsJustifiedSnoc(log: seq<Event>, e: Event)
    requires InstallsJustified(log)
    requires e.KeyInstalled? ==> Elapsed(e.now, e.start) <= DKG_TIMEOUT &&
                                 HadPart2(log, e.instance, e.sessionId, e.start)
    ensures InstallsJustified(log + [e])
  {
    hide HadPart2;
    var more := log + [e];
    forall k | 0 <= k < |more| && more[k].KeyInstalled?
      ensures Elapsed(more[k].now, more[k].start) <= DKG_TIMEOUT
      ensures HadPart2(more[..k], more[k].instance, more[k].sessionId, more[k].start)
    {
      SnocPrefix(log, e, k);
      if k < |log| {
        assert more[k] == log[k];
      } else {
        assert more[k] == e && log[..k] == log;
      }
    }
  }

  lemma PackageSnoc(log: seq<Event>, e: Event)
    ensures (exists k :: 0 <= k < |log + [e]| && (log + [e])[k].KeyInstalled?)
       <==> (exists k :: 0 <= k < |log| && log[k].KeyInstalled?) || e.KeyInstalled?
  {
    var more := log + [e];
    if k :| 0 <= k < |log| && log[k].KeyInstalled? {
      assert more[k].KeyInstalled?;
    }
    if e.KeyInstalled? {
      assert more[|log|].KeyInstalled?;
    }
  }

  function UseOf(e: Event): (r: Use)
    requires e.Round1? || e.Round2?
  {
    Use(e.sessionId, if e.Round1? then 1 else 2, e.hash)
  }

  lemma MarksSnoc(log: seq<Event>, e: Event)
    ensures Marks(log + [e]) == if e.Round1? || e.Round2? then Marks(log) + [UseOf(e)] else Marks(log)
  {
    assert (log + [e])[..|log|] == log;
  }

  lemma MarkAllSnoc(marks: seq<Use>, u: Use)
    ensures MarkAll(marks + [u]) == Mark(MarkAll(marks), u)
  {
    assert (marks + [u])[..|marks|] == marks;
  }

  lemma DistinctSnoc(marks: seq<Use>, u: Use)
    requires Distinct(marks) && u !in marks
    ensures Distinct(marks + [u])
  {
  }

  lemma {:induction false} UsedAtMost(marks: seq<Use>)
    ensures |Used(marks)| <= |marks|
  {
    if marks == [] {
      assert Used(marks) == {};
    } else {
      var before, u := marks[..|marks| - 1], marks[|marks| - 1];
      assert marks == before + [u];
      UsedAtMost(before);
      UsedSnoc(before, u);
    }
  }

  /** A use that passed the replay check may be appended to the marks. */
  lemma ReplaySnoc(log: seq<Event>, replay: Cache, e: Event)
    requires ReplayTracks(log, replay) && MarksDistinct(log)
    requires e.Round1? || e.Round2?
    requires Fresh(replay, UseOf(e))
    ensures ReplayTracks(log + [e], Mark(replay, UseOf(e)))
    ensures MarksDistinct(log + [e])
  {
    hide Mark, Fresh, MarkAll, Used;
    var marks, u := Marks(log), UseOf(e);
    MarksSnoc(log, e);
    MarkAllSnoc(marks, u);
    if |marks| <= CAPACITY {
      UsedAtMost(marks);
      ExactUntilFull(marks, u);
      DistinctSnoc(marks, u);
    }
  }

  /** Appending a round event that passed its checks keeps the history good. */
  lemma HistoryAfterRound(log: seq<Event>, replay: Cache, e: Event)
    requires HistoryGood(log, replay)
    requires e.Round1? || e.Round2?
    requires Fresh(replay, UseOf(e))
    requires e.Round2? ==> Elapsed(e.now, e.start) <= SIGNING_TIMEOUT &&
                           HadRound1(log, e.instance, e.sessionId, e.hash, e.start)
    ensures HistoryGood(log + [e], Mark(replay, UseOf(e)))
  {
    hide Mark, Fresh, Marks, MarkAll, HadRound1, HadPart2;
    Round2JustifiedSnoc(log, e);
    InstallsJustifiedSnoc(log, e);
    ReplaySnoc(log, replay, e);
  }

  /** Appending a DKG event that passed its checks keeps the history good. */
  lemma HistoryAfterDkg(log: seq<Event>, replay: Cache, e: Event)
    requires HistoryGood(log, replay)
    requires !e.Round1? && !e.Round2?
    requires e.KeyInstalled? ==> Elapsed(e.now, e.start) <= DKG_TIMEOUT &&
                                 HadPart2(log, e.instance, e.sessionId, e.start)
    ensures HistoryGood(log + [e], replay)
  {
    hide Marks, MarkAll, HadRound1, HadPart2;
    Round2JustifiedSnoc(log, e);
    InstallsJustifiedSnoc(log, e);
    MarksSnoc(log, e);
  }
}
