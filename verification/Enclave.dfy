/** The enclave object: lock-guarded fields updated step by step, each operation refining the atomic
    step of the same name (cmd/mpc-enclave/src/ipc.rs). */
module EnclaveObject {
  import opened Bytes
  import opened ReplayCache
  import opened EnclaveModel
  import opened EnclaveRuns

  lemma SmallestByLeast(s: set<string>, n: nat, m: string)
    requires IsLeast(s, m) && n > 0
    ensures Smallest(s, n) == {m} + Smallest(s - {m}, n - 1)
  {
    var k :| IsLeast(s, k) && Smallest(s, n) == {k} + Smallest(s - {k}, n - 1);
    LeastUnique(s, k, m);
  }

  /** The first key of an ordered map. */
  method LeastKey(s: set<string>) returns (m: string)
    requires s != {}
    ensures IsLeast(s, m)
  {
    hide Less, IsLeast;
    m :| m in s;
    var todo := s - {m};
    assert s - todo == {m};
    OnlyKey(m);
    while todo != {}
      invariant todo <= s && IsLeast(s - todo, m)
      decreases |todo|
    {
      var k :| k in todo;
      LeastGrows(s - todo, m, k);
      assert s - (todo - {k}) == s - todo + {k};
      todo := todo - {k};
      if Less(k, m) {
        m := k;
      }
    }
    assert s - todo == s;
  }

  lemma OnlyKey(m: string)
    ensures IsLeast({m}, m)
  {
  }

  lemma LeastGrows(seen: set<string>, m: string, k: string)
    requires IsLeast(seen, m) && k !in seen
    ensures IsLeast(seen + {k}, if Less(k, m) then k else m)
  {
    hide Less;
    LessTotal(k, m);
    if Less(k, m) {
      forall j | j in seen && j != m ensures Less(k, j) {
        LessTransitive(k, m, j);
      }
    }
  }

  /** The first `n` keys in order. */
  method FirstKeys(s: set<string>, n: nat) returns (keys: set<string>)
    ensures keys == Smallest(s, n)
  {
    hide Smallest, IsLeast;
    keys := {};
    var rest, i := s, 0;
    while i < n && rest != {}
      invariant i <= n
      invariant Smallest(s, n) == keys + Smallest(rest, n - i)
    {
      var m := LeastKey(rest);
      SmallestByLeast(rest, n - i, m);
      keys := keys + {m};
      rest := rest - {m};
      i := i + 1;
    }
    NoMoreKeys(rest, n - i);
  }

  lemma NoMoreKeys(s: set<string>, n: nat)
    requires n == 0 || s == {}
    ensures Smallest(s, n) == {}
  {
  }

  method RemoveKeys(cache: Cache, keys: set<string>) returns (r: Cache)
    ensures r == cache - keys
  {
    r := cache;
    var todo := keys;
    while todo != {}
      invariant todo <= keys && r == cache - (keys - todo)
      decreases |todo|
    {
      var k :| k in todo;
      RemoveNext(cache, keys - todo, k);
      r := r - {k};
      assert keys - (todo - {k}) == (keys - todo) + {k};
      todo := todo - {k};
    }
    assert keys - todo == keys;
  }

  lemma RemoveNext(cache: Cache, gone: set<string>, k: string)
    ensures (cache - gone) - {k} == cache - (gone + {k})
  {
  }

  class Enclave {
    var phase: Phase
    var hasIdentity: bool
    var share: Option<Blob>
    var keyPackage: Option<Blob>
    var signing: Option<SigningSession>
    var dkg: Option<DkgSession>
    var replay: Cache
    ghost var signings: nat
    ghost var dkgs: nat
    ghost var log: seq<Event>

    ghost function View(): (r: State)
      reads this
    {
      State(phase, hasIdentity, share, keyPackage, signing, dkg, replay, signings, dkgs, log)
    }

    constructor ()
      ensures View() == InitialState
    {
      phase, hasIdentity := Uninitialized, false;
      share, keyPackage := None, None;
      signing, dkg := None, None;
      replay := map[];
      signings, dkgs, log := 0, 0, [];
    }

    method CheckReplay(sessionId: string, round: Byte, hash: Blob) returns (unused: bool)
      ensures unused == Fresh(replay, Use(sessionId, round, hash))
    {
      var key := Key(Use(sessionId, round, hash));
      unused := key !in replay;
    }

    method MarkReplayUsed(sessionId: string, round: Byte, hash: Blob)
      modifies this`replay
      ensures replay == Mark(old(replay), Use(sessionId, round, hash))
    {
      hide Key, Smallest;
      var key := Key(Use(sessionId, round, hash));
      replay := replay[key := hash];
      if |replay| > CAPACITY {
        var keys := FirstKeys(replay.Keys, EVICTED);
        replay := RemoveKeys(replay, keys);
      }
    }

    method Initialize(loaded: Option<Blob>) returns (r: Outcome)
      modifies this
      ensures InitializeStep(old(View()), loaded) == Result(View(), r)
    {
      if !hasIdentity {
        hasIdentity := true;
        if loaded.Some? {
          share := loaded;
        }
      }
      phase := Ready;
      r := Done;
    }

    method DkgStart(ourShare: Option<Blob>) returns (r: Outcome)
      modifies this
      ensures DkgStartStep(old(View()), ourShare) == Result(View(), r)
    {
      if phase != Ready {
        return Failed(NotReady);
      }
      phase := KeyGeneration;
      if ourShare.None? {
        return Failed(CryptoFailed);
      }
      share := ourShare;
      phase := Ready;
      r := Done;
    }

    method DkgStartSession(sessionId: string, now: nat) returns (r: Outcome)
      modifies this
      ensures DkgStartSessionStep(old(View()), sessionId, now) == Result(View(), r)
    {
      dkg := None;
      if phase != Ready {
        return Failed(NotReady);
      }
      dkg := Some(NewDkg(sessionId, now));
      dkgs := dkgs + 1;
      phase := KeyGeneration;
      r := Done;
    }

    method DkgPart1(sessionId: string, now: nat, secret: Option<Blob>) returns (r: Outcome)
      modifies this
      ensures DkgPart1Step(old(View()), sessionId, now, secret) == Result(View(), r)
    {
      match dkg {
        case Some(d) =>
          if d.sessionId != sessionId {
            return Failed(OtherSession);
          }
          if Elapsed(now, d.startTime) > DKG_TIMEOUT {
            dkg := None;
            return Failed(TimedOut);
          }
          if d.round != 1 {
            return Failed(WrongRound);
          }
        case None =>
          dkg := Some(NewDkg(sessionId, now));
          dkgs := dkgs + 1;
      }
      phase := KeyGeneration;
      if secret.None? {
        return Failed(CryptoFailed);
      }
      dkg := Some(dkg.value.(secret1 := secret));
      log := log + [Part1(dkgs, dkg.value.sessionId, dkg.value.startTime, now)];
      r := Done;
    }

    method DkgPart2(sessionId: string, now: nat, secret: Option<Blob>) returns (r: Outcome)
      modifies this
      ensures DkgPart2Step(old(View()), sessionId, now, secret) == Result(View(), r)
    {
      if dkg.None? {
        return Failed(NoSession);
      }
      var d := dkg.value;
      if d.sessionId != sessionId {
        return Failed(OtherSession);
      }
      if Elapsed(now, d.startTime) > DKG_TIMEOUT {
        dkg := None;
        return Failed(TimedOut);
      }
      if d.round != 1 {
        return Failed(WrongRound);
      }
      if d.secret1.None? {
        return Failed(NoSecret);
      }
      if secret.None? {
        return Failed(CryptoFailed);
      }
      dkg := Some(d.(round := 2, secret2 := secret));
      log := log + [Part2(dkgs, d.sessionId, d.startTime, now)];
      r := Done;
    }

    method DkgPart3(sessionId: string, now: nat, package: Option<Blob>) returns (r: Outcome)
      modifies this
      ensures DkgPart3Step(old(View()), sessionId, now, package) == Result(View(), r)
    {
      if dkg.None? {
        return Failed(NoSession);
      }
      var d := dkg.value;
      if d.sessionId != sessionId {
        return Failed(OtherSession);
      }
      if Elapsed(now, d.startTime) > DKG_TIMEOUT {
        dkg := None;
        return Failed(TimedOut);
      }
      if d.round != 2 {
        return Failed(WrongRound);
      }
      if d.secret2.None? {
        return Failed(NoSecret);
      }
      if package.None? {
        return Failed(CryptoFailed);
      }
      keyPackage := package;
      share := package;
      phase := Ready;
      log := log + [KeyInstalled(dkgs, d.sessionId, d.startTime, now)];
      dkg := None;
      r := Done;
    }

    method DkgAbort(sessionId: string) returns (r: Outcome)
      modifies this
      ensures DkgAbortStep(old(View()), sessionId) == Result(View(), r)
    {
      if dkg.None? {
        return Failed(NoSession);
      }
      if dkg.value.sessionId != sessionId {
        return Failed(OtherSession);
      }
      dkg := None;
      phase := Ready;
      r := Done;
    }

    method RefreshApply(package: Option<Blob>) returns (r: Outcome)
      modifies this
      ensures RefreshApplyStep(old(View()), package) == Result(View(), r)
    {
      if share.None? {
        return Failed(NoShare);
      }
      if package.None? {
        return Failed(CryptoFailed);
      }
      share := package;
      r := Done;
    }

    method SignStartSession(sessionId: string, hash: Blob, participants: seq<NodeId>, now: nat) returns (r: Outcome)
      modifies this
      ensures SignStartStep(old(View()), sessionId, hash, participants, now) == Result(View(), r)
    {
      signing := None;
      if share.None? {
        return Failed(NoShare);
      }
      signing := Some(SigningSession(sessionId, hash, participants, now, None, map[], 1));
      signings := signings + 1;
      phase := Signing;
      r := Done;
    }

    method SignRound1(sessionId: string, now: nat, nonces: Option<Blob>) returns (r: Outcome)
      modifies this
      ensures SignRound1Step(old(View()), sessionId, now, nonces) == Result(View(), r)
    {
      hide Mark, Fresh;
      if signing.None? {
        return Failed(NoSession);
      }
      if signing.value.sessionId != sessionId {
        return Failed(OtherSession);
      }
      if Elapsed(now, signing.value.startTime) > SIGNING_TIMEOUT {
        signing := None;
        phase := Ready;
        return Failed(TimedOut);
      }
      if signing.value.round != 1 {
        return Failed(WrongRound);
      }
      var hash := signing.value.hash;
      var unused := CheckReplay(sessionId, 1, hash);
      if !unused {
        return Failed(Replayed);
      }
      if share.None? {
        return Failed(NoShare);
      }
      if nonces.None? {
        return Failed(CryptoFailed);
      }
      MarkReplayUsed(sessionId, 1, hash);
      log := log + [Round1(signings, sessionId, hash, signing.value.startTime, now)];
      signing := Some(signing.value.(nonces := nonces));
      r := Done;
    }

    method AddCommitment(sessionId: string, from: NodeId, commitment: Blob) returns (r: Outcome)
      modifies this
      ensures AddCommitmentStep(old(View()), sessionId, from, commitment) == Result(View(), r)
    {
      if signing.None? {
        return Failed(NoSession);
      }
      if signing.value.sessionId != sessionId {
        return Failed(OtherSession);
      }
      signing := Some(signing.value.(commitments := signing.value.commitments[from := commitment]));
      r := Done;
    }

    method SignRound2(sessionId: string, now: nat, signed: bool) returns (r: Outcome)
      modifies this
      ensures SignRound2Step(old(View()), sessionId, now, signed) == Result(View(), r)
    {
      hide Mark, Fresh;
      if signing.None? {
        return Failed(NoSession);
      }
      if signing.value.sessionId != sessionId {
        return Failed(OtherSession);
      }
      if Elapsed(now, signing.value.startTime) > SIGNING_TIMEOUT {
        signing := None;
        phase := Ready;
        return Failed(TimedOut);
      }
      if signing.value.round != 1 {
        return Failed(WrongRound);
      }
      var nonces, hash := signing.value.nonces, signing.value.hash;
      signing := Some(signing.value.(round := 2));
      var unused := CheckReplay(sessionId, 2, hash);
      if !unused {
        return Failed(Replayed);
      }
      if nonces.None? {
        return Failed(NoNonces);
      }
      if share.None? {
        return Failed(NoShare);
      }
      if !signed {
        return Failed(CryptoFailed);
      }
      MarkReplayUsed(sessionId, 2, hash);
      log := log + [Round2(signings, sessionId, hash, signing.value.startTime, now)];
      phase := Ready;
      signing := None;
      r := Done;
    }

    method SignAbort(sessionId: string) returns (r: Outcome)
      modifies this
      ensures SignAbortStep(old(View()), sessionId) == Result(View(), r)
    {
      if signing.None? {
        return Failed(NoSession);
      }
      if signing.value.sessionId != sessionId {
        return Failed(OtherSession);
      }
      signing := None;
      phase := Ready;
      r := Done;
    }

    // ----- Whole runs on the object -----

    /** Dispatches a request to the method that serves it. */
    method Serve(op: Op) returns (r: Outcome)
      modifies this
      ensures Step(old(View()), op) == Result(View(), r)
    {
      hide InitializeStep, DkgStartStep, DkgStartSessionStep, DkgPart1Step, DkgPart2Step, DkgPart3Step, DkgAbortStep;
      hide RefreshApplyStep, SignStartStep, SignRound1Step, AddCommitmentStep, SignRound2Step, SignAbortStep;
      match op {
        case Initialize(loaded) => r := Initialize(loaded);
        case DkgStart(ourShare) => r := DkgStart(ourShare);
        case DkgStartSession(id, now) => r := DkgStartSession(id, now);
        case DkgPart1(id, now, secret) => r := DkgPart1(id, now, secret);
        case DkgPart2(id, now, secret) => r := DkgPart2(id, now, secret);
        case DkgPart3(id, now, package) => r := DkgPart3(id, now, package);
        case DkgAbort(id) => r := DkgAbort(id);
        case RefreshApply(package) => r := RefreshApply(package);
        case SignStart(id, hash, participants, now) => r := SignStartSession(id, hash, participants, now);
        case SignRound1(id, now, nonces) => r := SignRound1(id, now, nonces);
        case AddCommitment(id, from, commitment) => r := AddCommitment(id, from, commitment);
        case SignRound2(id, now, signed) => r := SignRound2(id, now, signed);
        case SignAbort(id) => r := SignAbort(id);
      }
    }

    /** Serves any requests in order, after any requests already served. The object follows the run of
        atomic operations, so what holds of every run holds of it. */
    method ServeAll(ghost before: seq<Op>, ops: seq<Op>) returns (outcomes: seq<Outcome>)
      requires View() == Run(before)
      modifies this
      ensures View() == Run(before + ops)
      ensures |outcomes| == |ops|
      ensures forall i :: 0 <= i < |ops| ==> outcomes[i] == Step(Run(before + ops[..i]), ops[i]).outcome
      ensures Inv(View())
      ensures |Marks(log)| <= 1001 ==> RoundsOnce(log)
      ensures old(share).Some? ==> share.Some?
    {
      hide Run, Step, Inv, Marks, RoundsOnce;
      outcomes := [];
      assert before + ops[..0] == before;
      for i := 0 to |ops|
        invariant View() == Run(before + ops[..i])
        invariant |outcomes| == i
        invariant forall k :: 0 <= k < i ==> outcomes[k] == Step(Run(before + ops[..k]), ops[k]).outcome
      {
        var r := Serve(ops[i]);
        outcomes := outcomes + [r];
        RunSnoc(before + ops[..i], ops[i]);
        assert before + ops[..i + 1] == before + ops[..i] + [ops[i]];
      }
      assert before + ops[..|ops|] == before + ops;
      RunKeepsInv(before + ops);
      if |Marks(log)| <= CAPACITY + 1 {
        RoundsAtMostOnce(before + ops);
      }
      if old(share).Some? {
        assert (before + ops)[..|before|] == before;
        ShareNeverCleared(before + ops, |before|);
      }
    }
  }

  lemma RunSnoc(ops: seq<Op>, op: Op)
    ensures Run(ops + [op]) == Step(Run(ops), op).state
  {
    hide Step;
    assert (ops + [op])[..|ops|] == ops;
  }
}
