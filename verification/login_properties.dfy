/** What Login promises, proved of its specification `SyncClient.LoginRun`
    (which the method `SyncClient.Login` is proved to compute). */
module LoginProperties {
  import opened FFSync
  import opened Strings
  import opened Sync

  // ------------------------------------------------------------ counting events

  /** The number of events of `t` that satisfy `p`. */
  function CountOf(t: seq<Event>, p: Event -> bool): nat {
    if t == [] then 0 else (if p(t[0]) then 1 else 0) + CountOf(t[1..], p)
  }

  lemma {:induction false} CountOfConcat(a: seq<Event>, b: seq<Event>, p: Event -> bool)
    ensures CountOf(a + b, p) == CountOf(a, p) + CountOf(b, p)
    decreases |a|
  {
    if a == [] {
      assert a + b == b;
    } else {
      assert (a + b)[1..] == a[1..] + b;
      CountOfConcat(a[1..], b, p);
    }
  }

  predicate IsInitialLogin(e: Event) { e.InitialLogin? }
  predicate IsSleep(e: Event) { e.Sleep? }
  predicate IsSave(e: Event) { e.SaveSession? }
  predicate IsOtpCheck(e: Event) { e.VerifyOtp? }
  predicate IsStdinRead(e: Event) { e.ReadLine? }

  /** The position of a stage in the chain that follows the initial login, and -1
      for every other event. */
  function StageRank(e: Event): int {
    match e
    case RegisterDevice(_, _, _) => 0
    case FetchKeys(_) => 1
    case AcquireOAuthToken(_) => 2
    case HawkAuth(_) => 3
    case GetCryptoKeys(_) => 4
    case SaveSession(_, _) => 5
    case _ => -1
  }

  /** The number of stages of the chain, the save included. */
  const ChainLength: nat := 6

  // ------------------------------------------------------------- the retry loop

  /** Attempt `i` was answered with the pending-verification error. */
  predicate PendingAt(sc: SyncClient, email: string, password: string, i: nat) {
    var reply := sc.client.login(i, email, password);
    reply.Fail? && IsPendingVerification(reply.error)
  }

  /** The first attempt from `from` on that is not answered with pending
      verification, or MaxRetries if every remaining one is. */
  function FirstSettled(sc: SyncClient, email: string, password: string, from: nat): (k: nat)
    requires from <= MaxRetries
    ensures from <= k <= MaxRetries
    ensures forall j :: from <= j < k ==> PendingAt(sc, email, password, j)
    ensures k < MaxRetries ==> !PendingAt(sc, email, password, k)
    decreases MaxRetries - from
  {
    if from == MaxRetries then MaxRetries
    else if PendingAt(sc, email, password, from) then FirstSettled(sc, email, password, from + 1)
    else from
  }

  /** `n` rounds of: initial login, e-mail verification prompt, sleep. */
  function PendingRounds(email: string, password: string, n: nat): seq<Event> {
    if n == 0 then []
    else [InitialLogin(email, password), EmailVerificationPrompt(RetryDelaySeconds), Sleep(RetryDelaySeconds)]
         + PendingRounds(email, password, n - 1)
  }

  lemma {:induction false} PendingRoundsCounts(email: string, password: string, n: nat)
    ensures |PendingRounds(email, password, n)| == 3 * n
    ensures CountOf(PendingRounds(email, password, n), IsInitialLogin) == n
    ensures CountOf(PendingRounds(email, password, n), IsSleep) == n
    ensures CountOf(PendingRounds(email, password, n), IsSave) == 0
  {
    if n > 0 {
      var round := [InitialLogin(email, password), EmailVerificationPrompt(RetryDelaySeconds), Sleep(RetryDelaySeconds)];
      PendingRoundsCounts(email, password, n - 1);
      AllCounted(round, IsInitialLogin, 0);
      AllCounted(round, IsSleep, 2);
      NoneCounted(round, IsSave);
      CountOfConcat(round, PendingRounds(email, password, n - 1), IsInitialLogin);
      CountOfConcat(round, PendingRounds(email, password, n - 1), IsSleep);
      CountOfConcat(round, PendingRounds(email, password, n - 1), IsSave);
    }
  }

  /** How the run ends at attempt `k`, the first one not answered with pending
      verification: its error returned as it is, or the rest of the login. */
  function Settle(sc: SyncClient, email: string, password: string, stdinLine: string, k: nat): (Outcome<()>, seq<Event>)
  {
    match sc.client.login(k, email, password)
    case Fail(e) => (Err(e), [InitialLogin(email, password)])
    case Success((session, verification)) =>
      After([InitialLogin(email, password)], sc.Verified(session, verification, stdinLine))
  }

  /** The shape of every Login run: the attempts answered with pending verification
      each cost one round (login, prompt, sleep); the first other answer settles the
      run; if none comes within MaxRetries attempts Login fails with the exhaustion
      error and does nothing more. */
  lemma {:induction false} LoginRetryShape(sc: SyncClient, email: string, password: string, stdinLine: string, from: nat)
    requires from <= MaxRetries
    ensures var k := FirstSettled(sc, email, password, from);
      sc.LoginFrom(email, password, stdinLine, from)
        == After(PendingRounds(email, password, k - from),
                 if k == MaxRetries then (Err(ExhaustedError()), [])
                 else Settle(sc, email, password, stdinLine, k))
    decreases MaxRetries - from
  {
    var k := FirstSettled(sc, email, password, from);
    var tail := if k == MaxRetries then (Err(ExhaustedError()), []) else Settle(sc, email, password, stdinLine, k);
    if from == MaxRetries {
      assert [] + tail.1 == tail.1;
    } else if PendingAt(sc, email, password, from) {
      LoginRetryShape(sc, email, password, stdinLine, from + 1);
      var round := [InitialLogin(email, password), EmailVerificationPrompt(RetryDelaySeconds), Sleep(RetryDelaySeconds)];
      assert [InitialLogin(email, password)] + [EmailVerificationPrompt(RetryDelaySeconds), Sleep(RetryDelaySeconds)] == round;
      assert sc.LoginFrom(email, password, stdinLine, from) == After(round, sc.LoginFrom(email, password, stdinLine, from + 1));
      assert FirstSettled(sc, email, password, from + 1) == k;
      assert PendingRounds(email, password, k - from) == round + PendingRounds(email, password, k - (from + 1));
      AfterAfter(round, PendingRounds(email, password, k - (from + 1)), tail);
    } else {
      assert k == from;
      assert [] + tail.1 == tail.1;
    }
  }

  /** If every one of the MaxRetries attempts is answered with pending verification,
      Login makes exactly ten login calls, sleeps after each of them (the last
      included), returns "failed to verify login after 10 attempts" and never
      saves a session. */
  lemma LoginExhausted(sc: SyncClient, email: string, password: string, stdinLine: string)
    requires forall i :: 0 <= i < MaxRetries ==> PendingAt(sc, email, password, i)
    ensures var (outcome, trace) := sc.LoginRun(email, password, stdinLine);
      && outcome == Err(ExhaustedError())
      && Message(outcome.error) == "failed to verify login after 10 attempts"
      && trace == PendingRounds(email, password, MaxRetries)
      && CountOf(trace, IsInitialLogin) == 10
      && CountOf(trace, IsSleep) == 10
      && CountOf(trace, IsSave) == 0
  {
    LoginRetryShape(sc, email, password, stdinLine, 0);
    var k := FirstSettled(sc, email, password, 0);
    assert k == MaxRetries;
    PendingRoundsCounts(email, password, MaxRetries);
    assert PendingRounds(email, password, MaxRetries) + [] == PendingRounds(email, password, MaxRetries);
    assert Decimal(10) == "10" by {
      assert Decimal(1) == "1";
      assert Decimal(0) == "0";
    }
  }

  /** An initial-login error that is not pending verification is returned at once:
      after the k earlier pending rounds the trace holds that one login call and
      nothing else, so no sleep, no retry and no later stage. */
  lemma LoginHardFailure(sc: SyncClient, email: string, password: string, stdinLine: string, k: nat, e: Error)
    requires k < MaxRetries
    requires forall j :: 0 <= j < k ==> PendingAt(sc, email, password, j)
    requires sc.client.login(k, email, password) == Fail(e) && !IsPendingVerification(e)
    ensures var (outcome, trace) := sc.LoginRun(email, password, stdinLine);
      && outcome == Err(e)
      && trace == PendingRounds(email, password, k) + [InitialLogin(email, password)]
      && CountOf(trace, IsInitialLogin) == k + 1
      && CountOf(trace, IsSleep) == k
      && CountOf(trace, IsSave) == 0
  {
    SettledAt(sc, email, password, 0, k);
    LoginRetryShape(sc, email, password, stdinLine, 0);
    PendingRoundsCounts(email, password, k);
    CountOfConcat(PendingRounds(email, password, k), [InitialLogin(email, password)], IsInitialLogin);
    CountOfConcat(PendingRounds(email, password, k), [InitialLogin(email, password)], IsSleep);
    CountOfConcat(PendingRounds(email, password, k), [InitialLogin(email, password)], IsSave);
  }

  /** After k pending rounds (k below the cap) the initial login is accepted: Login
      has made k + 1 login calls and k sleeps, and continues with the accepted
      session exactly as `Verified` says. */
  lemma LoginAcceptedAfterPending(sc: SyncClient, email: string, password: string, stdinLine: string,
                                  k: nat, session: LoginSession, verification: Verification)
    requires k < MaxRetries
    requires forall j :: 0 <= j < k ==> PendingAt(sc, email, password, j)
    requires sc.client.login(k, email, password) == Success((session, verification))
    ensures var (outcome, trace) := sc.LoginRun(email, password, stdinLine);
      && (outcome, trace)
         == After(PendingRounds(email, password, k) + [InitialLogin(email, password)],
                  sc.Verified(session, verification, stdinLine))
      && CountOf(trace, IsInitialLogin) == k + 1
      && CountOf(trace, IsSleep) == k
  {
    SettledAt(sc, email, password, 0, k);
    LoginRetryShape(sc, email, password, stdinLine, 0);
    var rest := sc.Verified(session, verification, stdinLine);
    AfterAfter(PendingRounds(email, password, k), [InitialLogin(email, password)], rest);
    var before := PendingRounds(email, password, k) + [InitialLogin(email, password)];
    PendingRoundsCounts(email, password, k);
    CountOfConcat(PendingRounds(email, password, k), [InitialLogin(email, password)], IsInitialLogin);
    CountOfConcat(PendingRounds(email, password, k), [InitialLogin(email, password)], IsSleep);
    CountOfConcat(before, rest.1, IsInitialLogin);
    CountOfConcat(before, rest.1, IsSleep);
    VerifiedHasNoRetry(sc, session, verification, stdinLine);
  }

  lemma SettledAt(sc: SyncClient, email: string, password: string, from: nat, k: nat)
    requires from <= k < MaxRetries
    requires forall j :: from <= j < k ==> PendingAt(sc, email, password, j)
    requires !PendingAt(sc, email, password, k)
    ensures FirstSettled(sc, email, password, from) == k
  {
    var m := FirstSettled(sc, email, password, from);
  }

  // ------------------------------------------------- after the initial login

  /** Once the initial login is accepted nothing retries it and nothing sleeps. */
  lemma VerifiedHasNoRetry(sc: SyncClient, session: LoginSession, verification: Verification, stdinLine: string)
    ensures CountOf(sc.Verified(session, verification, stdinLine).1, IsInitialLogin) == 0
    ensures CountOf(sc.Verified(session, verification, stdinLine).1, IsSleep) == 0
  {
    var t := sc.Verified(session, verification, stdinLine).1;
    var asked := if RequiresOtp(verification) then 3 else 0;
    OtpOnlyWhenRequired(sc, session, verification, stdinLine);
    VerifiedFirstFailureAborts(sc, session, verification, stdinLine);
    forall j | 0 <= j < |t| ensures !IsInitialLogin(t[j]) && !IsSleep(t[j]) {
      if j < asked {
        assert t[j] == t[..3][j];
      } else {
        assert StageRank(t[j]) >= 0;
      }
    }
    NoneCounted(t, IsInitialLogin);
    NoneCounted(t, IsSleep);
  }

  lemma {:induction false} NoneCounted(t: seq<Event>, p: Event -> bool)
    requires forall j :: 0 <= j < |t| ==> !p(t[j])
    ensures CountOf(t, p) == 0
    decreases |t|
  {
    if t != [] {
      NoneCounted(t[1..], p);
    }
  }

  lemma {:induction false} AllCounted(t: seq<Event>, p: Event -> bool, at: nat)
    requires at < |t| && p(t[at])
    requires forall j :: 0 <= j < |t| && j != at ==> !p(t[j])
    ensures CountOf(t, p) == 1
    decreases |t|
  {
    if at == 0 {
      NoneCounted(t[1..], p);
    } else {
      AllCounted(t[1..], p, at - 1);
    }
  }

  /** The stage chain runs its stages in their fixed order, each at most once and
      none skipped; it completes (the save included) exactly when it does not
      return an error; every call before the last one succeeded; an error is the
      answer of the last call; the process exits exactly when the save failed. */
  lemma StagesInOrder(sc: SyncClient, session: LoginSession)
    ensures var (outcome, t) := sc.Stages(session);
      && 1 <= |t| <= ChainLength
      && (forall j :: 0 <= j < |t| ==> StageRank(t[j]) == j)
      && (forall j :: 0 <= j < |t| - 1 ==> sc.CallError(t[j]).None?)
      && (outcome.Err? <==> |t| < ChainLength)
      && (outcome.Err? ==> sc.CallError(t[|t| - 1]) == Some(outcome.error))
      && (outcome.Exit? ==> outcome.status == 1 && sc.CallError(t[|t| - 1]).Some?)
      && (outcome.Ok? ==> sc.CallError(t[|t| - 1]).None?)
      && (!outcome.Err? ==> t[|t| - 1].SaveSession? && t[|t| - 1].path == sc.sessionFilePath)
  {
  }

  /** What each stage of the chain is called with: the device is registered as
      "sync-client" of type "cli" with the accepted session; the keys are fetched
      for that session; the OAuth token is asked for with the session extended by
      the fetched keys; Hawk credentials with the OAuth session the token built;
      the crypto keys with the Hawk session; and what is saved, to the session
      file, is the reduced crypto session. */
  lemma StagesDataFlow(sc: SyncClient, session: LoginSession)
    ensures var t := sc.Stages(session).1;
      && |t| >= 1
      && t[0] == RegisterDevice(session, "sync-client", "cli")
      && (|t| > 1 ==> t[1] == FetchKeys(session))
      && (|t| > 2 ==> sc.client.fetchKeys(session).Success?
                      && t[2] == AcquireOAuthToken(KeyedSession(session, sc.client.fetchKeys(session).value.0,
                                                                         sc.client.fetchKeys(session).value.1)))
      && (|t| > 3 ==> t[2].AcquireOAuthToken? && sc.client.acquireOAuthToken(t[2].keyed).Success?
                      && t[3] == HawkAuth(OAuthSession(t[2].keyed, sc.client.acquireOAuthToken(t[2].keyed).value)))
      && (|t| > 4 ==> t[3].HawkAuth? && sc.client.hawkAuth(t[3].oauth).Success?
                      && t[4] == GetCryptoKeys(HawkSession(t[3].oauth, sc.client.hawkAuth(t[3].oauth).value)))
      && (|t| > 5 ==> t[4].GetCryptoKeys? && sc.client.getCryptoKeys(t[4].hawk).Success?
                      && t[5] == SaveSession(sc.client.reduce(CryptoSession(t[4].hawk, sc.client.getCryptoKeys(t[4].hawk).value)),
                                             sc.sessionFilePath))
  {
  }

  /** The one-time password is read and checked exactly when the server asks for
      TOTP or e-mail 2FA, then exactly once, with the trimmed input line and the
      accepted session; a rejected code ends the run with that error. Whatever
      follows is the stage chain. */
  lemma OtpOnlyWhenRequired(sc: SyncClient, session: LoginSession, verification: Verification, stdinLine: string)
    ensures var (outcome, t) := sc.Verified(session, verification, stdinLine);
      var asked := if RequiresOtp(verification) then 3 else 0;
      && |t| >= asked
      && CountOf(t, IsOtpCheck) == (if RequiresOtp(verification) then 1 else 0)
      && CountOf(t, IsStdinRead) == (if RequiresOtp(verification) then 1 else 0)
      && (RequiresOtp(verification) ==>
            t[..3] == [OtpPrompt, ReadLine, VerifyOtp(session, TrimSpace(stdinLine))])
      && (RequiresOtp(verification) && sc.client.verifyWithOtp(session, TrimSpace(stdinLine)).Some? ==>
            outcome == Err(sc.client.verifyWithOtp(session, TrimSpace(stdinLine)).value) && |t| == 3)
      && (|t| > asked ==> (outcome, t[asked..]) == sc.Stages(session))
  {
    var (outcome, t) := sc.Verified(session, verification, stdinLine);
    var stages := sc.Stages(session).1;
    StagesInOrder(sc, session);
    forall j | 0 <= j < |stages| ensures !IsOtpCheck(stages[j]) && !IsStdinRead(stages[j]) {
      assert StageRank(stages[j]) == j;
    }
    NoneCounted(stages, IsOtpCheck);
    NoneCounted(stages, IsStdinRead);
    if RequiresOtp(verification) {
      var asked := [OtpPrompt, ReadLine, VerifyOtp(session, TrimSpace(stdinLine))];
      AllCounted(asked, IsOtpCheck, 2);
      AllCounted(asked, IsStdinRead, 1);
      if sc.client.verifyWithOtp(session, TrimSpace(stdinLine)).None? {
        CountOfConcat(asked, stages, IsOtpCheck);
        CountOfConcat(asked, stages, IsStdinRead);
        assert t == asked + stages;
        assert t[3..] == stages;
      }
    } else {
      assert t[0..] == t;
    }
  }

  /** The chain after an accepted initial login, as a whole: its stages keep their
      order after the optional password check; every call but the last succeeded;
      an error is the last call's answer; it saves once, as its last step, unless
      it returns an error, and then it never saves. */
  lemma VerifiedFirstFailureAborts(sc: SyncClient, session: LoginSession, verification: Verification, stdinLine: string)
    ensures var (outcome, t) := sc.Verified(session, verification, stdinLine);
      var asked := if RequiresOtp(verification) then 3 else 0;
      && |t| >= 1
      && (forall j :: 0 <= j < |t| - 1 ==> sc.CallError(t[j]).None?)
      && (forall j :: asked <= j < |t| ==> StageRank(t[j]) == j - asked)
      && (outcome.Err? ==> sc.CallError(t[|t| - 1]) == Some(outcome.error))
      && (outcome.Ok? <==> forall j :: 0 <= j < |t| ==> sc.CallError(t[j]).None?)
      && (!outcome.Ok? ==> sc.CallError(t[|t| - 1]).Some?)
      && CountOf(t, IsSave) == (if outcome.Err? then 0 else 1)
      && (!outcome.Err? ==> t[|t| - 1].SaveSession? && t[|t| - 1].path == sc.sessionFilePath)
  {
    if RequiresOtp(verification) && sc.client.verifyWithOtp(session, TrimSpace(stdinLine)).Some? {
      OtpRejectedAborts(sc, session, verification, stdinLine);
    } else if RequiresOtp(verification) {
      CheckedChainAborts(sc, session, verification, stdinLine);
    } else {
      UncheckedChainAborts(sc, session, verification, stdinLine);
    }
  }

  /** VerifiedFirstFailureAborts when the one-time password is rejected. */
  lemma OtpRejectedAborts(sc: SyncClient, session: LoginSession, verification: Verification, stdinLine: string)
    requires RequiresOtp(verification) && sc.client.verifyWithOtp(session, TrimSpace(stdinLine)).Some?
    ensures var (outcome, t) := sc.Verified(session, verification, stdinLine);
      var asked := if RequiresOtp(verification) then 3 else 0;
      && |t| >= 1
      && (forall j :: 0 <= j < |t| - 1 ==> sc.CallError(t[j]).None?)
      && (forall j :: asked <= j < |t| ==> StageRank(t[j]) == j - asked)
      && (outcome.Err? ==> sc.CallError(t[|t| - 1]) == Some(outcome.error))
      && (outcome.Ok? <==> forall j :: 0 <= j < |t| ==> sc.CallError(t[j]).None?)
      && (!outcome.Ok? ==> sc.CallError(t[|t| - 1]).Some?)
      && CountOf(t, IsSave) == (if outcome.Err? then 0 else 1)
      && (!outcome.Err? ==> t[|t| - 1].SaveSession? && t[|t| - 1].path == sc.sessionFilePath)
  {
    var otp := TrimSpace(stdinLine);
    var asked := [OtpPrompt, ReadLine, VerifyOtp(session, otp)];
    assert sc.Verified(session, verification, stdinLine) == (Err(sc.client.verifyWithOtp(session, otp).value), asked);
    NoneCounted(asked, IsSave);
  }

  /** VerifiedFirstFailureAborts when no one-time password is asked for. */
  lemma UncheckedChainAborts(sc: SyncClient, session: LoginSession, verification: Verification, stdinLine: string)
    requires !RequiresOtp(verification)
    ensures var (outcome, t) := sc.Verified(session, verification, stdinLine);
      var asked := if RequiresOtp(verification) then 3 else 0;
      && |t| >= 1
      && (forall j :: 0 <= j < |t| - 1 ==> sc.CallError(t[j]).None?)
      && (forall j :: asked <= j < |t| ==> StageRank(t[j]) == j - asked)
      && (outcome.Err? ==> sc.CallError(t[|t| - 1]) == Some(outcome.error))
      && (outcome.Ok? <==> forall j :: 0 <= j < |t| ==> sc.CallError(t[j]).None?)
      && (!outcome.Ok? ==> sc.CallError(t[|t| - 1]).Some?)
      && CountOf(t, IsSave) == (if outcome.Err? then 0 else 1)
      && (!outcome.Err? ==> t[|t| - 1].SaveSession? && t[|t| - 1].path == sc.sessionFilePath)
  {
    var (so, stages) := sc.Stages(session);
    StagesInOrder(sc, session);
    assert [] + stages == stages;
    assert sc.Verified(session, verification, stdinLine) == (so, [] + stages);
    PrefixedChain(sc, [], so, stages);
  }

  /** VerifiedFirstFailureAborts when the one-time password is accepted. */
  lemma CheckedChainAborts(sc: SyncClient, session: LoginSession, verification: Verification, stdinLine: string)
    requires RequiresOtp(verification) && sc.client.verifyWithOtp(session, TrimSpace(stdinLine)).None?
    ensures var (outcome, t) := sc.Verified(session, verification, stdinLine);
      var asked := if RequiresOtp(verification) then 3 else 0;
      && |t| >= 1
      && (forall j :: 0 <= j < |t| - 1 ==> sc.CallError(t[j]).None?)
      && (forall j :: asked <= j < |t| ==> StageRank(t[j]) == j - asked)
      && (outcome.Err? ==> sc.CallError(t[|t| - 1]) == Some(outcome.error))
      && (outcome.Ok? <==> forall j :: 0 <= j < |t| ==> sc.CallError(t[j]).None?)
      && (!outcome.Ok? ==> sc.CallError(t[|t| - 1]).Some?)
      && CountOf(t, IsSave) == (if outcome.Err? then 0 else 1)
      && (!outcome.Err? ==> t[|t| - 1].SaveSession? && t[|t| - 1].path == sc.sessionFilePath)
  {
    var (so, stages) := sc.Stages(session);
    StagesInOrder(sc, session);
    var asked := [OtpPrompt, ReadLine, VerifyOtp(session, TrimSpace(stdinLine))];
    assert sc.Verified(session, verification, stdinLine) == (so, asked + stages);
    PrefixedChain(sc, asked, so, stages);
  }

  /** The facts of StagesInOrder survive a prefix of events that neither fail nor
      belong to the chain. */
  lemma PrefixedChain(sc: SyncClient, pre: seq<Event>, outcome: Outcome<()>, stages: seq<Event>)
    requires forall j :: 0 <= j < |pre| ==> sc.CallError(pre[j]).None? && StageRank(pre[j]) == -1
    requires 1 <= |stages| <= ChainLength
    requires forall j :: 0 <= j < |stages| ==> StageRank(stages[j]) == j
    requires forall j :: 0 <= j < |stages| - 1 ==> sc.CallError(stages[j]).None?
    requires outcome.Err? <==> |stages| < ChainLength
    requires outcome.Err? ==> sc.CallError(stages[|stages| - 1]) == Some(outcome.error)
    requires outcome.Ok? ==> sc.CallError(stages[|stages| - 1]).None?
    requires outcome.Exit? ==> sc.CallError(stages[|stages| - 1]).Some?
    requires !outcome.Err? ==> stages[|stages| - 1].SaveSession? && stages[|stages| - 1].path == sc.sessionFilePath
    ensures var t := pre + stages;
      && (forall j :: 0 <= j < |t| - 1 ==> sc.CallError(t[j]).None?)
      && (forall j :: |pre| <= j < |t| ==> StageRank(t[j]) == j - |pre|)
      && (outcome.Err? ==> sc.CallError(t[|t| - 1]) == Some(outcome.error))
      && (outcome.Ok? <==> forall j :: 0 <= j < |t| ==> sc.CallError(t[j]).None?)
      && (!outcome.Ok? ==> sc.CallError(t[|t| - 1]).Some?)
      && CountOf(t, IsSave) == (if outcome.Err? then 0 else 1)
      && (!outcome.Err? ==> t[|t| - 1].SaveSession? && t[|t| - 1].path == sc.sessionFilePath)
  {
    var t := pre + stages;
    forall j | 0 <= j < |t| ensures (j < |pre| ==> t[j] == pre[j]) && (j >= |pre| ==> t[j] == stages[j - |pre|]) {
    }
    forall j | 0 <= j < |t| && j != |t| - 1 ensures !IsSave(t[j]) {
      if j >= |pre| { assert StageRank(t[j]) == j - |pre| < ChainLength - 1; }
      else { assert StageRank(t[j]) == -1; }
    }
    if outcome.Err? {
      assert StageRank(t[|t| - 1]) < ChainLength - 1;
      NoneCounted(t, IsSave);
    } else {
      AllCounted(t, IsSave, |t| - 1);
    }
  }

  // -------------------------------------------------------- the whole login

  /** Over a whole Login run: it calls the initial login at most MaxRetries times;
      it sleeps once per pending-verification answer and at no other point; it saves
      exactly once unless it returns an error, and a run that returns normally ends
      with that save; a run that exits does so with status 1 right after a failed
      save; an error it returns is the exhaustion error, a non-pending initial
      login error, or the answer of the last library call. */
  lemma LoginSavesOnlyOnSuccess(sc: SyncClient, email: string, password: string, stdinLine: string)
    ensures var (outcome, trace) := sc.LoginRun(email, password, stdinLine);
      && 1 <= CountOf(trace, IsInitialLogin) <= MaxRetries
      && CountOf(trace, IsSleep) == FirstSettled(sc, email, password, 0)
      && CountOf(trace, IsSave) == (if outcome.Err? then 0 else 1)
      && (outcome.Ok? ==> trace[|trace| - 1].SaveSession? && trace[|trace| - 1].path == sc.sessionFilePath
                          && sc.CallError(trace[|trace| - 1]).None?)
      && (outcome.Exit? ==> outcome.status == 1 && trace[|trace| - 1].SaveSession?
                            && sc.CallError(trace[|trace| - 1]).Some?)
      && (outcome.Err? ==>
            || outcome.error == ExhaustedError()
            || (trace[|trace| - 1].InitialLogin? && !IsPendingVerification(outcome.error))
            || sc.CallError(trace[|trace| - 1]) == Some(outcome.error))
  {
    var k := FirstSettled(sc, email, password, 0);
    if k == MaxRetries {
      LoginExhausted(sc, email, password, stdinLine);
    } else {
      match sc.client.login(k, email, password)
      case Fail(e) =>
        LoginHardFailure(sc, email, password, stdinLine, k, e);
      case Success((session, verification)) =>
        AcceptedLoginSaves(sc, email, password, stdinLine, k, session, verification);
    }
  }

  /** LoginSavesOnlyOnSuccess for a run whose attempt k is accepted. */
  lemma AcceptedLoginSaves(sc: SyncClient, email: string, password: string, stdinLine: string,
                           k: nat, session: LoginSession, verification: Verification)
    requires k < MaxRetries
    requires forall j :: 0 <= j < k ==> PendingAt(sc, email, password, j)
    requires sc.client.login(k, email, password) == Success((session, verification))
    ensures var (outcome, trace) := sc.LoginRun(email, password, stdinLine);
      && CountOf(trace, IsInitialLogin) == k + 1
      && CountOf(trace, IsSleep) == k
      && CountOf(trace, IsSave) == (if outcome.Err? then 0 else 1)
      && (outcome.Ok? ==> trace[|trace| - 1].SaveSession? && trace[|trace| - 1].path == sc.sessionFilePath
                          && sc.CallError(trace[|trace| - 1]).None?)
      && (outcome.Exit? ==> outcome.status == 1 && trace[|trace| - 1].SaveSession?
                            && sc.CallError(trace[|trace| - 1]).Some?)
      && (outcome.Err? ==> sc.CallError(trace[|trace| - 1]) == Some(outcome.error))
  {
    var rounds := PendingRounds(email, password, k);
    LoginAcceptedAfterPending(sc, email, password, stdinLine, k, session, verification);
    var rest := sc.Verified(session, verification, stdinLine);
    VerifiedFirstFailureAborts(sc, session, verification, stdinLine);
    PendingRoundsCounts(email, password, k);
    NoneCounted([InitialLogin(email, password)], IsSave);
    CountOfConcat(rounds, [InitialLogin(email, password)], IsSave);
    AcceptedRunSaves(sc, rounds + [InitialLogin(email, password)], rest.0, rest.1);
  }

  /** The save facts of an accepted login carry over to the whole run. */
  lemma AcceptedRunSaves(sc: SyncClient, before: seq<Event>, outcome: Outcome<()>, rest: seq<Event>)
    requires |rest| >= 1
    requires CountOf(before, IsSave) == 0
    requires CountOf(rest, IsSave) == (if outcome.Err? then 0 else 1)
    requires outcome.Err? ==> sc.CallError(rest[|rest| - 1]) == Some(outcome.error)
    requires outcome.Ok? <==> forall j :: 0 <= j < |rest| ==> sc.CallError(rest[j]).None?
    requires !outcome.Err? ==> rest[|rest| - 1].SaveSession? && rest[|rest| - 1].path == sc.sessionFilePath
    requires outcome.Exit? ==> outcome.status == 1 && sc.CallError(rest[|rest| - 1]).Some?
    ensures var trace := before + rest;
      && CountOf(trace, IsSave) == (if outcome.Err? then 0 else 1)
      && trace[|trace| - 1] == rest[|rest| - 1]
      && (outcome.Ok? ==> trace[|trace| - 1].SaveSession? && trace[|trace| - 1].path == sc.sessionFilePath
                          && sc.CallError(trace[|trace| - 1]).None?)
      && (outcome.Exit? ==> outcome.status == 1 && trace[|trace| - 1].SaveSession?
                            && sc.CallError(trace[|trace| - 1]).Some?)
      && (outcome.Err? ==> sc.CallError(trace[|trace| - 1]) == Some(outcome.error))
  {
    CountOfConcat(before, rest, IsSave);
  }
}
