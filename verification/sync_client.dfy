/** Package `sync` (sync/client.go): the start-up login state machine, the
    per-request bookmark fetch, and the folder filter.

    The library calls are oracles (module FFSync). Each run returns its outcome
    together with the trace of what it did: every library call with its arguments,
    every prompt, terminal read, sleep and session write. A method is proved equal
    to a specification function (`LoginRun`, `GetBookmarksRun`, `Filter`). The
    properties of those functions are proved in LoginProperties,
    BookmarksProperties and FilterProperties. */
module Sync {
  import opened FFSync
  import opened Models
  import opened Strings

  /** How a Go call ends: it returns a value, returns an error, or calls `os.Exit`. */
  datatype Outcome<+T> = Ok(value: T) | Err(error: Error) | Exit(status: int)

  /** What a run does that can be observed from outside it. */
  datatype Event =
    | InitialLogin(email: string, password: string)
    | EmailVerificationPrompt(retrySeconds: nat)
    | Sleep(seconds: nat)
    | OtpPrompt
    | ReadLine
    | VerifyOtp(session: LoginSession, otp: string)
    | RegisterDevice(session: LoginSession, deviceName: string, deviceType: string)
    | FetchKeys(session: LoginSession)
    | AcquireOAuthToken(keyed: KeyedSession)
    | HawkAuth(oauth: OAuthSession)
    | GetCryptoKeys(hawk: HawkSession)
    | SaveSession(saved: SyncSession, path: string)
    | LoadSession(path: string)
    | RefreshSession(loaded: SyncSession, force: bool)
    | ListRecords(refreshed: SyncSession, collection: string)
    | DecodeRecords(records: seq<RawRecord>)

  const MaxRetries: nat := 10
  const RetryDelaySeconds: nat := 30
  const DeviceName: string := "sync-client"
  const DeviceType: string := "cli"
  const PendingVerificationMarker: string := "ffsync.direct_out"
  const BookmarksCollection: string := "bookmarks"
  /** The status `os.Exit(1)` ends the process with. */
  const FailureStatus: int := 1

  /** The error the account server gives while a login waits for the user to
      confirm it by e-mail: recognised by its message alone. */
  predicate IsPendingVerification(e: Error) {
    Contains(Message(e), PendingVerificationMarker)
  }

  /** The verification methods for which Login asks for a one-time password. */
  predicate RequiresOtp(v: Verification) {
    v == Totp2FA || v == Mail2FA
  }

  /** `%d` of a natural number. */
  function Decimal(n: nat): string {
    if n < 10 then ["0123456789"[n]] else Decimal(n / 10) + ["0123456789"[n % 10]]
  }

  /** The error Login returns once every attempt was answered with pending verification. */
  function ExhaustedError(): Error {
    Failure("failed to verify login after " + Decimal(MaxRetries) + " attempts")
  }

  /** A run's outcome and trace, behind events that happened before it. */
  function After<T>(earlier: seq<Event>, run: (Outcome<T>, seq<Event>)): (Outcome<T>, seq<Event>) {
    (run.0, earlier + run.1)
  }

  /** `SyncClient`: the library client and the session file path of its context
      (`ffsCtx.Opt.SessionFilePath`). */
  datatype SyncClient = SyncClient(
    client: IdentityClient,
    store: SessionStore,
    decode: RecordDecoder,
    sessionFilePath: string
  )
  {
    /** The error the library call recorded by `e` answered with, if any. Prompts,
        reads and sleeps cannot fail; the initial login is not covered (its answer
        depends on the attempt number, not on the event). */
    function CallError(e: Event): Option<Error> {
      match e
      case VerifyOtp(session, otp) => client.verifyWithOtp(session, otp)
      case RegisterDevice(session, name, kind) => client.registerDevice(session, name, kind)
      case FetchKeys(session) => ErrorOf(client.fetchKeys(session))
      case AcquireOAuthToken(keyed) => ErrorOf(client.acquireOAuthToken(keyed))
      case HawkAuth(oauth) => ErrorOf(client.hawkAuth(oauth))
      case GetCryptoKeys(hawk) => ErrorOf(client.getCryptoKeys(hawk))
      case SaveSession(saved, path) => store.save(saved, path)
      case LoadSession(path) => ErrorOf(store.load(path))
      case RefreshSession(loaded, force) => ErrorOf(client.refreshSession(loaded, force))
      case ListRecords(refreshed, collection) => ErrorOf(client.listRecords(refreshed, collection))
      case DecodeRecords(records) => ErrorOf(UnmarshalBookmarks(decode, records))
      case _ => None
    }

    // ---------------------------------------------------------------- Login

    /** Login from attempt `attempt` on (sync/client.go:52-125). */
    function LoginFrom(email: string, password: string, stdinLine: string, attempt: nat): (Outcome<()>, seq<Event>)
      requires attempt <= MaxRetries
      decreases MaxRetries - attempt
    {
      if attempt == MaxRetries then (Err(ExhaustedError()), [])
      else
        var call := [InitialLogin(email, password)];
        match client.login(attempt, email, password)
        case Fail(e) =>
          if IsPendingVerification(e) then
            After(call + [EmailVerificationPrompt(RetryDelaySeconds), Sleep(RetryDelaySeconds)],
                  LoginFrom(email, password, stdinLine, attempt + 1))
          else (Err(e), call)
        case Success((session, verification)) =>
          After(call, Verified(session, verification, stdinLine))
    }

    /** A whole Login run. */
    function LoginRun(email: string, password: string, stdinLine: string): (Outcome<()>, seq<Event>) {
      LoginFrom(email, password, stdinLine, 0)
    }

    /** What follows an accepted initial login: the one-time password check when
        the server asks for one (sync/client.go:66-78), then the stage chain. This
        is the reference the method FinishLogin is proved to compute and the one
        LoginProperties reasons about (OtpOnlyWhenRequired,
        VerifiedFirstFailureAborts). */
    function Verified(session: LoginSession, verification: Verification, stdinLine: string): (Outcome<()>, seq<Event>) {
      if RequiresOtp(verification) then
        var otp := TrimSpace(stdinLine);
        var asked := [OtpPrompt, ReadLine, VerifyOtp(session, otp)];
        match client.verifyWithOtp(session, otp)
        case Some(e) => (Err(e), asked)
        case None => After(asked, Stages(session))
      else Stages(session)
    }

    /** Register device, fetch keys, OAuth token, Hawk credentials, crypto keys,
        reduce and save, each stage fed by the one before (sync/client.go:80-122).
        Its order, first-failure abort and data flow are proved in LoginProperties
        (StagesInOrder, StagesDataFlow). */
    function Stages(session: LoginSession): (Outcome<()>, seq<Event>) {
      var t1 := [RegisterDevice(session, DeviceName, DeviceType)];
      match client.registerDevice(session, DeviceName, DeviceType)
      case Some(e) => (Err(e), t1)
      case None =>
        var t2 := t1 + [FetchKeys(session)];
        match client.fetchKeys(session)
        case Fail(e) => (Err(e), t2)
        case Success((keyA, keyB)) =>
          var keyed := KeyedSession(session, keyA, keyB);
          var t3 := t2 + [AcquireOAuthToken(keyed)];
          match client.acquireOAuthToken(keyed)
          case Fail(e) => (Err(e), t3)
          case Success(accessToken) =>
            var oauth := OAuthSession(keyed, accessToken);
            var t4 := t3 + [HawkAuth(oauth)];
            match client.hawkAuth(oauth)
            case Fail(e) => (Err(e), t4)
            case Success(hawkCredentials) =>
              var hawk := HawkSession(oauth, hawkCredentials);
              var t5 := t4 + [GetCryptoKeys(hawk)];
              match client.getCryptoKeys(hawk)
              case Fail(e) => (Err(e), t5)
              case Success(cryptoKeys) =>
                var synced := client.reduce(CryptoSession(hawk, cryptoKeys));
                var t6 := t5 + [SaveSession(synced, sessionFilePath)];
                match store.save(synced, sessionFilePath)
                case Some(_) => (Exit(FailureStatus), t6)
                case None => (Ok(()), t6)
    }

    /** `SyncClient.Login`. `stdinLine` is what the one read of standard input
        returns, should the server ask for a one-time password. */
    method Login(email: string, password: string, stdinLine: string) returns (outcome: Outcome<()>, trace: seq<Event>)
      ensures (outcome, trace) == LoginRun(email, password, stdinLine)
    {
      trace := [];
      var attempt := 0;
      assert LoginRun(email, password, stdinLine) == After(trace, LoginFrom(email, password, stdinLine, attempt)) by {
        assert [] + LoginRun(email, password, stdinLine).1 == LoginRun(email, password, stdinLine).1;
      }
      while attempt < MaxRetries
        invariant attempt <= MaxRetries
        invariant LoginRun(email, password, stdinLine) == After(trace, LoginFrom(email, password, stdinLine, attempt))
      {
        ghost var earlier := trace;
        ghost var rest := LoginFrom(email, password, stdinLine, attempt);
        trace := trace + [InitialLogin(email, password)];
        var reply := client.login(attempt, email, password);
        if reply.Fail? {
          if IsPendingVerification(reply.error) {
            trace := trace + [EmailVerificationPrompt(RetryDelaySeconds), Sleep(RetryDelaySeconds)];
            ghost var round := [InitialLogin(email, password), EmailVerificationPrompt(RetryDelaySeconds), Sleep(RetryDelaySeconds)];
            assert [InitialLogin(email, password)] + [EmailVerificationPrompt(RetryDelaySeconds), Sleep(RetryDelaySeconds)] == round;
            assert rest == After(round, LoginFrom(email, password, stdinLine, attempt + 1));
            AfterAfter(earlier, round, LoginFrom(email, password, stdinLine, attempt + 1));
            assert trace == earlier + round;
            attempt := attempt + 1;
            continue;
          }
          return Err(reply.error), trace;
        }
        var (session, verification) := reply.value;
        AfterAfter(earlier, [InitialLogin(email, password)], Verified(session, verification, stdinLine));
        var finished, steps := FinishLogin(session, verification, stdinLine);
        return finished, trace + steps;
      }
      assert trace + [] == trace;
      return Err(ExhaustedError()), trace;
    }

    /** The body of a Login attempt once the initial login is accepted
        (sync/client.go:66-122): at most one one-time password check, then the
        stage chain; the first failure ends it. */
    method FinishLogin(session: LoginSession, verification: Verification, stdinLine: string)
      returns (outcome: Outcome<()>, trace: seq<Event>)
      ensures (outcome, trace) == Verified(session, verification, stdinLine)
    {
      trace := [];
      if verification == Totp2FA || verification == Mail2FA {
        trace := [OtpPrompt, ReadLine];
        var otp := TrimSpace(stdinLine);
        trace := trace + [VerifyOtp(session, otp)];
        assert trace == [OtpPrompt, ReadLine, VerifyOtp(session, otp)];
        var otpError := client.verifyWithOtp(session, otp);
        if otpError.Some? {
          return Err(otpError.value), trace;
        }
      } else {
        assert [] + Stages(session).1 == Stages(session).1;
      }
      ghost var base := trace;
      assert Verified(session, verification, stdinLine) == After(base, Stages(session));

      trace := trace + [RegisterDevice(session, DeviceName, DeviceType)];
      ghost var t := [RegisterDevice(session, DeviceName, DeviceType)];
      var registerError := client.registerDevice(session, DeviceName, DeviceType);
      if registerError.Some? {
        return Err(registerError.value), trace;
      }

      trace := trace + [FetchKeys(session)];
      t := t + [FetchKeys(session)];
      assert trace == base + t;
      var keys := client.fetchKeys(session);
      if keys.Fail? {
        return Err(keys.error), trace;
      }
      var keyed := KeyedSession(session, keys.value.0, keys.value.1);

      trace := trace + [AcquireOAuthToken(keyed)];
      t := t + [AcquireOAuthToken(keyed)];
      assert trace == base + t;
      var accessToken := client.acquireOAuthToken(keyed);
      if accessToken.Fail? {
        return Err(accessToken.error), trace;
      }
      var oauth := OAuthSession(keyed, accessToken.value);

      trace := trace + [HawkAuth(oauth)];
      t := t + [HawkAuth(oauth)];
      assert trace == base + t;
      var hawkCredentials := client.hawkAuth(oauth);
      if hawkCredentials.Fail? {
        return Err(hawkCredentials.error), trace;
      }
      var hawk := HawkSession(oauth, hawkCredentials.value);

      trace := trace + [GetCryptoKeys(hawk)];
      t := t + [GetCryptoKeys(hawk)];
      assert trace == base + t;
      var cryptoKeys := client.getCryptoKeys(hawk);
      if cryptoKeys.Fail? {
        return Err(cryptoKeys.error), trace;
      }
      var synced := client.reduce(CryptoSession(hawk, cryptoKeys.value));

      trace := trace + [SaveSession(synced, sessionFilePath)];
      t := t + [SaveSession(synced, sessionFilePath)];
      assert trace == base + t;
      var saveError := store.save(synced, sessionFilePath);
      if saveError.Some? {
        return Exit(FailureStatus), trace;
      }
      return Ok(()), trace;
    }

    // --------------------------------------------------------- GetBookmarks

    /** A GetBookmarks run (sync/client.go:128-152): the reference the method
        GetBookmarks is proved to compute and the one BookmarksProperties reasons
        about. */
    function GetBookmarksRun(): (Outcome<seq<BookmarkRecord>>, seq<Event>) {
      var t1 := [LoadSession(sessionFilePath)];
      match store.load(sessionFilePath)
      case Fail(e) => (Err(Wrapped("failed to load session", e)), t1)
      case Success(loaded) =>
        var t2 := t1 + [RefreshSession(loaded, false)];
        match client.refreshSession(loaded, false)
        case Fail(e) => (Err(Wrapped("failed to refresh session", e)), t2)
        case Success((refreshed, _)) =>
          var t3 := t2 + [ListRecords(refreshed, BookmarksCollection)];
          match client.listRecords(refreshed, BookmarksCollection)
          case Fail(e) => (Err(Wrapped("failed to get bookmarks", e)), t3)
          case Success(records) =>
            var t4 := t3 + [DecodeRecords(records)];
            match UnmarshalBookmarks(decode, records)
            case Fail(_) => (Exit(FailureStatus), t4)
            case Success(bookmarks) => (Ok(bookmarks), t4)
    }

    /** `SyncClient.GetBookmarks`. */
    method GetBookmarks() returns (outcome: Outcome<seq<BookmarkRecord>>, trace: seq<Event>)
      ensures (outcome, trace) == GetBookmarksRun()
    {
      trace := [LoadSession(sessionFilePath)];
      var loaded := store.load(sessionFilePath);
      if loaded.Fail? {
        return Err(Wrapped("failed to load session", loaded.error)), trace;
      }
      var session := loaded.value;

      trace := trace + [RefreshSession(session, false)];
      var refreshed := client.refreshSession(session, false);
      if refreshed.Fail? {
        return Err(Wrapped("failed to refresh session", refreshed.error)), trace;
      }
      session := refreshed.value.0;

      trace := trace + [ListRecords(session, BookmarksCollection)];
      var records := client.listRecords(session, BookmarksCollection);
      if records.Fail? {
        return Err(Wrapped("failed to get bookmarks", records.error)), trace;
      }

      trace := trace + [DecodeRecords(records.value)];
      var bookmarks := UnmarshalBookmarks(decode, records.value);
      if bookmarks.Fail? {
        return Exit(FailureStatus), trace;
      }
      return Ok(bookmarks.value), trace;
    }
  }

  lemma AfterAfter<T>(a: seq<Event>, b: seq<Event>, run: (Outcome<T>, seq<Event>))
    ensures After(a, After(b, run)) == After(a + b, run)
  {
    assert a + (b + run.1) == (a + b) + run.1;
  }

  /** The error of a reply, if it failed. */
  function ErrorOf<T>(r: Reply<T>): Option<Error> {
    if r.Fail? then Some(r.error) else None
  }

  // ------------------------------------------------------- FilterBookmarks

  /** The bookmarks whose parent folder is named `folderName`, in input order. */
  function Filter(bookmarks: seq<BookmarkRecord>, folderName: string): seq<BookmarkRecord> {
    if bookmarks == [] then []
    else (if bookmarks[0].parentName == folderName then [bookmarks[0]] else [])
         + Filter(bookmarks[1..], folderName)
  }

  /** Filtering a concatenation filters each part. */
  lemma {:induction false} FilterConcat(a: seq<BookmarkRecord>, b: seq<BookmarkRecord>, folderName: string)
    ensures Filter(a + b, folderName) == Filter(a, folderName) + Filter(b, folderName)
    decreases |a|
  {
    if a == [] {
      assert a + b == b;
    } else {
      var ab := a + b;
      var head := if a[0].parentName == folderName then [a[0]] else [];
      assert ab[0] == a[0];
      assert ab[1..] == a[1..] + b;
      assert Filter(ab, folderName) == head + Filter(a[1..] + b, folderName);
      assert Filter(a, folderName) == head + Filter(a[1..], folderName);
      FilterConcat(a[1..], b, folderName);
    }
  }

  /** `FilterBookmarks` (sync/client.go:154-163): one pass appending each match. */
  method FilterBookmarks(bookmarks: seq<BookmarkRecord>, folderName: string) returns (ret: seq<BookmarkRecord>)
    ensures ret == Filter(bookmarks, folderName)
  {
    ret := [];
    for i := 0 to |bookmarks|
      invariant ret == Filter(bookmarks[..i], folderName)
    {
      var bookmark := bookmarks[i];
      FilterConcat(bookmarks[..i], [bookmark], folderName);
      assert bookmarks[..i + 1] == bookmarks[..i] + [bookmark];
      if bookmark.parentName == folderName {
        ret := ret + [bookmark];
      }
    }
    assert bookmarks[..|bookmarks|] == bookmarks;
  }
}
