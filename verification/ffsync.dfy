/** The Firefox Sync client library the core drives (ffsyncclient: its FxA client,
    its session types, its session file and its record decoder). None of it is
    reimplemented: every operation is an oracle, a total function chosen by the
    caller, so that every property proved about the core holds whatever the server,
    the disk and the decoder answer. */
module FFSync {

  datatype Option<+T> = None | Some(value: T)

  /** A Go `error`. `Wrapped` is what `fmt.Errorf("<context>: %w", cause)` builds. */
  datatype Error = Failure(text: string) | Wrapped(context: string, cause: Error)

  /** `err.Error()`: the message text of an error. */
  function Message(e: Error): string {
    match e
    case Failure(text) => text
    case Wrapped(context, cause) => context + ": " + Message(cause)
  }

  /** The `(value, error)` pair a Go call returns: exactly one of them is set. */
  datatype Reply<+T> = Success(value: T) | Fail(error: Error)

  /** What the account server asks for after the initial login. */
  datatype Verification = NoVerification | EmailLink | Totp2FA | Mail2FA

  /** Opaque credentials, keys and tokens handed out by the servers. */
  type Token = string

  /** The stages of a login, each built only from the one before it. */
  datatype LoginSession = LoginSession(sessionToken: Token)
  datatype KeyedSession = KeyedSession(login: LoginSession, keyA: Token, keyB: Token)
  datatype OAuthSession = OAuthSession(keyed: KeyedSession, accessToken: Token)
  datatype HawkSession = HawkSession(oauth: OAuthSession, hawkCredentials: Token)
  datatype CryptoSession = CryptoSession(hawk: HawkSession, cryptoKeys: Token)

  /** The reduced, serialisable session: the only thing written to disk. */
  datatype SyncSession = SyncSession(snapshot: Token)

  /** One encrypted record of a sync collection, as listed by the storage server. */
  datatype RawRecord = RawRecord(id: string, payload: string)

  /** The FxA / sync client (`syncclient.FxAClient`). `login(n, email, password)` is
      the answer to the n-th call (from 0) of one Login run: the same credentials
      can be refused while a confirmation e-mail is unanswered and accepted later.
      Every other call happens at most once per run and is a function of its
      arguments. `reduce` is `CryptoSession.Reduce`. */
  datatype IdentityClient = IdentityClient(
    login: (nat, string, string) -> Reply<(LoginSession, Verification)>,
    verifyWithOtp: (LoginSession, string) -> Option<Error>,
    registerDevice: (LoginSession, string, string) -> Option<Error>,
    fetchKeys: LoginSession -> Reply<(Token, Token)>,
    acquireOAuthToken: KeyedSession -> Reply<Token>,
    hawkAuth: OAuthSession -> Reply<Token>,
    getCryptoKeys: HawkSession -> Reply<Token>,
    reduce: CryptoSession -> SyncSession,
    refreshSession: (SyncSession, bool) -> Reply<(SyncSession, bool)>,
    listRecords: (SyncSession, string) -> Reply<seq<RawRecord>>
  )

  /** The session file: `SyncSession.Save(path)` and `syncclient.LoadSession(ctx, path)`. */
  datatype SessionStore = SessionStore(
    save: (SyncSession, string) -> Option<Error>,
    load: string -> Reply<SyncSession>
  )
}

/** The decoded bookmark (`models.BookmarkRecord`, the fields the program reads) and
    the decoding of a listing (`models.UnmarshalBookmarks`). */
module Models {
  import opened FFSync

  /** `DateAdded` is a Go `*time.Time`: absent or a timestamp. */
  datatype BookmarkRecord = BookmarkRecord(
    title: string,
    uri: string,
    dateAdded: Option<int>,
    parentName: string
  )

  /** Decryption and parsing of one raw record. */
  type RecordDecoder = RawRecord -> Reply<BookmarkRecord>

  /** `UnmarshalBookmarks`: decode every record of a listing in order; the first
      record that fails to decode fails the whole listing. */
  function UnmarshalBookmarks(decode: RecordDecoder, records: seq<RawRecord>): (r: Reply<seq<BookmarkRecord>>)
    ensures r.Success? <==> forall i :: 0 <= i < |records| ==> decode(records[i]).Success?
    ensures r.Success? ==> |r.value| == |records|
    ensures r.Success? ==> forall i :: 0 <= i < |records| ==> decode(records[i]) == Success(r.value[i])
    ensures r.Fail? ==> exists i ::
              && 0 <= i < |records|
              && decode(records[i]) == Fail(r.error)
              && forall j :: 0 <= j < i ==> decode(records[j]).Success?
  {
    if records == [] then Success([])
    else
      match decode(records[0])
      case Fail(e) => Fail(e)
      case Success(first) =>
        match UnmarshalBookmarks(decode, records[1..])
        case Fail(e) =>
          var i :| && 0 <= i < |records[1..]|
                   && decode(records[1..][i]) == Fail(e)
                   && forall j :: 0 <= j < i ==> decode(records[1..][j]).Success?;
          assert decode(records[i + 1]) == Fail(e);
          Fail(e)
        case Success(rest) => Success([first] + rest)
  }
}
