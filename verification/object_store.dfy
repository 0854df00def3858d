/**
 * The object store as the repository sees it: the shapes of its replies, the calls the
 * repository makes, and an oracle that answers each call. The store client itself is not
 * modelled; every reply is whatever the oracle says for that call.
 */
module ObjectStore {
  import opened Wrappers

  /** Which client a call goes through: the service-role client, or one carrying the caller's token. */
  datatype Scope = ServiceScoped | UserScoped(token: string)

  /** The `error`/`code`/`message` keys of the dictionary a raised storage exception carries
      (all missing when its first argument is not a dictionary). */
  datatype ErrorDetail = ErrorDetail(message: Option<string>, error: Option<string>, code: Option<string>)

  /** An exception raised by the store client: a storage exception, or anything else (transport, ...). */
  datatype StoreException =
    | StorageException(detail: ErrorDetail)
    | OtherException(text: string)

  /** The `token` key of a returned record: missing, a string, or some other value (`null`, a number). */
  datatype TokenField = NoToken | TextToken(text: string) | OtherToken

  /**
   * A dictionary returned by a signing call. Only the keys the code reads are modelled;
   * `hasOtherKeys` records whether anything else is present (it decides whether the record
   * is empty, hence falsy). `statusCode` is truthy when present and non-zero; string keys are
   * truthy when present and non-empty.
   */
  datatype StoreRecord = StoreRecord(
    error: Option<string>,
    statusCode: Option<int>,
    message: Option<string>,
    code: Option<string>,
    token: TokenField,
    signedUrl: Option<string>,   // the `signed_url` key
    signedURL: Option<string>,   // the `signedURL` key
    hasOtherKeys: bool)

  /** `{}` */
  const EmptyRecord := StoreRecord(None, None, None, None, NoToken, None, None, false)

  /** One object of a listing, reduced to its `name` key. */
  datatype Entry =
    | Named(name: string)   // `name` is a string
    | Unnamed               // no `name` key: `.get("name", "")` reads ""
    | BadName               // `name` holds a non-string: calling `.endswith` on it raises

  /** What a list or remove call hands back: a list, or some other value. */
  datatype Listing = Items(items: seq<Entry>) | NotAList

  /** A store call either raises or returns a value. */
  datatype Reply<+T> = Threw(exc: StoreException) | Gave(value: T)

  /** A call made to the store, as recorded in a trace. */
  datatype StoreCall =
    | List(scope: Scope, prefix: string)
    | Remove(scope: Scope, paths: seq<string>)
    | SignUpload(scope: Scope, path: string)
    | SignUrl(scope: Scope, path: string, seconds: int)

  /** The oracle: how the store answers each kind of call. */
  datatype Store = Store(
    list: (Scope, string) -> Reply<Listing>,
    remove: (Scope, seq<string>) -> Reply<Listing>,
    signUpload: (Scope, string) -> Reply<StoreRecord>,
    signUrl: (Scope, string, int) -> Reply<StoreRecord>)

  /** How the repository sorts an error it raises itself. */
  datatype ErrorKind = RlsViolation | BucketUnavailable | ObjectNotFound | Unclassified

  /** An exception that reaches the service layer. */
  datatype Fault =
    | Propagated(exc: StoreException)                        // the client's exception, re-raised as is
    | Classified(kind: ErrorKind, message: string, code: string)  // `raise Exception(error_msg)` in the repository
    | MissingKey(key: string)                                // `KeyError` on `result[key]`
    | InvalidResponse(fields: seq<string>)                   // a `str` response field received `None`

  /** The result of an operation together with the store calls it made, in order. */
  datatype Run<+T, +E> = Run(result: Result<T, E>, calls: seq<StoreCall>)

  /** `if user_token:` picks the user-scoped client for a non-empty token. */
  function ScopeOf(userToken: Option<string>): Scope {
    if userToken.Some? && userToken.value != "" then UserScoped(userToken.value) else ServiceScoped
  }

  /** `d.get("message", "Unknown error")` */
  function DetailMessage(d: ErrorDetail): string {
    d.message.GetOr("Unknown error")
  }

  /** `d.get("error", d.get("code", "Unknown"))`: a present `error` key wins even when empty. */
  function DetailCode(d: ErrorDetail): string {
    if d.error.Some? then d.error.value else d.code.GetOr("Unknown")
  }

  /** `result.get("error") or result.get("statusCode")` */
  predicate HasError(rec: StoreRecord) {
    (rec.error.Some? && rec.error.value != "") || (rec.statusCode.Some? && rec.statusCode.value != 0)
  }

  /** `not result`: the dictionary has no keys at all. */
  predicate IsEmpty(rec: StoreRecord) {
    rec == EmptyRecord
  }

  /** `str(result.get("message", "Unknown error"))` */
  function RecordMessage(rec: StoreRecord): string {
    rec.message.GetOr("Unknown error")
  }

  /** `result.get("error", result.get("code", "Unknown"))` */
  function RecordCode(rec: StoreRecord): string {
    if rec.error.Some? then rec.error.value else rec.code.GetOr("Unknown")
  }
}
