/**
 * The storage repository: each method issues at most a couple of store calls and reduces the
 * store's reply to a value or a raised error. Only that reduction is modelled; the store's
 * answers come from the `Store` oracle.
 */
module Repository {
  import opened Wrappers
  import opened Text
  import opened ObjectStore

  /** Paths ending with this are deleted before an upload grant is requested for them. */
  const MANIFEST_SUFFIX := "latest.json"

  /** `object_exists` probes with a signed download URL valid for this many seconds. */
  const PROBE_SECONDS := 120

  /** The store message reports a row-level-security denial (both tests are case-sensitive). */
  predicate MentionsRls(message: string) {
    Contains(message, "row-level security policy") || Contains(message, "RLS")
  }

  /** Error codes the upload and download paths read as a missing or inaccessible bucket. */
  predicate IsBucketCode(code: string) {
    code == "NoSuchBucket" || code == "InvalidRequest"
  }

  /** The download path's test for a missing object. */
  predicate IsNotFoundError(message: string, code: string) {
    code == "NoSuchKey" || code == "not_found" || Contains(Lower(message), "not found")
  }

  /** The test under which a failed listing is an empty folder rather than an error. */
  predicate IsMissingListing(message: string, code: string) {
    code == "NoSuchKey" || Contains(Lower(message), "not found") || Contains(Lower(message), "does not exist")
  }

  /** `object_exists`: a raised storage error that means "no such object" (its "does not exist"
      test is case-sensitive). */
  predicate IsAbsentWhenRaised(message: string, code: string) {
    code == "NoSuchKey" || Contains(message, "does not exist") || Contains(Lower(message), "not found")
  }

  /** `object_exists`: an error record that means "no such object". */
  predicate IsAbsentWhenReturned(message: string, code: string) {
    code == "NoSuchKey" || code == "not_found"
    || Contains(Lower(message), "does not exist") || Contains(Lower(message), "not found")
  }

  /** Classification of an error record from an upload grant. */
  function UploadErrorKind(message: string, code: string): ErrorKind {
    if MentionsRls(message) then RlsViolation
    else if IsBucketCode(code) then BucketUnavailable
    else Unclassified
  }

  /** Classification of an error record from a download grant. */
  function DownloadErrorKind(message: string, code: string): ErrorKind {
    if MentionsRls(message) then RlsViolation
    else if IsBucketCode(code) then BucketUnavailable
    else if IsNotFoundError(message, code) then ObjectNotFound
    else Unclassified
  }

  /** Classification of a storage exception raised by a list or remove call. */
  function ListOrDeleteErrorKind(message: string, code: string): ErrorKind {
    if MentionsRls(message) then RlsViolation
    else if code == "NoSuchBucket" || Contains(message, "does not exist") then BucketUnavailable
    else Unclassified
  }

  /**
   * How a list or remove call turns the exception it caught into the one it raises: a storage
   * exception keeps its message and code and is sorted into RLS denial, missing bucket (the
   * "NoSuchBucket" code or a message saying "does not exist") or neither; anything else is
   * re-raised unchanged.
   */
  predicate RaisedFault(exc: StoreException, fault: Fault) {
    match exc
    case StorageException(d) =>
      var message, code := DetailMessage(d), DetailCode(d);
      && fault.Classified? && fault.message == message && fault.code == code
      && (fault.kind == RlsViolation <==> MentionsRls(message))
      && (fault.kind == BucketUnavailable <==>
            !MentionsRls(message) && (code == "NoSuchBucket" || Contains(message, "does not exist")))
      && fault.kind != ObjectNotFound
    case OtherException(_) => fault == Propagated(exc)
  }

  /** `delete_files`: removes the given paths; an empty request never reaches the store. */
  function DeleteFiles(store: Store, paths: seq<string>, userToken: Option<string>): (r: Run<seq<Entry>, Fault>)
    ensures |paths| == 0 ==> r.result == Ok([]) && r.calls == []
    ensures |paths| > 0 ==> r.calls == [Remove(ScopeOf(userToken), paths)]
    ensures r.result.Err? <==> |paths| > 0 && store.remove(ScopeOf(userToken), paths).Threw?
    ensures |paths| > 0 && store.remove(ScopeOf(userToken), paths) == Gave(NotAList) ==> r.result == Ok([])
    ensures |paths| > 0 && store.remove(ScopeOf(userToken), paths).Gave? && store.remove(ScopeOf(userToken), paths).value.Items? ==>
              r.result == Ok(store.remove(ScopeOf(userToken), paths).value.items)
    ensures |paths| > 0 && store.remove(ScopeOf(userToken), paths).Threw? ==>
              RaisedFault(store.remove(ScopeOf(userToken), paths).exc, r.result.error)
    ensures r.result.Err? && r.result.error.Classified? ==>
              r.result.error.kind != ObjectNotFound
              && (r.result.error.kind == RlsViolation <==> MentionsRls(r.result.error.message))
  {
    if |paths| == 0 then Run(Ok([]), [])
    else
      var scope := ScopeOf(userToken);
      var calls := [Remove(scope, paths)];
      match store.remove(scope, paths)
      case Gave(Items(deleted)) => Run(Ok(deleted), calls)
      case Gave(NotAList) => Run(Ok([]), calls)
      case Threw(StorageException(d)) =>
        var message, code := DetailMessage(d), DetailCode(d);
        Run(Err(Classified(ListOrDeleteErrorKind(message, code), message, code)), calls)
      case Threw(e) => Run(Err(Propagated(e)), calls)
  }

  /** `list_user_files`: the objects under the user's folder; a missing folder lists as empty. */
  function ListUserFiles(store: Store, userId: string, userToken: Option<string>): (r: Run<seq<Entry>, Fault>)
    ensures r.calls == [List(ScopeOf(userToken), userId)]
    ensures store.list(ScopeOf(userToken), userId).Gave? ==>
              r.result == Ok(if store.list(ScopeOf(userToken), userId).value.Items?
                             then store.list(ScopeOf(userToken), userId).value.items else [])
    ensures r.result.Err? <==>
              match store.list(ScopeOf(userToken), userId)
              case Threw(StorageException(d)) => !IsMissingListing(DetailMessage(d), DetailCode(d))
              case Threw(_) => true
              case Gave(_) => false
    ensures r.result.Ok? && store.list(ScopeOf(userToken), userId).Threw? ==> r.result.value == []
    ensures r.result.Err? ==> RaisedFault(store.list(ScopeOf(userToken), userId).exc, r.result.error)
    ensures r.result.Err? && r.result.error.Classified? ==>
              r.result.error.kind != ObjectNotFound
              && (r.result.error.kind == RlsViolation <==> MentionsRls(r.result.error.message))
  {
    var scope := ScopeOf(userToken);
    var calls := [List(scope, userId)];
    match store.list(scope, userId)
    case Gave(Items(entries)) => Run(Ok(entries), calls)
    case Gave(NotAList) => Run(Ok([]), calls)
    case Threw(StorageException(d)) =>
      var message, code := DetailMessage(d), DetailCode(d);
      if IsMissingListing(message, code) then Run(Ok([]), calls)
      else Run(Err(Classified(ListOrDeleteErrorKind(message, code), message, code)), calls)
    case Threw(e) => Run(Err(Propagated(e)), calls)
  }

  /**
   * `create_signed_upload_url`: for a path ending in "latest.json" an attempt to delete the
   * existing object comes first and its outcome is ignored; then the grant is requested and
   * any error record it returns is raised.
   */
  function CreateSignedUploadUrl(store: Store, path: string, userToken: Option<string>): (r: Run<StoreRecord, Fault>)
    ensures |r.calls| >= 1 && r.calls[|r.calls| - 1] == SignUpload(ScopeOf(userToken), path)
    ensures r.calls[..|r.calls| - 1] ==
              if EndsWith(path, MANIFEST_SUFFIX) then [Remove(ScopeOf(userToken), [path])] else []
    ensures r.result.Ok? <==>
              store.signUpload(ScopeOf(userToken), path).Gave? && !HasError(store.signUpload(ScopeOf(userToken), path).value)
    ensures r.result.Ok? ==> r.result.value == store.signUpload(ScopeOf(userToken), path).value
    ensures store.signUpload(ScopeOf(userToken), path).Threw? ==>
              r.result == Err(Propagated(store.signUpload(ScopeOf(userToken), path).exc))
    ensures store.signUpload(ScopeOf(userToken), path).Gave? && r.result.Err? ==>
              var rec := store.signUpload(ScopeOf(userToken), path).value;
              && r.result.error.Classified?
              && r.result.error.message == RecordMessage(rec) && r.result.error.code == RecordCode(rec)
              && r.result.error.kind != ObjectNotFound
              && (r.result.error.kind == RlsViolation <==> MentionsRls(RecordMessage(rec)))
              && (r.result.error.kind == BucketUnavailable <==> !MentionsRls(RecordMessage(rec)) && IsBucketCode(RecordCode(rec)))
  {
    var scope := ScopeOf(userToken);
    var cleared := if EndsWith(path, MANIFEST_SUFFIX) then [Remove(scope, [path])] else [];
    var calls := cleared + [SignUpload(scope, path)];
    match store.signUpload(scope, path)
    case Threw(e) => Run(Err(Propagated(e)), calls)
    case Gave(rec) =>
      if HasError(rec) then
        var message, code := RecordMessage(rec), RecordCode(rec);
        Run(Err(Classified(UploadErrorKind(message, code), message, code)), calls)
      else Run(Ok(rec), calls)
  }

  /** `object_exists`: probes the path with a short-lived download grant; `Some(probe)` is
      `(True, probe)` and `None` is `(False, None)`. */
  function ObjectExists(store: Store, path: string, userToken: Option<string>): (r: Run<Option<StoreRecord>, Fault>)
    ensures r.calls == [SignUrl(ScopeOf(userToken), path, PROBE_SECONDS)]
    ensures r.result == Ok(None) <==>
              match store.signUrl(ScopeOf(userToken), path, PROBE_SECONDS)
              case Threw(StorageException(d)) => IsAbsentWhenRaised(DetailMessage(d), DetailCode(d))
              case Threw(_) => false
              case Gave(probe) =>
                IsEmpty(probe) || (HasError(probe) && IsAbsentWhenReturned(RecordMessage(probe), RecordCode(probe)))
    ensures r.result.Ok? && r.result.value.Some? ==>
              var probe := r.result.value.value;
              && store.signUrl(ScopeOf(userToken), path, PROBE_SECONDS) == Gave(probe)
              && !IsEmpty(probe) && !HasError(probe)
    ensures store.signUrl(ScopeOf(userToken), path, PROBE_SECONDS).Threw? && r.result.Err? ==>
              r.result.error == Propagated(store.signUrl(ScopeOf(userToken), path, PROBE_SECONDS).exc)
    ensures store.signUrl(ScopeOf(userToken), path, PROBE_SECONDS).Gave? ==>
              var probe := store.signUrl(ScopeOf(userToken), path, PROBE_SECONDS).value;
              && (!IsEmpty(probe) && !HasError(probe) ==> r.result == Ok(Some(probe)))
              && (!IsEmpty(probe) && HasError(probe) && !IsAbsentWhenReturned(RecordMessage(probe), RecordCode(probe)) ==>
                    r.result == Err(Classified(Unclassified, RecordMessage(probe), RecordCode(probe))))
  {
    var scope := ScopeOf(userToken);
    var calls := [SignUrl(scope, path, PROBE_SECONDS)];
    match store.signUrl(scope, path, PROBE_SECONDS)
    case Threw(StorageException(d)) =>
      if IsAbsentWhenRaised(DetailMessage(d), DetailCode(d)) then Run(Ok(None), calls)
      else Run(Err(Propagated(StorageException(d))), calls)
    case Threw(e) => Run(Err(Propagated(e)), calls)
    case Gave(probe) =>
      if IsEmpty(probe) then Run(Ok(None), calls)
      else if HasError(probe) then
        var message, code := RecordMessage(probe), RecordCode(probe);
        if IsAbsentWhenReturned(message, code) then Run(Ok(None), calls)
        else Run(Err(Classified(Unclassified, message, code)), calls)
      else Run(Ok(Some(probe)), calls)
  }

  /** `create_signed_download_url`: one signing call; every error record is raised, classified. */
  function CreateSignedDownloadUrl(store: Store, path: string, seconds: int, userToken: Option<string>): (r: Run<StoreRecord, Fault>)
    ensures r.calls == [SignUrl(ScopeOf(userToken), path, seconds)]
    ensures r.result.Ok? <==>
              store.signUrl(ScopeOf(userToken), path, seconds).Gave? && !HasError(store.signUrl(ScopeOf(userToken), path, seconds).value)
    ensures r.result.Ok? ==> r.result.value == store.signUrl(ScopeOf(userToken), path, seconds).value
    ensures store.signUrl(ScopeOf(userToken), path, seconds).Threw? ==>
              r.result == Err(Propagated(store.signUrl(ScopeOf(userToken), path, seconds).exc))
    ensures store.signUrl(ScopeOf(userToken), path, seconds).Gave? && r.result.Err? ==>
              var rec := store.signUrl(ScopeOf(userToken), path, seconds).value;
              var message, code := RecordMessage(rec), RecordCode(rec);
              && r.result.error.Classified? && r.result.error.message == message && r.result.error.code == code
              && (r.result.error.kind == RlsViolation <==> MentionsRls(message))
              && (r.result.error.kind == BucketUnavailable <==> !MentionsRls(message) && IsBucketCode(code))
              && (r.result.error.kind == ObjectNotFound <==>
                    !MentionsRls(message) && !IsBucketCode(code) && IsNotFoundError(message, code))
  {
    var scope := ScopeOf(userToken);
    var calls := [SignUrl(scope, path, seconds)];
    match store.signUrl(scope, path, seconds)
    case Threw(e) => Run(Err(Propagated(e)), calls)
    case Gave(rec) =>
      if HasError(rec) then
        var message, code := RecordMessage(rec), RecordCode(rec);
        Run(Err(Classified(DownloadErrorKind(message, code), message, code)), calls)
      else Run(Ok(rec), calls)
  }

  /** The remove call before a manifest grant is the one `delete_files` makes for that single
      path. */
  lemma PreDeleteIsDeleteFiles(store: Store, path: string, userToken: Option<string>)
    requires EndsWith(path, MANIFEST_SUFFIX)
    ensures CreateSignedUploadUrl(store, path, userToken).calls ==
              DeleteFiles(store, [path], userToken).calls + [SignUpload(ScopeOf(userToken), path)]
  {
  }

  /** The outcome of an upload grant does not depend on how the manifest pre-delete went:
      any answer to the remove call yields the same result. */
  lemma UploadIgnoresPreDelete(store: Store, remove: (Scope, seq<string>) -> Reply<Listing>, path: string, userToken: Option<string>)
    ensures CreateSignedUploadUrl(store.(remove := remove), path, userToken).result
         == CreateSignedUploadUrl(store, path, userToken).result
  {
  }

  /** A "Duplicate" error record is raised like any other, on the manifest path as well. */
  lemma DuplicateIsRaised(store: Store, path: string, userToken: Option<string>, rec: StoreRecord)
    requires store.signUpload(ScopeOf(userToken), path) == Gave(rec)
    requires rec.error == Some("Duplicate") && !MentionsRls(RecordMessage(rec))
    ensures CreateSignedUploadUrl(store, path, userToken).result == Err(Classified(Unclassified, RecordMessage(rec), "Duplicate"))
  {
  }

  /** A listing error whose message says "not found" is an empty folder even when its code
      names a missing bucket: the not-found test runs before the bucket test. */
  lemma MissingBucketCanListAsEmpty(store: Store, userId: string, userToken: Option<string>, d: ErrorDetail)
    requires store.list(ScopeOf(userToken), userId) == Threw(StorageException(d))
    requires DetailCode(d) == "NoSuchBucket" && Contains(Lower(DetailMessage(d)), "not found")
    ensures ListUserFiles(store, userId, userToken).result == Ok([])
  {
  }

  /** A download grant refused as "object not found" means the existence probe reports the
      object absent, provided the store answers the probe the same way. */
  lemma NotFoundDownloadProbesAbsent(store: Store, path: string, userToken: Option<string>)
    requires CreateSignedDownloadUrl(store, path, PROBE_SECONDS, userToken).result.Err?
    requires CreateSignedDownloadUrl(store, path, PROBE_SECONDS, userToken).result.error.Classified?
    requires CreateSignedDownloadUrl(store, path, PROBE_SECONDS, userToken).result.error.kind == ObjectNotFound
    ensures ObjectExists(store, path, userToken).result == Ok(None)
  {
  }

  /** A list call and a remove call that raise the same exception raise the same fault,
      unless the listing reads the exception as an empty folder. */
  lemma ListAndDeleteRaiseAlike(store: Store, userId: string, paths: seq<string>, userToken: Option<string>, exc: StoreException)
    requires |paths| > 0
    requires store.list(ScopeOf(userToken), userId) == Threw(exc)
    requires store.remove(ScopeOf(userToken), paths) == Threw(exc)
    requires exc.StorageException? ==> !IsMissingListing(DetailMessage(exc.detail), DetailCode(exc.detail))
    ensures ListUserFiles(store, userId, userToken).result.Err?
    ensures ListUserFiles(store, userId, userToken).result == DeleteFiles(store, paths, userToken).result
  {
  }
}
