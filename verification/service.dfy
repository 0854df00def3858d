/**
 * The storage service: the ownership guard for downloads, the retention cleanup that runs
 * before every upload, and the two presign operations. Store calls go through the
 * repository model; the clock reading and the random suffix of a new backup's name are
 * parameters.
 */
module Service {
  import opened Wrappers
  import opened Text
  import opened ObjectStore
  import opened Repository
  import opened Naming
  import opened Retention
  import opened UploadToken

  /** An error the service raises as an HTTP exception. */
  datatype ServiceError =
    | BadRequest(detail: string)   // 400
    | Forbidden(detail: string)    // 403
    | Internal(cause: Fault)       // 500, the detail quoting the cause
  {
    /** The HTTP status code the error is answered with. */
    function Status(): int {
      match this
      case BadRequest(_) => 400
      case Forbidden(_) => 403
      case Internal(_) => 500
    }
  }

  /** `PresignUploadRes`: where the client uploads the backup and the manifest, and the tokens. */
  datatype UploadGrant = UploadGrant(path: string, token: string, latestPath: string, latestToken: string)

  /** What a cleanup reports (the number of deleted archives) and the store calls it made. */
  datatype Cleanup = Cleanup(deleted: nat, calls: seq<StoreCall>)

  /** The folder prefix every object of a user starts with. */
  function Folder(userId: string): string {
    userId + "/"
  }

  /** `validate_download_path`: `None` when the path lies in the user's folder, else the 403. */
  function ValidateDownloadPath(path: string, userId: string): (refusal: Option<ServiceError>)
    ensures refusal.None? <==> StartsWith(path, Folder(userId))
    ensures refusal.Some? ==> refusal.value.Status() == 403
                              && refusal.value == Forbidden("Path must start with " + Folder(userId))
  {
    if StartsWith(path, Folder(userId)) then None
    else Some(Forbidden("Path must start with " + Folder(userId)))
  }

  /** Some listed object has a non-string name: filtering the listing raises. */
  predicate HasBadName(entries: seq<Entry>) {
    exists i :: 0 <= i < |entries| && entries[i].BadName?
  }

  /** The archive names of a listing, or `None` when listing raised or some name is not a
      string (filtering such a listing raises). */
  function ListedArchives(listing: Result<seq<Entry>, Fault>): (names: Option<seq<string>>)
    ensures names.Some? <==> listing.Ok? && !HasBadName(listing.value)
    ensures names.Some? ==> names.value == ArchiveNames(listing.value)
  {
    if listing.Ok? && !HasBadName(listing.value) then Some(ArchiveNames(listing.value)) else None
  }

  /**
   * The removal step of `cleanup_old_backups` for the archives found: below `MAX_BACKUPS` no
   * call at all; otherwise one remove of the selected archives' paths, whose deletions are
   * counted unless the remove raises.
   */
  function RemoveOldArchives(store: Store, userId: string, userToken: Option<string>, names: seq<string>): (c: Cleanup)
    ensures |names| < MAX_BACKUPS ==> c == Cleanup(0, [])
    ensures |names| >= MAX_BACKUPS ==>
              c.calls == [Remove(ScopeOf(userToken), DeletionPaths(userId, SelectForDeletion(names)))]
    ensures c.deleted > 0 <==>
              |names| >= MAX_BACKUPS
              && store.remove(ScopeOf(userToken), DeletionPaths(userId, SelectForDeletion(names))).Gave?
    ensures c.deleted > 0 ==> c.deleted == |names| - KEEP_BACKUPS
  {
    if |names| < MAX_BACKUPS then Cleanup(0, [])
    else
      var doomed := SelectForDeletion(names);
      var removed := DeleteFiles(store, DeletionPaths(userId, doomed), userToken);
      Cleanup(if removed.result.Err? then 0 else |doomed|, removed.calls)
  }

  /**
   * `cleanup_old_backups`: lists the user's folder first, then runs the removal step on the
   * archives found. A raising listing or a non-string name ends it with zero deletions and
   * no further call; no failure escapes.
   */
  function CleanupOldBackups(store: Store, userId: string, userToken: Option<string>): (c: Cleanup)
    ensures |c.calls| >= 1 && c.calls[0] == List(ScopeOf(userToken), userId)
    ensures match ListedArchives(ListUserFiles(store, userId, userToken).result)
            case None => c.deleted == 0 && |c.calls| == 1
            case Some(names) =>
              var step := RemoveOldArchives(store, userId, userToken, names);
              c.deleted == step.deleted && c.calls[1..] == step.calls
  {
    var listed := ListUserFiles(store, userId, userToken);
    match ListedArchives(listed.result)
    case None => Cleanup(0, listed.calls)
    case Some(names) =>
      var step := RemoveOldArchives(store, userId, userToken, names);
      Cleanup(step.deleted, listed.calls + step.calls)
  }

  /** Paths built from archive names lie in the user's folder, end with the archive suffix
      and are never the manifest. */
  lemma {:induction false} ArchivePathsShape(userId: string, names: seq<string>)
    requires forall n :: n in names ==> EndsWith(n, ARCHIVE_SUFFIX)
    ensures forall p :: p in DeletionPaths(userId, names) ==>
              StartsWith(p, Folder(userId)) && EndsWith(p, ARCHIVE_SUFFIX) && p != Folder(userId) + MANIFEST_NAME
  {
    var paths := DeletionPaths(userId, names);
    forall p | p in paths
      ensures StartsWith(p, Folder(userId)) && EndsWith(p, ARCHIVE_SUFFIX) && p != Folder(userId) + MANIFEST_NAME
    {
      var k :| 0 <= k < |paths| && paths[k] == p;
      var n := names[k];
      assert n in names && EndsWith(n, ARCHIVE_SUFFIX);
      assert p == Folder(userId) + n;
      assert p[..|Folder(userId)|] == Folder(userId);
      assert p[|p| - |ARCHIVE_SUFFIX|..] == n[|n| - |ARCHIVE_SUFFIX|..];
      var manifest := Folder(userId) + MANIFEST_NAME;
      assert p[|p| - 1] == 'c' && manifest[|manifest| - 1] == 'n';
    }
  }

  /** The whole call list of a cleanup: the listing, then one remove exactly when at least
      `MAX_BACKUPS` archives were found. */
  lemma {:induction false} CleanupCallList(store: Store, userId: string, userToken: Option<string>)
    ensures var found := ListedArchives(ListUserFiles(store, userId, userToken).result);
            CleanupOldBackups(store, userId, userToken).calls ==
              [List(ScopeOf(userToken), userId)]
              + if found.Some? && |found.value| >= MAX_BACKUPS
                then [Remove(ScopeOf(userToken), DeletionPaths(userId, SelectForDeletion(found.value)))]
                else []
  {
    var c := CleanupOldBackups(store, userId, userToken);
    assert c.calls == [c.calls[0]] + c.calls[1..];
  }

  /** The cleanup only lists and removes: it never asks for a signed URL. */
  lemma {:induction false} CleanupOnlyListsAndRemoves(store: Store, userId: string, userToken: Option<string>)
    ensures forall call :: call in CleanupOldBackups(store, userId, userToken).calls ==> call.List? || call.Remove?
  {
    CleanupCallList(store, userId, userToken);
  }

  /** The selection drawn from archive names yields only archive paths of the user's folder. */
  lemma {:induction false} SelectedPathsShape(userId: string, names: seq<string>)
    requires forall n :: n in names ==> EndsWith(n, ARCHIVE_SUFFIX)
    ensures forall p :: p in DeletionPaths(userId, SelectForDeletion(names)) ==>
              StartsWith(p, Folder(userId)) && EndsWith(p, ARCHIVE_SUFFIX) && p != Folder(userId) + MANIFEST_NAME
  {
    var doomed := SelectForDeletion(names);
    forall n | n in doomed ensures EndsWith(n, ARCHIVE_SUFFIX) {
      assert n in multiset(names);
    }
    ArchivePathsShape(userId, doomed);
  }

  /** The cleanup only ever removes archives of the user's own folder, never the manifest. */
  lemma {:induction false} CleanupRemovesOnlyOwnArchives(store: Store, userId: string, userToken: Option<string>)
    ensures forall call, p :: call in CleanupOldBackups(store, userId, userToken).calls && call.Remove? && p in call.paths ==>
              StartsWith(p, Folder(userId)) && EndsWith(p, ARCHIVE_SUFFIX) && p != Folder(userId) + MANIFEST_NAME
  {
    CleanupCallList(store, userId, userToken);
    var found := ListedArchives(ListUserFiles(store, userId, userToken).result);
    if found.Some? && |found.value| >= MAX_BACKUPS {
      SelectedPathsShape(userId, found.value);
    }
  }

  /** The token fields of `PresignUploadRes` that would hold `None`. */
  function MissingTokenFields(token: Option<string>, latestToken: Option<string>): (fields: seq<string>)
    ensures fields == [] <==> token.Some? && latestToken.Some?
    ensures "token" in fields <==> token.None?
    ensures "latest_token" in fields <==> latestToken.None?
  {
    (if token.None? then ["token"] else []) + (if latestToken.None? then ["latest_token"] else [])
  }

  /** The manifest grant as `presign_upload` uses it: a raised error leaves the empty record. */
  function ManifestRecord(grant: Run<StoreRecord, Fault>): (rec: StoreRecord)
    ensures grant.result.Err? ==> IsEmpty(rec)
    ensures grant.result.Ok? ==> rec == grant.result.value
  {
    if grant.result.Ok? then grant.result.value else EmptyRecord
  }

  /**
   * The grant phase of `presign_upload`, given the outcomes of the upload grant for the data
   * path and of the one for the manifest path: the manifest grant is only asked for when the
   * data grant did not raise, its raised error is swallowed into the empty record, and the
   * answer needs a token from each.
   */
  function GrantPhase(paths: BackupPaths, data: Run<StoreRecord, Fault>, latest: Run<StoreRecord, Fault>): (r: Run<UploadGrant, ServiceError>)
    ensures r.calls == data.calls + (if data.result.Ok? then latest.calls else [])
    ensures r.result.Ok? <==>
              data.result.Ok? && ExtractUploadToken(data.result.value).Some?
              && ExtractUploadToken(ManifestRecord(latest)).Some?
    ensures r.result.Ok? ==>
              r.result.value == UploadGrant(paths.dataPath, ExtractUploadToken(data.result.value).value,
                                            paths.latestPath, ExtractUploadToken(ManifestRecord(latest)).value)
    ensures data.result.Err? ==> r.result == Err(Internal(data.result.error))
    ensures r.result.Err? ==> r.result.error.Internal? && r.result.error.Status() == 500
  {
    match data.result
    case Err(fault) => Run(Err(Internal(fault)), data.calls)
    case Ok(rec) =>
      var token, latestToken := ExtractUploadToken(rec), ExtractUploadToken(ManifestRecord(latest));
      if token.Some? && latestToken.Some? then
        Run(Ok(UploadGrant(paths.dataPath, token.value, paths.latestPath, latestToken.value)), data.calls + latest.calls)
      else
        Run(Err(Internal(InvalidResponse(MissingTokenFields(token, latestToken)))), data.calls + latest.calls)
  }

  /**
   * `presign_upload`: a filename with `/` is refused before anything else; otherwise the
   * cleanup runs first, the new backup is named, and the grant phase follows.
   */
  function PresignUpload(store: Store, userId: string, filename: string, userToken: Option<string>,
                         timestamp: string, hex: string): (r: Run<UploadGrant, ServiceError>)
    ensures '/' in filename <==> r.result == Err(BadRequest("Filename cannot contain slashes"))
    ensures '/' in filename ==> r.calls == []
    ensures '/' !in filename ==>
              var paths := BuildBackupPaths(userId, filename, timestamp, hex);
              var grants := GrantPhase(paths, CreateSignedUploadUrl(store, paths.dataPath, userToken),
                                       CreateSignedUploadUrl(store, paths.latestPath, userToken));
              r.result == grants.result && r.calls == CleanupOldBackups(store, userId, userToken).calls + grants.calls
    ensures r.result.Err? && '/' !in filename ==> r.result.error.Status() == 500
  {
    if '/' in filename then Run(Err(BadRequest("Filename cannot contain slashes")), [])
    else
      var cleanup := CleanupOldBackups(store, userId, userToken);
      var paths := BuildBackupPaths(userId, filename, timestamp, hex);
      var grants := GrantPhase(paths, CreateSignedUploadUrl(store, paths.dataPath, userToken),
                               CreateSignedUploadUrl(store, paths.latestPath, userToken));
      Run(grants.result, cleanup.calls + grants.calls)
  }

  /** A failed manifest grant fails the whole request with a 500 naming `latest_token`, even
      though that grant's own error is swallowed. */
  lemma ManifestGrantFailureFailsRequest(store: Store, userId: string, filename: string, userToken: Option<string>,
                                         timestamp: string, hex: string)
    requires '/' !in filename
    requires CreateSignedUploadUrl(store, BuildBackupPaths(userId, filename, timestamp, hex).latestPath, userToken).result.Err?
    ensures var r := PresignUpload(store, userId, filename, userToken, timestamp, hex);
            r.result.Err? && r.result.error.Status() == 500
            && (CreateSignedUploadUrl(store, BuildBackupPaths(userId, filename, timestamp, hex).dataPath, userToken).result.Ok? ==>
                  r.result.error.cause.InvalidResponse? && "latest_token" in r.result.error.cause.fields)
  {
  }

  /** The cleanup's listing is the first store call; the data grant is the first grant and the
      manifest grant the last call. */
  lemma {:induction false} GrantOrder(store: Store, userId: string, filename: string, userToken: Option<string>,
                                      timestamp: string, hex: string)
    requires PresignUpload(store, userId, filename, userToken, timestamp, hex).result.Ok?
    ensures var r := PresignUpload(store, userId, filename, userToken, timestamp, hex);
            var paths := BuildBackupPaths(userId, filename, timestamp, hex);
            var scope := ScopeOf(userToken);
            && r.calls[0] == List(scope, userId)
            && exists i, j :: && 0 <= i < j < |r.calls|
                              && r.calls[i] == SignUpload(scope, paths.dataPath)
                              && r.calls[j] == SignUpload(scope, paths.latestPath)
                              && j == |r.calls| - 1
                              && forall k :: 0 <= k < i ==> !r.calls[k].SignUpload?
  {
    var paths := BuildBackupPaths(userId, filename, timestamp, hex);
    var scope := ScopeOf(userToken);
    var cleanupCalls := CleanupOldBackups(store, userId, userToken).calls;
    var dataCalls := CreateSignedUploadUrl(store, paths.dataPath, userToken).calls;
    var latestCalls := CreateSignedUploadUrl(store, paths.latestPath, userToken).calls;
    PresignCalls(store, userId, filename, userToken, timestamp, hex);
    CleanupNeverSigns(store, userId, userToken);
    SignIsLastCall(store, paths.dataPath, userToken);
    SignIsLastCall(store, paths.latestPath, userToken);
    SignsInOrder(PresignUpload(store, userId, filename, userToken, timestamp, hex).calls,
                 cleanupCalls, dataCalls, latestCalls,
                 List(scope, userId), SignUpload(scope, paths.dataPath), SignUpload(scope, paths.latestPath));
  }

  /** The cleanup starts with its listing and makes no signing request. */
  lemma {:induction false} CleanupNeverSigns(store: Store, userId: string, userToken: Option<string>)
    ensures var calls := CleanupOldBackups(store, userId, userToken).calls;
            && |calls| >= 1 && calls[0] == List(ScopeOf(userToken), userId)
            && forall k :: 0 <= k < |calls| ==> !calls[k].SignUpload?
  {
    var calls := CleanupOldBackups(store, userId, userToken).calls;
    CleanupOnlyListsAndRemoves(store, userId, userToken);
    assert forall k :: 0 <= k < |calls| ==> calls[k] in calls;
  }

  /** A granted upload request made the cleanup's calls, then both grants' calls. */
  lemma {:induction false} PresignCalls(store: Store, userId: string, filename: string, userToken: Option<string>,
                                        timestamp: string, hex: string)
    requires PresignUpload(store, userId, filename, userToken, timestamp, hex).result.Ok?
    ensures var paths := BuildBackupPaths(userId, filename, timestamp, hex);
            PresignUpload(store, userId, filename, userToken, timestamp, hex).calls ==
              CleanupOldBackups(store, userId, userToken).calls
              + CreateSignedUploadUrl(store, paths.dataPath, userToken).calls
              + CreateSignedUploadUrl(store, paths.latestPath, userToken).calls
  {
    assert '/' !in filename;
    var paths := BuildBackupPaths(userId, filename, timestamp, hex);
    var data := CreateSignedUploadUrl(store, paths.dataPath, userToken).calls;
    var latest := CreateSignedUploadUrl(store, paths.latestPath, userToken).calls;
    var grants := GrantPhase(paths, CreateSignedUploadUrl(store, paths.dataPath, userToken),
                             CreateSignedUploadUrl(store, paths.latestPath, userToken));
    var cleanup := CleanupOldBackups(store, userId, userToken).calls;
    assert PresignUpload(store, userId, filename, userToken, timestamp, hex).calls == cleanup + grants.calls;
    assert grants.result.Ok? && grants.calls == data + latest;
    assert cleanup + (data + latest) == cleanup + data + latest;
  }

  /** Three phases of calls in a row, the first without signing requests and the second with
      a signing request only at its end: that one is the first signing request of all. */
  lemma {:induction false} SignsInOrder(calls: seq<StoreCall>, a: seq<StoreCall>, b: seq<StoreCall>, c: seq<StoreCall>,
                                        first: StoreCall, x: StoreCall, y: StoreCall)
    requires calls == a + b + c
    requires |a| >= 1 && a[0] == first && forall k :: 0 <= k < |a| ==> !a[k].SignUpload?
    requires |b| >= 1 && b[|b| - 1] == x && forall k :: 0 <= k < |b| - 1 ==> !b[k].SignUpload?
    requires |c| >= 1 && c[|c| - 1] == y
    ensures && calls[0] == first
            && exists i, j :: && 0 <= i < j < |calls|
                              && calls[i] == x
                              && calls[j] == y
                              && j == |calls| - 1
                              && forall k :: 0 <= k < i ==> !calls[k].SignUpload?
  {
    var i, j := |a| + |b| - 1, |calls| - 1;
    assert calls[i] == x && calls[j] == y;
    forall k | 0 <= k < i ensures !calls[k].SignUpload? {
      if k < |a| { assert calls[k] == a[k]; } else { assert calls[k] == b[k - |a|]; }
    }
  }

  /** The signing request is the only signing call an upload grant makes, and its last. */
  lemma {:induction false} SignIsLastCall(store: Store, path: string, userToken: Option<string>)
    ensures var calls := CreateSignedUploadUrl(store, path, userToken).calls;
            && |calls| >= 1 && calls[|calls| - 1] == SignUpload(ScopeOf(userToken), path)
            && forall k :: 0 <= k < |calls| - 1 ==> !calls[k].SignUpload?
  {
    var calls := CreateSignedUploadUrl(store, path, userToken).calls;
    var front := calls[..|calls| - 1];
    forall k | 0 <= k < |calls| - 1 ensures !calls[k].SignUpload? {
      assert calls[k] == front[k];
    }
  }

  /** The manifest's name is kept as it is by sanitising and is not an archive name. */
  lemma ManifestNameIsNoArchive()
    ensures Sanitize(MANIFEST_NAME) == MANIFEST_NAME && !EndsWith(MANIFEST_NAME, ARCHIVE_SUFFIX)
  {
    SanitizeKeepsCleanNames(MANIFEST_NAME);
    assert MANIFEST_NAME[|MANIFEST_NAME| - 1] != ARCHIVE_SUFFIX[|ARCHIVE_SUFFIX| - 1];
  }

  /** A filename that itself ends in "latest.json" makes the data grant delete before it asks,
      like the manifest grant: the pre-delete rule looks only at the path's ending. */
  lemma {:induction false} ManifestNamedUploadIsPreDeleted(store: Store, userId: string, userToken: Option<string>,
                                                           timestamp: string, hex: string)
    ensures var dataPath := BuildBackupPaths(userId, MANIFEST_NAME, timestamp, hex).dataPath;
            CreateSignedUploadUrl(store, dataPath, userToken).calls
              == [Remove(ScopeOf(userToken), [dataPath]), SignUpload(ScopeOf(userToken), dataPath)]
  {
    var dataPath := BuildBackupPaths(userId, MANIFEST_NAME, timestamp, hex).dataPath;
    ManifestNamedDataPath(userId, timestamp, hex);
    var calls := CreateSignedUploadUrl(store, dataPath, userToken).calls;
    assert calls == calls[..|calls| - 1] + [calls[|calls| - 1]];
  }

  /** The data path built for a file named "latest.json" ends in "latest.json". */
  lemma {:induction false} ManifestNamedDataPath(userId: string, timestamp: string, hex: string)
    ensures EndsWith(BuildBackupPaths(userId, MANIFEST_NAME, timestamp, hex).dataPath, MANIFEST_SUFFIX)
  {
    var p := BuildBackupPaths(userId, MANIFEST_NAME, timestamp, hex);
    ManifestNameIsNoArchive();
    var front := userId + "/" + timestamp + "-" + hex + "-";
    assert p.dataPath == front + MANIFEST_NAME;
    assert p.dataPath[|front|..] == MANIFEST_NAME == MANIFEST_SUFFIX;
  }

  /**
   * `presign_download`: the ownership guard first (no store call on refusal), then one
   * signing call; the answer is the record's `signedURL`, whose absence is a 500.
   */
  function PresignDownload(store: Store, userId: string, path: string, seconds: int,
                           userToken: Option<string>): (r: Run<string, ServiceError>)
    ensures !StartsWith(path, Folder(userId)) <==> r.result.Err? && r.result.error.Forbidden?
    ensures !StartsWith(path, Folder(userId)) ==>
              r.result == Err(ValidateDownloadPath(path, userId).value) && r.calls == []
    ensures StartsWith(path, Folder(userId)) ==> r.calls == [SignUrl(ScopeOf(userToken), path, seconds)]
    ensures r.result.Ok? <==>
              StartsWith(path, Folder(userId))
              && CreateSignedDownloadUrl(store, path, seconds, userToken).result.Ok?
              && CreateSignedDownloadUrl(store, path, seconds, userToken).result.value.signedURL.Some?
    ensures r.result.Ok? ==>
              Some(r.result.value) == store.signUrl(ScopeOf(userToken), path, seconds).value.signedURL
    ensures StartsWith(path, Folder(userId)) && CreateSignedDownloadUrl(store, path, seconds, userToken).result.Err? ==>
              r.result == Err(Internal(CreateSignedDownloadUrl(store, path, seconds, userToken).result.error))
    ensures StartsWith(path, Folder(userId)) && CreateSignedDownloadUrl(store, path, seconds, userToken).result.Ok?
            && CreateSignedDownloadUrl(store, path, seconds, userToken).result.value.signedURL.None? ==>
              r.result == Err(Internal(MissingKey("signedURL")))
    ensures r.result.Err? && StartsWith(path, Folder(userId)) ==> r.result.error.Status() == 500
  {
    match ValidateDownloadPath(path, userId)
    case Some(refusal) => Run(Err(refusal), [])
    case None =>
      var grant := CreateSignedDownloadUrl(store, path, seconds, userToken);
      match grant.result
      case Err(fault) => Run(Err(Internal(fault)), grant.calls)
      case Ok(rec) =>
        match rec.signedURL
        case None => Run(Err(Internal(MissingKey("signedURL"))), grant.calls)
        case Some(url) => Run(Ok(url), grant.calls)
  }

  /** Both objects `presign_upload` hands out lie in the user's folder, so the download guard
      lets the same user fetch them back. */
  lemma {:induction false} BuiltPathsPassOwnershipGuard(userId: string, filename: string, timestamp: string, hex: string)
    ensures ValidateDownloadPath(BuildBackupPaths(userId, filename, timestamp, hex).dataPath, userId).None?
    ensures ValidateDownloadPath(BuildBackupPaths(userId, filename, timestamp, hex).latestPath, userId).None?
  {
    var p := BuildBackupPaths(userId, filename, timestamp, hex);
    assert p.latestPath[..|Folder(userId)|] == Folder(userId);
  }

  /** Downloading what `presign_upload` handed out, as the same user: exactly one signing
      call on that path, and the answer is a URL or a server error, never a refusal. */
  lemma {:induction false} BuiltPathsCanBeDownloaded(store: Store, userId: string, filename: string, timestamp: string,
                                                     hex: string, seconds: int, userToken: Option<string>)
    ensures var path := BuildBackupPaths(userId, filename, timestamp, hex).dataPath;
            var r := PresignDownload(store, userId, path, seconds, userToken);
            && r.calls == [SignUrl(ScopeOf(userToken), path, seconds)]
            && (r.result.Err? ==> r.result.error.Status() == 500)
    ensures var path := BuildBackupPaths(userId, filename, timestamp, hex).latestPath;
            var r := PresignDownload(store, userId, path, seconds, userToken);
            && r.calls == [SignUrl(ScopeOf(userToken), path, seconds)]
            && (r.result.Err? ==> r.result.error.Status() == 500)
  {
    BuiltPathsPassOwnershipGuard(userId, filename, timestamp, hex);
  }

  /** No user can pass the guard with another user's object, as long as user ids hold no `/`. */
  lemma {:induction false} OtherUsersObjectsAreRefused(userId: string, other: string, name: string)
    requires '/' !in userId && '/' !in other && userId != other
    ensures ValidateDownloadPath(Folder(other) + name, userId).Some?
  {
    var path := Folder(other) + name;
    assert path[|other|] == '/';
    if |userId| < |other| {
      assert path[|userId|] == other[|userId|] != Folder(userId)[|userId|];
    } else if |other| < |userId| {
      assert |Folder(userId)| > |path| || Folder(userId)[|other|] == userId[|other|] != path[|other|];
    } else {
      assert path[..|other|] == other;
    }
  }

  /** The prefix test is literal: a path that merely names the user deeper down is refused. */
  lemma NestedUserNameIsRefused()
    ensures ValidateDownloadPath("other/u1/x.db.enc", "u1").Some?
    ensures ValidateDownloadPath("u1/x.db.enc", "u1").None?
    ensures ValidateDownloadPath("u1x/x.db.enc", "u1").Some?
  {
    assert "other/u1/x.db.enc"[0] != "u1/"[0];
    assert "u1x/x.db.enc"[2] != "u1/"[2];
  }
}
