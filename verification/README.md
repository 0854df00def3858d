# Backup-credential service: a Dafny model

The service hands a mobile client short-lived credentials for its encrypted database backups
in an object store. A client authenticates with a bearer token. It then asks either for a pair
of upload grants or for a signed download URL. An upload grant covers a freshly named backup
archive and the user's `latest.json` manifest. Before every upload the service deletes all but
the two newest archives of the user once there are three or more.

This project models that core as pure functions:

- `Wrappers` (`wrappers.dfy`): `Option` and `Result`.
- `Text` (`text.dfy`): the Python string operations the code relies on: `startswith`,
  `endswith`, `find`, `rfind`, `split`, `replace`, `lower` (ASCII), `strip` with Python's
  white-space set, and Python's string ordering.
- `ObjectStore` (`object_store.dfy`): the shapes of the store's replies and of its raised
  errors. The store itself is an oracle: a datatype of four total functions, one per kind of
  call (list, remove, sign an upload, sign a URL), each taking the client scope. Every
  operation returns its result together with the list of store calls it made, in order.
- `Repository` (`repository.py`'s methods): each method turns a store reply into a value, a
  classified error of one of four kinds (RLS violation, missing bucket, missing object,
  unclassified), or the client's own exception raised again unchanged. The upload grant for the
  manifest first removes the old manifest, so it makes two store calls.
- `Naming` (`build_backup_paths`): the clock reading and the random hex are parameters.
- `StableSort`: a stable insertion sort, generic in its key. It is proved sorted, a
  permutation, and stable. Stability means equal keys keep their input order. It is also
  proved to be the only such ordering.
- `Retention` (`extract_timestamp`, and the selection inside `cleanup_old_backups`).
- `UploadToken` (`_extract_upload_token`, with the query split as `urlparse`/`parse_qs` do).
- `Service` (`validate_download_path`, `cleanup_old_backups`, `presign_upload`,
  `presign_download`).
- `Auth` (`get_user_token`, `get_user_id`): the identity provider is an oracle from token to
  reply.

`presign_upload` calls the manifest grant inside a `try` that swallows any exception and
leaves an empty record in its place (app/features/storage/service.py:213-220). An empty record
carries no token, so the manifest token is `None`, while the response type declares
`latest_token` as `str` (app/features/storage/schemas.py:26-31). Building that response fails,
and the enclosing handler turns the failure into a 500. So a failing manifest grant still fails
the whole request (`Service.ManifestGrantFailureFailsRequest`).

## Model

| member | source | states |
|---|---|---|
| Repository.DeleteFiles | app/features/storage/repository.py:207-251 | an empty path list returns `[]` without calling the store; otherwise exactly one remove call with the caller's scope; a returned list is passed back as is and a non-list reply reads as `[]`; only a raised error fails: a storage error keeps its message and code and is an RLS violation iff the message mentions RLS, a missing bucket iff not RLS and the code is `NoSuchBucket` or the message says "does not exist", never "not found"; any other exception propagates unchanged |
| Repository.ListUserFiles | app/features/storage/repository.py:153-205 | exactly one list call on the user's folder; a returned list is passed through, any other value reads as `[]`; a raised storage error is an empty folder iff its code is `NoSuchKey` or its message says "not found"/"does not exist" in any case; every other raised error fails, classified like `delete_files`'s (RLS, then missing bucket, never "not found") or propagated unchanged |
| Repository.MissingBucketCanListAsEmpty | app/features/storage/repository.py:186-199 | the empty-folder test runs before the bucket test, so a `NoSuchBucket` error whose message says "not found" lists as an empty folder |
| Repository.CreateSignedUploadUrl | app/features/storage/repository.py:31-56 | the last call is the upload grant for the path; it is preceded by a remove of that same path exactly when the path ends with `latest.json`, and by nothing otherwise; the result is the store's record iff that record has no truthy `error`/`statusCode`; a raised error propagates unchanged; an error record is raised with its message and code, classified RLS first, then bucket (`NoSuchBucket`/`InvalidRequest`), then unclassified, never "not found" |
| Repository.PreDeleteIsDeleteFiles | app/features/storage/repository.py:44-53 | for a path ending in `latest.json`, the calls before the grant are exactly those `delete_files` makes for that one path |
| Repository.UploadIgnoresPreDelete | app/features/storage/repository.py:44-53 | the code never reads the remove call's reply: for the same grant reply, the result is the same whatever the remove answers or raises |
| Repository.DuplicateIsRaised | app/features/storage/repository.py:253-280 | a "Duplicate" error record is raised as unclassified like any other; there is no special case for it |
| Repository.ObjectExists | app/features/storage/repository.py:58-106 | one 120-second URL probe; "absent" iff the probe raised a storage error with code `NoSuchKey`, a case-sensitive "does not exist" or any-case "not found", or returned an empty record, or returned an error record whose code or message says not found; a clean, non-empty probe is "present" and is returned; an error record not read as absence is raised, unclassified, with its message and code; a raised non-absence error propagates unchanged |
| Repository.NotFoundDownloadProbesAbsent | app/features/storage/repository.py:58-151 | a download grant refused as "object not found" means the existence probe of the same path reports it absent, when the store answers both alike |
| Repository.ListAndDeleteRaiseAlike | app/features/storage/repository.py:153-251 | a list and a remove that raise the same exception raise the same fault, unless the listing reads it as an empty folder |
| Repository.CreateSignedDownloadUrl | app/features/storage/repository.py:108-151 | one signing call with the requested lifetime; the record is returned iff it has no truthy `error`/`statusCode`; a raised error propagates; an error record is raised classified RLS, then bucket, then not-found (`NoSuchKey`, `not_found` or "not found" in any case), then unclassified, each iff the earlier tests fail |
| Naming.Sanitize | app/features/storage/service.py:40-41 | same length as the filename; every `/` becomes `_` and every other character is kept in place |
| Naming.BuildBackupPaths | app/features/storage/service.py:29-59 | the manifest path is always `user_id/latest.json`; for an archive filename the data path is exactly `user_id/ts-hex.db.enc`, the filename dropped; otherwise it is exactly `user_id/ts-hex-` followed by the sanitised filename |
| Naming.BackupNameHasNoSeparator | app/features/storage/service.py:40-54 | with a clock reading free of `/`, the data object's name holds no `/` |
| Naming.ArchiveNameIffArchiveUpload | app/features/storage/service.py:50-54 | the new object ends with `.db.enc`, and so counts for retention, iff the sanitised filename does |
| Retention.ExtractTimestampShape | app/features/storage/service.py:98-108 | the key parser is total: it cuts the name at the last occurrence of `.db.enc` (keeps it whole when there is none); it then drops the final `-` segment exactly when that segment is 8 characters long, and otherwise keeps the cut name |
| Retention.ArchiveKeyRoundTrip | app/features/storage/service.py:98-106 | the key of `ts-hex.db.enc` with an 8-character lower-case hex suffix is exactly `ts` |
| Retention.NewArchiveSortsByClock | app/features/storage/service.py:44-54 | a backup uploaded as an archive is named with the archive suffix and sorts by the clock reading it was named with |
| Retention.ArchiveNames | app/features/storage/service.py:135-137 | a name is kept iff a listed object has that string name and it ends with `.db.enc`; `latest.json` and other uploads never are |
| Retention.ArchiveNamesOfOne | app/features/storage/service.py:135-137 | a single entry contributes its name iff it is a string ending with `.db.enc`, and nothing otherwise |
| Retention.ArchiveNamesAppend | app/features/storage/service.py:135-137 | filtering two parts of a listing and concatenating equals filtering the whole, so the names keep listing order and repetitions |
| Retention.SelectForDeletion | app/features/storage/service.py:139-150 | fewer than 3 archives select nothing; otherwise exactly n − 2 are selected, all drawn from the archives |
| Retention.SelectionIsOldestFirst | app/features/storage/service.py:146-150 | the selected names are in ascending order of their timestamp key |
| Retention.SelectionIsNoNewerThanKept | app/features/storage/service.py:146-150 | no selected name has a timestamp key above that of any archive left in place |
| Retention.SelectionKeepsListingOrder | app/features/storage/service.py:110-150 | for every key, the selected names with that key are the first ones of the listing's names with that key, in listing order |
| Retention.DeletionPaths | app/features/storage/service.py:153-155 | one path per selected name, each `user_id/` followed by the name, in order |
| Retention.SelectionMatchesAnyStableSort | app/features/storage/service.py:110-150 | the selection is the first n − 2 elements of any stable ascending sort of the archives, so it does not depend on the sort's implementation |
| Retention.SecondCleanupDeletesNothing | app/features/storage/service.py:139-162 | after removing the selection, at most 2 archives are left and selecting again on them selects nothing |
| Retention.OldestOfThreeIsSelected | app/features/storage/service.py:146-150 | of three archives named at distinct clock readings, the one named earliest is the only one selected, in every order of the listing |
| StableSort.SortBy | app/features/storage/service.py:110 | the result is sorted by key, a permutation of the input, and keeps the input order among equal keys |
| StableSort.SortFront | app/features/storage/service.py:146-150 | the first part of a stable sort, cut anywhere, is sorted by key, no element of it has a key above any element left over, and among equal keys it keeps the input order |
| StableSort.StableOrderIsUnique | app/features/storage/service.py:110 | two sorted sequences with the same elements of every key in the same order are equal |
| UploadToken.BeforeFragment | app/features/storage/service.py:299 | the URL is cut just before its first `#`, or kept whole when it has none |
| UploadToken.QueryOf | app/features/storage/service.py:299 | the query is what follows the first `?` of the URL's part before the first `#`; it is empty when that part has no `?`, and never holds `#` |
| UploadToken.FieldValue | app/features/storage/service.py:300 | a field yields a value iff its first `=` is preceded by the parameter name and followed by at least one character; field = name, `=`, value |
| UploadToken.FirstValue | app/features/storage/service.py:300-301 | the value comes from the first field that yields one; `None` iff no field does |
| UploadToken.QueryToken | app/features/storage/service.py:296-301 | a token is found iff some `&`-separated field of the query reads `token=v` with `v` non-empty, and it is then the `v` of the first such field; it holds no `&` or `#` |
| UploadToken.ExtractUploadToken | app/features/storage/service.py:289-301 | a string `token` key is returned as is and a non-string one gives `None`, with no URL fallback; without the key, the token is the query token of a non-empty `signed_url`, else of a non-empty `signedURL`, else `None`; the empty record gives `None` |
| UploadToken.QueryTokenRoundTrip | app/features/storage/service.py:296-301 | a signed URL `base?token=t` gives back `t` |
| UploadToken.BlankTokenFieldIsSkipped | app/features/storage/service.py:300-301 | a blank `token=` field is skipped in favour of a later non-blank one |
| UploadToken.TokenKeyWins | app/features/storage/service.py:293-295 | a string `token` key wins whatever signed URL the record also carries |
| UploadToken.TokenFromSignedUrl | app/features/storage/service.py:296-301 | for a signed URL of the form `base?token=t` (no `?` or `#` in `base`): without a `token` key, the `t` of `signed_url` is taken, or that of `signedURL` when `signed_url` is missing or empty |
| Service.ValidateDownloadPath | app/features/storage/service.py:61-80 | passes iff the path starts with `user_id/`; otherwise a 403 with detail "Path must start with user_id/" |
| Service.BuiltPathsPassOwnershipGuard | app/features/storage/service.py:49-57 | both objects an upload grant names pass the download guard for the same user |
| Service.BuiltPathsCanBeDownloaded | app/features/storage/service.py:245-287 | downloading either object an upload grant names, as the same user, makes exactly one signing call on that path and ends in a URL or a 500, never a 403 |
| Service.OtherUsersObjectsAreRefused | app/features/storage/service.py:72-80 | for user ids without `/`, no object in another user's folder passes the guard |
| Service.NestedUserNameIsRefused | app/features/storage/service.py:72-73 | the prefix test is literal: `other/u1/…` and `u1x/…` are refused for `u1`, `u1/…` is accepted |
| Service.ListedArchives | app/features/storage/service.py:132-137 | archive names are found iff the listing did not raise and every listed name is a string, and they are then the listing's archive names |
| Service.RemoveOldArchives | app/features/storage/service.py:139-167 | below 3 archives nothing is called and 0 is reported; otherwise exactly one remove of the selected archives' paths; the count is positive iff that remove did not raise, and is then n − 2 |
| Service.CleanupOldBackups | app/features/storage/service.py:112-167 | the first call lists the user's folder; a raising listing or a non-string name ends the cleanup with 0 and no further call; otherwise the count and the further calls are those of the removal step on the archives found |
| Service.CleanupCallList | app/features/storage/service.py:130-160 | the cleanup's calls are the listing, followed by one remove exactly when at least 3 archives were found |
| Service.CleanupOnlyListsAndRemoves | app/features/storage/service.py:130-167 | the cleanup never asks for a signed URL |
| Service.CleanupRemovesOnlyOwnArchives | app/features/storage/service.py:134-160 | every path the cleanup removes lies in the user's folder, ends with `.db.enc`, and is never the manifest |
| Service.MissingTokenFields | app/features/storage/schemas.py:23-31 | the response fields that would receive `None`: `token` iff the data token is missing, `latest_token` iff the manifest token is missing |
| Service.ManifestRecord | app/features/storage/service.py:214-220 | a raised manifest grant leaves the empty record; a returned one is used as is |
| Service.GrantPhase | app/features/storage/service.py:206-243 | given the two upload grants' outcomes: the calls are the data grant's, then (only if that succeeded) the manifest grant's; the answer names both paths and both tokens and exists iff the data grant succeeded and a token is found in its record and in the manifest record (the empty record when the manifest grant raised); a raising data grant is a 500 carrying its error; every failure is a 500 |
| Service.PresignUpload | app/features/storage/service.py:169-243 | a filename with `/` is a 400 before any store call; otherwise the cleanup runs first, the paths are built, and the answer and remaining calls are those of the grant phase on the built paths; every failure after the filename check is a 500 |
| Service.PresignCalls | app/features/storage/service.py:195-218 | a successful request made the cleanup's calls, then the data grant's, then the manifest grant's |
| Service.ManifestGrantFailureFailsRequest | app/features/storage/service.py:214-234 | a raised manifest grant still fails the request with a 500, naming `latest_token` when the data grant succeeded |
| Service.GrantOrder | app/features/storage/service.py:195-218 | on success the first call is the cleanup's listing, the data grant is the first grant, and the manifest grant is the last call |
| Service.ManifestNamedUploadIsPreDeleted | app/features/storage/repository.py:44-54 | a file uploaded under the name `latest.json` gets a data path ending in `latest.json`, so its own grant is preceded by a remove of that path |
| Service.PresignDownload | app/features/storage/service.py:245-287 | a path outside the user's folder is refused with exactly the guard's 403 and no store call; otherwise exactly one signing call with the requested lifetime; the answer is the record's `signedURL` and exists iff the grant succeeded and carries one; a failed grant is a 500 carrying its fault, and a grant without `signedURL` is a 500 naming that missing key |
| Auth.SchemeEndsAtFirstSpace | app/core/auth.py:36 | after the scheme check, the header's first space is its seventh character, so `split(" ", 1)[1]` never fails |
| Auth.GetUserToken | app/core/auth.py:67-97 | "Missing authorization header" iff the header is missing or empty; a header whose lower-cased form lacks the `bearer ` prefix is the format error; a token is returned iff the header is at least 7 long, its first 7 characters lower-case to `bearer ` and the rest is not all white space, and it is then the header minus its first 7 characters; "Empty token" iff the same prefix test holds and the rest is all white space; every refusal is a 401 |
| Auth.GetUserId | app/core/auth.py:9-64 | a header refused by the token checks is refused the same way, with no provider call; otherwise exactly one provider call with the extracted token; the user id is the provider's user; a reply without a user, or a raising provider, is "Invalid token" |
| Auth.UserIdImpliesToken | app/core/auth.py:24-42 | a header that yields a user id also yields a token, and that token is the one sent to the provider |
| Auth.AnySchemeCase | app/core/auth.py:85-97 | any 7-character scheme that lower-cases to `bearer `, followed by a non-blank token, yields that token verbatim |
| Auth.UpperCaseScheme | app/core/auth.py:85 | `BEARER ` is accepted and the token is kept verbatim |
| Auth.CapitalisedScheme | app/core/auth.py:85 | `Bearer ` is accepted and the token is kept verbatim |
| Auth.BlankTokenIsEmpty | app/core/auth.py:36-42 | any spelling of the scheme that lower-cases to `bearer `, followed by nothing or only white space, is "Empty token" |
| Auth.OtherSchemesAreMalformed | app/core/auth.py:30-34 | `Bearer` without its space and `Basic …` are format errors |
| Text.StripEmptyIffBlank | app/core/auth.py:38 | `strip()` leaves nothing exactly when every character is Python white space |

## Left out

- Store and identity-provider clients: building them is not modelled. That covers
  `_get_user_client`, its `ValueError` when no anon key is configured, and the shared global
  client. Every store reply and provider reply comes from an oracle that answers each call
  independently of earlier calls.
- The clock and the random source of `build_backup_paths` are parameters. `IsRandomHex`
  states what `secrets.token_hex(4)` produces. The ISO timestamp format itself is not
  modelled, and no property needs it.
- Raised error texts: a classified error keeps its kind and the store's message and code, not
  the formatted sentence. HTTP 500 details keep the cause, not the `str(e)` text.
- `presign_download`'s `seconds` is passed through unchanged. The request schema's bound of
  1 to 3600 is checked before the service is reached, and no property here depends on it.
- UploadToken.QueryToken: no percent-decoding and no `+` to space in names or values, so a
  percent-encoded parameter name is not recognised. Only `&` separates fields. The URL parts
  before the query are not checked: `urlparse` raises `ValueError` on a host with an unbalanced
  `[` or `]` (such as `https://[x/o?token=t`), which makes `presign_upload` a 500, while the
  model reads the token from such a URL.
- UploadToken.ExtractUploadToken: the non-dictionary guard is not modelled. Every signing reply
  in this model is a record.
- Auth.GetUserToken: `str.lower` is modelled on ASCII letters only. This is exact for the
  `bearer ` test, since no other character lower-cases into that prefix.
- Listing entries: only the `name` key is modelled, as a string, as absent, or as some other
  value (`BadName`). A non-dictionary entry is not modelled.
- Store-reply fields: `error`, `message`, `code`, `signed_url` and `signedURL` are modelled as
  strings or absent, and `statusCode` as an integer or absent, truthy iff non-zero. A
  `statusCode` that arrives as a string, even `"0"`, is truthy in Python; the model cannot
  express that. A JSON `null` in a string key is treated like an absent key.
- UploadToken.QueryOf: `urlparse` deletes every tab, CR and LF from the URL before splitting
  it; the model does not, so a signed URL holding those characters may give a different query.
- Logging, FastAPI routing and dependency wiring, startup, configuration, and the unused
  `LatestJsonAlreadyExistsError` are not modelled.
- The tests under `tests/` describe an earlier version of the code (a `backups/` prefix,
  tokens nested under `data`, other messages and routes) and are not followed.
- Retention: the selection depends on the listing alone, so two runs on the same listing select
  the same names; this needs no lemma, since `SelectForDeletion` is a function.
