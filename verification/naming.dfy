/** Object names for a new backup and for the user's manifest (`build_backup_paths`). */
module Naming {
  import opened Text

  /** The suffix of an encrypted backup archive; only such objects count for retention. */
  const ARCHIVE_SUFFIX := ".db.enc"

  /** The manifest object's name inside the user's folder. */
  const MANIFEST_NAME := "latest.json"

  /** Where a new backup and the manifest are written. */
  datatype BackupPaths = BackupPaths(dataPath: string, latestPath: string)

  /** Four random bytes as `secrets.token_hex(4)` renders them. */
  predicate IsRandomHex(hex: string) {
    |hex| == 8 && forall i :: 0 <= i < |hex| ==> hex[i] in "0123456789abcdef"
  }

  /** Every `/` of the filename becomes `_`. */
  function Sanitize(filename: string): (safe: string)
    ensures |safe| == |filename| && '/' !in safe
    ensures forall i :: 0 <= i < |filename| ==> safe[i] == (if filename[i] == '/' then '_' else filename[i])
  {
    ReplaceChar(filename, '/', '_')
  }

  /** The data object's name inside the user's folder, built from the clock reading `timestamp`
      (ISO-8601 with `:` replaced by `-`) and the random suffix `hex`. */
  function BackupName(filename: string, timestamp: string, hex: string): string {
    var safe := Sanitize(filename);
    if EndsWith(safe, ARCHIVE_SUFFIX) then timestamp + "-" + hex + ARCHIVE_SUFFIX
    else timestamp + "-" + hex + "-" + safe
  }

  /** `build_backup_paths`, with the clock and the random source passed in. */
  function BuildBackupPaths(userId: string, filename: string, timestamp: string, hex: string): (p: BackupPaths)
    ensures p.latestPath == userId + "/" + MANIFEST_NAME
    ensures StartsWith(p.dataPath, userId + "/")
    ensures EndsWith(Sanitize(filename), ARCHIVE_SUFFIX) ==>
              p.dataPath == userId + "/" + timestamp + "-" + hex + ARCHIVE_SUFFIX
    ensures !EndsWith(Sanitize(filename), ARCHIVE_SUFFIX) ==>
              p.dataPath == userId + "/" + timestamp + "-" + hex + "-" + Sanitize(filename)
  {
    var name := BackupName(filename, timestamp, hex);
    assert (userId + "/" + name)[..|userId + "/"|] == userId + "/";
    BackupPaths(userId + "/" + name, userId + "/" + MANIFEST_NAME)
  }

  /** A filename without `/` is kept as it is. */
  lemma SanitizeKeepsCleanNames(filename: string)
    requires '/' !in filename
    ensures Sanitize(filename) == filename
  {
  }

  /** Nothing in the data name can move it out of the user's folder: with a clock reading and
      random suffix free of `/`, the name holds no `/`. */
  lemma BackupNameHasNoSeparator(filename: string, timestamp: string, hex: string)
    requires '/' !in timestamp && IsRandomHex(hex)
    ensures '/' !in BackupName(filename, timestamp, hex)
  {
    assert '/' !in hex;
    assert '/' !in ARCHIVE_SUFFIX;
    assert '/' !in Sanitize(filename);
  }

  /** A new backup counts towards retention exactly when the uploaded filename was an archive:
      its name ends with the archive suffix iff the sanitised filename does. */
  lemma {:induction false} ArchiveNameIffArchiveUpload(filename: string, timestamp: string, hex: string)
    ensures EndsWith(BackupName(filename, timestamp, hex), ARCHIVE_SUFFIX) <==> EndsWith(Sanitize(filename), ARCHIVE_SUFFIX)
  {
    var safe := Sanitize(filename);
    var name := BackupName(filename, timestamp, hex);
    if EndsWith(safe, ARCHIVE_SUFFIX) {
      assert name[|name| - |ARCHIVE_SUFFIX|..] == ARCHIVE_SUFFIX;
    } else {
      // the `-` before the sanitised filename would fall inside a short suffix, which has none
      assert name == timestamp + "-" + hex + "-" + safe;
      assert name[|name| - |safe| - 1] == '-' && '-' !in ARCHIVE_SUFFIX;
      if EndsWith(name, ARCHIVE_SUFFIX) && |safe| < |ARCHIVE_SUFFIX| {
        assert false;
      }
    }
  }
}
