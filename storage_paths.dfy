/** The `"bucket/key"` storage paths taken by `download_file` and
    `upload_file`, and the local file that a download is written to. */
module StoragePaths {
  import opened PyStrings

  /** A bucket and an object key within it. */
  datatype StoragePath = StoragePath(bucket: string, key: string)

  /** `s3_path.split('/', 1)`: the bucket is everything before the first
      `/` and the key everything after it; without a `/` the whole text is
      the bucket and the key is empty (no error is raised). */
  function ParseStoragePath(s3Path: string): (p: StoragePath)
    ensures '/' !in p.bucket
    ensures '/' in s3Path ==> p.bucket + "/" + p.key == s3Path
    ensures '/' !in s3Path ==> p.bucket == s3Path && p.key == ""
  {
    var parts := SplitOnce(s3Path, '/');
    StoragePath(parts[0], if |parts| > 1 then parts[1] else "")
  }

  /** Writing a bucket without `/` and any key as `bucket/key` and parsing
      it back recovers both, even when the key itself contains `/`. */
  lemma {:induction false} ParseJoinedPath(bucket: string, key: string)
    requires '/' !in bucket
    ensures ParseStoragePath(bucket + "/" + key) == StoragePath(bucket, key)
  {
    var s := bucket + "/" + key;
    var p := ParseStoragePath(s);
    assert s[|bucket|] == '/';
    assert p.bucket + "/" + p.key == s;
    assert |p.bucket| >= |bucket|;
    assert s[..|bucket| + 1][|bucket|] == '/';
    assert |p.bucket| <= |bucket|;
    assert p.bucket == s[..|p.bucket|] == bucket;
    assert p.key == s[|bucket| + 1..] == key;
  }

  /** The name a download is saved under when no local path is given. */
  const FallbackName: string := "downloaded_file"

  /** The local path a download writes to: `local_path` when it is
      non-empty; otherwise the key's base name, or the fallback name for an
      empty key. A derived name is always a plain file name in the current
      directory. */
  function LocalTarget(key: string, localPath: string): (name: string)
    ensures localPath != "" ==> name == localPath
    ensures localPath == "" && key == "" ==> name == FallbackName
    ensures localPath == "" && key != "" ==>
      |name| <= |key| && key[|key| - |name|..] == name &&
      (|name| < |key| ==> key[|key| - |name| - 1] == '/')
    ensures localPath == "" ==> '/' !in name
  {
    if localPath != "" then localPath
    else if key != "" then Basename(key)
    else FallbackName
  }

  /** What `download_file` asks for: the object to fetch, the local file
      to write, and the directory that is created first when it is
      non-empty and missing. */
  datatype DownloadRequest = DownloadRequest(source: StoragePath, localPath: string, parentDir: string)

  function Download(s3Path: string, localPath: string): (r: DownloadRequest)
    ensures r.parentDir <= r.localPath
    ensures localPath == "" ==> r.parentDir == ""
  {
    var source := ParseStoragePath(s3Path);
    var target := LocalTarget(source.key, localPath);
    DownloadRequest(source, target, Dirname(target))
  }

  /** A download with no local path of an object under nested folders goes
      to the object's file name in the current directory, and creates no
      directory. */
  lemma DownloadToBaseName(bucket: string, folders: string, file: string)
    requires '/' !in bucket && '/' !in file && file != ""
    ensures Download(bucket + "/" + folders + "/" + file, "")
         == DownloadRequest(StoragePath(bucket, folders + "/" + file), file, "")
  {
    assert bucket + "/" + folders + "/" + file == bucket + "/" + (folders + "/" + file);
    ParseJoinedPath(bucket, folders + "/" + file);
    var key := folders + "/" + file;
    var name := Basename(key);
    assert key[|key| - |file| - 1] == '/';
    assert key[|key| - |file|..] == file;
  }

  /** A download to `dir/file` creates `dir` first. */
  lemma DownloadCreatesParent(s3Path: string, dir: string, file: string)
    requires dir != [] && dir[|dir| - 1] != '/' && '/' !in file
    ensures Download(s3Path, dir + "/" + file).parentDir == dir
  {
    DirnameOfNestedPath(dir, file);
  }

  /** A key naming a "folder" (ending in `/`) has an empty base name, so a
      download of it with no local path gets an empty local path, not the
      fallback name. */
  lemma FolderKeyGivesEmptyName(bucket: string, folder: string)
    requires '/' !in bucket
    ensures Download(bucket + "/" + folder + "/", "").localPath == ""
  {
    ParseJoinedPath(bucket, folder + "/");
  }

  /** What `upload_file` asks for: the local file to read and the object
      to store it under. */
  datatype UploadRequest = UploadRequest(localPath: string, target: StoragePath)

  function Upload(s3Path: string, localPath: string): (r: UploadRequest)
    ensures r.localPath == localPath
    ensures '/' !in r.target.bucket
    ensures '/' in s3Path ==> r.target.bucket + "/" + r.target.key == s3Path
    ensures '/' !in s3Path ==> r.target == StoragePath(s3Path, "")
  {
    UploadRequest(localPath, ParseStoragePath(s3Path))
  }
}
