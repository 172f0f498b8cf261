/** The object key and URL of an upload to S3: the file keeps its
    extension, and the key files it under the directory and the user. The
    bucket calls are parameters: whether the file's stream opens, and the
    URL the bucket gives a key. */
module S3Provider {
  import opened Errors
  import opened Text

  /** `lastIndexOf`: the position of the last `c`, or -1. */
  function LastIndexOf(s: string, c: char): (r: int)
    ensures -1 <= r < |s|
    ensures r == -1 <==> c !in s
    ensures r >= 0 ==> s[r] == c
    ensures forall i :: r < i < |s| ==> s[i] != c
  {
    if s == [] then -1
    else if s[|s| - 1] == c then |s| - 1
    else
      var r := LastIndexOf(s[..|s| - 1], c);
      assert forall i :: 0 <= i < |s| - 1 ==> s[i] == s[..|s| - 1][i];
      r
  }

  /** The extension kept for the stored object: from the last '.' on, dot
      included, or empty when the name is missing or has no dot. */
  function Extension(originalFilename: Option<string>): (extension: string)
    ensures originalFilename.None? || '.' !in originalFilename.value ==> extension == ""
    ensures originalFilename.Some? && '.' in originalFilename.value ==>
      EndsWith(originalFilename.value, extension)
      && |extension| >= 1 && extension[0] == '.' && '.' !in extension[1..]
  {
    if originalFilename.Some? && '.' in originalFilename.value then
      var name := originalFilename.value;
      var k := LastIndexOf(name, '.');
      var extension := name[k..];
      assert forall i :: 1 <= i < |extension| ==> extension[i] == name[k + i];
      extension
    else ""
  }

  /** A name is its stem and its extension. */
  lemma StemAndExtension(stem: string, ext: string)
    requires '.' !in ext
    ensures Extension(Some(stem + "." + ext)) == "." + ext
  {
    var name := stem + "." + ext;
    assert name[|stem|] == '.';
    assert forall i :: |stem| < i < |name| ==> name[i] == ext[i - |stem| - 1];
    assert name[|stem|..] == "." + ext;
  }

  /** `dirName + "/" + userId + "/" + uuid + extension`. */
  function ObjectKey(dirName: string, userId: int, uuid: string, extension: string): string {
    dirName + "/" + LongToDecimal(userId) + "/" + uuid + extension
  }

  /** The key can be taken apart again: split on '/', it gives back the
      directory, the user id and the file name. */
  lemma ObjectKeyParts(dirName: string, userId: int, uuid: string, extension: string)
    requires '/' !in dirName && '/' !in uuid && '/' !in extension
    ensures var parts := SplitAll(ObjectKey(dirName, userId, uuid, extension), '/');
      |parts| == 3 && parts[0] == dirName && parts[2] == uuid + extension
      && parts[1] == LongToDecimal(userId) && SignedValue(parts[1]) == userId
  {
    var id := LongToDecimal(userId);
    var file := uuid + extension;
    assert '/' !in id;
    assert '/' !in file;
    assert ObjectKey(dirName, userId, uuid, extension) == dirName + ['/'] + (id + ['/'] + file);
    SplitAllCons(dirName, '/', id + ['/'] + file);
    SplitAllCons(id, '/', file);
    SplitAllNoSep(file, '/');
    LongToDecimalValue(userId);
  }

  /** `uploadFile`: the key from the name, the user and a fresh UUID; a
      stream that cannot be opened is `FILE_UPLOAD_FAILED`; otherwise the
      bucket's URL for the key. */
  function UploadFile(originalFilename: Option<string>, userId: int, dirName: string, uuid: string,
                      streamOpens: bool, urlOf: string -> string): (r: Result<string>)
    ensures !streamOpens <==> r == Err(FileUploadFailed)
    ensures r.Ok? ==> r.value == urlOf(ObjectKey(dirName, userId, uuid, Extension(originalFilename)))
  {
    var extension := Extension(originalFilename);
    var fileName := ObjectKey(dirName, userId, uuid, extension);
    if !streamOpens then Err(FileUploadFailed)
    else Ok(urlOf(fileName))
  }
}
