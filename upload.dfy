/**
 * POST /api/admin/colleagues/upload: the checks a colleague photo passes
 * (signed in, a file, an image type, at most 5 MiB, storage configured),
 * the stored path, and the answers for storage errors.
 */
module Upload {
  import opened Wrappers
  import opened Text
  import opened Utils

  /** The uploaded file: its name, MIME type and size in bytes. */
  datatype UploadFile = UploadFile(name: string, mimeType: string, size: nat)

  /** The storage's answer to the upload: an error message, or the public URL of the stored path. */
  datatype StorageAnswer = StorageFailed(message: string) | Stored(publicUrl: string -> string)

  datatype Body = ErrorBody(error: string) | Uploaded(url: string, path: string)

  datatype Response = Response(status: int, body: Body)

  const AllowedTypes: set<string> := {"image/jpeg", "image/jpg", "image/png", "image/webp"}

  const MaxSize: nat := 5 * 1024 * 1024

  const NoFileMessage := "Geen bestand ge\U{00FC}pload"
  const TypeMessage := "Alleen JPEG, PNG en WebP afbeeldingen zijn toegestaan"
  const SizeMessage := "Bestand is te groot. Maximum grootte is 5MB"
  const ConfigMessage := "Supabase configuratie ontbreekt"
  const BucketMessage := "Storage bucket bestaat niet. Maak een \"colleagues\" bucket aan in Supabase Storage."

  /**
   * `file.name.split('.').pop()`: the text after the last '.', or the whole
   * name without one: a suffix of the name with no '.', either all of it or
   * preceded by '.'.
   */
  function Extension(name: string): (ext: string)
    ensures '.' !in ext
    ensures '.' !in name ==> ext == name
    ensures |ext| <= |name| && ext == name[|name| - |ext|..]
    ensures |ext| < |name| ==> name[|name| - |ext| - 1] == '.'
  {
    SplitLast(name, '.');
    var parts := Split(name, '.');
    parts[|parts| - 1]
  }

  /** `colleagues/${Date.now()}-${random}.${ext}`. */
  function StoragePath(name: string, nowMillis: nat, draw: RandomDraw): (path: string)
    ensures StartsWith(path, "colleagues/")
    ensures var ext := Extension(name); |path| > |ext| && path[|path| - |ext| - 1..] == "." + ext
  {
    var ext := Extension(name);
    var prefix := "colleagues/" + NatToString(nowMillis) + "-" + TokenPart(draw);
    var path := prefix + ("." + ext);
    assert path[..11] == prefix[..11] == "colleagues/";
    assert path[|prefix|..] == "." + ext;
    path
  }

  /** The checks in order; `env` holds the storage URL and service key, if set. */
  function Upload(signedIn: bool, file: Option<UploadFile>, url: Option<string>, serviceKey: Option<string>,
                  nowMillis: nat, draw: RandomDraw, storage: StorageAnswer): (resp: Response)
    ensures !signedIn ==> resp == Response(401, ErrorBody("Unauthorized"))
    ensures signedIn && file.None? ==> resp == Response(400, ErrorBody(NoFileMessage))
    ensures signedIn && file.Some? && file.value.mimeType !in AllowedTypes ==> resp == Response(400, ErrorBody(TypeMessage))
    ensures signedIn && file.Some? && file.value.mimeType in AllowedTypes && file.value.size > MaxSize ==>
      resp == Response(400, ErrorBody(SizeMessage))
    ensures (signedIn && file.Some? && file.value.mimeType in AllowedTypes && file.value.size <= MaxSize &&
             (url.None? || url.value == "" || serviceKey.None? || serviceKey.value == "")) ==>
      resp == Response(500, ErrorBody(ConfigMessage))
    ensures resp.status == 200 ==>
      signedIn && file.Some? && file.value.mimeType in AllowedTypes && file.value.size <= MaxSize &&
      url.Some? && url.value != "" && serviceKey.Some? && serviceKey.value != "" && storage.Stored?
  {
    if !signedIn then Response(401, ErrorBody("Unauthorized"))
    else if file.None? then Response(400, ErrorBody(NoFileMessage))
    else if file.value.mimeType !in AllowedTypes then Response(400, ErrorBody(TypeMessage))
    else if file.value.size > MaxSize then Response(400, ErrorBody(SizeMessage))
    else if url.None? || url.value == "" || serviceKey.None? || serviceKey.value == "" then
      Response(500, ErrorBody(ConfigMessage))
    else
      var path := StoragePath(file.value.name, nowMillis, draw);
      match storage
      case StorageFailed(message) =>
        if Contains(message, "Bucket not found") then Response(500, ErrorBody(BucketMessage))
        else Response(500, ErrorBody(message))
      case Stored(publicUrl) => Response(200, Uploaded(publicUrl(path), path))
  }

  /** Exactly 5 MiB passes the size check; one byte more does not. */
  lemma SizeBoundary(name: string, mimeType: string, url: string, key: string,
                     nowMillis: nat, draw: RandomDraw, storage: StorageAnswer)
    requires mimeType in AllowedTypes && url != "" && key != ""
    ensures Upload(true, Some(UploadFile(name, mimeType, MaxSize)), Some(url), Some(key), nowMillis, draw, storage).status != 400
    ensures Upload(true, Some(UploadFile(name, mimeType, MaxSize + 1)), Some(url), Some(key), nowMillis, draw, storage)
      == Response(400, ErrorBody(SizeMessage))
  {
  }

  /** A stored file answers 200 with the stored path and its public URL. */
  lemma StoredAnswersPath(f: UploadFile, url: string, key: string, nowMillis: nat, draw: RandomDraw,
                          publicUrl: string -> string)
    requires f.mimeType in AllowedTypes && f.size <= MaxSize && url != "" && key != ""
    ensures var path := StoragePath(f.name, nowMillis, draw);
      Upload(true, Some(f), Some(url), Some(key), nowMillis, draw, Stored(publicUrl)) ==
        Response(200, Uploaded(publicUrl(path), path))
  {
  }

  /** A storage error mentioning a missing bucket gets the setup hint; any other its own message. */
  lemma StorageErrors(f: UploadFile, url: string, key: string, nowMillis: nat, draw: RandomDraw, message: string)
    requires f.mimeType in AllowedTypes && f.size <= MaxSize && url != "" && key != ""
    ensures var resp := Upload(true, Some(f), Some(url), Some(key), nowMillis, draw, StorageFailed(message));
      resp.status == 500 &&
      (Contains(message, "Bucket not found") ==> resp.body == ErrorBody(BucketMessage)) &&
      (!Contains(message, "Bucket not found") ==> resp.body == ErrorBody(message))
  {
  }
}
