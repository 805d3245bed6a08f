/** The upload route: server-side upload of an image (POST) and a presigned
    upload ticket (GET), each with its validation order and object key. */
module Upload {
  import opened Wrappers
  import opened Documents
  import opened Http
  import Strings

  /** 5 MiB. */
  const MAX_FILE_SIZE: nat := 5 * 1024 * 1024

  const ACCEPTED_TYPES: seq<string> := ["image/jpeg", "image/jpg", "image/png", "image/webp"]

  /** The form's `file` entry: its size in bytes and its MIME type. */
  datatype UploadFile = UploadFile(size: nat, mimeType: string)

  /** The GET reply: the presigned URL and the key it writes to. */
  datatype UploadTicket = UploadTicket(url: string, key: string)

  /** Where the object store is reached; configuration, not request data. */
  datatype Bucket = Bucket(name: string, region: string)

  predicate Accepted(mimeType: string) {
    mimeType in ACCEPTED_TYPES
  }

  /** A lower-case hexadecimal digit. */
  predicate HexChar(c: char) {
    '0' <= c <= '9' || 'a' <= c <= 'f'
  }

  /** The rendering of sixteen random bytes in hex. */
  predicate RandomHex(hex: string) {
    |hex| == 32 && forall i :: 0 <= i < |hex| ==> HexChar(hex[i])
  }

  /** The extension of an accepted type: the part after "image/". */
  function Extension(mimeType: string): (ext: string)
    requires Accepted(mimeType)
    ensures mimeType == "image/" + ext
    ensures '/' !in ext && '.' !in ext
  {
    mimeType[6..]
  }

  /** The extension is what `type.split("/")[1]` picks out: an accepted type
      splits on "/" into "image" and its extension. */
  lemma ExtensionIsSubtype(mimeType: string)
    requires Accepted(mimeType)
    ensures Strings.Split(mimeType, '/') == ["image", Extension(mimeType)]
  {
    var ext := mimeType[6..];
    assert mimeType == "image" + ['/'] + ext;
    Strings.SplitPair("image", ext, '/');
  }

  /** The caller's key prefix, `uploads/<userId>/`. */
  function UserPrefix(uid: Id): string {
    "uploads/" + uid + "/"
  }

  /** POST: upload `file`. `hex` is the random name, `bucket` the target. */
  function UploadImage(session: Option<Session>, file: Option<UploadFile>, hex: string, bucket: Bucket): (r: Response<string>)
    requires RandomHex(hex)
    ensures !HasUserId(session) ==> r == Failure(UNAUTHORIZED, "Unauthorized")
    ensures HasUserId(session) && file.None? ==> r == Failure(BAD_REQUEST, "No file provided")
    ensures HasUserId(session) && file.Some? && file.value.size > MAX_FILE_SIZE ==>
      r == Failure(BAD_REQUEST, "File size too large. Maximum size is 5MB")
    ensures HasUserId(session) && file.Some? && file.value.size <= MAX_FILE_SIZE && !Accepted(file.value.mimeType) ==>
      r == Failure(BAD_REQUEST, "Invalid file type. Only JPEG, PNG, and WebP are allowed")
    ensures r.Success? <==> HasUserId(session) && file.Some? && file.value.size <= MAX_FILE_SIZE && Accepted(file.value.mimeType)
    ensures r.Success? ==>
      && r.status == OK
      && r.body == "https://" + bucket.name + ".s3." + bucket.region + ".amazonaws.com/"
                   + UploadKey(session.value.userId, hex, file.value.mimeType)
  {
    if !HasUserId(session) then Failure(UNAUTHORIZED, "Unauthorized")
    else if file.None? then Failure(BAD_REQUEST, "No file provided")
    else if file.value.size > MAX_FILE_SIZE then Failure(BAD_REQUEST, "File size too large. Maximum size is 5MB")
    else if !Accepted(file.value.mimeType) then
      Failure(BAD_REQUEST, "Invalid file type. Only JPEG, PNG, and WebP are allowed")
    else
      var key := UploadKey(session.value.userId, hex, file.value.mimeType);
      Success(OK, "https://" + bucket.name + ".s3." + bucket.region + ".amazonaws.com/" + key)
  }

  /** The POST key, `uploads/<userId>/<hex>.<ext>`. */
  function UploadKey(uid: Id, hex: string, mimeType: string): string
    requires Accepted(mimeType)
  {
    UserPrefix(uid) + hex + "." + Extension(mimeType)
  }

  /** A file name `<hex>.<ext>` splits on "." into its two parts and has no "/". */
  lemma NameParts(hex: string, ext: string)
    requires RandomHex(hex) && '/' !in ext && '.' !in ext
    ensures Strings.Split(hex + "." + ext, '.') == [hex, ext]
    ensures '/' !in hex + "." + ext
  {
    assert '.' !in hex && '/' !in hex by {
      forall i | 0 <= i < |hex| ensures hex[i] != '.' && hex[i] != '/' { assert HexChar(hex[i]); }
    }
    assert hex + "." + ext == hex + ['.'] + ext;
    Strings.SplitPair(hex, ext, '.');
  }

  /** A key `uploads/<uid>/<name>` splits on "/" into its three parts. */
  lemma KeyParts(uid: Id, name: string)
    requires '/' !in uid && '/' !in name
    ensures Strings.Split(UserPrefix(uid) + name, '/') == ["uploads", uid, name]
  {
    assert UserPrefix(uid) + name == "uploads" + ['/'] + uid + ['/'] + name;
    Strings.SplitTriple("uploads", uid, name, '/');
  }

  /** The POST key splits back into its parts when the user id has no "/". */
  lemma UploadKeyParts(uid: Id, hex: string, mimeType: string)
    requires Accepted(mimeType) && RandomHex(hex)
    requires '/' !in uid
    ensures Strings.Split(UploadKey(uid, hex, mimeType), '/') == ["uploads", uid, hex + "." + Extension(mimeType)]
    ensures Strings.Split(hex + "." + Extension(mimeType), '.') == [hex, Extension(mimeType)]
  {
    NameParts(hex, Extension(mimeType));
    KeyParts(uid, hex + "." + Extension(mimeType));
    assert UploadKey(uid, hex, mimeType) == UserPrefix(uid) + (hex + "." + Extension(mimeType));
  }

  /** GET: a presigned ticket for uploading `fileName` of type `fileType`.
      `sign` stands for the presigner applied to the object key. */
  function UploadTicketFor(session: Option<Session>, fileType: Option<string>, fileName: Option<string>,
                           hex: string, sign: string -> string): (r: Response<UploadTicket>)
    requires RandomHex(hex)
    ensures !HasUserId(session) ==> r == Failure(UNAUTHORIZED, "Unauthorized")
    ensures HasUserId(session) && (!Truthy(fileType) || !Truthy(fileName)) ==>
      r == Failure(BAD_REQUEST, "File type and name are required")
    ensures HasUserId(session) && Truthy(fileType) && Truthy(fileName) && !Accepted(fileType.value) ==>
      r == Failure(BAD_REQUEST, "Invalid file type")
    ensures r.Success? <==> HasUserId(session) && Truthy(fileType) && Truthy(fileName) && Accepted(fileType.value)
    ensures r.Success? ==>
      var prefix := UserPrefix(session.value.userId);
      && r.status == OK
      && r.body.key == prefix + hex + "-" + fileName.value
      && r.body.url == sign(r.body.key)
  {
    if !HasUserId(session) then Failure(UNAUTHORIZED, "Unauthorized")
    else if !Truthy(fileType) || !Truthy(fileName) then Failure(BAD_REQUEST, "File type and name are required")
    else if !Accepted(fileType.value) then Failure(BAD_REQUEST, "Invalid file type")
    else
      var key := UserPrefix(session.value.userId) + hex + "-" + fileName.value;
      Success(OK, UploadTicket(sign(key), key))
  }

  /** Whatever the client names the file, a ticket's key stays under the
      caller's own prefix, and the file name is what follows the 33-character
      random part. */
  lemma TicketKeyUnderCallerPrefix(session: Option<Session>, fileType: Option<string>, fileName: Option<string>,
                                   hex: string, sign: string -> string)
    requires RandomHex(hex)
    requires UploadTicketFor(session, fileType, fileName, hex, sign).Success?
    ensures var key := UploadTicketFor(session, fileType, fileName, hex, sign).body.key;
      var prefix := UserPrefix(session.value.userId);
      && |key| == |prefix| + 33 + |fileName.value|
      && key[..|prefix|] == prefix
      && key[|prefix| + 33..] == fileName.value
  {
    var key := UploadTicketFor(session, fileType, fileName, hex, sign).body.key;
    var prefix := UserPrefix(session.value.userId);
    assert key == prefix + (hex + "-") + fileName.value;
  }
}
