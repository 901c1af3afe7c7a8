/** The browser uploader (file-upload.js): image checks, the stored name, and the upload to a
    storage bucket, whose answers are oracles. */
module FileUpload {
  import opened Wrappers
  import opened Text

  const ValidTypes: seq<string> := ["image/jpeg", "image/jpg", "image/png", "image/gif", "image/webp"]
  /** 5 MiB. */
  const MaxImageSize: nat := 5 * 1024 * 1024
  const BucketName := "tyjk-files"
  const DefaultFolder := "uploads"
  /** The lifetime asked of a signed URL: one year, in seconds. */
  const SignedUrlLifetime: nat := 60 * 60 * 24 * 365

  const InvalidTypeError := "只支持图片文件格式：JPG, PNG, GIF, WebP"
  const TooLargeError := "文件大小不能超过5MB"
  const PublicUrlWarning := "使用公共URL，签名URL创建失败"
  const BucketConfigError := "存储桶配置错误，请检查Supabase Storage设置"
  const AuthError := "认证失败，请检查API密钥配置"
  const BucketMissingError := "存储桶不存在或权限不足"

  /** A browser `File`: its name, MIME type, size in bytes and contents. */
  datatype ImageFile = ImageFile(name: string, mimeType: string, size: nat, data: seq<bv8>)

  /** What `uploadImage` reports. */
  datatype UploadResult =
    | Uploaded(url: string, path: string, fileName: string, warning: Option<string>)
    | UploadFailed(error: string, originalError: string)

  /** `isValidImage(file)`: the type is on the whitelist. */
  predicate IsValidImage(f: ImageFile) {
    f.mimeType in ValidTypes
  }

  /** Exactly the five image types pass. */
  lemma IsValidImageExactly(f: ImageFile)
    ensures IsValidImage(f) <==>
      f.mimeType == "image/jpeg" || f.mimeType == "image/jpg" || f.mimeType == "image/png"
      || f.mimeType == "image/gif" || f.mimeType == "image/webp"
  {
  }

  /** `generateFileName(file)`: `${timestamp}_${random}.${extension}`, the extension being the
      last `.`-separated piece of the name (the whole name when it has no `.`). */
  function GenerateFileName(name: string, timestamp: nat, random: string): string {
    Decimal(timestamp) + "_" + random + "." + LastPiece(name, '.')
  }

  /** The generated name starts with the timestamp, which reads back from the text before its
      first `_`, and ends with a `.` and the name's last piece, which holds no `.`; a name
      without `.` is kept whole as the extension. */
  lemma GeneratedNameParts(name: string, timestamp: nat, random: string)
    ensures var n, ext := GenerateFileName(name, timestamp, random), LastPiece(name, '.');
      && ParseDecimal(Before(n, '_')) == Some(timestamp)
      && n[|n| - |ext| - 1..] == "." + ext
      && '.' !in ext
      && ('.' !in name ==> ext == name)
      && (forall stem, e :: name == stem + "." + e && '.' !in e ==> ext == e)
  {
    var ext := LastPiece(name, '.');
    assert GenerateFileName(name, timestamp, random) == Decimal(timestamp) + "_" + random + ("." + ext);
    StampedNameParts(timestamp, random, "." + ext);
    LastPieceIsAfterLastSeparator(name, '.');
    forall stem, e | name == stem + "." + e && '.' !in e ensures ext == e {
      assert stem + "." + e == stem + ['.'] + e;
      LastPieceOf(stem, '.', e);
    }
  }

  /** Two uploads at different instants get different names. */
  lemma GeneratedNamesDiffer(n1: string, n2: string, t1: nat, t2: nat, r1: string, r2: string)
    requires t1 != t2
    ensures GenerateFileName(n1, t1, r1) != GenerateFileName(n2, t2, r2)
  {
    GeneratedNameParts(n1, t1, r1);
    GeneratedNameParts(n2, t2, r2);
  }

  /** The message the user sees for an upload error: the first of `Object not found`, `JWT` and
      `bucket` that the raw message contains picks a fixed text; otherwise the raw message. */
  function FriendlyError(message: string): (r: string)
    ensures Contains(message, "Object not found") ==> r == BucketConfigError
    ensures !Contains(message, "Object not found") && Contains(message, "JWT") ==> r == AuthError
    ensures !Contains(message, "Object not found") && !Contains(message, "JWT") && Contains(message, "bucket")
            ==> r == BucketMissingError
    ensures !Contains(message, "Object not found") && !Contains(message, "JWT") && !Contains(message, "bucket")
            ==> r == message
  {
    if Contains(message, "Object not found") then BucketConfigError
    else if Contains(message, "JWT") then AuthError
    else if Contains(message, "bucket") then BucketMissingError
    else message
  }

  /** The failure `uploadImage` reports for an error with message `message`. */
  function FailedWith(message: string): UploadResult {
    UploadFailed(FriendlyError(message), message)
  }

  /** A storage bucket: the objects stored in it, by path. */
  class Bucket {
    var objects: map<string, seq<bv8>>

    constructor()
      ensures objects == map[]
    {
      objects := map[];
    }

    /** `upload(path, data, { upsert: false })`: stores the object unless storage reports
        `error`. Without `upsert` storage refuses a path that already holds an object, so `error`
        is given for any such path, and a stored object is never replaced. */
    method Upload(path: string, data: seq<bv8>, error: Option<string>) returns (r: Option<string>)
      requires path in objects ==> error.Some?
      modifies this
      ensures r == error
      ensures path in old(objects) ==> objects == old(objects)
      ensures objects == if error.None? then old(objects)[path := data] else old(objects)
    {
      if error.None? {
        objects := objects[path := data];
      }
      r := error;
    }
  }

  /** The storage answers one upload receives: the upload's error, the signed URL or the error
      creating it, and the public URL of the path. */
  datatype StorageAnswers = StorageAnswers(uploadError: Option<string>, signedUrl: Result<string>, publicUrl: string)

  /** `FileUploader`: uploads into one bucket. */
  class FileUploader {
    const bucketName: string
    const bucket: Bucket

    constructor(bucket: Bucket)
      ensures bucketName == BucketName && this.bucket == bucket
    {
      bucketName := BucketName;
      this.bucket := bucket;
    }

    /** `uploadImage(file, folder)`: the type check, then the size check, then the upload under
        `folder/name`, then the signed URL, falling back to the public URL with a warning. */
    method UploadImage(file: ImageFile, folder: Option<string>, timestamp: nat, random: string, answers: StorageAnswers)
      returns (r: UploadResult)
      requires var path := folder.GetOr(DefaultFolder) + "/" + GenerateFileName(file.name, timestamp, random);
        IsValidImage(file) && file.size <= MaxImageSize && path in bucket.objects ==> answers.uploadError.Some?
      modifies bucket
      ensures var name := GenerateFileName(file.name, timestamp, random);
              var path := folder.GetOr(DefaultFolder) + "/" + name;
        && (!IsValidImage(file) ==> r == FailedWith(InvalidTypeError) && bucket.objects == old(bucket.objects))
        && (IsValidImage(file) && file.size > MaxImageSize ==> r == FailedWith(TooLargeError) && bucket.objects == old(bucket.objects))
        && (IsValidImage(file) && file.size <= MaxImageSize ==>
              if answers.uploadError.Some? then
                r == FailedWith(answers.uploadError.value) && bucket.objects == old(bucket.objects)
              else
                && path !in old(bucket.objects)
                && bucket.objects == old(bucket.objects)[path := file.data]
                && r == if answers.signedUrl.Success? then Uploaded(answers.signedUrl.value, path, name, None)
                        else Uploaded(answers.publicUrl, path, name, Some(PublicUrlWarning)))
    {
      if !IsValidImage(file) {
        return FailedWith(InvalidTypeError);
      }
      if file.size > MaxImageSize {
        return FailedWith(TooLargeError);
      }
      var fileName := GenerateFileName(file.name, timestamp, random);
      var filePath := folder.GetOr(DefaultFolder) + "/" + fileName;
      var error := bucket.Upload(filePath, file.data, answers.uploadError);
      if error.Some? {
        return FailedWith(error.value);
      }
      if answers.signedUrl.Failure? {
        return Uploaded(answers.publicUrl, filePath, fileName, Some(PublicUrlWarning));
      }
      r := Uploaded(answers.signedUrl.value, filePath, fileName, None);
    }
  }

  /** A message without the letters `O`, `T` and `u` contains none of the keywords, so the
      mapping shows it as it is. */
  lemma KeywordFreeMessageStaysRaw(m: string)
    requires 'O' !in m && 'T' !in m && 'u' !in m
    ensures FriendlyError(m) == m
  {
    NotContained(m, "Object not found", 0);
    NotContained(m, "JWT", 2);
    NotContained(m, "bucket", 1);
  }

  /** The uploader's own two messages are such messages: the user sees them unchanged. */
  lemma ValidationMessagesAreKeywordFree()
    ensures 'O' !in InvalidTypeError && 'T' !in InvalidTypeError && 'u' !in InvalidTypeError
    ensures 'O' !in TooLargeError && 'T' !in TooLargeError && 'u' !in TooLargeError
  {
    LacksLetters(InvalidTypeError);
    LacksLetters(TooLargeError);
  }

  /** Checks a text character by character for the three letters. */
  lemma {:induction false} LacksLetters(m: string)
    requires forall i :: 0 <= i < |m| ==> m[i] != 'O' && m[i] != 'T' && m[i] != 'u'
    ensures 'O' !in m && 'T' !in m && 'u' !in m
  {
  }

  /** A text that lacks one of the characters of `sub` does not contain `sub`. */
  lemma {:induction false} NotContained(s: string, sub: string, k: nat)
    requires k < |sub| && sub[k] !in s
    ensures !Contains(s, sub)
    decreases |s|
  {
    if |s| > 0 {
      NotContained(s[1..], sub, k);
    }
  }
}
