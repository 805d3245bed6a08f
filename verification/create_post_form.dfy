/** The create-post page: its form schema and the checks run when an image is
    picked, which repeat the upload route's limits on the client. */
module CreatePostForm {
  import opened Wrappers
  import opened Http
  import Upload

  /** The page's own copies of the limits. */
  const MAX_FILE_SIZE: nat := 5 * 1024 * 1024
  const ACCEPTED_IMAGE_TYPES: seq<string> := ["image/jpeg", "image/jpg", "image/png", "image/webp"]
  const MAX_CAPTION: nat := 2200

  const CAPTION_TOO_LONG: string := "Caption must be less than 2200 characters"
  const IMAGE_REQUIRED: string := "Image is required"
  const IMAGE_TOO_LARGE: string := "Max file size is 5MB"
  const IMAGE_WRONG_TYPE: string := "Only .jpg, .jpeg, .png and .webp formats are supported"

  type File = Upload.UploadFile

  /** The first message the schema reports for each field; None when the field passes. */
  datatype FormErrors = FormErrors(caption: Option<string>, image: Option<string>)

  function CaptionError(caption: string): (e: Option<string>)
    ensures e.None? <==> |caption| <= MAX_CAPTION
    ensures e.Some? ==> e.value == CAPTION_TOO_LONG
  {
    if |caption| > MAX_CAPTION then Some(CAPTION_TOO_LONG) else None
  }

  /** The image field's refinements in order: exactly one file, then its size,
      then its type; the first that fails gives the message. */
  function ImageError(files: seq<File>): (e: Option<string>)
    ensures e.None? <==> |files| == 1 && files[0].size <= MAX_FILE_SIZE && files[0].mimeType in ACCEPTED_IMAGE_TYPES
    ensures |files| != 1 ==> e == Some(IMAGE_REQUIRED)
    ensures |files| == 1 && files[0].size > MAX_FILE_SIZE ==> e == Some(IMAGE_TOO_LARGE)
    ensures |files| == 1 && files[0].size <= MAX_FILE_SIZE && files[0].mimeType !in ACCEPTED_IMAGE_TYPES ==>
      e == Some(IMAGE_WRONG_TYPE)
  {
    if |files| != 1 then Some(IMAGE_REQUIRED)
    else if files[0].size > MAX_FILE_SIZE then Some(IMAGE_TOO_LARGE)
    else if files[0].mimeType !in ACCEPTED_IMAGE_TYPES then Some(IMAGE_WRONG_TYPE)
    else None
  }

  function Validate(caption: string, files: seq<File>): FormErrors {
    FormErrors(CaptionError(caption), ImageError(files))
  }

  /** The form submits only when both fields pass. */
  predicate Valid(caption: string, files: seq<File>) {
    Validate(caption, files) == FormErrors(None, None)
  }

  /** The page's error message and preview for the image field. */
  datatype ImageState = ImageState(error: Option<string>, preview: Option<string>)

  /** `handleImageChange`: with no file nothing happens; a file over the size
      limit, or else of a wrong type, sets the error and keeps the preview; an
      acceptable file becomes the preview (`dataUrl` stands for the file
      reader) and an earlier error stays. */
  function HandleImageChange(s: ImageState, files: seq<File>, dataUrl: File -> string): (r: ImageState)
    ensures |files| == 0 ==> r == s
    ensures r.preview != s.preview ==> |files| > 0 && ImageError(files[..1]).None? && r.preview == Some(dataUrl(files[0]))
    ensures |files| > 0 && ImageError(files[..1]).Some? ==> r == s.(error := ImageError(files[..1]))
    ensures |files| > 0 && ImageError(files[..1]).None? ==> r == s.(preview := Some(dataUrl(files[0])))
  {
    if |files| == 0 then s
    else
      var file := files[0];
      assert files[..1] == [file];
      if file.size > MAX_FILE_SIZE then s.(error := Some(IMAGE_TOO_LARGE))
      else if file.mimeType !in ACCEPTED_IMAGE_TYPES then s.(error := Some(IMAGE_WRONG_TYPE))
      else s.(preview := Some(dataUrl(file)))
  }

  /** The client limits are the upload route's limits. */
  lemma ClientLimitsMatchServer()
    ensures MAX_FILE_SIZE == Upload.MAX_FILE_SIZE
    ensures ACCEPTED_IMAGE_TYPES == Upload.ACCEPTED_TYPES
  {
  }

  /** An image the form accepts passes every check of the upload route, for a
      caller with a session. */
  lemma AcceptedImageUploads(session: Option<Session>, caption: string, files: seq<File>, hex: string, bucket: Upload.Bucket)
    requires HasUserId(session) && Upload.RandomHex(hex)
    requires Valid(caption, files)
    ensures Upload.UploadImage(session, Some(files[0]), hex, bucket).Success?
  {
    ClientLimitsMatchServer();
  }
}
