/** The decoded request parts the handlers read, as Express and multer hand
    them over, and the image upload collaborator (src/util/cloudinary.js),
    which is reduced to an oracle. */
module Http {
  import opened Js

  /** One uploaded file as multer describes it; only its local path matters. */
  datatype UploadedFile = UploadedFile(path: string)

  /** `req.files`: the `image` key is present only when an image was sent. */
  datatype Files = Files(image: Option<seq<UploadedFile>>)

  /** The cloud upload itself: a local path to the URL of the stored copy, or
      `None` when the upload fails. Network and file-system effects are not modelled. */
  type CloudUpload = string -> Option<string>

  /** `uploadOnCloudinary(path)`: nothing is uploaded for a falsy path. */
  function UploadOnCloudinary(path: Option<string>, cloud: CloudUpload): (url: Option<string>)
    ensures !Truthy(path) ==> url == None
    ensures Truthy(path) ==> url == cloud(path.value)
  {
    if Truthy(path) then cloud(path.value) else None
  }

  /** `req.files.image[0].path` as the blog handlers write it, without optional
      chaining: `None` stands for the TypeError thrown when `req.files`,
      `image` or its first entry is missing. */
  function FirstImagePath(files: Option<Files>): (path: Option<string>)
    ensures path.Some? <==> files.Some? && files.value.image.Some? && files.value.image.value != []
    ensures path.Some? ==> path.value == files.value.image.value[0].path
  {
    if files.Some? && files.value.image.Some? && files.value.image.value != []
    then Some(files.value.image.value[0].path)
    else None
  }
}
