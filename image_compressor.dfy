/** `validateImageFile` of the image helper: the file's MIME type must be
    one of four image types, then its size at most 5 MiB. */
module ImageCompressor {
  import opened Text

  const VALID_TYPES: seq<string> := ["image/jpeg", "image/png", "image/webp", "image/gif"]
  const MAX_SIZE := 5 * 1024 * 1024
  const UNSUPPORTED_TYPE := "Tipo de arquivo nao suportado"
  const TOO_LARGE := "Arquivo muito grande (maximo 5MB)"

  /** The two fields of a browser `File` that are read. */
  datatype ImageFile = ImageFile(mimeType: string, size: int)

  datatype Validation = Validation(valid: bool, error: Option<string>)

  /** `validateImageFile(file)`. */
  function ValidateImageFile(file: ImageFile): (v: Validation)
    ensures v.valid <==> file.mimeType in VALID_TYPES && file.size <= MAX_SIZE
    ensures v.valid <==> v.error.None?
    ensures file.mimeType !in VALID_TYPES ==> v.error == Some(UNSUPPORTED_TYPE)
    ensures file.mimeType in VALID_TYPES && file.size > MAX_SIZE ==> v.error == Some(TOO_LARGE)
  {
    if file.mimeType !in VALID_TYPES then Validation(false, Some(UNSUPPORTED_TYPE))
    else if file.size > MAX_SIZE then Validation(false, Some(TOO_LARGE))
    else Validation(true, None)
  }

  /** The type is checked first: an oversized file of another type reports
      the type; a file of exactly 5 MiB passes and one byte more does not. */
  lemma TypeBeforeSize(mimeType: string)
    ensures mimeType !in VALID_TYPES ==> ValidateImageFile(ImageFile(mimeType, MAX_SIZE + 1)).error == Some(UNSUPPORTED_TYPE)
    ensures ValidateImageFile(ImageFile("image/png", MAX_SIZE)).valid
    ensures ValidateImageFile(ImageFile("image/png", MAX_SIZE + 1)).error == Some(TOO_LARGE)
    ensures !ValidateImageFile(ImageFile("image/svg+xml", 1)).valid
  {
  }
}
