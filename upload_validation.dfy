/**
 * The checks at the top of the client's `upload`, run in order; the first one
 * that fails is the error thrown. A code typed in symbols is converted once.
 */
module UploadValidation {
  import opened Wrappers
  import opened Codes

  const FILE_SIZE_LIMIT: int := 1024 * 1024 * 10
  const ACCEPTED_TYPES: seq<string> := ["image/png", "image/jpeg", "image/webp"]

  /** The `file` option: falsy, some other value, or a `File` with its MIME type and size in bytes. */
  datatype FileArg = NoFile | NotAFile | File(mimeType: string, size: int)

  datatype UploadError =
    | GeolocationUnsupported
    | MissingFile
    | InvalidFileParameter
    | InvalidFileType
    | InvalidFileSize
    | MissingCode
    | InvalidCodeFormat

  predicate TypeAccepted(f: FileArg)
    requires f.File?
  {
    f.mimeType in ACCEPTED_TYPES
  }

  predicate SizeAccepted(f: FileArg)
    requires f.File?
  {
    (f.size as real) <= (FILE_SIZE_LIMIT as real) * 0.99
  }

  /**
   * The validation prefix of `upload`. On success the result is the code the
   * upload goes on with: as given when it already has the format, else its
   * conversion from symbols.
   */
  method ValidateUpload(geolocationSupported: bool, file: FileArg, code: string)
    returns (r: Result<string, UploadError>)
    ensures r == Failure(GeolocationUnsupported) <==> !geolocationSupported
    ensures r == Failure(MissingFile) <==> geolocationSupported && file.NoFile?
    ensures r == Failure(InvalidFileParameter) <==> geolocationSupported && file.NotAFile?
    ensures r == Failure(InvalidFileType) <==> geolocationSupported && file.File? && !TypeAccepted(file)
    ensures r == Failure(InvalidFileSize) <==>
      geolocationSupported && file.File? && TypeAccepted(file) && !SizeAccepted(file)
    ensures r == Failure(MissingCode) <==>
      geolocationSupported && file.File? && TypeAccepted(file) && SizeAccepted(file) && code == ""
    ensures r == Failure(InvalidCodeFormat) <==>
      && geolocationSupported && file.File? && TypeAccepted(file) && SizeAccepted(file) && code != ""
      && !CheckCodeFormat(code) && !CheckCodeFormat(IconsCode(code))
    ensures r.Success? ==> CheckCodeFormat(r.value)
    ensures r.Success? ==> r.value == if CheckCodeFormat(code) then code else IconsCode(code)
  {
    if !geolocationSupported {
      return Failure(GeolocationUnsupported);
    }
    if file.NoFile? {
      return Failure(MissingFile);
    }
    if !file.File? {
      return Failure(InvalidFileParameter);
    }
    if file.mimeType !in ACCEPTED_TYPES {
      return Failure(InvalidFileType);
    }
    if (file.size as real) > (FILE_SIZE_LIMIT as real) * 0.99 {
      return Failure(InvalidFileSize);
    }
    if code == "" {
      return Failure(MissingCode);
    }
    var c := code;
    if !CheckCodeFormat(c) {
      // try converting from symbols, once
      c := IconsToCode(c);
    }
    if !CheckCodeFormat(c) {
      return Failure(InvalidCodeFormat);
    }
    return Success(c);
  }

  /** A code typed entirely in symbols passes the code checks as the code of those digits. */
  lemma SymbolCodeAccepted(ds: seq<nat>)
    requires 1 <= |ds| && forall i :: 0 <= i < |ds| ==> ds[i] < 10
    ensures IconsOf(ds) != ""
    ensures !CheckCodeFormat(IconsOf(ds))
    ensures CheckCodeFormat(IconsCode(IconsOf(ds)))
  {
    IconsCodeRoundTrip(ds);
    assert IconsOf(ds)[0] == IconChar(ds[0]);
  }
}
