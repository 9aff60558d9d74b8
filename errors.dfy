/** The exceptions the pipeline raises, as values. */
module Errors {

  datatype Error =
    /** `ValueError("Unsupported file format. ...")` from the document-text dispatch. */
    | UnsupportedFormat
    /** A failure inside a document library (PDF, DOCX, zip archive or image reader). */
    | LibraryFailure
    /** The language-model request failed or its text was not JSON. */
    | ModelCallFailed
    /** The parsed model response is not a JSON object, so it has no `.keys()`. */
    | NotAnObject
    /** `TypeError` from `sep.join(x)`: `x` is not iterable or yields a non-string. */
    | JoinTypeError
    /** `TypeError` from `x > 0` when `x` is not a number. */
    | CompareTypeError
    /** A schema validation error naming the fields that are missing or of the wrong kind. */
    | ValidationFailed(fields: seq<string>)
    /** `Exception("GPT extraction failed: ...")` wrapping the cause. */
    | GptExtractionFailed(cause: Error)
}
