/** The error taxonomy of the parser (`parser_error_t`) and the result shapes used by every module. */
module ParserCommon {

  /** The parser's closed set of error tags; `Other` stands for any further tag a collaborator reports. */
  datatype Error =
    | UnexpectedError          // parser_unexpected_error
    | UnexpectedField          // parser_unexpected_field
    | UnexpectedBufferEnd      // parser_unexpected_buffer_end
    | UnexpectedNumberItems    // parser_unexpected_number_items
    | DisplayIdxOutOfRange     // parser_display_idx_out_of_range
    | Other(code: nat)

  /** `parser_ok` or the first error met. */
  datatype Outcome = Pass | Fail(error: Error)

  /** A value together with `parser_ok`, or an error. */
  datatype Result<T> = Ok(value: T) | Err(error: Error)

  datatype Option<T> = None | Some(value: T)
}
