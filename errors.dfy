/** The program's error type (src/error.rs): a message, or a failure from a library call. */
module Errors {

  datatype AppError =
    | Message(text: string)
    | Io(detail: string)
    | Json(detail: string)
    | TomlDe(detail: string)
    | TomlSer(detail: string)
    | Request(detail: string)
    | Dialoguer(detail: string)
}
