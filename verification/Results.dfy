/** What a Go call can end in: a value, an error, or a run-time panic. */
module Results {

  datatype Error =
    | MethodParamsInvalid
    | TotalLengthInvalid
    | RequestIdInvalid
    | RequestIdNotSupported
    | ConnIsClosed
    | BodyTimeout
    | ReadTimeout        // a net.Error whose Timeout() is true
    | EndOfStream
    | OptionLength
    | ShortRead
    | InvalidUtf8
    | UnsupportedVersion
    | UnsupportedPkt

  datatype Outcome<+T> =
    | Ok(value: T)
    | Err(error: Error)
    | Panic
}
