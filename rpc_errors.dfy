/**
 * Error codes: the five predefined by section 5.1 of the JSON-RPC 2.0 specification, the band
 * it reserves for server errors, and the band and codes the Language Server Protocol reserves
 * for itself.
 */
module RpcErrors {
  type ErrorCode = int

  const ErrParseError: ErrorCode := -32700
  const ErrInvalidRequest: ErrorCode := -32600
  const ErrMethodNotFound: ErrorCode := -32601
  const ErrInvalidParams: ErrorCode := -32602
  const ErrInternalError: ErrorCode := -32603

  const JsonrpcReservedErrorRangeStart: ErrorCode := -32099
  const ErrServerErrorStart: ErrorCode := JsonrpcReservedErrorRangeStart
  const ErrServerNotInitialized: ErrorCode := -32002
  const ErrUnknownErrorCode: ErrorCode := -32001
  const JsonrpcReservedErrorRangeEnd: ErrorCode := -32000
  const ErrServerErrorEnd: ErrorCode := JsonrpcReservedErrorRangeEnd

  const ErrLSPReservedErrorRangeStart: ErrorCode := -32899
  const ErrRequestFailed: ErrorCode := -32803
  const ErrServerCancelled: ErrorCode := -32802
  const ErrContentModified: ErrorCode := -32801
  const ErrRequestCancelled: ErrorCode := -32800
  const ErrLSPReservedErrorRangeEnd: ErrorCode := -32800

  predicate InServerBand(c: ErrorCode) {
    ErrServerErrorStart <= c <= ErrServerErrorEnd
  }

  predicate InLSPBand(c: ErrorCode) {
    ErrLSPReservedErrorRangeStart <= c <= ErrLSPReservedErrorRangeEnd
  }

  /** The codes that name an error rather than the edge of a band. */
  function Codes(): seq<ErrorCode> {
    [ErrParseError, ErrInvalidRequest, ErrMethodNotFound, ErrInvalidParams, ErrInternalError,
     ErrServerNotInitialized, ErrUnknownErrorCode,
     ErrRequestFailed, ErrServerCancelled, ErrContentModified, ErrRequestCancelled]
  }

  /** The predefined codes. */
  function Predefined(): seq<ErrorCode> {
    [ErrParseError, ErrInvalidRequest, ErrMethodNotFound, ErrInvalidParams, ErrInternalError]
  }

  /**
   * The bands: the server band runs from -32099 to -32000 and holds ServerNotInitialized and
   * UnknownErrorCode; the LSP band runs from -32899 to -32800, holds the four LSP codes and ends
   * at RequestCancelled; the bands do not overlap; the predefined codes lie in neither.
   */
  lemma Bands()
    ensures ErrServerErrorStart == -32099 && ErrServerErrorEnd == -32000
    ensures InServerBand(ErrServerNotInitialized) && InServerBand(ErrUnknownErrorCode)
    ensures InLSPBand(ErrRequestFailed) && InLSPBand(ErrServerCancelled)
    ensures InLSPBand(ErrContentModified) && InLSPBand(ErrRequestCancelled)
    ensures ErrLSPReservedErrorRangeEnd == ErrRequestCancelled
    ensures forall c :: !(InServerBand(c) && InLSPBand(c))
    ensures forall i :: 0 <= i < |Predefined()| ==> !InServerBand(Predefined()[i]) && !InLSPBand(Predefined()[i])
  {
  }

  /** No two error codes are the same. */
  lemma CodesDistinct()
    ensures forall i, j :: 0 <= i < j < |Codes()| ==> Codes()[i] != Codes()[j]
  {
    var cs := Codes();
    // The codes are listed in no particular order; sort them by band to see them apart.
    assert forall i :: 0 <= i < 5 ==> cs[i] < -32099;
    assert forall i :: 5 <= i < 7 ==> -32099 <= cs[i];
    assert forall i :: 7 <= i < 11 ==> -32899 <= cs[i] <= -32800;
  }
}
