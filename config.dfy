/** Compile-time constants of the JSON handlers (their default values). */
module AsyncJsonConfig {
  /** The only content type the handlers accept, and the one responses carry. */
  const JSON_MIMETYPE: string := "application/json"

  /** Bytes handed to the stream consumer per timer tick. */
  const CHUNK_OBJ_SIZE: nat := 1024

  /** Largest request body a handler accepts (its default `maxContentLength`). */
  const MAX_JSON_CONTENT_LENGTH: nat := 16384

  /** Status codes the handlers send when they refuse a request. */
  const NO_HANDLER_CONFIGURED: int := 500
  const CONTENT_TOO_LARGE: int := 413
  const INVALID_BODY: int := 400
}
