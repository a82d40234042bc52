/** `apierr`: the errors a request can end in, and which of them may be retried. */
module ApiErr {
  import opened Options

  const SERVICE_UNAVAILABLE := "SERVICE_UNAVAILABLE"
  const RESPONSE_TOO_LARGE := "RESPONSE_TOO_LARGE"
  const INTERNAL_ERROR := "INTERNAL_ERROR"
  const VALIDATION_ERROR := "VALIDATION_ERROR"
  const AUTH_DPOP_INVALID := "AUTH_DPOP_INVALID"

  datatype ApiError = ApiError(code: string, httpStatus: int)

  /** `*APIError`, `*RateLimitError` (a different type that merely embeds one), or the context's error. */
  datatype Error = Plain(api: ApiError) | RateLimited(api: ApiError) | Cancelled

  predicate IsRetryable(e: ApiError) {
    || (e.httpStatus == 0 && e.code == SERVICE_UNAVAILABLE)
    || e.httpStatus == 429 || e.httpStatus == 503 || e.httpStatus == 504 || e.httpStatus == 502
  }

  /** What the retry loops test: a plain `*APIError` that is retryable. */
  predicate MayRetry(e: Error) {
    e.Plain? && IsRetryable(e.api)
  }

  /** `ParseAPIError`: the body may name its own status, which then wins. */
  function ParseApiError(status: int, decoded: Option<ApiError>): ApiError {
    match decoded
    case None => ApiError(INTERNAL_ERROR, status)
    case Some(e) => if e.httpStatus == 0 then e.(httpStatus := status) else e
  }
}
