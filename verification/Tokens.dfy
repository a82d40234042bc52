/** The token pair, and what a granted refresh does to it (section 6 of RFC 6749). */
module Tokens {
  datatype TokenPair = TokenPair(access: string, refresh: string)

  /** A refresh reply may leave the refresh token out; the old one then stays. */
  function AfterRefresh(p: TokenPair, granted: TokenPair): TokenPair {
    TokenPair(granted.access, if granted.refresh != "" then granted.refresh else p.refresh)
  }
}
