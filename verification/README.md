# Verified model of the Zinetic Go SDK core

This project models the parts of the SDK that hold state, follow a protocol or rewrite strings, and proves what
they keep. It covers:

- **The request engine** (`internal/transport`): the retry loops, the recursion for DPoP nonce challenges
  (sections 8 and 9 of RFC 9449) and token refresh (section 6 of RFC 6749), request building, stable idempotency
  keys, URL building and back-off. `Transport` is the engine as a function of a script of server replies, with a
  log of everything sent; `TransportClient.Client` is the object with its fields and loops, proved against it;
  `TransportProofs`, `TransportLaws`, `TransportKeys`, `TransportCompare` and `TransportWire` hold the theorems about
  every script; `TokenLock` is the token state under its read-write lock, for any number of goroutines.
- **The NHI credential lifecycle** (`nhi`): `NhiExchange` (one exchange and what it accepts), `NhiRenewal` (the
  retrying renewal), `ProviderProtocol` (every interleaving of Start, Stop and the renewal goroutine) and
  `ProviderCalls` (whole calls and whole renewals in it).
- **`credential.Renewer`**: `CredentialRenewer` (one renewal) and `RenewerProtocol` (Start, Stop and the loop, with
  the overlap of calls as a parameter).
- **The secret stores**: `MemStore` (byte buffers with owners) and `CredentialStore` (credential objects).
- **String transformations**: `DsnTemplate`, `PathUtil`, `Urls` and `KvUrls`.

Durations are nanoseconds in a Go `int64`, with wrap-around written out. A Go string is a sequence of bytes, one
`char` each. The random order of Go's map iteration is a nondeterministic choice, or a parameter of the
environment. Cryptography and JSON decoding are parameters about which nothing is assumed; SHA-256 is free of
collisions.

`dafny verify dfyconfig.toml` checks everything.

## Where the code and the expected law part

Each of these is a proved statement about the code as it is.

- A 429 ends a run when its body could be read. If it could not, the error is a plain retryable one, so every 429 is
  the last event of its run if and only if nothing is sent or nothing is retried (`TransportLaws.RateLimitReply`,
  `TransportLaws.RateLimitExact`). Because a read 429 becomes `*RateLimitError`, which fails the `*APIError`
  assertion, the wait for `Retry-After` is unreachable and has no counterpart in the model.
- A negative `MaxRetries`, and nothing else, makes a run send nothing and return no error
  (`TransportProofs.NegativeLimitSendsNothing`).
- All requests of every run carry one idempotency key, or none, whatever the order of the headers, if and only if the
  call fails before it is sent, or no second request is possible (no retries, no DPoP and no usable refresh), or the
  spellings of the header the caller supplied carry one value and the method is not a GET or HEAD in lower case
  without a key of the caller's. Such a method gets no stable key, but a new one with every request, because one
  place compares it in upper case and the other as it is (`TransportKeys.KeyStableExactly`).
- `DoStream` keeps the nonce of a reply whose error body cannot be read and `DoRaw` does not. The two send the same
  traffic whatever the server replies if and only if nothing is sent, DPoP is off, there are no retries, or the call
  brings a DPoP header of its own and no refresh is possible (`TransportCompare.StreamAgreesExactly`).
- Different KV secrets have different URLs if and only if the API base path is not itself a KV data path
  (`KvUrls.KvUrlsExact`).
- A base URL that already ends in the API path is normalised like the one without it if and only if the shorter
  one does not end in that path too (`Urls.BaseUrlWithApiPath`).
- The doubling delay of `Renewer` follows its closed form for ever if and only if the first delay is positive and
  within the cap and the cap is below 2^62; at 2^62 it turns negative (`Backoff.RenewerDelayExact`).
- The first n delays of the request engine all follow their closed form if and only if base*2^(n-1) fits in an
  `int64`; at the first product that does not, a positive delay has become negative and nothing is waited for. With
  the default of half a second that is the 36th attempt. A base of one nanosecond is the one case in which attempts
  from the 64th on are up to the platform, and the theorem says how (`Backoff.TransportDelayExact`).
- A `Renewer` that is started while a Stop is under way can close a channel twice, and one started otherwise cannot
  (`RenewerProtocol.StartSafeExactlyOutsideStop`). Such a Stop can return and its loop write afterwards if and only if
  the store key is non-empty and that loop is neither exiting nor dead (`RenewerProtocol.StartInsideStop`). Under the
  same condition a loop can write after a Stop that returned at once because another was under way
  (`RenewerProtocol.StopInsideStop`).
- With brace-free keys and placeholder names, and any literals and values, filling a DSN in any map order is the
  simultaneous substitution if and only if the filled text holds no `{{`; a placeholder without a credential is always
  reported (`DsnTemplate.FillingExact`). Credentials that are safe with every template whose literals hold no brace
  are exactly those in which no value holds `{{` and no two values make one where they meet
  (`DsnTemplate.ValuesExact`).

## Model

| member | source | states |
|---|---|---|
| TransportProofs.CallShape | internal/transport/transport.go:204-374 | against any replies, one call sends a request, then at most one nonce resend and only as the first resend, then resends each preceded by its own granted refresh |
| TransportProofs.LateChallengeEndsCall | internal/transport/transport.go:341-366 | a nonce challenge that answers a resend is the last event of the call, which fails |
| TransportProofs.CallBound | internal/transport/transport.go:352-360 | traffic of that shape holds at most two requests (one once nonces are used up) plus one per granted refresh |
| TransportProofs.CallTerminates | internal/transport/transport.go:352-360 | the unguarded refresh recursion ends once the script is longer than the refreshes it grants |
| TransportProofs.RunReplays | internal/transport/transport.go:92-202 | a run takes the rounds of its script in their order, one per request; tokens and nonce are the replay of the traffic so far; every request is built from that state and its own round and answered with that round's reply, and so is every refresh |
| TransportProofs.RunBound | internal/transport/transport.go:92-202 | a run sends at most 2*(MaxRetries+1) requests plus one per granted refresh |
| TransportProofs.RunEndings | internal/transport/transport.go:92-202 | every attempt but the last ended in a plain retryable error; the result is the last attempt's outcome or the context's error; a retryable outcome is returned only when the attempts are used up |
| TransportProofs.NegativeLimitSendsNothing | internal/transport/transport.go:93-127 | a run ends without error and without an outcome if and only if the retry limit is negative, and then sends nothing |
| TransportWire.RefusedExactly | internal/transport/transport.go:376-399 | a call is held back if and only if its trimmed path is an absolute URL, its body cannot be encoded or no request can be made of it, and then fails at once with the validation or internal error |
| TransportWire.NoProofNoRequest | internal/transport/transport.go:421-430 | with DPoP on and no proof to be had nothing is sent and the run fails |
| TransportWire.RunRequests | internal/transport/transport.go:376-439 | every request of a run has the caller's method and the call's URL; each header is the caller's where supplied, and otherwise the standard one: content types, user agent, tenant, request id, attestation, idempotency key, bearer token, and a proof over that very method, URL, nonce and token |
| TransportWire.ReplyExactly | internal/transport/transport.go:311-373 | for every reply in either mode: a resend if and only if it is a readable 401 with a nonce that may be answered, or without one and followed by a refresh that hands out tokens; a refresh if and only if it is a readable 401 without a nonce, the endpoint can be reached and there is something to present; otherwise the response or the exact error, and whether it may be retried |
| TransportWire.RetriedExactly | apierr/apierr.go:74-86 | with an attempt left, a reply that ends its call is followed by another request if and only if there was none at all, it is a readable error that means 429, 502, 503 or 504 without being a 429, or it cannot be read and has one of those statuses |
| TransportWire.RunCancelledExactly | internal/transport/transport.go:95-103 | a run waits only when the script is used up, and ends with the context's error if and only if a retry was due and the wait before it was cancelled |
| TransportLaws.ReplayIsLatest | internal/transport/transport.go:646-795 | the replayed state is the latest access token and the latest non-empty refresh token that a readable 200 with an access token handed out, and the latest kept nonce |
| TransportLaws.RunProofsBind | internal/transport/transport.go:413-432 | with DPoP on and no caller-supplied Authorization or DPoP header, every request proves the latest nonce and carries the `ath` of the very token in its Authorization header |
| TransportLaws.NonceResendCarriesNonce | internal/transport/transport.go:341-354 | the request after a nonce challenge carries that challenge's nonce |
| TransportLaws.RunRefreshesWithNewest | internal/transport/transport.go:676-748 | every refresh of a run goes to the token endpoint, absolute or as a route of the API, and presents the newest refresh token, or client credentials when there is none; with DPoP on, its proof is for a POST to that URL with the newest nonce and no `ath` |
| TransportKeys.RunKeepsKey | internal/transport/transport.go:441-457 | whenever the run or the caller supplies the key and the caller's spellings agree, all requests of a run carry one Idempotency-Key |
| TransportKeys.UnsettledBreaksKey | internal/transport/transport.go:409-457 | when spellings disagree, or the method is get or head in lower case without a key, and a second request is possible by a retry, a nonce challenge or a refresh, a script exists under which two requests of one run carry different keys |
| TransportKeys.KeyStableExactly | internal/transport/transport.go:92-95 | for every method, the key is stable over all runs and header orders if and only if the call fails before it is sent, no second request is possible, or the key is settled |
| TransportLaws.RateLimitReply | internal/transport/transport.go:326-339 | a 429 reply ends its call, as a rate-limit error if and only if its body was read, and retryable if and only if it was not |
| TransportLaws.RateLimitEndsRun | internal/transport/transport.go:459-479 | a 429 with a readable body is the last event of the whole run, which fails with the rate-limit error |
| TransportLaws.RateLimitExact | internal/transport/transport.go:95-126 | every 429 is the last event of every run if and only if nothing is sent or nothing is retried |
| TransportLaws.UnreadableRateLimitIsRetried | internal/transport/transport.go:327-339 | after a 429 whose body cannot be read a second request goes out |
| TransportCompare.DoAndRawAgree | internal/transport/transport.go:92-166 | from equal states and replies Do and DoRaw put identical traffic on the wire, and Do returns the decoding error if and only if a result is wanted and a non-empty body other than a 204's cannot be decoded |
| TransportCompare.StreamAgrees | internal/transport/transport.go:130-257 | without DPoP, or when every error body can be read, DoStream sends the traffic of DoRaw, and DoRaw returns a read error exactly where the body of a success cannot be read |
| TransportCompare.StreamAgreesExactly | internal/transport/transport.go:130-257 | the two send the same traffic against every server if and only if nothing is sent, DPoP is off, there are no retries, or the caller's own DPoP header covers every request and no refresh is possible |
| TransportCompare.OwnHeaderSameTraffic | internal/transport/transport.go:421-436 | with the caller's own DPoP header and no refresh nothing on the wire depends on the nonce |
| TransportCompare.UnreadableErrorSeparates | internal/transport/transport.go:225-247 | an unreadable error body with a new nonce makes DoRaw and DoStream send different retries |
| TransportCompare.RefreshSeparates | internal/transport/transport.go:737-748 | and where the caller's own header covers the requests, a refresh after it |
| TransportClient.Client.constructor | internal/transport/transport.go:48-74 | a prover exists exactly when DPoP is configured; tokens as configured, no nonce |
| TransportClient.Client.SetAccessToken | internal/transport/transport.go:652-657 | replaces the access token and nothing else |
| TransportClient.Client.SetRefreshToken | internal/transport/transport.go:659-664 | replaces the refresh token and nothing else |
| TransportClient.Client.CanRefreshToken | internal/transport/transport.go:666-674 | the fields decide refreshability as the reference predicate does |
| TransportClient.Client.AttemptTokenRefresh | internal/transport/transport.go:676-795 | both tokens change together on a grant, nothing changes otherwise; one token request at most |
| TransportClient.Client.BuildRequest | internal/transport/transport.go:376-439 | the loop over the caller's headers builds the reference request from the current fields |
| TransportClient.Client.HandleErrorStatus | internal/transport/transport.go:352-367 | resend, refresh and resend, or fail, with state and traffic as the reference step |
| TransportClient.Client.HandleHttpReply | internal/transport/transport.go:311-373 | body before nonce before status |
| TransportClient.Client.HandleStreamReply | internal/transport/transport.go:215-256 | nonce before status before body |
| TransportClient.Client.Send | internal/transport/transport.go:280-374 | the recursive call on the object refines the functional one: same state, traffic, rest of the script and outcome |
| TransportClient.Client.OneAttempt | internal/transport/transport.go:259-278 | one attempt of each entry point, with the decoding step of Do |
| TransportClient.Client.RetryLoop | internal/transport/transport.go:92-128 | the loop over `attempt` and `lastErr` refines the recursive run |
| TransportClient.Client.RunWithRetry | internal/transport/transport.go:92-202 | a whole Do, DoRaw or DoStream on the object is the functional run all laws above are about |
| TokenLock.InvAlways | internal/transport/transport.go:646-795 | the lock, the half-written pair, the presented refresh token and the history stay consistent over every interleaving |
| TokenLock.TokensLinearise | internal/transport/transport.go:646-795 | after any interleaving the tokens are the fold of the committed operations, each refresh presented the refresh token current just before it, and no read is older than an earlier one |
| TokenLock.TokensFollowCalls | internal/transport/transport.go:646-795 | commits and reads are the ones the calls and replies alone determine: each setter commits the field and token asked for, each refresh the pair granted to it, obtained with the newest refresh token, and nothing else commits |
| TokenLock.SetCompletes | internal/transport/transport.go:652-664 | with the lock free a setter goes through and replaces that token alone |
| TokenLock.ReadCompletes | internal/transport/transport.go:646-650 | while nobody writes a read goes through and shows the token |
| TokenLock.RefreshCompletes | internal/transport/transport.go:676-795 | with the lock free a granted refresh goes through, presents the current refresh token and installs what it was granted |
| TokenLock.RefusedCompletes | internal/transport/transport.go:676-783 | a refused refresh, and one that cannot be sent, give the lock back |
| TokenLock.RefreshIsAlone | internal/transport/transport.go:676-678 | while one goroutine refreshes every other one is outside the lock |
| TokenLock.FailedRefreshChangesNothing | internal/transport/transport.go:676-795 | from taking the lock to giving it back, whatever others do meanwhile, a refresh that writes no token, refused or never sent, leaves tokens and log untouched |
| Headers.FoldIsCanonical | internal/transport/transport.go:446-449 | a caller's name folds to Idempotency-Key if and only if it is stored under that name |
| Headers.CanonicalExactly | internal/transport/transport.go:434-436 | two header names are stored under one name if and only if they differ in case alone |
| Headers.SetAllOverrides | internal/transport/transport.go:434-436 | agreeing extra headers override the client's own, whatever the order |
| Headers.SetAllKeeps | internal/transport/transport.go:434-436 | a header no extra name maps to keeps its value |
| Dpop.Prover.SetServerNonce | dpop/dpop.go:34-38 | the nonce is replaced |
| Dpop.Prover.CreateProof | dpop/dpop.go:46-83 | method, URI and id are claimed as given; nonce and `ath` claims are present exactly when nonce and token are non-empty, and name them |
| Backoff.NhiBase | nhi/renewal.go:146-154 | the early-capped loop computes min(base*2^(n-1), cap) for every integer attempt |
| Backoff.NhiBackoff | nhi/renewal.go:146-157 | the wait lies in [b, 2b) for that b |
| Backoff.NhiBackoffExactly | nhi/renewal.go:155-168 | every value in [b, 2b) is some wait, and no other |
| Backoff.GoMatchesTypeScript | typescript/src/index.ts:827-830 | the Go delay is the TypeScript formula for every attempt |
| Backoff.RenewerDelayExact | credential/renewer.go:173-177 | for every non-zero base, iterative doubling equals the closed form for ever if and only if 0 < base <= cap < 2^62 |
| Backoff.RenewerDelayNominalUpTo | credential/renewer.go:173-177 | under that condition the delay of attempt n is min(base*2^(n-1), cap) |
| Backoff.RenewerDelayWraps | credential/renewer.go:174-177 | with a cap of 2^62 or more it does not |
| Backoff.TransportDelayNominal | internal/transport/transport.go:567-573 | whenever base*2^(n-1) fits the delay is the closed form, and the wait lies between half of it and all of it |
| Backoff.TransportDelayExact | internal/transport/transport.go:567-571 | for every int64 base, attempts 1 to n all have the closed-form delay if and only if base*2^(n-1) fits in an int64, or the base is one nanosecond and the platform's conversion reaches the cap from the 64th on |
| Backoff.OverflowIsNegative | internal/transport/transport.go:568-571 | the first product that does not fit gives a negative delay |
| Backoff.HalfJitteredBounds | credential/renewer.go:181-190 | half the delay plus jitter lies between half the delay and the delay |
| Backoff.HalfJitteredExactly | credential/renewer.go:166-190 | every value from half the delay up to twice that half is some wait, and no other |
| NhiExchange.ExchangeIsVetted | nhi/provider.go:225-374 | what an exchange yields is vetted on that exchange's own evidence: non-empty, with the metadata of the package in the deciding reply, encrypted for the key whose public half was posted or allowed in plaintext, signed when a policy key is configured, after at most two posts of one payload |
| NhiExchange.ExchangeExactly | nhi/provider.go:225-374 | an exchange yields `c` if and only if all preparations succeeded and the deciding reply is a 200 with a package whose metadata `c` has and whose values are non-empty, delivered and signed as configured |
| NhiExchange.DecodeExactly | nhi/provider.go:342-374 | the same for one package |
| NhiExchange.PostsExactly | nhi/provider.go:249-340 | what is posted: environment, attestation, target, tenant and key, with a proof for a POST to the exchange endpoint; a second time exactly after a 401 with a nonce and with a proof to be had; the prover keeps the first reply's nonce |
| NhiExchange.Exchanger.DecodePackage | nhi/provider.go:342-374 | the check-by-check method agrees with the acceptance that DecodeExactly characterises |
| NhiExchange.Exchanger.Exchange | nhi/provider.go:225-340 | result, prover nonce and posts as in the reference exchange; every credential is vetted on its own evidence; a second post happens only after a 401 with a nonce, which it carries |
| NhiRenewal.RenewIsWellNumbered | nhi/renewal.go:91-119 | from any attempt on: failures numbered without gaps, then at most one success with their number, as many exchanges as events, every wait in its range |
| NhiRenewal.RenewLaw | nhi/renewal.go:91-119 | for every environment one renewal makes at most ten exchanges and is numbered that way from one |
| NhiRenewal.RenewExactly | nhi/renewal.go:91-119 | what a renewal does is decided by its first pass that delivers or is cancelled, and by the tenth if there is none: the store gets what that pass delivers and nothing otherwise, and exchanges, events and waits follow; without delivery or cancellation there are exactly ten exchanges |
| NhiRenewal.Renewal.Fail | nhi/renewal.go:109-111 | one failed pass adds one exchange, one numbered event and one wait |
| NhiRenewal.Renewal.Succeed | nhi/renewal.go:103-107 | the delivered credential is stored and reported |
| NhiRenewal.Renewal.FailUntil | nhi/renewal.go:92-118 | the passes up to a credential or the end log exactly the failed part of the recursive renewal |
| NhiRenewal.Renewal.RenewLoop | nhi/renewal.go:92-119 | the loop does what the recursive renewal does, from any attempt number |
| NhiRenewal.Renewal.Renew | nhi/renewal.go:91-119 | the store is untouched without a success and holds the delivered credential with one |
| ProviderProtocol.InvStep | nhi/provider.go:145-183 | every step of a caller or of a loop keeps the protocol invariant |
| ProviderProtocol.InvAlways | nhi/provider.go:145-183 | so does every run |
| ProviderProtocol.AlwaysSafe | nhi/renewal.go:45-119 | in every interleaving: one live loop, one exchange in flight, no channel closed twice, a Stop waits for its own cancelled loop, at most one store write after a cancellation; a started provider has a credential and a live loop that is not cancelled, a stopped one has neither, and from storing to clearing the store is never empty; every credential in the store or on its way was yielded by an exchange of that run, vetted with its key, package and posts; the store holds the newest one obtained; exchanges pass the nonce on |
| ProviderProtocol.DrainLoop | nhi/renewal.go:57-89 | a cancelled loop is at most five steps from closing the channel its Stop waits for |
| ProviderProtocol.StopNeverStuck | nhi/renewal.go:57-71 | from every reachable state a waiting Stop can go on after at most five loop steps |
| ProviderCalls.StartCompletes | nhi/provider.go:145-172 | from rest, a Start whose exchange yields `c` goes through: the provider is started, `c` is in the store, and a new loop is there that is not cancelled |
| ProviderCalls.StartFails | nhi/provider.go:163-166 | a Start whose exchange fails leaves a stopped provider as it was |
| ProviderCalls.NothingToDo | nhi/provider.go:148-150 | a Start of a started provider and a Stop of a stopped one change nothing |
| ProviderCalls.StopCompletes | nhi/provider.go:174-183 | from rest, a Stop of a started provider can run to its end, and leaves no credential and no loop |
| ProviderCalls.TenFailures | nhi/renewal.go:91-119 | a loop that is not cancelled makes ten exchanges when all fail, and then sleeps again with the store as it was |
| ProviderCalls.SuccessAfterFailures | nhi/renewal.go:91-119 | when nine or fewer fail before one yields `c`, `c` is in the store and the history has these exchanges and no other |
| ProviderCalls.LateWriteHappens | nhi/renewal.go:94-107 | a loop that passed its checks before it was cancelled still stores what its exchange yields |
| CredentialStore.CopyCredential | nhi/store.go:100-110 | a fresh object with a fresh map and equal contents |
| CredentialStore.ZeroizeCredential | nhi/store.go:112-131 | no values and blank metadata are left in the object |
| CredentialStore.Store.Get | nhi/store.go:68-75 | nothing once expired, otherwise a copy that shares nothing with the store |
| CredentialStore.Store.Set | nhi/store.go:77-82 | keeps a faithful private copy of every credential that is not the store's own, and wipes what it replaces |
| CredentialStore.Store.Clear | nhi/store.go:84-89 | empties the store and wipes what it held |
| CredentialStore.Store.ExpiresAt | nhi/store.go:91-98 | the last moment at which Get hands the stored credential out, the zero time for an empty store |
| CredentialStore.SetOfGet | nhi/store.go:68-82 | putting back what Get returned preserves the stored value although Set wipes first |
| CredentialStore.TamperWithCopy | nhi/store.go:68-75 | changing one copy affects neither the store nor another copy |
| MemStore.Wipe | credential/memstore.go:118-122 | every byte is zero |
| MemStore.Store.Pin | credential/mlock_unix.go:7-13 | only a non-empty buffer is locked, as the system decides |
| MemStore.Store.Unpin | credential/mlock_unix.go:15-20 | the buffer leaves the locked set, and unlocking one that is not wiped would be noticed |
| MemStore.Store.Retire | credential/memstore.go:65-79 | an entry's buffer is zero before it is unlocked |
| MemStore.Store.Replace | credential/memstore.go:34-47 | the old buffer is wiped and unlocked, the new one entered, the locked set stays exact |
| MemStore.Store.Put | credential/memstore.go:24-49 | the map is updated with a private copy of the value, locked exactly when it is non-empty and the system allows it; the empty key is refused and changes nothing |
| MemStore.Store.Retrieve | credential/memstore.go:51-63 | a fresh copy of what the map holds, or nothing exactly when the key is absent |
| MemStore.Store.Zeroize | credential/memstore.go:65-79 | the key is removed and its buffer wiped and unlocked |
| MemStore.Store.ZeroizeAll | credential/memstore.go:81-92 | everything is removed, every buffer wiped, nothing stays locked |
| MemStore.LockedReplaced | credential/memstore.go:34-47 | replacing an entry changes the set of locked buffers by exactly the two buffers involved |
| MemStore.PerformAll | credential/memstore.go:24-92 | any run of operations answers like the same run on a plain map |
| CredentialRenewer.RenewalLaw | credential/renewer.go:128-179 | for every script: no pass follows one that is stored or cancelled at its check or in its wait; the passes before that fail, are numbered from one and wait with the delay of their number; the last one is a stored credential, its expiry and a success with the number of the pass, or a failure |
| CredentialRenewer.WinnerExactly | credential/renewer.go:134-151 | a renewal has a winner if and only if its last pass has a grant and the key is not empty |
| CredentialRenewer.RenewalIsPaced | credential/renewer.go:166-177 | with 0 < base <= cap < 2^62 wait number i lies between half of min(base*2^(i-1), cap) and all of it |
| CredentialRenewer.WritesTogether | credential/renewer.go:134-151 | the store is written at most once, the expiry right after it from the same grant, both exactly when a pass renewed, and nothing but the report follows |
| CredentialRenewer.Renewer.constructor | credential/renewer.go:40-51 | zero delays stand for one second and thirty seconds |
| CredentialRenewer.Renewer.TryRenew | credential/renewer.go:134-140 | store and expiry change together, or neither does |
| CredentialRenewer.Renewer.OnePass | credential/renewer.go:131-172 | one pass of the loop |
| CredentialRenewer.Renewer.PerformRenewal | credential/renewer.go:128-179 | the loop over `attempt` and `delay` leaves the trace of the recursive renewal, and store and expiry of the winning grant |
| RenewerProtocol.InvStep | credential/renewer.go:53-106 | every step under a discipline in which no Start begins inside a Stop keeps the invariant |
| RenewerProtocol.AlwaysSafe | credential/renewer.go:53-106 | under it: one live loop, none at rest, no channel closed twice, a Stop waits for its own loop, no write by an older loop after a Stop returned, no expiry before the credential of the same renewal |
| RenewerProtocol.FinishStop | credential/renewer.go:64-79 | wherever a Stop is, at most eight steps let it return |
| RenewerProtocol.StopNeverStuck | credential/renewer.go:64-79 | so no reachable state is a deadlock, and no loop is left |
| RenewerProtocol.RestartAnyNumberOfTimes | credential/renewer.go:53-79 | from rest it can be started and stopped any number of times, with a new loop each time |
| RenewerProtocol.RetriesUntilGranted | credential/renewer.go:128-179 | a loop that is not cancelled retries however often its renewals fail, and when one is granted writes the credential and then the expiry of that renewal, and sleeps again |
| RenewerProtocol.StartSafeExactlyOutsideStop | credential/renewer.go:53-79 | one more Start can lead the loops to a double close if and only if a Stop is under way |
| RenewerProtocol.StartInsideStop | credential/renewer.go:53-79 | in every state reached without one, a Start inside a Stop can let a Stop that waited return and the old loop write afterwards if and only if the key is non-empty and that loop is neither exiting nor dead |
| RenewerProtocol.StopInsideStop | credential/renewer.go:64-71 | in every state reached without a Start inside a Stop, after a Stop that returns at once a loop can still write if and only if the key is non-empty and the newest loop is neither exiting nor dead; with no other Stop under way it is dead |
| RenewerProtocol.StopInsideStopHappens | credential/renewer.go:53-71 | such a state, with a Stop under way and a loop that may still write, is reached |
| DsnTemplate.ReplaceIsFill | nhi/sqldriver.go:74-78 | replacing one placeholder in the text is filling that key in the tokens, as long as the literals between placeholders hold no open brace pair |
| DsnTemplate.UnresolvedIsReported | nhi/sqldriver.go:79-82 | a placeholder without a credential gives an error in every map order, whatever literals and values hold |
| DsnTemplate.FillingExact | nhi/sqldriver.go:68-84 | for plain keys and names, any literals, any values and every map order, the result is the simultaneous substitution, and an error exactly when a placeholder has no credential, if and only if the filled text holds no open brace pair |
| DsnTemplate.ValuesExact | nhi/sqldriver.go:68-84 | credentials safe with every template whose literals hold no brace are exactly those in which no value holds an open brace pair and no value ending in a brace can meet one beginning with one |
| DsnTemplate.PlaceholderSurvives | nhi/sqldriver.go:76-76 | replacing one placeholder leaves every other one in the text where it is |
| DsnTemplate.NestedValueBreaksOrder | nhi/sqldriver.go:74-82 | whenever one value is another key's placeholder, two orders of the map give different results |
| DsnTemplate.BuildDsn | nhi/sqldriver.go:68-84 | the loop over the map is one such order, so its result is the simultaneous substitution if and only if the filled text holds no open brace pair |
| PathUtil.EscapeRoundTrip | internal/pathutil/pathutil.go:17-17 | percent-decoding undoes percent-encoding for every byte string |
| PathUtil.EscapeExactly | internal/pathutil/pathutil.go:17-17 | letters, digits and ten punctuation characters stand for themselves; every other byte becomes a percent sign and two upper-case hex digits |
| PathUtil.EscapeParts | internal/pathutil/pathutil.go:25-34 | the loop accepts exactly when every trimmed part is a usable segment, and yields all of them encoded in order |
| PathUtil.SlashPath | internal/pathutil/pathutil.go:20-35 | the three outcomes by the list of trimmed segments |
| PathUtil.KvEndpointIsJoined | secrets/secrets.go:140-150 | the endpoint is the encoded segments joined under `/v1` |
| PathUtil.KvAcceptedExactly | internal/pathutil/pathutil.go:9-35 | which requests are accepted, which are reported as missing a part, and which as invalid, by their trimmed parts |
| PathUtil.SlashesDoNotMatter | internal/pathutil/pathutil.go:21-21 | slashes around a secret path do not matter |
| PathUtil.KvPathDecodes | secrets/secrets.go:140-150 | splitting and decoding such a path gives back the trimmed engine and segments |
| KvUrls.KvUrlDecodes | internal/transport/transport.go:496-533 | the same through buildURL, for every normalised configuration: cleaning never alters a KV endpoint |
| KvUrls.KvUrlsExact | internal/transport/transport.go:521-532 | distinct secrets have distinct URLs if and only if the API base path is not itself a KV data path |
| KvUrls.BaseIsGood | internal/transport/transport.go:586-636 | a normalised configuration always yields a rooted base path without a trailing slash |
| Urls.JoinUnderBase | internal/transport/transport.go:532-532 | joining plain segments under a rooted base cleans the base only |
| Urls.BuildUrlExactly | internal/transport/transport.go:496-542 | every rooted, trimmed route: at or under the base path, or beside the API (health, ready, version, metrics, docs, well-known, scim, oid4vci, oauth, auth/token, cli/device, dpop, pam), it goes to the base URL as it is; any other loses its version, and its segments are cleaned onto those of the base path |
| Urls.UrlOfSpelling | internal/transport/transport.go:497-511 | space around a route and a missing slash before it do not matter |
| Urls.AbsoluteIsRefused | internal/transport/transport.go:501-508 | only an absolute URL is refused |
| Urls.CleanCancels | internal/transport/transport.go:532-532 | cleaning drops empty segments and dots, lets two dots take the segment before them, and stops at the root |
| Urls.CleanBasePathExactly | internal/transport/transport.go:627-636 | a configured base path is taken as it is but for slashes after it, and is the default when there is none |
| Urls.BasePathChosen | internal/transport/transport.go:513-519 | the API base path counts, then the older setting, then the default |
| Urls.RouteSpellings | internal/transport/transport.go:496-542 | p, "/v1"+p and base+p name one URL, and that URL's path names itself |
| Urls.DefaultBaseIsClean | internal/transport/transport.go:627-636 | the default base path meets the hypothesis of that law |
| Urls.BaseUrlWithApiPath | internal/transport/transport.go:610-625 | a base URL ending in the API path normalises like the one without it if and only if the shorter one does not end in it too |

## Left out

- The service packages (agent, audit, device, policy and so on, and the rest of secrets): field checks and one transport call each.
- Real cryptography, JSON, base64, JWT signing and the hardware and environment probes of nhi: their outcomes are parameters.
- `url.Parse`, tracing, `BuildQueryURL`, `normalizeBackendURL` and `net/http` beyond one request and one reply; a reply's status has three digits where Do and DoStream are compared.
- Conformance of the proof's `htu` claim: the code passes the whole URL including the query.
- Error messages, request ids in errors, timestamps and the rate-limit header fields; an error is its type, code and status.
- The waits between attempts are not part of a run's log; `Backoff` is about their length, the script about their cancellation.
- Header names and methods outside ASCII, on which Go folds differently; `net/http` refuses to send such names.
- The mirror fields `config.AccessToken` and `config.RefreshToken`, which nothing modelled reads, and the `OnTokenRefreshed` callback.
- Callbacks that call back into Start, Stop or the token setters.
- The TypeScript provider's lifecycle, which lets an exchange that is in flight during `stop()` store its result.
- Backoff.TransportDelayExact: leaves out a negative RetryMaxDelay, under which every delay is negative.
- DsnTemplate.FillingExact: leaves out credential keys and placeholder names that hold braces.
- Changes of the detected environment between two Starts of a provider: it is fixed here.
- How long the loops sleep (`nextRenewalIn`, `renewalSleep`): the timer may fire at any time.
- A failing `munlock`, which the code ignores.
- Keys, Len and Has of MemStore, and the metadata accessors of the NHI credential: they only read.
- CredentialStore.Store.Set: says nothing about the stored copy when a caller passes the store's own object, which no caller can hold.
- RenewerProtocol.AlwaysSafe: the silence of a Stop that found nothing to stop is stated only for runs in which no two calls overlap, because it fails otherwise, as RenewerProtocol.StopInsideStop states.
