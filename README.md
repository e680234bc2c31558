# NonceSense proof-of-work captcha, modelled in Dafny

NonceSense is a proof-of-work captcha. The server hands out a random
16-character challenge and a difficulty d. The browser searches for the least
natural number n such that the lowercase hex SHA-256 digest of `challenge`
followed by the decimal digits of n starts with d `'0'` characters. It sends
that nonce back, and the server checks the digest against its configured
difficulty. A challenge can be used once. A per-address counter limits
requests in fixed windows. An address with more than five recent successes is
issued one more zero.

The model covers the following parts of the system. The module that models
each part is in brackets.

- The nonce search, in its three copies:
  - the JavaScript `jsSolver` (`PowJs.JsSolver`);
  - the Rust/WebAssembly `solve_pow` (`WasmSolver.SolvePow`);
  - the inline loop of the React component (`ReactCaptcha.InlineSearch`).

  Each is proved to return the least solving nonce within its own range. The
  two JavaScript loops do so whenever some nonce solves, since otherwise they
  never stop. `solve_pow` does so whenever that nonce is below 2^64, and
  otherwise returns "0". They share the
  search predicate `PowSearch.Solves`, the decimal rendering
  `Encoding.Decimal` and the hex rendering `Encoding.Hex`. The JavaScript
  rendering of each byte, `toString(16)` padded to two characters
  (`Encoding.JsHex`), is proved equal to the Rust/Python one.
- The vanilla client `pow.js` (`PowJs`). It is a class `PowWidget` holding:
  - the globals `wasmReady` and `solveWasmPow`;
  - the widget's view;
  - a pending reset.

  Two further pieces are pure functions:
  - `ChooseSolver`, the solver choice;
  - `Classify`, the classification of the `/verify` answer.
- The React component `NonceCaptcha` (`ReactCaptcha`). It is a class holding:
  - the `status` and `loading` state;
  - the calls of `onVerify` so far.

  The status an attempt ends with is a function, and so is the render choice
  over `(loading, status)`.
- The FastAPI server `main.py` (`Backend`). Its parts:
  - The Valkey store is a map of values with a map of times to live.
  - The commands `get`, `setex`, `incr`, `exists`, `delete` and `expire` are
    functions on the store.
  - Each endpoint is specified by a function from the store before the request
    to the reply and the store after it: `RateCheck`, `DynamicDifficulty`,
    `IssueChallenge` and `VerifyProof`.
  - The class `PowServer` performs the same steps one command at a time, and
    each method is proved to agree with the function.
- The system end to end (`EndToEnd`): how each server answer is read by each
  client, and the honest round from challenge to "Verified".

The hash functions are a parameter `H: (HashAlgo, string) -> 32 bytes`, which
also absorbs the UTF-8 encoding of the input. HTTP, `fetch`, JSON and the
random number generator are replaced by parameters:
- the reply of `/challenge`;
- the reply of `/verify`;
- the challenge token;
- the client address.

## Model

| member | source | states |
|---|---|---|
| Encoding.Decimal | frontend/pow.js:24 | the decimal rendering of a nonce is non-empty, all digits, and starts with '0' only for 0 |
| Encoding.DecimalRoundTrip | frontend/wasm/src/lib.rs:12 | parsing the decimal rendering gives back the nonce |
| Encoding.DecimalInjective | frontend/pow.js:29 | distinct nonces have distinct decimal renderings |
| Encoding.Hex | frontend/wasm/src/lib.rs:10 | hex encoding gives two characters per byte, each the hex digit of one four-bit group, high group first |
| Encoding.HexIsLowercase | frontend/wasm/src/lib.rs:10 | every character of the hex encoding is a lowercase hex digit |
| Encoding.ByteJsHex | frontend/pow.js:28 | `b.toString(16).padStart(2, "0")` is the two hex digits of the byte |
| Encoding.JsHexIsHex | frontend/pow.js:27-28 | the JavaScript map/join rendering equals the hex encoding used by Rust and Python |
| Encoding.ZeroPrefixIff | frontend/pow.js:29 | `startsWith("0".repeat(d))` holds iff the string has at least d characters and the first d are '0' |
| Encoding.ZeroPrefixMonotone | backend/app/main.py:69 | a prefix of d zeros implies a prefix of every k <= d zeros |
| Encoding.HexZeroPrefix | frontend/wasm/src/lib.rs:11 | the hex encoding starts with d zeros iff d <= 2·length and the first d four-bit groups are 0 |
| Encoding.JsHex | frontend/pow.js:27-28 | the JavaScript rendering has two characters per byte, each a lowercase hex digit |
| Encoding.ContainsIff | frontend/pow.js:107 | `includes` holds iff the substring occurs at some position |
| Encoding.ContainsInfix | frontend/pow.js:107 | `includes` finds the substring between any prefix and suffix |
| Encoding.MissingCharNotContained | frontend/pow.js:107 | a string lacking one of the substring's characters does not include it |
| PowSearch.LeastNonceExists | frontend/pow.js:20-31 | if any nonce solves, a least solving nonce exists at or below it |
| PowSearch.LeastNonceUnique | frontend/pow.js:20-31 | the least solving nonce is unique |
| PowSearch.LeastNonce | frontend/pow.js:20-31 | the least solving nonce solves, and every smaller nonce fails |
| PowSearch.LeastNonceIff | frontend/pow.js:20-31 | a nonce is the least solving nonce iff it solves and all smaller ones fail |
| PowSearch.ZeroDifficulty | frontend/pow.js:21 | with difficulty 0 the empty prefix always matches, so the search answers 0, rendered "0" |
| PowSearch.JsAttemptHex | frontend/pow.js:24-29 | the hash the JavaScript loop computes for a nonce is the hex digest of the attempt, and its zero-prefix test is exactly `Solves` |
| PowSearch.NoSolutionAboveHexLength | frontend/wasm/src/lib.rs:6-11 | no nonce solves a difficulty above 64, since the hex digest has 64 characters |
| PowSearch.SolvesMonotone | backend/app/main.py:69 | a nonce solving difficulty d solves every lower difficulty |
| PowSearch.SolvesIffLeadingZeroNibbles | frontend/wasm/src/lib.rs:9-11 | a nonce solves d iff d <= 64 and the first d four-bit groups of its digest are zero |
| WasmSolver.SolvePow | frontend/wasm/src/lib.rs:5-16 | returns the least solving nonce when one fits in a u64, the fallback "0" otherwise, and "0" for every difficulty above 64 |
| WasmSolver.ZeroDifficultyGivesZero | frontend/wasm/src/lib.rs:6-12 | difficulty 0 returns "0" |
| WasmSolver.SolversAgree | frontend/wasm/src/lib.rs:5-14 | when the least solving nonce fits in a u64, `solve_pow` returns the same string as the portable search |
| PowJs.JsSolver | frontend/pow.js:20-32 | returns the decimal rendering of the least nonce whose lowercase hex SHA-256 starts with d zeros |
| PowJs.ChooseSolver | frontend/pow.js:85 | the accelerated solver is chosen only with a handle, and, when the flag implies a handle, exactly when the flag is set |
| PowJs.Classify | frontend/pow.js:101-115 | 429 means rate limited, whatever the body; a failed request or a body that does not parse is an error; a message containing "expired" is an expiry, carrying that message; otherwise success is verified, whether or not a message comes with it; a rejection has a non-empty message |
| PowJs.Show | frontend/pow.js:101-119 | no outcome leaves the spinner; the checkbox shows iff rate limited; the status is styled as success iff verified; success shows "Verified" and an error "Error during verification"; an expiry or rejection shows its message; a reset is pending iff the outcome is neither rate limiting nor success, and it fires after 2000 ms |
| PowJs.RateLimitIgnoresBody | frontend/pow.js:101-103 | status 429 is rate limiting without reading the body, even one claiming success |
| PowJs.ExpiredBeforeSuccess | frontend/pow.js:107-111 | a message containing "expired" wins over `success: true` |
| PowJs.RejectionDefaultsMessage | frontend/pow.js:112-114 | a failure without a message, or with an empty one, shows "Verification failed" |
| PowJs.RetryUnlessVerified | frontend/pow.js:101-119 | every outcome but success gives back the checkbox, at once or after the 2000 ms reset; only success is shown as success |
| PowJs.PowWidget.constructor | frontend/pow.js:1-2 | at page load both WebAssembly globals are unset and the checkbox shows |
| PowJs.PowWidget.LoadWasmSolver | frontend/pow.js:8-18 | a successful load sets the handle and then the flag; a failed import or initialisation changes neither; `wasmReady` implies a handle |
| PowJs.PowWidget.ResetFires | frontend/pow.js:109 | the scheduled `renderInitial` brings back the checkbox and keeps the WebAssembly globals consistent |
| PowJs.PowWidget.SolveChallenge | frontend/pow.js:75-121 | the accelerated solver is used iff the flag is set when the `/challenge` reply has arrived; the proof carries the challenge as received, the solver's nonce and "sha256"; the screen is the rendering of the classified answer; an exception of the `/challenge` request or of the search itself sends no proof and shows "Error during verification" with a reset |
| ReactCaptcha.InlineSearch | frontend/react-example/src/NonceCaptcha.tsx:20-32 | the inline loop stops at the least solving nonce, the same as `jsSolver` |
| ReactCaptcha.AttemptStatus | frontend/react-example/src/NonceCaptcha.tsx:44-55 | the status is "Verified" iff a challenge was issued, the search did not throw and the answer says success; every other status starts with "Error: "; any exception, from either request, from parsing the `/verify` body or from the search, gives "Error: Error during verification."; a rejection is "Error: " followed by the message, or by "Verification failed" when there is none |
| ReactCaptcha.NoRateLimitOrExpiryCase | frontend/react-example/src/NonceCaptcha.tsx:46-51 | a 429 is shown as "Error: Verification failed", and any message, including an expiry, as "Error: " plus the message |
| ReactCaptcha.Render | frontend/react-example/src/NonceCaptcha.tsx:121-157 | spinner iff loading; checkbox iff not loading and status empty; otherwise the status, in the success style iff it is "Verified" |
| ReactCaptcha.CheckboxGoneAfterAttempt | frontend/react-example/src/NonceCaptcha.tsx:121-157 | after any attempt the checkbox is not rendered again; the status is styled as success or as error |
| ReactCaptcha.NonceCaptcha.constructor | frontend/react-example/src/NonceCaptcha.tsx:9-10 | the state starts as empty status, not loading, so the checkbox shows |
| ReactCaptcha.NonceCaptcha.Begin | frontend/react-example/src/NonceCaptcha.tsx:13-14 | an attempt clears the status and shows the spinner |
| ReactCaptcha.NonceCaptcha.Finish | frontend/react-example/src/NonceCaptcha.tsx:16-57 | loading ends on every path; the proof carries challenge, `nonce.toString()` and "sha256"; `onVerify` is called exactly once, with that challenge and nonce, and only on success; a failed `/challenge` request or a throwing search sends no proof and calls nothing |
| ReactCaptcha.NonceCaptcha.SolveCaptcha | frontend/react-example/src/NonceCaptcha.tsx:12-58 | a whole attempt: the final status, the proof, the `onVerify` calls, and the checkbox not rendered afterwards |
| Backend.KeysDisjoint | backend/app/main.py:23-48 | the rate, success and challenge keys never collide |
| Backend.ChallengeKeyInjective | backend/app/main.py:48 | distinct challenges have distinct keys |
| Backend.RateCheck | backend/app/main.py:22-30 | allows iff the counter is absent or below the limit; the counter becomes 1, stays, or grows by one; the window's time to live is set only by the first call; a refusal changes nothing; no other key changes |
| Backend.AllowedFromCount | backend/app/main.py:28-30 | from a counter c >= 1, exactly min(calls, max(0, limit - c)) of the next calls are allowed |
| Backend.AllowedInFreshWindow | backend/app/main.py:25-30 | in a fresh window exactly min(calls, max(1, limit)) calls are allowed |
| Backend.ServeAll | backend/app/main.py:44-60 | of a run of requests at most all get through, and at least the first when the address has no counter yet |
| Backend.ServeAllCounts | backend/app/main.py:44-60 | successive requests of either endpoint are counted on the one rate counter |
| Backend.DefaultWindowLimit | backend/app/config.py:9-10 | with the default limit of 10 per 60-second window, exactly min(calls, 10) requests of a fresh window get through |
| Backend.SharedWindowLimit | backend/app/main.py:44-60 | per address and window, at most max(1, RATE_LIMIT) requests to `/challenge` and `/verify` together get through |
| Backend.DynamicDifficulty | backend/app/main.py:33-38 | the difficulty is POW_DIFFICULTY + 1 iff the success counter exceeds 5, otherwise POW_DIFFICULTY |
| Backend.ParseAlgo | backend/app/utils.py:4-10 | the algorithm recognised is the one whose name was given; no algorithm is recognised iff the name is none of theirs |
| Backend.ParseAlgoRoundTrip | backend/app/utils.py:5-7 | each algorithm is found by its own name |
| Backend.HashData | backend/app/utils.py:4-10 | fails exactly for names other than "sha256" and "blake3"; otherwise 64 hex characters |
| Backend.Accepts | backend/app/main.py:67-69 | a proof is accepted iff its algorithm is known, POW_DIFFICULTY <= 64, and the first POW_DIFFICULTY four-bit groups of its digest are zero |
| Backend.IssueChallenge | backend/app/main.py:41-54 | refused iff rate limited, with nothing written; otherwise returns the token, the dynamic difficulty and CHALLENGE_TTL, and stores the token's key with that lifetime; only the rate and challenge keys change |
| Backend.VerifyProof | backend/app/main.py:57-77 | rate check first; a missing challenge key gives the expiry message; success iff the key exists and the digest has POW_DIFFICULTY zeros; success deletes the key, increments the success counter and sets its lifetime to 120, keeps the rate window's lifetime from the rate check, and changes no other key; a failure changes only the rate counter and gives "Invalid PoW solution" or "Unsupported hash algorithm" |
| Backend.SolutionOfIssuedDifficultyAccepted | backend/app/main.py:46-69 | a nonce solving the issued difficulty, under either algorithm, passes the check against POW_DIFFICULTY |
| Backend.IssueThenVerify | backend/app/main.py:41-73 | issue, solve at the issued difficulty, verify: "Valid solution." |
| Backend.StepKeepsChallengeMissing | backend/app/main.py:41-77 | a missing challenge key stays missing through any request or lapse other than a `/challenge` drawing the same token |
| Backend.RunKeepsChallengeMissing | backend/app/main.py:41-77 | the same through any sequence of such events |
| Backend.MissingChallengeExpired | backend/app/main.py:62-64 | a verify that passes the limiter and finds no challenge key gets the expiry message |
| Backend.ChallengeSingleUse | backend/app/main.py:62-73 | after a successful verify, every later verify of that challenge, from any address and after any requests and lapses in between that do not draw the same token again, gets the expiry message |
| Backend.LapsedChallengeExpired | backend/app/main.py:49-64 | once a challenge's lifetime runs out, its verify gets the expiry message |
| Backend.Serve | backend/app/main.py:44-60 | any request is let through iff the rate counter allows it, and advances that counter |
| Backend.PowServer.constructor | backend/app/main.py:9 | the server starts on a well-formed store |
| Backend.PowServer.CheckRateLimit | backend/app/main.py:22-30 | the GET/SETEX/INCR steps give the reply and store of `RateCheck` |
| Backend.PowServer.GenerateChallenge | backend/app/main.py:41-54 | the steps give the reply and store of `IssueChallenge` |
| Backend.PowServer.VerifySolution | backend/app/main.py:57-77 | the steps give the reply and store of `VerifyProof` |
| Backend.PowServer.KeyLapses | backend/app/main.py:49 | a key that existed and whose lifetime ran out is gone; the store stays well-formed |
| EndToEnd.ToWire | backend/app/main.py:29 | a 429 reaches the client with status 429, no `success` and no `message`; any other answer has status 200 and carries the server's message; success is seen iff the server replied success |
| EndToEnd.ExpiryMessageMarked | backend/app/main.py:64 | the server's expiry message contains the client's "expired" marker |
| EndToEnd.OtherMessagesUnmarked | backend/app/main.py:73-77 | no other server message contains it |
| EndToEnd.ClassifyMarked | frontend/pow.js:107-109 | a 200 answer mentioning "expired" is shown as expired, whatever `success` says |
| EndToEnd.ClassifyUnmarked | frontend/pow.js:110-114 | any other non-empty message is read by `success` alone |
| EndToEnd.ClassifyServerAnswer | frontend/pow.js:101-115 | how the vanilla client reads each answer the server can give |
| EndToEnd.VanillaClientReadsServer | frontend/pow.js:101-115 | the vanilla client shows rate limiting iff the server refused, expiry iff the challenge key was missing, "Verified" iff the server accepted, and otherwise the server's rejection message; never the exception text |
| EndToEnd.ReactClientReadsServer | frontend/react-example/src/NonceCaptcha.tsx:44-51 | the React status is "Verified" iff the server accepted; otherwise "Error: " with the server's message or the default |
| EndToEnd.HonestRoundVerified | backend/tests/test_pow_api.py:26-52 | an issued challenge answered with the least solving nonce and "sha256" is accepted with "Valid solution.", is then gone, and the client shows "Verified" |

## Left out

- SHA-256 and BLAKE3 themselves, and the UTF-8 encoding of the input, are an uninterpreted parameter returning 32 bytes.
- Asynchronous behaviour is not modelled:
  - `async`/`await` and the interleaving of `loadWasmSolver` with a solve. The globals are read at frontend/pow.js:85, once the `/challenge` reply has arrived; with no interleaving, that is the same as reading them when the attempt starts;
  - the 2000 ms `setTimeout`, which is modelled as a pending reset;
  - a second click while a solve is running.
- PowJs.PowWidget.SolveChallenge: does not model the checkbox `disabled` flag (frontend/pow.js:76-77, 123), which belongs to the DOM element.
- PowJs.JsSolver and ReactCaptcha.InlineSearch: nonces are unbounded naturals. JavaScript numbers lose exactness above 2^53 and print in exponent notation from 10^21, and the model does not follow them there.
- PowJs.JsSolver and ReactCaptcha.InlineSearch require that some nonce solves the challenge. Otherwise the source loops forever, and the model has no result to describe.
- WasmSolver.SolvePow: reaching 2^64 is modelled as leaving the loop and returning "0". The compiled Rust instead overflows at the end of the `u64` range, panicking or wrapping depending on the build profile.
- PowJs.PowWidget.SolveChallenge: passes the difficulty to `solve_pow` modulo 2^32, as the WebAssembly binding converts a number to `u32`. Non-integer or negative difficulties are not modelled; the server sends naturals.
- A non-2xx `/challenge` answer is not modelled: its JSON body has no `challenge` or `difficulty`, and the clients would go on with `undefined`. The clients never look at that status, and the model only has an issued challenge or an exception.
- `refreshChallenge` (frontend/pow.js:126-133) refers to globals that do not exist. It is dead code and is not modelled.
- On a 429 the vanilla client writes "Too many attempts. Please wait and try again." and at once calls `renderInitial` (frontend/pow.js:102-103), so that text never stays on screen. `PowJs.Show(RateLimited)` is therefore the checkbox itself, and the text is not part of the model.
- The markup is not modelled, only which of them is shown:
  - the DOM and SVG of `renderInitial`, `renderSpinner` and `renderStatus`;
  - the React JSX;
  - frontend/react-example/src/App.tsx.
- Time is not modelled:
  - the token is drawn by `random.choices`, and the model takes it as a parameter;
  - Valkey's wall-clock expiry is one explicit operation, `Lapse` / `PowServer.KeyLapses`;
  - the passing of a rate window is not a separate operation.
- Backend.Config: environment loading (backend/app/config.py) is a `Config` value with defaults 4, 120, 10 and 60. Negative difficulties are excluded by the types. `CHALLENGE_TTL` and `RATE_WINDOW` are positive (the type `Lifetime`), because Valkey refuses `SETEX` with a zero or negative time to live.
- Backend.RateCheck: a zero or negative `RATE_WINDOW` is not modelled. With one, the `SETEX` of the first request in a window fails, and the request gets a 500 (backend/app/main.py:26).
- Backend.IssueChallenge: a zero or negative `CHALLENGE_TTL` is not modelled. With one, the `SETEX` of the token fails after the rate counter has moved, and `/challenge` gets a 500 (backend/app/main.py:49).
- Backend.PowServer.VerifySolution: a Valkey failure inside the `try` would be returned as `success=false` with the exception text. Only the `ValueError` of `hash_data` is modelled. Connection errors outside the `try` are not modelled.
- EndToEnd.ToRequest: the `JSON.stringify` encoding of the challenge, nonce and `hash_algo` strings and their decoding by FastAPI/pydantic are taken as lossless, so the server's request carries the three strings as sent.
- CORS, FastAPI routing and pydantic validation are not modelled. An invalid request body, which FastAPI answers with 422, is not modelled either.
- Concurrent requests against the same Valkey keys are not modelled.
