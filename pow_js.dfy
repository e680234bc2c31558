/** The vanilla browser client: the portable solver `jsSolver`, the optional
    WebAssembly solver loaded at page start, and `solveChallenge`, which runs
    one attempt and turns the `/verify` answer into what the widget shows. */
module PowJs {
  import opened Wrappers
  import opened Encoding
  import opened PowSearch
  import opened Protocol
  import WasmSolver

  /** The delay of `setTimeout(renderInitial, 2000)`. */
  const RESET_DELAY_MS: nat := 2000

  const VERIFIED_TEXT: string := "Verified"
  const FAILED_TEXT: string := "Verification failed"
  const ERROR_TEXT: string := "Error during verification"

  /** The marker `solveChallenge` looks for in a `/verify` message. */
  const EXPIRED_MARKER: string := "expired"

  // ---------------------------------------------------------------------------
  // The portable solver
  // ---------------------------------------------------------------------------

  /** `jsSolver`: try nonces 0, 1, 2, ... until the hex SHA-256 of
      `challenge + nonce` starts with `difficulty` zeros, and return that nonce
      as a decimal string. The loop stops only when some nonce solves, which is
      the precondition. */
  method JsSolver(H: Hasher, challenge: string, difficulty: nat) returns (r: string)
    requires Solvable(H, challenge, difficulty)
    ensures r == Decimal(LeastNonce(H, challenge, difficulty))
  {
    ghost var w: nat :| Solves(H, challenge, difficulty, w);
    var prefix := Zeros(difficulty);
    var nonce: nat := 0;
    while true
      invariant nonce <= w
      invariant forall k: nat :: k < nonce ==> !Solves(H, challenge, difficulty, k)
      decreases w - nonce
    {
      var input := challenge + Decimal(nonce);
      var digest := H(Sha256, input);
      var hash := JsHex(digest);
      JsAttemptHex(H, challenge, difficulty, nonce);
      if StartsWith(hash, prefix) {
        LeastNonceIff(H, challenge, difficulty, nonce);
        return Decimal(nonce);
      }
      assert nonce != w;
      nonce := nonce + 1;
    }
  }

  // ---------------------------------------------------------------------------
  // Reading the /verify answer
  // ---------------------------------------------------------------------------

  datatype Outcome =
    | RateLimited
    | Expired(message: string)
    | Verified
    | Rejected(message: string)
    | Errored

  /** A `/verify` body whose message mentions "expired". */
  predicate Marked(b: VerifyBody) {
    HasMessage(b.message) && Contains(b.message.value, EXPIRED_MARKER)
  }

  /** The branches of `solveChallenge` after `/verify`: status 429 first, without
      reading the body; then a message mentioning "expired", before `success`;
      then `success`; otherwise the message or "Verification failed". A body
      that does not parse throws, and the exception is caught. */
  function Classify(reply: VerifyReply): (o: Outcome)
    ensures o == RateLimited <==> reply.VerifyAnswered? && reply.status == 429
    ensures o.Expired? ==> Contains(o.message, EXPIRED_MARKER)
    ensures o.Rejected? ==> o.message != ""
    ensures o == Verified <==>
              && reply.VerifyAnswered? && reply.status != 429 && reply.body.Some? && reply.body.value.success
              && !Marked(reply.body.value)
    ensures o.Expired? <==> reply.VerifyAnswered? && reply.status != 429 && reply.body.Some? && Marked(reply.body.value)
    ensures o.Expired? ==> o.message == reply.body.value.message.value
    ensures o == Errored <==> reply.VerifyFailed? || (reply.status != 429 && reply.body.None?)
  {
    match reply
    case VerifyFailed => Errored
    case VerifyAnswered(status, body) =>
      if status == 429 then RateLimited
      else
        match body
        case None => Errored
        case Some(b) =>
          if Marked(b) then Expired(b.message.value)
          else if b.success then Verified
          else Rejected(if HasMessage(b.message) then b.message.value else FAILED_TEXT)
  }

  /** A 429 is rate limiting whatever its body says, even `success: true`. */
  lemma RateLimitIgnoresBody(body: Option<VerifyBody>)
    ensures Classify(VerifyAnswered(429, body)) == RateLimited
  {
  }

  /** The expiry test comes before the success test: a body that claims success
      but mentions "expired" is shown as expired. */
  lemma ExpiredBeforeSuccess(status: int, message: string)
    requires status != 429
    requires Contains(message, EXPIRED_MARKER)
    ensures Classify(VerifyAnswered(status, Some(VerifyBody(true, Some(message))))) == Expired(message)
  {
    assert message != "";
  }

  /** A rejection without a message, or with an empty one, shows the default text. */
  lemma RejectionDefaultsMessage(status: int, message: Option<string>)
    requires status != 429
    requires !HasMessage(message)
    ensures Classify(VerifyAnswered(status, Some(VerifyBody(false, message)))) == Rejected(FAILED_TEXT)
  {
  }

  // ---------------------------------------------------------------------------
  // What the widget shows
  // ---------------------------------------------------------------------------

  /** The content of the captcha box: `renderInitial`, `renderSpinner` or
      `renderStatus(text, isSuccess)`. */
  datatype View = Checkbox | Spinner | Status(text: string, success: bool)

  /** The box after an attempt, with the delay of the `renderInitial` it
      scheduled, if any. */
  datatype Screen = Screen(view: View, reset: Option<nat>)

  /** The rendering for each outcome. On 429 `renderStatus` with the rate-limit
      text is followed at once by `renderInitial`, so that text is overwritten
      and the checkbox is back with no timer. */
  function Show(o: Outcome): (s: Screen)
    ensures s.view != Spinner
    ensures s.view == Checkbox <==> o == RateLimited
    ensures s.view.Status? ==> (s.view.success <==> o == Verified)
    ensures o.Expired? || o.Rejected? ==> s.view == Status(o.message, false)
    ensures s.reset.Some? <==> o != RateLimited && o != Verified
    ensures s.reset.Some? ==> s.reset.value == RESET_DELAY_MS
    ensures o == Verified ==> s.view == Status(VERIFIED_TEXT, true)
    ensures o == Errored ==> s.view == Status(ERROR_TEXT, false)
  {
    match o
    case RateLimited => Screen(Checkbox, None)
    case Expired(m) => Screen(Status(m, false), Some(RESET_DELAY_MS))
    case Verified => Screen(Status(VERIFIED_TEXT, true), None)
    case Rejected(m) => Screen(Status(m, false), Some(RESET_DELAY_MS))
    case Errored => Screen(Status(ERROR_TEXT, false), Some(RESET_DELAY_MS))
  }

  /** Every outcome but success gives the user a way to retry: the checkbox at once
      (rate limiting) or after the 2000 ms reset; a success leaves "Verified"
      on screen for good. Only a success is shown as one. */
  lemma RetryUnlessVerified(reply: VerifyReply)
    ensures var s := Show(Classify(reply));
            (s.view == Checkbox || s.reset == Some(RESET_DELAY_MS)) <==> Classify(reply) != Verified
    ensures var s := Show(Classify(reply));
            (s.view.Status? && s.view.success) <==> Classify(reply) == Verified
    ensures Show(Classify(reply)).view != Spinner
  {
  }

  // ---------------------------------------------------------------------------
  // The page: solver selection and one attempt
  // ---------------------------------------------------------------------------

  /** The `solve_pow` export held by `solveWasmPow` once loaded. */
  datatype WasmHandle = SolvePowExport

  datatype SolverChoice = Accelerated | Portable

  /** `if (wasmReady && solveWasmPow)`: the accelerated solver when both globals
      say it is there, the portable one otherwise. */
  function ChooseSolver(ready: bool, handle: Option<WasmHandle>): (c: SolverChoice)
    ensures c == Accelerated ==> handle.Some?
    ensures (ready ==> handle.Some?) ==> (c == Accelerated <==> ready)
  {
    if ready && handle.Some? then Accelerated else Portable
  }

  /** How the one `loadWasmSolver` attempt ends: the dynamic import throws, the
      WebAssembly runtime initialisation throws, or both succeed. */
  datatype LoadResult = ImportFailed | InitFailed | Loaded

  class PowWidget {
    /** The module globals `wasmReady` and `solveWasmPow`. */
    var wasmReady: bool
    var solveWasmPow: Option<WasmHandle>
    /** The content of `captcha-content`. */
    var view: View
    /** A pending `setTimeout(renderInitial, delay)`, by its delay. */
    var pendingReset: Option<nat>

    /** The flag is never set without the handle. */
    ghost predicate Valid()
      reads this
    {
      wasmReady ==> solveWasmPow.Some?
    }

    /** Page load: both globals unset, then `renderInitial` on DOMContentLoaded. */
    constructor ()
      ensures Valid()
      ensures !wasmReady && solveWasmPow == None
      ensures view == Checkbox && pendingReset == None
    {
      wasmReady := false;
      solveWasmPow := None;
      view := Checkbox;
      pendingReset := None;
    }

    /** The completion of `loadWasmSolver`: on success the handle is stored and
        then the flag set; on either failure nothing changes. */
    method LoadWasmSolver(result: LoadResult)
      requires Valid()
      modifies this
      ensures Valid()
      ensures result == Loaded ==> wasmReady && solveWasmPow == Some(SolvePowExport)
      ensures result != Loaded ==> wasmReady == old(wasmReady) && solveWasmPow == old(solveWasmPow)
      ensures view == old(view) && pendingReset == old(pendingReset)
    {
      if result == Loaded {
        solveWasmPow := Some(SolvePowExport);
        assert Valid();
        wasmReady := true;
      }
    }

    /** The scheduled `renderInitial` running. */
    method ResetFires()
      requires Valid()
      requires pendingReset.Some?
      modifies this
      ensures Valid()
      ensures view == Checkbox && pendingReset == None
      ensures wasmReady == old(wasmReady) && solveWasmPow == old(solveWasmPow)
    {
      view := Checkbox;
      pendingReset := None;
    }

    /** `solveChallenge`: spinner, `/challenge`, one solver chosen from the
        globals as they are once the `/challenge` reply has arrived, `/verify` with the proof, and the
        rendering of its answer. `searchThrows` says whether the chosen solver
        throws (`crypto.subtle.digest` rejects, or `solve_pow` traps); that
        exception, like one from either request, ends in "Error during
        verification" and a reset, and then no proof is sent. Returns the
        solver used and the proof sent. */
    method SolveChallenge(H: Hasher, reply: ChallengeReply, searchThrows: bool, verify: VerifyReply)
      returns (used: Option<SolverChoice>, sent: Option<Proof>)
      requires Valid()
      requires reply.ChallengeIssued? && !searchThrows && ChooseSolver(wasmReady, solveWasmPow) == Portable ==>
                 Solvable(H, reply.challenge, reply.difficulty)
      modifies this
      ensures Valid()
      ensures wasmReady == old(wasmReady) && solveWasmPow == old(solveWasmPow)
      ensures reply.ChallengeFailed? ==>
                && used == None && sent == None
                && Screen(view, pendingReset) == Show(Errored)
      ensures reply.ChallengeIssued? ==>
                && used == Some(ChooseSolver(old(wasmReady), old(solveWasmPow)))
                && (used == Some(Accelerated) <==> old(wasmReady))
      ensures reply.ChallengeIssued? && searchThrows ==>
                sent == None && Screen(view, pendingReset) == Show(Errored)
      ensures reply.ChallengeIssued? && !searchThrows ==>
                && sent.Some?
                && sent.value.challenge == reply.challenge
                && sent.value.hashAlgo == HASH_ALGO
                && (used == Some(Portable) ==>
                      sent.value.nonce == Decimal(LeastNonce(H, reply.challenge, reply.difficulty)))
                && (used == Some(Accelerated) ==>
                      WasmSolver.SolvePowResult(H, reply.challenge, reply.difficulty % WasmSolver.U32_COUNT,
                                                sent.value.nonce))
                && Screen(view, pendingReset) == Show(Classify(verify))
    {
      view := Spinner;
      match reply {
        case ChallengeFailed =>
          used, sent := None, None;
          view, pendingReset := Status(ERROR_TEXT, false), Some(RESET_DELAY_MS);
        case ChallengeIssued(challenge, difficulty) =>
          var choice := ChooseSolver(wasmReady, solveWasmPow);
          used := Some(choice);
          if searchThrows {
            sent := None;
            view, pendingReset := Status(ERROR_TEXT, false), Some(RESET_DELAY_MS);
          } else {
            var nonce := "0";
            if choice == Accelerated {
              nonce := WasmSolver.SolvePow(H, challenge, difficulty % WasmSolver.U32_COUNT);
            } else {
              nonce := JsSolver(H, challenge, difficulty);
            }
            sent := Some(Proof(challenge, nonce, HASH_ALGO));
            var screen := Show(Classify(verify));
            view, pendingReset := screen.view, screen.reset;
          }
      }
    }
  }
}
