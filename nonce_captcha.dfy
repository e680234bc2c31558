/** The React component `NonceCaptcha`: two pieces of state, `loading` and
    `status`, the attempt `solveCaptcha` with its inline nonce search, and the
    choice of what to render from the two. */
module ReactCaptcha {
  import opened Wrappers
  import opened Encoding
  import opened PowSearch
  import opened Protocol

  const VERIFIED_STATUS: string := "Verified"
  const ERROR_PREFIX: string := "Error: "
  const FAILED_TEXT: string := "Verification failed"
  const EXCEPTION_STATUS: string := "Error: Error during verification."

  /** The argument of `onVerify`. */
  datatype VerifyEvent = VerifyEvent(challenge: string, nonce: string)

  /** The inline `while (true)` search of `solveCaptcha`: it breaks at the first
      nonce whose hex SHA-256 of `challenge + nonce` starts with `difficulty`
      zeros. It stops only when some nonce solves, which is the precondition. */
  method InlineSearch(H: Hasher, challenge: string, difficulty: nat) returns (nonce: nat)
    requires Solvable(H, challenge, difficulty)
    ensures nonce == LeastNonce(H, challenge, difficulty)
  {
    ghost var w: nat :| Solves(H, challenge, difficulty, w);
    var prefix := Zeros(difficulty);
    nonce := 0;
    while true
      invariant nonce <= w
      invariant forall k: nat :: k < nonce ==> !Solves(H, challenge, difficulty, k)
      decreases w - nonce
    {
      var input := challenge + Decimal(nonce);
      var digest := H(Sha256, input);
      var hash := JsHex(digest);
      JsAttemptHex(H, challenge, difficulty, nonce);
      if StartsWith(hash, prefix) {
        break;
      }
      assert nonce != w;
      nonce := nonce + 1;
    }
    LeastNonceIff(H, challenge, difficulty, nonce);
  }

  /** The `status` an attempt ends with. The status code of `/verify` is not
      looked at: `success` gives "Verified"; anything else "Error: " and the
      message or "Verification failed"; any exception, from either request or
      from the digest in the search (`searchThrows`), the fixed error text. */
  function AttemptStatus(reply: ChallengeReply, searchThrows: bool, verify: VerifyReply): (s: string)
    ensures s == VERIFIED_STATUS <==>
              && reply.ChallengeIssued? && !searchThrows
              && verify.VerifyAnswered? && verify.body.Some? && verify.body.value.success
    ensures s != VERIFIED_STATUS ==> StartsWith(s, ERROR_PREFIX)
    ensures reply.ChallengeFailed? || searchThrows ==> s == EXCEPTION_STATUS
    ensures reply.ChallengeIssued? && !searchThrows && (verify.VerifyFailed? || verify.body.None?) ==>
              s == EXCEPTION_STATUS
    ensures reply.ChallengeIssued? && !searchThrows && verify.VerifyAnswered? && verify.body.Some? &&
            !verify.body.value.success ==>
              s == ERROR_PREFIX + (if HasMessage(verify.body.value.message) then verify.body.value.message.value
                                   else FAILED_TEXT)
  {
    match reply
    case ChallengeFailed => EXCEPTION_STATUS
    case ChallengeIssued(_, _) =>
      if searchThrows then EXCEPTION_STATUS
      else
      match verify
      case VerifyFailed => EXCEPTION_STATUS
      case VerifyAnswered(_, None) => EXCEPTION_STATUS
      case VerifyAnswered(_, Some(b)) =>
        if b.success then VERIFIED_STATUS
        else
          var s := ERROR_PREFIX + (if HasMessage(b.message) then b.message.value else FAILED_TEXT);
          assert s[..|ERROR_PREFIX|] == ERROR_PREFIX && s[0] != VERIFIED_STATUS[0];
          s
  }

  /** Unlike the vanilla client, a 429, or a message mentioning "expired", is
      just another failure here. */
  lemma NoRateLimitOrExpiryCase(challenge: string, difficulty: nat, message: string)
    ensures AttemptStatus(ChallengeIssued(challenge, difficulty), false,
                          VerifyAnswered(429, Some(VerifyBody(false, None)))) == ERROR_PREFIX + FAILED_TEXT
    ensures message != "" ==>
              AttemptStatus(ChallengeIssued(challenge, difficulty), false,
                            VerifyAnswered(200, Some(VerifyBody(false, Some(message))))) == ERROR_PREFIX + message
  {
  }

  datatype StatusStyle = VerifiedStyle | ErrorStyle | PlainStyle

  /** What the component renders. */
  datatype Panel = SpinnerPanel | StatusPanel(text: string, style: StatusStyle) | CheckboxPanel

  /** The JSX: the spinner while loading; else a non-empty status, styled by
      whether it is "Verified" or starts with "Error"; else the checkbox. */
  function Render(loading: bool, status: string): (p: Panel)
    ensures p == SpinnerPanel <==> loading
    ensures p == CheckboxPanel <==> !loading && status == ""
    ensures p.StatusPanel? ==> p.text == status && (p.style == VerifiedStyle <==> status == VERIFIED_STATUS)
  {
    if loading then SpinnerPanel
    else if status != "" then
      StatusPanel(status,
                  if status == VERIFIED_STATUS then VerifiedStyle
                  else if StartsWith(status, "Error") then ErrorStyle
                  else PlainStyle)
    else CheckboxPanel
  }

  /** Once an attempt has finished, the checkbox, the only trigger, is never
      rendered again; the status is shown in the success style exactly on
      success, and in the error style otherwise. */
  lemma CheckboxGoneAfterAttempt(reply: ChallengeReply, searchThrows: bool, verify: VerifyReply)
    ensures Render(false, AttemptStatus(reply, searchThrows, verify)) != CheckboxPanel
    ensures Render(false, AttemptStatus(reply, searchThrows, verify)).style ==
              if AttemptStatus(reply, searchThrows, verify) == VERIFIED_STATUS then VerifiedStyle else ErrorStyle
  {
    var s := AttemptStatus(reply, searchThrows, verify);
    if s != VERIFIED_STATUS {
      assert s[..|"Error"|] == "Error" by {
        assert s[..|ERROR_PREFIX|] == ERROR_PREFIX;
      }
    }
  }

  class NonceCaptcha {
    /** The `useState` pair `status` and `loading`. */
    var status: string
    var loading: bool
    /** Every call of the `onVerify` prop so far, oldest first. */
    var verifications: seq<VerifyEvent>

    /** First render: `useState("")` and `useState(false)`; the checkbox shows. */
    constructor ()
      ensures status == "" && !loading && verifications == []
      ensures Render(loading, status) == CheckboxPanel
    {
      status := "";
      loading := false;
      verifications := [];
    }

    /** The synchronous start of `solveCaptcha`, up to its first `await`. */
    method Begin()
      modifies this
      ensures status == "" && loading
      ensures verifications == old(verifications)
      ensures Render(loading, status) == SpinnerPanel
    {
      status := "";
      loading := true;
    }

    /** The rest of `solveCaptcha`: the requests, the inline search, the proof,
        the status, `onVerify` on success, and `setLoading(false)` on every path.
        `searchThrows` says whether `crypto.subtle.digest` rejects during the
        search, in which case `/verify` is never called. Returns the proof sent
        to `/verify`, if any. */
    method Finish(H: Hasher, reply: ChallengeReply, searchThrows: bool, verify: VerifyReply)
      returns (sent: Option<Proof>)
      requires reply.ChallengeIssued? && !searchThrows ==> Solvable(H, reply.challenge, reply.difficulty)
      modifies this
      ensures !loading
      ensures status == AttemptStatus(reply, searchThrows, verify)
      ensures reply.ChallengeFailed? || searchThrows ==> sent == None && verifications == old(verifications)
      ensures reply.ChallengeIssued? && !searchThrows ==>
                var nonce := Decimal(LeastNonce(H, reply.challenge, reply.difficulty));
                && sent == Some(Proof(reply.challenge, nonce, HASH_ALGO))
                && verifications == old(verifications) +
                     (if status == VERIFIED_STATUS then [VerifyEvent(reply.challenge, nonce)] else [])
    {
      match reply {
        case ChallengeFailed =>
          sent := None;
          status := EXCEPTION_STATUS;
        case ChallengeIssued(challenge, difficulty) =>
          if searchThrows {
            sent := None;
            status := EXCEPTION_STATUS;
          } else {
            var nonce := InlineSearch(H, challenge, difficulty);
            sent := Some(Proof(challenge, Decimal(nonce), HASH_ALGO));
            match verify {
              case VerifyFailed =>
                status := EXCEPTION_STATUS;
              case VerifyAnswered(_, None) =>
                status := EXCEPTION_STATUS;
              case VerifyAnswered(_, Some(result)) =>
                if result.success {
                  status := VERIFIED_STATUS;
                  verifications := verifications + [VerifyEvent(challenge, Decimal(nonce))];
                } else {
                  status := ERROR_PREFIX + (if HasMessage(result.message) then result.message.value else FAILED_TEXT);
                }
            }
          }
      }
      loading := false;
    }

    /** `solveCaptcha` as a whole. */
    method SolveCaptcha(H: Hasher, reply: ChallengeReply, searchThrows: bool, verify: VerifyReply)
      returns (sent: Option<Proof>)
      requires reply.ChallengeIssued? && !searchThrows ==> Solvable(H, reply.challenge, reply.difficulty)
      modifies this
      ensures !loading
      ensures status == AttemptStatus(reply, searchThrows, verify)
      ensures Render(loading, status) != CheckboxPanel
      ensures reply.ChallengeFailed? || searchThrows ==> sent == None && verifications == old(verifications)
      ensures reply.ChallengeIssued? && !searchThrows ==>
                var nonce := Decimal(LeastNonce(H, reply.challenge, reply.difficulty));
                && sent == Some(Proof(reply.challenge, nonce, HASH_ALGO))
                && verifications == old(verifications) +
                     (if status == VERIFIED_STATUS then [VerifyEvent(reply.challenge, nonce)] else [])
    {
      Begin();
      sent := Finish(H, reply, searchThrows, verify);
      CheckboxGoneAfterAttempt(reply, searchThrows, verify);
    }
  }
}
