/** The accelerated solver, `solve_pow`, compiled from Rust to WebAssembly. */
module WasmSolver {
  import opened Encoding
  import opened PowSearch

  /** How many values a `u64` holds: the loop `for i in 0u64..` tries each once. */
  const U64_COUNT: nat := 0x1_0000_0000_0000_0000

  /** How many values a `u32` holds. */
  const U32_COUNT: nat := 0x1_0000_0000

  /** Rust's `u32`, the type of the difficulty parameter. */
  type u32 = x: nat | x < 0x1_0000_0000

  /** Some `u64` nonce solves the challenge. */
  ghost predicate SolvedWithinU64(H: Hasher, challenge: string, difficulty: nat) {
    exists i: nat :: i < U64_COUNT && Solves(H, challenge, difficulty, i)
  }

  /** What `solve_pow` promises: the decimal rendering of the least solving
      nonce when one fits in a `u64`, and the fallback "0" when none does. */
  ghost predicate SolvePowResult(H: Hasher, challenge: string, difficulty: nat, r: string) {
    && (SolvedWithinU64(H, challenge, difficulty) ==>
          Solvable(H, challenge, difficulty) && r == Decimal(LeastNonce(H, challenge, difficulty)))
    && (!SolvedWithinU64(H, challenge, difficulty) ==> r == "0")
  }

  /** `solve_pow`: try 0, 1, 2, ... in `u64`, return the first nonce whose hex
      digest starts with `difficulty` zeros, and "0" after the loop. */
  method SolvePow(H: Hasher, challenge: string, difficulty: u32) returns (r: string)
    ensures SolvePowResult(H, challenge, difficulty, r)
    ensures difficulty > DIGEST_HEX_LENGTH ==> r == "0"
  {
    var prefix := Zeros(difficulty);
    for i: nat := 0 to U64_COUNT
      invariant forall k: nat :: k < i ==> !Solves(H, challenge, difficulty, k)
    {
      var attempt := challenge + Decimal(i);
      var hash := H(Sha256, attempt);
      var hex := Hex(hash);
      if StartsWith(hex, prefix) {
        assert Solves(H, challenge, difficulty, i);
        LeastNonceIff(H, challenge, difficulty, i);
        return Decimal(i);
      }
    }
    return "0";
  }

  /** Difficulty 0 makes `solve_pow` return "0" on its first iteration. */
  lemma ZeroDifficultyGivesZero(H: Hasher, challenge: string, r: string)
    requires SolvePowResult(H, challenge, 0, r)
    ensures r == "0"
  {
    ZeroDifficulty(H, challenge);
    assert Solves(H, challenge, 0, 0);
  }

  /** The accelerated and the portable solvers agree: whenever the least solving
      nonce fits in a `u64`, `solve_pow` returns its decimal rendering, which is
      what the portable search returns. */
  lemma SolversAgree(H: Hasher, challenge: string, difficulty: nat, wasm: string)
    requires Solvable(H, challenge, difficulty)
    requires LeastNonce(H, challenge, difficulty) < U64_COUNT
    requires SolvePowResult(H, challenge, difficulty, wasm)
    ensures wasm == Decimal(LeastNonce(H, challenge, difficulty))
  {
    assert Solves(H, challenge, difficulty, LeastNonce(H, challenge, difficulty));
  }
}
