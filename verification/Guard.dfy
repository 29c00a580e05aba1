/** A guard for facts that the verifier should use only in the proofs that ask for them: a
    predicate states its body for every n with Opened(n), and a proof that needs the body says
    `assert Opened(0)`.  Sealed is a second guard, for facts that are to stay hidden then too. */
module Guard {
  ghost predicate Opened(n: nat) { true }

  ghost predicate Sealed(n: nat) { true }
}
