/** What the TKey program guarantees against any host whatever: any input of any length, and
    any outcome of the signature check, the touch sensor and the hash calls. */
module ClientSafety {
  import opened Bytes
  import opened Primitives
  import opened Messages
  import opened ClientMachine
  import Challenge
  import T = ClientTranscript

  /** After the handshake its outcome no longer changes. */
  lemma {:induction false} OutcomeStays(p: Primitives, e: ClientEnv, c: Client, input: bytes, out: bytes)
    requires c.pc.Loop? || c.pc.Hash? || c.pc.Result? || c.pc.Touch? || Halted(c)
    ensures
      var d := Run(p, e, c, input, out).c;
      d.verified == c.verified && d.hostPub == c.hostPub && !BeforeLoop(d)
    decreases Rank(c)
  {
    if !(Halted(c) || |input| < Need(c)) {
      var ready := c.(pend := [], got := input[..Need(c)]);
      RankFalls(p, e, ready);
      var d := Act(p, e, ready);
      OutcomeStays(p, e, d.(pend := []), input[Need(c)..], out + d.pend);
    }
  }

  /** The host's opening messages contain a good signature on this very handshake. */
  predicate OpensWithGoodSignature(p: Primitives, e: ClientEnv, input: bytes) {
    && e.pubkeyOk && 97 <= |input| && input[32] == TPM_SIGNED
    && p.checkSig(Challenge.Layout(e.nonce, input[..32], p.pub(e.secret), e.encNonce), input[33..97]) == Genuine
  }

  /** The device takes the system for verified exactly if the host's first 97 bytes are a key,
      the byte for "signed" and a genuine signature on the challenge with that key. */
  lemma VerifiedIsGenuine(p: Primitives, e: ClientEnv, input: bytes)
    ensures Run(p, e, INIT_CLIENT, input, []).c.verified <==> OpensWithGoodSignature(p, e, input)
  {
    RunReads(p, e, INIT_CLIENT, [], input, []);
    assert [] + input == input;
    var hello := Act(p, e, INIT_CLIENT);
    if |input| >= 32 {
      VerifiedAfterKey(p, e, hello.(pend := []), input[..32], input[32..], [] + hello.pend);
      assert input == input[..32] + input[32..];
      assert |input| >= 97 ==> input[33..97] == input[32..][1..65] && input[32] == input[32..][0];
    }
  }

  lemma VerifiedAfterKey(p: Primitives, e: ClientEnv, c: Client, hostPub: bytes, rest: bytes, out: bytes)
    requires c == Act(p, e, INIT_CLIENT).(pend := []) && |hostPub| == 32
    ensures Run(p, e, c, hostPub + rest, out).c.verified <==>
      && e.pubkeyOk && 65 <= |rest| && rest[0] == TPM_SIGNED
      && p.checkSig(Challenge.Layout(e.nonce, hostPub, p.pub(e.secret), e.encNonce), rest[1..65]) == Genuine
  {
    RunReads(p, e, c, hostPub, rest, out);
    var d := Act(p, e, c.(got := hostPub));
    if d.pc.Status? && rest != [] {
      VerifiedAfterStatus(p, e, d, rest[..1], rest[1..], out + d.pend);
      assert rest == rest[..1] + rest[1..];
      assert |rest| >= 65 ==> rest[1..65] == rest[1..][..64];
    }
  }

  lemma VerifiedAfterStatus(p: Primitives, e: ClientEnv, c: Client, status: bytes, rest: bytes, out: bytes)
    requires c.pc.Status? && c.pend == [] && !c.verified && |status| == 1
    ensures Run(p, e, c, status + rest, out).c.verified <==>
      && 64 <= |rest| && status[0] == TPM_SIGNED
      && p.checkSig(ChallengeOf(p, e, c), rest[..64]) == Genuine
  {
    RunReads(p, e, c, status, rest, out);
    var d := Act(p, e, c.(got := status));
    if d.pc.Touch? {
      OutcomeStays(p, e, d.(pend := []), rest, out + d.pend);
    } else if |rest| >= 64 {
      assert rest == rest[..64] + rest[64..];
      RunReads(p, e, d, rest[..64], rest[64..], out + d.pend);
      var s := Act(p, e, d.(got := rest[..64]));
      OutcomeStays(p, e, s.(pend := []), rest[64..], out + d.pend + s.pend);
    }
  }

  /** At most three derivations; none, and no Ready4pass, without a genuine signature or a
      touch; three seconds of sleep after every failed attempt and six at the end.  In the attempt
      loop the light is green exactly for a genuine signature, yellow exactly if the host did not
      announce one, and purple exactly if it announced one that does not verify; the latter two
      are also the light while the touch for it is waited for. */
  lemma DeviceIsSafe(p: Primitives, e: ClientEnv, input: bytes)
    ensures
      var c := Run(p, e, INIT_CLIENT, input, []).c;
      && c.derived <= c.attempts <= 3
      && (c.attempts > 0 ==> OpensWithGoodSignature(p, e, input) || e.touch)
      && c.slept == Naps(c)
      && c.pos <= 192
      && (c.pc == Aborted(Exhausted) ==> c.attempts == 3)
      && (c.pc.Loop? || c.pc.Hash? || c.pc.Result? ==>
            && (c.led == LedGreen <==> OpensWithGoodSignature(p, e, input))
            && (c.led == LedYellow <==> T.Refuses(e, input))
            && (c.led == LedPurple <==> T.Forges(p, e, input)))
      && (c.gate == LedYellow <==> T.Refuses(e, input))
      && (c.gate == LedPurple <==> T.Forges(p, e, input))
      && (c.pc.Done? || BeforeLoop(c) ==> c.led == LedOff)
  {
    VerifiedIsGenuine(p, e, input);
    RunIsSafe(p, e, INIT_CLIENT, input, []);
    T.WarningIsRight(p, e, input);
  }
}
