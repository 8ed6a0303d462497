/** The TKey program as a step machine.

    A state waits to send (`pend`), to receive (`got` short of `Need`), or to act.  `Act`
    runs from one blocking read to the next; `ClientApp.dfy` proves that the program
    written with loops and buffers does exactly this. */
module ClientMachine {
  import opened Bytes
  import opened Primitives
  import opened Messages
  import opened StreamCipher
  import Challenge

  /** What the device draws or is given: random bytes, the CDI, the compiled-in key check,
      the touch sensor, and which attempts the hash call fails on. */
  datatype ClientEnv = ClientEnv(
    nonce: bytes, encNonce: bytes, secret: bytes, cdi: bytes,
    pubkeyOk: bool, touch: bool, blakeFails: nat -> bool)
  {
    predicate Valid() {
      |nonce| == 32 && |encNonce| == 12
    }
  }

  datatype Led = LedOff | LedGreen | LedPurple | LedYellow

  datatype AbortReason = BadKey | BadSig | NoTouch | Exhausted

  datatype ClientPc =
    | Start
    | HostPub
    | Status
    | Sig
    | Touch(color: Led)
    | Loop
    | Hash
    | Result
    | Done
    | Aborted(why: AbortReason)

  /** `gate` is the light while a touch was waited for; `verified`, `touched`, `derived`, `used`
      and `slept` record what happened: the signature check passed, the sensor was touched, hash
      calls made, keystream positions at which a keyfile was encrypted, seconds slept. */
  datatype Client = Client(
    pc: ClientPc, attempts: nat, led: Led, gate: Led, hostPub: bytes, pos: nat,
    verified: bool, touched: bool, derived: nat, used: seq<nat>, slept: nat,
    pend: bytes, got: bytes)

  const INIT_CLIENT := Client(Start, 0, LedOff, LedOff, [], 0, false, false, 0, [], 0, [], [])

  predicate Halted(c: Client) {
    c.pc.Done? || c.pc.Aborted?
  }

  /** Bytes the next action has to read first. */
  function Need(c: Client): nat {
    match c.pc
    case HostPub => 32
    case Status => 1
    case Sig => 64
    case Hash => 32
    case Result => 1
    case _ => 0
  }

  predicate CanAct(c: Client) {
    !Halted(c) && c.pend == [] && |c.got| == Need(c)
  }

  function Shared(p: Primitives, e: ClientEnv, c: Client): bytes {
    p.dh(e.secret, c.hostPub)
  }

  function ChallengeOf(p: Primitives, e: ClientEnv, c: Client): bytes {
    Challenge.Layout(e.nonce, c.hostPub, p.pub(e.secret), e.encNonce)
  }

  function Act(p: Primitives, e: ClientEnv, c: Client): Client
    requires CanAct(c)
  {
    var d := c.(got := []);
    match c.pc
    case Start => d.(pc := HostPub, pend := e.nonce + e.encNonce + p.pub(e.secret))
    case HostPub =>
      var k := d.(hostPub := c.got);
      if e.pubkeyOk then k.(pc := Status) else k.(pc := Aborted(BadKey), pend := [BAD_PUBKEY])
    case Status =>
      if c.got[0] == TPM_SIGNED then d.(pc := Sig)
      else d.(pc := Touch(LedYellow), gate := LedYellow, pend := [INVALID_SIG])
    case Sig => (
      match p.checkSig(ChallengeOf(p, e, c), c.got)
      case Malformed => d.(pc := Aborted(BadSig), pend := [MALFORMED_SIG])
      case Invalid => d.(pc := Touch(LedPurple), gate := LedPurple, pend := [INVALID_SIG])
      case Genuine => d.(pc := Loop, pend := [GOOD_SIG], led := LedGreen, verified := true))
    case Touch(color) =>
      if e.touch then d.(pc := Loop, led := color, touched := true) else d.(pc := Aborted(NoTouch))
    case Loop =>
      if c.attempts >= 3 then d.(pc := Aborted(Exhausted))
      else d.(pc := Hash, attempts := c.attempts + 1, pend := [READY_4_PASS])
    case Hash => ActHash(p, e, c)
    case Result =>
      if c.got[0] == DECRYPTION_SUCCESS then d.(pc := Done, led := LedOff, slept := c.slept + 6)
      else d.(pc := Loop, slept := c.slept + 3)
  }

  /** One derivation: on failure only the 32 bytes of the hash have been taken from the keystream. */
  function ActHash(p: Primitives, e: ClientEnv, c: Client): Client {
    var hash := Apply(p, Shared(p, e, c), e.encNonce, c.pos, c.got);
    var d := c.(got := [], derived := c.derived + 1);
    if e.blakeFails(c.attempts) then
      d.(pc := Loop, pos := c.pos + 32, pend := [BLAKE2_ERROR], slept := c.slept + 3)
    else
      var enc := Apply(p, Shared(p, e, c), e.encNonce, c.pos + 32, p.blake2s(e.cdi, hash));
      d.(pc := Result, pos := c.pos + 64, used := c.used + [c.pos + 32], pend := [GOOD_PASS] + enc)
  }

  /** Falls on every action. */
  function Rank(c: Client): nat {
    var left := if c.attempts < 3 then 3 - c.attempts else 0;
    match c.pc
    case Start => 20
    case HostPub => 19
    case Status => 18
    case Sig => 17
    case Touch(_) => 16
    case Loop => 1 + 4 * left
    case Hash => 3 + 4 * left
    case Result => 2 + 4 * left
    case _ => 0
  }

  lemma RankFalls(p: Primitives, e: ClientEnv, c: Client)
    requires CanAct(c)
    ensures Rank(Act(p, e, c)) < Rank(c)
  {
  }

  /** What the device has guaranteed of itself at every point, whoever is talking to it. */
  predicate Safe(e: ClientEnv, c: Client) {
    && c.attempts <= 3
    && c.derived <= c.attempts
    && (c.pc.Hash? ==> c.derived < c.attempts)
    && (c.pc.Result? ==> 0 < c.attempts)
    && c.pos <= 64 * c.derived
    && (c.attempts > 0 || c.pc.Loop? ==> c.verified || c.touched)
    && (c.touched ==> e.touch)
    && !(c.verified && c.touched)
    && (c.pc.Loop? || c.pc.Hash? || c.pc.Result? ==> c.led == if c.verified then LedGreen else c.gate)
    && (c.gate == LedOff || c.gate == LedYellow || c.gate == LedPurple)
    && (c.gate == LedOff <==> !(c.pc.Touch? || c.touched || c.pc == Aborted(NoTouch)))
    && c.slept == Naps(c)
    && (c.pc.Done? ==> c.led == LedOff)
    && (BeforeLoop(c) ==>
          c.attempts == 0 && c.slept == 0 && !c.verified && !c.touched && c.led == LedOff)
    && (c.pc.Touch? ==> c.pc.color == c.gate)
    && (c.pc.Aborted? ==> if c.pc.why.Exhausted? then c.attempts == 3 else c.attempts == 0 && !c.verified && !c.touched)
  }

  /** Three seconds after every failed attempt, six after the successful one. */
  function Naps(c: Client): nat {
    if c.pc.Hash? || c.pc.Result? then 3 * (if c.attempts > 0 then c.attempts - 1 else 0)
    else if c.pc.Done? then 3 * (if c.attempts > 0 then c.attempts - 1 else 0) + 6
    else 3 * c.attempts
  }

  predicate BeforeLoop(c: Client) {
    c.pc.Start? || c.pc.HostPub? || c.pc.Status? || c.pc.Sig? || c.pc.Touch?
  }

  /** Whatever bytes arrive, an action keeps `Safe`. */
  lemma ActIsSafe(p: Primitives, e: ClientEnv, c: Client)
    requires CanAct(c) && Safe(e, c)
    ensures Safe(e, Act(p, e, c))
  {
  }

  datatype Outcome = Outcome(c: Client, out: bytes, rest: bytes)

  /** The whole program on a given input: acts until it halts or blocks on a read. */
  function Run(p: Primitives, e: ClientEnv, c: Client, input: bytes, out: bytes): Outcome
    decreases Rank(c)
  {
    if Halted(c) || |input| < Need(c) then Outcome(c, out, input)
    else
      var ready := c.(pend := [], got := input[..Need(c)]);
      RankFalls(p, e, ready);
      var d := Act(p, e, ready);
      Run(p, e, d.(pend := []), input[Need(c)..], out + d.pend)
  }

  /** One action of the machine on what was read, with its output gone. */
  function Acted(p: Primitives, e: ClientEnv, m: Client, got: bytes): Client
    requires !Halted(m) && |got| == Need(m)
  {
    Act(p, e, m.(pend := [], got := got)).(pend := [])
  }

  function Output(p: Primitives, e: ClientEnv, m: Client, got: bytes): bytes
    requires !Halted(m) && |got| == Need(m)
  {
    Act(p, e, m.(pend := [], got := got)).pend
  }

  lemma RunActs(p: Primitives, e: ClientEnv, m: Client, input: bytes, out: bytes)
    requires !Halted(m) && Need(m) <= |input|
    ensures
      var got := input[..Need(m)];
      Run(p, e, m, input, out) == Run(p, e, Acted(p, e, m, got), input[Need(m)..], out + Output(p, e, m, got))
  {
  }

  /** One turn of `Run`, on input that begins with what is read. */
  lemma RunReads(p: Primitives, e: ClientEnv, c: Client, got: bytes, rest: bytes, out: bytes)
    requires !Halted(c) && |got| == Need(c)
    ensures Run(p, e, c, got + rest, out) == Run(p, e, Acted(p, e, c, got), rest, out + Output(p, e, c, got))
  {
    assert (got + rest)[..Need(c)] == got && (got + rest)[Need(c)..] == rest;
    RunActs(p, e, c, got + rest, out);
  }

  /** A complete run against any host whatever keeps `Safe`. */
  lemma {:induction false} RunIsSafe(p: Primitives, e: ClientEnv, c: Client, input: bytes, out: bytes)
    requires Safe(e, c)
    ensures Safe(e, Run(p, e, c, input, out).c)
    decreases Rank(c)
  {
    if !(Halted(c) || |input| < Need(c)) {
      var ready := c.(pend := [], got := input[..Need(c)]);
      RankFalls(p, e, ready);
      ActIsSafe(p, e, ready);
      var d := Act(p, e, ready);
      RunIsSafe(p, e, d.(pend := []), input[Need(c)..], out + d.pend);
    }
  }
}
