/** The program that runs in dom0: signs the challenge, adds the key, kills the slot. */
module Dom0Machine {
  import opened Bytes
  import opened Messages
  import opened HostMachine

  /** The TPM, string decoding and the two cryptsetup commands as dom0 sees them. */
  datatype Dom0Env = Dom0Env(
    tpm: bytes -> Option<bytes>,
    utf8: bytes -> bool,
    spawnFails: bool,
    addKey: (nat, bytes) -> Cryptsetup,
    killSlot: (bytes, byte) -> bool)
  {
    ghost predicate Valid() {
      forall ch :: tpm(ch).Some? ==> |tpm(ch).value| == 64
    }
  }

  datatype Dom0Pc =
    | ReadChallenge
    | ReadLength
    | ReadPass(n: byte)
    | ReadKey
    | ReadSlot
    | Ended(ok: bool)

  /** A `luksKillSlot` command. */
  datatype KillSlot = KillSlot(keyfile: bytes, slot: byte)

  /** `sig` is the signature given, `added` and `killed` the commands run. */
  datatype Dom0 = Dom0(
    pc: Dom0Pc, sig: Option<bytes>, current: bytes, keyfile: bytes,
    added: seq<AddKey>, killed: seq<KillSlot>,
    pend: bytes, got: bytes)

  const INIT_DOM0 := Dom0(ReadChallenge, None, [], [], [], [], [], [])

  function DomNeed(v: Dom0): nat {
    match v.pc
    case ReadChallenge => 108
    case ReadLength => 1
    case ReadPass(n) => n
    case ReadKey => 32
    case ReadSlot => 1
    case Ended(_) => 0
  }

  predicate DomCanAct(v: Dom0) {
    !v.pc.Ended? && v.pend == [] && |v.got| == DomNeed(v)
  }

  function DomStatusMessage(v: Dom0): bytes {
    if v.sig.Some? then [TPM_SIGNED] + v.sig.value else [TPM_REFUSED_TO_SIGN]
  }

  function DomAct(e: Dom0Env, v: Dom0): Dom0
    requires DomCanAct(v)
  {
    var d := v.(got := []);
    match v.pc
    case ReadChallenge =>
      var k := d.(pc := ReadLength, sig := e.tpm(v.got));
      k.(pend := DomStatusMessage(k))
    case ReadLength => d.(pc := ReadPass(v.got[0]))
    case ReadPass(_) =>
      if e.utf8(v.got) && !e.spawnFails then d.(pc := ReadKey, current := v.got) else d.(pc := Ended(false))
    case ReadKey =>
      var command := AddKey(|v.current|, v.current + v.got);
      var a := d.(keyfile := v.got, added := v.added + [command]);
      (match e.addKey(command.size, command.piped)
       case Exited(code) =>
         if code == 0 then a.(pc := ReadSlot, pend := [DECRYPTION_SUCCESS]) else a.(pc := Ended(false))
       case _ => a.(pc := Ended(false)))
    case ReadSlot =>
      if v.got[0] == DO_NOTHING then d.(pc := Ended(true))
      else
        d.(pc := Ended(e.killSlot(v.keyfile, v.got[0])),
           killed := v.killed + [KillSlot(v.keyfile, v.got[0])])
  }

  function DomRank(v: Dom0): nat {
    match v.pc
    case ReadChallenge => 5
    case ReadLength => 4
    case ReadPass(_) => 3
    case ReadKey => 2
    case ReadSlot => 1
    case Ended(_) => 0
  }

  datatype DomOutcome = DomOutcome(v: Dom0, out: bytes, rest: bytes)

  /** The whole program on a given standard input, until it ends or blocks. */
  function DomRun(e: Dom0Env, v: Dom0, input: bytes, out: bytes): DomOutcome
    decreases DomRank(v)
  {
    if v.pc.Ended? || |input| < DomNeed(v) then DomOutcome(v, out, input)
    else
      var n := DomNeed(v);
      var d := DomAct(e, v.(pend := [], got := input[..n]));
      DomRun(e, d.(pend := []), input[n..], out + d.pend)
  }
}
