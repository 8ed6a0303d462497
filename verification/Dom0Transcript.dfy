/** All that can be seen of dom0's program from outside, for any input at all: what it writes, by
    value and place, how much it reads, which commands it runs, and how it stops. */
module Dom0Transcript {
  import opened Bytes
  import opened HostMachine
  import opened Dom0Machine
  import opened Dom0App

  datatype Stop = Reads(n: nat) | Exits(ok: bool)

  datatype Seen = Seen(out: bytes, rest: bytes, added: seq<AddKey>, killed: seq<KillSlot>, stop: Stop)

  /** The challenge, and its signature or a refusal. */
  function Signs(e: Dom0Env, input: bytes): Seen {
    if |input| < 108 then Seen([], input, [], [], Reads(108))
    else
      match e.tpm(input[..108])
      case Some(sig) => Enrolls(e, input[108..], [0x97] + sig)
      case None => Enrolls(e, input[108..], [0x90])
  }

  /** A length byte, as many bytes, a keyfile of 32, and luksAddKey. */
  function Enrolls(e: Dom0Env, input: bytes, out: bytes): Seen {
    if input == [] then Seen(out, input, [], [], Reads(1))
    else
      var n: nat := input[0];
      var rest := input[1..];
      if |rest| < n then Seen(out, rest, [], [], Reads(n))
      else if !e.utf8(rest[..n]) || e.spawnFails then Seen(out, rest[n..], [], [], Exits(false))
      else if |rest| < n + 32 then Seen(out, rest[n..], [], [], Reads(32))
      else
        var keyfile := rest[n..n + 32];
        var added := [AddKey(n, rest[..n] + keyfile)];
        if e.addKey(n, rest[..n] + keyfile) == Exited(0) then
          Kills(e, keyfile, added, rest[n + 32..], out + [0x99])
        else Seen(out, rest[n + 32..], added, [], Exits(false))
  }

  /** The slot byte: 0x91 for none. */
  function Kills(e: Dom0Env, keyfile: bytes, added: seq<AddKey>, input: bytes, out: bytes): Seen {
    if input == [] then Seen(out, input, added, [], Reads(1))
    else if input[0] == 0x91 then Seen(out, input[1..], added, [], Exits(true))
    else Seen(out, input[1..], added, [KillSlot(keyfile, input[0])], Exits(e.killSlot(keyfile, input[0])))
  }

  predicate Shows(o: DomOutcome, s: Seen) {
    && o.out == s.out && o.rest == s.rest && o.v.added == s.added && o.v.killed == s.killed
    && match s.stop
       case Reads(n) => !o.v.pc.Ended? && DomNeed(o.v) == n
       case Exits(ok) => o.v.pc == Ended(ok)
  }

  /** The program acts on the first bytes of its input. */
  lemma ActsOn(e: Dom0Env, v: Dom0, n: nat, input: bytes, out: bytes)
    requires v.pend == [] && v.got == [] && !v.pc.Ended? && n == DomNeed(v) <= |input|
    ensures
      var d := DomAct(e, v.(got := input[..n]));
      DomRun(e, v, input, out) == DomRun(e, d.(pend := []), input[n..], out + d.pend)
    ensures out + [] == out
  {
    assert input == input[..n] + input[n..];
    DomRunActs(e, v, input[..n], input[n..], out);
  }

  /** The program's state without anything pending. */
  predicate Idle(v: Dom0) {
    v.pend == [] && v.got == [] && v.killed == []
  }

  lemma KillsShow(e: Dom0Env, v: Dom0, input: bytes, out: bytes)
    requires v.pc.ReadSlot? && Idle(v)
    ensures Shows(DomRun(e, v, input, out), Kills(e, v.keyfile, v.added, input, out))
  {
    if input != [] {
      ActsOn(e, v, 1, input, out);
    }
  }

  lemma AddsShow(e: Dom0Env, v: Dom0, pass: bytes, input: bytes, out: bytes)
    requires v.pc.ReadKey? && Idle(v) && v.added == [] && v.current == pass && |input| >= 32
    ensures
      var keyfile := input[..32];
      var added := [AddKey(|pass|, pass + keyfile)];
      Shows(DomRun(e, v, input, out),
            if e.addKey(|pass|, pass + keyfile) == Exited(0) then Kills(e, keyfile, added, input[32..], out + [0x99])
            else Seen(out, input[32..], added, [], Exits(false)))
  {
    ActsOn(e, v, 32, input, out);
    if e.addKey(|pass|, pass + input[..32]) == Exited(0) {
      KillsShow(e, DomAct(e, v.(got := input[..32])).(pend := []), input[32..], out + [0x99]);
    }
  }

  lemma EnrollsShow(e: Dom0Env, v: Dom0, input: bytes, out: bytes)
    requires v.pc.ReadLength? && Idle(v) && v.added == []
    ensures Shows(DomRun(e, v, input, out), Enrolls(e, input, out))
  {
    if input != [] {
      var n: nat := input[0];
      var rest := input[1..];
      ActsOn(e, v, 1, input, out);
      var v1 := v.(pc := ReadPass(n));
      assert DomRun(e, v, input, out) == DomRun(e, v1, rest, out);
      if |rest| >= n {
        ActsOn(e, v1, n, rest, out);
        if e.utf8(rest[..n]) && !e.spawnFails && |rest| >= n + 32 {
          assert rest[n..][..32] == rest[n..n + 32] && rest[n..][32..] == rest[n + 32..];
          AddsShow(e, v1.(pc := ReadKey, current := rest[..n]), rest[..n], rest[n..], out);
        }
      }
    }
  }

  /** Whatever comes in, dom0's program is seen to do what `Signs` says. */
  lemma DomShows(e: Dom0Env, input: bytes)
    ensures Shows(DomRun(e, INIT_DOM0, input, []), Signs(e, input))
  {
    if |input| >= 108 {
      ActsOn(e, INIT_DOM0, 108, input, []);
      var d := DomAct(e, INIT_DOM0.(got := input[..108]));
      assert [] + d.pend == d.pend;
      EnrollsShow(e, d.(pend := []), input[108..], d.pend);
    }
  }
}
