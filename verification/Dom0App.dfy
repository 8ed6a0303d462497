/** dom0's program with its buffers, pipes and commands. */
module Dom0App {
  import opened Bytes
  import opened Messages
  import opened HostMachine
  import opened Dom0Machine
  import opened Port

  /** The program acts on the front of its input. */
  lemma DomRunActs(e: Dom0Env, v: Dom0, got: bytes, rest: bytes, out: bytes)
    requires v.pend == [] && v.got == [] && !v.pc.Ended? && |got| == DomNeed(v)
    ensures
      var d := DomAct(e, v.(got := got));
      DomRun(e, v, got + rest, out) == DomRun(e, d.(pend := []), rest, out + d.pend)
  {
    assert (got + rest)[..DomNeed(v)] == got && (got + rest)[DomNeed(v)..] == rest;
  }

  class Dom0App {
    const e: Dom0Env
    const stdio: Port
    ghost const total: DomOutcome
    ghost var v: Dom0
    /** The commands run, and the exit status once there is one. */
    var added: seq<AddKey>
    var killed: seq<KillSlot>
    var status: Option<bool>

    constructor (e: Dom0Env, stdio: Port)
      ensures this.e == e && this.stdio == stdio
      ensures total == DomRun(e, INIT_DOM0, stdio.incoming, stdio.outgoing)
      ensures Follows() && v == INIT_DOM0
    {
      this.e, this.stdio := e, stdio;
      total := DomRun(e, INIT_DOM0, stdio.incoming, stdio.outgoing);
      v := INIT_DOM0;
      added, killed, status := [], [], None;
    }

    /** What is left of the run is what the machine does from `v` on. */
    ghost predicate Follows()
      reads this, stdio
    {
      && v.pend == [] && v.got == [] && Records()
      && total == DomRun(e, v, stdio.incoming, stdio.outgoing)
    }

    ghost predicate Records()
      reads this
    {
      && added == v.added && killed == v.killed
      && status == match v.pc case Ended(ok) => Some(ok) case _ => None
    }

    /** The run is over: the program has ended or waits for ever. */
    ghost predicate Over()
      reads this, stdio
    {
      Records() && total == DomOutcome(v, stdio.outgoing, stdio.incoming)
    }

    method Read(n: nat) returns (ok: bool, buf: array<byte>)
      requires Follows() && !v.pc.Ended? && n == DomNeed(v)
      modifies stdio`incoming
      ensures fresh(buf) && buf.Length == n
      ensures !ok ==> Follows() && Over()
      ensures ok ==> total == DomRun(e, v, buf[..] + stdio.incoming, stdio.outgoing)
    {
      buf := new byte[n](_ => 0);
      ghost var input := stdio.incoming;
      ok := stdio.ReadExact(buf);
      assert ok ==> input == buf[..] + stdio.incoming;
    }

    /** The whole program. */
    method Execute()
      requires Follows() && v == INIT_DOM0 && e.Valid()
      modifies this, stdio
      ensures Over()
    {
      var ok, challenge := Read(108);
      if !ok {
        return;
      }
      Sign(challenge);
      Enroll();
    }

    method Sign(challenge: array<byte>)
      requires v == INIT_DOM0 && Records() && challenge.Length == 108
      requires total == DomRun(e, v, challenge[..] + stdio.incoming, stdio.outgoing)
      modifies this, stdio`outgoing
      ensures Follows() && v.pc.ReadLength? && v.added == [] && v.killed == []
    {
      ghost var out := stdio.outgoing;
      DomRunActs(e, v, challenge[..], stdio.incoming, out);
      v := DomAct(e, v.(got := challenge[..])).(pend := []);
      match e.tpm(challenge[..]) {
        case Some(sig) =>
          stdio.WriteAll([TPM_SIGNED]);
          stdio.WriteAll(sig);
          assert stdio.outgoing == out + ([TPM_SIGNED] + sig);
        case None =>
          stdio.WriteAll([TPM_REFUSED_TO_SIGN]);
      }
    }

    /** `enroll`: the passphrase is decoded and piped on, then the keyfile; then the slot. */
    method Enroll()
      requires Follows() && v.pc.ReadLength? && v.added == [] && v.killed == []
      modifies this, stdio
      ensures Over()
    {
      var ok, currentPass := ReadPassphrase();
      if !ok {
        return;
      }
      var keyfile;
      ok, keyfile := AddTheKey(currentPass);
      if !ok {
        return;
      }
      ReadAndKill(keyfile);
    }

    method ReadPassphrase() returns (ok: bool, currentPass: bytes)
      requires Follows() && v.pc.ReadLength?
      modifies this, stdio`incoming
      ensures !ok ==> Over()
      ensures ok ==> Follows() && v.pc.ReadKey? && v.current == currentPass
      ensures v.added == old(v.added) && v.killed == old(v.killed)
    {
      currentPass := [];
      var length, current;
      ok, length := Read(1);
      if !ok {
        return;
      }
      DomRunActs(e, v, length[..], stdio.incoming, stdio.outgoing);
      assert stdio.outgoing + [] == stdio.outgoing;
      v := DomAct(e, v.(got := length[..])).(pend := []);
      ok, current := Read(length[0]);
      if !ok {
        return;
      }
      DomRunActs(e, v, current[..], stdio.incoming, stdio.outgoing);
      v := DomAct(e, v.(got := current[..])).(pend := []);
      currentPass := current[..];
      if !e.utf8(currentPass) || e.spawnFails {
        status := Some(false);
        ok := false;
      }
    }

    method AddTheKey(currentPass: bytes) returns (ok: bool, keyfile: bytes)
      requires Follows() && v.pc.ReadKey? && v.current == currentPass
      modifies this, stdio
      ensures !ok ==> Over()
      ensures ok ==> Follows() && v.pc.ReadSlot? && v.keyfile == keyfile
    {
      var stdin := currentPass;
      var key;
      ok, key := Read(32);
      keyfile := key[..];
      if !ok {
        return;
      }
      DomRunActs(e, v, keyfile, stdio.incoming, stdio.outgoing);
      assert stdio.outgoing + [] == stdio.outgoing;
      v := DomAct(e, v.(got := keyfile)).(pend := []);
      stdin := stdin + keyfile;
      added := added + [AddKey(|currentPass|, stdin)];
      var outcome := e.addKey(|currentPass|, stdin);
      if outcome == Exited(0) {
        stdio.WriteAll([DECRYPTION_SUCCESS]);
      } else {
        status := Some(false);
        ok := false;
      }
    }

    /** The do-nothing byte, or `kill_slot`. */
    method ReadAndKill(keyfile: bytes)
      requires Follows() && v.pc.ReadSlot? && v.keyfile == keyfile
      modifies this, stdio`incoming
      ensures Over()
    {
      var ok, num := Read(1);
      if !ok {
        return;
      }
      DomRunActs(e, v, num[..], stdio.incoming, stdio.outgoing);
      assert stdio.outgoing + [] == stdio.outgoing;
      v := DomAct(e, v.(got := num[..])).(pend := []);
      if num[0] == DO_NOTHING {
        status := Some(true);
      } else {
        killed := killed + [KillSlot(keyfile, num[0])];
        status := Some(e.killSlot(keyfile, num[0]));
      }
    }
  }
}
