/** The passphrase codec between the Qubes virtual machine and dom0: exactly when what dom0
    feeds to luksAddKey is what was typed. */
module Codec {
  import opened Bytes
  import opened Messages
  import opened HostMachine
  import opened Dom0Machine
  import opened Dom0App
  import opened Qrexec

  /** What cryptsetup makes of its input: the first `--keyfile-size` bytes are the key file,
      the rest the new key file. */
  function Split(command: AddKey): (bytes, bytes)
    requires command.size <= |command.piped|
  {
    (command.piped[..command.size], command.piped[command.size..])
  }

  /** dom0's state once the challenge is answered. */
  predicate AwaitsPassphrase(v: Dom0) {
    v.pc.ReadLength? && v.pend == [] && v.got == [] && v.added == []
  }

  /** dom0's run on an encoded pair comes to read the keyfile. */
  lemma UpToTheKey(e: Dom0Env, v: Dom0, current: bytes, keyfile: bytes, rest: bytes, out: bytes)
    requires AwaitsPassphrase(v) && |keyfile| == 32
    requires e.utf8(Taken(current)) && !e.spawnFails
    ensures DomRun(e, v, Encode(current, keyfile) + rest, out)
         == DomRun(e, v.(pc := ReadKey, current := Taken(current)),
                   TakenKey(current, keyfile) + (LeftOver(current, keyfile) + rest), out)
  {
    var n, pass := |current| % 256, Taken(current);
    var tail := TakenKey(current, keyfile) + (LeftOver(current, keyfile) + rest);
    Truncation(current, keyfile);
    assert Encode(current, keyfile) + rest == [n] + (pass + tail);
    DomRunActs(e, v, [n], pass + tail, out);
    assert out + [] == out;
    DomRunActs(e, v.(pc := ReadPass(n)), pass, tail, out);
  }

  /** dom0's run goes through luksAddKey with what the truncated length makes of the pair,
      whatever follows in the stream. */
  lemma DomDecodes(e: Dom0Env, v: Dom0, current: bytes, keyfile: bytes, rest: bytes, out: bytes)
    requires AwaitsPassphrase(v) && |keyfile| == 32
    requires e.utf8(Taken(current)) && !e.spawnFails
    ensures
      var end := DomRun(e, v, Encode(current, keyfile) + rest, out).v;
      var pass, key := Taken(current), TakenKey(current, keyfile);
      end.added == [AddKey(|pass|, pass + key)]
  {
    UpToTheKey(e, v, current, keyfile, rest, out);
    var v2, key, after := v.(pc := ReadKey, current := Taken(current)), TakenKey(current, keyfile),
      LeftOver(current, keyfile) + rest;
    DomRunActs(e, v2, key, after, out);
    var d := DomAct(e, v2.(got := key));
    SlotAddsNothing(e, d.(pend := []), after, out + d.pend);
  }

  /** After luksAddKey nothing more is added. */
  lemma SlotAddsNothing(e: Dom0Env, v: Dom0, rest: bytes, out: bytes)
    requires v.pend == [] && v.got == [] && (v.pc.ReadSlot? || v.pc.Ended?)
    ensures DomRun(e, v, rest, out).v.added == v.added
  {
    if v.pc.ReadSlot? && rest != [] {
      assert rest == rest[..1] + rest[1..];
      DomRunActs(e, v, rest[..1], rest[1..], out);
    }
  }

  /** luksAddKey is given the typed passphrase and the keyfile, in a form that cryptsetup
      splits back into the two, if and only if the passphrase has at most 255 bytes. */
  lemma CodecIsExact(e: Dom0Env, v: Dom0, current: bytes, keyfile: bytes, rest: bytes, out: bytes)
    requires AwaitsPassphrase(v) && |keyfile| == 32
    requires e.utf8(Taken(current)) && !e.spawnFails
    ensures
      var end := DomRun(e, v, Encode(current, keyfile) + rest, out).v;
      && |end.added| == 1
      && end.added[0].size <= |end.added[0].piped|
      && (Split(end.added[0]) == (current, keyfile) <==> |current| <= 255)
  {
    DomDecodes(e, v, current, keyfile, rest, out);
    var pass, key := Taken(current), TakenKey(current, keyfile);
    assert (pass + key)[..|pass|] == pass && (pass + key)[|pass|..] == key;
    Truncation(current, keyfile);
  }

  /** The byte that dom0 reads for the slot, if `slot` is sent. */
  function SlotReached(current: bytes, keyfile: bytes, slot: byte): byte
    requires |keyfile| == 32
  {
    if LeftOver(current, keyfile) == [] then slot else LeftOver(current, keyfile)[0]
  }

  /** After luksAddKey has succeeded, the next byte decides between ending and killing a slot;
      it is the byte that was sent for this, with nothing left after it, exactly for
      passphrases that the length byte can carry. */
  lemma OnlyTheSlotIsLeft(e: Dom0Env, v: Dom0, current: bytes, keyfile: bytes, slot: byte, out: bytes)
    requires AwaitsPassphrase(v) && |keyfile| == 32
    requires e.utf8(Taken(current)) && !e.spawnFails
    requires e.addKey(|Taken(current)|, Taken(current) + TakenKey(current, keyfile)) == Exited(0)
    ensures
      var o, read, key := DomRun(e, v, Encode(current, keyfile) + [slot], out),
        SlotReached(current, keyfile, slot), TakenKey(current, keyfile);
      && o.out == out + [DECRYPTION_SUCCESS]
      && o.rest == (LeftOver(current, keyfile) + [slot])[1..]
      && (o.rest == [] <==> |current| <= 255)
      && (|current| <= 255 ==> read == slot && key == keyfile)
      && (if read == DO_NOTHING then o.v.pc == Ended(true) && o.v.killed == v.killed
          else o.v.pc == Ended(e.killSlot(key, read)) && o.v.killed == v.killed + [KillSlot(key, read)])
  {
    UpToTheKey(e, v, current, keyfile, [slot], out);
    var v2, key, after := v.(pc := ReadKey, current := Taken(current)), TakenKey(current, keyfile),
      LeftOver(current, keyfile) + [slot];
    Truncation(current, keyfile);
    DomRunActs(e, v2, key, after, out);
    TheLastByte(e, DomAct(e, v2.(got := key)).(pend := []), after, out + [DECRYPTION_SUCCESS]);
  }

  lemma TheLastByte(e: Dom0Env, v: Dom0, after: bytes, out: bytes)
    requires v.pc.ReadSlot? && v.pend == [] && v.got == [] && after != []
    ensures
      var d := DomAct(e, v.(got := after[..1]));
      DomRun(e, v, after, out) == DomOutcome(d, out, after[1..])
  {
    assert after == after[..1] + after[1..];
    DomRunActs(e, v, after[..1], after[1..], out);
    assert out + [] == out;
  }

  /** For instance: 300 bytes `A`, no slot asked for, every command successful.  44 bytes are
      taken for the passphrase, 32 for the keyfile, and the next for the slot to kill. */
  lemma ALongPassphrase(e: Dom0Env, v: Dom0, keyfile: bytes, out: bytes)
    requires AwaitsPassphrase(v) && v.killed == [] && |keyfile| == 32
    requires e.utf8(seq(44, _ => 0x41)) && !e.spawnFails
    requires e.addKey(44, seq(76, _ => 0x41)) == Exited(0)
    ensures
      var end := DomRun(e, v, Encode(seq(300, _ => 0x41), keyfile) + [DO_NOTHING], out).v;
      && end.added == [AddKey(44, seq(76, _ => 0x41))]
      && end.killed == [KillSlot(seq(32, _ => 0x41), 0x41)]
  {
    var current: bytes := seq(300, _ => 0x41);
    Truncation(current, keyfile);
    assert Taken(current) == seq(44, _ => 0x41);
    assert TakenKey(current, keyfile) == seq(32, _ => 0x41);
    assert Taken(current) + TakenKey(current, keyfile) == seq(76, _ => 0x41);
    DomDecodes(e, v, current, keyfile, [DO_NOTHING], out);
    OnlyTheSlotIsLeft(e, v, current, keyfile, DO_NOTHING, out);
  }
}
