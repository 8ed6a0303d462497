# Disk unlocking with a TKey and a TPM: a verified model

A TKey holds a device secret (the CDI). A host asks its TPM to sign a challenge, sends the
signature to the TKey, and then sends an encrypted hash of a passphrase; the TKey answers with
an encrypted keyfile, which the host pipes into cryptsetup. Three host programs speak this
protocol: one unlocks the disk at boot, one enrols a passphrase, and one enrols it from a Qubes
virtual machine, with a further program in dom0 that owns the TPM and the disk.

All of them talk over raw byte streams. No message carries a length or a type; every read asks
for a fixed number of bytes; and one stream-cipher state serves both directions. The project
proves that the programs nevertheless stay in step, and what follows from that.

## How it is built

* **Machines.** `ClientMachine`, `HostMachine` (three modes) and `Dom0Machine` are step machines
  from one blocking read to the next. `System` joins them by four byte streams; every single byte
  written or read is a step of its own, so a schedule can interleave the programs in the middle
  of any message. `After(cfg, schedule)` is the state after a schedule; a theorem about it for
  all schedules is a theorem about all runs, from any configuration of keys, nonces, answers of
  the user, and outcomes of TPM, touch sensor, hash calls and cryptsetup.
* **Invariant.** `Framing.Link`, `DomFraming.DomLink` and `Records.Recorded` say what is in flight
  as a function of the program counters, and what the records kept on the way say. `Invariant`
  proves that every step keeps them; `Safety`, `Liveness`, `Enrolment` and
  `QubesEnrolment` draw the conclusions.
* **Programs.** `ClientApp`, `HostApp`, `Dom0App` are the programs in their own form: classes,
  buffers, a mutable cipher object, loops, ports. Each is proved to write, read and end exactly
  as its machine does on the same input. `Histories` closes the circle: at any point of any
  schedule, a machine inside the system is what its program makes of the bytes received so far.
* **Outcome.** `Unlocking.Session` is the meaning of an unlocking session in a few lines, as one
  party would see it who does everything in turn: no streams, no cipher, no schedule.
  `Unlocking.SessionIsAsForetold` proves that the programs amount to exactly that. For the two
  enrolling programs, `Enrolling` gives the conditions on keys, TPM, touch, answers and commands
  under which every session succeeds, and only then; `EndToEnd` joins an enrolment and a later
  unlocking. `Confluence` proves that the end of any session, Qubes enrolment included, does not
  depend on the schedule and is always reached, and `Rejections` that answers which a prompt
  rejects leave no trace in that end.
* **Transcripts.** `ClientTranscript`, `HostTranscript` and `Dom0Transcript` describe each program
  from the wire's point of view, for any input whatever: literal byte values in their places, and
  no states. The machines, and with them the programs, are proved to be seen to do just that.
* **Other parts.** `Agreement` (any number of sessions over a wire that alters anything),
  `ClientSafety` (the device against any host), `Loader` (loading the app onto the TKey),
  `Codec` and `Qrexec` (passphrase codec and slot argument of the Qubes setup), `Padding` (the
  TPM's signature), `Challenge` (the signed bytes), `StreamCipher`.

The library calls (X25519, ChaCha20's keystream, Argon2id, BLAKE2s, ECDSA, BLAKE2s-256 of the
binary) are parameters. Of them only output lengths and `dh(a, pub(b)) == dh(b, pub(a))` (section
6.1 of RFC 7748) are taken for granted, and in `Agreement` that a signature verifies only on a
challenge that the TPM was given. The keystream depends on key, nonce and position (section 2.4
of RFC 8439).

## Where the code has limits

* `load_app` compares digests exactly for binaries that are not empty and shorter than 2^32 bytes
  (`Loader.CheckIsExact`). An empty one is reported as loaded; of a longer one a prefix is.
* dom0 decodes the current passphrase exactly if it has at most 255 bytes, because its length is
  sent as one truncated byte (`Codec.CodecIsExact`). Of a longer passphrase dom0 takes the first
  `length % 256` bytes for the passphrase, the next 32 for the keyfile, and the next one for the
  slot. So luksAddKey is run with other arguments than were meant, and if it succeeds all the
  same, luksKillSlot is run on a slot that a byte of the passphrase names (unless that is the
  do-nothing byte), whether or not a slot was to be killed. `EndToEnd.ALongSession` is a whole
  session in which this happens and success is reported. The theorems about dom0 are stated for
  passphrases of every length. `Enrolling.Offer` is the passphrase that a session comes to have a
  keyfile for, computed from what the parties start out with. Over all dom0 environments with the
  same TPM, success means the enrolment that was meant exactly if the current passphrase has at
  most 255 bytes or there is no offer (`Enrolling.SuccessIsExact`). luksKillSlot is guarded exactly
  if there is no offer, or the current passphrase has at most 255 bytes, or the byte read for the
  slot is the do-nothing byte, or it is the slot asked for and the 32 bytes before it are the
  offer's keyfile (`Enrolling.GuardIsExact`).
* The comment in `host/src/bin/verify.rs` names 0x99 as the do-nothing byte; the code and the
  model use 0x91.
* A malformed signature or a wrong compiled-in key stops the TKey while the host goes on to wait
  for a Ready4pass (`client/src/main.rs:156-159`, `host/src/lib.rs:349-353`). `Liveness.NoDeadlock`
  is therefore about states in which both still run.
* Light is claimed up to the end of the attempt loop: after it the light is green for every
  session (`client/src/main.rs:198`).

## Model

| member | source | states |
|---|---|---|
| Safety.FramingHolds | client/src/main.rs:109-197 | After every schedule with TKey and host both running, the bytes in flight each way are exactly those determined by the two program counters, and the two cipher positions match |
| Safety.ClientReadsAlign | client/src/main.rs:122-213 | Each of the TKey's fixed-size reads takes exactly what the host wrote for it: key, status byte, signature, encrypted hash of the passphrase in use, or the verdict last told |
| Safety.HostReadsAlign | host/src/lib.rs:324-357 | Each of the host's fixed-size reads takes exactly what the TKey wrote for it, and a Ready4pass is read only when the host's try number equals the TKey's attempt number |
| Safety.DeliveryIsExact | host/src/main.rs:133-167 | Every keyfile handed on is blake2s(cdi, argon2(pass)) of a passphrase that the user typed, whatever failed before; a later try hands over the passphrase of a later answer, and no try hands over twice |
| Safety.KeystreamIsNeverReused | client/src/main.rs:172-185 | Over every run the keystream intervals that encrypt plaintext, on both sides together, are pairwise disjoint, and no position passes 192 |
| Safety.DoneMeansOpened | host/src/main.rs:176-184 | The TKey finishes only if the unlocking host succeeded, which is so exactly if cryptsetup accepted a delivered keyfile, and that one is the last |
| Safety.TrustAgrees | host/src/lib.rs:332-356 | Once the handshake has ended, the host calls the system trustworthy exactly if the TKey verified the signature, exactly if the TKey's light is green while it waits |
| Safety.DeviceStaysSafe | client/src/main.rs:134-197 | The device's own guarantees hold after every schedule |
| Invariant.InvAlways | client/src/main.rs:109-202 | The joint invariant of TKey, host and dom0 holds after every schedule |
| Invariant.StepInv | host/src/main.rs:38-77 | Every possible step, of any program and down to a single byte moved, keeps the joint invariant |
| Framing.SameKey | host/src/lib.rs:442-446 | Both ends compute the same shared secret from each other's public key |
| Framing.ClientReadsHash | client/src/main.rs:169-191 | A TKey that takes 32 bytes takes the current hash, and leaves with reply and cipher position in step on both the success and the BLAKE2 failure path |
| Framing.HostReadsKeyfile | host/src/main.rs:133-184 | The host that takes 32 bytes takes the keyfile, and every outcome of cryptsetup leaves the two programs in step |
| Framing.HostHearsHashFailed | host/src/main.rs:46-54 | After a failed derivation the host moves to the next try with only 32 bytes of keystream used, in step with the TKey |
| Framing.HostActs | host/src/main.rs:38-131 | Every host action keeps the framing between TKey and host |
| Framing.ClientActs | client/src/main.rs:109-197 | Every TKey action keeps the framing between TKey and host |
| DomFraming.DomActs | host/src/bin/verify.rs:13-104 | Every action of dom0's program keeps the framing between it and the Qubes host |
| DomFraming.HostActsOnDom | host/src/bin/qubes_enroll.rs:67-131 | Every action of the Qubes host keeps that framing |
| Records.KeyfileArrives | client/src/main.rs:184-188 | What the host decrypts is the TKey's derivation from the hash that the host sent |
| Liveness.EveryRunTerminates | client/src/main.rs:161-197 | No schedule, however long, makes more real steps than the initial amount of work: a measure over tries, program counters, unasked prompts and unsent and unread bytes falls on every step |
| Liveness.NoDeadlock | host/src/main.rs:38-77 | When nothing can happen any more, TKey and host are not both running, unless the host waits for the user; in all three programs, and for current passphrases of every length |
| Rejections.RejectionsLeaveNoTrace | host/src/main.rs:97-101 | A settled session and the settled session in which the rejected answers were never typed are the same, whatever their schedules: the same states, commands and bytes in all streams, but for the count of answers |
| Rejections.RunAlike | host/src/bin/enroll.rs:48-57 | Every run, with the rejected answers left out, is a run |
| Liveness.FailureIsFinal | host/src/main.rs:76-77 | When the host gives up, both have counted three; there is no fourth Ready4pass, and once all has settled the TKey has aborted |
| Liveness.SuccessIsHeard | host/src/main.rs:176-179 | When the host has succeeded and all has settled, the TKey has finished |
| Unlocking.SessionIsAsForetold | host/src/main.rs:35-78 | Every unlocking session that goes on until nothing more can happen ends, on both sides, exactly as a sequential specification says from the signature check, the touch, the typed answers, the hash calls and cryptsetup's outcomes: opened, given up after three, waiting for the user on try k, stranded because the device refused, or broken off by the host on try k, with the TKey waiting for a hash or a verdict, asking for the next passphrase, or aborted |
| Unlocking.AlwaysOnCourse | client/src/main.rs:134-197 | At every point of every schedule, what the host's state still foretells is what was foretold at the start |
| Unlocking.HostTries | host/src/main.rs:133-185 | Decrypting and trying a keyfile is what the specification says about the passphrase behind it |
| Confluence.EndIsDetermined | client/src/main.rs:109-202 | Any two schedules that go on until nothing more can happen end in the same state of all programs and streams |
| Confluence.EndIsReached | client/src/main.rs:109-202 | Every schedule can be continued to that state |
| Confluence.Diamond | host/src/lib.rs:209-227 | Two different steps that are possible at once can be taken in either order, with the same result |
| Enrolment.AcceptanceAgrees | host/src/bin/enroll.rs:53-57 | A passphrase with a newline is accepted for unlocking, and stripped to itself, exactly from eight bytes on, and so is one typed twice for enrolling, by the Qubes program up to 255; two different entries are never accepted for enrolling |
| Enrolment.PassphrasesAreTyped | host/src/bin/qubes_enroll.rs:148-161 | Over every run, each passphrase behind a handed-on keyfile was typed twice alike with at least 8 bytes (and at most 255 for the Qubes program), or for unlocking with at least 9 bytes of which the last is stripped |
| Enrolment.TypedPassphraseIsTaken | host/src/main.rs:95-121 | Conversely, a passphrase typed that way that Argon2 can hash is taken at the prompt: its hash goes out, encrypted at the current position |
| Enrolment.RightPassphraseUnlocks | host/src/main.rs:79-185 | If the answer at a prompt stands for a keyfile that opens the disk and that try's calls work, every continuation that settles ends with the disk open and the TKey finished |
| Enrolment.EnrolThenUnlock | host/src/bin/enroll.rs:26-36 | A passphrase enrolled by either program in one session opens the disk in any session on the same device, with any keys and nonces, at whichever of the three prompts it is typed |
| Enrolment.EnrolSuccessIsReal | host/src/bin/enroll.rs:80-128 | The enrolling program ends well exactly if luksAddKey succeeded with the current passphrase and the keyfile of a passphrase that was typed twice alike with at least 8 bytes; the TKey is sent off only then |
| Enrolment.EnrolFailureIsReal | host/src/bin/enroll.rs:117-128 | It returns FAILURE exactly if luksAddKey ran and exited with a nonzero code, and then the TKey is told 0x98; after any other bad end it is told nothing |
| QubesEnrolment.DomCommands | host/src/bin/verify.rs:39-104 | Over every run and for current passphrases of every length, which luksAddKey and which luksKillSlot command dom0 runs, if any |
| QubesEnrolment.QubesSuccessIsReal | host/src/bin/qubes_enroll.rs:106-138 | 0x99 is sent and success reported only if dom0's program ended well with every command successful; for at most 255 bytes, luksAddKey with exactly the typed current passphrase and the new keyfile, and a requested luksKillSlot on exactly that slot |
| Enrolling.SuccessIsExact | host/src/bin/qubes_enroll.rs:112-138 | In all worlds with the same TPM in dom0, success implies the enrolment that was meant if and only if the current passphrase has at most 255 bytes, or the handshake, the answers and the hash call leave no passphrase to offer |
| QubesEnrolment.KillSlotIsGuarded | host/src/bin/verify.rs:90-104 | luksKillSlot runs only on a requested slot below 32, which is never the do-nothing byte, with the new keyfile, after the TPM signed and luksAddKey succeeded, in every run whose keyfile is safe with the current passphrase; always for at most 255 bytes |
| Enrolling.GuardIsExact | host/src/bin/qubes_enroll.rs:112-131 | In all worlds with the same TPM in dom0, luksKillSlot is guarded if and only if there is no passphrase to offer, or its keyfile is safe with the current passphrase: that fits its length byte, or holds the do-nothing byte where the slot is read, or there the requested slot and before it the keyfile |
| Enrolling.OfferIsHandedOver | host/src/bin/enroll.rs:16-79 | In every run of either enrolling program, what is handed over is the keyfile of the first unrejected passphrase of an admitted session; and every settled session hands it over, if there is one and cryptsetup starts |
| Enrolling.QubesSessionIsExact | host/src/bin/qubes_enroll.rs:35-139 | Every settled Qubes session ends well, for host and TKey alike, if and only if there is a passphrase to offer, and dom0 decodes what it takes, starts luksAddKey, and succeeds with it and with luksKillSlot on the byte it reads |
| Enrolling.EnrolSessionIsExact | host/src/bin/enroll.rs:16-128 | Every settled session of the enrolling program ends well, for host and TKey alike, if and only if there is a passphrase to offer, and luksAddKey starts and succeeds with the current passphrase and its keyfile |
| EndToEnd.EnrolledPassphraseOpens | host/src/bin/enroll.rs:26-36 | From conditions on the inputs alone: an enrolment by either program succeeds and leaves an enrolled keyfile, and in a later session on the same device the same passphrase, typed after any rejected answers, opens the disk |
| EndToEnd.ALongSession | host/src/bin/qubes_enroll.rs:112-139 | A whole Qubes session with a current passphrase of 300 bytes `A` and no slot to kill, which succeeds with a key added that is not the typed one and slot 0x41 killed |
| QubesEnrolment.GoodWorld | host/src/bin/verify.rs:39-104 | Every session that hands over a keyfile goes on to success in some world with the same TPM in dom0 |
| ClientSafety.VerifiedIsGenuine | client/src/main.rs:204-223 | Against any host, the device takes the signature for verified exactly if the host's first 97 bytes are a key, the byte for "signed" and a genuine signature on the challenge with that key |
| ClientSafety.DeviceIsSafe | client/src/main.rs:134-202 | Against any host: at most three derivations, none without a genuine signature or a touch; three seconds of sleep after each failed attempt and six at the end; in the loop green light exactly for a genuine signature, yellow exactly if none was announced, purple exactly if an announced one does not verify, and yellow or purple also while the touch is waited for |
| ClientTranscript.DeviceShows | client/src/main.rs:108-223 | For any input, every byte the TKey writes, by value and place, the lights, the sleep, how much it reads and how it stops are those of a transcript written without states |
| ClientTranscript.WarningIsRight | client/src/main.rs:138-155 | The light while a touch is waited for is yellow exactly for a refusal and purple exactly for an invalid signature |
| ClientMachine.RunIsSafe | client/src/main.rs:161-197 | Every run of the device on any input keeps its guarantees |
| ClientMachine.RankFalls | client/src/main.rs:162-197 | Every action brings the device closer to its end |
| HostMachine.RankFalls | host/src/main.rs:38-101 | Every action of a host, including each rejected answer at a prompt, brings it closer to its end |
| HostMachine.ActReadsKeyfile | host/src/main.rs:133-185 | What follows from reading a keyfile: handed over or not, which verdict is told, which command runs, and that success means cryptsetup accepted it |
| HostMachine.ActAnswersPrompt | host/src/main.rs:83-121 | What follows from an answered prompt: a hash of the accepted passphrase encrypted at the current position, another prompt, or an error |
| Agreement.VerifiedHasPartner | client/src/main.rs:129-133 | Over a wire that alters, drops, replays and invents bytes, among any number of sessions, a TKey session with a good signature has a host session with equal nonces, each other's public key and the same shared secret |
| Agreement.AgreementIsInjective | host/src/lib.rs:446-450 | If the device never draws a nonce twice, different verified sessions have different partners |
| Agreement.InvAlways | host/src/lib.rs:430-452 | Every challenge ever signed was built by some host session, from its own key and the nonces and key that it read |
| Challenge.LayoutIsInjective | host/src/lib.rs:446-450 | Different handshakes have different challenges |
| Challenge.Build | client/src/main.rs:129-133 | The four slice copies put the nonce at 0..32, the host's key at 32..64, the TKey's at 64..96 and the encryption nonce at 96..108 |
| Challenge.LayoutIsInPlace | host/src/lib.rs:446-450 | A byte string is the challenge of four parts exactly if it has 108 bytes with the parts at these places |
| StreamCipher.ApplyTwice | client/src/main.rs:126-128 | Two ciphers with the same key, nonce and position undo each other |
| Bytes.XorIsBitwise | client/src/main.rs:172 | Combining with a keystream byte adds it bit by bit |
| StreamCipher.ChaCha20.ApplyKeystream | host/src/main.rs:157 | In place, byte by byte: the buffer is combined with the keystream from the current position, which advances by its length |
| StreamCipher.ChaCha20.ApplyKeystreamB2b | client/src/main.rs:172-185 | The same from buffer to buffer |
| Loader.LoadApp | host/src/lib.rs:363-425 | The loop with its buffers, incremental hash and polling writes, reads and returns exactly what the closed form of the exchange says; it returns the rejection exactly if the third byte of the first reply is not zero, and then has sent the request alone and read five bytes |
| Loader.OtherEndings | host/src/lib.rs:378-420 | Exactly when loading ends in a rejection, in giving up after 70 polls, in a failed ioctl or in a digest mismatch, and what has then been written and read |
| Loader.LoadedMeansConfirmed | host/src/lib.rs:378-416 | Success means that the device accepted the request, exactly the announcement and the frames of the binary were written, the replies were seen in time, exactly 5 + 5 * (total - 1) + 129 reply bytes were read, and the device's digest equals that of the binary |
| Loader.CheckIsExact | host/src/lib.rs:383-425 | Success implies a matching device digest, for all replies, if and only if the binary is not empty and shorter than 2^32 bytes |
| Loader.NothingIsCompared | host/src/lib.rs:383-425 | When the announced length is zero, the load succeeds without a digest |
| Loader.HonestLoad | host/src/lib.rs:378-417 | Against a device that puts frames together as announced, the load succeeds if one of the first 70 polls sees the replies and none before it fails, and the next byte on the port is the client's first |
| Loader.FramesReassemble | host/src/lib.rs:384-389 | The frames' payloads, cut to the announced length, are exactly the binary |
| Loader.FramesByPosition | host/src/lib.rs:384-388 | Every byte of every frame: header 0x13, command 0x05, 127 bytes of the binary at their place, and zeros beyond it |
| Loader.RequestByPosition | host/src/lib.rs:366-377 | Every byte of the request: header 0x13, command 0x03, the length with its lowest byte first, zeros |
| Loader.NextChunk | host/src/lib.rs:390 | The test for the last chunk, with its unsigned wrap-around, fires exactly at the last chunk, when what was hashed is all that is sent |
| Loader.ExpectedFits | host/src/lib.rs:395 | `(total - 1) as i32 * 5` does not overflow for any announced 32-bit length |
| Loader.WaitForReplies | host/src/lib.rs:396-407 | Polling ends well exactly if nothing is expected or one of the first 70 polls sees enough and none before it fails, gives up exactly if all 70 see too few, and otherwise reports the failed ioctl |
| Loader.SendFrame | host/src/lib.rs:385-389 | A frame built in its buffer is header, command, chunk and zeros |
| Loader.DeviceConfirms | host/src/lib.rs:410-415 | The device answers the frames of a binary with five bytes each and, at the last, the binary's digest |
| Padding.PadSignature | host/src/lib.rs:302-311 | The 64 bytes hold the two numbers with their big-endian values unchanged; longer numbers than 32 bytes, and only they, are refused |
| Padding.SignatureSurvives | host/src/lib.rs:302-311 | The padded bytes are a given signature exactly if the TPM's numbers have its values, however many leading zeros were dropped |
| Padding.PaddingInvertsStripping | host/src/lib.rs:308 | Padding to the old length inverts the dropping of leading zeros (sections 2.3.7 and 2.3.8 of SEC 1) |
| Padding.PaddingIsOctets | host/src/lib.rs:309-310 | Padding is the fixed-length octet string of the number (section 2.3.7 of SEC 1) |
| Padding.ValueFits | host/src/lib.rs:305-310 | A byte string of length k stands for a number below 256^k |
| Padding.OctetsOfValue | host/src/lib.rs:302-311 | Converting to a number and back at the same length gives the bytes back |
| Padding.NumbersSurvive | host/src/lib.rs:302-311 | However short the TPM writes its two numbers, the 64 bytes are their full-length octet strings, from which the same numbers are read |
| Qrexec.ParseSlotIsExact | host/src/bin/qubes_enroll.rs:36-50 | A slot is killed exactly if the arguments are the flag and a decimal number below 32, and then it is that number |
| Qrexec.ParseU8IsExact | host/src/bin/qubes_enroll.rs:39 | The left-to-right parser accepts exactly the decimal numbers below 256, and returns their value |
| Qrexec.SlotSurvives | host/src/bin/verify.rs:113 | Printing the parsed slot for cryptsetup gives a text with the same value |
| Codec.CodecIsExact | host/src/bin/qubes_enroll.rs:112-115 | What dom0 pipes into luksAddKey splits into the typed passphrase and the keyfile if and only if the passphrase has at most 255 bytes |
| Codec.DomDecodes | host/src/bin/verify.rs:42-84 | For any length, which bytes dom0 takes for the passphrase and the keyfile |
| Codec.OnlyTheSlotIsLeft | host/src/bin/verify.rs:90-104 | After luksAddKey the next byte decides between ending and killing exactly that slot; it is the byte that was sent for this, with nothing after it, if and only if the passphrase has at most 255 bytes |
| Codec.ALongPassphrase | host/src/bin/verify.rs:42-103 | With 300 bytes `A` and no slot asked for, dom0 adds a key with 44 of them and 32 more as keyfile, and then kills slot 0x41 |
| ClientApp.ClientApp.Execute | client/src/main.rs:108-202 | On any input the program with its buffers, cipher object and loop writes, reads and ends exactly as the machine, with light, attempts and sleep as recorded and the buffers for hash, keyfile, encrypted keyfile and CDI zero |
| ClientApp.ClientApp.Receive | client/src/main.rs:169-192 | Every blocking read demands that the buffers for hash, keyfile, encrypted keyfile and CDI are zero |
| ClientApp.ClientApp.Authenticate | client/src/main.rs:134-160 | Status byte, signature check, the light of the touch gate and the light after it follow the machine on every branch |
| ClientApp.ClientApp.Derive | client/src/main.rs:171-190 | From encrypted hash to encrypted keyfile; all secrets are wiped on both paths; 64 or 32 bytes of keystream are used |
| ClientApp.ClientApp.Attempts | client/src/main.rs:161-201 | The three-attempt loop follows the machine to its end |
| HostApp.HostApp.Unlock | host/src/main.rs:22-78 | On any input the unlocking program with its three-try loop writes, reads and exits exactly as the machine |
| HostApp.HostApp.Enrol | host/src/bin/enroll.rs:16-37 | The same for the enrolling program |
| HostApp.HostApp.Qubes | host/src/bin/qubes_enroll.rs:35-139 | The same for the Qubes program on both of its inputs and the exit status of dom0's program, if that ever ends |
| HostMachine.OnlyAGoodExitSucceeds | host/src/bin/qubes_enroll.rs:132-139 | On any inputs the Qubes program succeeds, and tells the TKey so as its last byte, exactly if it came to wait for dom0's program and that ended well |
| HostTranscript.HostShows | host/src/main.rs:22-185 | For any bytes from the TKey and from dom0, everything each of the three host programs writes, by value and place, how much it reads, the keyfiles it hands on, its trust and how it stops are those of a transcript written without states |
| HostApp.HostApp.GetCipher | host/src/lib.rs:430-452 | The key exchange leaves cipher and challenge as the machine has them, position zero |
| HostApp.HostApp.AuthWithTkeyAndTpm | host/src/lib.rs:322-357 | The handshake, with the TPM's signature or refusal and the TKey's verdict, follows the machine |
| HostApp.HostApp.Prompt | host/src/main.rs:83-121 | The recursive prompt follows the machine, however often it asks again |
| HostApp.HostApp.PipeIn | host/src/main.rs:157-165 | What is piped into cryptsetup is the keyfile decrypted in place at the current position; the buffer is wiped |
| HostApp.HostApp.Conclude | host/src/main.rs:168-184 | Which verdict byte and which exit each outcome of cryptsetup leads to |
| HostApp.HostApp.RunAddKey | host/src/bin/enroll.rs:80-120 | luksAddKey gets the current passphrase's length and the passphrase followed by the decrypted keyfile |
| Dom0Transcript.DomShows | host/src/bin/verify.rs:13-133 | For any input, everything dom0's program writes and reads, its commands and how it stops are those of a transcript written without states |
| Dom0App.Dom0App.Execute | host/src/bin/verify.rs:13-104 | On any input dom0's program writes, reads, runs commands and ends exactly as the machine |
| Histories.ClientProgramIsMachine | client/src/main.rs:108-202 | At every resting point of every schedule the TKey's machine is what its program makes of the bytes received so far |
| Histories.HostProgramIsMachine | host/src/main.rs:22-78 | The same for the host programs and both of their inputs, the exit of dom0's program and the end of its output included |
| Histories.DomProgramIsMachine | host/src/bin/verify.rs:13-104 | The same for dom0's program, with the same commands run; or it met the end of its input where the program waits |

## Left out

- Device plumbing: opening and configuring the serial port, `Deref`/`Read`/`Write` of `Tkey`, mounting `/boot`, reading files, printed text, log files, shell scripts, dracut and build files.
- Read and write errors of the serial port and the pipes, other than the end of dom0's streams: a read that gets no bytes waits; a write always succeeds. A broken pipe to dom0 shows at the next read; in particular the slot byte can still be written to a program in dom0 that has just ended.
- The 1000-byte check on the compiled-in client binary (`host/src/bin/enroll.rs:18`, `host/src/bin/qubes_enroll.rs:54`), which ends the program before anything is sent.
- Internals of the cryptographic libraries and of the TPM session; real time and baud rate, beyond the sum of the sleeps.
- The time limit of the touch request, and the green light during the last six seconds: the touch is an input, and the light is off at the end.
- ChaChaInit (0x16): the key and nonce slices have fixed lengths, so the TKey never sends it. The host would read it as an unknown error.
- What the user types is a finite sequence; when it is used up the program waits at the prompt. An error of `rpassword` for the current passphrase is not modelled.
- cryptsetup is an oracle for each command: which outcomes it has may depend on the try, the size argument and the bytes piped in. That it splits its input at `--keyfile-size` is its documented behaviour and written as `Codec.Split`. Failures to start luksKillSlot count as its failure.
- Bytes that cryptsetup does not read, and a pipe that breaks while it is fed, are one outcome (`PipeFailed`).
- The TKey's firmware is not part of the repository; `Loader.Device` follows the framing that the host's code relies on.
- Unlocking.SessionIsAsForetold: for the unlocking program; of the enrolling programs, `Enrolling` says exactly when they succeed, and not in which of the other ways they end.
- Safety.TrustAgrees: not stated for the Qubes program, which keeps no such flag.
- ClientApp.ClientApp.Execute: the buffers of the attempt loop; the source keeps shared secret and cipher state in memory to the end.
- Loader.LoadApp: when the announced length is zero, the unsigned subtraction wraps, as in a release build; a build with overflow checks stops there if there is a chunk.
