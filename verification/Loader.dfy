/** Loading the client app onto the TKey: framing, incremental hashing, unread replies. */
module Loader {
  import opened Bytes
  import opened Port

  const HEADER: byte := 0x13
  const U32: nat := 0x1_0000_0000
  const USIZE: nat := 0x1_0000_0000_0000_0000

  function Min(a: nat, b: nat): nat {
    if a < b then a else b
  }

  function DivCeil(a: nat, b: nat): nat
    requires 0 < b
  {
    (a + b - 1) / b
  }

  function LeBytes(n: nat): (r: bytes)
    requires n < U32
    ensures |r| == 4
  {
    [n % 256, n / 256 % 256, n / 65536 % 256, n / 16777216 % 256]
  }

  function LeValue(b: bytes): nat
    requires |b| == 4
  {
    b[0] as int + 256 * (b[1] as int) + 65536 * (b[2] as int) + 16777216 * (b[3] as int)
  }

  lemma LeRoundTrip(n: nat)
    requires n < U32
    ensures LeValue(LeBytes(n)) == n
  {
    var a, b := n / 256, n / 65536;
    assert b == a / 256 && n / 16777216 == b / 256;
    assert n == 256 * a + n % 256 && a == 256 * b + a % 256 && b == 256 * (b / 256) + b % 256;
  }

  /** The request that announces the length, with no user secret. */
  function Request(len: nat): (r: bytes)
    requires len < U32
    ensures |r| == 129
  {
    [HEADER, 0x03] + LeBytes(len) + [0] + Zeros(32) + Zeros(90)
  }

  function Frame(chunk: bytes): (r: bytes)
    requires |chunk| <= 127
    ensures |r| == 129
  {
    [HEADER, 0x05] + chunk + Zeros(127 - |chunk|)
  }

  function Frames(bin: bytes): bytes {
    if bin == [] then []
    else
      var n := Min(127, |bin|);
      Frame(bin[..n]) + Frames(bin[n..])
  }

  // ----- What load_app does, in closed form -----

  datatype LoadResult =
    | Loaded | Rejected | GaveUp | IoctlFailed | DigestMismatch
    | Blocked

  /** Chunks announced: from the length as a `u32`. */
  function Total(bin: bytes): nat {
    DivCeil(|bin| % U32, 127)
  }

  /** The part of the binary that is sent.  All of it, unless its length does not fit. */
  function Sent(bin: bytes): bytes {
    if Total(bin) == 0 then bin else bin[..Min(127 * Total(bin), |bin|)]
  }

  /** Polls of the number of waiting bytes: `None` if the call fails. */
  datatype Poll = PollFails | Waiting(num: int)

  /** The polling loop: up to 70 passes. */
  function Polled(polls: nat -> Poll, passes: nat, num: int, expected: nat): LoadResult
    decreases if passes < 70 then 70 - passes else 0
  {
    if expected <= num then Loaded
    else if passes >= 70 then GaveUp
    else
      match polls(passes)
      case PollFails => IoctlFailed
      case Waiting(n) => Polled(polls, passes + 1, n, expected)
  }

  /** The poll sees fewer bytes than expected. */
  predicate TooFew(poll: Poll, expected: nat) {
    poll.Waiting? && poll.num < expected
  }

  /** Nothing is expected, or one of the first 70 polls sees enough, and none before it fails. */
  predicate SeenInTime(polls: nat -> Poll, expected: nat) {
    expected == 0
    || exists k | 0 <= k < 70 ::
         && polls(k).Waiting? && polls(k).num >= expected
         && forall i | 0 <= i < k :: TooFew(polls(i), expected)
  }

  /** All of the first 70 polls see too few. */
  predicate NeverSeen(polls: nat -> Poll, expected: nat) {
    expected > 0 && forall i | 0 <= i < 70 :: TooFew(polls(i), expected)
  }

  /** Polling ends well exactly if the bytes are seen in time, and in giving up exactly if 70 polls
      have seen too few. */
  lemma {:induction false} PolledIsExact(polls: nat -> Poll, passes: nat, num: int, expected: nat)
    requires passes <= 70
    requires forall i | 0 <= i < passes :: TooFew(polls(i), expected)
    requires passes == 0 ==> num == 0
    requires passes > 0 ==> expected > 0 && polls(passes - 1).Waiting? && num == polls(passes - 1).num
    ensures Polled(polls, passes, num, expected).Loaded? <==> SeenInTime(polls, expected)
    ensures Polled(polls, passes, num, expected).GaveUp? <==> NeverSeen(polls, expected)
    ensures
      var r := Polled(polls, passes, num, expected);
      r.Loaded? || r.GaveUp? || r.IoctlFailed?
    decreases 70 - passes
  {
    if num < expected && passes < 70 {
      match polls(passes)
      case PollFails => assert !TooFew(polls(passes), expected);
      case Waiting(n) =>
        if n < expected {
          PolledIsExact(polls, passes + 1, n, expected);
        } else {
          assert !TooFew(polls(passes), expected);
        }
    }
  }

  /** Bytes the device sends for a load in `total` frames: a reply to the request, one to each
      frame but the last, and the reply to the last. */
  function ReplySize(total: nat): nat
    requires total > 0
  {
    5 + 5 * (total - 1) + 129
  }

  /** The digest in the reply to the last frame. */
  function DeviceDigest(total: nat, replies: bytes): bytes
    requires total > 0 && ReplySize(total) <= |replies|
  {
    replies[5 + 5 * (total - 1)..][3..35]
  }

  /** The end of the exchange, after the last frame: its result, and how much of all the
      replies is then read. */
  datatype Ending = Ending(result: LoadResult, taken: nat)

  function Finish(total: nat, digest: bytes, polls: nat -> Poll, replies: bytes): Ending
    requires total > 0
  {
    var expected := 5 * (total - 1);
    var polled := Polled(polls, 0, 0, expected);
    if !polled.Loaded? then Ending(polled, 5)
    else if |replies| < 5 + expected then Ending(Blocked, 5)
    else if |replies| < ReplySize(total) then Ending(Blocked, 5 + expected)
    else
      Ending(if DeviceDigest(total, replies) == digest then Loaded else DigestMismatch,
             ReplySize(total))
  }

  /** The whole exchange: its result, what is written, and how much is read. */
  datatype Exchange = Exchange(result: LoadResult, written: bytes, taken: nat)

  function Load(bin: bytes, hash: bytes -> bytes, polls: nat -> Poll, replies: bytes): Exchange {
    var request := Request(|bin| % U32);
    if |replies| < 5 then Exchange(Blocked, request, 0)
    else if replies[2] != 0 then Exchange(Rejected, request, 5)
    else
      var written := request + Frames(Sent(bin));
      if Total(bin) == 0 then Exchange(Loaded, written, 5)
      else
        var ending := Finish(Total(bin), hash(Sent(bin)), polls, replies);
        Exchange(ending.result, written, ending.taken)
  }

  /** `(total - 1) as i32 * 5` never overflows, whatever 32-bit length is announced. */
  lemma ExpectedFits(bin: bytes)
    requires Total(bin) > 0
    ensures 5 * (Total(bin) - 1) < 0x8000_0000
  {
    assert Total(bin) <= (U32 + 126) / 127;
  }

  lemma SentIsBinary(bin: bytes)
    requires 0 < |bin| < U32
    ensures |bin| % U32 == |bin|
    ensures Total(bin) == DivCeil(|bin|, 127) > 0 && Sent(bin) == bin
  {
    assert 127 * DivCeil(|bin|, 127) >= |bin|;
    assert bin[..|bin|] == bin;
  }

  /** Success means that the device confirmed the digest of the binary, having been read to
      the last reply byte: the next bytes on the port are the client's. */
  lemma LoadedMeansConfirmed(bin: bytes, hash: bytes -> bytes, polls: nat -> Poll, replies: bytes)
    requires 0 < |bin| < U32
    requires Load(bin, hash, polls, replies).result.Loaded?
    ensures Total(bin) == DivCeil(|bin|, 127) > 0
    ensures Load(bin, hash, polls, replies).written == Request(|bin|) + Frames(bin)
    ensures Load(bin, hash, polls, replies).taken == ReplySize(Total(bin)) <= |replies|
    ensures replies[2] == 0 && DeviceDigest(Total(bin), replies) == hash(bin)
    ensures SeenInTime(polls, 5 * (Total(bin) - 1))
  {
    SentIsBinary(bin);
    PolledIsExact(polls, 0, 0, 5 * (Total(bin) - 1));
    LoadEnds(bin, |bin|, bin, Total(bin), hash, polls, replies);
  }

  lemma LoadEnds(
    bin: bytes, len: nat, goal: bytes, total: nat, hash: bytes -> bytes, polls: nat -> Poll, replies: bytes)
    requires len == |bin| % U32 && goal == Sent(bin) && total == Total(bin) > 0
    requires Load(bin, hash, polls, replies).result.Loaded?
    ensures Load(bin, hash, polls, replies) == Exchange(Loaded, Request(len) + Frames(goal), ReplySize(total))
    ensures ReplySize(total) <= |replies| && DeviceDigest(total, replies) == hash(goal)
    ensures replies[2] == 0 && Polled(polls, 0, 0, 5 * (total - 1)).Loaded?
  {
    assert Finish(total, hash(goal), polls, replies).result.Loaded?;
  }

  /** How loading ends otherwise: rejected exactly if the first reply says so, and then with
      nothing sent but the request; given up exactly if 70 polls see too few replies; with a digest
      mismatch exactly if a different digest is read. */
  lemma OtherEndings(bin: bytes, hash: bytes -> bytes, polls: nat -> Poll, replies: bytes)
    requires Total(bin) > 0
    ensures
      var x, expected := Load(bin, hash, polls, replies), 5 * (Total(bin) - 1);
      var accepted := |replies| >= 5 && replies[2] == 0;
      && (x.result.Rejected? <==> |replies| >= 5 && replies[2] != 0)
      && (x.result.Rejected? ==> x.written == Request(|bin| % U32) && x.taken == 5)
      && (x.result.GaveUp? <==> accepted && NeverSeen(polls, expected))
      && (x.result.IoctlFailed? <==> accepted && !NeverSeen(polls, expected) && !SeenInTime(polls, expected))
      && (x.result.GaveUp? || x.result.IoctlFailed? ==> x.taken == 5)
      && (x.result.DigestMismatch? <==>
            && accepted && SeenInTime(polls, expected) && ReplySize(Total(bin)) <= |replies|
            && DeviceDigest(Total(bin), replies) != hash(Sent(bin)))
      && (x.result.DigestMismatch? ==> x.taken == ReplySize(Total(bin)))
      && (x.result.Blocked? ==> |replies| < ReplySize(Total(bin)))
      && (accepted ==> x.written == Request(|bin| % U32) + Frames(Sent(bin)))
      && (|replies| < 5 ==> x == Exchange(Blocked, Request(|bin| % U32), 0))
  {
    PolledIsExact(polls, 0, 0, 5 * (Total(bin) - 1));
    FinishEndings(Total(bin), hash(Sent(bin)), polls, replies);
  }

  lemma FinishEndings(total: nat, digest: bytes, polls: nat -> Poll, replies: bytes)
    requires total > 0
    ensures
      var x, polled := Finish(total, digest, polls, replies), Polled(polls, 0, 0, 5 * (total - 1));
      && (x.result.GaveUp? <==> polled.GaveUp?) && (x.result.IoctlFailed? <==> polled.IoctlFailed?)
      && !x.result.Rejected?
      && (x.result.GaveUp? || x.result.IoctlFailed? ==> x.taken == 5)
      && (x.result.DigestMismatch? <==>
            polled.Loaded? && ReplySize(total) <= |replies| && DeviceDigest(total, replies) != digest)
      && (x.result.DigestMismatch? ==> x.taken == ReplySize(total))
      && (x.result.Blocked? ==> |replies| < ReplySize(total))
  {
    PolledIsExact(polls, 0, 0, 5 * (total - 1));
  }

  /** If loading succeeds, then the device confirmed the digest of this binary. */
  predicate SuccessIsConfirmed(bin: bytes, hash: bytes -> bytes, polls: nat -> Poll, replies: bytes) {
    Load(bin, hash, polls, replies).result.Loaded? ==>
      Total(bin) > 0 && ReplySize(Total(bin)) <= |replies| && DeviceDigest(Total(bin), replies) == hash(bin)
  }

  /** Success can be trusted, whatever the device answers, exactly for the binaries that are
      not empty and whose length fits 32 bits. */
  lemma CheckIsExact(bin: bytes)
    ensures (forall hash, polls, replies :: SuccessIsConfirmed(bin, hash, polls, replies)) <==> 0 < |bin| < U32
  {
    if 0 < |bin| < U32 {
      forall hash, polls, replies ensures SuccessIsConfirmed(bin, hash, polls, replies) {
        if Load(bin, hash, polls, replies).result.Loaded? {
          LoadedMeansConfirmed(bin, hash, polls, replies);
        }
      }
    } else if Total(bin) == 0 {
      NothingIsCompared(bin, b => [], _ => PollFails, Zeros(5));
      assert !SuccessIsConfirmed(bin, b => [], _ => PollFails, Zeros(5));
    } else {
      APrefixIsCompared(bin);
    }
  }

  /** When the announced length is zero, as for an empty binary, loading succeeds without a digest. */
  lemma NothingIsCompared(bin: bytes, hash: bytes -> bytes, polls: nat -> Poll, replies: bytes)
    requires Total(bin) == 0 && 5 <= |replies| && replies[2] == 0
    ensures Load(bin, hash, polls, replies) == Exchange(Loaded, Request(0) + Frames(bin), 5)
  {
    TotalBounds(bin);
  }

  /** A longer binary is loaded and compared only in part. */
  lemma APrefixIsCompared(bin: bytes)
    requires |bin| >= U32 && Total(bin) > 0
    ensures exists hash, polls, replies :: !SuccessIsConfirmed(bin, hash, polls, replies)
  {
    var goal, total := Sent(bin), Total(bin);
    ShorterThanBinary(bin);
    var hash := (b: bytes) => if b == goal then Zeros(32) else [];
    var polls := (n: nat) => Waiting(5 * total);
    var replies := Zeros(ReplySize(total));
    assert Polled(polls, 0, 0, 5 * (total - 1)).Loaded? by {
      assert Polled(polls, 1, 5 * total, 5 * (total - 1)).Loaded?;
    }
    DigestOfZeros(total);
    assert Finish(total, hash(goal), polls, replies).result.Loaded?;
    assert Load(bin, hash, polls, replies).result.Loaded?;
    assert !SuccessIsConfirmed(bin, hash, polls, replies);
  }

  lemma DigestOfZeros(total: nat)
    requires total > 0
    ensures DeviceDigest(total, Zeros(ReplySize(total))) == Zeros(32)
  {
    var n := 5 + 5 * (total - 1);
    assert Zeros(ReplySize(total))[n..][3..35] == Zeros(ReplySize(total))[n + 3..n + 35] == Zeros(32);
  }

  lemma ShorterThanBinary(bin: bytes)
    requires |bin| >= U32 && Total(bin) > 0
    ensures Sent(bin) != bin
  {
    TotalBounds(bin);
    var n := |bin| % U32;
    assert |bin| == U32 * (|bin| / U32) + n && |bin| / U32 >= 1;
    assert |Sent(bin)| <= n + 126 < |bin|;
  }

  // ----- The device -----

  /** What a device puts together from frames: payloads up to the announced length. */
  function Reassemble(frames: bytes, len: nat): bytes
    decreases |frames|
  {
    if |frames| < 129 then [] else
    var payload := frames[2..129];
    if len <= 127 then payload[..len] else payload + Reassemble(frames[129..], len - 127)
  }

  /** The frames carry exactly the binary. */
  lemma {:induction false} FramesReassemble(bin: bytes)
    ensures Reassemble(Frames(bin), |bin|) == bin
    decreases |bin|
  {
    if bin != [] {
      var n := Min(127, |bin|);
      var frame, rest := Frame(bin[..n]), Frames(bin[n..]);
      assert (frame + rest)[2..129] == bin[..n] + Zeros(127 - n);
      assert (frame + rest)[129..] == rest;
      if |bin| <= 127 {
        assert bin[..n] == bin && (bin + Zeros(127 - n))[..n] == bin;
      } else {
        FramesReassemble(bin[n..]);
        assert bin[..n] + Zeros(0) == bin[..n];
      }
    }
  }

  /** A frame by position: header 0x13, command 0x05, the chunk, zeros. */
  lemma FrameByPosition(chunk: bytes, i: nat)
    requires |chunk| <= 127 && i < 129
    ensures Frame(chunk)[i] ==
              if i == 0 then 0x13 else if i == 1 then 0x05 else if i - 2 < |chunk| then chunk[i - 2] else 0
  {
  }

  /** The request by position: header 0x13, command 0x03, the length with its lowest byte first,
      no secret of the user, zeros. */
  lemma RequestByPosition(len: nat, i: nat)
    requires len < U32 && i < 129
    ensures Request(len)[i] ==
              if i == 0 then 0x13 else if i == 1 then 0x03
              else if i == 2 then len % 256 else if i == 3 then len / 256 % 256
              else if i == 4 then len / 65536 % 256 else if i == 5 then len / 16777216 % 256
              else 0
  {
  }

  lemma {:induction false} FramesLength(bin: bytes)
    ensures |Frames(bin)| == 129 * DivCeil(|bin|, 127)
    decreases |bin|
  {
    if |bin| > 127 {
      FramesLength(bin[127..]);
      assert DivCeil(|bin|, 127) == 1 + DivCeil(|bin| - 127, 127);
    } else if bin != [] {
      assert bin[|bin|..] == [] && DivCeil(|bin|, 127) == 1;
    }
  }

  /** All frames by position: the payload of frame `j` is 127 bytes of the binary, and beyond the
      binary there is nothing but zeros. */
  lemma {:induction false} FramesByPosition(bin: bytes, j: nat, i: nat)
    requires 127 * j < |bin| && i < 127
    ensures 129 * j + 2 + i < |Frames(bin)| == 129 * DivCeil(|bin|, 127)
    ensures Frames(bin)[129 * j] == 0x13 && Frames(bin)[129 * j + 1] == 0x05
    ensures Frames(bin)[129 * j + 2 + i] == if 127 * j + i < |bin| then bin[127 * j + i] else 0
    decreases |bin|
  {
    FramesLength(bin);
    var n := Min(127, |bin|);
    var frame, rest := Frame(bin[..n]), Frames(bin[n..]);
    if j > 0 {
      FramesByPosition(bin[n..], j - 1, i);
      InRest(frame, rest, 129 * (j - 1));
      InRest(frame, rest, 129 * (j - 1) + 1);
      InRest(frame, rest, 129 * (j - 1) + 2 + i);
    }
  }

  lemma InRest(frame: bytes, rest: bytes, k: nat)
    requires |frame| == 129 && k < |rest|
    ensures (frame + rest)[129 + k] == rest[k]
  {
  }

  /** A reply to a frame that is not the last. */
  function Ack(header: byte): bytes {
    [header, 0x06, 0, 0, 0]
  }

  /** The reply to the last frame carries the digest of what was received. */
  function Final(header: byte, digest: bytes): bytes {
    [header, 0x06, 0] + digest + Zeros(94)
  }

  /** Replies of a device that has `data` and waits for `len` bytes in all. */
  function DeviceData(hash: bytes -> bytes, len: nat, data: bytes, sent: bytes): bytes
    decreases |sent|
  {
    if |sent| < 129 then []
    else
      var more := data + sent[2..129];
      if len <= |more| then Final(sent[0], hash(more[..len]))
      else Ack(sent[0]) + DeviceData(hash, len, more, sent[129..])
  }

  function Device(hash: bytes -> bytes, sent: bytes): bytes {
    if |sent| < 129 then []
    else Ack(sent[0]) + DeviceData(hash, LeValue(sent[2..6]), [], sent[129..])
  }

  lemma DropAck(ack: bytes, tail: bytes, n: nat)
    requires |ack| == 5 && n <= |tail|
    ensures (ack + tail)[5 + n..] == tail[n..]
  {
  }

  lemma {:induction false} DeviceConfirms(hash: bytes -> bytes, bin: bytes, done: nat)
    requires done < |bin| && done % 127 == 0
    requires |hash(bin)| == 32
    ensures
      var replies := DeviceData(hash, |bin|, bin[..done], Frames(bin[done..]));
      var acks := 5 * (DivCeil(|bin| - done, 127) - 1);
      |replies| == acks + 129 && replies[acks..][3..35] == hash(bin)
    decreases |bin| - done
  {
    var rest := bin[done..];
    var n := Min(127, |rest|);
    var frame, later := Frame(rest[..n]), Frames(rest[n..]);
    assert (frame + later)[2..129] == rest[..n] + Zeros(127 - n);
    assert (frame + later)[129..] == later;
    var more := bin[..done] + (rest[..n] + Zeros(127 - n));
    if |rest| <= 127 {
      assert more[..|bin|] == bin;
      assert DivCeil(|rest|, 127) == 1;
      assert Final(frame[0], hash(bin))[0..][3..35] == hash(bin);
    } else {
      assert more == bin[..done + 127] && rest[n..] == bin[done + 127..];
      DeviceConfirms(hash, bin, done + 127);
      assert DivCeil(|rest|, 127) == 1 + DivCeil(|rest| - 127, 127);
      DropAck(Ack(frame[0]), DeviceData(hash, |bin|, bin[..done + 127], Frames(bin[done + 127..])),
              5 * (DivCeil(|rest| - 127, 127) - 1));
    }
  }

  /** Against such a device, whose replies are followed by the client's first bytes, the
      load succeeds if the polls see the replies in time, and leaves exactly the client's bytes. */
  lemma HonestLoad(bin: bytes, hash: bytes -> bytes, polls: nat -> Poll, client: bytes)
    requires 0 < |bin| < U32 && |hash(bin)| == 32
    requires SeenInTime(polls, 5 * (Total(bin) - 1))
    ensures
      var replies := Device(hash, Request(|bin|) + Frames(bin)) + client;
      var x := Load(bin, hash, polls, replies);
      x.result.Loaded? && x.taken <= |replies| && replies[x.taken..] == client
  {
    SentIsBinary(bin);
    HonestReplies(bin, hash);
    PolledIsExact(polls, 0, 0, 5 * (Total(bin) - 1));
    DigestInReplies(Total(bin), Device(hash, Request(|bin|) + Frames(bin)), client);
  }

  /** What an honest device sends, up to the digest. */
  lemma HonestReplies(bin: bytes, hash: bytes -> bytes)
    requires 0 < |bin| < U32 && |hash(bin)| == 32 && Total(bin) == DivCeil(|bin|, 127) > 0
    ensures
      var replies := Device(hash, Request(|bin|) + Frames(bin));
      && |replies| == ReplySize(Total(bin)) && replies[2] == 0
      && DeviceDigest(Total(bin), replies) == hash(bin)
  {
    RequestIsRead(hash, |bin|, Frames(bin));
    assert bin[..0] == [] && bin[0..] == bin;
    DeviceConfirms(hash, bin, 0);
    DropAck(Ack(HEADER), DeviceData(hash, |bin|, [], Frames(bin)), 5 * (Total(bin) - 1));
  }

  lemma RequestIsRead(hash: bytes -> bytes, len: nat, frames: bytes)
    requires len < U32
    ensures Device(hash, Request(len) + frames) == Ack(HEADER) + DeviceData(hash, len, [], frames)
  {
    var sent := Request(len) + frames;
    assert sent[129..] == frames;
    assert sent[2..6] == LeBytes(len);
    LeRoundTrip(len);
  }

  lemma DigestInReplies(total: nat, replies: bytes, client: bytes)
    requires total > 0 && |replies| == ReplySize(total)
    ensures DeviceDigest(total, replies + client) == DeviceDigest(total, replies)
    ensures (replies + client)[ReplySize(total)..] == client
  {
    var acks := 5 * (total - 1);
    assert (replies + client)[5 + acks..] == replies[5 + acks..] + client;
  }

  // ----- The program -----

  /** `Blake2s256`, fed piece by piece. */
  class Hasher {
    const hash: bytes -> bytes
    var data: bytes

    constructor (hash: bytes -> bytes)
      ensures this.hash == hash && data == []
    {
      this.hash, data := hash, [];
    }

    method Update(more: bytes)
      modifies this
      ensures data == old(data) + more
    {
      data := data + more;
    }

    method Finalize() returns (digest: bytes)
      ensures digest == hash(data)
    {
      digest := hash(data);
    }
  }

  /** Polls until enough replies wait, at most 70 times. */
  method WaitForReplies(expected: nat, polls: nat -> Poll) returns (r: LoadResult)
    ensures r.Loaded? <==> SeenInTime(polls, expected)
    ensures r.GaveUp? <==> NeverSeen(polls, expected)
    ensures r.Loaded? || r.GaveUp? || r.IoctlFailed?
    ensures r == Polled(polls, 0, 0, expected)
  {
    PolledIsExact(polls, 0, 0, expected);
    var num: int := 0;
    var passes := 0;
    while num < expected
      invariant 0 <= passes <= 70
      invariant Polled(polls, passes, num, expected) == Polled(polls, 0, 0, expected)
      decreases 71 - passes
    {
      if passes >= 70 {
        return GaveUp;
      }
      match polls(passes) {
        case PollFails => return IoctlFailed;
        case Waiting(n) => num := n;
      }
      passes := passes + 1;
    }
    return Loaded;
  }

  /** One frame, built in a buffer and sent. */
  method SendFrame(tkey: Port, chunk: bytes)
    requires |chunk| <= 127
    modifies tkey`outgoing
    ensures tkey.outgoing == old(tkey.outgoing) + Frame(chunk)
  {
    var frame := new byte[129](_ => 0);
    frame[0] := HEADER;
    frame[1] := 0x05;
    forall i | 0 <= i < |chunk| {
      frame[2 + i] := chunk[i];
    }
    assert frame[..] == Frame(chunk);
    tkey.WriteAll(frame[..]);
  }

  /** Once the last frame is sent: the unread replies, the last reply, the two digests. */
  method FinishLoad(tkey: Port, total: nat, hasher: Hasher, last: bytes, polls: nat -> Poll, ghost replies: bytes)
      returns (r: LoadResult)
    requires total > 0 && |replies| >= 5 && tkey.incoming == replies[5..]
    modifies tkey`incoming, hasher
    ensures
      var ending := Finish(total, hasher.hash(old(hasher.data) + last), polls, replies);
      r == ending.result && ending.taken <= |replies| && tkey.incoming == replies[ending.taken..]
    ensures r != Rejected
  {
    var expected := (total - 1) * 5;
    r := WaitForReplies(expected, polls);
    if !r.Loaded? {
      return;
    }
    var expectedBuf := new byte[expected](_ => 0);
    var ok := tkey.ReadExact(expectedBuf);
    if !ok {
      return Blocked;
    }
    assert tkey.incoming == replies[5 + expected..];
    var resp := new byte[129](_ => 0);
    ok := tkey.ReadExact(resp);
    if !ok {
      return Blocked;
    }
    hasher.Update(last);
    var digest := hasher.Finalize();
    assert resp[3..35] == replies[5 + expected..][3..35];
    return if resp[3..35] == digest then Loaded else DigestMismatch;
  }

  /** Before chunk `i` of the loop over the chunks. */
  predicate At(bin: bytes, i: nat, start: nat) {
    && start == Min(127 * i, |bin|) <= |Sent(bin)|
    && (Total(bin) > 0 ==> i < Total(bin))
  }

  lemma TotalBounds(bin: bytes)
    ensures Total(bin) > 0 ==> 127 * (Total(bin) - 1) < |bin| % U32 <= 127 * Total(bin)
    ensures Total(bin) == 0 ==> |bin| % U32 == 0
  {
    var n := |bin| % U32;
    assert n + 126 == 127 * ((n + 126) / 127) + (n + 126) % 127;
  }

  lemma AtStart(bin: bytes)
    ensures At(bin, 0, 0) && Sent(bin)[0..] == Sent(bin) && bin[..0] == []
  {
    assert Min(0, |bin|) == 0;
  }

  /** Chunk `i`: its place in what is sent; the test for the last chunk, with the wrap-around of
      an unsigned subtraction, fires exactly at the last chunk. */
  lemma NextChunk(bin: bytes, i: nat, start: nat)
    requires At(bin, i, start) && start < |bin| < USIZE
    ensures
      var goal, end, last := Sent(bin), Min(start + 127, |bin|), (Total(bin) + USIZE - 1) % USIZE;
      && start < end <= |goal| && end - start <= 127
      && bin[..start] + bin[start..end] == bin[..end]
      && Frames(goal[start..]) == Frame(bin[start..end]) + Frames(goal[end..])
      && (i == last <==> i + 1 == Total(bin))
      && (i == last ==> bin[..end] == goal && Frames(goal[end..]) == [])
      && (i != last ==> At(bin, i + 1, end))
  {
    var goal, end := Sent(bin), Min(start + 127, |bin|);
    assert end <= |goal| && goal == bin[..|goal|];
    var n := Min(127, |goal| - start);
    assert goal[start..][..n] == bin[start..end] && goal[start..][n..] == goal[end..];
    LastChunk(bin, i);
  }

  lemma LastChunk(bin: bytes, i: nat)
    requires 127 * i < |bin| < USIZE
    ensures i == (Total(bin) + USIZE - 1) % USIZE <==> i + 1 == Total(bin)
  {
    assert Total(bin) <= (U32 + 126) / 127;
    if Total(bin) == 0 {
      assert (Total(bin) + USIZE - 1) % USIZE == USIZE - 1;
    } else {
      assert (Total(bin) + USIZE - 1) % USIZE == Total(bin) - 1;
    }
  }

  lemma AllSent(bin: bytes, i: nat)
    requires At(bin, i, |bin|)
    ensures Total(bin) == 0 && Sent(bin) == bin && Frames(Sent(bin)[|bin|..]) == []
  {
    TotalBounds(bin);
    assert |bin| % U32 <= |bin|;
  }

  /** One frame of the frames that remain. */
  method SendNext(tkey: Port, chunk: bytes, ghost later: bytes)
    requires |chunk| <= 127
    modifies tkey`outgoing
    ensures tkey.outgoing + later == old(tkey.outgoing) + (Frame(chunk) + later)
  {
    Regroup(tkey.outgoing, Frame(chunk), later);
    SendFrame(tkey, chunk);
  }

  /** The loop over the chunks. */
  method SendChunks(tkey: Port, bin: bytes, hasher: Hasher, polls: nat -> Poll, ghost replies: bytes)
      returns (r: LoadResult)
    requires |bin| < USIZE
    requires |replies| >= 5 && tkey.incoming == replies[5..] && hasher.data == []
    modifies tkey, hasher
    ensures tkey.outgoing == old(tkey.outgoing) + Frames(Sent(bin))
    ensures r != Rejected
    ensures Total(bin) == 0 ==> r == Loaded && tkey.incoming == replies[5..]
    ensures Total(bin) > 0 ==>
      var ending := Finish(Total(bin), hasher.hash(Sent(bin)), polls, replies);
      r == ending.result && ending.taken <= |replies| && tkey.incoming == replies[ending.taken..]
  {
    ghost var out, goal := tkey.outgoing, Sent(bin);
    var total := DivCeil(|bin| % U32, 127);
    var i, start := 0, 0;
    var last := (total + USIZE - 1) % USIZE;
    AtStart(bin);
    while start < |bin|
      invariant At(bin, i, start)
      invariant tkey.outgoing + Frames(goal[start..]) == out + Frames(goal)
      invariant tkey.incoming == replies[5..]
      invariant hasher.data == bin[..start]
      decreases |bin| - start
    {
      var end := Min(start + 127, |bin|);
      var chunk := bin[start..end];
      NextChunk(bin, i, start);
      SendNext(tkey, chunk, Frames(goal[end..]));
      if i == last {
        r := FinishLoad(tkey, total, hasher, chunk, polls, replies);
        return;
      }
      hasher.Update(chunk);
      i := i + 1;
      start := end;
    }
    AllSent(bin, i);
    return Loaded;
  }

  /** `load_app`: what it writes, how much it reads and how it ends are those of `Load`. */
  method LoadApp(tkey: Port, bin: bytes, hash: bytes -> bytes, polls: nat -> Poll) returns (r: LoadResult)
    requires |bin| < USIZE
    modifies tkey
    ensures
      var x := Load(bin, hash, polls, old(tkey.incoming));
      && r == x.result
      && tkey.outgoing == old(tkey.outgoing) + x.written
      && x.taken <= |old(tkey.incoming)| && tkey.incoming == old(tkey.incoming)[x.taken..]
    ensures r == Rejected <==> |old(tkey.incoming)| >= 5 && old(tkey.incoming)[2] != 0
    ensures r == Rejected ==>
      && tkey.outgoing == old(tkey.outgoing) + Request(|bin| % U32)
      && tkey.incoming == old(tkey.incoming)[5..]
  {
    ghost var replies, out := tkey.incoming, tkey.outgoing;
    var hasher := new Hasher(hash);
    var binLen := |bin| % U32;
    Regroup(out, Request(binLen), Frames(Sent(bin)));
    SendRequest(tkey, binLen);
    var resp := new byte[5](_ => 0);
    var ok := tkey.ReadExact(resp);
    if !ok {
      return Blocked;
    }
    assert resp[2] == replies[2];
    if resp[2] != 0 {
      return Rejected;
    }
    r := SendChunks(tkey, bin, hasher, polls, replies);
  }

  method SendRequest(tkey: Port, binLen: nat)
    requires binLen < U32
    modifies tkey`outgoing
    ensures tkey.outgoing == old(tkey.outgoing) + Request(binLen)
  {
    ghost var out := tkey.outgoing;
    var tag, domain, lenCode := 0, 2, 3;
    var header := tag * 32 + domain * 8 + lenCode;
    tkey.WriteAll([header]);
    tkey.WriteAll([0x03]);
    tkey.WriteAll(LeBytes(binLen));
    tkey.WriteAll([0]);
    tkey.WriteAll(Zeros(32));
    tkey.WriteAll(Zeros(90));
    assert tkey.outgoing == out + Request(binLen);
  }
}
