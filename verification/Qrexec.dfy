/** What the Qubes virtual machine and the program in dom0 say to each other after the
    challenge, and the slot argument. */
module Qrexec {
  import opened Bytes

  datatype SlotArg = NoSlot | Slot(n: byte) | BadSlot

  /** The value of a string of decimal digits read as a `u8`, if it is one. */
  function ParseDigits(s: string, acc: nat): (r: int)
    decreases |s|
  {
    if s == [] then acc
    else if !('0' <= s[0] <= '9') then -1
    else
      var next := 10 * acc + (s[0] as int - '0' as int);
      if next > 255 then -1 else ParseDigits(s[1..], next)
  }

  /** Without a leading plus sign. */
  function Unsigned(s: string): string {
    if |s| > 0 && s[0] == '+' then s[1..] else s
  }

  function ParseU8(s: string): int {
    if Unsigned(s) == [] then -1 else ParseDigits(Unsigned(s), 0)
  }

  /** The slot to kill, from the arguments. */
  function ParseSlot(argv: seq<string>): SlotArg {
    if |argv| == 3 && argv[1] == "--kill-slot" then
      var num := ParseU8(argv[2]);
      if num < 0 || num >= 32 then BadSlot else Slot(num)
    else NoSlot
  }

  // ----- What the parser accepts -----

  predicate AllDigits(s: string) {
    forall i | 0 <= i < |s| :: '0' <= s[i] <= '9'
  }

  function DecimalValue(s: string): nat
    requires AllDigits(s)
  {
    if s == [] then 0 else 10 * DecimalValue(s[..|s| - 1]) + (s[|s| - 1] as int - '0' as int)
  }

  /** A number written in decimal, with or without a plus sign and leading zeros. */
  predicate IsNumber(s: string) {
    Unsigned(s) != [] && AllDigits(Unsigned(s))
  }

  lemma {:induction false} ValueGrows(s: string, more: string)
    requires AllDigits(s + more)
    ensures AllDigits(s) && DecimalValue(s) <= DecimalValue(s + more)
  {
    assert forall i | 0 <= i < |s| :: s[i] == (s + more)[i];
    if more == [] {
      assert s + more == s;
    } else {
      var init := more[..|more| - 1];
      assert (s + more)[..|s + more| - 1] == s + init;
      ValueGrows(s, init);
    }
  }

  lemma {:induction false} ParseDigitsIsExact(done: string, s: string)
    requires AllDigits(done) && DecimalValue(done) <= 255
    ensures ParseDigits(s, DecimalValue(done)) ==
              if AllDigits(s) && DecimalValue(done + s) <= 255 then DecimalValue(done + s) else -1
    decreases |s|
  {
    if s == [] {
      assert done + s == done;
    } else if '0' <= s[0] <= '9' {
      var longer := done + s[..1];
      assert longer[..|longer| - 1] == done;
      assert longer + s[1..] == done + s;
      assert AllDigits(s) <==> AllDigits(s[1..]) by {
        assert AllDigits(s[1..]) ==> forall i | 0 < i < |s| :: s[i] == s[1..][i - 1];
      }
      if DecimalValue(longer) <= 255 {
        ParseDigitsIsExact(longer, s[1..]);
      } else if AllDigits(s) {
        ValueGrows(longer, s[1..]);
      }
    }
  }

  /** The argument is taken for a number exactly if it is one below 256, and for that one. */
  lemma ParseU8IsExact(s: string)
    ensures ParseU8(s) ==
              if IsNumber(s) && DecimalValue(Unsigned(s)) <= 255 then DecimalValue(Unsigned(s)) else -1
  {
    ParseDigitsIsExact("", Unsigned(s));
    assert "" + Unsigned(s) == Unsigned(s);
  }

  /** As `to_string`. */
  function Decimal(n: nat): (s: string)
    ensures s != [] && AllDigits(s)
  {
    var last := [('0' as int + n % 10) as char];
    if n < 10 then last else Decimal(n / 10) + last
  }

  lemma {:induction false} DecimalHasValue(n: nat)
    ensures DecimalValue(Decimal(n)) == n
  {
    var s := Decimal(n);
    if n < 10 {
      assert s[..|s| - 1] == [];
    } else {
      DecimalHasValue(n / 10);
      assert s[..|s| - 1] == Decimal(n / 10);
    }
  }

  /** The slot that is printed for cryptsetup in dom0 is the slot that was asked for. */
  lemma SlotSurvives(s: string)
    ensures ParseU8(s) >= 0 ==> ParseU8(Decimal(ParseU8(s))) == ParseU8(s)
  {
    ParseU8IsExact(s);
    if ParseU8(s) >= 0 {
      var n := ParseU8(s);
      DecimalHasValue(n);
      assert Unsigned(Decimal(n)) == Decimal(n);
      ParseU8IsExact(Decimal(n));
    }
  }

  /** A slot is to be killed exactly if the arguments are the flag and a number below 32. */
  lemma ParseSlotIsExact(argv: seq<string>)
    ensures
      var flagged := |argv| == 3 && argv[1] == "--kill-slot";
      && (ParseSlot(argv).NoSlot? <==> !flagged)
      && (ParseSlot(argv).Slot? <==> flagged && IsNumber(argv[2]) && DecimalValue(Unsigned(argv[2])) < 32)
      && (ParseSlot(argv).Slot? ==> ParseSlot(argv).n == DecimalValue(Unsigned(argv[2])))
  {
    if |argv| == 3 {
      ParseU8IsExact(argv[2]);
    }
  }

  // ----- The passphrase and keyfile on their way to dom0 -----

  /** Length byte (truncated, as the cast does), passphrase, keyfile. */
  function Encode(current: bytes, keyfile: bytes): bytes {
    [|current| % 256] + current + keyfile
  }

  /** What dom0 takes for the current passphrase: as many bytes as the truncated length says. */
  function Taken(current: bytes): bytes {
    current[..|current| % 256]
  }

  function TakenTail(current: bytes, keyfile: bytes): bytes {
    current[|current| % 256..] + keyfile
  }

  /** The keyfile bytes that dom0 reads after it. */
  function TakenKey(current: bytes, keyfile: bytes): (r: bytes)
    requires |keyfile| == 32
    ensures |r| == 32
  {
    TakenTail(current, keyfile)[..32]
  }

  /** What is then still in the stream. */
  function LeftOver(current: bytes, keyfile: bytes): bytes
    requires |keyfile| == 32
  {
    TakenTail(current, keyfile)[32..]
  }

  /** A passphrase that the length byte can carry is taken as it is; of a longer one a part is
      taken for the passphrase, and the rest of it for the keyfile and what comes after. */
  lemma Truncation(current: bytes, keyfile: bytes)
    requires |keyfile| == 32
    ensures Encode(current, keyfile)
         == [|current| % 256] + (Taken(current) + (TakenKey(current, keyfile) + LeftOver(current, keyfile)))
    ensures |current| <= 255 ==>
      Taken(current) == current && TakenKey(current, keyfile) == keyfile && LeftOver(current, keyfile) == []
    ensures |current| > 255 ==>
      var n := |current| % 256;
      && n + 256 <= |current| && |LeftOver(current, keyfile)| == |current| - n
      && TakenKey(current, keyfile) == current[n..n + 32]
      && LeftOver(current, keyfile)[0] == current[n + 32]
  {
    var n := |current| % 256;
    var tail := TakenTail(current, keyfile);
    assert current == current[..n] + current[n..];
    assert tail == tail[..32] + tail[32..];
    if |current| > 255 {
      assert n + 256 <= |current|;
    }
  }
}
