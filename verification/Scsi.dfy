/** The SCSI subclass's reading of command blocks. */
module Scsi {
  import opened Bytes

  const READ_10: byte := 0x28
  const READ_16: byte := 0x88
  const WRITE_10: byte := 0x2A
  const WRITE_16: byte := 0x8A

  /** The commands that move blocks; all others keep their operation code only. */
  datatype ScsiCommand = Read(lba: nat, len: nat) | Write(lba: nat, len: nat) | Misc(op: byte)

  function FromBe(s: seq<byte>): (n: nat) {
    if s == [] then 0 else FromBe(s[..|s| - 1]) * 256 + s[|s| - 1] as nat
  }

  function ToBe(n: nat, width: nat): (s: seq<byte>)
    ensures |s| == width
  {
    if width == 0 then [] else ToBe(n / 256, width - 1) + [n % 256]
  }

  /** `n` has a big-endian form of `width` bytes. */
  predicate Fits(n: nat, width: nat) {
    if width == 0 then n == 0 else Fits(n / 256, width - 1)
  }

  lemma {:induction false} BeRoundTrip(n: nat, width: nat)
    requires Fits(n, width)
    ensures FromBe(ToBe(n, width)) == n
    decreases width
  {
    if width > 0 {
      var s := ToBe(n, width);
      assert s[..|s| - 1] == ToBe(n / 256, width - 1);
      BeRoundTrip(n / 256, width - 1);
    }
  }

  /** `parse_cb`; `extended` is the crate feature `extended_addressing`. A block too short for its operation
      code is not misread: it becomes `Misc`. */
  function ParseCb(cb: seq<byte>, extended: bool): (c: ScsiCommand)
    requires cb != []
  {
    if cb[0] == READ_10 && |cb| >= 9 then Read(FromBe(cb[2..6]), FromBe(cb[7..9]))
    else if extended && cb[0] == READ_16 && |cb| >= 14 then Read(FromBe(cb[2..10]), FromBe(cb[10..14]))
    else if cb[0] == WRITE_10 && |cb| >= 9 then Write(FromBe(cb[2..6]), FromBe(cb[7..9]))
    else if extended && cb[0] == WRITE_16 && |cb| >= 14 then Write(FromBe(cb[2..10]), FromBe(cb[10..14]))
    else Misc(cb[0])
  }

  /** A host's READ(10) or WRITE(10) is understood, whatever its reserved bytes and however long its block. */
  lemma TenByteForms(cb: seq<byte>, lba: nat, len: nat, extended: bool)
    requires |cb| >= 9 && Fits(lba, 4) && Fits(len, 2)
    requires cb[2..6] == ToBe(lba, 4) && cb[7..9] == ToBe(len, 2)
    ensures cb[0] == READ_10 ==> ParseCb(cb, extended) == Read(lba, len)
    ensures cb[0] == WRITE_10 ==> ParseCb(cb, extended) == Write(lba, len)
  {
    BeRoundTrip(lba, 4);
    BeRoundTrip(len, 2);
  }

  lemma SixteenByteForms(cb: seq<byte>, lba: nat, len: nat)
    requires |cb| >= 14 && Fits(lba, 8) && Fits(len, 4)
    requires cb[2..10] == ToBe(lba, 8) && cb[10..14] == ToBe(len, 4)
    ensures cb[0] == READ_16 ==> ParseCb(cb, true) == Read(lba, len) && ParseCb(cb, false) == Misc(READ_16)
    ensures cb[0] == WRITE_16 ==> ParseCb(cb, true) == Write(lba, len) && ParseCb(cb, false) == Misc(WRITE_16)
  {
    BeRoundTrip(lba, 8);
    BeRoundTrip(len, 4);
  }
}
