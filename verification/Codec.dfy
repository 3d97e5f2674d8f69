/** The two wrappers of the Bulk-Only Transport: the 31-byte CBW the host sends and the 13-byte CSW
    the device answers with (sections 5.1 and 5.2 of the USB Mass Storage Class Bulk-Only Transport
    specification, rev. 1.0). */
module Codec {
  import opened Bytes

  const CBW_LEN: nat := 31
  const CSW_LEN: nat := 13
  const CBW_SIGNATURE: seq<byte> := [0x55, 0x53, 0x42, 0x43]
  const CSW_SIGNATURE: seq<byte> := [0x55, 0x53, 0x42, 0x53]

  datatype Direction = Out | In | NotExpected

  datatype Cbw = Cbw(tag: u32, len: u32, dir: Direction, lun: byte, blockLen: nat, block: seq<byte>)

  /** What every accepted wrapper satisfies. */
  predicate ValidCbw(c: Cbw) {
    && 1 <= c.blockLen <= 16
    && |c.block| == 16
    && c.lun < 16
    && (c.dir == NotExpected <==> c.len == 0)
  }

  const DEFAULT_CBW: Cbw := Cbw(0, 0, NotExpected, 0, 0, [0, 0, 0, 0, 0, 0, 0, 0, 0, 0, 0, 0, 0, 0, 0, 0])

  /** `try_parse_cbw` together with `from_le_bytes`, on the 31 bytes taken from the buffer. */
  function ParseCbw(raw: seq<byte>): (r: Option<Cbw>)
    requires |raw| == CBW_LEN
    ensures r.Some? <==> raw[..4] == CBW_SIGNATURE && 1 <= raw[14] <= 16
    ensures r.Some? ==> ValidCbw(r.value)
  {
    if raw[..4] != CBW_SIGNATURE || !(1 <= raw[14] <= 16) then
      None
    else
      var len := FromLe32(raw[8..12]);
      Some(Cbw(
             FromLe32(raw[4..8]),
             len,
             if len == 0 then NotExpected else if raw[12] >= 0x80 then In else Out,
             raw[13] % 16,
             raw[14],
             raw[15..]))
  }

  /** The wrapper as a host lays it out. */
  function EncodeCbw(c: Cbw): (raw: seq<byte>)
    requires ValidCbw(c)
    ensures |raw| == CBW_LEN
  {
    CBW_SIGNATURE + Le32(c.tag) + Le32(c.len) +
    [if c.dir == In then 0x80 else 0, c.lun, c.blockLen] + c.block
  }

  lemma CbwRoundTrip(c: Cbw)
    requires ValidCbw(c)
    ensures ParseCbw(EncodeCbw(c)) == Some(c)
  {
    var raw := EncodeCbw(c);
    assert raw[..4] == CBW_SIGNATURE;
    assert raw[4..8] == Le32(c.tag);
    assert raw[8..12] == Le32(c.len);
    assert raw[15..] == c.block;
    Le32RoundTrip(c.tag);
    Le32RoundTrip(c.len);
  }

  /** Parsing loses nothing but reserved bits: re-encoding differs from the received bytes only in
      bits 0-6 of bmCBWFlags (all of it when no data is expected) and bits 4-7 of bCBWLUN, and there it
      leaves zeros. */
  lemma ParseLosesOnlyReservedBits(raw: seq<byte>)
    requires |raw| == CBW_LEN
    requires ParseCbw(raw).Some?
    ensures var again := EncodeCbw(ParseCbw(raw).value);
            && (forall i :: 0 <= i < CBW_LEN && i != 12 && i != 13 ==> again[i] == raw[i])
            && again[12] == (if ParseCbw(raw).value.len == 0 then 0 else raw[12] / 0x80 * 0x80)
            && again[13] == raw[13] % 16
  {
    var c := ParseCbw(raw).value;
    var again := EncodeCbw(c);
    FromLe32RoundTrip(raw[4..8]);
    FromLe32RoundTrip(raw[8..12]);
    assert again[..4] == raw[..4];
    assert again[4..8] == raw[4..8];
    assert again[8..12] == raw[8..12];
    assert again[15..] == raw[15..];
    forall i | 0 <= i < CBW_LEN && i != 12 && i != 13 ensures again[i] == raw[i] {
      if i < 4 {
        assert again[..4][i] == raw[..4][i];
      } else if i < 8 {
        assert again[4..8][i - 4] == raw[4..8][i - 4];
      } else if i < 12 {
        assert again[8..12][i - 8] == raw[8..12][i - 8];
      } else if i > 14 {
        assert again[15..][i - 15] == raw[15..][i - 15];
      }
    }
  }

  datatype CommandStatus = Passed | Failed | PhaseError

  function StatusCode(s: CommandStatus): (b: byte) {
    match s
    case Passed => 0
    case Failed => 1
    case PhaseError => 2
  }

  datatype Csw = Csw(tag: u32, residue: u32, status: CommandStatus)

  function EncodeCsw(c: Csw): (raw: seq<byte>)
    ensures |raw| == CSW_LEN
  {
    CSW_SIGNATURE + Le32(c.tag) + Le32(c.residue) + [StatusCode(c.status)]
  }

  /** The host's reading of thirteen status bytes. */
  function DecodeCsw(raw: seq<byte>): (r: Option<Csw>)
    requires |raw| == CSW_LEN
  {
    if raw[..4] != CSW_SIGNATURE || raw[12] > 2 then
      None
    else
      Some(Csw(FromLe32(raw[4..8]), FromLe32(raw[8..12]),
               if raw[12] == 0 then Passed else if raw[12] == 1 then Failed else PhaseError))
  }

  lemma CswRoundTrip(c: Csw)
    ensures DecodeCsw(EncodeCsw(c)) == Some(c)
  {
    var raw := EncodeCsw(c);
    assert raw[..4] == CSW_SIGNATURE;
    assert raw[4..8] == Le32(c.tag);
    assert raw[8..12] == Le32(c.residue);
    Le32RoundTrip(c.tag);
    Le32RoundTrip(c.residue);
  }
}
