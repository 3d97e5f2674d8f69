/** Logical block addresses as cylinder, head and sector, for UFI devices. */
module Chs {
  import opened Arithmetic
  import opened Bytes

  function LbaToSector(lba: u32, secTrk: byte): (n: int)
    requires secTrk > 0
  {
    lba % secTrk + 1
  }

  function LbaToHead(lba: u32, secTrk: byte, headTrk: byte): (n: int)
    requires secTrk > 0 && headTrk > 0
  {
    lba / secTrk % headTrk
  }

  function LbaToTrack(lba: u32, secTrk: byte, headTrk: byte): (n: int)
    requires secTrk > 0 && headTrk > 0
  {
    lba / secTrk / headTrk
  }

  /** A place on the disk: heads count from 0, sectors from 1. */
  predicate Addresses(lba: u32, secTrk: byte, headTrk: byte, track: nat, head: nat, sector: nat) {
    && head < headTrk
    && 1 <= sector <= secTrk
    && lba == secTrk as nat * (headTrk as nat * track + head) + sector - 1
  }

  /** The three functions give the one place that a block address names, and no other place has that address. */
  lemma ChsIsABijection(lba: u32, secTrk: byte, headTrk: byte, track: nat, head: nat, sector: nat)
    requires secTrk > 0 && headTrk > 0
    ensures Addresses(lba, secTrk, headTrk, track, head, sector) <==>
            && track == LbaToTrack(lba, secTrk, headTrk)
            && head == LbaToHead(lba, secTrk, headTrk)
            && sector == LbaToSector(lba, secTrk)
  {
    if Addresses(lba, secTrk, headTrk, track, head, sector) {
      DivModUnique(lba, headTrk as nat * track + head, sector - 1, secTrk);
      DivModUnique(headTrk as nat * track + head, track, head, headTrk);
    }
  }
}
