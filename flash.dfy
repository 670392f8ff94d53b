/**
 * The on-chip flash as the firmware sees it: a run of 2048-byte pages of
 * 32-bit words, where erasing sets a whole page to all ones and programming
 * writes one word. Write-protected pages refuse both operations, and
 * programming a word that is not erased fails (the STM32 PGERR condition).
 */
module Flash {
  import opened Ints

  const PAGE_BYTES := 2048
  const WORDS_PER_PAGE := 512
  const ERASED: u32 := 0xFFFF_FFFF

  /** Page p of m erased, every other word kept. */
  function ErasePageOf(m: seq<u32>, p: nat): (r: seq<u32>)
    requires (p + 1) * WORDS_PER_PAGE <= |m|
    ensures |r| == |m|
    ensures forall i :: 0 <= i < |m| ==> r[i] == (if i / WORDS_PER_PAGE == p then ERASED else m[i])
  {
    seq(|m|, i requires 0 <= i < |m| => if i / WORDS_PER_PAGE == p then ERASED else m[i])
  }

  predicate PageErased(m: seq<u32>, p: nat)
    requires (p + 1) * WORDS_PER_PAGE <= |m|
  {
    forall i :: p * WORDS_PER_PAGE <= i < (p + 1) * WORDS_PER_PAGE ==> m[i] == ERASED
  }

  class Bank {
    /** Byte address of word 0. */
    const base: u32
    /** Number of pages in the bank. */
    const pages: nat
    /** Write-protected pages: erase and program fail there. */
    const locked: set<nat>
    var mem: array<u32>

    ghost predicate Valid()
      reads this
    {
      mem.Length == pages * WORDS_PER_PAGE
    }

    /** A bank whose words hold the given boot-time image. */
    constructor (base: u32, pages: nat, locked: set<nat>, image: seq<u32>)
      requires |image| == pages * WORDS_PER_PAGE
      ensures Valid() && fresh(mem)
      ensures this.base == base && this.pages == pages && this.locked == locked
      ensures mem[..] == image
    {
      this.base := base;
      this.pages := pages;
      this.locked := locked;
      mem := new u32[|image|](i requires 0 <= i < |image| => image[i]);
    }

    /** FLASH_ErasePage: succeeds on an unprotected page and leaves it all ones. */
    method ErasePage(p: nat) returns (ok: bool)
      requires Valid() && p < pages
      modifies mem
      ensures ok == (p !in locked)
      ensures mem[..] == if ok then ErasePageOf(old(mem[..]), p) else old(mem[..])
      ensures ok ==> PageErased(mem[..], p)
    {
      ok := p !in locked;
      if ok {
        forall i | p * WORDS_PER_PAGE <= i < (p + 1) * WORDS_PER_PAGE {
          mem[i] := ERASED;
        }
        assert mem[..] == ErasePageOf(old(mem[..]), p);
      }
    }

    /** FLASH_ProgramWord on word index i: succeeds only on an erased word of an unprotected page. */
    method ProgramWord(i: nat, w: u32) returns (ok: bool)
      requires Valid() && i < mem.Length
      modifies mem
      ensures ok == (i / WORDS_PER_PAGE !in locked && old(mem[i]) == ERASED)
      ensures mem[..] == if ok then old(mem[..])[i := w] else old(mem[..])
    {
      ok := i / WORDS_PER_PAGE !in locked && mem[i] == ERASED;
      if ok {
        mem[i] := w;
      }
    }
  }
}
