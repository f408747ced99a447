/**
  How ashmem_pin_unpin turns the 32-bit offset and length of a request into a page
  interval.  Sizes are 64-bit, offsets and lengths are 32-bit, pages are 4096 bytes.
 */
module AshmemRequest {
  import opened AshmemRanges

  const PAGE_SIZE: int := 4096
  const U32: int := 0x1_0000_0000

  datatype Decoded = Rejected | Accepted(pgstart: nat, pgend: nat)

  /** PAGE_ALIGN in size_t arithmetic: sizes within a page of 2^64 come out as 0. */
  function PageAlign(size: nat): (r: nat)
    ensures r % PAGE_SIZE == 0 && r < WORD
    ensures size <= WORD - PAGE_SIZE ==> size <= r < size + PAGE_SIZE
    ensures WORD - PAGE_SIZE < size < WORD ==> r == 0
  {
    (size + PAGE_SIZE - 1) % WORD / PAGE_SIZE * PAGE_SIZE
  }

  /** The length after "zero means everything onward" was substituted, cut to 32 bits. */
  function EffectiveLength(size: nat, offset: nat, len: nat): nat {
    if len == 0 then (PageAlign(size) - offset) % U32 else len
  }

  function Decode(size: nat, offset: nat, len: nat): Decoded {
    var length := EffectiveLength(size, offset, len);
    if offset % PAGE_SIZE != 0 || length % PAGE_SIZE != 0 then Rejected
    else if U32 - 1 - offset < length then Rejected
    else if PageAlign(size) < offset + length then Rejected
    else Accepted(offset / PAGE_SIZE, (offset / PAGE_SIZE + length / PAGE_SIZE - 1) % WORD)
  }

  /** A request of nonzero effective length names exactly the pages of its bytes, all inside the area. */
  lemma AcceptedNamesItsBytes(size: nat, offset: nat, len: nat)
    requires size < WORD && offset < U32 && len < U32 && EffectiveLength(size, offset, len) > 0
    ensures var length := EffectiveLength(size, offset, len);
            Decode(size, offset, len).Accepted? <==>
            offset % PAGE_SIZE == 0 && length % PAGE_SIZE == 0 && offset + length < U32
            && offset + length <= PageAlign(size)
    ensures var d := Decode(size, offset, len);
            d.Accepted? ==>
              && d.pgstart <= d.pgend < PageAlign(size) / PAGE_SIZE
              && d.pgstart * PAGE_SIZE == offset
              && (d.pgend + 1) * PAGE_SIZE == offset + EffectiveLength(size, offset, len)
  {
  }

  /** Only an effective length of zero yields anything but a nonempty interval. */
  lemma ZeroLengthInterval(size: nat, offset: nat, len: nat)
    requires size < WORD && offset < U32 && len < U32 && EffectiveLength(size, offset, len) == 0
    requires Decode(size, offset, len).Accepted?
    ensures len == 0 && PageAlign(size) % U32 == offset
    ensures var d := Decode(size, offset, len);
            && d.pgstart == offset / PAGE_SIZE
            && (offset > 0 ==> d.pgend + 1 == d.pgstart)
            && (offset == 0 ==> d.pgend == WORD - 1)
  {
  }

  /**
    An accepted interval lies within the area's pages unless it is the zero-length request at
    offset 0 on an area whose aligned size is a multiple of 4 GiB; that one ends at page 2^64 - 1.
   */
  lemma AcceptedInBoundsIff(size: nat, offset: nat, len: nat)
    requires size < WORD && offset < U32 && len < U32 && Decode(size, offset, len).Accepted?
    ensures var d := Decode(size, offset, len);
            && d.pgstart <= d.pgend + 1 && d.pgend < WORD
            && (d.pgend < PageAlign(size) / PAGE_SIZE <==> !(offset == 0 && len == 0 && PageAlign(size) % U32 == 0))
  {
    if EffectiveLength(size, offset, len) > 0 {
      AcceptedNamesItsBytes(size, offset, len);
      assert PageAlign(size) % U32 == 0 && offset == 0 ==> len != 0;
    } else {
      ZeroLengthInterval(size, offset, len);
      assert offset <= PageAlign(size);
    }
  }

  /** Length zero means "everything onward" exactly for areas below 4 GiB. */
  lemma EverythingOnwardIff(size: nat, offset: nat)
    requires size < WORD && offset < U32 && offset % PAGE_SIZE == 0 && offset < PageAlign(size)
    ensures Decode(size, offset, 0) == Accepted(offset / PAGE_SIZE, PageAlign(size) / PAGE_SIZE - 1) <==>
            PageAlign(size) < U32
  {
    var length := EffectiveLength(size, offset, 0);
    if PageAlign(size) < U32 {
      assert length == PageAlign(size) - offset;
      AcceptedNamesItsBytes(size, offset, 0);
    } else if Decode(size, offset, 0).Accepted? {
      if length > 0 {
        AcceptedNamesItsBytes(size, offset, 0);
      } else {
        ZeroLengthInterval(size, offset, 0);
      }
    }
  }

  /** Concrete cases: a 4 GiB + 4 KiB area loses all but its first page, a 4 GiB one wraps around. */
  lemma LargeAreaExamples()
    ensures Decode(0x1_0000_1000, 0, 0) == Accepted(0, 0)
    ensures Decode(0x1_0000_0000, 0, 0) == Accepted(0, WORD - 1)
    ensures Decode(8192, 8192, 0) == Accepted(2, 1) && Decode(8192, 0, 0) == Accepted(0, 1)
  {
  }
}
