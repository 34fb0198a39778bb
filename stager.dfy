/** The image stager of driver/axvm.c (`arceos_axvm_load_image`): map the
    page-aligned physical window that holds the hypervisor-chosen target
    address, copy the image from the caller's buffer into it at the in-page
    offset, do the cache maintenance, and release the window.

    The kernel primitives are not modelled as memory: `jailhouse_ioremap`
    and `copy_from_user` are outcomes given by the caller of the model, and
    the stager reports the kernel operations it issues, in order, as a
    sequence of `MemOp`s. */
module ImageStager {
  import opened Kernel

  /** PAGE_SIZE for 4 KiB pages (PAGE_SHIFT = 12). */
  const PAGE_SIZE: nat := 4096

  /** `struct jailhouse_preload_image` without its padding field. */
  datatype PreloadImage = PreloadImage(sourceAddress: u64, size: u64, targetAddress: u64)

  /** `addr & PAGE_MASK`: the start of the page holding `addr`. */
  function PageBase(addr: u64): (r: u64)
    ensures r % PAGE_SIZE == 0
    ensures r <= addr < r + PAGE_SIZE
  {
    addr - addr % PAGE_SIZE
  }

  /** `offset_in_page(addr)`. */
  function PageOffset(addr: u64): (r: nat)
    ensures r < PAGE_SIZE
    ensures PageBase(addr) + r == addr
  {
    addr % PAGE_SIZE
  }

  /** `PAGE_ALIGN(x)` on a 64-bit `unsigned long`: `(x + PAGE_SIZE - 1) &
      PAGE_MASK`, where the addition wraps around. */
  function PageAlign(x: u64): (r: u64)
    ensures r % PAGE_SIZE == 0
    ensures x + PAGE_SIZE - 1 < U64_LIMIT ==> x <= r < x + PAGE_SIZE
    ensures x + PAGE_SIZE - 1 >= U64_LIMIT ==> r == 0
  {
    PageBase(AddU64(x, PAGE_SIZE - 1))
  }

  /** The length of the window the stager maps:
      `PAGE_ALIGN(image->size + page_offs)`, in `__u64` arithmetic. */
  function WindowLength(image: PreloadImage): (r: u64)
    ensures r % PAGE_SIZE == 0
  {
    PageAlign(AddU64(image.size, PageOffset(image.targetAddress)))
  }

  /** No sum in the window computation wraps around. */
  predicate WindowFits(image: PreloadImage) {
    image.size + PageOffset(image.targetAddress) + PAGE_SIZE - 1 < U64_LIMIT
  }

  /** The mapped window is a whole number of pages, holds the copy range
      `[page_offs, page_offs + size)`, and is less than one page longer than
      it needs to be. */
  lemma WindowCoversCopy(image: PreloadImage)
    requires WindowFits(image)
    ensures WindowLength(image) % PAGE_SIZE == 0
    ensures PageOffset(image.targetAddress) + image.size <= WindowLength(image)
    ensures WindowLength(image) < PageOffset(image.targetAddress) + image.size + PAGE_SIZE
  {
    var x := image.size + PageOffset(image.targetAddress);
    assert AddU64(image.size, PageOffset(image.targetAddress)) == x;
    assert AddU64(x, PAGE_SIZE - 1) == x + PAGE_SIZE - 1;
  }

  /** The source never bounds the caller-supplied size: for a size near 2^64
      the sum wraps and the window it maps is empty, far shorter than the
      copy it then asks for. */
  lemma WindowWrapsForHugeSize()
    ensures var image := PreloadImage(0, U64_LIMIT - 1, 1);
      WindowLength(image) == 0 && PageOffset(image.targetAddress) + image.size > WindowLength(image)
  {
  }

  /** The kernel operations the stager issues. `FlushCaches` stands for
      `flush_icache_range` (and, on 32-bit ARM, `__cpuc_flush_dcache_area`)
      over the same range. */
  datatype MemOp =
    | IoRemap(phys: u64, length: u64)
    | CopyFromUser(offset: nat, source: u64, size: u64)
    | FlushCaches(offset: nat, size: u64)
    | VUnmap

  /** The environment's answers to the stager: whether `jailhouse_ioremap`
      returns a mapping, and whether `copy_from_user` copies every byte. */
  datatype Staging = Staging(mapped: bool, copied: bool)

  /** The code `arceos_axvm_load_image` returns for these answers. */
  function StageError(st: Staging): (err: int)
    ensures err == 0 <==> st.mapped && st.copied
    ensures err == -EBUSY <==> !st.mapped
    ensures err == -EFAULT <==> st.mapped && !st.copied
  {
    if !st.mapped then -EBUSY else if !st.copied then -EFAULT else 0
  }

  /** A trace that acquires one mapping first and releases it last, with no
      other mapping or release in between. */
  predicate MappingReleased(ops: seq<MemOp>) {
    && |ops| >= 2
    && ops[0].IoRemap?
    && ops[|ops| - 1] == VUnmap
    && forall i :: 0 < i < |ops| - 1 ==> !ops[i].IoRemap? && ops[i] != VUnmap
  }

  /** Every copy in the trace writes inside a window of `length` bytes. */
  predicate CopiesInside(ops: seq<MemOp>, length: nat) {
    forall i :: 0 <= i < |ops| && ops[i].CopyFromUser? ==> ops[i].offset + ops[i].size <= length
  }

  /** `arceos_axvm_load_image`. Returns the error code and the kernel
      operations issued, in order. */
  method LoadImage(image: PreloadImage, st: Staging) returns (err: int, ops: seq<MemOp>)
    ensures err == StageError(st)
    ensures |ops| >= 1 && ops[0] == IoRemap(PageBase(image.targetAddress), WindowLength(image))
    ensures !st.mapped ==> |ops| == 1
    ensures st.mapped ==> MappingReleased(ops) && |ops| == 4
    ensures st.mapped ==> ops[1] == CopyFromUser(PageOffset(image.targetAddress), image.sourceAddress, image.size)
    ensures st.mapped ==> ops[2] == FlushCaches(PageOffset(image.targetAddress), image.size)
    ensures WindowFits(image) ==> CopiesInside(ops, WindowLength(image))
  {
    var physStart := PageBase(image.targetAddress);
    var pageOffs := PageOffset(image.targetAddress);
    ops := [IoRemap(physStart, PageAlign(AddU64(image.size, pageOffs)))];
    if !st.mapped {
      err := -EBUSY;
      return;
    }
    err := 0;
    ops := ops + [CopyFromUser(pageOffs, image.sourceAddress, image.size)];
    if !st.copied {
      err := -EFAULT;
    }
    ops := ops + [FlushCaches(pageOffs, image.size)];
    ops := ops + [VUnmap];
    if WindowFits(image) {
      WindowCoversCopy(image);
    }
  }
}
