/** `fill_e820map` (memory.c): translate the UEFI memory map that the
    firmware hands over into the zero page's E820 table. */
module MemoryMap {
  import opened Bytes
  import opened Status
  import opened E820
  import opened ZeroPage

  // EFI_MEMORY_TYPE, as section 7.2 of the UEFI Specification lists it (GetMemoryMap)
  const EFI_RESERVED_TYPE: u32 := 0
  const EFI_LOADER_CODE: u32 := 1
  const EFI_LOADER_DATA: u32 := 2
  const EFI_BOOT_SERVICES_CODE: u32 := 3
  const EFI_BOOT_SERVICES_DATA: u32 := 4
  const EFI_RUNTIME_SERVICES_CODE: u32 := 5
  const EFI_RUNTIME_SERVICES_DATA: u32 := 6
  const EFI_CONVENTIONAL_MEMORY: u32 := 7
  const EFI_UNUSABLE_MEMORY: u32 := 8
  const EFI_ACPI_RECLAIM_MEMORY: u32 := 9
  const EFI_ACPI_MEMORY_NVS: u32 := 10
  const EFI_MEMORY_MAPPED_IO: u32 := 11
  const EFI_MEMORY_MAPPED_IO_PORT_SPACE: u32 := 12
  const EFI_PAL_CODE: u32 := 13

  /** Pages are 4 KiB: a page count is shifted left by 12. */
  const EFI_PAGE_SHIFT: nat := 12

  // EFI_MEMORY_DESCRIPTOR: u32 Type, u32 padding, u64 PhysicalStart,
  // u64 VirtualStart, u64 NumberOfPages, u64 Attribute
  const MD_TYPE: nat := 0
  const MD_PHYS_ADDR: nat := 8
  const MD_NUM_PAGES: nat := 24
  /** The nominal descriptor size; the firmware's stride may be larger. */
  const MD_NOMINAL_SIZE: nat := 40

  /** The legacy hole between 640 KiB and 1 MiB. */
  const LOW_MEMORY_END: u64 := 0xA0000
  const HIGH_MEMORY_START: u64 := 0x100000

  /** The fields of one firmware memory descriptor that are read. */
  datatype Descriptor = Descriptor(efiType: u32, physAddr: u64, numPages: u64)

  /** The descriptor whose first byte is at offset `p` of the map. */
  function DescriptorAt(mem: seq<u8>, p: nat): (d: Descriptor)
    requires p + MD_NOMINAL_SIZE <= |mem|
  {
    Parse(mem[p..p + MD_NOMINAL_SIZE])
  }

  /** The type, physical start and page count of a descriptor's bytes. */
  function Parse(b: seq<u8>): (d: Descriptor)
    requires |b| == MD_NOMINAL_SIZE
    ensures Encode(d.efiType, 4) == b[MD_TYPE..MD_TYPE + 4]
    ensures Encode(d.physAddr, 8) == b[MD_PHYS_ADDR..MD_PHYS_ADDR + 8]
    ensures Encode(d.numPages, 8) == b[MD_NUM_PAGES..MD_NUM_PAGES + 8]
  {
    EncodeDecode(b[MD_TYPE..MD_TYPE + 4]);
    EncodeDecode(b[MD_PHYS_ADDR..MD_PHYS_ADDR + 8]);
    EncodeDecode(b[MD_NUM_PAGES..MD_NUM_PAGES + 8]);
    PowersOf256();
    DecodeBound(b[MD_TYPE..MD_TYPE + 4]);
    DecodeBound(b[MD_PHYS_ADDR..MD_PHYS_ADDR + 8]);
    DecodeBound(b[MD_NUM_PAGES..MD_NUM_PAGES + 8]);
    Descriptor(Decode(b[MD_TYPE..MD_TYPE + 4]),
               Decode(b[MD_PHYS_ADDR..MD_PHYS_ADDR + 8]),
               Decode(b[MD_NUM_PAGES..MD_NUM_PAGES + 8]))
  }

  lemma PowersOf256()
    ensures Pow256(4) == TWO_32 && Pow256(8) == TWO_64
  {
    assert Pow256(2) == TWO_16;
    assert Pow256(4) == TWO_32;
  }

  /** The types that the switch treats as usable RAM. */
  predicate IsUsable(efiType: u32)
  {
    efiType == EFI_LOADER_CODE || efiType == EFI_LOADER_DATA ||
    efiType == EFI_BOOT_SERVICES_CODE || efiType == EFI_BOOT_SERVICES_DATA ||
    efiType == EFI_CONVENTIONAL_MEMORY
  }

  /** The types that the switch lists explicitly as reserved. */
  predicate IsListedReserved(efiType: u32)
  {
    efiType == EFI_RUNTIME_SERVICES_CODE || efiType == EFI_RUNTIME_SERVICES_DATA ||
    efiType == EFI_RESERVED_TYPE || efiType == EFI_MEMORY_MAPPED_IO ||
    efiType == EFI_MEMORY_MAPPED_IO_PORT_SPACE || efiType == EFI_UNUSABLE_MEMORY ||
    efiType == EFI_PAL_CODE
  }

  /** The E820 type the switch gives a descriptor type; a type the switch
      does not list lands in `default` and is reserved (with a warning). */
  function Classify(efiType: u32): (t: u32)
    ensures t == E820_ACPI <==> efiType == EFI_ACPI_RECLAIM_MEMORY
    ensures t == E820_NVS <==> efiType == EFI_ACPI_MEMORY_NVS
    ensures t == E820_RAM <==> IsUsable(efiType)
    ensures t == E820_RESERVED <==> IsListedReserved(efiType) || efiType > EFI_PAL_CODE
  {
    if efiType == EFI_ACPI_RECLAIM_MEMORY then E820_ACPI
    else if IsListedReserved(efiType) then E820_RESERVED
    else if IsUsable(efiType) then E820_RAM
    else if efiType == EFI_ACPI_MEMORY_NVS then E820_NVS
    else E820_RESERVED
  }

  /** `num_pages << EFI_PAGE_SHIFT` on UINT64. */
  function PageBytes(numPages: u64): (r: u64)
    ensures r % 4096 == 0
    ensures numPages * 4096 < TWO_64 ==> r == numPages * 4096
  {
    (numPages * 4096) % TWO_64
  }

  /** What one pass of the loop body does with a descriptor: the regions it
      hands to `add_memory_region`, in order, and whether it reaches the
      pointer advance at the end of the body. */
  datatype Step = Step(regions: seq<Entry>, advance: bool)

  /** The usable-RAM case with the 640 KiB - 1 MiB fix-up. */
  function RamStep(start: u64, size: u64): (s: Step)
    ensures !s.advance <==>
      start < HIGH_MEMORY_START && LOW_MEMORY_END < Add64(start, size) <= HIGH_MEMORY_START
    ensures forall j :: 0 <= j < |s.regions| ==> s.regions[j].e820Type == E820_RAM
  {
    var end := Add64(start, size);
    if start < HIGH_MEMORY_START && end > LOW_MEMORY_END then
      var low := if start < LOW_MEMORY_END then [Entry(start, LOW_MEMORY_END - start, E820_RAM)] else [];
      if end <= HIGH_MEMORY_START then Step(low, false)  // the `continue`
      else Step(low + [Entry(HIGH_MEMORY_START, end - HIGH_MEMORY_START, E820_RAM)], true)
    else
      Step([Entry(start, size, E820_RAM)], true)
  }

  /** The switch on the descriptor type: usable RAM goes through the hole
      fix-up, every other type is added whole with the type `Classify`
      gives it. */
  function DescriptorStep(d: Descriptor): (s: Step)
    ensures !s.advance ==> IsUsable(d.efiType)
    ensures forall j :: 0 <= j < |s.regions| ==> s.regions[j].e820Type == Classify(d.efiType)
  {
    var size := PageBytes(d.numPages);
    if IsUsable(d.efiType) then RamStep(d.physAddr, size)
    else Step([Entry(d.physAddr, size, Classify(d.efiType))], true)
  }

  /** The table after adding `rs` in order, or None if one of the adds is
      fatal. */
  function AddAll(t: seq<Entry>, rs: seq<Entry>): (r: Option<seq<Entry>>)
    requires |t| <= E820_MAX_ENTRIES_ZEROPAGE
    ensures r.Some? ==> |t| <= |r.value| <= E820_MAX_ENTRIES_ZEROPAGE
    decreases |rs|
  {
    if rs == [] then Some(t)
    else match Added(t, rs[0])
      case None => None
      case Some(t1) => AddAll(t1, rs[1..])
  }

  /** The `n` descriptors that start at offset `p` of the map and follow
      each other `stride` bytes apart. */
  function Descriptors(mem: seq<u8>, p: nat, stride: nat, n: nat): (ds: seq<Descriptor>)
    requires MD_NOMINAL_SIZE <= stride && p + Span(n, stride) <= |mem|
    ensures |ds| == n
    decreases n
  {
    if n == 0 then []
    else [DescriptorAt(mem, p)] + Descriptors(mem, p + stride, stride, n - 1)
  }

  /** The remaining iterations of the loop of `fill_e820map`, AS WRITTEN, over
      the descriptors `ds` of the map: iteration `i` reads descriptor `k`, and
      the loop moves on to the next descriptor only when the body reaches its
      last statement, so after a `continue` the next iteration reads the same
      descriptor again. */
  function Walk(ds: seq<Descriptor>, i: nat, k: nat, t: seq<Entry>): (r: Option<seq<Entry>>)
    requires |t| <= E820_MAX_ENTRIES_ZEROPAGE && k <= i <= |ds|
    ensures r.Some? ==> |t| <= |r.value| <= E820_MAX_ENTRIES_ZEROPAGE
    decreases |ds| - i, 1
  {
    if i == |ds| then Some(t) else Visit(ds, i, k, t)
  }

  /** One iteration of `Walk`: the regions of descriptor `k`, then the rest
      of the loop from the descriptor the pointer is left at. */
  function Visit(ds: seq<Descriptor>, i: nat, k: nat, t: seq<Entry>): (r: Option<seq<Entry>>)
    requires |t| <= E820_MAX_ENTRIES_ZEROPAGE && k <= i < |ds|
    ensures r.Some? ==> |t| <= |r.value| <= E820_MAX_ENTRIES_ZEROPAGE
    decreases |ds| - i, 0
  {
    var s := DescriptorStep(ds[k]);
    match AddAll(t, s.regions)
    case None => None
    case Some(t1) => Walk(ds, i + 1, if s.advance then k + 1 else k, t1)
  }

  /** The bytes that `k` descriptors `stride` bytes apart occupy. */
  function Span(k: nat, stride: nat): nat
  {
    if k == 0 then 0 else stride + Span(k - 1, stride)
  }

  lemma {:induction false} SpanIsProduct(k: nat, stride: nat)
    ensures Span(k, stride) == k * stride
  {
    if k > 0 {
      SpanIsProduct(k - 1, stride);
    }
  }

  /** The `size / stride` descriptors of a map of `size` bytes whose
      descriptors are `stride` bytes apart. */
  function MapDescriptors(mem: seq<u8>, size: nat, stride: nat): (ds: seq<Descriptor>)
    requires MD_NOMINAL_SIZE <= stride && size <= |mem|
    ensures |ds| == size / stride
  {
    WholeDescriptors(size, stride);
    Descriptors(mem, 0, stride, size / stride)
  }

  /** The table `fill_e820map` builds from a map of `size` bytes whose
      descriptors are `stride` bytes apart, or None when it is fatal. */
  function FilledTable(mem: seq<u8>, size: nat, stride: nat): Option<seq<Entry>>
    requires MD_NOMINAL_SIZE <= stride && size <= |mem|
  {
    Walk(MapDescriptors(mem, size, stride), 0, 0, [])
  }

  /** The `size / stride` descriptors that the loop visits lie within the
      `size` bytes of the map. */
  lemma WholeDescriptors(size: nat, stride: nat)
    requires stride > 0
    ensures Span(size / stride, stride) <= size
  {
    SpanIsProduct(size / stride, stride);
  }

  /** Descriptor `k` of the list is the one at `k` strides past its start. */
  lemma {:induction false} DescriptorsIndex(mem: seq<u8>, p: nat, stride: nat, n: nat, k: nat)
    requires MD_NOMINAL_SIZE <= stride && p + Span(n, stride) <= |mem| && k < n
    ensures p + Span(k, stride) + MD_NOMINAL_SIZE <= |mem|
    ensures Descriptors(mem, p, stride, n)[k] == DescriptorAt(mem, p + Span(k, stride))
    decreases k
  {
    var ds := Descriptors(mem, p, stride, n);
    var rest := Descriptors(mem, p + stride, stride, n - 1);
    assert Span(n, stride) == stride + Span(n - 1, stride);
    assert ds == [DescriptorAt(mem, p)] + rest;
    if k > 0 {
      DescriptorsIndex(mem, p + stride, stride, n - 1, k - 1);
      assert Span(k, stride) == stride + Span(k - 1, stride);
      assert ds[k] == rest[k - 1];
    }
  }

  /** Descriptor `k` of the map is the one at offset `p`, `k` strides in. */
  lemma MapDescriptorAt(mem: seq<u8>, size: nat, stride: nat, k: nat, p: nat)
    requires MD_NOMINAL_SIZE <= stride && size <= |mem| && k < size / stride && p == Span(k, stride)
    ensures p + MD_NOMINAL_SIZE <= |mem| && MapDescriptors(mem, size, stride)[k] == DescriptorAt(mem, p)
  {
    WholeDescriptors(size, stride);
    DescriptorsIndex(mem, 0, stride, size / stride, k);
  }

  lemma AddAllFirst(t: seq<Entry>, rs: seq<Entry>)
    requires |t| <= E820_MAX_ENTRIES_ZEROPAGE && rs != []
    ensures AddAll(t, rs) == match Added(t, rs[0])
      case None => None
      case Some(t1) => AddAll(t1, rs[1..])
  {
  }

  /** What `fill_e820map` requires of the firmware: the descriptor stride
      recorded in the zero page is at least the nominal descriptor size, and
      the map holds as many bytes as recorded. */
  predicate MapReadable(page: seq<u8>, mem: seq<u8>)
    requires |page| == BOOT_PARAMS_SIZE
  {
    Field(page, EFI_MEMDESC_SIZE, 4) >= MD_NOMINAL_SIZE &&
    Field(page, EFI_MEMMAP_SIZE, 4) <= |mem|
  }

  /** One pass of the loop body of `fill_e820map` over the descriptor `md`:
      the switch on its type and the calls to `add_memory_region`. `advance`
      is false exactly when the body ends in the `continue` of the RAM case,
      which skips the move to the next descriptor. */
  method AddDescriptor(e820: E820Table, md: Descriptor) returns (status: Status, advance: bool)
    requires e820.Valid()
    modifies e820, e820.entries
    ensures e820.Valid()
    ensures var r := AddAll(old(e820.Contents()), DescriptorStep(md).regions);
      status == (if r.Some? then Running else Halted(TooManyEntries)) &&
      (r.Some? ==> e820.Contents() == r.value)
    ensures status.Running? ==> advance == DescriptorStep(md).advance
  {
    ghost var step := DescriptorStep(md);
    ghost var t := e820.Contents();
    // the regions of this descriptor that are still to be added
    ghost var rest := step.regions;
    advance := true;
    if IsUsable(md.efiType) {
      var start := md.physAddr;
      var size := PageBytes(md.numPages);
      var end := Add64(start, size);
      if start < HIGH_MEMORY_START && end > LOW_MEMORY_END {
        if start < LOW_MEMORY_END {
          status := e820.AddMemoryRegion(start, LOW_MEMORY_END - start, E820_RAM);
          AddAllFirst(t, rest);
          if status.Halted? { return; }
          rest := rest[1..];
        }
        if end <= HIGH_MEMORY_START {
          status := Running;
          advance := false;
          return;
        }
        start := HIGH_MEMORY_START;
        size := end - start;
      }
      ghost var before := e820.Contents();
      status := e820.AddMemoryRegion(start, size, E820_RAM);
      AddAllFirst(before, rest);
      assert rest[1..] == [];
    } else {
      // every other arm of the switch adds the whole region with the type
      // that Classify gives
      status := e820.AddMemoryRegion(md.physAddr, PageBytes(md.numPages), Classify(md.efiType));
      AddAllFirst(t, rest);
      assert rest[1..] == [];
    }
  }

  /** Iteration `i` of the loop, with `p` at descriptor `k` of the map:
      read that descriptor and add its regions. The rest of the walk from
      the new table is the rest of the walk from the old one. */
  method Iterate(e820: E820Table, mem: seq<u8>, size: nat, stride: nat, p: nat, ghost ds: seq<Descriptor>, ghost i: nat, ghost k: nat, ghost t: seq<Entry>)
    returns (status: Status, advance: bool, ghost t1: seq<Entry>)
    requires e820.Valid() && e820.Contents() == t && MD_NOMINAL_SIZE <= stride && size <= |mem|
    requires k <= i < size / stride && p == Span(k, stride) && ds == MapDescriptors(mem, size, stride)
    modifies e820, e820.entries
    ensures e820.Valid() && e820.Contents() == t1 && |t1| <= E820_MAX_ENTRIES_ZEROPAGE
    ensures
      status.Halted? ==> status == Halted(TooManyEntries) && Walk(ds, i, k, t) == None
    ensures
      status.Running? ==>
        Walk(ds, i + 1, if advance then k + 1 else k, t1) == Walk(ds, i, k, t)
  {
    MapDescriptorAt(mem, size, stride, k, p);
    var md := DescriptorAt(mem, p);
    status, advance := AddDescriptor(e820, md);
    t1 := e820.Contents();
  }

  method WalkMap(e820: E820Table, mem: seq<u8>, size: nat, stride: nat) returns (status: Status)
    requires e820.Valid() && MD_NOMINAL_SIZE <= stride && size <= |mem|
    modifies e820, e820.entries
    ensures e820.Valid()
    ensures var r := FilledTable(mem, size, stride);
      status == (if r.Some? then Running else Halted(TooManyEntries)) &&
      (r.Some? ==> e820.Contents() == r.value)
  {
    var nrMap := size / stride;
    ghost var ds := MapDescriptors(mem, size, stride);
    e820.Reset();
    var p: nat := 0;
    // the number of descriptors the loop has moved past
    ghost var k: nat := 0;
    ghost var t: seq<Entry> := [];
    for i := 0 to nrMap
      invariant e820.Valid() && e820.Contents() == t && |t| <= E820_MAX_ENTRIES_ZEROPAGE
      invariant k <= i && p == Span(k, stride)
      invariant Walk(ds, i, k, t) == FilledTable(mem, size, stride)
    {
      var advance;
      status, advance, t := Iterate(e820, mem, size, stride, p, ds, i, k, t);
      if status.Halted? {
        return;
      }
      if !advance {
        continue;
      }
      p := p + stride;
      k := k + 1;
    }
    status := Running;
  }

  /** `fill_e820map`: walk the firmware memory map whose size and stride the
      zero page records, and set `e820_entries` to the number of entries. */
  method FillE820Map(bp: BootParams, mem: seq<u8>) returns (status: Status)
    requires bp.Valid() && MapReadable(bp.page[..], mem)
    modifies bp.page, bp.e820, bp.e820.entries
    ensures bp.Valid()
    ensures var r := FilledTable(mem, Field(old(bp.page[..]), EFI_MEMMAP_SIZE, 4), Field(old(bp.page[..]), EFI_MEMDESC_SIZE, 4));
      status == (if r.Some? then Running else Halted(TooManyEntries)) &&
      (r.Some? ==> bp.e820.Contents() == r.value &&
                   bp.page[..] == Put(old(bp.page[..]), E820_ENTRIES, 1, |r.value|)) &&
      (r.None? ==> bp.page[..] == old(bp.page[..]))
  {
    var size := Decode(bp.page[EFI_MEMMAP_SIZE..EFI_MEMMAP_SIZE + 4]);
    var stride := Decode(bp.page[EFI_MEMDESC_SIZE..EFI_MEMDESC_SIZE + 4]);
    status := WalkMap(bp.e820, mem, size, stride);
    if status.Running? {
      bp.Store(E820_ENTRIES, Encode(bp.e820.count, 1));
    }
  }
}
