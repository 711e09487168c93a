/** `WrapperInit` and `LoadLinux` (loader.c): find the kernel image, check
    its "HdrS" header, move its protected-mode payload to 1 MiB and build
    the zero page that the Linux/x86 boot protocol hands to the kernel. */
module Loader {
  import opened Bytes
  import opened Status
  import opened E820
  import opened ZeroPage
  import opened MemoryMap
  import opened Acpi

  /** "HdrS", the magic of the real-mode kernel header, as bytes and as the
      little-endian u32 the loader compares (the C constant 'SrdH'). */
  const HDRS: seq<u8> := ['H' as int, 'd' as int, 'r' as int, 'S' as int]
  const HDRS_MAGIC: nat := 0x53726448

  /** The real-mode code occupies the boot sector and `setup_sects` more
      512-byte sectors; the protected-mode kernel follows. */
  const SECTOR_SIZE: nat := 512

  /** "EL32", the `efi_loader_signature` of a 32-bit EFI loader, and the
      little-endian u32 with those bytes. */
  const EL32: seq<u8> := ['E' as int, 'L' as int, '3' as int, '2' as int]
  const EL32_SIGNATURE: nat := 0x32334C45

  // setup_header values the loader assigns
  const VID_MODE_NORMAL: nat := 0xFFFF
  const LOADER_UNDEFINED: nat := 0xFF

  // screen_info constants (include/linux_params.h)
  const VIDEO_TYPE_EFI: nat := 0x70
  const VIDEO_FLAGS_NOCURSOR: nat := 1
  const VIDEO_CAPABILITY_SKIP_QUIRKS: nat := 1
  const VIDEO_CAPABILITY_64BIT_BASE: nat := 2

  /** The frame buffer as the Mach boot arguments describe it. */
  datatype Video = Video(baseAddress: u32, pitch: u32, height: u32, depth: u32)

  /** The fields of the Mach boot arguments that the loader reads. */
  datatype BootArgs = BootArgs(
    cmdLine: u32,                     // address of the command line
    video: Video,
    efiSystemTable: u32,
    efiMemoryMap: u32,
    efiMemoryMapSize: u32,
    efiMemoryDescriptorSize: u32,
    efiMemoryDescriptorVersion: u32)

  /** The `__initrd` section: its address and length, 0 when it is absent. */
  datatype Ramdisk = Ramdisk(address: u32, length: u32)

  /** The image carries the "HdrS" magic: the u32 at 0x202 is 'SrdH'. */
  predicate HasLinuxSignature(image: seq<u8>)
    requires HEADER_MAGIC + 4 <= |image|
  {
    Decode(image[HEADER_MAGIC..HEADER_MAGIC + 4]) == HDRS_MAGIC
  }

  /** `kernel_ptr[0x201] + 0x202`: the end of the setup header. The byte at
      0x201 is the operand of the short jump at 0x200, which lands just past
      the header. */
  function SetupHeaderEnd(image: seq<u8>): nat
    requires JUMP_OFFSET < |image|
  {
    image[JUMP_OFFSET] as int + 0x202
  }

  /** `(kernel_ptr[0x1F1] + 1) * 512`: where the protected-mode kernel
      starts in the image. */
  function PayloadOffset(image: seq<u8>): nat
    requires SETUP_SECTS < |image|
  {
    (image[SETUP_SECTS] as int + 1) * SECTOR_SIZE
  }

  /** `real_kernel_len`: the u32 difference of the image length and the
      payload offset. */
  function PayloadLength(image: seq<u8>): u32
    requires SETUP_SECTS < |image| < TWO_32
  {
    Sub32(|image|, PayloadOffset(image))
  }

  /** What `LoadLinux` reads of the image lies inside it: the header it
      copies and the payload it moves. */
  predicate Loadable(image: seq<u8>)
  {
    HEADER_MAGIC + 4 <= |image| < TWO_32 &&
    SetupHeaderEnd(image) <= |image| &&
    PayloadOffset(image) <= |image|
  }

  /** The memory map the boot arguments point at holds the bytes they say it
      has, in descriptors no smaller than `efi_memory_desc_t`. */
  predicate MapDescribed(args: BootArgs, memoryMap: seq<u8>)
  {
    MD_NOMINAL_SIZE <= args.efiMemoryDescriptorSize &&
    args.efiMemoryMapSize <= |memoryMap|
  }

  /** `memset(boot_params, 0, 4096)` and the copy of the image's setup
      header, bytes [0x1F1, SetupHeaderEnd), to the same offset. */
  function CopiedHeader(image: seq<u8>): (r: seq<u8>)
    requires JUMP_OFFSET < |image| && SetupHeaderEnd(image) <= |image|
    ensures |r| == BOOT_PARAMS_SIZE
    ensures r[HDR..SetupHeaderEnd(image)] == image[HDR..SetupHeaderEnd(image)]
    ensures SetupHeaderEnd(image) - HDR == image[JUMP_OFFSET] as int + 0x11
    ensures forall j :: 0 <= j < |r| && !(HDR <= j < SetupHeaderEnd(image)) ==> r[j] == 0
  {
    Write(Zeroes(BOOT_PARAMS_SIZE), HDR, image[HDR..SetupHeaderEnd(image)])
  }

  /** `cmd_line_ptr`, `vid_mode` and `type_of_loader`, in that order. */
  function HeaderPatches(cmdLine: u32): seq<Assign>
  {
    [ Assign(CMD_LINE_PTR, 4, cmdLine),
      Assign(VID_MODE, 2, VID_MODE_NORMAL),
      Assign(TYPE_OF_LOADER, 1, LOADER_UNDEFINED) ]
  }

  function PatchedHeader(image: seq<u8>, cmdLine: u32): (r: seq<u8>)
    requires JUMP_OFFSET < |image| && SetupHeaderEnd(image) <= |image|
    ensures |r| == BOOT_PARAMS_SIZE
  {
    Applied(CopiedHeader(image), HeaderPatches(cmdLine), 3)
  }

  /** The `loadflags` byte as the header copy leaves it: the image's byte
      at 0x211 when the copy reaches it, else the 0 of the memset. */
  function CopiedLoadflags(image: seq<u8>): u8
    requires JUMP_OFFSET < |image| && SetupHeaderEnd(image) <= |image|
  {
    if LOADFLAGS < SetupHeaderEnd(image) then image[LOADFLAGS] else 0
  }

  /** LOADED_HIGH, bit 0 of `loadflags`: the kernel runs from 0x100000. */
  predicate LoadsHigh(image: seq<u8>)
    requires JUMP_OFFSET < |image| && SetupHeaderEnd(image) <= |image|
  {
    CopiedLoadflags(image) % 2 == 1
  }

  /** `loadflags & ~(1 << 5)`: QUIET_FLAG cleared, so that the kernel
      prints its early messages. */
  function ClearQuiet(f: u8): (r: u8)
    ensures r % 32 == f % 32 && r / 64 == f / 64 && (r / 32) % 2 == 0
  {
    if (f / 32) % 2 == 1 then f - 32 else f
  }

  function RamdiskAssigns(rd: Ramdisk): seq<Assign>
  {
    [ Assign(RAMDISK_IMAGE, 4, rd.address),
      Assign(RAMDISK_SIZE, 4, rd.length) ]
  }

  /** The `screen_info` assignments, in source order. */
  function ScreenAssigns(v: Video): seq<Assign>
  {
    [ Assign(SI_CAPABILITIES, 4, VIDEO_CAPABILITY_64BIT_BASE + VIDEO_CAPABILITY_SKIP_QUIRKS),
      Assign(SI_FLAGS, 1, VIDEO_FLAGS_NOCURSOR),
      Assign(SI_LFB_BASE, 4, v.baseAddress),
      Assign(SI_LFB_SIZE, 4, Mul32(v.pitch, v.height)),
      Assign(SI_LFB_WIDTH, 2, v.pitch / 4),
      Assign(SI_LFB_HEIGHT, 2, v.height),
      Assign(SI_LFB_DEPTH, 2, v.depth),
      Assign(SI_LFB_LINELENGTH, 2, v.pitch),
      Assign(SI_RED_SIZE, 1, 8),
      Assign(SI_RED_POS, 1, 16),
      Assign(SI_GREEN_SIZE, 1, 8),
      Assign(SI_GREEN_POS, 1, 8),
      Assign(SI_BLUE_SIZE, 1, 8),
      Assign(SI_BLUE_POS, 1, 0),
      Assign(SI_ORIG_VIDEO_ISVGA, 1, VIDEO_TYPE_EFI) ]
  }

  /** The `efi_info` assignments, in source order, the signature first. */
  function EfiAssigns(args: BootArgs): seq<Assign>
  {
    [ Assign(EFI_LOADER_SIGNATURE, 4, EL32_SIGNATURE),
      Assign(EFI_SYSTAB, 4, args.efiSystemTable),
      Assign(EFI_MEMMAP, 4, args.efiMemoryMap),
      Assign(EFI_MEMMAP_SIZE, 4, args.efiMemoryMapSize),
      Assign(EFI_MEMDESC_SIZE, 4, args.efiMemoryDescriptorSize),
      Assign(EFI_MEMDESC_VERSION, 4, args.efiMemoryDescriptorVersion) ]
  }

  /** The zero page once `loadflags` is patched. */
  function FlagsPage(image: seq<u8>, cmdLine: u32): (r: seq<u8>)
    requires JUMP_OFFSET < |image| && SetupHeaderEnd(image) <= |image|
    ensures |r| == BOOT_PARAMS_SIZE
  {
    var p := PatchedHeader(image, cmdLine);
    Put(p, LOADFLAGS, 1, ClearQuiet(p[LOADFLAGS]))
  }

  /** The zero page when the ACPI lookup starts: the header copied and
      patched, the ramdisk and the frame buffer described. */
  function VideoPage(image: seq<u8>, args: BootArgs, rd: Ramdisk): (r: seq<u8>)
    requires JUMP_OFFSET < |image| && SetupHeaderEnd(image) <= |image|
    ensures |r| == BOOT_PARAMS_SIZE
  {
    var p := FlagsPage(image, args.cmdLine);
    var p := if rd.length != 0 then Applied(p, RamdiskAssigns(rd), 2) else p;
    Applied(p, ScreenAssigns(args.video), 15)
  }

  /** The zero page that `fill_e820map` receives: the RSDP address and
      `efi_info` added. */
  function BootPage(image: seq<u8>, args: BootArgs, rd: Ramdisk, rsdp: u32): (r: seq<u8>)
    requires JUMP_OFFSET < |image| && SetupHeaderEnd(image) <= |image|
    ensures |r| == BOOT_PARAMS_SIZE
  {
    FirmwarePage(VideoPage(image, args, rd), args, rsdp)
  }

  /** `p` with the RSDP address and `efi_info` assigned. */
  function FirmwarePage(p: seq<u8>, args: BootArgs, rsdp: u32): (r: seq<u8>)
    requires |p| == BOOT_PARAMS_SIZE
    ensures |r| == BOOT_PARAMS_SIZE
  {
    Applied(Put(p, ACPI_RSDP_ADDR, 8, rsdp), EfiAssigns(args), 6)
  }

  /** The header patches leave `loadflags` as the copy left it. */
  lemma PatchedLoadflags(image: seq<u8>, cmdLine: u32)
    requires JUMP_OFFSET < |image| && SetupHeaderEnd(image) <= |image|
    ensures PatchedHeader(image, cmdLine)[LOADFLAGS] == CopiedLoadflags(image)
  {
    var ss := HeaderPatches(cmdLine);
    assert |ss| == 3 && InPage(ss, BOOT_PARAMS_SIZE);
    UntouchedByte(CopiedHeader(image), ss, 3, LOADFLAGS);
  }

  /** Each `efi_info` field reads back as the value assigned to it, the
      signature as "EL32". */
  lemma EfiInfoFields(p: seq<u8>, args: BootArgs)
    requires |p| == BOOT_PARAMS_SIZE
    ensures var q := Applied(p, EfiAssigns(args), 6);
      q[EFI_LOADER_SIGNATURE..EFI_LOADER_SIGNATURE + 4] == EL32 &&
      Field(q, EFI_SYSTAB, 4) == args.efiSystemTable &&
      Field(q, EFI_MEMMAP, 4) == args.efiMemoryMap &&
      Field(q, EFI_MEMMAP_SIZE, 4) == args.efiMemoryMapSize &&
      Field(q, EFI_MEMDESC_SIZE, 4) == args.efiMemoryDescriptorSize &&
      Field(q, EFI_MEMDESC_VERSION, 4) == args.efiMemoryDescriptorVersion
  {
    var ss := EfiAssigns(args);
    assert |ss| == 6 && InPage(ss, BOOT_PARAMS_SIZE);
    assert Applied(p, ss, 6)[EFI_LOADER_SIGNATURE..EFI_LOADER_SIGNATURE + 4] == EL32 by {
      assert EL32 == Encode(EL32_SIGNATURE, 4);
      AppliedBytes(p, ss, 6, 0);
    }
    EfiField(p, args, 1);
    EfiField(p, args, 2);
    EfiField(p, args, 3);
    EfiField(p, args, 4);
    EfiField(p, args, 5);
  }

  /** The `i`-th `efi_info` value reads back unchanged. */
  lemma EfiField(p: seq<u8>, args: BootArgs, i: nat)
    requires |p| == BOOT_PARAMS_SIZE && 1 <= i < 6
    ensures var ss := EfiAssigns(args);
      Field(Applied(p, ss, 6), ss[i].off, 4) == ss[i].value
  {
    var ss := EfiAssigns(args);
    assert |ss| == 6 && InPage(ss, BOOT_PARAMS_SIZE);
    AppliedRead(p, ss, 6, i);
    FitsU32(ss[i].value);
  }

  /** How `LoadLinux` ends: the first fatal condition it meets, or the jump
      into the kernel. */
  function LoadStatus(image: seq<u8>, args: BootArgs, tables: seq<ConfigTable>, memoryMap: seq<u8>): Status
    requires Loadable(image) && MapDescribed(args, memoryMap)
  {
    if !LoadsHigh(image) then Halted(LoadsLow)
    else FirmwareStatus(args, tables, memoryMap)
  }

  /** How the steps after the frame buffer end: no ACPI table, an E820 table
      that overflows, or the jump. */
  function FirmwareStatus(args: BootArgs, tables: seq<ConfigTable>, memoryMap: seq<u8>): Status
    requires MapDescribed(args, memoryMap)
  {
    if Rsdp(tables).None? then Halted(NoAcpiTable)
    else if FilledTable(memoryMap, args.efiMemoryMapSize, args.efiMemoryDescriptorSize).None? then
      Halted(TooManyEntries)
    else Running
  }

  /** The machine the loader runs on: the zero page it builds, the memory at
      `relocated_kernel_start` (0x100000) and whether control has passed to
      the kernel. */
  class Machine {
    const params: BootParams
    var kernel: seq<u8>
    var entered: bool

    ghost predicate Valid()
      reads this, params, params.page, params.e820, params.e820.entries
    {
      params.Valid()
    }

    constructor ()
      ensures Valid() && !entered && kernel == []
      ensures fresh(params) && fresh(params.page) && fresh(params.e820) && fresh(params.e820.entries)
    {
      params := new BootParams();
      kernel := [];
      entered := false;
    }

    /** The hand-off: load the GDT and IDT and jump to the kernel with
        %esi pointing at the zero page. Nothing of the loader's state
        changes. */
    method Commit()
      requires Valid()
      modifies this
      ensures Valid() && entered && kernel == old(kernel)
    {
      entered := true;
    }
  }

  /** Zero the page and copy the setup header into it. */
  method CopyHeader(bp: BootParams, image: seq<u8>)
    requires bp.Valid() && JUMP_OFFSET < |image| && SetupHeaderEnd(image) <= |image|
    modifies bp.page
    ensures bp.Valid() && bp.page[..] == CopiedHeader(image)
  {
    bp.Store(0, Zeroes(BOOT_PARAMS_SIZE));
    assert bp.page[..] == Zeroes(BOOT_PARAMS_SIZE);
    var headerEnd := image[JUMP_OFFSET] as int + 0x202;
    bp.Store(HDR, image[HDR..headerEnd]);
  }

  method PatchHeader(bp: BootParams, cmdLine: u32)
    requires bp.Valid()
    modifies bp.page
    ensures bp.Valid() && bp.page[..] == Applied(old(bp.page[..]), HeaderPatches(cmdLine), 3)
  {
    ghost var p0, ss := bp.page[..], HeaderPatches(cmdLine);
    assert |ss| == 3 && InPage(ss, BOOT_PARAMS_SIZE);
    bp.Set(CMD_LINE_PTR, 4, cmdLine);
    assert bp.page[..] == Applied(p0, ss, 1);
    bp.Set(VID_MODE, 2, VID_MODE_NORMAL);
    assert bp.page[..] == Applied(p0, ss, 2);
    bp.Set(TYPE_OF_LOADER, 1, LOADER_UNDEFINED);
  }

  method SetRamdisk(bp: BootParams, rd: Ramdisk)
    requires bp.Valid()
    modifies bp.page
    ensures bp.Valid() && bp.page[..] == Applied(old(bp.page[..]), RamdiskAssigns(rd), 2)
  {
    ghost var p0, ss := bp.page[..], RamdiskAssigns(rd);
    assert |ss| == 2 && InPage(ss, BOOT_PARAMS_SIZE);
    bp.Set(RAMDISK_IMAGE, 4, rd.address);
    assert bp.page[..] == Applied(p0, ss, 1);
    bp.Set(RAMDISK_SIZE, 4, rd.length);
  }

  /** The fifteen `screen_info` assignments, one after the other. */
  method SetScreenInfo(bp: BootParams, v: Video)
    requires bp.Valid()
    modifies bp.page
    ensures bp.Valid() && bp.page[..] == Applied(old(bp.page[..]), ScreenAssigns(v), 15)
  {
    ghost var p0 := bp.page[..];
    var ss := ScreenAssigns(v);
    assert |ss| == 15 && InPage(ss, BOOT_PARAMS_SIZE);
    bp.AssignNext(p0, ss, 0);
    bp.AssignNext(p0, ss, 1);
    bp.AssignNext(p0, ss, 2);
    bp.AssignNext(p0, ss, 3);
    bp.AssignNext(p0, ss, 4);
    bp.AssignNext(p0, ss, 5);
    bp.AssignNext(p0, ss, 6);
    bp.AssignNext(p0, ss, 7);
    bp.AssignNext(p0, ss, 8);
    bp.AssignNext(p0, ss, 9);
    bp.AssignNext(p0, ss, 10);
    bp.AssignNext(p0, ss, 11);
    bp.AssignNext(p0, ss, 12);
    bp.AssignNext(p0, ss, 13);
    bp.AssignNext(p0, ss, 14);
  }

  /** The "EL32" signature, then the firmware's EFI values. */
  method SetEfiInfo(bp: BootParams, args: BootArgs)
    requires bp.Valid()
    modifies bp.page
    ensures bp.Valid() && bp.page[..] == Applied(old(bp.page[..]), EfiAssigns(args), 6)
  {
    ghost var p0, ss := bp.page[..], EfiAssigns(args);
    assert |ss| == 6 && InPage(ss, BOOT_PARAMS_SIZE);
    bp.Store(EFI_LOADER_SIGNATURE, EL32);
    assert EL32 == Encode(EL32_SIGNATURE, 4);
    assert bp.page[..] == Applied(p0, ss, 1);
    bp.Set(EFI_SYSTAB, 4, args.efiSystemTable);
    assert bp.page[..] == Applied(p0, ss, 2);
    bp.Set(EFI_MEMMAP, 4, args.efiMemoryMap);
    assert bp.page[..] == Applied(p0, ss, 3);
    bp.Set(EFI_MEMMAP_SIZE, 4, args.efiMemoryMapSize);
    assert bp.page[..] == Applied(p0, ss, 4);
    bp.Set(EFI_MEMDESC_SIZE, 4, args.efiMemoryDescriptorSize);
    assert bp.page[..] == Applied(p0, ss, 5);
    bp.Set(EFI_MEMDESC_VERSION, 4, args.efiMemoryDescriptorVersion);
  }

  /** `loadflags` with QUIET_FLAG cleared, the ramdisk when there is one,
      then the frame buffer. */
  method SetBootInfo(bp: BootParams, image: seq<u8>, args: BootArgs, rd: Ramdisk)
    requires bp.Valid() && JUMP_OFFSET < |image| && SetupHeaderEnd(image) <= |image|
    requires bp.page[..] == PatchedHeader(image, args.cmdLine)
    modifies bp.page
    ensures bp.Valid() && bp.page[..] == VideoPage(image, args, rd)
  {
    bp.Set(LOADFLAGS, 1, ClearQuiet(bp.page[LOADFLAGS]));
    assert bp.page[..] == FlagsPage(image, args.cmdLine);
    if rd.length != 0 {
      SetRamdisk(bp, rd);
    }
    SetScreenInfo(bp, args.video);
  }

  /** The ACPI root pointer, then `efi_info`; the memory map is then
      described by the page as the boot arguments describe it. */
  method SetFirmwareInfo(bp: BootParams, args: BootArgs, rsdp: u32)
    requires bp.Valid()
    modifies bp.page
    ensures bp.Valid()
    ensures bp.page[..] == FirmwarePage(old(bp.page[..]), args, rsdp)
    ensures Field(bp.page[..], EFI_MEMMAP_SIZE, 4) == args.efiMemoryMapSize
    ensures Field(bp.page[..], EFI_MEMDESC_SIZE, 4) == args.efiMemoryDescriptorSize
  {
    bp.Set(ACPI_RSDP_ADDR, 8, rsdp);
    SetEfiInfo(bp, args);
    EfiInfoFields(Put(old(bp.page[..]), ACPI_RSDP_ADDR, 8, rsdp), args);
  }

  /** The zero page of `LoadLinux`, built field by field up to and
      including the E820 table; the first fatal condition stops it. */
  method BuildBootParams(bp: BootParams, image: seq<u8>, args: BootArgs, rd: Ramdisk,
                         tables: seq<ConfigTable>, memoryMap: seq<u8>) returns (status: Status)
    requires bp.Valid() && Loadable(image) && MapDescribed(args, memoryMap)
    modifies bp.page, bp.e820, bp.e820.entries
    ensures bp.Valid() && status == LoadStatus(image, args, tables, memoryMap)
    ensures status == Halted(LoadsLow) ==> bp.page[..] == PatchedHeader(image, args.cmdLine)
    ensures status == Halted(NoAcpiTable) ==> bp.page[..] == VideoPage(image, args, rd)
    ensures status == Halted(TooManyEntries) ==>
      bp.page[..] == BootPage(image, args, rd, Rsdp(tables).value)
    ensures status == Running ==>
      var t := FilledTable(memoryMap, args.efiMemoryMapSize, args.efiMemoryDescriptorSize).value;
      bp.e820.Contents() == t &&
      bp.page[..] == Put(BootPage(image, args, rd, Rsdp(tables).value), E820_ENTRIES, 1, |t|)
  {
    CopyHeader(bp, image);
    PatchHeader(bp, args.cmdLine);
    PatchedLoadflags(image, args.cmdLine);
    if bp.page[LOADFLAGS] % 2 == 0 {
      return Halted(LoadsLow);
    }
    status := DescribeMachine(bp, image, args, rd, tables, memoryMap);
  }

  /** The rest of the zero page for a kernel that loads high: the boot
      information, the ACPI root pointer, `efi_info` and the E820 table. */
  method DescribeMachine(bp: BootParams, image: seq<u8>, args: BootArgs, rd: Ramdisk,
                         tables: seq<ConfigTable>, memoryMap: seq<u8>) returns (status: Status)
    requires bp.Valid() && Loadable(image) && MapDescribed(args, memoryMap) && LoadsHigh(image)
    requires bp.page[..] == PatchedHeader(image, args.cmdLine)
    modifies bp.page, bp.e820, bp.e820.entries
    ensures bp.Valid() && status == LoadStatus(image, args, tables, memoryMap) && status != Halted(LoadsLow)
    ensures status == Halted(NoAcpiTable) ==> bp.page[..] == VideoPage(image, args, rd)
    ensures status == Halted(TooManyEntries) ==>
      bp.page[..] == BootPage(image, args, rd, Rsdp(tables).value)
    ensures status == Running ==>
      var t := FilledTable(memoryMap, args.efiMemoryMapSize, args.efiMemoryDescriptorSize).value;
      bp.e820.Contents() == t &&
      bp.page[..] == Put(BootPage(image, args, rd, Rsdp(tables).value), E820_ENTRIES, 1, |t|)
  {
    SetBootInfo(bp, image, args, rd);
    status := DescribeFirmware(bp, args, tables, memoryMap);
  }

  /** The ACPI lookup, `efi_info` and `fill_e820map`, on the page as the
      frame buffer step left it. */
  method DescribeFirmware(bp: BootParams, args: BootArgs, tables: seq<ConfigTable>,
                          memoryMap: seq<u8>) returns (status: Status)
    requires bp.Valid() && MapDescribed(args, memoryMap)
    modifies bp.page, bp.e820, bp.e820.entries
    ensures bp.Valid() && status == FirmwareStatus(args, tables, memoryMap)
    ensures status == Halted(NoAcpiTable) ==> bp.page[..] == old(bp.page[..])
    ensures status == Halted(TooManyEntries) ==>
      bp.page[..] == FirmwarePage(old(bp.page[..]), args, Rsdp(tables).value)
    ensures status == Running ==>
      var t := FilledTable(memoryMap, args.efiMemoryMapSize, args.efiMemoryDescriptorSize).value;
      bp.e820.Contents() == t &&
      bp.page[..] == Put(FirmwarePage(old(bp.page[..]), args, Rsdp(tables).value), E820_ENTRIES, 1, |t|)
  {
    var rsdp;
    status, rsdp := AcpiGetRsdp(tables);
    if status.Halted? {
      return;
    }
    SetFirmwareInfo(bp, args, rsdp);
    ghost var filled := FilledTable(memoryMap, args.efiMemoryMapSize, args.efiMemoryDescriptorSize);
    status := FillE820Map(bp, memoryMap);
    assert status == if filled.Some? then Running else Halted(TooManyEntries);
  }

  /** `LoadLinux`: move the protected-mode payload to 1 MiB, build the zero
      page, and jump into the kernel unless a fatal condition was met. */
  method LoadLinux(m: Machine, image: seq<u8>, args: BootArgs, rd: Ramdisk,
                   tables: seq<ConfigTable>, memoryMap: seq<u8>) returns (status: Status)
    requires m.Valid() && !m.entered && Loadable(image) && MapDescribed(args, memoryMap)
    modifies m, m.params.page, m.params.e820, m.params.e820.entries
    ensures m.Valid() && m.kernel == image[PayloadOffset(image)..] && |m.kernel| == PayloadLength(image)
    ensures status == LoadStatus(image, args, tables, memoryMap)
    ensures m.entered <==> status.Running?
    ensures status == Halted(LoadsLow) ==> m.params.page[..] == PatchedHeader(image, args.cmdLine)
    ensures status == Halted(NoAcpiTable) ==> m.params.page[..] == VideoPage(image, args, rd)
    ensures status == Halted(TooManyEntries) ==>
      m.params.page[..] == BootPage(image, args, rd, Rsdp(tables).value)
    ensures status == Running ==>
      var t := FilledTable(memoryMap, args.efiMemoryMapSize, args.efiMemoryDescriptorSize).value;
      m.params.e820.Contents() == t &&
      m.params.page[..] == Put(BootPage(image, args, rd, Rsdp(tables).value), E820_ENTRIES, 1, |t|)
  {
    var offset := (image[SETUP_SECTS] as int + 1) * SECTOR_SIZE;
    var length := Sub32(|image|, offset);
    m.kernel := image[offset..offset + length];
    assert m.kernel == image[PayloadOffset(image)..];

    status := BuildBootParams(m.params, image, args, rd, tables, memoryMap);
    if status == Running {
      m.Commit();
    }
  }

  /** The kernel checks of `WrapperInit`: a missing `__vmlinuz` section and
      an image without "HdrS" are fatal before anything is written; a
      missing ramdisk is not. */
  method WrapperInit(m: Machine, image: seq<u8>, args: BootArgs, rd: Ramdisk,
                     tables: seq<ConfigTable>, memoryMap: seq<u8>) returns (status: Status)
    requires m.Valid() && !m.entered && |image| < TWO_32
    requires |image| == 0 || HEADER_MAGIC + 4 <= |image|
    requires |image| != 0 && HasLinuxSignature(image) ==> Loadable(image) && MapDescribed(args, memoryMap)
    modifies m, m.params.page, m.params.e820, m.params.e820.entries
    ensures m.Valid() && (m.entered <==> status.Running?)
    ensures |image| == 0 ==> status == Halted(KernelNotFound)
    ensures |image| != 0 && !HasLinuxSignature(image) ==> status == Halted(NotLinuxKernel)
    ensures |image| == 0 || !HasLinuxSignature(image) ==>
      m.kernel == old(m.kernel) && m.params.page[..] == old(m.params.page[..])
    ensures |image| != 0 && HasLinuxSignature(image) ==>
      status == LoadStatus(image, args, tables, memoryMap) && m.kernel == image[PayloadOffset(image)..]
  {
    if |image| == 0 {
      return Halted(KernelNotFound);
    }
    var signature := Decode(image[HEADER_MAGIC..HEADER_MAGIC + 4]);
    if signature != HDRS_MAGIC {
      return Halted(NotLinuxKernel);
    }
    status := LoadLinux(m, image, args, rd, tables, memoryMap);
  }
}
