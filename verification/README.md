# Apple TV Linux loader: a Dafny model of the zero-page builder

This project models the core of the Linux loader for the original Apple TV:
the code that runs after the Mach boot loader has handed over its boot
arguments, finds the embedded kernel image, checks its "HdrS" header, moves
the protected-mode payload to 1 MiB and builds `struct boot_params` (the
"zero page" of the Linux/x86 boot protocol) before jumping into the kernel.

- `bytes.dfy` (`Bytes`): unsigned widths, u32/u64 wrap-around arithmetic,
  little-endian encoding and decoding of fields.
- `status.dfy` (`Status`): how a boot ends. A `fatal` call never returns, so
  each fatal condition is a `Halted(reason)` outcome.
- `e820.dfy` (`E820`): the 128-slot E820 table and `add_memory_region`, as a
  class over an array with an entry count, specified by the pure `Added`.
- `zeropage.dfy` (`ZeroPage`): the 4096-byte zero page as a byte array, its
  field offsets, and C field assignment (`Put`, and `Applied` for a sequence
  of assignments).
- `memorymap.dfy` (`MemoryMap`): `fill_e820map`. It walks the firmware's
  memory descriptors in raw bytes at the firmware's stride, translates each
  EFI memory type and applies the 640 KiB – 1 MiB hole fix-up. The loop is
  modelled as written, including the `continue` that skips the pointer
  advance. It is specified by the recursive `Walk`.
- `memorymap_facts.dfy` (`MemoryMapFacts`): what that loop reports on a
  whole map, the loop as evidently intended (`WalkFixed`), and the
  properties of both (see Findings).
- `acpi.dfy` (`Acpi`): `AcpiGetRsdp`, the scan of the EFI configuration
  tables for the ACPI 2.0 or ACPI 1.0 root pointer.
- `loader.dfy` (`Loader`): `WrapperInit`'s kernel checks and `LoadLinux` up
  to and including `fill_e820map`. The page each step builds is a function
  of the inputs (`PatchedHeader`, `FlagsPage`, `VideoPage`, `BootPage`). The
  final hand-off is `Machine.Commit`.
- `loader_facts.dfy` (`LoaderFacts`): what the built zero page holds, field
  by field.

Two behaviours of the code deserve a note:

- Without a ramdisk, `ramdisk_image` and `ramdisk_size` keep the bytes the
  header copy placed there (loader.c:166-171).
- After the `continue` at memory.c:97, `p` is not advanced, so the next
  iteration reads the same descriptor again (see Findings).

## Model

| member | source | states |
|---|---|---|
| E820.Added | memory.c:22-37 | the add fails exactly when all 128 slots are taken; otherwise the table grows by at most one entry and stays within 128 |
| E820.Continues | memory.c:29-30 | the merge test: the region starts where the last entry ends (u64 sum, so it wraps) and has its type; its effect is stated by `E820.AddedEndsWithRegion` and `E820.AddedKeepsCoalesced` |
| E820.AddedKeepsCoalesced | memory.c:29-36 | an add never leaves an entry that should have been merged into the one before it |
| E820.AddedEndsWithRegion | memory.c:29-36 | an append keeps every entry and adds exactly the region; a merge keeps all entries but the last, and grows the last by the region's size (u64) without moving its start; either way the last entry ends where the region ends and has its type |
| E820.AddedCovers | memory.c:29-36 | the table after an add holds exactly the addresses it held before plus those of the region, when no u64 sum wraps |
| E820.E820Table.Reset | memory.c:43 | `e820_nr_map = 0` leaves an empty, valid table |
| E820.E820Table.AddMemoryRegion | memory.c:16-38 | the in-place update: fatal with the table unchanged when full; otherwise the new contents are `Added(old contents, region)` and the table stays coalesced |
| ZeroPage.ReadPut | loader.c:155-158 | a stored field reads back as the stored value cut to the field width |
| ZeroPage.BootParams.Store | loader.c:140-144 | a memset/memcpy into the page writes exactly those bytes at that offset and leaves the rest alone |
| ZeroPage.BootParams.Set | loader.c:155-158 | a field assignment is the little-endian store of the value at the field's offset and width |
| MemoryMap.Parse | memory.c:53-59 | the type, physical start and page count are exactly the little-endian bytes at offsets 0, 8 and 24 of the descriptor |
| MemoryMap.DescriptorAt | memory.c:52-53 | the descriptor whose bytes start at the walk pointer; tied to the pointer by `MemoryMap.MapDescriptorAt` |
| MemoryMap.PageBytes | memory.c:59 | `num_pages << 12` on UINT64 is page-aligned, and is the exact byte count when that fits in 64 bits |
| MemoryMap.RamStep | memory.c:81-104 | the usable-RAM arm: every region it adds is E820_RAM, and it stops short of the pointer advance exactly when the region starts below 1 MiB and ends above 640 KiB but not above 1 MiB; `MemoryMapFacts.DescriptorStepCovers` states which addresses it keeps |
| MemoryMap.DescriptorStep | memory.c:53-121 | the switch: every region it adds has the type `Classify` gives the descriptor, and only a usable type can skip the advance; `MemoryMapFacts.ContinueIff` and `MemoryMapFacts.DescriptorStepCovers` state the rest |
| MemoryMap.AddAll | memory.c:90-104 | the calls to `add_memory_region` of one arm, in order, stopping at the first fatal one; the table never shrinks and stays within 128 entries |
| MemoryMap.Walk | memory.c:51-124 | the loop as written, iteration `i` reading descriptor `k`; the table never shrinks and stays within 128 entries; `MemoryMap.WalkMap` is proved against it and the `MemoryMapFacts.Stuck*` lemmas state what it does after a `continue` |
| MemoryMap.Visit | memory.c:52-123 | one iteration of `Walk`: the regions of the current descriptor, then the rest of the loop from where the pointer is left |
| MemoryMap.FilledTable | memory.c:41-125 | the table the whole loop builds from the recorded size and stride, or None on overflow; `MemoryMap.FillE820Map` is proved against it |
| MemoryMap.Classify | memory.c:53-121 | the switch: ACPI reclaim gives E820_ACPI, ACPI NVS gives E820_NVS, the five usable types give E820_RAM, and the listed reserved types and every unknown type give E820_RESERVED, each as an if-and-only-if |
| MemoryMap.MapDescriptors | memory.c:48-51 | the map is a list of `efi_memmap_size / efi_memdesc_size` descriptors spaced `efi_memdesc_size` bytes apart; the loop runs once per entry |
| MemoryMap.WholeDescriptors | memory.c:48 | those descriptors lie within the recorded map size |
| MemoryMap.MapDescriptorAt | memory.c:51-52 | the descriptor at `k` strides from the map start is the `k`-th the walk reads |
| MemoryMap.AddDescriptor | memory.c:52-122 | one pass of the loop body adds exactly the regions `DescriptorStep` gives, stops at the first fatal add, and reports the `continue` as no advance |
| MemoryMap.Iterate | memory.c:51-123 | one iteration keeps the rest of the walk equal to the walk from before it |
| MemoryMap.WalkMap | memory.c:43-124 | the loop, with `continue` skipping the advance of `p`, builds the table `FilledTable` gives, or fails with TooManyEntries exactly when that is None |
| MemoryMap.FillE820Map | memory.c:41-126 | `fill_e820map` on the zero page: the table built from the recorded map size and stride, `e820_entries` set to its length, and the page unchanged on a fatal add |
| MemoryMapFacts.ContinueIff | memory.c:81-98 | the `continue` is taken exactly for usable RAM that starts below 1 MiB and ends above 640 KiB but not above 1 MiB |
| MemoryMapFacts.StuckWalkRepeats | memory.c:96-97 | as written, once a descriptor takes the `continue`, every remaining iteration adds its regions again and no later descriptor is read |
| MemoryMapFacts.StuckLowDuplicates | memory.c:85-98 | as written, the stuck descriptor's part below 640 KiB is added once per remaining iteration as duplicate entries, until the table overflows |
| MemoryMapFacts.StuckExample | memory.c:96-123 | as written, a map of [0, 1 MiB) and [1 MiB, 2 MiB) yields [0, 640 KiB) twice and loses the memory from 1 MiB up |
| MemoryMapFacts.WalkAgrees | memory.c:51-123 | where no descriptor takes the `continue`, the loop as written and the loop as intended build the same table |
| MemoryMapFacts.DescriptorStepCovers | memory.c:53-121 | one descriptor's regions hold exactly its range, less the 640 KiB – 1 MiB hole when it is usable RAM, and none of them wraps |
| MemoryMapFacts.WalkFixed | memory.c:51-124 | the loop as evidently intended, each descriptor read once in order; specified by `MemoryMapFacts.FixedCovers`, `MemoryMapFacts.FixedCoalesced` and `MemoryMapFacts.WalkAgrees` |
| MemoryMapFacts.FixedCovers | memory.c:51-124 | as intended, the table reports exactly the addresses some descriptor of the map should contribute |
| MemoryMapFacts.FixedCoalesced | memory.c:29-36 | as intended, the built table never holds an entry that should have been merged into the one before it |
| MemoryMapFacts.FilledWithoutContinue | memory.c:41-126 | on a map where no descriptor takes the `continue`, `fill_e820map`'s table equals the intended one, reports exactly the addresses the descriptors contribute, and is coalesced |
| MemoryMapFacts.FixedExample | memory.c:85-105 | as intended, the two-descriptor map yields [0, 640 KiB) and [1 MiB, 2 MiB) |
| Acpi.LastTable | loader.c:107-115 | the variable the scan leaves for one GUID; specified by `Acpi.LastTableIsLastMatch` |
| Acpi.Rsdp | loader.c:117-127 | the ACPI 2.0 table if nonzero, else the ACPI 1.0 table if nonzero, else the fatal case; specified by `Acpi.RsdpPrefersAcpi20`, `Acpi.RsdpFallsBackToAcpi10` and `Acpi.RsdpNone` |
| Acpi.LastTableIsLastMatch | loader.c:107-115 | the scan variable for a GUID is the table of the last matching entry, and 0 when none matches |
| Acpi.RsdpPrefersAcpi20 | loader.c:118-120 | a nonzero last ACPI 2.0 entry is chosen, whatever ACPI 1.0 entries there are |
| Acpi.RsdpFallsBackToAcpi10 | loader.c:121-123 | without a nonzero ACPI 2.0 entry, a nonzero last ACPI 1.0 entry is chosen |
| Acpi.LastMatchExists | loader.c:107-115 | some entry matches a GUID exactly when a last one does |
| Acpi.RsdpNone | loader.c:117-127 | the lookup is fatal exactly when neither GUID has a nonzero last entry; a returned pointer is never NULL |
| Acpi.AcpiGetRsdp | loader.c:96-128 | the loop over the configuration tables returns `Rsdp(tables)` and is fatal (NoAcpiTable) exactly when that is None |
| Bytes.Sub32 | loader.c:134 | `real_kernel_len` is the u32 difference, wrapped modulo 2^32 |
| Loader.HasLinuxSignature | loader.c:266-267 | the u32 at 0x202 is 'SrdH'; `LoaderFacts.SignatureIsHdrS` states it means the bytes "HdrS" |
| Loader.SetupHeaderEnd | loader.c:143 | `kernel_ptr[0x201] + 0x202`; `Loader.CopiedHeader` states the copy it bounds |
| Loader.PayloadOffset | loader.c:134-137 | `(setup_sects + 1) * 512`, where the payload starts; `Loader.LoadLinux` states the copy from it |
| Loader.PayloadLength | loader.c:134 | `real_kernel_len`, the u32 difference stated by `Bytes.Sub32`; `Loader.LoadLinux` states the copied length |
| Loader.CopiedLoadflags | loader.c:143-160 | `loadflags` as the header copy leaves it: the image's byte at 0x211 when the copy reaches it, else 0; `Loader.PatchedLoadflags` states that the test reads it |
| Loader.LoadsHigh | loader.c:160-162 | LOADED_HIGH, bit 0 of the copied `loadflags`; `Loader.BuildBootParams` halts with LoadsLow exactly when it is clear |
| Loader.LoadStatus | loader.c:160-206 | the order of the fatal exits of `LoadLinux`: LoadsLow first, then those of `FirmwareStatus`; `Loader.LoadLinux` returns it |
| Loader.FirmwareStatus | loader.c:193-206 | NoAcpiTable before TooManyEntries, else the jump; `Loader.DescribeFirmware` returns it |
| Loader.CopiedHeader | loader.c:140-144 | the zeroed page holds the image's bytes [0x1F1, image[0x201] + 0x202) at the same offsets and zero everywhere else |
| Loader.ClearQuiet | loader.c:164 | clearing QUIET_FLAG clears bit 5 and keeps every other bit of `loadflags`, LOADED_HIGH among them |
| Loader.PatchedLoadflags | loader.c:155-160 | the header patches leave `loadflags` as the header copy left it, so the LOADED_HIGH test reads the image's flag |
| Loader.EfiInfoFields | loader.c:196-203 | `efi_info` holds "EL32" and the firmware's systab, memmap, memmap size, descriptor size and descriptor version unchanged |
| Loader.EfiField | loader.c:199-203 | each u32 `efi_info` value reads back unchanged |
| Loader.Machine.Commit | loader.c:209-226 | the hand-off marks the kernel entered and changes nothing else |
| Loader.CopyHeader | loader.c:139-144 | the memset and header memcpy leave the page equal to `CopiedHeader(image)` |
| Loader.PatchHeader | loader.c:154-158 | the three header assignments, in source order |
| Loader.SetRamdisk | loader.c:167-171 | `ramdisk_image` then `ramdisk_size` |
| Loader.SetScreenInfo | loader.c:174-191 | the fifteen `screen_info` assignments, in source order |
| Loader.SetEfiInfo | loader.c:195-203 | the signature and the five `efi_info` assignments, in source order |
| Loader.SetBootInfo | loader.c:164-191 | from the patched header, `loadflags`, the optional ramdisk and `screen_info` produce `VideoPage` |
| Loader.SetFirmwareInfo | loader.c:193-203 | the RSDP address and `efi_info` are stored, after which the page records the firmware's map size and descriptor size |
| Loader.BuildBootParams | loader.c:139-206 | the page built up to `fill_e820map`, with the outcome `LoadStatus` and, for each fatal outcome, the page as it stood when the boot halted |
| Loader.DescribeMachine | loader.c:164-206 | for a kernel that loads high, the rest of the page is built and the outcome is never LoadsLow |
| Loader.DescribeFirmware | loader.c:193-206 | a missing ACPI table halts with the page untouched; otherwise `efi_info` is written, then the E820 table, whose overflow halts |
| Loader.LoadLinux | loader.c:131-227 | the payload at 1 MiB is the image from `(setup_sects + 1) * 512` on, of `real_kernel_len` bytes; the zero page is as `BuildBootParams` says; the kernel is entered exactly when no fatal condition was met |
| Loader.WrapperInit | loader.c:254-270 | an empty kernel section and a missing "HdrS" are fatal with nothing written; otherwise the outcome is that of `LoadLinux` |
| LoaderFacts.SignatureIsHdrS | loader.c:266-267 | the u32 test against 'SrdH' accepts exactly the images whose bytes at 0x202 spell "HdrS" |
| LoaderFacts.PatchedHeaderFields | loader.c:155-158 | `cmd_line_ptr` is the command line address, `vid_mode` is 0xFFFF and `type_of_loader` is 0xFF |
| LoaderFacts.FlagsPageLoadflags | loader.c:160-164 | the kernel receives the copied `loadflags` with QUIET_FLAG cleared |
| LoaderFacts.FlagsPageElsewhere | loader.c:154-164 | the header patches touch no byte outside `vid_mode`, `type_of_loader`, `loadflags` and `cmd_line_ptr` |
| LoaderFacts.RamdiskFields | loader.c:166-171 | with a ramdisk, its address and length are stored; without one, the fields keep the values copied from the image header |
| LoaderFacts.ScreenInfoElsewhere | loader.c:174-191 | the `screen_info` assignments stay inside [0x08, 0x3A) |
| LoaderFacts.ScreenField | loader.c:176-191 | every `screen_info` field, constants included, reads back as its assigned value cut to the field width |
| LoaderFacts.ScreenInfoGeometry | loader.c:178-183 | the frame buffer base, the size pitch × height (u32), the width pitch / 4, and the height, depth and line length (u16) |
| LoaderFacts.FirmwarePageElsewhere | loader.c:193-203 | the RSDP address and `efi_info` leave every other byte alone |
| LoaderFacts.FirmwarePageRsdp | loader.c:193 | `acpi_rsdp_addr` holds the pointer `AcpiGetRsdp` returned, widened to 64 bits |

## Left out

- Console output, `trace`, `debug_printf`, `warn`, `SetupScreen`, `SetupCmdline`, `print_e820_memory_map` and the version banner: they only produce output. This includes the ramdisk warning at loader.c:263-265 and the out-of-range `config_tables[i]` read inside the ACPI 1.0 trace at loader.c:122.
- The kernel version copy at loader.c:150-152 is left out: it only feeds a log line.
- The GDT copy, `lidt`/`lgdt`, the register set-up and the jump (loader.c:210-226) are the single step `Machine.Commit`. `fail()` after `LoadLinux` is unreachable once the jump is taken, and every fatal path ends in a `Halted` outcome.
- `GetSectionDataFromHeader`, the Mach boot-argument block, the EFI system table and the firmware memory map are inputs: the image bytes, a `Ramdisk`, `BootArgs`, a list of `ConfigTable`s and the map's bytes.
- `efi_guidcmp` is equality of `Guid` values. The GUID constants are those of section 4.6 of the UEFI Specification; the header that defines them is not part of this model.
- The `efi_memory_desc_t` layout (type at 0, physical start at 8, page count at 24, 40 bytes), the EFI memory type numbers and the page size of 4 KiB (`EFI_PAGE_SHIFT` = 12) follow section 7.2 of the UEFI Specification; the header that defines them is not part of this model. `NextEFIMemoryDescriptor` is a step of `efi_memdesc_size` bytes.
- The E820 table is kept as its own array of entries; its byte image at offset 0x2D0 of the zero page is not modelled.
- The physical memory at 1 MiB is the field `Machine.kernel`, the slice the `memcpy` copies; aliasing with the zero page or the image is not modelled.
- The widths of the boot-argument fields (command line, frame buffer base, pitch, height, depth, the EFI system table, memory map, sizes and version) and of `efi_config_table_t.table` are taken as u32: the headers that declare them are not part of this model. This width decides the wrap of `pitch * height` and the value stored in `acpi_rsdp_addr`.
- `Video.Width` of the boot arguments is not read by the loader and is not in the model.
- Loader.LoadLinux: requires `Loadable(image)`, so the header copy and the payload lie inside the image. The source does not check this. When the image is shorter than `(setup_sects + 1) * 512`, `real_kernel_len` wraps and the copy reads past the image, which the model cannot express.
- Loader.WrapperInit: requires a nonempty image to be at least 0x206 bytes long, so the signature read at 0x202 lies inside it, and requires the same of a signed image as `LoadLinux`.
- Loader.LoadLinux: requires `MapDescribed`, a descriptor stride of at least 40 bytes and a map as long as recorded. `fill_e820map` does not check this; with a smaller stride the descriptors would overlap.
- Loader.CopiedHeader: the copy length `image[0x201] + 0x202 - 0x1F1` can exceed `struct setup_header` and run past it into the rest of the zero page. The model copies the bytes as the code does; it does not bound the copy by the header's size.
- LoaderFacts.ScreenField: the constant `screen_info` fields (capabilities, flags, the RGB layout and `orig_video_isVGA`) are stated by this generic read-back over the assignment list, not in a lemma of their own per field.

## Findings

| source | as written | input that shows it | evidently intended | confidence | as-written member | corrected member |
|---|---|---|---|---|---|---|
| memory.c:96-98, 123 | the `continue` in the hole fix-up skips the advance of `p`, so every later iteration re-reads the same descriptor and the descriptors after it are never translated | a map of two conventional-memory descriptors, [0, 1 MiB) and [1 MiB, 2 MiB): the table lists [0, 640 KiB) twice and nothing from 1 MiB up | every iteration moves to the next descriptor, giving [0, 640 KiB) and [1 MiB, 2 MiB), and the table covers exactly the usable memory outside the hole | not executed | MemoryMapFacts.StuckExample | MemoryMapFacts.FixedCovers |

The loader model (`MemoryMap.FillE820Map`, `Loader.LoadLinux`) keeps the
code as written, since it models what the loader does.
`MemoryMapFacts.FilledWithoutContinue` shows that, on every map where no
descriptor takes the `continue`, that table is the corrected one and has the
corrected table's properties.
