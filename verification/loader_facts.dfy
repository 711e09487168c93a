/** What the zero page built by `LoadLinux` holds, field by field, and the
    meaning of the checks `WrapperInit` and `LoadLinux` make. */
module LoaderFacts {
  import opened Bytes
  import opened ZeroPage
  import opened Loader

  /** The signature test accepts exactly the images whose bytes at 0x202
      spell "HdrS". */
  lemma SignatureIsHdrS(image: seq<u8>)
    requires HEADER_MAGIC + 4 <= |image|
    ensures HasLinuxSignature(image) <==> image[HEADER_MAGIC..HEADER_MAGIC + 4] == HDRS
  {
    assert HDRS == Encode(HDRS_MAGIC, 4);
    DecodeEncodeMod(HDRS_MAGIC, 4);
    assert Pow256(4) == TWO_32;
    DecodeInjective(image[HEADER_MAGIC..HEADER_MAGIC + 4], HDRS);
  }

  /** After the header patches, `cmd_line_ptr` is the firmware command
      line, `vid_mode` is "normal" and `type_of_loader` is "undefined". */
  lemma PatchedHeaderFields(image: seq<u8>, cmdLine: u32)
    requires JUMP_OFFSET < |image| && SetupHeaderEnd(image) <= |image|
    ensures var p := PatchedHeader(image, cmdLine);
      Field(p, CMD_LINE_PTR, 4) == cmdLine &&
      Field(p, VID_MODE, 2) == VID_MODE_NORMAL &&
      Field(p, TYPE_OF_LOADER, 1) == LOADER_UNDEFINED
  {
    var p0, ss := CopiedHeader(image), HeaderPatches(cmdLine);
    assert |ss| == 3 && InPage(ss, BOOT_PARAMS_SIZE);
    assert Field(Applied(p0, ss, 3), CMD_LINE_PTR, 4) == cmdLine by {
      AppliedRead(p0, ss, 3, 0);
      FitsU32(cmdLine);
    }
    assert Field(Applied(p0, ss, 3), VID_MODE, 2) == VID_MODE_NORMAL by {
      AppliedRead(p0, ss, 3, 1);
      assert Pow256(2) == TWO_16;
    }
    assert Field(Applied(p0, ss, 3), TYPE_OF_LOADER, 1) == LOADER_UNDEFINED by {
      AppliedRead(p0, ss, 3, 2);
      assert Pow256(1) == TWO_8;
    }
  }

  /** `loadflags` as the kernel receives it: the copied byte with QUIET_FLAG
      cleared. */
  lemma FlagsPageLoadflags(image: seq<u8>, cmdLine: u32)
    requires JUMP_OFFSET < |image| && SetupHeaderEnd(image) <= |image|
    ensures FlagsPage(image, cmdLine)[LOADFLAGS] == ClearQuiet(CopiedLoadflags(image))
  {
    PatchedLoadflags(image, cmdLine);
    var p := PatchedHeader(image, cmdLine);
    var v := ClearQuiet(p[LOADFLAGS]);
    assert Encode(v, 1)[0] == v;
    assert FlagsPage(image, cmdLine)[LOADFLAGS..LOADFLAGS + 1] == Encode(v, 1);
  }

  /** The header patches and the `loadflags` update leave every byte
      outside `vid_mode`, `type_of_loader`, `loadflags` and `cmd_line_ptr`
      as the copy left it. */
  lemma FlagsPageElsewhere(image: seq<u8>, cmdLine: u32, off: nat, width: nat)
    requires JUMP_OFFSET < |image| && SetupHeaderEnd(image) <= |image|
    requires off + width <= BOOT_PARAMS_SIZE
    requires off + width <= VID_MODE ||
             (VID_MODE + 2 <= off && off + width <= TYPE_OF_LOADER) ||
             (LOADFLAGS + 1 <= off && off + width <= CMD_LINE_PTR) ||
             CMD_LINE_PTR + 4 <= off
    ensures FlagsPage(image, cmdLine)[off..off + width] == CopiedHeader(image)[off..off + width]
  {
    var ss := HeaderPatches(cmdLine);
    assert |ss| == 3 && InPage(ss, BOOT_PARAMS_SIZE);
    AppliedElsewhere(CopiedHeader(image), ss, 3, off, width);
    var p := PatchedHeader(image, cmdLine);
    PutElsewhere(p, LOADFLAGS, 1, ClearQuiet(p[LOADFLAGS]), off, width);
  }

  /** The `screen_info` assignments stay inside [0x08, 0x3A). */
  lemma ScreenInfoElsewhere(p: seq<u8>, v: Video, off: nat, width: nat)
    requires |p| == BOOT_PARAMS_SIZE && off + width <= BOOT_PARAMS_SIZE
    requires off + width <= SI_FLAGS || SI_CAPABILITIES + 4 <= off
    ensures Applied(p, ScreenAssigns(v), 15)[off..off + width] == p[off..off + width]
  {
    var ss := ScreenAssigns(v);
    assert |ss| == 15 && InPage(ss, BOOT_PARAMS_SIZE);
    forall j | 0 <= j < 15
      ensures Apart(ss[j], off, width)
    {
      assert SI_FLAGS <= ss[j].off && ss[j].off + ss[j].width <= SI_CAPABILITIES + 4;
    }
    AppliedElsewhere(p, ss, 15, off, width);
  }

  /** The RSDP address and `efi_info` leave every other byte alone. */
  lemma FirmwarePageElsewhere(p: seq<u8>, args: BootArgs, rsdp: u32, off: nat, width: nat)
    requires |p| == BOOT_PARAMS_SIZE && off + width <= BOOT_PARAMS_SIZE
    requires off + width <= ACPI_RSDP_ADDR ||
             (ACPI_RSDP_ADDR + 8 <= off && off + width <= EFI_LOADER_SIGNATURE) ||
             EFI_MEMMAP_SIZE + 4 <= off
    ensures FirmwarePage(p, args, rsdp)[off..off + width] == p[off..off + width]
  {
    var ss := EfiAssigns(args);
    assert |ss| == 6 && InPage(ss, BOOT_PARAMS_SIZE);
    var q := Put(p, ACPI_RSDP_ADDR, 8, rsdp);
    PutElsewhere(p, ACPI_RSDP_ADDR, 8, rsdp, off, width);
    AppliedElsewhere(q, ss, 6, off, width);
  }

  /** `acpi_rsdp_addr` holds the pointer `AcpiGetRsdp` returned, widened
      to 64 bits. */
  lemma FirmwarePageRsdp(p: seq<u8>, args: BootArgs, rsdp: u32)
    requires |p| == BOOT_PARAMS_SIZE
    ensures Field(FirmwarePage(p, args, rsdp), ACPI_RSDP_ADDR, 8) == rsdp
  {
    var ss := EfiAssigns(args);
    assert |ss| == 6 && InPage(ss, BOOT_PARAMS_SIZE);
    var q := Put(p, ACPI_RSDP_ADDR, 8, rsdp);
    ReadPut(p, ACPI_RSDP_ADDR, 8, rsdp);
    assert Pow256(8) == TWO_64;
    AppliedElsewhere(q, ss, 6, ACPI_RSDP_ADDR, 8);
    FieldsAgree(FirmwarePage(p, args, rsdp), q, ACPI_RSDP_ADDR, ACPI_RSDP_ADDR + 8, ACPI_RSDP_ADDR, 8);
  }

  /** With a ramdisk, `ramdisk_image` and `ramdisk_size` are its address
      and length; without one they keep the values copied from the image
      header. */
  lemma RamdiskFields(image: seq<u8>, args: BootArgs, rd: Ramdisk)
    requires JUMP_OFFSET < |image| && SetupHeaderEnd(image) <= |image|
    ensures var q, c := VideoPage(image, args, rd), CopiedHeader(image);
      Field(q, RAMDISK_IMAGE, 4) == (if rd.length != 0 then rd.address else Field(c, RAMDISK_IMAGE, 4)) &&
      Field(q, RAMDISK_SIZE, 4) == (if rd.length != 0 then rd.length else Field(c, RAMDISK_SIZE, 4))
  {
    var p1 := FlagsPage(image, args.cmdLine);
    var rs := RamdiskAssigns(rd);
    assert |rs| == 2 && InPage(rs, BOOT_PARAMS_SIZE);
    var p2 := if rd.length != 0 then Applied(p1, rs, 2) else p1;
    var q := VideoPage(image, args, rd);
    ScreenInfoElsewhere(p2, args.video, RAMDISK_IMAGE, 8);
    FieldsAgree(q, p2, RAMDISK_IMAGE, RAMDISK_IMAGE + 8, RAMDISK_IMAGE, 4);
    FieldsAgree(q, p2, RAMDISK_IMAGE, RAMDISK_IMAGE + 8, RAMDISK_SIZE, 4);
    if rd.length != 0 {
      assert Field(p2, RAMDISK_IMAGE, 4) == rd.address by {
        AppliedRead(p1, rs, 2, 0);
        FitsU32(rd.address);
      }
      assert Field(p2, RAMDISK_SIZE, 4) == rd.length by {
        AppliedRead(p1, rs, 2, 1);
        FitsU32(rd.length);
      }
    } else {
      var c := CopiedHeader(image);
      FlagsPageElsewhere(image, args.cmdLine, RAMDISK_IMAGE, 8);
      FieldsAgree(p1, c, RAMDISK_IMAGE, RAMDISK_IMAGE + 8, RAMDISK_IMAGE, 4);
      FieldsAgree(p1, c, RAMDISK_IMAGE, RAMDISK_IMAGE + 8, RAMDISK_SIZE, 4);
    }
  }

  /** Every `screen_info` field reads back as the value assigned to it,
      cut to the field width: the constants of `ScreenAssigns` (capabilities
      3, flags 1, 8-bit red, green and blue at bits 16, 8 and 0, type 0x70)
      among them. */
  lemma ScreenField(p: seq<u8>, v: Video, i: nat)
    requires |p| == BOOT_PARAMS_SIZE && i < 15
    ensures var ss := ScreenAssigns(v);
      Field(Applied(p, ss, 15), ss[i].off, ss[i].width) == ss[i].value % Pow256(ss[i].width)
  {
    var ss := ScreenAssigns(v);
    assert |ss| == 15 && InPage(ss, BOOT_PARAMS_SIZE);
    forall j | i < j < 15
      ensures Apart(ss[j], ss[i].off, ss[i].width)
    {
    }
    AppliedRead(p, ss, 15, i);
  }

  /** The frame buffer's place and geometry as `screen_info` describes
      it: the firmware's values cut to the field widths, the width in pixels
      taken as a quarter of the pitch in bytes. */
  lemma ScreenInfoGeometry(p: seq<u8>, v: Video)
    requires |p| == BOOT_PARAMS_SIZE
    ensures var q := Applied(p, ScreenAssigns(v), 15);
      Field(q, SI_LFB_BASE, 4) == v.baseAddress &&
      Field(q, SI_LFB_SIZE, 4) == (v.pitch * v.height) % TWO_32 &&
      Field(q, SI_LFB_WIDTH, 2) == (v.pitch / 4) % TWO_16 &&
      Field(q, SI_LFB_HEIGHT, 2) == v.height % TWO_16 &&
      Field(q, SI_LFB_DEPTH, 2) == v.depth % TWO_16 &&
      Field(q, SI_LFB_LINELENGTH, 2) == v.pitch % TWO_16
  {
    ScreenField(p, v, 2);
    FitsU32(v.baseAddress);
    ScreenField(p, v, 3);
    FitsU32(Mul32(v.pitch, v.height));
    assert Pow256(2) == TWO_16;
    ScreenField(p, v, 4);
    ScreenField(p, v, 5);
    ScreenField(p, v, 6);
    ScreenField(p, v, 7);
  }
}
