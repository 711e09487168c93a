/** `struct boot_params`, the 4096-byte "zero page" of the Linux/x86 boot
    protocol, as a byte buffer with the field offsets the loader uses. The
    E820 table inside it (offset 0x2D0) is kept as its own entry array. */
module ZeroPage {
  import opened Bytes
  import opened E820

  const BOOT_PARAMS_SIZE: nat := 4096

  // struct screen_info, at offset 0x000
  const SI_FLAGS: nat := 0x08              // u8
  const SI_ORIG_VIDEO_ISVGA: nat := 0x0F   // u8
  const SI_LFB_WIDTH: nat := 0x12          // u16
  const SI_LFB_HEIGHT: nat := 0x14         // u16
  const SI_LFB_DEPTH: nat := 0x16          // u16
  const SI_LFB_BASE: nat := 0x18           // u32
  const SI_LFB_SIZE: nat := 0x1C           // u32
  const SI_LFB_LINELENGTH: nat := 0x24     // u16
  const SI_RED_SIZE: nat := 0x26           // u8 each, up to blue_pos
  const SI_RED_POS: nat := 0x27
  const SI_GREEN_SIZE: nat := 0x28
  const SI_GREEN_POS: nat := 0x29
  const SI_BLUE_SIZE: nat := 0x2A
  const SI_BLUE_POS: nat := 0x2B
  const SI_CAPABILITIES: nat := 0x36       // u32

  const ACPI_RSDP_ADDR: nat := 0x070       // u64

  // struct efi_info, at offset 0x1C0; all u32
  const EFI_LOADER_SIGNATURE: nat := 0x1C0
  const EFI_SYSTAB: nat := 0x1C4
  const EFI_MEMDESC_SIZE: nat := 0x1C8
  const EFI_MEMDESC_VERSION: nat := 0x1CC
  const EFI_MEMMAP: nat := 0x1D0
  const EFI_MEMMAP_SIZE: nat := 0x1D4

  const E820_ENTRIES: nat := 0x1E8         // u8

  // struct setup_header, at offset 0x1F1 both in boot_params and in the
  // kernel image
  const HDR: nat := 0x1F1
  const SETUP_SECTS: nat := 0x1F1          // u8
  const VID_MODE: nat := 0x1FA             // u16
  const JUMP_OFFSET: nat := 0x201          // u8: second byte of the 2-byte jump at 0x200
  const HEADER_MAGIC: nat := 0x202         // u32
  const TYPE_OF_LOADER: nat := 0x210       // u8
  const LOADFLAGS: nat := 0x211            // u8
  const RAMDISK_IMAGE: nat := 0x218        // u32
  const RAMDISK_SIZE: nat := 0x21C         // u32
  const CMD_LINE_PTR: nat := 0x228         // u32

  /** The value of the `width`-byte field at `off`. */
  function Field(page: seq<u8>, off: nat, width: nat): nat
    requires off + width <= |page|
  {
    Decode(page[off..off + width])
  }

  /** `page` after the C assignment of `v` to the `width`-byte field at
      `off`. */
  function Put(page: seq<u8>, off: nat, width: nat, v: nat): (r: seq<u8>)
    requires off + width <= |page|
    ensures |r| == |page|
  {
    Write(page, off, Encode(v, width))
  }

  /** A stored field reads back as the stored value cut to the field
      width. */
  lemma ReadPut(page: seq<u8>, off: nat, width: nat, v: nat)
    requires off + width <= |page|
    ensures Field(Put(page, off, width, v), off, width) == v % Pow256(width)
  {
    assert Put(page, off, width, v)[off..off + width] == Encode(v, width);
    DecodeEncodeMod(v, width);
  }

  /** A store leaves every byte range that it does not overlap as it was. */
  lemma PutElsewhere(page: seq<u8>, off: nat, width: nat, v: nat, off2: nat, width2: nat)
    requires off + width <= |page| && off2 + width2 <= |page|
    requires off + width <= off2 || off2 + width2 <= off
    ensures Put(page, off, width, v)[off2..off2 + width2] == page[off2..off2 + width2]
  {
  }

  /** Two pages that agree on a byte range agree on every field inside it. */
  lemma FieldsAgree(p: seq<u8>, q: seq<u8>, lo: nat, hi: nat, off: nat, width: nat)
    requires lo <= off && off + width <= hi <= |p| && hi <= |q|
    requires p[lo..hi] == q[lo..hi]
    ensures Field(p, off, width) == Field(q, off, width)
  {
    var a, b := p[off..off + width], q[off..off + width];
    forall t | 0 <= t < width
      ensures a[t] == b[t]
    {
      assert p[lo..hi][off - lo + t] == q[lo..hi][off - lo + t];
    }
    assert a == b;
  }

  /** One C assignment `field = value` to the `width`-byte field at `off`. */
  datatype Assign = Assign(off: nat, width: nat, value: nat)

  /** Every assignment of `ss` stays inside an `n`-byte page. */
  predicate InPage(ss: seq<Assign>, n: nat)
  {
    forall i :: 0 <= i < |ss| ==> ss[i].off + ss[i].width <= n
  }

  /** Assignment `a` does not touch the bytes [off, off + width). */
  predicate Apart(a: Assign, off: nat, width: nat)
  {
    a.off + a.width <= off || off + width <= a.off
  }

  /** `page` after the first `k` assignments of `ss`, in order. */
  function Applied(page: seq<u8>, ss: seq<Assign>, k: nat): (r: seq<u8>)
    requires InPage(ss, |page|) && k <= |ss|
    ensures |r| == |page|
  {
    if k == 0 then page else
    var a := ss[k - 1];
    Put(Applied(page, ss, k - 1), a.off, a.width, a.value)
  }

  /** Assignments that stay clear of a byte range leave it as it was. */
  lemma {:induction false} AppliedElsewhere(page: seq<u8>, ss: seq<Assign>, k: nat, off: nat, width: nat)
    requires InPage(ss, |page|) && k <= |ss| && off + width <= |page|
    requires forall j :: 0 <= j < k ==> Apart(ss[j], off, width)
    ensures Applied(page, ss, k)[off..off + width] == page[off..off + width]
  {
    if k > 0 {
      AppliedElsewhere(page, ss, k - 1, off, width);
      var a := ss[k - 1];
      PutElsewhere(Applied(page, ss, k - 1), a.off, a.width, a.value, off, width);
    }
  }

  /** A byte that no assignment writes keeps its value. */
  lemma {:induction false} UntouchedByte(page: seq<u8>, ss: seq<Assign>, k: nat, j: nat)
    requires InPage(ss, |page|) && k <= |ss| && j < |page|
    requires forall i :: 0 <= i < k ==> !(ss[i].off <= j < ss[i].off + ss[i].width)
    ensures Applied(page, ss, k)[j] == page[j]
  {
    if k > 0 {
      UntouchedByte(page, ss, k - 1, j);
    }
  }

  lemma {:induction false} AppliedBytes(page: seq<u8>, ss: seq<Assign>, k: nat, i: nat)
    requires InPage(ss, |page|) && i < k <= |ss|
    requires forall j :: i < j < k ==> Apart(ss[j], ss[i].off, ss[i].width)
    ensures Applied(page, ss, k)[ss[i].off..ss[i].off + ss[i].width] == Encode(ss[i].value, ss[i].width)
  {
    var a := ss[i];
    if k > i + 1 {
      AppliedBytes(page, ss, k - 1, i);
      var b := ss[k - 1];
      PutElsewhere(Applied(page, ss, k - 1), b.off, b.width, b.value, a.off, a.width);
    }
  }

  /** A field reads back as the value of the last assignment to it, cut to
      the field width, when no later assignment overlaps it. */
  lemma AppliedRead(page: seq<u8>, ss: seq<Assign>, k: nat, i: nat)
    requires InPage(ss, |page|) && i < k <= |ss|
    requires forall j :: i < j < k ==> Apart(ss[j], ss[i].off, ss[i].width)
    ensures Field(Applied(page, ss, k), ss[i].off, ss[i].width) == ss[i].value % Pow256(ss[i].width)
  {
    AppliedBytes(page, ss, k, i);
    DecodeEncodeMod(ss[i].value, ss[i].width);
  }

  /** The zero page being built, with the E820 table it embeds. */
  class BootParams {
    const page: array<u8>
    const e820: E820Table

    ghost predicate Valid()
      reads this, page, e820, e820.entries
    {
      page.Length == BOOT_PARAMS_SIZE && e820.Valid()
    }

    constructor ()
      ensures Valid() && fresh(page) && fresh(e820) && fresh(e820.entries)
    {
      page := new u8[BOOT_PARAMS_SIZE];
      e820 := new E820Table();
    }

    /** A store of the bytes `b` from offset `off` on: a memcpy, a memset or
        the assignment of a packed field. */
    method Store(off: nat, b: seq<u8>)
      requires off + |b| <= page.Length
      modifies page
      ensures page[..] == Write(old(page[..]), off, b)
    {
      forall j | 0 <= j < |b| {
        page[off + j] := b[j];
      }
    }

    /** The `k`-th assignment of `ss`, made after the first `k`. */
    method AssignNext(ghost p0: seq<u8>, ss: seq<Assign>, k: nat)
      requires Valid() && |p0| == BOOT_PARAMS_SIZE && InPage(ss, BOOT_PARAMS_SIZE) && k < |ss|
      requires page[..] == Applied(p0, ss, k)
      modifies page
      ensures Valid() && page[..] == Applied(p0, ss, k + 1)
    {
      Set(ss[k].off, ss[k].width, ss[k].value);
    }

    /** The assignment of `v` to the `width`-byte field at `off`. */
    method Set(off: nat, width: nat, v: nat)
      requires off + width <= page.Length
      modifies page
      ensures page[..] == Put(old(page[..]), off, width, v)
    {
      Store(off, Encode(v, width));
    }
  }
}
