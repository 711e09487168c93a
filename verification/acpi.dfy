/** `AcpiGetRsdp` (loader.c): the scan of the EFI system table's
    configuration tables for the ACPI root pointer handed to Linux. */
module Acpi {
  import opened Bytes
  import opened Status

  /** An EFI_GUID: a 32-bit, two 16-bit fields and eight bytes. `efi_guidcmp`
      is equality of these values. */
  datatype Guid = Guid(data1: u32, data2: u16, data3: u16, data4: seq<u8>)

  /** The vendor GUIDs of the ACPI 2.0 and ACPI 1.0 root pointers, as
      section 4.6 of the UEFI Specification lists them. */
  const ACPI_20_TABLE_GUID: Guid :=
    Guid(0x8868e871, 0xe4f1, 0x11d3, [0xbc, 0x22, 0x00, 0x80, 0xc7, 0x3c, 0x88, 0x81])
  const ACPI_TABLE_GUID: Guid :=
    Guid(0xeb9d2d30, 0x2d88, 0x11d3, [0x9a, 0x16, 0x00, 0x90, 0x27, 0x3f, 0xc1, 0x4d])

  /** One `efi_config_table_t` of a 32-bit system table: a vendor GUID and
      the address of that vendor's table. */
  datatype ConfigTable = ConfigTable(guid: Guid, table: u32)

  /** Entry `i` is the last entry of `ts` with vendor GUID `g`. */
  predicate LastMatch(ts: seq<ConfigTable>, g: Guid, i: int)
  {
    0 <= i < |ts| && ts[i].guid == g &&
    forall j :: i < j < |ts| ==> ts[j].guid != g
  }

  /** The value the scan leaves in its variable for GUID `g`: the table of
      the last matching entry, or the initial 0 when no entry matches. */
  function LastTable(ts: seq<ConfigTable>, g: Guid): u32
  {
    if |ts| == 0 then 0
    else if ts[|ts| - 1].guid == g then ts[|ts| - 1].table
    else LastTable(ts[..|ts| - 1], g)
  }

  /** The scan variable is the table of the last matching entry, and 0 when
      no entry matches. */
  lemma {:induction false} LastTableIsLastMatch(ts: seq<ConfigTable>, g: Guid)
    ensures (forall j :: 0 <= j < |ts| ==> ts[j].guid != g) ==> LastTable(ts, g) == 0
    ensures forall i :: LastMatch(ts, g, i) ==> LastTable(ts, g) == ts[i].table
  {
    if |ts| > 0 {
      var n := |ts| - 1;
      var init := ts[..n];
      LastTableIsLastMatch(init, g);
      forall i | LastMatch(ts, g, i)
        ensures LastTable(ts, g) == ts[i].table
      {
        if i < n {
          assert ts[n].guid != g && init[i] == ts[i];
          assert LastMatch(init, g, i);
        }
      }
    }
  }

  /** The pointer `AcpiGetRsdp` returns: the ACPI 2.0 table if the scan left
      a nonzero one, else the ACPI 1.0 table if nonzero, else None for the
      fatal "No ACPI table found". */
  function Rsdp(ts: seq<ConfigTable>): Option<u32>
  {
    var acpi20 := LastTable(ts, ACPI_20_TABLE_GUID);
    var acpi10 := LastTable(ts, ACPI_TABLE_GUID);
    if acpi20 != 0 then Some(acpi20)
    else if acpi10 != 0 then Some(acpi10)
    else None
  }

  /** A nonzero last ACPI 2.0 entry is chosen, whatever ACPI 1.0 entries
      there are. */
  lemma RsdpPrefersAcpi20(ts: seq<ConfigTable>, i: nat)
    requires LastMatch(ts, ACPI_20_TABLE_GUID, i) && ts[i].table != 0
    ensures Rsdp(ts) == Some(ts[i].table)
  {
    LastTableIsLastMatch(ts, ACPI_20_TABLE_GUID);
  }

  /** Without a nonzero last ACPI 2.0 entry, a nonzero last ACPI 1.0 entry is
      chosen. */
  lemma RsdpFallsBackToAcpi10(ts: seq<ConfigTable>, i: nat)
    requires forall j :: LastMatch(ts, ACPI_20_TABLE_GUID, j) ==> ts[j].table == 0
    requires LastMatch(ts, ACPI_TABLE_GUID, i) && ts[i].table != 0
    ensures Rsdp(ts) == Some(ts[i].table)
  {
    LastTableIsLastMatch(ts, ACPI_20_TABLE_GUID);
    LastTableIsLastMatch(ts, ACPI_TABLE_GUID);
    LastMatchExists(ts, ACPI_20_TABLE_GUID);
  }

  /** Some entry matches exactly when a last one does. */
  lemma {:induction false} LastMatchExists(ts: seq<ConfigTable>, g: Guid)
    ensures (exists j :: 0 <= j < |ts| && ts[j].guid == g) <==> exists i :: LastMatch(ts, g, i)
  {
    if |ts| > 0 {
      var n := |ts| - 1;
      if ts[n].guid == g {
        assert LastMatch(ts, g, n);
      } else {
        LastMatchExists(ts[..n], g);
        if exists j :: 0 <= j < |ts| && ts[j].guid == g {
          var j :| 0 <= j < |ts| && ts[j].guid == g;
          assert ts[..n][j].guid == g;
          var i :| LastMatch(ts[..n], g, i);
          assert LastMatch(ts, g, i);
        }
      }
    }
  }

  /** The lookup is fatal exactly when neither GUID has a last entry with a
      nonzero table; a pointer it returns is never NULL. */
  lemma RsdpNone(ts: seq<ConfigTable>)
    ensures Rsdp(ts).None? <==>
      (forall j :: LastMatch(ts, ACPI_20_TABLE_GUID, j) ==> ts[j].table == 0) &&
      (forall j :: LastMatch(ts, ACPI_TABLE_GUID, j) ==> ts[j].table == 0)
    ensures Rsdp(ts).Some? ==> Rsdp(ts).value != 0
  {
    LastTableIsLastMatch(ts, ACPI_20_TABLE_GUID);
    LastTableIsLastMatch(ts, ACPI_TABLE_GUID);
    LastMatchExists(ts, ACPI_20_TABLE_GUID);
    LastMatchExists(ts, ACPI_TABLE_GUID);
  }

  /** `AcpiGetRsdp`: one pass over the configuration tables recording the
      table of every ACPI 2.0 and every ACPI 1.0 entry, so that the last of
      each wins; then the choice between the two. */
  method AcpiGetRsdp(ts: seq<ConfigTable>) returns (status: Status, rsdp: u32)
    ensures status == if Rsdp(ts).Some? then Running else Halted(NoAcpiTable)
    ensures status.Running? ==> rsdp == Rsdp(ts).value
  {
    var acpiTable: u32 := 0;
    var acpi20Table: u32 := 0;
    for i := 0 to |ts|
      invariant acpi20Table == LastTable(ts[..i], ACPI_20_TABLE_GUID)
      invariant acpiTable == LastTable(ts[..i], ACPI_TABLE_GUID)
    {
      assert ts[..i + 1][..i] == ts[..i];
      if ts[i].guid == ACPI_20_TABLE_GUID {
        acpi20Table := ts[i].table;
      }
      if ts[i].guid == ACPI_TABLE_GUID {
        acpiTable := ts[i].table;
      }
    }
    assert ts[..|ts|] == ts;
    if acpi20Table != 0 {
      return Running, acpi20Table;
    } else if acpiTable != 0 {
      return Running, acpiTable;
    }
    return Halted(NoAcpiTable), 0;
  }
}
