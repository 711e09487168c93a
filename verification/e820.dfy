/** The E820 table of the zero page and `add_memory_region`, which appends
    a region to it or grows its last entry (memory.c). */
module E820 {
  import opened Bytes
  import opened Status

  /** Slots of `boot_params.e820_table`. */
  const E820_MAX_ENTRIES_ZEROPAGE: nat := 128

  /** Address-range types of the INT 15h, AX=E820h interface, as
      chapter 15 of the ACPI Specification lists them. */
  const E820_RAM: u32 := 1
  const E820_RESERVED: u32 := 2
  const E820_ACPI: u32 := 3
  const E820_NVS: u32 := 4

  /** One `struct boot_e820_entry`: also the (start, size, type) triple that
      `add_memory_region` is called with. */
  datatype Entry = Entry(addr: u64, size: u64, e820Type: u32)

  /** The merge test of `add_memory_region`: `b` starts where `a` ends (UINT64
      addition, so it wraps) and has the same type. */
  predicate Continues(a: Entry, b: Entry)
  {
    Add64(a.addr, a.size) == b.addr && a.e820Type == b.e820Type
  }

  /** No entry could have been merged into the one before it. */
  ghost predicate Coalesced(t: seq<Entry>)
  {
    forall i, j :: 0 <= i && j == i + 1 && j < |t| ==> !Continues(t[i], t[j])
  }

  /** The table after `add_memory_region(start, size, type)`, or None when the
      call is fatal because all 128 slots are taken. */
  function Added(t: seq<Entry>, e: Entry): (r: Option<seq<Entry>>)
    requires |t| <= E820_MAX_ENTRIES_ZEROPAGE
    ensures r.Some? <==> |t| < E820_MAX_ENTRIES_ZEROPAGE
    ensures r.Some? ==> |t| <= |r.value| <= |t| + 1 && |r.value| <= E820_MAX_ENTRIES_ZEROPAGE
  {
    var n := |t|;
    if n == E820_MAX_ENTRIES_ZEROPAGE then None
    else if n > 0 && Continues(t[n - 1], e) then
      Some(t[..n - 1] + [t[n - 1].(size := Add64(t[n - 1].size, e.size))])
    else
      Some(t + [e])
  }

  /** An add never creates a pair of entries that should have been merged:
      it appends only when the merge test failed, and a merge moves no
      entry's start. */
  lemma AddedKeepsCoalesced(t: seq<Entry>, e: Entry)
    requires |t| < E820_MAX_ENTRIES_ZEROPAGE && Coalesced(t)
    ensures Coalesced(Added(t, e).value)
  {
    var r := Added(t, e).value;
    var n := |t|;
    if n > 0 && Continues(t[n - 1], e) {
      assert forall i :: 0 <= i < n - 1 ==> r[i] == t[i];
    } else {
      assert forall i :: 0 <= i < n ==> r[i] == t[i];
    }
  }

  lemma Add64Assoc(a: u64, b: u64, c: u64)
    ensures Add64(a, Add64(b, c)) == Add64(Add64(a, b), c)
  {
  }

  /** An append keeps every entry and adds the region itself; a merge keeps
      every entry but the last, and grows the last by the region's size
      without moving its start. Either way the last entry ends exactly where
      the added region ends and has its type: no byte of the region is lost
      or retyped. */
  lemma {:induction false} AddedEndsWithRegion(t: seq<Entry>, e: Entry)
    requires |t| < E820_MAX_ENTRIES_ZEROPAGE
    ensures var r := Added(t, e).value;
      (|r| == |t| + 1 ==> r[..|t|] == t && r[|t|] == e) &&
      (|r| == |t| ==>
         |t| > 0 && r[..|t| - 1] == t[..|t| - 1] &&
         r[|t| - 1].addr == t[|t| - 1].addr && r[|t| - 1].e820Type == e.e820Type &&
         r[|t| - 1].size == Add64(t[|t| - 1].size, e.size)) &&
      (|t| > 0 ==> r[..|t| - 1] == t[..|t| - 1]) &&
      Add64(r[|r| - 1].addr, r[|r| - 1].size) == Add64(e.addr, e.size) &&
      r[|r| - 1].e820Type == e.e820Type
  {
    var n := |t|;
    if n > 0 && Continues(t[n - 1], e) {
      Add64Assoc(t[n - 1].addr, t[n - 1].size, e.size);
    }
  }

  /** Address `a` lies in the region of `e`. */
  predicate Holds(e: Entry, a: int)
  {
    e.addr <= a < e.addr + e.size
  }

  /** Some entry of `t` holds address `a`. */
  predicate Covers(t: seq<Entry>, a: int)
    decreases |t|
  {
    |t| > 0 && (Holds(t[0], a) || Covers(t[1..], a))
  }

  /** The region of `e` ends below 2^64, so that no UINT64 sum over it wraps. */
  predicate NoWrap(e: Entry)
  {
    e.addr + e.size < TWO_64
  }

  /** The last entry of `t`, the only one an add can grow, does not wrap. */
  predicate LastNoWrap(t: seq<Entry>)
  {
    |t| > 0 ==> NoWrap(t[|t| - 1])
  }

  lemma {:induction false} CoversConcat(t: seq<Entry>, u: seq<Entry>, a: int)
    ensures Covers(t + u, a) <==> Covers(t, a) || Covers(u, a)
    decreases |t|
  {
    if |t| > 0 {
      assert (t + u)[1..] == t[1..] + u;
      CoversConcat(t[1..], u, a);
    } else {
      assert t + u == u;
    }
  }

  /** No address is lost or gained by an add: the table afterwards holds
      exactly the addresses it held before and those of the region. A merge
      grows the last entry by exactly the region, because the region starts
      where that entry ends. */
  lemma AddedCovers(t: seq<Entry>, e: Entry, a: int)
    requires |t| < E820_MAX_ENTRIES_ZEROPAGE && LastNoWrap(t) && NoWrap(e)
    ensures Covers(Added(t, e).value, a) <==> Covers(t, a) || Holds(e, a)
    ensures LastNoWrap(Added(t, e).value)
  {
    var r := Added(t, e).value;
    var n := |t|;
    if n > 0 && Continues(t[n - 1], e) {
      var last := t[n - 1];
      assert t == t[..n - 1] + [last];
      assert r == t[..n - 1] + [r[n - 1]];
      assert r[n - 1].size == last.size + e.size;
      CoversConcat(t[..n - 1], [last], a);
      CoversConcat(t[..n - 1], [r[n - 1]], a);
    } else {
      CoversConcat(t, [e], a);
    }
  }

  /** `boot_params.e820_table` with its entry counter `e820_nr_map`. */
  class E820Table {
    const entries: array<Entry>
    var count: nat

    ghost predicate Valid()
      reads this, entries
    {
      entries.Length == E820_MAX_ENTRIES_ZEROPAGE &&
      count <= E820_MAX_ENTRIES_ZEROPAGE &&
      Coalesced(entries[..count])
    }

    /** The entries in use. */
    ghost function Contents(): (t: seq<Entry>)
      reads this, entries
      requires Valid()
      ensures |t| == count
    {
      entries[..count]
    }

    constructor ()
      ensures Valid() && fresh(entries) && Contents() == []
    {
      entries := new Entry[E820_MAX_ENTRIES_ZEROPAGE](_ => Entry(0, 0, 0));
      count := 0;
    }

    /** `e820_nr_map = 0`: start a new table; the slots keep their bytes. */
    method Reset()
      requires entries.Length == E820_MAX_ENTRIES_ZEROPAGE
      modifies this
      ensures Valid() && Contents() == []
    {
      count := 0;
    }

    /** `add_memory_region`: fatal when the table is full, even for a region
        that could have been merged; otherwise grow the last entry when the
        region continues it, or append the region. */
    method AddMemoryRegion(start: u64, size: u64, e820Type: u32) returns (status: Status)
      requires Valid()
      modifies this, entries
      ensures Valid()
      ensures status == if old(count) == E820_MAX_ENTRIES_ZEROPAGE then Halted(TooManyEntries) else Running
      ensures status.Halted? ==> count == old(count) && entries[..] == old(entries[..])
      ensures status.Running? ==> Some(Contents()) == Added(old(Contents()), Entry(start, size, e820Type))
    {
      var x := count;
      ghost var t := entries[..x];
      if x == E820_MAX_ENTRIES_ZEROPAGE {
        return Halted(TooManyEntries);
      }
      status := Running;
      if x > 0 && Continues(entries[x - 1], Entry(start, size, e820Type)) {
        entries[x - 1] := entries[x - 1].(size := Add64(entries[x - 1].size, size));
        assert t[..x - 1] == old(entries[..x - 1]);
        assert entries[..x] == t[..x - 1] + [entries[x - 1]];
      } else {
        entries[x] := Entry(start, size, e820Type);
        count := x + 1;
        assert entries[..count] == t + [entries[x]];
      }
      AddedKeepsCoalesced(t, Entry(start, size, e820Type));
    }
  }
}
