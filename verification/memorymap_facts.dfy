/** What the loop of `fill_e820map` does with a whole memory map: the
    `continue` of the RAM case, the loop as evidently intended, and what
    each of them reports. */
module MemoryMapFacts {
  import opened Bytes
  import opened Status
  import opened E820
  import opened MemoryMap

  /** Adding `u + v` is adding `u` and then `v`; a fatal add stops it all. */
  lemma {:induction false} AddAllConcat(t: seq<Entry>, u: seq<Entry>, v: seq<Entry>)
    requires |t| <= E820_MAX_ENTRIES_ZEROPAGE
    ensures AddAll(t, u + v) == match AddAll(t, u)
      case None => None
      case Some(t1) => AddAll(t1, v)
    decreases |u|
  {
    if u == [] {
      assert u + v == v;
    } else {
      assert (u + v)[0] == u[0];
      assert (u + v)[1..] == u[1..] + v;
      match Added(t, u[0])
      case None =>
      case Some(t1) => AddAllConcat(t1, u[1..], v);
    }
  }

  /** The only way into the `continue`: a usable descriptor that starts below
      1 MiB and ends above 640 KiB but not above 1 MiB. */
  lemma ContinueIff(d: Descriptor)
    ensures !DescriptorStep(d).advance <==>
      IsUsable(d.efiType) && d.physAddr < HIGH_MEMORY_START &&
      LOW_MEMORY_END < Add64(d.physAddr, PageBytes(d.numPages)) <= HIGH_MEMORY_START
  {
  }

  /** `rs`, `n` times over. */
  function Repeat(rs: seq<Entry>, n: nat): seq<Entry>
  {
    if n == 0 then [] else rs + Repeat(rs, n - 1)
  }

  /** AS WRITTEN: once iteration `i` reads a descriptor that takes the
      `continue`, the loop never moves past it. Every remaining iteration adds
      that descriptor's regions again, and no later descriptor is read. */
  lemma {:induction false} StuckWalkRepeats(ds: seq<Descriptor>, i: nat, k: nat, t: seq<Entry>)
    requires |t| <= E820_MAX_ENTRIES_ZEROPAGE && k <= i <= |ds| && k < |ds|
    requires !DescriptorStep(ds[k]).advance
    ensures Walk(ds, i, k, t) == AddAll(t, Repeat(DescriptorStep(ds[k]).regions, |ds| - i))
    decreases |ds| - i
  {
    var s := DescriptorStep(ds[k]);
    if i < |ds| {
      assert Repeat(s.regions, |ds| - i) == s.regions + Repeat(s.regions, |ds| - (i + 1));
      AddAllConcat(t, s.regions, Repeat(s.regions, |ds| - (i + 1)));
      match AddAll(t, s.regions)
      case None =>
      case Some(t1) => StuckWalkRepeats(ds, i + 1, k, t1);
    }
  }

  /** When the last entry ends where `e` ends and `e` is not empty, `e` can
      never be merged: each of `m` more adds of `e` takes a fresh slot, until
      the table is full and the add is fatal. */
  lemma {:induction false} RepeatAppends(t: seq<Entry>, e: Entry, m: nat)
    requires 0 < |t| <= E820_MAX_ENTRIES_ZEROPAGE
    requires Add64(t[|t| - 1].addr, t[|t| - 1].size) == Add64(e.addr, e.size) != e.addr
    ensures AddAll(t, Repeat([e], m)) ==
      if |t| + m <= E820_MAX_ENTRIES_ZEROPAGE then Some(t + Repeat([e], m)) else None
    decreases m
  {
    if m > 0 {
      var rs := Repeat([e], m);
      assert rs == [e] + Repeat([e], m - 1);
      assert rs[0] == e && rs[1..] == Repeat([e], m - 1);
      if |t| < E820_MAX_ENTRIES_ZEROPAGE {
        var t1 := t + [e];
        assert !Continues(t[|t| - 1], e);
        assert Added(t, e) == Some(t1);
        assert t1[|t1| - 1] == e;
        RepeatAppends(t1, e, m - 1);
        assert t1 + Repeat([e], m - 1) == t + rs;
      } else {
        assert Added(t, e) == None;
      }
    } else {
      assert t + Repeat([e], m) == t;
    }
  }

  /** AS WRITTEN, the stuck descriptor that starts below 640 KiB: its part
      below 640 KiB goes into the table once per remaining iteration, the
      first time possibly merged, then as duplicate entries, until the 128
      slots run out and the boot halts. */
  lemma StuckLowDuplicates(ds: seq<Descriptor>, i: nat, k: nat, t: seq<Entry>)
    requires |t| < E820_MAX_ENTRIES_ZEROPAGE && k <= i < |ds|
    requires !DescriptorStep(ds[k]).advance && ds[k].physAddr < LOW_MEMORY_END
    ensures var e := Entry(ds[k].physAddr, LOW_MEMORY_END - ds[k].physAddr, E820_RAM);
      var t1 := Added(t, e).value;
      Walk(ds, i, k, t) ==
        if |t1| + (|ds| - i - 1) <= E820_MAX_ENTRIES_ZEROPAGE
        then Some(t1 + Repeat([e], |ds| - i - 1))
        else None
  {
    var e := Entry(ds[k].physAddr, LOW_MEMORY_END - ds[k].physAddr, E820_RAM);
    assert DescriptorStep(ds[k]).regions == [e];
    StuckWalkRepeats(ds, i, k, t);
    var n := |ds| - i;
    assert Repeat([e], n) == [e] + Repeat([e], n - 1);
    AddAllConcat(t, [e], Repeat([e], n - 1));
    var t1 := Added(t, e).value;
    assert AddAll(t, [e]) == Some(t1);
    AddedEndsWithRegion(t, e);
    RepeatAppends(t1, e, n - 1);
  }

  /** THE LOOP AS EVIDENTLY INTENDED: every iteration moves on to the next
      descriptor, so each descriptor of the map is read exactly once, in
      order. */
  function WalkFixed(ds: seq<Descriptor>, t: seq<Entry>): Option<seq<Entry>>
    requires |t| <= E820_MAX_ENTRIES_ZEROPAGE
    decreases |ds|
  {
    if ds == [] then Some(t)
    else match AddAll(t, DescriptorStep(ds[0]).regions)
      case None => None
      case Some(t1) => WalkFixed(ds[1..], t1)
  }

  /** Where no descriptor takes the `continue`, the loop as written and the
      loop as intended build the same table. */
  lemma {:induction false} WalkAgrees(ds: seq<Descriptor>, i: nat, t: seq<Entry>)
    requires |t| <= E820_MAX_ENTRIES_ZEROPAGE && i <= |ds|
    requires forall j :: i <= j < |ds| ==> DescriptorStep(ds[j]).advance
    ensures Walk(ds, i, i, t) == WalkFixed(ds[i..], t)
    decreases |ds| - i
  {
    if i < |ds| {
      assert ds[i..][0] == ds[i];
      assert ds[i..][1..] == ds[i + 1..];
      match AddAll(t, DescriptorStep(ds[i]).regions)
      case None =>
      case Some(t1) => WalkAgrees(ds, i + 1, t1);
    }
  }

  /** The descriptor's range ends below 2^64 and its byte count fits in
      UINT64, so that neither `num_pages << 12` nor `start + size` wraps. */
  predicate Fits(d: Descriptor)
  {
    d.physAddr + d.numPages * 4096 < TWO_64
  }

  /** Address `a` is one that the E820 table should report for `d`: inside
      the descriptor, and outside the legacy hole when `d` is usable RAM. */
  predicate Keeps(d: Descriptor, a: int)
  {
    d.physAddr <= a < d.physAddr + d.numPages * 4096 &&
    !(IsUsable(d.efiType) && LOW_MEMORY_END <= a < HIGH_MEMORY_START)
  }

  /** Some descriptor of `ds` keeps address `a`. */
  predicate KeptBy(ds: seq<Descriptor>, a: int)
    decreases |ds|
  {
    |ds| > 0 && (Keeps(ds[0], a) || KeptBy(ds[1..], a))
  }

  predicate AllNoWrap(rs: seq<Entry>)
  {
    forall j :: 0 <= j < |rs| ==> NoWrap(rs[j])
  }

  lemma AddAllOne(t: seq<Entry>, e: Entry)
    requires |t| <= E820_MAX_ENTRIES_ZEROPAGE
    ensures AddAll(t, [e]) == Added(t, e)
  {
    assert [e][1..] == [];
  }

  lemma CoversOne(e: Entry, a: int)
    ensures Covers([e], a) <==> Holds(e, a)
  {
    assert [e][1..] == [];
  }

  lemma CoversTwo(e: Entry, f: Entry, a: int)
    ensures Covers([e, f], a) <==> Holds(e, a) || Holds(f, a)
  {
    assert [e, f][1..] == [f];
    CoversOne(f, a);
  }

  /** The regions that one pass of the loop body adds hold exactly the
      addresses the descriptor should contribute: its whole range, less the
      640 KiB - 1 MiB hole when it is usable RAM. */
  lemma DescriptorStepCovers(d: Descriptor, a: int)
    requires Fits(d)
    ensures Covers(DescriptorStep(d).regions, a) <==> Keeps(d, a)
    ensures AllNoWrap(DescriptorStep(d).regions)
  {
    var size := d.numPages * 4096;
    assert PageBytes(d.numPages) == size;
    var rs := DescriptorStep(d).regions;
    if IsUsable(d.efiType) {
      var start := d.physAddr;
      var end := start + size;
      assert Add64(start, size) == end;
      if start < HIGH_MEMORY_START && end > LOW_MEMORY_END {
        if start < LOW_MEMORY_END && end > HIGH_MEMORY_START {
          var low := Entry(start, LOW_MEMORY_END - start, E820_RAM);
          var high := Entry(HIGH_MEMORY_START, end - HIGH_MEMORY_START, E820_RAM);
          assert rs == [low, high];
          CoversTwo(low, high, a);
        } else if start < LOW_MEMORY_END {
          var low := Entry(start, LOW_MEMORY_END - start, E820_RAM);
          assert rs == [low];
          CoversOne(low, a);
        } else if end > HIGH_MEMORY_START {
          var high := Entry(HIGH_MEMORY_START, end - HIGH_MEMORY_START, E820_RAM);
          assert rs == [high];
          CoversOne(high, a);
        } else {
          assert rs == [];
        }
      } else {
        CoversOne(Entry(start, size, E820_RAM), a);
      }
    } else {
      CoversOne(Entry(d.physAddr, size, Classify(d.efiType)), a);
    }
  }

  /** Adding regions that do not wrap loses and gains no address. */
  lemma {:induction false} AddAllCovers(t: seq<Entry>, rs: seq<Entry>, a: int)
    requires |t| <= E820_MAX_ENTRIES_ZEROPAGE && LastNoWrap(t) && AllNoWrap(rs)
    requires AddAll(t, rs).Some?
    ensures Covers(AddAll(t, rs).value, a) <==> Covers(t, a) || Covers(rs, a)
    ensures LastNoWrap(AddAll(t, rs).value)
    decreases |rs|
  {
    if rs != [] {
      var t1 := Added(t, rs[0]).value;
      AddedCovers(t, rs[0], a);
      AddAllCovers(t1, rs[1..], a);
    }
  }

  /** AS INTENDED, the table reports exactly the addresses that some
      descriptor of the map should contribute, and nothing else. */
  lemma {:induction false} FixedCovers(ds: seq<Descriptor>, t: seq<Entry>, a: int)
    requires |t| <= E820_MAX_ENTRIES_ZEROPAGE && LastNoWrap(t)
    requires forall j :: 0 <= j < |ds| ==> Fits(ds[j])
    requires WalkFixed(ds, t).Some?
    ensures Covers(WalkFixed(ds, t).value, a) <==> Covers(t, a) || KeptBy(ds, a)
    decreases |ds|
  {
    if ds != [] {
      var rs := DescriptorStep(ds[0]).regions;
      DescriptorStepCovers(ds[0], a);
      var t1 := AddAll(t, rs).value;
      AddAllCovers(t, rs, a);
      FixedCovers(ds[1..], t1, a);
    }
  }

  /** AS INTENDED, the table keeps the invariant of `add_memory_region`: no
      entry could have been merged into the one before it. */
  lemma {:induction false} FixedCoalesced(ds: seq<Descriptor>, t: seq<Entry>)
    requires |t| <= E820_MAX_ENTRIES_ZEROPAGE && Coalesced(t) && WalkFixed(ds, t).Some?
    ensures Coalesced(WalkFixed(ds, t).value)
    decreases |ds|
  {
    if ds != [] {
      var rs := DescriptorStep(ds[0]).regions;
      AddAllCoalesced(t, rs);
      FixedCoalesced(ds[1..], AddAll(t, rs).value);
    }
  }

  lemma {:induction false} AddAllCoalesced(t: seq<Entry>, rs: seq<Entry>)
    requires |t| <= E820_MAX_ENTRIES_ZEROPAGE && Coalesced(t) && AddAll(t, rs).Some?
    ensures Coalesced(AddAll(t, rs).value)
    decreases |rs|
  {
    if rs != [] {
      AddedKeepsCoalesced(t, rs[0]);
      AddAllCoalesced(Added(t, rs[0]).value, rs[1..]);
    }
  }

  /** On a map where no descriptor takes the `continue`, the table that
      `fill_e820map` builds is the one the intended loop builds, so it
      reports exactly the addresses the descriptors should contribute and
      no entry could have been merged into the one before it. */
  lemma FilledWithoutContinue(mem: seq<u8>, size: nat, stride: nat, a: int)
    requires MD_NOMINAL_SIZE <= stride && size <= |mem|
    requires var ds := MapDescriptors(mem, size, stride);
      forall j :: 0 <= j < |ds| ==> DescriptorStep(ds[j]).advance && Fits(ds[j])
    requires FilledTable(mem, size, stride).Some?
    ensures var ds := MapDescriptors(mem, size, stride);
      FilledTable(mem, size, stride) == WalkFixed(ds, []) &&
      (Covers(FilledTable(mem, size, stride).value, a) <==> KeptBy(ds, a)) &&
      Coalesced(FilledTable(mem, size, stride).value)
  {
    var ds := MapDescriptors(mem, size, stride);
    WalkAgrees(ds, 0, []);
    assert ds[0..] == ds;
    FixedCovers(ds, [], a);
    FixedCoalesced(ds, []);
  }

  // A map of two descriptors of conventional memory: [0, 1 MiB) and
  // [1 MiB, 2 MiB).
  const BelowOneMiB: Descriptor := Descriptor(EFI_CONVENTIONAL_MEMORY, 0, 0x100)
  const AboveOneMiB: Descriptor := Descriptor(EFI_CONVENTIONAL_MEMORY, 0x100000, 0x100)

  /** AS WRITTEN, on that map: the first descriptor takes the `continue`, so
      the second iteration reads it again. Its part below 640 KiB is listed
      twice and the memory from 1 MiB up is missing. */
  lemma StuckExample()
    ensures Walk([BelowOneMiB, AboveOneMiB], 0, 0, []) ==
      Some([Entry(0, 0xA0000, E820_RAM), Entry(0, 0xA0000, E820_RAM)])
    ensures KeptBy([BelowOneMiB, AboveOneMiB], 0x100000)
    ensures !Covers(Walk([BelowOneMiB, AboveOneMiB], 0, 0, []).value, 0x100000)
  {
    var ds := [BelowOneMiB, AboveOneMiB];
    var low := Entry(0, 0xA0000, E820_RAM);
    assert DescriptorStep(BelowOneMiB) == Step([low], false);
    AddAllOne([], low);
    assert [] + [low] == [low];
    AddAllOne([low], low);
    assert [low] + [low] == [low, low];
    assert Walk(ds, 2, 0, [low, low]) == Some([low, low]);
    assert Walk(ds, 1, 0, [low]) == Some([low, low]);
    assert Keeps(AboveOneMiB, 0x100000);
    assert [low, low][1..] == [low];
    CoversOne(low, 0x100000);
  }

  /** AS INTENDED, on the same map: each descriptor is read once, and the
      table lists [0, 640 KiB) and [1 MiB, 2 MiB). */
  lemma FixedExample()
    ensures WalkFixed([BelowOneMiB, AboveOneMiB], []) ==
      Some([Entry(0, 0xA0000, E820_RAM), Entry(0x100000, 0x100000, E820_RAM)])
  {
    var ds := [BelowOneMiB, AboveOneMiB];
    var low := Entry(0, 0xA0000, E820_RAM);
    var high := Entry(0x100000, 0x100000, E820_RAM);
    assert DescriptorStep(BelowOneMiB) == Step([low], false);
    assert DescriptorStep(AboveOneMiB) == Step([high], true);
    assert ds[1..] == [AboveOneMiB];
    AddAllOne([], low);
    assert [] + [low] == [low];
    AddAllOne([low], high);
    assert [low] + [high] == [low, high];
    assert [AboveOneMiB][1..] == [];
    assert WalkFixed([AboveOneMiB], [low]) == Some([low, high]);
  }
}
