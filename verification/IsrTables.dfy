/**
 Interrupt tables. A build script (arch/common/gen_isr_tables.py) fills the software ISR table,
 and the kernel (arch/common/sw_isr_common.c, include/irq.h) overwrites entries of it later.
 Both have to work out the same index from an interrupt number that packs up to three levels
 into its bytes.
 */
module IsrTables {
  import opened Seqs

  /** The CONFIG_ symbols: which levels there are, and each level's aggregators by parent line. */
  datatype Config = Config(multi: bool, second: bool, third: bool, maxPer: nat,
                           base2: nat, parents2: seq<nat>, base3: nat, parents3: seq<nat>, start: nat)

  const UINTS := 0x1_0000_0000

  /** Configurations that Kconfig admits. */
  predicate Possible(c: Config) {
    (c.third ==> c.second) && (c.second ==> c.multi)
  }

  // ----- The bytes of an interrupt number -------------------------------------------------

  function Byte1(irq: nat): nat {
    irq % 256
  }

  function Byte2(irq: nat): nat {
    (irq / 0x100) % 256
  }

  function Byte3(irq: nat): nat {
    (irq / 0x1_0000) % 256
  }

  /** irq_get_level */
  function Level(c: Config, irq: nat): nat {
    if c.third then (if Byte3(irq) != 0 then 3 else if Byte2(irq) == 0 then 1 else 2)
    else if c.second then (if Byte2(irq) == 0 then 1 else 2)
    else 1
  }

  /** irq_from_level_2 and irq_from_level_3, on unsigned integers */
  function FromLevel2(c: Config, irq: nat): nat {
    if c.third then (Byte2(irq) + UINTS - 1) % UINTS else (irq / 0x100 + UINTS - 1) % UINTS
  }

  function FromLevel3(irq: nat): nat {
    (irq / 0x1_0000 + UINTS - 1) % UINTS
  }

  // ----- The two computations -------------------------------------------------------------

  /** Where a parent line stands in the list of aggregators. */
  function Position(parents: seq<nat>, parent: nat): (r: Option<nat>)
    ensures r.Some? ==> r.value < |parents| && parents[r.value] == parent
    ensures r.Some? ==> forall i | 0 <= i < r.value :: parents[i] != parent
    ensures r.None? <==> parent !in parents
  {
    if parents == [] then None
    else if parents[0] == parent then Some(0)
    else match Position(parents[1..], parent)
      case None => None
      case Some(i) => Some(i + 1)
  }

  /** The index the script uses, or nothing where it stops with an error. */
  function BuildIndex(c: Config, irq: nat): Option<int> {
    if !c.multi then Some(irq - c.start)
    else if Byte3(irq) != 0 then
      if !c.third then None
      else match Position(c.parents3, Byte2(irq))
        case None => None
        case Some(i) => Some(c.base3 + c.maxPer * i + Byte3(irq) - 1 - c.start)
    else if Byte2(irq) != 0 then
      if !c.second then None
      else match Position(c.parents2, Byte1(irq))
        case None => None
        case Some(i) => Some(c.base2 + c.maxPer * i + Byte2(irq) - 1 - c.start)
    else Some(Byte1(irq) - c.start)
  }

  /** get_parent_offset: 0 when the parent is not listed and assertions are off */
  function ParentOffset(parents: seq<nat>, base: nat, maxPer: nat, parent: nat): nat {
    match Position(parents, parent)
    case None => 0
    case Some(i) => (base + i * maxPer) % UINTS
  }

  /** z_isr_install's index, on unsigned integers */
  function RunIndex(c: Config, irq: nat): nat {
    var idx :=
      if c.multi && Level(c, irq) == 2 then
        ParentOffset(c.parents2, c.base2, c.maxPer, Byte1(irq)) + FromLevel2(c, irq)
      else if c.multi && Level(c, irq) == 3 then
        ParentOffset(c.parents3, c.base3, c.maxPer, Byte2(irq)) + FromLevel3(irq)
      else irq;
    (idx - c.start) % UINTS
  }

  // ----- They agree -----------------------------------------------------------------------

  /** No byte is used beyond those of the configured levels. */
  predicate Encodable(c: Config, irq: nat) {
    irq < if !c.multi then UINTS else if c.third then 0x100_0000 else if c.second then 0x1_0000 else 0x100
  }

  /** The number of an interrupt of the second of three levels may have a stray top byte. */
  predicate StrayTopByte(c: Config, irq: nat) {
    c.third && Byte3(irq) == 0 && Byte2(irq) != 0
  }

  /** The bytes that are left when an interrupt number has no more than so many. */
  lemma {:induction false} BytesOf(irq: nat)
    ensures irq < 0x100 <==> irq == Byte1(irq)
    ensures irq / 0x100 == Byte2(irq) <==> irq < 0x1_0000
    ensures irq / 0x1_0000 == Byte3(irq) <==> irq < 0x100_0000
    ensures irq < 0x100_0000 && Byte3(irq) == 0 ==> irq < 0x1_0000
    ensures irq < 0x1_0000 && Byte2(irq) == 0 ==> irq < 0x100
    ensures irq < 0x1_0000 ==> irq == Byte1(irq) + 0x100 * Byte2(irq)
  {
  }

  /** An index worked out from an offset and a line, when the line may be too large by `d`. */
  lemma {:induction false} OffsetAndLine(offset: nat, line: nat, d: nat, start: nat)
    requires line > 0 && d < UINTS && 0 <= offset + line - 1 - start < UINTS
    ensures (offset % UINTS + (line + d + UINTS - 1) % UINTS - start) % UINTS == offset + line - 1 - start <==> d == 0
  {
  }

  lemma {:induction false} Level3Agrees(c: Config, irq: nat, i: nat)
    requires Possible(c) && c.third && irq < UINTS && Byte3(irq) != 0
    requires i < UINTS && BuildIndex(c, irq) == Some(i)
    ensures RunIndex(c, irq) == i <==> irq < 0x100_0000
  {
    BytesOf(irq);
    var pos := Position(c.parents3, Byte2(irq)).value;
    OffsetAndLine(c.base3 + pos * c.maxPer, Byte3(irq), irq / 0x1_0000 - Byte3(irq), c.start);
  }

  lemma {:induction false} Level2Agrees(c: Config, irq: nat, i: nat)
    requires Possible(c) && c.second && irq < UINTS && Byte3(irq) == 0 && Byte2(irq) != 0
    requires i < UINTS && BuildIndex(c, irq) == Some(i)
    ensures RunIndex(c, irq) == i <==> c.third || irq < 0x1_0000
  {
    BytesOf(irq);
    var pos := Position(c.parents2, Byte1(irq)).value;
    var d := if c.third then 0 else irq / 0x100 - Byte2(irq);
    OffsetAndLine(c.base2 + pos * c.maxPer, Byte2(irq), d, c.start);
  }

  lemma {:induction false} Level1Agrees(c: Config, irq: nat, i: nat)
    requires Possible(c) && c.multi && irq < UINTS && Byte3(irq) == 0 && Byte2(irq) == 0
    requires i < UINTS && BuildIndex(c, irq) == Some(i)
    ensures RunIndex(c, irq) == i <==> irq < 0x100
  {
  }

  /**
   Wherever the script does find a place in the table, the kernel finds the same one exactly when
   the number is encodable, or is a second-level one of three levels.
   */
  lemma {:induction false} IndicesAgree(c: Config, irq: nat, i: nat)
    requires Possible(c) && irq < UINTS && i < UINTS && BuildIndex(c, irq) == Some(i)
    ensures RunIndex(c, irq) == i <==> Encodable(c, irq) || StrayTopByte(c, irq)
  {
    BytesOf(irq);
    if c.multi {
      if Byte3(irq) != 0 {
        Level3Agrees(c, irq, i);
      } else if Byte2(irq) != 0 {
        Level2Agrees(c, irq, i);
      } else {
        Level1Agrees(c, irq, i);
      }
    }
  }

  /** A number with a byte too many is placed apart, with one level, with two and with three. */
  lemma {:induction false} OneLevelDisagrees()
    ensures var c := Config(true, false, false, 4, 0x100, [], 0x200, [], 0);
            BuildIndex(c, 0x0100_0001) == Some(1) && RunIndex(c, 0x0100_0001) == 0x0100_0001
  {
    assert Byte3(0x0100_0001) == 0 && Byte2(0x0100_0001) == 0 && Byte1(0x0100_0001) == 1;
  }

  lemma {:induction false} TwoLevelsDisagree()
    ensures var c := Config(true, true, false, 4, 0x100, [1], 0x200, [], 0);
            BuildIndex(c, 0x0100_0101) == Some(0x100) && RunIndex(c, 0x0100_0101) == 0x1_0100
  {
    assert Byte3(0x0100_0101) == 0 && Byte2(0x0100_0101) == 1 && Byte1(0x0100_0101) == 1;
    assert Position([1], 1) == Some(0);
  }

  lemma {:induction false} ThreeLevelsDisagree()
    ensures var c := Config(true, true, true, 4, 0x100, [1], 0x200, [1], 0);
            BuildIndex(c, 0x0101_0100) == Some(0x200) && RunIndex(c, 0x0101_0100) == 0x300
  {
    assert Byte3(0x0101_0100) == 1 && Byte2(0x0101_0100) == 1;
    assert Position([1], 1) == Some(0);
  }

  // ----- Distinct slots -------------------------------------------------------------------

  lemma {:induction false} SlotsApart(maxPer: nat, i: nat, a: nat, j: nat, b: nat)
    requires a < maxPer && b < maxPer && maxPer * i + a == maxPer * j + b
    ensures i == j && a == b
  {
    if i < j {
      CellsApart(i, j, maxPer);
    } else if j < i {
      CellsApart(j, i, maxPer);
    }
  }

  /** Second-level interrupts within their aggregators' capacity share a slot only with themselves. */
  lemma {:induction false} Level2Distinct(c: Config, a: nat, b: nat)
    requires Possible(c) && c.second && a < 0x1_0000 && b < 0x1_0000
    requires 1 <= Byte2(a) <= c.maxPer && 1 <= Byte2(b) <= c.maxPer
    requires BuildIndex(c, a).Some? && BuildIndex(c, b).Some?
    ensures BuildIndex(c, a) == BuildIndex(c, b) <==> a == b
  {
    BytesOf(a);
    BytesOf(b);
    var i, j := Position(c.parents2, Byte1(a)).value, Position(c.parents2, Byte1(b)).value;
    if BuildIndex(c, a) == BuildIndex(c, b) {
      SlotsApart(c.maxPer, i, Byte2(a) - 1, j, Byte2(b) - 1);
    }
  }

  /** Third-level interrupts share a slot exactly when they agree in their upper two bytes. */
  lemma {:induction false} Level3Distinct(c: Config, a: nat, b: nat)
    requires Possible(c) && c.third
    requires 1 <= Byte3(a) <= c.maxPer && 1 <= Byte3(b) <= c.maxPer
    requires BuildIndex(c, a).Some? && BuildIndex(c, b).Some?
    ensures BuildIndex(c, a) == BuildIndex(c, b) <==> Byte2(a) == Byte2(b) && Byte3(a) == Byte3(b)
  {
    var i, j := Position(c.parents3, Byte2(a)).value, Position(c.parents3, Byte2(b)).value;
    if BuildIndex(c, a) == BuildIndex(c, b) {
      SlotsApart(c.maxPer, i, Byte3(a) - 1, j, Byte3(b) - 1);
    }
  }

  /** So two third-level interrupts that differ in the lowest byte share one. */
  lemma {:induction false} Level3Clash()
    ensures var c := Config(true, true, true, 4, 0x100, [1], 0x200, [1], 0);
            BuildIndex(c, 0x01_0100) == BuildIndex(c, 0x01_0101) == Some(0x200)
  {
    assert Position([1], 1) == Some(0);
  }

  /** The levels' parts of the table follow one another. */
  predicate LaidOut(c: Config) {
    && 0x100 <= c.base2 && c.base2 + c.maxPer * |c.parents2| <= c.base3
  }

  /** Interrupts of different levels never share a slot in a table laid out level by level. */
  lemma {:induction false} LevelsDistinct(c: Config, a: nat, b: nat)
    requires Possible(c) && c.multi && LaidOut(c) && Level(c, a) < Level(c, b)
    requires (Level(c, a) == 2 ==> Byte2(a) <= c.maxPer) && (Level(c, b) == 2 ==> Byte2(b) <= c.maxPer)
    requires BuildIndex(c, a).Some? && BuildIndex(c, b).Some?
    ensures BuildIndex(c, a) != BuildIndex(c, b)
  {
    hide BuildIndex, Position;
    if Level(c, a) == 2 {
      InAggregators(c, a);
    } else {
      BelowAggregators(c, a);
    }
    if Level(c, b) == 2 {
      InAggregators(c, b);
    } else {
      AboveAggregators(c, b);
    }
    assert c.maxPer * |c.parents2| >= 0;
  }

  lemma {:induction false} BelowAggregators(c: Config, irq: nat)
    requires Possible(c) && c.multi && Level(c, irq) == 1 && BuildIndex(c, irq).Some?
    ensures BuildIndex(c, irq).value + c.start < 0x100
  {
  }

  lemma {:induction false} AboveAggregators(c: Config, irq: nat)
    requires Possible(c) && c.multi && Level(c, irq) == 3 && BuildIndex(c, irq).Some?
    ensures c.base3 <= BuildIndex(c, irq).value + c.start
  {
    var pos := Position(c.parents3, Byte2(irq)).value;
    hide Position;
    assert c.maxPer * pos >= 0;
  }

  lemma {:induction false} InAggregators(c: Config, irq: nat)
    requires Possible(c) && Level(c, irq) == 2 && Byte2(irq) <= c.maxPer && BuildIndex(c, irq).Some?
    ensures c.base2 <= BuildIndex(c, irq).value + c.start < c.base2 + c.maxPer * |c.parents2|
  {
    CellsApart(Position(c.parents2, Byte1(irq)).value, |c.parents2|, c.maxPer);
  }

  // ----- Filling the table ----------------------------------------------------------------

  /** An entry of the table; `Spurious` is the default one. */
  datatype Entry = Spurious | Handler(param: nat, func: nat)

  /** What an IRQ_CONNECT put into the list of interrupts. */
  datatype Connect = Connect(irq: nat, direct: bool, func: nat, param: nat)

  /** An entry of the vector table: the wrapper around the software table, or a direct handler. */
  datatype Vector = Wrapper | Direct(func: nat)

  /** A Python list index: negative ones count from the end. */
  function Slot(i: int, n: nat): Option<nat> {
    if 0 <= i < n then Some(i) else if i < 0 <= n + i then Some(n + i) else None
  }

  function SlotOf(c: Config, nvec: nat, x: Connect): Option<nat> {
    match BuildIndex(c, x.irq)
    case None => None
    case Some(i) => Slot(i, nvec)
  }

  /** The vector table has no levels: a direct interrupt is placed by its number alone. */
  function VectorSlot(c: Config, nvec: nat, x: Connect): Option<nat> {
    Slot(x.irq - c.start, nvec)
  }

  /** A list index is one of the list's own, counted from the front or, if negative, from the back. */
  lemma {:induction false} SlotIs(i: int, n: nat)
    ensures Slot(i, n).Some? <==> 0 <= n + i && i < n
    ensures 0 <= i < n ==> Slot(i, n) == Some(i)
    ensures i < 0 <= n + i ==> Slot(i, n) == Some(n + i)
  {
  }

  /** A direct interrupt has the vector of its number, counted from the first one of the table. */
  lemma {:induction false} VectorIs(c: Config, nvec: nat, x: Connect)
    ensures c.start <= x.irq < c.start + nvec ==> VectorSlot(c, nvec, x) == Some(x.irq - c.start)
    ensures x.irq >= c.start + nvec ==> VectorSlot(c, nvec, x) == None
  {
  }

  /** Entry `i` of the vector table is that of the last of the first `n` interrupts that are direct and placed there. */
  ghost predicate Vectored(c: Config, list: seq<Connect>, n: nat, vt: seq<Vector>, i: nat)
    requires n <= |list| && i < |vt|
  {
    match vt[i]
    case Wrapper => forall k | 0 <= k < n && list[k].direct :: VectorSlot(c, |vt|, list[k]) != Some(i)
    case Direct(func) =>
      exists k :: 0 <= k < n && LastAt(c, list, n, |vt|, k, i) && list[k].func == func
  }

  predicate LastAt(c: Config, list: seq<Connect>, n: nat, nvec: nat, k: nat, i: nat)
    requires k < n <= |list|
  {
    && list[k].direct && VectorSlot(c, nvec, list[k]) == Some(i)
    && forall j | k < j < n && list[j].direct :: VectorSlot(c, nvec, list[j]) != Some(i)
  }

  ghost predicate AllVectored(c: Config, list: seq<Connect>, n: nat, vt: seq<Vector>)
    requires n <= |list|
  {
    forall i | 0 <= i < |vt| :: Vectored(c, list, n, vt, i)
  }

  lemma {:induction false} VectoredNext(c: Config, list: seq<Connect>, n: nat, vt: seq<Vector>)
    requires n < |list| && AllVectored(c, list, n, vt)
    ensures !list[n].direct ==> AllVectored(c, list, n + 1, vt)
    ensures list[n].direct && VectorSlot(c, |vt|, list[n]).Some? ==>
              AllVectored(c, list, n + 1, vt[VectorSlot(c, |vt|, list[n]).value := Direct(list[n].func)])
  {
    var slot := VectorSlot(c, |vt|, list[n]);
    if list[n].direct && slot.None? {
      return;
    }
    var after := if list[n].direct then vt[slot.value := Direct(list[n].func)] else vt;
    var next := n + 1;
    forall i | 0 <= i < |after| ensures Vectored(c, list, next, after, i) {
      assert Vectored(c, list, n, vt, i);
      if list[n].direct && slot == Some(i) {
        assert LastAt(c, list, next, |after|, n, i);
      } else if vt[i].Direct? {
        var k :| 0 <= k < n && LastAt(c, list, n, |vt|, k, i) && list[k].func == vt[i].func;
        assert LastAt(c, list, next, |after|, k, i);
      }
    }
  }

  /** Interrupt `k` is a regular one with slot `i` of the software table. */
  predicate Owns(c: Config, nvec: nat, list: seq<Connect>, k: nat, i: nat)
    requires k < |list|
  {
    !list[k].direct && SlotOf(c, nvec, list[k]) == Some(i)
  }

  ghost predicate Owned(c: Config, nvec: nat, list: seq<Connect>, n: nat, i: nat)
    requires n <= |list|
  {
    exists k :: 0 <= k < n && Owns(c, nvec, list, k, i)
  }

  /** The software table after the first `n` interrupts: each regular one is in its slot. */
  ghost predicate Filled(c: Config, list: seq<Connect>, n: nat, swt: seq<Entry>)
    requires n <= |list|
  {
    && (forall k, i | 0 <= k < n && 0 <= i < |swt| && Owns(c, |swt|, list, k, i) ::
          swt[i] == Handler(list[k].param, list[k].func))
    && (forall i | 0 <= i < |swt| && swt[i] != Spurious :: Owned(c, |swt|, list, n, i))
  }

  predicate SlotFree(c: Config, list: seq<Connect>, nvec: nat, n: nat)
    requires n < |list|
  {
    forall j | 0 <= j < n && !list[j].direct :: SlotOf(c, nvec, list[j]) != SlotOf(c, nvec, list[n])
  }

  /** Interrupt `n` can be placed: a direct one in the vector table, without parameter; a regular one in a free slot. */
  predicate Fits(c: Config, list: seq<Connect>, nvec: nat, n: nat)
    requires n < |list|
  {
    if list[n].direct then list[n].param == 0 && VectorSlot(c, nvec, list[n]).Some?
    else SlotOf(c, nvec, list[n]).Some? && SlotFree(c, list, nvec, n)
  }

  predicate Placeable(c: Config, list: seq<Connect>, nvec: nat) {
    forall n | 0 <= n < |list| :: Fits(c, list, nvec, n)
  }

  /** A slot is still the default one exactly when no earlier interrupt has it. */
  lemma {:induction false} FreeIsSpurious(c: Config, list: seq<Connect>, n: nat, swt: seq<Entry>)
    requires n < |list| && Filled(c, list, n, swt) && SlotOf(c, |swt|, list[n]).Some?
    ensures swt[SlotOf(c, |swt|, list[n]).value] == Spurious <==> SlotFree(c, list, |swt|, n)
  {
  }

  lemma {:induction false} FilledNext(c: Config, list: seq<Connect>, n: nat, swt: seq<Entry>)
    requires n < |list| && Filled(c, list, n, swt) && Fits(c, list, |swt|, n)
    ensures list[n].direct ==> Filled(c, list, n + 1, swt)
    ensures !list[n].direct ==>
              Filled(c, list, n + 1, swt[SlotOf(c, |swt|, list[n]).value := Handler(list[n].param, list[n].func)])
  {
    var after := if list[n].direct then swt
                 else swt[SlotOf(c, |swt|, list[n]).value := Handler(list[n].param, list[n].func)];
    forall i | 0 <= i < |after| && after[i] != Spurious ensures Owned(c, |after|, list, n + 1, i) {
      if after[i] == swt[i] {
        assert Owned(c, |swt|, list, n, i);
        var k :| 0 <= k < n && Owns(c, |swt|, list, k, i);
        assert 0 <= k < n + 1 && Owns(c, |after|, list, k, i);
      } else {
        assert Owns(c, |after|, list, n, i);
      }
    }
  }

  /** The script's loop over the interrupts; it stops at the first that cannot be placed. */
  method FillTable(c: Config, list: seq<Connect>, nvec: nat) returns (ok: bool, vt: seq<Vector>, swt: seq<Entry>)
    ensures ok ==> |swt| == nvec && Filled(c, list, |list|, swt)
    ensures ok ==> |vt| == nvec && AllVectored(c, list, |list|, vt)
    ensures ok <==> Placeable(c, list, nvec)
  {
    vt, swt := seq(nvec, _ => Wrapper), seq(nvec, _ => Spurious);
    var n := 0;
    while n < |list|
      invariant 0 <= n <= |list| && |swt| == nvec && Filled(c, list, n, swt)
      invariant |vt| == nvec && AllVectored(c, list, n, vt)
      invariant forall k | 0 <= k < n :: Fits(c, list, nvec, k)
    {
      if list[n].direct {
        var slot := VectorSlot(c, nvec, list[n]);
        if list[n].param != 0 || slot.None? {
          assert !Fits(c, list, nvec, n);
          return false, vt, swt;
        }
        FilledNext(c, list, n, swt);
        VectoredNext(c, list, n, vt);
        vt := vt[slot.value := Direct(list[n].func)];
      } else {
        var slot := SlotOf(c, nvec, list[n]);
        if slot.None? {
          assert !Fits(c, list, nvec, n);
          return false, vt, swt;
        }
        FreeIsSpurious(c, list, n, swt);
        if swt[slot.value] != Spurious {
          assert !Fits(c, list, nvec, n);
          return false, vt, swt;
        }
        FilledNext(c, list, n, swt);
        VectoredNext(c, list, n, vt);
        swt := swt[slot.value := Handler(list[n].param, list[n].func)];
      }
      n := n + 1;
    }
    ok := true;
  }

  // ----- Installing at run time -----------------------------------------------------------

  /** get_parent_offset over the list of parents and offsets that the preprocessor builds */
  method GetParentOffset(parents: seq<nat>, base: nat, maxPer: nat, parent: nat) returns (offset: nat)
    ensures offset == ParentOffset(parents, base, maxPer, parent)
  {
    offset := 0;
    var i := 0;
    while i < |parents|
      invariant 0 <= i <= |parents|
      invariant offset == 0 && forall j | 0 <= j < i :: parents[j] != parent
    {
      if parents[i] == parent {
        assert Position(parents, parent) == Some(i);
        return (base + i * maxPer) % UINTS;
      }
      i := i + 1;
    }
    assert Position(parents, parent) == None;
  }

  /** z_isr_install: the entry the script filled for this interrupt, and no other, is replaced. */
  method Install(c: Config, table: array<Entry>, irq: nat, func: nat, param: nat)
    requires Possible(c) && irq < UINTS && table.Length <= UINTS
    requires BuildIndex(c, irq).Some? && 0 <= BuildIndex(c, irq).value < table.Length
    requires Encodable(c, irq) || StrayTopByte(c, irq)
    modifies table
    ensures table[..] == old(table[..])[BuildIndex(c, irq).value := Handler(param, func)]
  {
    IndicesAgree(c, irq, BuildIndex(c, irq).value);
    var idx;
    if c.multi && Level(c, irq) == 2 {
      var offset := GetParentOffset(c.parents2, c.base2, c.maxPer, Byte1(irq));
      idx := offset + FromLevel2(c, irq);
    } else if c.multi && Level(c, irq) == 3 {
      var offset := GetParentOffset(c.parents3, c.base3, c.maxPer, Byte2(irq));
      idx := offset + FromLevel3(irq);
    } else {
      idx := irq;
    }
    idx := (idx - c.start) % UINTS;
    table[idx] := Handler(param, func);
  }
}
