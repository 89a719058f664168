/** A five-level page table that is extended, page by page, to map a range. */
module PageTables {
  import opened Arithmetic
  import opened Strides

  const PAGE: nat := 0x1000
  /** The tables translate the low 57 bits of an address, of which the higher bits repeat the top one. */
  const SPACE: nat := 0x200_0000_0000_0000
  const HALF: nat := 0x100_0000_0000_0000
  const ADDRESSES: nat := 0x1_0000_0000_0000_0000
  const PHYSICAL: nat := 0x10_0000_0000_0000

  /** Present, writable, write-through, uncached; and the flags of an entry that leads to a table. */
  const PTE_FLAGS: nat := 0x1b
  const TABLE_FLAGS: nat := 3

  /** An address the hardware accepts: in the lower or in the upper half of the 64-bit addresses. */
  predicate Canonical(v: nat) {
    v < HALF || ADDRESSES - HALF <= v < ADDRESSES
  }

  /** Where a table stands: its level, counted up from the tables of pages, and the first address it translates. */
  datatype Place = Place(level: int, base: nat)

  /** The tables in physical memory, and the model's bookkeeping of where they stand. */
  datatype State = State(mem: map<nat, seq<nat>>, places: map<nat, Place>)

  /** What the flags of a page's entry say, low bits first. */
  datatype Access = Access(writable: bool, user: bool, writeThrough: bool, uncached: bool, accessed: bool,
                           dirty: bool, pat: bool, global: bool)

  /** How the pages are mapped: for the kernel to read and write, without the cache. */
  const MAPPED := Access(true, false, true, true, false, false, false, false)

  /** What the hardware makes of an address. */
  datatype Meaning = Fault | Page(phys: nat, access: Access) | Huge(level: int, entry: nat)

  /** Bytes translated by one entry. */
  function Size(level: int): (size: nat)
    ensures size > 0
  {
    if level <= 0 then 0x1000
    else if level == 1 then 0x20_0000
    else if level == 2 then 0x4000_0000
    else if level == 3 then 0x80_0000_0000
    else 0x1_0000_0000_0000
  }

  function Index(v: nat, level: int): (i: nat)
    ensures i < 512
  {
    (v / Size(level)) % 512
  }

  /** Whether the bit of a power of two is set. */
  predicate Bit(e: nat, weight: nat)
    requires weight > 0
  {
    (e / weight) % 2 == 1
  }

  function Rights(e: nat): Access {
    Access(Bit(e, 2), Bit(e, 4), Bit(e, 8), Bit(e, 16), Bit(e, 32), Bit(e, 64), Bit(e, 128), Bit(e, 256))
  }

  predicate Present(e: nat) {
    e % 2 == 1
  }

  /** The page-size bit, which only the entries of two levels have. */
  predicate IsHuge(e: nat, level: int) {
    (level == 1 || level == 2) && Bit(e, 128)
  }

  /** The frame an entry points to, as the hardware reads it and as the code masks it. */
  function Frame(e: nat): nat {
    ((e % PHYSICAL) / PAGE) * PAGE
  }

  function Masked(e: nat): nat {
    (e / PAGE) * PAGE
  }

  predicate At(s: State, t: nat, i: int) {
    t in s.mem && t in s.places && 0 <= i < |s.mem[t]|
  }

  function EntryBase(s: State, t: nat, i: int): nat
    requires At(s, t, i)
  {
    s.places[t].base + Offset(i, Size(s.places[t].level))
  }

  /** An entry that leads to a table one level down. */
  predicate Leads(s: State, t: nat, i: int) {
    At(s, t, i) && s.places[t].level > 0 && Present(s.mem[t][i]) && !IsHuge(s.mem[t][i], s.places[t].level)
  }

  /** Tables are where their entries say, have no stray address bits, and the root covers the whole space. */
  ghost predicate WellFormed(s: State, root: nat) {
    && root in s.mem && s.mem.Keys == s.places.Keys && s.places[root] == Place(4, 0)
    && (forall t :: t in s.mem ==>
          (|s.mem[t]| == 512 && 0 <= s.places[t].level <= 4
              && Multiple(s.places[t].base, 512 * Size(s.places[t].level))))
    && (forall t, i :: Leads(s, t, i) ==>
          (s.mem[t][i] < PHYSICAL && Masked(s.mem[t][i]) in s.mem
           && s.places[Masked(s.mem[t][i])] == Place(s.places[t].level - 1, EntryBase(s, t, i))))
  }

  lemma FrameIsMasked(e: nat)
    requires e < PHYSICAL
    ensures Frame(e) == Masked(e)
  {
    SmallMod(e, PHYSICAL);
  }

  /** An entry made of a page-aligned address and flags below a page. */
  lemma MadeEntry(pa: nat, flags: nat)
    requires Multiple(pa, PAGE) && pa < PHYSICAL && flags < PAGE
    ensures pa + flags < PHYSICAL && Masked(pa + flags) == pa && Frame(pa + flags) == pa
  {
    MultipleIsAligned(pa, PAGE);
    var k := pa / PAGE;
    assert pa == k * PAGE;
    FrameIsMasked(pa + flags);
  }

  // ---- Translation -------------------------------------------------------------------

  /** The hardware's walk from table t on. */
  function View(s: State, root: nat, t: nat, v: nat): Meaning
    requires WellFormed(s, root) && t in s.mem
    decreases s.places[t].level
  {
    var level := s.places[t].level;
    var i := Index(v, level);
    var e := s.mem[t][i];
    if !Present(e) then Fault
    else if level == 0 then Page(Frame(e) + v % PAGE, Rights(e))
    else if IsHuge(e, level) then Huge(level, e)
    else
      assert Leads(s, t, i);
      View(s, root, Masked(e), v)
  }

  /** What the hardware makes of a canonical address; of its higher bits the walk takes no notice. */
  function Translate(s: State, root: nat, v: nat): Meaning
    requires WellFormed(s, root)
  {
    View(s, root, root, v)
  }

  lemma LowIndex(v: nat, level: int)
    requires 0 <= level <= 4
    ensures Index(v % SPACE, level) == Index(v, level) && v % SPACE % PAGE == v % PAGE
  {
    var k, low := v / SPACE, v % SPACE;
    assert v == k * SPACE + low;
    var n := if level == 0 then 0x20_0000_0000 * 0x100 else if level == 1 then 0x1000_0000 * 0x100
             else if level == 2 then 0x8_0000 * 0x100 else if level == 3 then 0x400 * 0x100 else 0x2 * 0x100;
    assert n * Size(level) == SPACE && n % 512 == 0;
    SplitIndex(v, k, n, Size(level), low);
  }

  lemma SplitIndex(v: nat, k: nat, n: nat, size: nat, low: nat)
    requires size > 0 && n % 512 == 0 && v == k * (n * size) + low
    ensures (v / size) % 512 == (low / size) % 512
  {
    MulAssoc(k, n, size);
    MulDistribute(k * n, low / size, size);
    DivModUnique(v, size, k * n + low / size, low % size);
    MulAssoc(k, n / 512, 512);
    ModAddMultiple(low / size, k * (n / 512), 512);
  }

  lemma {:induction false} LowView(s: State, root: nat, t: nat, v: nat)
    requires WellFormed(s, root) && t in s.mem
    ensures View(s, root, t, v % SPACE) == View(s, root, t, v)
    decreases s.places[t].level
  {
    var i := Index(v, s.places[t].level);
    LowIndex(v, s.places[t].level);
    if Leads(s, t, i) {
      LowView(s, root, Masked(s.mem[t][i]), v);
    }
  }

  predicate InTable(s: State, t: nat, v: nat) {
    t in s.places && s.places[t].base <= v < s.places[t].base + 512 * Size(s.places[t].level)
  }

  /** An address in the range of a table is in the range of the entry its index selects. */
  lemma InEntry(base: nat, v: nat, level: int)
    requires Multiple(base, 512 * Size(level)) && base <= v < base + 512 * Size(level)
    ensures base + Offset(Index(v, level), Size(level)) <= v
              < base + Offset(Index(v, level), Size(level)) + Size(level)
  {
    MultipleIsAligned(base, 512 * Size(level));
    IndexBySize(base, v, Size(level));
    OffsetIsProduct(Index(v, level), Size(level));
  }

  lemma NextLevel(level: int)
    requires 1 <= level <= 4
    ensures Size(level) == 512 * Size(level - 1)
  {
  }

  /** The next table of a walk covers the address. */
  lemma StepDown(s: State, root: nat, t: nat, v: nat)
    requires WellFormed(s, root) && t in s.mem && InTable(s, t, v) && Leads(s, t, Index(v, s.places[t].level))
    ensures InTable(s, Masked(s.mem[t][Index(v, s.places[t].level)]), v)
  {
    InEntry(s.places[t].base, v, s.places[t].level);
    NextLevel(s.places[t].level);
  }

  // ---- Hanging an empty table ------------------------------------------------------------

  function Empty(): (es: seq<nat>)
    ensures |es| == 512 && forall i :: 0 <= i < 512 ==> es[i] == 0
  {
    seq(512, i => 0)
  }

  /** The page can become a table: nothing is there yet, and it is a page of physical memory. */
  predicate Fresh(s: State, page: nat) {
    page !in s.mem && page !in s.places && Multiple(page, PAGE) && page < PHYSICAL
  }

  /** The empty table page below entry i of table t. */
  function Hang(s: State, t: nat, i: nat, page: nat): State
    requires At(s, t, i)
  {
    var row: seq<nat> := s.mem[t][i := page + TABLE_FLAGS];
    State(s.mem[page := Empty()][t := row],
          s.places[page := Place(s.places[t].level - 1, EntryBase(s, t, i))])
  }

  ghost predicate CanHang(s: State, root: nat, t: nat, i: nat, page: nat) {
    WellFormed(s, root) && At(s, t, i) && s.places[t].level > 0 && !Present(s.mem[t][i]) && Fresh(s, page)
  }

  lemma HangShape(s: State, root: nat, t: nat, i: nat, page: nat)
    requires CanHang(s, root, t, i, page)
    ensures var s' := Hang(s, t, i, page);
      page != t && At(s', t, i) && s'.mem[t][i] == page + TABLE_FLAGS && s'.mem[page] == Empty()
      && (forall u :: u in s.mem ==> u in s'.mem && s'.places[u] == s.places[u])
      && (forall u, j :: At(s, u, j) && (u != t || j != i) ==> At(s', u, j) && s'.mem[u][j] == s.mem[u][j])
  {
  }

  lemma HangKeeps(s: State, root: nat, t: nat, i: nat, page: nat)
    requires CanHang(s, root, t, i, page)
    ensures WellFormed(Hang(s, t, i, page), root)
  {
    var s' := Hang(s, t, i, page);
    MadeEntry(page, TABLE_FLAGS);
    EntryAligned(s.places[t].base, i, Size(s.places[t].level));
    NextLevel(s.places[t].level);
    forall u, j | Leads(s', u, j)
      ensures s'.mem[u][j] < PHYSICAL && Masked(s'.mem[u][j]) in s'.mem
        && s'.places[Masked(s'.mem[u][j])] == Place(s'.places[u].level - 1, EntryBase(s', u, j))
    {
      if u == page {
        assert false;
      } else if u != t || j != i {
        assert Leads(s, u, j) && EntryBase(s', u, j) == EntryBase(s, u, j);
      }
    }
  }

  /** An empty table where nothing was mapped changes no translation. */
  lemma {:induction false} HangView(s: State, root: nat, t: nat, i: nat, page: nat, u: nat, v: nat)
    requires CanHang(s, root, t, i, page) && u in s.mem && WellFormed(Hang(s, t, i, page), root)
    ensures View(Hang(s, t, i, page), root, u, v) == View(s, root, u, v)
    decreases s.places[u].level
  {
    var s' := Hang(s, t, i, page);
    var j := Index(v, s.places[u].level);
    assert At(s, u, j);
    HangShape(s, root, t, i, page);
    if u == t && j == i {
      MadeEntry(page, TABLE_FLAGS);
      NotHuge(page);
      assert Leads(s', t, i);
      assert View(s', root, page, v) == Fault;
    } else if Leads(s, u, j) {
      HangView(s, root, t, i, page, Masked(s.mem[u][j]), v);
    }
  }

  lemma NotHuge(page: nat)
    requires Multiple(page, PAGE)
    ensures Present(page + TABLE_FLAGS) && !Bit(page + TABLE_FLAGS, 128)
  {
    MadeBits(page, TABLE_FLAGS);
  }

  // ---- Writing the entry of a page ----------------------------------------------------------

  function MapPage(s: State, t: nat, i: nat, pa: nat): State
    requires At(s, t, i)
  {
    var row: seq<nat> := s.mem[t][i := pa + PTE_FLAGS];
    s.(mem := s.mem[t := row])
  }

  lemma MapKeeps(s: State, root: nat, t: nat, i: nat, pa: nat)
    requires WellFormed(s, root) && At(s, t, i) && s.places[t].level == 0
    ensures WellFormed(MapPage(s, t, i, pa), root)
  {
    var s' := MapPage(s, t, i, pa);
    forall u, j | Leads(s', u, j)
      ensures s'.mem[u][j] < PHYSICAL && Masked(s'.mem[u][j]) in s'.mem
        && s'.places[Masked(s'.mem[u][j])] == Place(s'.places[u].level - 1, EntryBase(s', u, j))
    {
      assert Leads(s, u, j) && EntryBase(s', u, j) == EntryBase(s, u, j);
    }
  }

  /** Outside the page, translations stay. */
  lemma {:induction false} MapOutside(s: State, root: nat, t: nat, i: nat, pa: nat, u: nat, v: nat)
    requires WellFormed(s, root) && At(s, t, i) && s.places[t].level == 0 && WellFormed(MapPage(s, t, i, pa), root)
    requires u in s.mem && InTable(s, u, v) && !(EntryBase(s, t, i) <= v < EntryBase(s, t, i) + PAGE)
    ensures View(MapPage(s, t, i, pa), root, u, v) == View(s, root, u, v)
    decreases s.places[u].level
  {
    var s' := MapPage(s, t, i, pa);
    var j := Index(v, s.places[u].level);
    assert At(s, u, j);
    InEntry(s.places[u].base, v, s.places[u].level);
    assert s'.mem[u][j] == s.mem[u][j];
    if Leads(s, u, j) {
      StepDown(s, root, u, v);
      MapOutside(s, root, t, i, pa, Masked(s.mem[u][j]), v);
    }
  }

  /** The walk from table u arrives at table t. */
  predicate Reaches(s: State, root: nat, u: nat, t: nat, v: nat)
    requires WellFormed(s, root) && u in s.mem
    decreases s.places[u].level
  {
    var i := Index(v, s.places[u].level);
    u == t || (Leads(s, u, i) && Reaches(s, root, Masked(s.mem[u][i]), t, v))
  }

  /** The walks of one page arrive at the same tables. */
  lemma {:induction false} PageReaches(s: State, root: nat, u: nat, t: nat, v: nat, w: nat)
    requires WellFormed(s, root) && u in s.mem && Reaches(s, root, u, t, v) && v / PAGE == w / PAGE
    ensures Reaches(s, root, u, t, w)
    decreases s.places[u].level
  {
    SamePage(v, w, s.places[u].level);
    var i := Index(v, s.places[u].level);
    if u == t {
    } else {
      PageReaches(s, root, Masked(s.mem[u][i]), t, v, w);
    }
  }

  lemma SamePage(v: nat, w: nat, level: int)
    requires v / PAGE == w / PAGE
    ensures Index(v, level) == Index(w, level)
  {
    var k := if level <= 0 then 1 else if level == 1 then 512 else if level == 2 then 0x4_0000
             else if level == 3 then 0x800_0000 else 0x10_0000_0000;
    DivDiv(v, PAGE, k);
    DivDiv(w, PAGE, k);
    assert PAGE * k == Size(level);
  }

  lemma {:induction false} ReachesView(s: State, root: nat, u: nat, t: nat, v: nat)
    requires WellFormed(s, root) && u in s.mem && t in s.mem && Reaches(s, root, u, t, v)
    ensures View(s, root, u, v) == View(s, root, t, v)
    decreases s.places[u].level
  {
    if u == t {
    } else {
      ReachesView(s, root, Masked(s.mem[u][Index(v, s.places[u].level)]), t, v);
    }
  }

  /** Hanging a table elsewhere, or below, does not turn a walk away. */
  lemma {:induction false} HangReaches(s: State, root: nat, t: nat, i: nat, page: nat, u: nat, x: nat, v: nat)
    requires CanHang(s, root, t, i, page) && WellFormed(Hang(s, t, i, page), root)
    requires u in s.mem && Reaches(s, root, u, x, v)
    ensures Reaches(Hang(s, t, i, page), root, u, x, v)
    decreases s.places[u].level
  {
    HangShape(s, root, t, i, page);
    var j := Index(v, s.places[u].level);
    if u == x {
    } else {
      assert Leads(s, u, j) && Leads(Hang(s, t, i, page), u, j);
      HangReaches(s, root, t, i, page, Masked(s.mem[u][j]), x, v);
    }
  }

  lemma {:induction false} MapReaches(s: State, root: nat, t: nat, i: nat, pa: nat, u: nat, x: nat, v: nat)
    requires WellFormed(s, root) && At(s, t, i) && s.places[t].level == 0 && WellFormed(MapPage(s, t, i, pa), root)
    requires u in s.mem && Reaches(s, root, u, x, v)
    ensures Reaches(MapPage(s, t, i, pa), root, u, x, v)
    decreases s.places[u].level
  {
    var j := Index(v, s.places[u].level);
    if u == x {
    } else {
      assert Leads(s, u, j) && Leads(MapPage(s, t, i, pa), u, j);
      MapReaches(s, root, t, i, pa, Masked(s.mem[u][j]), x, v);
    }
  }

  /** One step further along a walk. */
  lemma {:induction false} ReachesNext(s: State, root: nat, u: nat, t: nat, v: nat)
    requires WellFormed(s, root) && u in s.mem && t in s.mem && Reaches(s, root, u, t, v)
    requires Leads(s, t, Index(v, s.places[t].level))
    ensures Reaches(s, root, u, Masked(s.mem[t][Index(v, s.places[t].level)]), v)
    decreases s.places[u].level
  {
    var c := Masked(s.mem[t][Index(v, s.places[t].level)]);
    if u == t {
      assert Reaches(s, root, c, c, v);
    } else {
      ReachesNext(s, root, Masked(s.mem[u][Index(v, s.places[u].level)]), t, v);
    }
  }

  /** The translations of the two states agree at every address. */
  ghost predicate SameView(s: State, s': State, root: nat)
    requires WellFormed(s, root) && WellFormed(s', root)
  {
    forall w: nat {:trigger Translate(s', root, w)} :: Translate(s', root, w) == Translate(s, root, w)
  }

  /** The page of v is mapped to pa, and no other page is touched. */
  ghost predicate MapsPage(s: State, s': State, root: nat, v: nat, pa: nat)
    requires WellFormed(s, root) && WellFormed(s', root)
  {
    forall w: nat {:trigger Translate(s', root, w)} :: Canonical(w) ==>
      Translate(s', root, w) == if w / PAGE == v / PAGE then Page(pa + w % PAGE, MAPPED) else Translate(s, root, w)
  }

  /** The page of v among the low bits is mapped to pa, and no other page is touched. */
  ghost predicate MapsLowPage(s: State, s': State, root: nat, v: nat, pa: nat)
    requires WellFormed(s, root) && WellFormed(s', root)
  {
    forall w: nat {:trigger Translate(s', root, w)} :: w < SPACE ==>
      Translate(s', root, w) == if w / PAGE == v / PAGE then Page(pa + w % PAGE, MAPPED) else Translate(s, root, w)
  }

  /** Canonical addresses are told apart by their low bits. */
  lemma SameLowPage(v: nat, w: nat)
    requires Canonical(v) && Canonical(w)
    ensures (w % SPACE) / PAGE == (v % SPACE) / PAGE <==> w / PAGE == v / PAGE
    ensures (w % SPACE) % PAGE == w % PAGE
  {
    LowBits(v);
    LowBits(w);
  }

  lemma LowBits(v: nat)
    requires Canonical(v)
    ensures v % SPACE == if v < HALF then v else v - (ADDRESSES - SPACE)
  {
    if v >= HALF {
      DivModUnique(v, SPACE, 127, v - 127 * SPACE);
    }
  }

  lemma LiftPage(s: State, s': State, root: nat, v: nat, pa: nat)
    requires WellFormed(s, root) && WellFormed(s', root) && Canonical(v) && MapsLowPage(s, s', root, v % SPACE, pa)
    ensures MapsPage(s, s', root, v, pa)
  {
    hide View;
    forall w: nat | Canonical(w)
      ensures Translate(s', root, w)
        == if w / PAGE == v / PAGE then Page(pa + w % PAGE, MAPPED) else Translate(s, root, w)
    {
      LowView(s, root, root, w);
      LowView(s', root, root, w);
      SameLowPage(v, w);
      assert Translate(s', root, w % SPACE) == View(s', root, root, w % SPACE);
    }
  }

  /** Addresses from start on, below end, are mapped at a fixed distance, and no other is touched. */
  ghost predicate MapsRange(s: State, s': State, root: nat, start: nat, end: nat, pa: nat)
    requires WellFormed(s, root) && WellFormed(s', root)
  {
    forall w: nat {:trigger Translate(s', root, w)} :: Canonical(w) ==>
      Translate(s', root, w) == if start <= w < end then Page(pa + (w - start), MAPPED) else Translate(s, root, w)
  }

  /** No address of a range is translated by a huge page. */
  ghost predicate NoHuge(s: State, root: nat, start: nat, end: int)
    requires WellFormed(s, root)
  {
    forall w: nat {:trigger Translate(s, root, w)} :: Canonical(w) && start <= w < end ==> !Translate(s, root, w).Huge?
  }

  /** A range grows by one page. */
  lemma GrowRange(s: State, s1: State, s2: State, root: nat, start: nat, end: nat, pa: nat)
    requires WellFormed(s, root) && WellFormed(s1, root) && WellFormed(s2, root)
    requires start <= end && Multiple(end, PAGE)
    requires MapsRange(s, s1, root, start, end, pa) && MapsPage(s1, s2, root, end, pa + (end - start))
    ensures MapsRange(s, s2, root, start, end + PAGE, pa)
  {
    InPage(end);
    forall w: nat | Canonical(w)
      ensures Translate(s2, root, w)
        == if start <= w < end + PAGE then Page(pa + (w - start), MAPPED) else Translate(s, root, w)
    {
      assert w / PAGE == end / PAGE <==> end <= w < end + PAGE;
      assert Translate(s1, root, w)
        == if start <= w < end then Page(pa + (w - start), MAPPED) else Translate(s, root, w);
    }
  }

  /** A walk for v has arrived at table t. */
  ghost predicate Arrived(s: State, root: nat, t: nat, v: nat) {
    WellFormed(s, root) && t in s.mem && InTable(s, t, v) && Reaches(s, root, root, t, v)
  }

  lemma HangArrives(s: State, root: nat, t: nat, page: nat, v: nat)
    requires Arrived(s, root, t, v) && CanHang(s, root, t, Index(v, s.places[t].level), page)
    ensures var s' := Hang(s, t, Index(v, s.places[t].level), page);
      WellFormed(s', root) && SameView(s, s', root) && Arrived(s', root, page, v)
      && s'.places[page].level == s.places[t].level - 1
  {
    var i := Index(v, s.places[t].level);
    var s' := Hang(s, t, i, page);
    HangKeeps(s, root, t, i, page);
    HangShape(s, root, t, i, page);
    forall w ensures Translate(s', root, w) == Translate(s, root, w) {
      HangView(s, root, t, i, page, root, w);
    }
    HangReaches(s, root, t, i, page, root, t, v);
    MadeEntry(page, TABLE_FLAGS);
    NotHuge(page);
    assert Leads(s', t, i);
    ReachesNext(s', root, root, t, v);
    StepDown(s', root, t, v);
  }

  lemma LeadsOn(s: State, root: nat, t: nat, v: nat)
    requires Arrived(s, root, t, v) && s.places[t].level > 0 && !Translate(s, root, v).Huge?
    requires Present(s.mem[t][Index(v, s.places[t].level)])
    ensures var c := Masked(s.mem[t][Index(v, s.places[t].level)]);
      Arrived(s, root, c, v) && s.places[c].level == s.places[t].level - 1
  {
    ReachesView(s, root, root, t, v);
    assert Leads(s, t, Index(v, s.places[t].level));
    ReachesNext(s, root, root, t, v);
    StepDown(s, root, t, v);
  }

  /** What writing the last entry does to every address. */
  lemma MapView(s: State, root: nat, t: nat, v: nat, pa: nat)
    requires Arrived(s, root, t, v) && s.places[t].level == 0 && Multiple(pa, PAGE) && pa < PHYSICAL
    ensures var s' := MapPage(s, t, Index(v, 0), pa);
      WellFormed(s', root) && MapsLowPage(s, s', root, v, pa)
  {
    var i := Index(v, 0);
    var s' := MapPage(s, t, i, pa);
    MapKeeps(s, root, t, i, pa);
    hide WellFormed, View, Reaches, MapPage;
    forall w: nat | w < SPACE
      ensures Translate(s', root, w)
        == if w / PAGE == v / PAGE then Page(pa + w % PAGE, MAPPED) else Translate(s, root, w)
    {
      MapViewAt(s, s', root, t, v, pa, w);
    }
  }

  lemma MapViewAt(s: State, s': State, root: nat, t: nat, v: nat, pa: nat, w: nat)
    requires Arrived(s, root, t, v) && s.places[t].level == 0 && Multiple(pa, PAGE) && pa < PHYSICAL && w < SPACE
    requires s' == MapPage(s, t, Index(v, 0), pa) && WellFormed(s', root)
    ensures Translate(s', root, w)
      == if w / PAGE == v / PAGE then Page(pa + w % PAGE, MAPPED) else Translate(s, root, w)
  {
    hide View, Reaches;
    var i := Index(v, 0);
    InEntry(s.places[t].base, v, 0);
    EntryAligned(s.places[t].base, i, PAGE);
    PageOf(EntryBase(s, t, i), v, w);
    if w / PAGE == v / PAGE {
      PageReaches(s, root, root, t, v, w);
      MapReaches(s, root, t, i, pa, root, t, w);
      ReachesView(s', root, root, t, w);
      SamePage(v, w, 0);
      LastView(s', root, t, w, pa);
    } else {
      MapOutside(s, root, t, i, pa, root, w);
    }
  }

  lemma LastView(s: State, root: nat, t: nat, w: nat, pa: nat)
    requires WellFormed(s, root) && t in s.mem && s.places[t].level == 0 && Multiple(pa, PAGE) && pa < PHYSICAL
    requires s.mem[t][Index(w, 0)] == pa + PTE_FLAGS
    ensures View(s, root, t, w) == Page(pa + w % PAGE, MAPPED)
  {
    MadeEntry(pa, PTE_FLAGS);
    MadePresent(pa);
    MadeAccess(pa);
  }

  lemma MadePresent(pa: nat)
    requires Multiple(pa, PAGE)
    ensures Present(pa + PTE_FLAGS)
  {
    MultipleIsAligned(pa, PAGE);
    assert pa == (pa / PAGE) * PAGE;
  }

  lemma MadeAccess(pa: nat)
    requires Multiple(pa, PAGE)
    ensures Rights(pa + PTE_FLAGS) == MAPPED
  {
    MadeBits(pa, PTE_FLAGS);
  }

  /** The flags of an entry are those it is made with. */
  lemma MadeBits(pa: nat, flags: nat)
    requires Multiple(pa, PAGE)
    ensures Rights(pa + flags) == Rights(flags) && Present(pa + flags) == Present(flags)
  {
    hide Bit;
    BitKept(pa, flags, 2, 1024);
    BitKept(pa, flags, 4, 512);
    BitKept(pa, flags, 8, 256);
    BitKept(pa, flags, 16, 128);
    BitKept(pa, flags, 32, 64);
    BitKept(pa, flags, 64, 32);
    BitKept(pa, flags, 128, 16);
    BitKept(pa, flags, 256, 8);
    MultipleIsAligned(pa, PAGE);
  }

  lemma BitKept(pa: nat, flags: nat, weight: nat, half: nat)
    requires Multiple(pa, PAGE) && weight > 0 && half * weight * 2 == PAGE
    ensures Bit(pa + flags, weight) == Bit(flags, weight)
  {
    hide Multiple;
    MultipleIsAligned(pa, PAGE);
    BitAbove(pa / PAGE, half, flags / weight, flags % weight, weight);
    Spread(pa / PAGE, half, weight);
    assert pa == pa / PAGE * PAGE;
  }

  lemma Spread(k: nat, half: nat, weight: nat)
    ensures 2 * (k * half) * weight == k * (half * weight * 2)
  {
    MulAssoc(k, half, weight);
    MulAssoc(2, k * half, weight);
    MulAssoc(k, half * weight, 2);
  }

  lemma BitAbove(k: nat, half: nat, q: nat, r: nat, weight: nat)
    requires r < weight
    ensures ((2 * (k * half) * weight + (q * weight + r)) / weight) % 2 == q % 2
  {
    MulDistribute(2 * (k * half), q, weight);
    DivModUnique(2 * (k * half) * weight + (q * weight + r), weight, 2 * (k * half) + q, r);
  }

  /** An entry that leads to a new table is present and writable, and nothing else. */
  lemma TableAccess(s: State, t: nat, i: nat, page: nat)
    requires At(s, t, i) && page != t && Multiple(page, PAGE)
    ensures var e := Hang(s, t, i, page).mem[t][i];
      Present(e) && Rights(e) == Access(true, false, false, false, false, false, false, false)
  {
    MadeBits(page, TABLE_FLAGS);
  }

  lemma PageOf(base: nat, v: nat, w: nat)
    requires Multiple(base, PAGE) && base <= v < base + PAGE
    ensures base <= w < base + PAGE <==> w / PAGE == v / PAGE
  {
    MultipleIsAligned(base, PAGE);
    assert base == (base / PAGE) * PAGE;
  }

  // ---- The program -----------------------------------------------------------------------------

  class Remapper {
    const cr3: nat
    var mem: map<nat, seq<nat>>
    ghost var places: map<nat, Place>
    var pool: seq<nat>

    ghost function Now(): State
      reads this
    {
      State(mem, places)
    }

    /** The allocator hands out zeroed pages that are in no use, until it has none left. */
    ghost predicate Valid()
      reads this
    {
      && WellFormed(Now(), cr3)
      && (forall j :: 0 <= j < |pool| ==> Fresh(Now(), pool[j]))
      && (forall j, k :: 0 <= j < k < |pool| ==> pool[j] != pool[k])
    }

    /** The next table of the walk for v, allocated if there is none. */
    method NextTable(t: nat, i: nat, ghost v: nat) returns (ok: bool, c: nat)
      requires Valid() && Arrived(Now(), cr3, t, v) && places[t].level > 0 && i == Index(v, places[t].level)
      requires !Translate(Now(), cr3, v).Huge?
      modifies this
      ensures Valid() && SameView(old(Now()), Now(), cr3) && (!ok ==> Now() == old(Now()) && pool == [])
      ensures |old(pool)| <= |pool| + (if ok then 1 else 0)
      ensures ok ==> Arrived(Now(), cr3, c, v) && places[c].level == old(places[t].level) - 1
    {
      hide View, Reaches, InTable;
      if !Present(mem[t][i]) {
        if pool == [] {
          return false, 0;
        }
        NewTable(t, i, v);
      } else {
        LeadsOn(Now(), cr3, t, v);
      }
      ok, c := true, Masked(mem[t][i]);
    }

    /** Takes a page from the allocator and hangs it below the entry. */
    method NewTable(t: nat, i: nat, ghost v: nat)
      requires Valid() && Arrived(Now(), cr3, t, v) && places[t].level > 0 && i == Index(v, places[t].level)
      requires !Present(mem[t][i]) && pool != []
      modifies this
      ensures Valid() && SameView(old(Now()), Now(), cr3) && At(Now(), t, i)
      ensures |old(pool)| == |pool| + 1
      ensures Arrived(Now(), cr3, Masked(mem[t][i]), v) && places[Masked(mem[t][i])].level == old(places[t].level) - 1
    {
      hide View, Reaches, InTable, WellFormed, Fresh;
      ghost var was := Now();
      var np := pool[0];
      pool := pool[1..];
      NextPage(was, cr3, t, i, np, v);
      HangArrives(was, cr3, t, np, v);
      PoolAfter(was, t, i, np, pool);
      var row: seq<nat> := mem[t][i := np + TABLE_FLAGS];
      ghost var place := Place(places[t].level - 1, EntryBase(was, t, i));
      mem := mem[np := Empty()][t := row];
      places := places[np := place];
      assert Now() == Hang(was, t, i, np);
    }

    /** Maps one page; without memory for the four tables below the root nothing changes for any address. */
    method MapOne(virt: nat, phys: nat) returns (ok: bool)
      requires Valid() && Canonical(virt) && Multiple(phys, PAGE) && phys < PHYSICAL
      requires !Translate(Now(), cr3, virt).Huge?
      modifies this
      ensures Valid()
      ensures if ok then MapsPage(old(Now()), Now(), cr3, virt, phys) else SameView(old(Now()), Now(), cr3)
      ensures !ok ==> pool == [] && |old(pool)| < 4
    {
      hide View, Reaches, InTable, Fresh;
      ghost var was, v := Now(), virt % SPACE;
      AtRoot(was, cr3, v);
      LowView(was, cr3, cr3, virt);
      LowIndex(virt, 4);
      LowIndex(virt, 3);
      LowIndex(virt, 2);
      LowIndex(virt, 1);
      LowIndex(virt, 0);
      var p4d, pud, pmd, pte;
      ok, p4d := NextTable(cr3, Index(virt, 4), v);
      if !ok { return; }
      ok, pud := NextTable(p4d, Index(virt, 3), v);
      if !ok { return; }
      ok, pmd := NextTable(pud, Index(virt, 2), v);
      if !ok { return; }
      ok, pte := NextTable(pmd, Index(virt, 1), v);
      if !ok { return; }
      ghost var s4 := Now();
      MapView(s4, cr3, pte, v, phys);
      var row: seq<nat> := mem[pte][Index(virt, 0) := phys + PTE_FLAGS];
      mem := mem[pte := row];
      assert Now() == MapPage(s4, pte, Index(v, 0), phys);
      StillFresh(s4, Now(), pool);
      LiftPage(s4, Now(), cr3, virt, phys);
    }

    /**
     * Maps the pages from physStart up to and including the one physEnd lies
     * in. The pages before the address it reaches are mapped, and every other
     * address translates as before; it reaches the end unless memory runs out.
     */
    method RemapRange(physStart: nat, physEnd: nat, virtStart: nat) returns (ok: bool, ghost reached: nat)
      requires Valid() && physEnd < PHYSICAL
      requires Masked(physStart) <= Masked(physEnd) ==>
        Canonical(Masked(virtStart)) && Canonical(Masked(virtStart) + (Masked(physEnd) - Masked(physStart)))
      requires NoHuge(Now(), cr3, Masked(virtStart), Masked(virtStart) + Masked(physEnd) - Masked(physStart) + PAGE)
      modifies this
      ensures Valid()
      ensures MapsRange(old(Now()), Now(), cr3, Masked(virtStart), reached, Masked(physStart))
      ensures ok && Masked(physStart) <= Masked(physEnd) ==>
        reached == Masked(virtStart) + (Masked(physEnd) - Masked(physStart)) + PAGE
      ensures ok && Masked(physStart) > Masked(physEnd) ==> reached == Masked(virtStart)
      ensures !ok ==> pool == []
      ensures !ok ==> Masked(virtStart) <= reached <= Masked(virtStart) + (Masked(physEnd) - Masked(physStart))
    {
      hide View, WellFormed, Masked;
      MaskedMultiple(physStart);
      MaskedMultiple(physEnd);
      MaskedMultiple(virtStart);
      var phys, virt, end := Masked(physStart), Masked(virtStart), Masked(physEnd);
      ghost var p0, v0 := phys, virt;
      ok, reached := true, virt;
      while phys <= end
        invariant p0 <= phys && phys - p0 == reached - v0 && Multiple(phys, PAGE) && Multiple(reached, PAGE)
        invariant phys == p0 || (p0 <= end && phys <= end + PAGE)
        invariant phys <= end ==> virt == reached
        invariant Valid()
        invariant MapsRange(old(Now()), Now(), cr3, v0, reached, p0)
        decreases end + PAGE - phys
      {
        StepPage(phys, end);
        StepPage(virt, virt);
        Between(v0, virt, v0 + (end - p0), end - p0);
        ghost var before := Now();
        ok := MapOne(virt, phys);
        if !ok {
          return;
        }
        GrowRange(old(Now()), before, Now(), cr3, v0, virt, p0);
        phys, virt, reached := phys + PAGE, (virt + PAGE) % ADDRESSES, reached + PAGE;
        BelowTop(v0, reached, end - p0, phys - p0);
      }
      if phys > end {
        StepPage(end, phys);
      }
    }
  }

  /** Between two canonical addresses closer than the gap between the halves all are canonical. */
  lemma Between(v: nat, w: nat, u: nat, length: nat)
    requires Canonical(v) && Canonical(u) && v <= w <= u && u == v + length && length < PHYSICAL
    ensures Canonical(w)
  {
  }

  /** The address of the next page does not wrap unless it is past the end. */
  lemma BelowTop(v: nat, next: nat, length: nat, done: nat)
    requires Canonical(v) && Canonical(v + length) && next == v + done && length < PHYSICAL
    ensures done <= length ==> next % ADDRESSES == next
  {
  }

  lemma AtRoot(s: State, root: nat, v: nat)
    requires WellFormed(s, root) && v < SPACE
    ensures Arrived(s, root, root, v)
  {
  }

  /** What hanging the page makes of the entry. */
  lemma NextPage(s: State, root: nat, t: nat, i: nat, np: nat, v: nat)
    requires Arrived(s, root, t, v) && i == Index(v, s.places[t].level) && Fresh(s, np)
    ensures At(s, t, i) && np != t && Masked(np + TABLE_FLAGS) == np
  {
    MadeEntry(np, TABLE_FLAGS);
  }

  lemma PoolAfter(s: State, t: nat, i: nat, np: nat, pool: seq<nat>)
    requires At(s, t, i) && np !in pool && forall j :: 0 <= j < |pool| ==> Fresh(s, pool[j])
    ensures forall j :: 0 <= j < |pool| ==> Fresh(Hang(s, t, i, np), pool[j])
  {
  }

  lemma StillFresh(s: State, s': State, pool: seq<nat>)
    requires s'.mem.Keys == s.mem.Keys && s'.places == s.places && forall j :: 0 <= j < |pool| ==> Fresh(s, pool[j])
    ensures forall j :: 0 <= j < |pool| ==> Fresh(s', pool[j])
  {
  }

  lemma MaskedMultiple(x: nat)
    ensures Multiple(Masked(x), PAGE) && Masked(x) <= x
  {
    MultipleIsAligned(Masked(x), PAGE);
  }

  lemma StepPage(x: nat, y: nat)
    requires Multiple(x, PAGE) && Multiple(y, PAGE) && x <= y
    ensures Multiple(x + PAGE, PAGE) && (x == y || x + PAGE <= y)
  {
    MultipleIsAligned(x, PAGE);
    MultipleIsAligned(y, PAGE);
    MultipleIsAligned(x + PAGE, PAGE);
  }

  lemma InPage(virt: nat)
    requires Multiple(virt, PAGE)
    ensures forall w: nat :: w / PAGE == virt / PAGE <==> virt <= w < virt + PAGE
    ensures forall w: nat :: virt <= w < virt + PAGE ==> w % PAGE == w - virt
  {
    MultipleIsAligned(virt, PAGE);
  }
}
