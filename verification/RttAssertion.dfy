/**
 * The assertion of the monitor that the host can make fail: a level-2 table of
 * unprotected blocks folds into a level-1 block, which cannot be unfolded again.
 */
module RttAssertion {
  import opened Arithmetic
  import opened Strides
  import opened RttModel
  import opened RttCommands
  import opened RttSafety
  import opened RttTree
  import opened RttView
  import opened RttRipas
  import opened RttRuns

  // ---- Filling a table with unprotected blocks ---------------------------------------------

  lemma {:induction false} OffsetIsMultiple(j: nat, size: nat)
    requires size > 0
    ensures Multiple(Offset(j, size), size)
  {
    if j == 0 {
    } else {
      OffsetIsMultiple(j - 1, size);
    }
  }

  /** Entry i of the level-1 table p translates the addresses from ipa on, all of them unprotected. */
  ghost predicate Opens(r: Realm, s: State, p: nat, i: nat, ipa: nat) {
    At(s, p, i) && s.places[p].level == 1 && EntryBase(s, p, i) == ipa && r.parSize <= ipa
    && ipa + MapSize(1) <= r.ipaSize && r.startLevel <= 1
  }

  /** Table c hangs there, and its first k entries map the first k blocks of memory. */
  ghost predicate Filled(r: Realm, s: State, p: nat, i: nat, c: nat, rd: nat, ipa: nat, k: nat) {
    && Inv(r, s) && k <= ENTRIES && Is(s, rd, Descriptor)
    && Opens(r, s, p, i, ipa) && PointsTo(s, p, i, c) && c in s.tables && c in s.places && s.places[c] == Place(2, ipa)
    && |s.tables[c]| == ENTRIES
    && (forall j :: 0 <= j < k ==> s.tables[c][j] == AssignedNs(Offset(j, MapSize(2))))
    && (forall j :: k <= j < ENTRIES ==> s.tables[c][j] == UnassignedNs)
  }

  /** The arguments of the commands that fill the table are valid. */
  lemma BlockArguments(r: Realm, s: State, p: nat, i: nat, ipa: nat, k: nat)
    requires Inv(r, s) && Opens(r, s, p, i, ipa) && k < ENTRIES
    ensures Multiple(ipa, MapSize(1)) && ValidStructure(r, ipa, 2)
    ensures ValidMapping(r, ipa + Offset(k, MapSize(2)), 2) && !InPar(r, ipa + Offset(k, MapSize(2)))
    ensures Multiple(Offset(k, MapSize(2)), MapSize(2))
    ensures ipa + Offset(k, MapSize(2)) < ipa + TableSize(2) && Index(ipa + Offset(k, MapSize(2)), 2) == k
  {
    hide Linked, Tree, DataOwned, Counted, TlbBacked;
    BaseAligned(s.places[p].base, i, 1);
    MultipleIsAligned(ipa, MapSize(1));
    SubAligned(ipa, k, 2);
    MultipleIsAligned(ipa + Offset(k, MapSize(2)), MapSize(2));
    OffsetIsMultiple(k, MapSize(2));
    SubRange(ipa, k, 2);
    NextSize(2);
    EntryRange(ipa, k, 2, ipa + Offset(k, MapSize(2)));
  }

  /** Creating the table. */
  lemma Opened(r: Realm, s: State, p: nat, i: nat, c: nat, rd: nat, ipa: nat)
    requires Inv(r, s) && Opens(r, s, p, i, ipa) && s.tables[p][i] == UnassignedNs
    requires c != rd && Is(s, c, Delegated) && Is(s, rd, Descriptor)
    ensures Create(r, s, rd, c, ipa, 2).1 == Success
    ensures Filled(r, Create(r, s, rd, c, ipa, 2).0, p, i, c, rd, ipa, 0)
  {
    hide Shape, Linked, Tree, DataOwned, Counted, TlbBacked;
    CreateKeeps(r, s, rd, c, ipa, 2);
    AttachedTable(r, s, p, i, c, rd);
    Creates(r, s, p, i, c, rd, ipa);
  }

  lemma Creates(r: Realm, s: State, p: nat, i: nat, c: nat, rd: nat, ipa: nat)
    requires Inv(r, s) && Opens(r, s, p, i, ipa) && s.tables[p][i] == UnassignedNs
    requires c != rd && Is(s, c, Delegated) && Is(s, rd, Descriptor) && p in s.granules && c in s.granules && c != p
    ensures Create(r, s, rd, c, ipa, 2) == (Attach(s, p, i, c), Success)
  {
    hide Tree, DataOwned, Counted, TlbBacked, ValidStructure;
    BlockArguments(r, s, p, i, ipa, 0);
    EntryRange(s.places[p].base, i, 1, ipa);
    WalkThrough(r, s, p, ipa, 1);
  }

  lemma AttachedTable(r: Realm, s: State, p: nat, i: nat, c: nat, rd: nat)
    requires Inv(r, s) && CanAttach(r, s, p, i, c) && Is(s, rd, Descriptor)
    ensures p in s.granules && c in s.granules && c != p
    ensures var s' := Attach(s, p, i, c);
      At(s', p, i) && s'.places[p] == s.places[p] && PointsTo(s', p, i, c)
      && c in s'.tables && s'.tables[c] == Unfold(s.tables[p][i], s.places[p].level + 1)
      && c in s'.places && s'.places[c] == Place(s.places[p].level + 1, EntryBase(s, p, i))
      && Is(s', rd, Descriptor)
      && forall g :: g != c && Is(s, g, Delegated) ==> Is(s', g, Delegated)
  {
    hide Linked, Tree, DataOwned, Counted, TlbBacked;
    Attachable(r, s, p, i, c);
    assert Is(s, p, Rtt);
  }

  /** Mapping one more block. */
  lemma FilledOne(r: Realm, s: State, p: nat, i: nat, c: nat, rd: nat, ipa: nat, k: nat)
    requires Filled(r, s, p, i, c, rd, ipa, k) && k < ENTRIES
    ensures var s' := MapNs(r, s, rd, ipa + Offset(k, MapSize(2)), 2, Offset(k, MapSize(2))).0;
      Filled(r, s', p, i, c, rd, ipa, k + 1)
  {
    hide Shape, Linked, Tree, DataOwned, Counted, TlbBacked;
    MapNsKeeps(r, s, rd, ipa + Offset(k, MapSize(2)), 2, Offset(k, MapSize(2)));
    MappedOne(r, s, p, i, c, rd, ipa, k);
    LevelsDiffer(r, s, p, i, c, ipa);
  }

  lemma MappedOne(r: Realm, s: State, p: nat, i: nat, c: nat, rd: nat, ipa: nat, k: nat)
    requires Filled(r, s, p, i, c, rd, ipa, k) && k < ENTRIES
    ensures At(s, c, k)
    ensures MapNs(r, s, rd, ipa + Offset(k, MapSize(2)), 2, Offset(k, MapSize(2)))
      == (SetEntry(s, c, k, AssignedNs(Offset(k, MapSize(2)))), Success)
  {
    hide Tree, DataOwned, Counted, TlbBacked, ValidMapping, Multiple, Offset;
    var at := ipa + Offset(k, MapSize(2));
    BlockArguments(r, s, p, i, ipa, k);
    assert InTable(s, c, at);
    WalkThrough(r, s, c, at, 2);
  }

  lemma LevelsDiffer(r: Realm, s: State, p: nat, i: nat, c: nat, ipa: nat)
    requires Opens(r, s, p, i, ipa) && c in s.places && s.places[c] == Place(2, ipa)
    ensures c != p
  {
  }

  /** The full table folds into a block, and gives its granule back. */
  lemma FilledFolds(r: Realm, s: State, p: nat, i: nat, c: nat, rd: nat, ipa: nat)
    requires Filled(r, s, p, i, c, rd, ipa, ENTRIES)
    ensures var s' := Fold(r, s, rd, ipa, 2).0;
      Inv(r, s') && NsBlockAt(s', p, i, ipa, 1) && c != rd && Is(s', c, Delegated) && Is(s', rd, Descriptor)
  {
    BlockArguments(r, s, p, i, ipa, 0);
    EntryRange(s.places[p].base, i, 1, ipa);
    WalkThrough(r, s, p, ipa, 1);
    FoldKeeps(r, s, rd, ipa, 2);
    FullTable(s.tables[c]);
    assert s.granules[c].refcount == 0;
    assert Is(s, c, Rtt) && Is(s, p, Rtt);
    FoldedAway(r, s, p, i, c, rd, ipa);
  }

  lemma FullTable(es: seq<Entry>)
    requires |es| == ENTRIES && forall j :: 0 <= j < ENTRIES ==> es[j] == AssignedNs(Offset(j, MapSize(2)))
    ensures Live(es) == 0 && FoldInto(es, 0, 2) == Into(AssignedNs(0))
  {
    LiveNone(es);
    assert Offset(0, MapSize(2)) == 0;
    assert es[0] == AssignedNs(0) && Multiple(0, MapSize(1));
    FoldNsBlock(es, 2);
  }

  lemma FoldedAway(r: Realm, s: State, p: nat, i: nat, c: nat, rd: nat, ipa: nat)
    requires Inv(r, s) && PointsTo(s, p, i, c) && s.places[p].level == 1 && EntryBase(s, p, i) == ipa && c in s.tables
    requires Is(s, c, Rtt) && Is(s, p, Rtt) && Is(s, rd, Descriptor) && ValidStructure(r, ipa, 2) && c in s.granules
    requires p == WalkTo(r, s, r.root, ipa, 1) && i == Index(ipa, 1)
    requires |s.tables[c]| == ENTRIES && FoldInto(s.tables[c], s.granules[c].refcount, 2) == Into(AssignedNs(0))
    ensures var s' := Fold(r, s, rd, ipa, 2).0;
      NsBlockAt(s', p, i, ipa, 1) && c != rd && Is(s', c, Delegated) && Is(s', rd, Descriptor)
  {
    hide DataOwned, TlbBacked, FoldInto, Counted, Tree;
    assert c != p by {
      assert s.places[c].level == 2;
    }
    assert Fold(r, s, rd, ipa, 2).0 == Detach(s, p, i, c, AssignedNs(0), FoldTlb(s, AssignedNs(0), ipa, 2));
  }

  // ---- The run -------------------------------------------------------------------------------

  /** The commands that map the blocks from k on, and then the rest. */
  function Filling(rd: nat, ipa: nat, k: nat, rest: seq<Step>): seq<Step>
    requires k <= ENTRIES
    decreases ENTRIES - k
  {
    if k == ENTRIES then rest
    else [DoMapNs(rd, ipa + Offset(k, MapSize(2)), 2, Offset(k, MapSize(2)))] + Filling(rd, ipa, k + 1, rest)
  }

  lemma RunFirst(r: Realm, x: System, step: Step, rest: seq<Step>)
    requires Inv(r, x.s) && ValidRequest(r, x.q)
    ensures Inv(r, Take(r, x, step).0.s) && ValidRequest(r, Take(r, x, step).0.q)
    ensures Run(r, x, [step] + rest) == Run(r, Take(r, x, step).0, rest)
  {
    hide Inv, Take;
    TakeKeeps(r, x, step);
    assert ([step] + rest)[1..] == rest;
  }

  lemma FilledMeans(r: Realm, s: State, p: nat, i: nat, c: nat, rd: nat, ipa: nat, k: nat)
    requires Filled(r, s, p, i, c, rd, ipa, k)
    ensures Inv(r, s) && ValidStructure(r, ipa, 2) && k <= ENTRIES
  {
    BlockArguments(r, s, p, i, ipa, 0);
  }

  lemma FilledStep(r: Realm, x: System, p: nat, i: nat, c: nat, rd: nat, ipa: nat, k: nat, step: Step)
    requires Filled(r, x.s, p, i, c, rd, ipa, k) && k < ENTRIES && ValidRequest(r, x.q) && Inv(r, x.s)
    requires step == DoMapNs(rd, ipa + Offset(k, MapSize(2)), 2, Offset(k, MapSize(2)))
    ensures Filled(r, Take(r, x, step).0.s, p, i, c, rd, ipa, k + 1) && Take(r, x, step).0.q == x.q
  {
    hide Inv, Filled, MapNs;
    FilledOne(r, x.s, p, i, c, rd, ipa, k);
  }

  lemma {:induction false} RunFilling(r: Realm, x: System, p: nat, i: nat, c: nat, rd: nat, ipa: nat, k: nat,
                                      rest: seq<Step>) returns (y: System)
    requires Filled(r, x.s, p, i, c, rd, ipa, k) && ValidRequest(r, x.q)
    ensures Filled(r, y.s, p, i, c, rd, ipa, ENTRIES) && ValidRequest(r, y.q)
    ensures Run(r, x, Filling(rd, ipa, k, rest)) == Run(r, y, rest)
    decreases ENTRIES - k
  {
    hide Inv, Run, Filled, ValidRequest, Take, Offset;
    FilledMeans(r, x.s, p, i, c, rd, ipa, k);
    if k == ENTRIES {
      y := x;
    } else {
      var step := DoMapNs(rd, ipa + Offset(k, MapSize(2)), 2, Offset(k, MapSize(2)));
      FilledStep(r, x, p, i, c, rd, ipa, k, step);
      RunFirst(r, x, step, Filling(rd, ipa, k + 1, rest));
      y := RunFilling(r, Take(r, x, step).0, p, i, c, rd, ipa, k + 1, rest);
    }
  }

  /** After the run, the step fails an assertion of the monitor. */
  ghost predicate Asserts(r: Realm, x: System, steps: seq<Step>, step: Step)
    requires Inv(r, x.s) && ValidRequest(r, x.q)
  {
    Take(r, Run(r, x, steps), step).1 == AssertFails
  }

  /** From a state with an unmapped level-1 entry: create, fill, fold, and create again. */
  lemma RunAsserts(r: Realm, x: System, p: nat, i: nat, c: nat, rd: nat, ipa: nat) returns (steps: seq<Step>)
    requires Inv(r, x.s) && ValidRequest(r, x.q) && Opens(r, x.s, p, i, ipa) && x.s.tables[p][i] == UnassignedNs
    requires c != rd && Is(x.s, c, Delegated) && Is(x.s, rd, Descriptor)
    ensures Asserts(r, x, steps, DoCreate(rd, c, ipa, 2))
  {
    hide Inv, Shape, Linked, Run, ValidRequest, Filling, Create, Fold, Filled, ValidStructure, NsBlockAt, MeetsNsBlock;
    var create, fold := DoCreate(rd, c, ipa, 2), DoFold(rd, ipa, 2);
    var filling := Filling(rd, ipa, 0, [fold] + []);
    steps := [create] + filling;
    Opened(r, x.s, p, i, c, rd, ipa);
    RunFirst(r, x, create, filling);
    var y := RunFilling(r, Take(r, x, create).0, p, i, c, rd, ipa, 0, [fold] + []);
    FilledMeans(r, y.s, p, i, c, rd, ipa, ENTRIES);
    FilledFolds(r, y.s, p, i, c, rd, ipa);
    RunFirst(r, y, fold, []);
    var z := Take(r, y, fold).0;
    RunNothing(r, z);
    BlockAsserts(r, z.s, p, i, c, rd, ipa);
  }

  lemma RunNothing(r: Realm, x: System)
    requires Inv(r, x.s) && ValidRequest(r, x.q)
    ensures Run(r, x, []) == x
  {
  }

  lemma BlockAsserts(r: Realm, s: State, p: nat, i: nat, c: nat, rd: nat, ipa: nat)
    requires Inv(r, s) && NsBlockAt(s, p, i, ipa, 1) && c != rd && Is(s, c, Delegated) && Is(s, rd, Descriptor)
    requires ValidStructure(r, ipa, 2)
    ensures Create(r, s, rd, c, ipa, 2).1 == AssertFails
  {
    hide Create, Inv, Shape, Linked;
    assert MeetsNsBlock(s, ipa, 1);
    CreateAsserts(r, s, rd, c, ipa, 2);
  }

  // ---- From a fresh realm ------------------------------------------------------------------------

  /** A fresh realm, its descriptor and two spare granules. */
  ghost predicate CanStart(r: Realm, x: System, rd: nat, c: nat, d: nat) {
    && Initial(r, x)
    && Is(x.s, rd, Descriptor) && Is(x.s, c, Delegated) && Is(x.s, d, Delegated) && c != d && c != rd && d != rd
  }

  /** The entry at the protected boundary of a fresh realm. */
  lemma BoundaryEntry(r: Realm, x: System, rd: nat, c: nat, d: nat) returns (i: nat)
    requires CanStart(r, x, rd, c, d) && Inv(r, x.s) && r.parSize < r.ipaSize
    ensures At(x.s, r.root, i) && EntryBase(x.s, r.root, i) == r.parSize && x.s.tables[r.root][i] == UnassignedNs
    ensures r.root == WalkTo(r, x.s, r.root, r.parSize, r.startLevel) && i == Index(r.parSize, r.startLevel)
    ensures Aligned(r.parSize, r.startLevel)
  {
    MultipleIsAligned(r.parSize, MapSize(r.startLevel));
    var t;
    t, i := FoundEntry(r, x.s, r.parSize, r.startLevel);
    assert t == r.root;
  }

  /** A realm whose root stands at level 1 asserts at its protected boundary. */
  lemma AssertsFromOne(r: Realm, x: System, rd: nat, c: nat, d: nat) returns (steps: seq<Step>)
    requires CanStart(r, x, rd, c, d) && Inv(r, x.s) && r.startLevel == 1 && r.parSize + MapSize(1) <= r.ipaSize
    ensures Asserts(r, x, steps, DoCreate(rd, c, r.parSize, 2))
  {
    var i := BoundaryEntry(r, x, rd, c, d);
    hide Inv, Asserts;
    steps := RunAsserts(r, x, r.root, i, c, rd, r.parSize);
  }

  /** One whose root stands at level 0 does so after one more creation. */
  lemma AssertsFromZero(r: Realm, x: System, rd: nat, c: nat, d: nat) returns (steps: seq<Step>)
    requires CanStart(r, x, rd, c, d) && Inv(r, x.s) && r.startLevel == 0 && r.parSize + MapSize(1) <= r.ipaSize
    ensures Asserts(r, x, steps, DoCreate(rd, c, r.parSize, 2))
  {
    var i := BoundaryEntry(r, x, rd, c, d);
    hide Run;
    var first := DoCreate(rd, d, r.parSize, 1);
    AttachedTable(r, x.s, r.root, i, d, rd);
    var y := Take(r, x, first).0;
    RunFirst(r, x, first, []);
    assert y.s == Attach(x.s, r.root, i, d);
    assert Offset(0, MapSize(1)) == 0;
    hide Inv, Shape, Linked, Take, Create;
    var tail := RunAsserts(r, y, d, 0, c, rd, r.parSize);
    steps := [first] + tail;
    RunFirst(r, x, first, tail);
  }

  /** Without tables above the smallest block level, or without unprotected addresses, no step of any run asserts. */
  lemma NeverAsserts(r: Realm, x: System, steps: seq<Step>, step: Step)
    requires Inv(r, x.s) && ValidRequest(r, x.q) && (r.startLevel == MIN_BLOCK_LEVEL || r.parSize == r.ipaSize)
    ensures !Asserts(r, x, steps, step)
  {
    hide Shape, Linked, Tree, Counted, DataOwned, TlbBacked;
    var y := Run(r, x, steps);
    match step
    case DoCreate(rd, c, ipa, level) =>
      CreateAsserts(r, y.s, rd, c, ipa, level);
      BlockUnprotected(r, y.s, ipa, level - 1);
    case DoDataDestroy(rd, ipa) =>
      DataDestroyKeeps(r, y.s, rd, ipa);
    case DoSetRipas(call) =>
      var s', q', outcome := CallKeeps(r, y.s, call.rd, call.rec, y.q, call.base, call.top);
    case _ =>
  }

  /** Unprotected blocks stand above the protected boundary. */
  lemma BlockUnprotected(r: Realm, s: State, ipa: nat, level: int)
    requires Inv(r, s)
    ensures MeetsNsBlock(s, ipa, level) ==> r.parSize <= ipa
  {
    hide Linked, Tree, Counted, DataOwned, TlbBacked;
    if MeetsNsBlock(s, ipa, level) {
      var t: nat, i: nat :| NsBlockAt(s, t, i, ipa, level);
      assert EntryOk(r, s.tables[t][i], s.places[t].level, EntryBase(s, t, i));
    }
  }

  /** Between two boundaries that root entries do not straddle there is room for a level-1 block. */
  lemma RoomForBlock(r: Realm)
    requires ValidRealm(r) && Multiple(r.ipaSize, MapSize(r.startLevel)) && r.startLevel <= 1 && r.parSize < r.ipaSize
    ensures r.parSize + MapSize(1) <= r.ipaSize
  {
    NextMultiple(r.parSize, r.ipaSize, MapSize(r.startLevel));
  }

  /**
   * In a realm of whole root entries a run from activation can make an assertion
   * fail exactly if its root stands above the smallest block level and some of
   * its addresses are unprotected.
   */
  lemma AssertionExactly(r: Realm, x: System, rd: nat, c: nat, d: nat)
    requires CanStart(r, x, rd, c, d) && Multiple(r.ipaSize, MapSize(r.startLevel))
    ensures Inv(r, x.s)
    ensures (exists steps, step :: Asserts(r, x, steps, step))
      <==> r.startLevel < MIN_BLOCK_LEVEL && r.parSize < r.ipaSize
  {
    InitialKeeps(r, x);
    hide Inv, Asserts;
    if r.startLevel < MIN_BLOCK_LEVEL && r.parSize < r.ipaSize {
      RoomForBlock(r);
      if r.startLevel == 1 {
        var steps := AssertsFromOne(r, x, rd, c, d);
      } else {
        var steps := AssertsFromZero(r, x, rd, c, d);
      }
    } else {
      forall steps, step ensures !Asserts(r, x, steps, step) {
        NeverAsserts(r, x, steps, step);
      }
    }
  }

  /** With the boundary halfway, as it is for every realm of the host: exactly if the root stands above that level. */
  lemma HalvedAssertsExactly(r: Realm, x: System, rd: nat, c: nat, d: nat)
    requires CanStart(r, x, rd, c, d) && r.ipaSize == 2 * r.parSize && 0 < r.parSize
    ensures Inv(r, x.s)
    ensures (exists steps, step :: Asserts(r, x, steps, step)) <==> r.startLevel < MIN_BLOCK_LEVEL
  {
    MultipleIsAligned(r.parSize, MapSize(r.startLevel));
    MultipleIsAligned(r.ipaSize, MapSize(r.startLevel));
    var k := r.parSize / MapSize(r.startLevel);
    assert r.ipaSize == (2 * k) * MapSize(r.startLevel);
    ModOfMultiple(2 * k, MapSize(r.startLevel));
    hide Inv, Asserts, Initial;
    AssertionExactly(r, x, rd, c, d);
  }

  // ---- One such realm ---------------------------------------------------------------------------

  /** Half of its addresses are protected. */
  const HALVED := Realm(0x1000, 0x2000, 1, 0x80_0000_0000, 0x40_0000_0000)

  function Fresh(): System {
    System(State(map[0x1000 := Granule(Descriptor, 0), 0x2000 := Granule(Rtt, 0), 0x3000 := Granule(Delegated, 0),
                     0x4000 := Granule(Delegated, 0)],
                 map[0x2000 := RootEntries(HALVED)], map[0x2000 := Place(1, 0)], {}),
           Request(0x1000, 0, 0, Empty, false))
  }

  lemma FreshStarts()
    ensures CanStart(HALVED, Fresh(), 0x1000, 0x3000, 0x4000)
  {
    hide RootEntries;
    MultipleIsAligned(HALVED.parSize, MapSize(1));
    forall g | g in Fresh().s.granules ensures Multiple(g, GRANULE_SIZE) {
      MultipleIsAligned(g, GRANULE_SIZE);
    }
  }

  /** The host of a realm with half of its addresses protected brings the monitor to fail its assertion. */
  lemma AssertionCanFail()
    ensures Initial(HALVED, Fresh()) && Inv(HALVED, Fresh().s)
    ensures exists steps, step :: Asserts(HALVED, Fresh(), steps, step)
  {
    FreshStarts();
    hide Inv, Asserts, RootEntries;
    HalvedAssertsExactly(HALVED, Fresh(), 0x1000, 0x3000, 0x4000);
  }
}
