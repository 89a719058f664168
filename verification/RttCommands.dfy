/**
 * What each translation-table command does to the state, as functions of the
 * state before it. Every command is one atomic step.
 */
module RttCommands {
  import opened Strides
  import opened RttModel

  /** What a command answers; AssertFails stands for a failed assertion of the monitor itself. */
  datatype Outcome = Success | ErrorInput | ErrorRealm | ErrorRec | ErrorRtt(level: int) | AssertFails

  // ---- Checks on the arguments -------------------------------------------------------

  predicate ValidMapAddr(r: Realm, ipa: nat, level: int) {
    ipa < r.ipaSize && Aligned(ipa, level)
  }

  predicate ValidStructure(r: Realm, ipa: nat, level: int) {
    r.startLevel + 1 <= level <= PAGE_LEVEL && ValidMapAddr(r, ipa, level - 1)
  }

  predicate ValidMapping(r: Realm, ipa: nat, level: int) {
    MIN_BLOCK_LEVEL <= level <= PAGE_LEVEL && ValidMapAddr(r, ipa, level)
  }

  predicate InPar(r: Realm, ipa: nat) {
    ipa < r.parSize
  }

  // ---- TLB maintenance ------------------------------------------------------------------

  /** Drops every cached translation of an entry that contains the address. */
  function InvalidateEntry(tlb: set<Cached>, ipa: nat): set<Cached> {
    set c | c in tlb && !(c.base <= ipa < c.base + MapSize(c.level))
  }

  /** Drops every cached translation that starts in the range. */
  function InvalidateRange(tlb: set<Cached>, ipa: nat, size: nat): set<Cached> {
    set c | c in tlb && !(ipa <= c.base < ipa + size)
  }

  // ---- Updates ------------------------------------------------------------------------------

  function SetEntry(s: State, t: nat, i: nat, e: Entry): State
    requires At(s, t, i)
  {
    s.(tables := s.tables[t := s.tables[t][i := e]])
  }

  function AddRef(s: State, g: nat, n: int): State
    requires g in s.granules
  {
    s.(granules := s.granules[g := s.granules[g].(refcount := s.granules[g].refcount + n)])
  }

  function SetState(s: State, g: nat, state: GranuleState): State
    requires g in s.granules
  {
    s.(granules := s.granules[g := s.granules[g].(state := state)])
  }

  // ---- Create: unfold an entry into a table ------------------------------------------------

  /** Entry j of the table that replaces an entry. */
  function UnfoldEntry(e: Entry, level: int, j: nat): Entry
    requires !e.Table?
  {
    match e
    case Unassigned(_) => e
    case UnassignedNs => e
    case Assigned(ripas, pa, _) => Assigned(ripas, pa + Offset(j, MapSize(level)), false)
    case AssignedNs(pa) => AssignedNs(pa + Offset(j, MapSize(level)))
  }

  function Unfold(e: Entry, level: int): (es: seq<Entry>)
    requires !e.Table?
    ensures |es| == ENTRIES
  {
    seq(ENTRIES, j requires 0 <= j < ENTRIES => UnfoldEntry(e, level, j))
  }

  /** Hangs table c, unfolded from the entry it replaces, below entry i of table p. */
  function Attach(s: State, p: nat, i: nat, c: nat): State
    requires At(s, p, i) && !s.tables[p][i].Table? && p in s.granules && c in s.granules && c != p
  {
    var e := s.tables[p][i];
    var base := EntryBase(s, p, i);
    var level := s.places[p].level + 1;
    var parent := if e.Assigned? then s.granules[p] else s.granules[p].(refcount := s.granules[p].refcount + 1);
    var child := Granule(Rtt, s.granules[c].refcount + if e.Assigned? then ENTRIES else 0);
    State(
      s.granules[p := parent][c := child],
      s.tables[c := Unfold(e, level)][p := s.tables[p][i := Table(c)]],
      s.places[c := Place(level, base)],
      if e.Valid() then InvalidateEntry(s.tlb, base) else s.tlb)
  }

  function Create(r: Realm, s: State, rd: nat, c: nat, ipa: nat, level: int): (State, Outcome)
    requires Inv(r, s)
  {
    if c == rd || !Is(s, c, Delegated) || !Is(s, rd, Descriptor) then (s, ErrorInput)
    else if !ValidStructure(r, ipa, level) then (s, ErrorInput)
    else
      var p := WalkTo(r, s, r.root, ipa, level - 1);
      var i := Index(ipa, level - 1);
      if s.places[p].level != level - 1 then (s, ErrorRtt(s.places[p].level))
      else if s.tables[p][i].Table? then (s, ErrorRtt(level - 1))
      else if (s.tables[p][i].Assigned? || s.tables[p][i].AssignedNs?) && level <= MIN_BLOCK_LEVEL then (s, AssertFails)
      else (Attach(s, p, i, c), Success)
  }

  // ---- Fold: replace a uniform table by one entry --------------------------------------------

  predicate AllAre(es: seq<Entry>, e: Entry) {
    forall j :: 0 <= j < |es| ==> es[j] == e
  }

  /** The entries map one contiguous block, aligned for the level above. */
  predicate MapsNsBlock(es: seq<Entry>, level: int)
    requires |es| == ENTRIES
  {
    es[0].AssignedNs? && Multiple(es[0].pa, MapSize(level - 1))
    && forall j :: 0 <= j < |es| ==> es[j] == AssignedNs(es[0].pa + Offset(j, MapSize(level)))
  }

  predicate MapsBlock(es: seq<Entry>, level: int, ripas: Ripas)
    requires |es| == ENTRIES
  {
    es[0].Assigned? && Multiple(es[0].pa, MapSize(level - 1))
    && forall j :: 0 <= j < |es| ==>
         es[j].Assigned? && es[j].ripas == ripas && es[j].pa == es[0].pa + Offset(j, MapSize(level))
  }

  datatype Folded = Into(e: Entry) | Mixed | TooHigh

  /** The entry a table folds into, given its reference count. */
  function FoldInto(es: seq<Entry>, refcount: int, level: int): Folded
    requires |es| == ENTRIES
  {
    if refcount == 0 then
      if AllAre(es, Unassigned(Destroyed)) then Into(Unassigned(Destroyed))
      else if AllAre(es, Unassigned(Empty)) then Into(Unassigned(Empty))
      else if AllAre(es, Unassigned(Ram)) then Into(Unassigned(Ram))
      else if AllAre(es, UnassignedNs) then Into(UnassignedNs)
      else if MapsNsBlock(es, level) then Into(AssignedNs(es[0].pa))
      else Mixed
    else if refcount == ENTRIES then
      if level <= MIN_BLOCK_LEVEL then TooHigh
      else if MapsBlock(es, level, Empty) then Into(Assigned(Empty, es[0].pa, false))
      else if MapsBlock(es, level, Ram) then Into(Assigned(Ram, es[0].pa, false))
      else if MapsBlock(es, level, Destroyed) then Into(Assigned(Destroyed, es[0].pa, false))
      else Mixed
    else Mixed
  }

  /** Replaces the table c below entry i of table p by entry e and returns its granule. */
  function Detach(s: State, p: nat, i: nat, c: nat, e: Entry, tlb: set<Cached>): State
    requires At(s, p, i) && p in s.granules && c in s.granules && c != p
  {
    var parent := if e.Assigned? then s.granules[p] else s.granules[p].(refcount := s.granules[p].refcount - 1);
    var child := Granule(Delegated, s.granules[c].refcount - if e.Assigned? then ENTRIES else 0);
    State(
      s.granules[p := parent][c := child],
      s.tables[p := s.tables[p][i := e]] - {c},
      s.places - {c},
      tlb)
  }

  /** The invalidation of a fold: per entry of the old table if the new entry is valid. */
  function FoldTlb(s: State, e: Entry, base: nat, level: int): set<Cached> {
    if e.Valid() then InvalidateRange(s.tlb, base, MapSize(level - 1)) else InvalidateEntry(s.tlb, base)
  }

  function Fold(r: Realm, s: State, rd: nat, ipa: nat, level: int): (State, Outcome)
    requires Inv(r, s)
  {
    if !Is(s, rd, Descriptor) || !ValidStructure(r, ipa, level) then (s, ErrorInput)
    else
      var p := WalkTo(r, s, r.root, ipa, level - 1);
      var i := Index(ipa, level - 1);
      if s.places[p].level != level - 1 then (s, ErrorRtt(s.places[p].level))
      else if !s.tables[p][i].Table? then (s, ErrorRtt(level - 1))
      else
        var c := s.tables[p][i].pa;
        assert PointsTo(s, p, i, c);
        match FoldInto(s.tables[c], s.granules[c].refcount, level)
        case Mixed => (s, ErrorRtt(level))
        case TooHigh => (s, ErrorRtt(level - 1))
        case Into(e) => (Detach(s, p, i, c, e, FoldTlb(s, e, ipa, level)), Success)
  }

  // ---- Destroy: drop a table that holds nothing ---------------------------------------------

  function DestroyTlb(r: Realm, s: State, ipa: nat, level: int): set<Cached> {
    if InPar(r, ipa) then InvalidateEntry(s.tlb, ipa) else InvalidateRange(s.tlb, ipa, MapSize(level - 1))
  }

  function Destroy(r: Realm, s: State, rd: nat, ipa: nat, level: int): (State, Outcome)
    requires Inv(r, s)
  {
    if !Is(s, rd, Descriptor) || !ValidStructure(r, ipa, level) then (s, ErrorInput)
    else
      var p := WalkTo(r, s, r.root, ipa, level - 1);
      var i := Index(ipa, level - 1);
      if s.places[p].level != level - 1 || !s.tables[p][i].Table? then (s, ErrorRtt(s.places[p].level))
      else
        var c := s.tables[p][i].pa;
        assert PointsTo(s, p, i, c);
        if s.granules[c].refcount != 0 then (s, ErrorRtt(level))
        else
          var e := if InPar(r, ipa) then Unassigned(Destroyed) else UnassignedNs;
          (Detach(s, p, i, c, e, DestroyTlb(r, s, ipa, level)), Success)
  }

  // ---- Unprotected mappings ------------------------------------------------------------------

  function MapNs(r: Realm, s: State, rd: nat, ipa: nat, level: int, pa: nat): (State, Outcome)
    requires Inv(r, s)
  {
    if !(MIN_BLOCK_LEVEL <= level <= PAGE_LEVEL) || !Multiple(pa, MapSize(level)) then (s, ErrorInput)
    else if !Is(s, rd, Descriptor) || !ValidMapping(r, ipa, level) || InPar(r, ipa) then (s, ErrorInput)
    else
      var t := WalkTo(r, s, r.root, ipa, level);
      var i := Index(ipa, s.places[t].level);
      if s.places[t].level != level then (s, ErrorRtt(s.places[t].level))
      else if !s.tables[t][i].UnassignedNs? then (s, ErrorRtt(level))
      else (SetEntry(s, t, i, AssignedNs(pa)), Success)
  }

  function UnmapNs(r: Realm, s: State, rd: nat, ipa: nat, level: int): (State, Outcome)
    requires Inv(r, s)
  {
    if !Is(s, rd, Descriptor) || !ValidMapping(r, ipa, level) || InPar(r, ipa) then (s, ErrorInput)
    else
      var t := WalkTo(r, s, r.root, ipa, level);
      var i := Index(ipa, s.places[t].level);
      if s.places[t].level != level || !s.tables[t][i].AssignedNs? then (s, ErrorRtt(s.places[t].level))
      else (SetEntry(s, t, i, UnassignedNs).(tlb := InvalidateEntry(s.tlb, ipa)), Success)
  }

  // ---- Data granules ----------------------------------------------------------------------------

  /** Where a data granule comes from: unknown contents, or a copy whose read may fail. */
  datatype Source = Unknown | Copied(readable: bool)

  function DataCreate(r: Realm, s: State, rd: nat, data: nat, ipa: nat, source: Source, isNew: bool): (State, Outcome)
    requires Inv(r, s)
  {
    if data == rd || !Is(s, data, Delegated) || !Is(s, rd, Descriptor) then (s, ErrorInput)
    else if source.Copied? && !isNew then (s, ErrorRealm)
    else if !InPar(r, ipa) || !ValidMapAddr(r, ipa, PAGE_LEVEL) then (s, ErrorInput)
    else
      var t := WalkTo(r, s, r.root, ipa, PAGE_LEVEL);
      var i := Index(ipa, PAGE_LEVEL);
      if s.places[t].level != PAGE_LEVEL then (s, ErrorRtt(s.places[t].level))
      else if !(s.tables[t][i].Unassigned? || s.tables[t][i].UnassignedNs?) then (s, ErrorRtt(PAGE_LEVEL))
      else if source.Copied? && !source.readable then (s, ErrorInput)
      else
        var ripas := if source.Copied? || !s.tables[t][i].Unassigned? then Ram else s.tables[t][i].ripas;
        (AddRef(SetState(SetEntry(s, t, i, Assigned(ripas, data, false)), data, Data), t, 1), Success)
  }

  function DataDestroy(r: Realm, s: State, rd: nat, ipa: nat): (State, Outcome)
    requires Inv(r, s)
  {
    if !Is(s, rd, Descriptor) || !InPar(r, ipa) || !ValidMapAddr(r, ipa, PAGE_LEVEL) then (s, ErrorInput)
    else
      var t := WalkTo(r, s, r.root, ipa, PAGE_LEVEL);
      var i := Index(ipa, PAGE_LEVEL);
      if s.places[t].level != PAGE_LEVEL then (s, ErrorRtt(s.places[t].level))
      else if !s.tables[t][i].Assigned? then (s, ErrorRtt(PAGE_LEVEL))
      else
        var e := s.tables[t][i];
        if !Is(s, e.pa, Data) then (s, AssertFails)
        else
          var left := Unassigned(if e.ripas == Empty then Empty else Destroyed);
          var tlb := if e.ripas == Ram then InvalidateEntry(s.tlb, ipa) else s.tlb;
          (AddRef(SetState(SetEntry(s, t, i, left), e.pa, Delegated), t, -1).(tlb := tlb), Success)
  }

  // ---- Access control ------------------------------------------------------------------------------

  /** Closes or opens access to an assigned page, without changing what it maps. */
  function SetBlocked(r: Realm, s: State, rd: nat, ipa: nat, blocked: bool): (State, Outcome)
    requires Inv(r, s)
  {
    if !Is(s, rd, Descriptor) || !ValidMapAddr(r, ipa, PAGE_LEVEL) then (s, ErrorInput)
    else
      var t := WalkTo(r, s, r.root, ipa, PAGE_LEVEL);
      var i := Index(ipa, s.places[t].level);
      var e := s.tables[t][i];
      if s.places[t].level != PAGE_LEVEL || !e.Assigned? || e.ripas != Ram then (s, ErrorRtt(0))
      else (SetEntry(s, t, i, e.(blocked := blocked)).(tlb := InvalidateEntry(s.tlb, ipa)), Success)
  }
}
