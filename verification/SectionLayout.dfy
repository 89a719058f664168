/** Where the module loader puts each section: two passes over a table of flag masks. */
module SectionLayout {
  import opened Arithmetic

  datatype MemType = Text | Data | Rodata | RoAfterInit | InitText | InitData | InitRodata | Invalid

  /** The parts of a section header the layout looks at; prepend is what the architecture puts in front. */
  datatype Section = Section(alloc: bool, exec: bool, write: bool, afterInit: bool, small: bool, init: bool,
                             size: nat, align: nat, prepend: nat)

  /** The entry the layout fills in: nothing yet, or a memory type and an offset. */
  datatype Placed = Unplaced | At(kind: MemType, offset: nat)

  const ROWS: nat := 5

  /**
   * Row m of the mask table: the flags it asks for are set, and those it
   * excludes are not. On an architecture without small data its flag is the
   * empty mask: it excludes nothing, and the last row asks for nothing more.
   */
  predicate Matches(m: nat, s: Section, smallData: bool) {
    var small := smallData && s.small;
    s.alloc &&
    (if m == 0 then s.exec && !small
     else if m == 1 then !s.write && !small
     else if m == 2 then s.afterInit && !small
     else if m == 3 then s.write && !small
     else m == 4 && (smallData ==> s.small))
  }

  /** The memory type a row fills in the core pass and in the init pass. */
  function RowType(m: nat, init: bool): MemType {
    if m == 0 then (if init then InitText else Text)
    else if m == 1 then (if init then InitRodata else Rodata)
    else if m == 2 then (if init then Invalid else RoAfterInit)
    else (if init then InitData else Data)
  }

  /** The row that places a section: the first that matches and has a memory type. */
  function Row(s: Section, smallData: bool): (m: nat)
    requires s.alloc
    ensures m < ROWS && Matches(m, s, smallData) && RowType(m, s.init) != Invalid
    ensures forall k :: 0 <= k < m ==> !Matches(k, s, smallData) || RowType(k, s.init) == Invalid
  {
    if smallData && s.small then 4
    else if s.exec then 0
    else if !s.write then 1
    else if s.afterInit && !s.init then 2
    else 3
  }

  /** What a section of a memory type is, by its flags; small data has the flag of an architecture that has any. */
  predicate OfKind(s: Section, kind: MemType, smallData: bool) {
    var small := smallData && s.small;
    match kind
    case Text => !s.init && !small && s.exec
    case Rodata => !s.init && !small && !s.exec && !s.write
    case RoAfterInit => !s.init && !small && !s.exec && s.write && s.afterInit
    case Data => !s.init && (small || (!s.exec && s.write && !s.afterInit))
    case InitText => s.init && !small && s.exec
    case InitRodata => s.init && !small && !s.exec && !s.write
    case InitData => s.init && (small || (!s.exec && s.write))
    case Invalid => false
  }

  /** The table sends each section to the one memory type that its flags say. */
  lemma KindByFlags(s: Section, kind: MemType, smallData: bool)
    requires s.alloc
    ensures kind == RowType(Row(s, smallData), s.init) <==> OfKind(s, kind, smallData)
  {
  }

  /** The next multiple of the alignment, of which zero counts as one. */
  function Align(x: nat, align: nat): (r: nat)
    ensures r >= x
  {
    var a := if align == 0 then 1 else align;
    AlignUp(x, a);
    ((x + a - 1) / a) * a
  }

  lemma AlignUp(x: nat, a: nat)
    requires a > 0
    ensures x <= ((x + a - 1) / a) * a < x + a && (((x + a - 1) / a) * a) % a == 0
  {
    var y := x + a - 1;
    assert y == (y / a) * a + y % a;
    ModOfMultiple(y / a, a);
  }

  predicate Aligned(offset: nat, align: nat) {
    align == 0 || offset % align == 0
  }

  /** Core sections come before init sections, rows in order, and the sections of a row in order. */
  predicate Before(s: seq<Section>, i: nat, j: nat, smallData: bool)
    requires i < |s| && j < |s| && s[i].alloc && s[j].alloc && s[i].init == s[j].init
  {
    Row(s[i], smallData) < Row(s[j], smallData) || (Row(s[i], smallData) == Row(s[j], smallData) && i < j)
  }

  /** Section j has been placed by the time a pass has reached section i of row m. */
  predicate Done(s: seq<Section>, j: nat, init: bool, m: nat, i: nat, smallData: bool)
    requires j < |s|
  {
    s[j].alloc && ((init && !s[j].init) || (s[j].init == init
        && (Row(s[j], smallData) < m || (Row(s[j], smallData) == m && j < i))))
  }

  /** What holds for the sections placed so far. */
  ghost predicate Laid(s: seq<Section>, place: seq<Placed>, sizes: map<MemType, nat>, smallData: bool) {
    && |place| == |s|
    && (forall j {:trigger place[j]} :: 0 <= j < |s| && place[j].At? ==>
          s[j].alloc && place[j].kind == RowType(Row(s[j], smallData), s[j].init) && place[j].kind in sizes
          && Aligned(place[j].offset, s[j].align) && place[j].offset + s[j].size <= sizes[place[j].kind])
    && (forall j, k {:trigger place[j], place[k]} ::
          (0 <= j < |s| && 0 <= k < |s| && place[j].At? && place[k].At? && place[j].kind == place[k].kind
           && Before(s, j, k, smallData)) ==> place[j].offset + s[j].size <= place[k].offset)
  }

  /** Memory of a type ends here: at zero, or behind a section of the type. */
  ghost predicate EndsAt(s: seq<Section>, place: seq<Placed>, kind: MemType, x: nat) {
    x == 0 || exists k {:trigger place[k]} ::
      0 <= k < |s| && k < |place| && place[k].At? && place[k].kind == kind && place[k].offset + s[k].size == x
  }

  /** A section of the type starts at the first aligned offset behind some end and what the architecture puts there. */
  ghost predicate StartsAt(s: seq<Section>, place: seq<Placed>, kind: MemType, section: Section, offset: nat) {
    exists end: nat :: EndsAt(s, place, kind, end)
      && end + section.prepend <= offset < end + section.prepend + Max(1, section.align)
  }

  /** No room is wasted: every section is directly behind another one or the first, and each size is the last end. */
  ghost predicate Tight(s: seq<Section>, place: seq<Placed>, sizes: map<MemType, nat>) {
    && |place| == |s| && (forall kind :: kind in sizes ==> EndsAt(s, place, kind, sizes[kind]))
    && (forall j {:trigger place[j]} :: 0 <= j < |s| && place[j].At? ==>
          StartsAt(s, place, place[j].kind, s[j], place[j].offset))
  }

  lemma EndsStay(s: seq<Section>, place: seq<Placed>, i: nat, kind: MemType, offset: nat, k: MemType, x: nat)
    requires |place| == |s| && i < |s| && place[i].Unplaced?
    ensures EndsAt(s, place, k, x) ==> EndsAt(s, place[i := At(kind, offset)], k, x)
  {
    var place' := place[i := At(kind, offset)];
    if EndsAt(s, place, k, x) && x != 0 {
      var j: nat :|
        j < |s| && j < |place| && place[j].At? && place[j].kind == k && place[j].offset + s[j].size == x;
      assert place'[j] == place[j];
    }
  }

  lemma StartsStay(s: seq<Section>, place: seq<Placed>, i: nat, kind: MemType, offset: nat, k: MemType,
                   section: Section, x: nat)
    requires |place| == |s| && i < |s| && place[i].Unplaced? && StartsAt(s, place, k, section, x)
    ensures StartsAt(s, place[i := At(kind, offset)], k, section, x)
  {
    hide EndsAt;
    var end: nat :| EndsAt(s, place, k, end)
      && end + section.prepend <= x < end + section.prepend + Max(1, section.align);
    EndsStay(s, place, i, kind, offset, k, end);
  }

  lemma EndsBehind(s: seq<Section>, place: seq<Placed>, i: nat)
    requires i < |s| && i < |place| && place[i].At?
    ensures EndsAt(s, place, place[i].kind, place[i].offset + s[i].size)
  {
  }

  lemma StartsBehind(s: seq<Section>, place: seq<Placed>, kind: MemType, section: Section, end: nat, offset: nat)
    requires EndsAt(s, place, kind, end)
    requires end + section.prepend <= offset < end + section.prepend + Max(1, section.align)
    ensures StartsAt(s, place, kind, section, offset)
  {
  }

  /** Placing one more section at the first offset there is for it. */
  lemma TightOne(s: seq<Section>, place: seq<Placed>, sizes: map<MemType, nat>, i: nat, kind: MemType, offset: nat)
    requires Tight(s, place, sizes) && i < |s| && place[i].Unplaced? && kind in sizes
    requires sizes[kind] + s[i].prepend <= offset < sizes[kind] + s[i].prepend + Max(1, s[i].align)
    ensures Tight(s, place[i := At(kind, offset)], sizes[kind := offset + s[i].size])
  {
    hide EndsAt, StartsAt;
    var place', sizes' := place[i := At(kind, offset)], sizes[kind := offset + s[i].size];
    EndsBehind(s, place', i);
    StartsBehind(s, place, kind, s[i], sizes[kind], offset);
    StartsStay(s, place, i, kind, offset, kind, s[i], offset);
    forall k | k in sizes' ensures EndsAt(s, place', k, sizes'[k]) {
      EndsStay(s, place, i, kind, offset, k, sizes'[k]);
    }
    forall j | 0 <= j < |s| && place'[j].At? ensures StartsAt(s, place', place'[j].kind, s[j], place'[j].offset) {
      if j != i {
        StartsStay(s, place, i, kind, offset, place[j].kind, s[j], place[j].offset);
      }
    }
  }

  lemma SameKind(s: Section, t: Section, smallData: bool)
    requires s.alloc && t.alloc && RowType(Row(s, smallData), s.init) == RowType(Row(t, smallData), t.init)
    ensures s.init == t.init
  {
  }

  lemma OneOrder(s: seq<Section>, i: nat, j: nat, smallData: bool)
    requires i < |s| && j < |s| && s[i].alloc && s[j].alloc && s[i].init == s[j].init && Before(s, i, j, smallData)
    ensures !Before(s, j, i, smallData)
  {
  }

  /** Placing one more section above everything placed before it. */
  lemma PlaceOne(s: seq<Section>, place: seq<Placed>, sizes: map<MemType, nat>, i: nat, kind: MemType,
                 offset: nat, smallData: bool)
    requires Laid(s, place, sizes, smallData) && i < |s| && place[i].Unplaced? && s[i].alloc && kind in sizes
    requires kind == RowType(Row(s[i], smallData), s[i].init) && Aligned(offset, s[i].align) && offset >= sizes[kind]
    requires forall j :: 0 <= j < |s| && place[j].At? && s[j].init == s[i].init ==> Before(s, j, i, smallData)
    ensures Laid(s, place[i := At(kind, offset)], sizes[kind := offset + s[i].size], smallData)
  {
    var place' := place[i := At(kind, offset)];
    forall k | 0 <= k < |s| && place[k].At? && s[k].init == s[i].init ensures !Before(s, i, k, smallData) {
      OneOrder(s, k, i, smallData);
    }
    forall j, k | 0 <= j < |s| && 0 <= k < |s| && place'[j].At? && place'[k].At? && place'[j].kind == place'[k].kind
        && s[j].init == s[k].init && Before(s, j, k, smallData)
      ensures place'[j].offset + s[j].size <= place'[k].offset
    {
    }
  }

  /** What holds when a pass has reached section i of row m. */
  ghost predicate Reached(s: seq<Section>, place: seq<Placed>, sizes: map<MemType, nat>, init: bool, m: nat, i: nat,
                          smallData: bool)
  {
    && Laid(s, place, sizes, smallData) && Tight(s, place, sizes)
    && |place| == |s| && (forall kind :: kind != Invalid ==> kind in sizes)
    && (forall j :: 0 <= j < |s| ==> (place[j].At? <==> Done(s, j, init, m, i, smallData)))
  }

  ghost predicate KeepsPlaces(before: seq<Placed>, after: seq<Placed>) {
    |before| == |after| && forall j :: 0 <= j < |before| && before[j].At? ==> after[j] == before[j]
  }

  lemma PlacesKept(p: seq<Placed>, q: seq<Placed>, r: seq<Placed>)
    requires p == q == r || (KeepsPlaces(p, q) && KeepsPlaces(q, r))
    ensures KeepsPlaces(p, r)
  {
  }

  /** The section a row meets is placed: its row is this one, and all placed before come before it. */
  lemma RowPlaces(s: seq<Section>, place: seq<Placed>, sizes: map<MemType, nat>, init: bool, m: nat, i: nat,
                  offset: nat, smallData: bool)
    requires m < ROWS && i < |s| && Reached(s, place, sizes, init, m, i, smallData)
    requires Matches(m, s[i], smallData) && place[i].Unplaced? && s[i].init == init && RowType(m, init) != Invalid
    requires Aligned(offset, s[i].align)
    requires var end := sizes[RowType(m, init)] + s[i].prepend; end <= offset < end + Max(1, s[i].align)
    ensures Reached(s, place[i := At(RowType(m, init), offset)], sizes[RowType(m, init) := offset + s[i].size], init, m,
                    i + 1, smallData)
  {
    hide Laid, Tight;
    assert Row(s[i], smallData) == m;
    TightOne(s, place, sizes, i, RowType(m, init), offset);
    PlaceOne(s, place, sizes, i, RowType(m, init), offset, smallData);
  }

  /** A section a row passes over is in another row, or has its place. */
  lemma RowSkips(s: seq<Section>, place: seq<Placed>, sizes: map<MemType, nat>, init: bool, m: nat, i: nat,
                 smallData: bool)
    requires m < ROWS && i < |s| && Reached(s, place, sizes, init, m, i, smallData)
    requires !(Matches(m, s[i], smallData) && place[i].Unplaced? && s[i].init == init && RowType(m, init) != Invalid)
    ensures Reached(s, place, sizes, init, m, i + 1, smallData)
  {
    hide Laid, Tight;
  }

  lemma RowEnds(s: seq<Section>, place: seq<Placed>, sizes: map<MemType, nat>, init: bool, m: nat, smallData: bool)
    requires Reached(s, place, sizes, init, m, |s|, smallData)
    ensures Reached(s, place, sizes, init, m + 1, 0, smallData)
  {
    hide Laid, Tight;
  }

  /** After the core pass the init pass can start. */
  lemma PassesMeet(s: seq<Section>, place: seq<Placed>, sizes: map<MemType, nat>, smallData: bool)
    requires Reached(s, place, sizes, false, ROWS, 0, smallData)
    ensures Reached(s, place, sizes, true, 0, 0, smallData)
  {
    hide Laid, Tight;
  }

  class Layout {
    const smallData: bool
    var place: seq<Placed>
    var sizes: map<MemType, nat>

    /** Makes room for one section behind what is there: the first aligned offset, and the end as the new size. */
    method GetOffset(kind: MemType, section: Section) returns (offset: nat)
      requires kind in sizes
      modifies this`sizes
      ensures Aligned(offset, section.align)
      ensures old(sizes[kind]) + section.prepend <= offset < old(sizes[kind]) + section.prepend + Max(1, section.align)
      ensures sizes == old(sizes)[kind := offset + section.size]
    {
      sizes := sizes[kind := sizes[kind] + section.prepend];
      AlignUp(sizes[kind], Max(1, section.align));
      offset := Align(sizes[kind], section.align);
      sizes := sizes[kind := offset + section.size];
    }

    /** One pass over the table, for the core sections or for the init sections. */
    method LayoutPass(s: seq<Section>, init: bool)
      requires Reached(s, place, sizes, init, 0, 0, smallData)
      modifies this
      ensures Reached(s, place, sizes, init, ROWS, 0, smallData) && KeepsPlaces(old(place), place)
    {
      hide Reached, KeepsPlaces;
      var m := 0;
      PlacesKept(place, place, place);
      while m < ROWS
        invariant 0 <= m <= ROWS && Reached(s, place, sizes, init, m, 0, smallData) && KeepsPlaces(old(place), place)
      {
        ghost var before := place;
        LayoutRow(s, init, m);
        PlacesKept(old(place), before, place);
        m := m + 1;
      }
    }

    /** One row of the table: the sections it asks for that have no place yet. */
    method LayoutRow(s: seq<Section>, init: bool, m: nat)
      requires m < ROWS && Reached(s, place, sizes, init, m, 0, smallData)
      modifies this
      ensures Reached(s, place, sizes, init, m + 1, 0, smallData) && KeepsPlaces(old(place), place)
    {
      hide Laid, Tight, Done, Before;
      var kind := RowType(m, init);
      var i := 0;
      while i < |s|
        invariant 0 <= i <= |s| && Reached(s, place, sizes, init, m, i, smallData) && KeepsPlaces(old(place), place)
      {
        if Matches(m, s[i], smallData) && place[i].Unplaced? && s[i].init == init && kind != Invalid {
          ghost var before, room := place, sizes;
          var offset := GetOffset(kind, s[i]);
          place := place[i := At(kind, offset)];
          RowPlaces(s, before, room, init, m, i, offset, smallData);
        } else {
          RowSkips(s, place, sizes, init, m, i, smallData);
        }
        i := i + 1;
      }
      RowEnds(s, place, sizes, init, m, smallData);
    }

    /**
     * Lays out all sections: exactly the allocated ones get a place, of the
     * memory type their flags say, aligned, and inside the final size of that
     * type. Within a type, small data comes last and otherwise the sections keep
     * their order, and no room is wasted between them or behind them.
     */
    method LayoutSections(s: seq<Section>)
      modifies this
      ensures Laid(s, place, sizes, smallData) && Tight(s, place, sizes)
      ensures forall j :: 0 <= j < |s| ==> (place[j].At? <==> s[j].alloc)
      ensures forall j :: 0 <= j < |s| && place[j].At? ==> OfKind(s[j], place[j].kind, smallData)
      ensures Ordered(s, place, smallData)
    {
      hide Laid, Tight;
      place := seq(|s|, _ => Unplaced);
      sizes := map[Text := 0, Data := 0, Rodata := 0, RoAfterInit := 0, InitText := 0, InitData := 0, InitRodata := 0];
      NothingPlaced(s, place, sizes, smallData);
      LayoutPass(s, false);
      PassesMeet(s, place, sizes, smallData);
      LayoutPass(s, true);
      RightKinds(s, place, sizes, smallData);
      InOrder(s, place, sizes, smallData);
    }
  }

  /** Small data comes behind other data; otherwise the order of the headers counts. */
  predicate Ahead(s: seq<Section>, j: nat, k: nat, smallData: bool)
    requires j < |s| && k < |s|
  {
    if smallData && s[j].small != s[k].small then s[k].small else j < k
  }

  ghost predicate Ordered(s: seq<Section>, place: seq<Placed>, smallData: bool) {
    && |place| == |s|
    && forall j, k {:trigger place[j], place[k]} ::
         (0 <= j < |s| && 0 <= k < |s| && place[j].At? && place[k].At? && place[j].kind == place[k].kind
          && Ahead(s, j, k, smallData)) ==> place[j].offset + s[j].size <= place[k].offset
  }

  lemma NothingPlaced(s: seq<Section>, place: seq<Placed>, sizes: map<MemType, nat>, smallData: bool)
    requires place == seq(|s|, _ => Unplaced) && forall kind :: kind in sizes ==> sizes[kind] == 0
    ensures Laid(s, place, sizes, smallData) && Tight(s, place, sizes)
  {
  }

  lemma RightKinds(s: seq<Section>, place: seq<Placed>, sizes: map<MemType, nat>, smallData: bool)
    requires Laid(s, place, sizes, smallData)
    ensures forall j :: 0 <= j < |s| && place[j].At? ==> OfKind(s[j], place[j].kind, smallData)
  {
    forall j | 0 <= j < |s| && place[j].At? ensures OfKind(s[j], place[j].kind, smallData) {
      KindByFlags(s[j], place[j].kind, smallData);
    }
  }

  lemma InOrder(s: seq<Section>, place: seq<Placed>, sizes: map<MemType, nat>, smallData: bool)
    requires Laid(s, place, sizes, smallData)
    ensures Ordered(s, place, smallData)
  {
    forall j, k | 0 <= j < |s| && 0 <= k < |s| && place[j].At? && place[k].At? && place[j].kind == place[k].kind
        && Ahead(s, j, k, smallData)
      ensures place[j].offset + s[j].size <= place[k].offset
    {
      SameKind(s[j], s[k], smallData);
      assert Before(s, j, k, smallData);
    }
  }

  /** Two sections of one memory type never share a byte. */
  lemma Disjoint(s: seq<Section>, place: seq<Placed>, sizes: map<MemType, nat>, j: nat, k: nat, x: nat,
                 smallData: bool)
    requires Laid(s, place, sizes, smallData) && j < |s| && k < |s| && j != k
    requires place[j].At? && place[k].At? && place[j].kind == place[k].kind
    ensures !(place[j].offset <= x < place[j].offset + s[j].size && place[k].offset <= x < place[k].offset + s[k].size)
    ensures place[j].offset <= x < place[j].offset + s[j].size ==> x < sizes[place[j].kind]
  {
    SameKind(s[j], s[k], smallData);
    assert Before(s, j, k, smallData) || Before(s, k, j, smallData);
  }
}
