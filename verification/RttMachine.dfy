/**
 * The monitor's commands as they work, one write after the other, each proved
 * to take the state where its specification in RttCommands says.
 */
module RttMachine {
  import opened Strides
  import opened RttModel
  import opened RttCommands
  import opened RttSafety
  import opened RttRipas
  import opened RttRuns
  import Spec = RttCommands

  /** The parent counts n more, and its child changes state and counts k more. */
  function Counts(granules: map<nat, Granule>, p: nat, c: nat, n: int, state: GranuleState, k: int): map<nat, Granule>
    requires p in granules && c in granules
  {
    granules[p := granules[p].(refcount := granules[p].refcount + n)]
            [c := Granule(state, granules[c].refcount + k)]
  }

  /** Where a walk ended above the requested level, a table can be hung. */
  lemma CanHang(r: Realm, s: State, p: nat, i: nat, c: nat, ipa: nat, level: int)
    requires Inv(r, s) && ValidStructure(r, ipa, level) && Is(s, c, Delegated)
    requires p == WalkTo(r, s, r.root, ipa, level - 1) && s.places[p].level == level - 1 && i == Index(ipa, level - 1)
    ensures At(s, p, i) && p in s.granules && c in s.granules && c != p && EntryBase(s, p, i) == ipa
  {
    var p', i' := FoundEntry(r, s, ipa, level - 1);
    assert Is(s, p, Rtt);
  }

  /** A table entry leads to a granule in use as a table. */
  lemma CanDrop(r: Realm, s: State, p: nat, i: nat, c: nat)
    requires Inv(r, s) && At(s, p, i) && s.tables[p][i] == Table(c)
    ensures c in s.tables && |s.tables[c]| == ENTRIES && p in s.granules && c in s.granules && c != p
  {
    assert PointsTo(s, p, i, c);
    assert Is(s, p, Rtt) && Is(s, c, Rtt);
  }

  predicate IsCommand(step: Step) {
    !step.Ask? && !step.Delegate? && !step.Undelegate? && !step.Fill? && !step.Evict?
  }

  class Monitor {
    const realm: Realm
    var granules: map<nat, Granule>
    var tables: map<nat, seq<Entry>>
    ghost var places: map<nat, Place>
    var tlb: set<Cached>
    var request: Request

    ghost function Now(): State
      reads this
    {
      State(granules, tables, places, tlb)
    }

    ghost predicate Valid()
      reads this
    {
      Inv(realm, Now()) && ValidRequest(realm, request)
    }

    // ---- Steps ---------------------------------------------------------------------------

    predicate Has(g: nat, state: GranuleState)
      reads this
    {
      g in granules && granules[g].state == state
    }

    method WriteEntry(t: nat, i: nat, e: Entry)
      requires At(Now(), t, i)
      modifies this`tables
      ensures Now() == SetEntry(old(Now()), t, i, e)
    {
      tables := tables[t := tables[t][i := e]];
    }

    method CountRef(g: nat, n: int)
      requires g in granules
      modifies this`granules
      ensures Now() == AddRef(old(Now()), g, n)
    {
      granules := granules[g := granules[g].(refcount := granules[g].refcount + n)];
    }

    method ChangeState(g: nat, state: GranuleState)
      requires g in granules
      modifies this`granules
      ensures Now() == SetState(old(Now()), g, state)
    {
      granules := granules[g := granules[g].(state := state)];
    }

    method Invalidate(ipa: nat)
      modifies this`tlb
      ensures tlb == InvalidateEntry(old(tlb), ipa)
    {
      tlb := InvalidateEntry(tlb, ipa);
    }

    method InvalidatePages(ipa: nat, size: nat)
      modifies this`tlb
      ensures tlb == InvalidateRange(old(tlb), ipa, size)
    {
      tlb := InvalidateRange(tlb, ipa, size);
    }

    /** Walks down from the root and stops at the target level or at an entry that is no table. */
    method Walk(ipa: nat, target: int) returns (t: nat, level: int)
      requires Valid() && realm.startLevel <= target <= PAGE_LEVEL
      ensures t == WalkTo(realm, Now(), realm.root, ipa, target)
      ensures t in tables && t in places && level == places[t].level && |tables[t]| == ENTRIES
    {
      t, level := realm.root, realm.startLevel;
      while level < target && tables[t][Index(ipa, level)].Table?
        invariant t in tables && t in places && level == places[t].level && level <= target
        invariant WalkTo(realm, Now(), t, ipa, target) == WalkTo(realm, Now(), realm.root, ipa, target)
        decreases target - level
      {
        var i := Index(ipa, level);
        assert PointsTo(Now(), t, i, tables[t][i].pa);
        t, level := tables[t][i].pa, level + 1;
      }
    }

    // ---- Tables ------------------------------------------------------------------------------

    /** Takes granule c into use as a table and counts either its entries or the entry above it. */
    method CountTable(p: nat, c: nat, mapped: bool)
      requires p in granules && c in granules && c != p
      modifies this`granules
      ensures granules == Counts(old(granules), p, c, if mapped then 0 else 1, Rtt, if mapped then ENTRIES else 0)
    {
      if mapped {
        CountRef(c, ENTRIES);
      } else {
        CountRef(p, 1);
      }
      ChangeState(c, Rtt);
    }

    /** Replaces entry i of table p by a table of the entries it unfolds into. */
    method HangTable(p: nat, i: nat, c: nat, level: int, ipa: nat)
      requires At(Now(), p, i) && !tables[p][i].Table? && p in granules && c in granules && c != p
      requires level == places[p].level + 1 && ipa == EntryBase(Now(), p, i)
      modifies this`granules, this`tables, this`places, this`tlb
      ensures Now() == Attach(old(Now()), p, i, c)
    {
      hide Offset, MapSize, InvalidateEntry, Unfold;
      var e := tables[p][i];
      if e.Valid() {
        tables := tables[p := tables[p][i := Unassigned(Empty)]];
        Invalidate(ipa);
      }
      assert tables[p][i := Table(c)] == old(tables[p])[i := Table(c)];
      tables := tables[c := Unfold(e, level)];
      CountTable(p, c, e.Assigned?);
      WriteEntry(p, i, Table(c));
      places := places[c := Place(level, ipa)];
    }

    method Create(rd: nat, c: nat, ipa: nat, level: int) returns (outcome: Outcome)
      requires Valid()
      modifies this
      ensures (Now(), outcome) == Spec.Create(realm, old(Now()), rd, c, ipa, level) && request == old(request)
    {
      hide Inv, WalkTo, Attach;
      if c == rd || !Has(c, Delegated) || !Has(rd, Descriptor) || !ValidStructure(realm, ipa, level) {
        return ErrorInput;
      }
      var p, last := Walk(ipa, level - 1);
      if last != level - 1 {
        return ErrorRtt(last);
      }
      var i := Index(ipa, level - 1);
      if tables[p][i].Table? {
        return ErrorRtt(level - 1);
      }
      if (tables[p][i].Assigned? || tables[p][i].AssignedNs?) && level <= MIN_BLOCK_LEVEL {
        return AssertFails;
      }
      CanHang(realm, Now(), p, i, c, ipa, level);
      HangTable(p, i, c, level, ipa);
      outcome := Success;
    }

    /** Gives granule c back and takes back what its entries or the entry above it counted. */
    method ReleaseTable(p: nat, c: nat, mapped: bool)
      requires p in granules && c in granules && c != p
      modifies this`granules
      ensures granules == Counts(old(granules), p, c, if mapped then 0 else -1, Delegated,
                                 if mapped then 0 - ENTRIES else 0)
    {
      if mapped {
        CountRef(c, 0 - ENTRIES);
      } else {
        CountRef(p, -1);
      }
      ChangeState(c, Delegated);
    }

    /** Breaks entry i of table p before it is made anew. */
    method BreakEntry(p: nat, i: nat, ipa: nat, size: nat, pages: bool)
      requires At(Now(), p, i)
      modifies this`tables, this`tlb
      ensures tables == old(tables)[p := old(tables)[p][i := Unassigned(Empty)]]
      ensures tlb == if pages then InvalidateRange(old(tlb), ipa, size) else InvalidateEntry(old(tlb), ipa)
    {
      tables := tables[p := tables[p][i := Unassigned(Empty)]];
      if pages {
        InvalidatePages(ipa, size);
      } else {
        Invalidate(ipa);
      }
    }

    /** Replaces the table c below entry i of table p by entry e. */
    method DropTable(p: nat, i: nat, c: nat, e: Entry, ipa: nat, size: nat, pages: bool)
      requires At(Now(), p, i) && p in granules && c in granules && c != p
      modifies this`granules, this`tables, this`places, this`tlb
      ensures Now() == Detach(old(Now()), p, i, c, e,
        if pages then InvalidateRange(old(tlb), ipa, size) else InvalidateEntry(old(tlb), ipa))
    {
      ReleaseTable(p, c, e.Assigned?);
      BreakEntry(p, i, ipa, size, pages);
      assert tables[p][i := e] == old(tables)[p][i := e];
      tables := tables[p := tables[p][i := e]];
      assert tables == old(tables)[p := old(tables)[p][i := e]];
      tables := tables - {c};
      places := places - {c};
    }

    /** Folds table c below entry i of table p if it can be folded. */
    method FoldAway(p: nat, i: nat, c: nat, ipa: nat, level: int) returns (outcome: Outcome)
      requires At(Now(), p, i) && p in granules && c in granules && c != p && c in tables && |tables[c]| == ENTRIES
      modifies this`granules, this`tables, this`places, this`tlb
      ensures (Now(), outcome) == match FoldInto(old(tables)[c], old(granules)[c].refcount, level)
        case Mixed => (old(Now()), ErrorRtt(level))
        case TooHigh => (old(Now()), ErrorRtt(level - 1))
        case Into(e) => (Detach(old(Now()), p, i, c, e, FoldTlb(old(Now()), e, ipa, level)), Success)
    {
      match FoldInto(tables[c], granules[c].refcount, level)
      case Mixed => outcome := ErrorRtt(level);
      case TooHigh => outcome := ErrorRtt(level - 1);
      case Into(e) =>
        DropTable(p, i, c, e, ipa, MapSize(level - 1), e.Valid());
        outcome := Success;
    }

    method Fold(rd: nat, ipa: nat, level: int) returns (outcome: Outcome)
      requires Valid()
      modifies this
      ensures (Now(), outcome) == Spec.Fold(realm, old(Now()), rd, ipa, level) && request == old(request)
    {
      hide Inv, WalkTo, FoldInto, Detach, FoldTlb;
      if !Has(rd, Descriptor) || !ValidStructure(realm, ipa, level) {
        return ErrorInput;
      }
      var p, last := Walk(ipa, level - 1);
      if last != level - 1 {
        return ErrorRtt(last);
      }
      var i := Index(ipa, level - 1);
      if !tables[p][i].Table? {
        return ErrorRtt(level - 1);
      }
      var c := tables[p][i].pa;
      CanDrop(realm, Now(), p, i, c);
      outcome := FoldAway(p, i, c, ipa, level);
    }

    /** Drops table c below entry i of table p if it counts nothing. */
    method DropUnused(p: nat, i: nat, c: nat, ipa: nat, level: int) returns (outcome: Outcome)
      requires At(Now(), p, i) && p in granules && c in granules && c != p
      modifies this`granules, this`tables, this`places, this`tlb
      ensures (Now(), outcome) ==
        if old(granules)[c].refcount != 0 then (old(Now()), ErrorRtt(level))
        else (Detach(old(Now()), p, i, c, if InPar(realm, ipa) then Unassigned(Destroyed) else UnassignedNs,
                     DestroyTlb(realm, old(Now()), ipa, level)), Success)
    {
      if granules[c].refcount != 0 {
        return ErrorRtt(level);
      }
      var inPar := InPar(realm, ipa);
      DropTable(p, i, c, if inPar then Unassigned(Destroyed) else UnassignedNs, ipa, MapSize(level - 1), !inPar);
      outcome := Success;
    }

    method Destroy(rd: nat, ipa: nat, level: int) returns (outcome: Outcome)
      requires Valid()
      modifies this
      ensures (Now(), outcome) == Spec.Destroy(realm, old(Now()), rd, ipa, level) && request == old(request)
    {
      hide Inv, WalkTo, Detach, DestroyTlb;
      if !Has(rd, Descriptor) || !ValidStructure(realm, ipa, level) {
        return ErrorInput;
      }
      var p, last := Walk(ipa, level - 1);
      if last != level - 1 {
        return ErrorRtt(last);
      }
      var i := Index(ipa, level - 1);
      if !tables[p][i].Table? {
        return ErrorRtt(last);
      }
      var c := tables[p][i].pa;
      CanDrop(realm, Now(), p, i, c);
      outcome := DropUnused(p, i, c, ipa, level);
    }

    // ---- Mappings --------------------------------------------------------------------------------

    method MapNs(rd: nat, ipa: nat, level: int, pa: nat) returns (outcome: Outcome)
      requires Valid()
      modifies this`tables
      ensures (Now(), outcome) == Spec.MapNs(realm, old(Now()), rd, ipa, level, pa)
    {
      if level < MIN_BLOCK_LEVEL || level > PAGE_LEVEL || !Multiple(pa, MapSize(level)) {
        return ErrorInput;
      }
      if !Has(rd, Descriptor) || !ValidMapping(realm, ipa, level) || InPar(realm, ipa) {
        return ErrorInput;
      }
      var t, last := Walk(ipa, level);
      if last != level {
        return ErrorRtt(last);
      }
      var i := Index(ipa, last);
      if !tables[t][i].UnassignedNs? {
        return ErrorRtt(level);
      }
      WriteEntry(t, i, AssignedNs(pa));
      outcome := Success;
    }

    method UnmapNs(rd: nat, ipa: nat, level: int) returns (outcome: Outcome)
      requires Valid()
      modifies this`tables, this`tlb
      ensures (Now(), outcome) == Spec.UnmapNs(realm, old(Now()), rd, ipa, level)
    {
      if !Has(rd, Descriptor) || !ValidMapping(realm, ipa, level) || InPar(realm, ipa) {
        return ErrorInput;
      }
      var t, last := Walk(ipa, level);
      var i := Index(ipa, last);
      if last != level || !tables[t][i].AssignedNs? {
        return ErrorRtt(last);
      }
      WriteEntry(t, i, UnassignedNs);
      Invalidate(ipa);
      outcome := Success;
    }

    method DataCreate(rd: nat, data: nat, ipa: nat, source: Source, isNew: bool) returns (outcome: Outcome)
      requires Valid()
      modifies this`granules, this`tables
      ensures (Now(), outcome) == Spec.DataCreate(realm, old(Now()), rd, data, ipa, source, isNew)
    {
      if data == rd || !Has(data, Delegated) || !Has(rd, Descriptor) {
        return ErrorInput;
      }
      if source.Copied? && !isNew {
        return ErrorRealm;
      }
      if !InPar(realm, ipa) || !ValidMapAddr(realm, ipa, PAGE_LEVEL) {
        return ErrorInput;
      }
      var t, last := Walk(ipa, PAGE_LEVEL);
      if last != PAGE_LEVEL {
        return ErrorRtt(last);
      }
      var i := Index(ipa, PAGE_LEVEL);
      var e := tables[t][i];
      if !e.Unassigned? && !e.UnassignedNs? {
        return ErrorRtt(PAGE_LEVEL);
      }
      var ripas := Ram;
      if source.Copied? {
        if !source.readable {
          return ErrorInput;
        }
      } else if e.Unassigned? {
        ripas := e.ripas;
      }
      assert Is(Now(), t, Rtt);
      WriteEntry(t, i, Assigned(ripas, data, false));
      ChangeState(data, Data);
      CountRef(t, 1);
      outcome := Success;
    }

    /** Unassigns entry i of table t and returns the granule behind it. */
    method ReleasePage(t: nat, i: nat, ipa: nat)
      requires At(Now(), t, i) && tables[t][i].Assigned? && t in granules && tables[t][i].pa in granules
      modifies this`granules, this`tables, this`tlb
      ensures var s := old(Now()); var e := s.tables[t][i];
        Now() == AddRef(SetState(SetEntry(s, t, i, Unassigned(if e.ripas == Empty then Empty else Destroyed)),
                                 e.pa, Delegated), t, -1)
          .(tlb := if e.ripas == Ram then InvalidateEntry(s.tlb, ipa) else s.tlb)
    {
      var e := tables[t][i];
      WriteEntry(t, i, Unassigned(if e.ripas == Empty then Empty else Destroyed));
      if e.ripas == Ram {
        Invalidate(ipa);
      }
      ChangeState(e.pa, Delegated);
      CountRef(t, -1);
    }

    method DataDestroy(rd: nat, ipa: nat) returns (outcome: Outcome)
      requires Valid()
      modifies this`granules, this`tables, this`tlb
      ensures (Now(), outcome) == Spec.DataDestroy(realm, old(Now()), rd, ipa)
    {
      if !Has(rd, Descriptor) || !InPar(realm, ipa) || !ValidMapAddr(realm, ipa, PAGE_LEVEL) {
        return ErrorInput;
      }
      var t, last := Walk(ipa, PAGE_LEVEL);
      if last != PAGE_LEVEL {
        return ErrorRtt(last);
      }
      var i := Index(ipa, PAGE_LEVEL);
      var e := tables[t][i];
      if !e.Assigned? {
        return ErrorRtt(PAGE_LEVEL);
      }
      if !Has(e.pa, Data) {
        return AssertFails;
      }
      assert Is(Now(), t, Rtt);
      ReleasePage(t, i, ipa);
      outcome := Success;
    }

    method SetBlocked(rd: nat, ipa: nat, blocked: bool) returns (outcome: Outcome)
      requires Valid()
      modifies this`tables, this`tlb
      ensures (Now(), outcome) == Spec.SetBlocked(realm, old(Now()), rd, ipa, blocked)
    {
      if !Has(rd, Descriptor) || !ValidMapAddr(realm, ipa, PAGE_LEVEL) {
        return ErrorInput;
      }
      var t, last := Walk(ipa, PAGE_LEVEL);
      var i := Index(ipa, last);
      var e := tables[t][i];
      if last != PAGE_LEVEL || !e.Assigned? || e.ripas != Ram {
        return ErrorRtt(0);
      }
      WriteEntry(t, i, e.(blocked := blocked));
      Invalidate(ipa);
      outcome := Success;
    }

    // ---- Realm states ----------------------------------------------------------------------------

    /** Updates entries from index first on and returns how far it came. */
    method UpdateRange(t: nat, level: int, first: nat, base: nat, top: nat) returns (addr: nat)
      requires t in tables && t in places && level == places[t].level && first < |tables[t]| == ENTRIES
      modifies this`tables, this`tlb
      ensures (Now(), addr) == SetRange(old(Now()), t, first, base, top, request.ripas, request.changeDestroyed)
    {
      addr := base;
      var index := first;
      while index < ENTRIES
        invariant first <= index <= ENTRIES && t in tables && |tables[t]| == ENTRIES
        invariant SetRange(Now(), t, index, addr, top, request.ripas, request.changeDestroyed)
          == SetRange(old(Now()), t, first, base, top, request.ripas, request.changeDestroyed)
      {
        if addr + MapSize(level) > top {
          break;
        }
        var update := UpdateRipas(tables[t][index], request.ripas, request.changeDestroyed);
        if update.Refused? {
          break;
        }
        assert Continues(Now(), t, index, addr, top, request.ripas, request.changeDestroyed);
        tables := tables[t := tables[t][index := update.e]];
        if update.flush {
          Invalidate(addr);
        }
        addr, index := addr + MapSize(level), index + 1;
      }
    }

    method SetRipas(rd: nat, rec: nat, base: nat, top: nat) returns (outcome: Outcome)
      requires Valid()
      modifies this
      ensures granules == old(granules) && places == old(places)
      ensures (Now(), request, outcome) == RttRipas.SetRipas(realm, old(Now()), rd, rec, old(request), base, top)
    {
      hide Tree, DataOwned, Counted, TlbBacked, SetRange;
      if top <= base {
        return ErrorInput;
      }
      if rec == rd || !Has(rd, Descriptor) || !Has(rec, Context) {
        return ErrorInput;
      }
      if granules[rec].refcount != 0 || request.rd != rd {
        return ErrorRec;
      }
      if base != request.addr || top > request.top {
        return ErrorInput;
      }
      if !ValidMapAddr(realm, base, PAGE_LEVEL) {
        return AssertFails;
      }
      var t, level := Walk(base, PAGE_LEVEL);
      if !ValidMapAddr(realm, base, level) {
        return ErrorRtt(level);
      }
      var addr := UpdateRange(t, level, Index(base, level), base, top);
      if addr > base {
        request := request.(addr := addr);
        outcome := Success;
      } else {
        outcome := ErrorRtt(level);
      }
    }

    /** Serves one command; requests and the hardware's own steps do not come this way. */
    method Handle(step: Step) returns (outcome: Outcome)
      requires Valid() && IsCommand(step)
      modifies this
      ensures Valid()
      ensures (System(Now(), request), outcome) == Take(realm, System(old(Now()), old(request)), step)
    {
      hide Inv, Spec.Create, Spec.Fold, Spec.Destroy, Spec.MapNs, Spec.UnmapNs, Spec.DataCreate, Spec.DataDestroy;
      hide Spec.SetBlocked, RttRipas.SetRipas;
      TakeKeeps(realm, System(Now(), request), step);
      match step
      case DoCreate(rd, c, ipa, level) => outcome := Create(rd, c, ipa, level);
      case DoFold(rd, ipa, level) => outcome := Fold(rd, ipa, level);
      case DoDestroy(rd, ipa, level) => outcome := Destroy(rd, ipa, level);
      case DoMapNs(rd, ipa, level, pa) => outcome := MapNs(rd, ipa, level, pa);
      case DoUnmapNs(rd, ipa, level) => outcome := UnmapNs(rd, ipa, level);
      case DoDataCreate(rd, data, ipa, source, isNew) => outcome := DataCreate(rd, data, ipa, source, isNew);
      case DoDataDestroy(rd, ipa) => outcome := DataDestroy(rd, ipa);
      case DoSetBlocked(rd, ipa, blocked) => outcome := SetBlocked(rd, ipa, blocked);
      case DoSetRipas(call) => outcome := SetRipas(call.rd, call.rec, call.base, call.top);
    }
  }
}
