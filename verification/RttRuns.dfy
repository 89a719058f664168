/** Whole runs of translation-table commands, and what holds in every state they reach. */
module RttRuns {
  import opened Strides
  import opened RttModel
  import opened RttCommands
  import opened RttSafety
  import opened RttTree
  import opened RttView
  import opened RttRipas

  /** The realm's tables together with the pending request of its execution context. */
  datatype System = System(s: State, q: Request)

  /**
   * One step: a command of the host, a new request of the realm, a granule
   * changing hands, or the hardware filling or evicting its translation cache.
   */
  datatype Step =
    | DoCreate(rd: nat, c: nat, ipa: nat, level: int)
    | DoFold(rd: nat, ipa: nat, level: int)
    | DoDestroy(rd: nat, ipa: nat, level: int)
    | DoMapNs(rd: nat, ipa: nat, level: int, pa: nat)
    | DoUnmapNs(rd: nat, ipa: nat, level: int)
    | DoDataCreate(rd: nat, data: nat, ipa: nat, source: Source, isNew: bool)
    | DoDataDestroy(rd: nat, ipa: nat)
    | DoSetBlocked(rd: nat, ipa: nat, blocked: bool)
    | DoSetRipas(call: Call)
    | Ask(q: Request)
    | Delegate(g: nat)
    | Undelegate(g: nat)
    | Fill(t: nat, i: nat)
    | Evict(cached: Cached)

  /** A granule changes hands only while nothing holds it. */
  function HandOver(s: State, g: nat, from: GranuleState, to: GranuleState): State {
    if Is(s, g, from) && s.granules[g].refcount == 0 then SetState(s, g, to) else s
  }

  /** The hardware may cache any entry that is valid now. */
  function FillTlb(s: State, t: nat, i: nat): State {
    if At(s, t, i) && s.tables[t][i].Valid() then
      s.(tlb := s.tlb + {Cached(EntryBase(s, t, i), s.places[t].level, s.tables[t][i].pa)})
    else s
  }

  /** The step and the outcome of its command; steps that are no command succeed. */
  function Take(r: Realm, x: System, step: Step): (System, Outcome)
    requires Inv(r, x.s) && ValidRequest(r, x.q)
  {
    match step
    case DoCreate(rd, c, ipa, level) => Moves(x, Create(r, x.s, rd, c, ipa, level))
    case DoFold(rd, ipa, level) => Moves(x, Fold(r, x.s, rd, ipa, level))
    case DoDestroy(rd, ipa, level) => Moves(x, Destroy(r, x.s, rd, ipa, level))
    case DoMapNs(rd, ipa, level, pa) => Moves(x, MapNs(r, x.s, rd, ipa, level, pa))
    case DoUnmapNs(rd, ipa, level) => Moves(x, UnmapNs(r, x.s, rd, ipa, level))
    case DoDataCreate(rd, data, ipa, source, isNew) => Moves(x, DataCreate(r, x.s, rd, data, ipa, source, isNew))
    case DoDataDestroy(rd, ipa) => Moves(x, DataDestroy(r, x.s, rd, ipa))
    case DoSetBlocked(rd, ipa, blocked) => Moves(x, SetBlocked(r, x.s, rd, ipa, blocked))
    case DoSetRipas(call) =>
      var (s', q', outcome) := SetRipas(r, x.s, call.rd, call.rec, x.q, call.base, call.top);
      (System(s', q'), outcome)
    case Ask(q) => (if ValidRequest(r, q) then x.(q := q) else x, Success)
    case Delegate(g) => (x.(s := HandOver(x.s, g, Undelegated, Delegated)), Success)
    case Undelegate(g) => (x.(s := HandOver(x.s, g, Delegated, Undelegated)), Success)
    case Fill(t, i) => (x.(s := FillTlb(x.s, t, i)), Success)
    case Evict(c) => (x.(s := x.s.(tlb := x.s.tlb - {c})), Success)
  }

  function Moves(x: System, next: (State, Outcome)): (System, Outcome) {
    (x.(s := next.0), next.1)
  }

  // ---- Every step keeps the invariant ----------------------------------------------------

  lemma HandOverKeeps(r: Realm, s: State, g: nat, from: GranuleState, to: GranuleState)
    requires Inv(r, s)
    requires (from == Undelegated && to == Delegated) || (from == Delegated && to == Undelegated)
    ensures Inv(r, HandOver(s, g, from, to))
  {
    var s' := HandOver(s, g, from, to);
    if s' != s {
      SameTables(r, s, s');
      forall x ensures Is(s', x, Rtt) <==> Is(s, x, Rtt) {}
      forall x ensures Is(s', x, Data) <==> Is(s, x, Data) {}
      forall x | Is(s', x, Delegated) || Is(s', x, Data) ensures s'.granules[x].refcount == 0 {
        if x != g {
          assert Is(s, x, Delegated) || Is(s, x, Data);
        }
      }
      SameShape(r, s, s');
    }
  }

  /** What depends on the tables alone stays when the tables stay. */
  lemma SameTables(r: Realm, s: State, s': State)
    requires s'.tables == s.tables && s'.places == s.places
    ensures forall t, i, c :: PointsTo(s', t, i, c) <==> PointsTo(s, t, i, c)
    ensures forall t, i, g :: Covers(s', t, i, g) <==> Covers(s, t, i, g)
    ensures forall t, i, c :: Backs(s', t, i, c) <==> Backs(s, t, i, c)
    ensures forall c :: HasParent(s', c) <==> HasParent(s, c)
    ensures forall g :: HasOwner(s', g) <==> HasOwner(s, g)
    ensures forall c :: HasSource(s', c) <==> HasSource(s, c)
  {
    forall c ensures HasParent(s', c) <==> HasParent(s, c) {
      if HasParent(s', c) {
        var t, i :| PointsTo(s', t, i, c);
        assert PointsTo(s, t, i, c);
      }
      if HasParent(s, c) {
        var t, i :| PointsTo(s, t, i, c);
        assert PointsTo(s', t, i, c);
      }
    }
    forall g ensures HasOwner(s', g) <==> HasOwner(s, g) {
      if HasOwner(s', g) {
        var t, i :| Covers(s', t, i, g);
        assert Covers(s, t, i, g);
      }
      if HasOwner(s, g) {
        var t, i :| Covers(s, t, i, g);
        assert Covers(s', t, i, g);
      }
    }
    forall c ensures HasSource(s', c) <==> HasSource(s, c) {
      if HasSource(s', c) {
        var t, i :| Backs(s', t, i, c);
        assert Backs(s, t, i, c);
      }
      if HasSource(s, c) {
        var t, i :| Backs(s, t, i, c);
        assert Backs(s', t, i, c);
      }
    }
  }

  lemma SameShape(r: Realm, s: State, s': State)
    requires Inv(r, s) && s'.tables == s.tables && s'.places == s.places && s'.granules.Keys == s.granules.Keys
    requires s'.tlb <= s.tlb
    requires forall x :: Is(s', x, Rtt) <==> Is(s, x, Rtt)
    requires forall x :: Is(s', x, Data) <==> Is(s, x, Data)
    requires forall x :: Is(s', x, Delegated) || Is(s', x, Data) ==> s'.granules[x].refcount == 0
    requires forall x :: x in s.granules ==> s'.granules[x].refcount == s.granules[x].refcount
    ensures Inv(r, s')
  {
    SameTables(r, s, s');
    forall t, i | At(s', t, i) ensures EntryOk(r, s'.tables[t][i], s'.places[t].level, EntryBase(s', t, i)) {
      assert At(s, t, i) && EntryBase(s', t, i) == EntryBase(s, t, i);
    }
    forall t, i, c | PointsTo(s', t, i, c)
      ensures c in s'.tables && c in s'.places && c != r.root
        && s'.places[c] == Place(s'.places[t].level + 1, EntryBase(s', t, i))
    {
      assert PointsTo(s, t, i, c);
    }
    forall c | c in s'.tables && c != r.root ensures HasParent(s', c) {
      assert HasParent(s, c);
    }
  }

  lemma FillKeeps(r: Realm, s: State, t: nat, i: nat)
    requires Inv(r, s)
    ensures Inv(r, FillTlb(s, t, i))
  {
    var s' := FillTlb(s, t, i);
    if s' != s {
      SameTables(r, s, s');
      var c := Cached(EntryBase(s, t, i), s.places[t].level, s.tables[t][i].pa);
      assert Backs(s', t, i, c);
      var bare := s'.(tlb := s.tlb);
      assert bare == s;
      forall x | x in s'.tlb ensures HasSource(s', x) {
        if x != c {
          assert HasSource(s, x);
        }
      }
      SameShape(r, s, s'.(tlb := {}));
      WithTlb(r, s'.(tlb := {}), s'.tlb, s');
    }
  }

  lemma WithTlb(r: Realm, s: State, tlb: set<Cached>, s': State)
    requires Inv(r, s) && s' == s.(tlb := tlb) && TlbBacked(s')
    ensures Inv(r, s')
  {
    SameTables(r, s, s');
    forall t, i | At(s', t, i) ensures EntryOk(r, s'.tables[t][i], s'.places[t].level, EntryBase(s', t, i)) {
      assert At(s, t, i) && EntryBase(s', t, i) == EntryBase(s, t, i);
    }
    forall t, i, c | PointsTo(s', t, i, c)
      ensures c in s'.tables && c in s'.places && c != r.root
        && s'.places[c] == Place(s'.places[t].level + 1, EntryBase(s', t, i))
    {
      assert PointsTo(s, t, i, c);
    }
    forall g ensures Is(s', g, Data) <==> Is(s, g, Data) {}
    forall g ensures Is(s', g, Rtt) <==> Is(s, g, Rtt) {}
    forall g ensures Is(s', g, Delegated) <==> Is(s, g, Delegated) {}
  }

  lemma EvictKeeps(r: Realm, s: State, c: Cached)
    requires Inv(r, s)
    ensures Inv(r, s.(tlb := s.tlb - {c}))
  {
    SameShape(r, s, s.(tlb := s.tlb - {c}));
  }

  /** The commands that change the tree, one by one. */
  lemma TreeStepKeeps(r: Realm, s: State, step: Step)
    requires Inv(r, s)
    ensures match step
      case DoCreate(rd, c, ipa, level) => Inv(r, Create(r, s, rd, c, ipa, level).0)
      case DoFold(rd, ipa, level) => Inv(r, Fold(r, s, rd, ipa, level).0)
      case DoDestroy(rd, ipa, level) => Inv(r, Destroy(r, s, rd, ipa, level).0)
      case _ => true
  {
    match step
    case DoCreate(rd, c, ipa, level) => CreateKeeps(r, s, rd, c, ipa, level);
    case DoFold(rd, ipa, level) => FoldKeeps(r, s, rd, ipa, level);
    case DoDestroy(rd, ipa, level) => DestroyKeeps(r, s, rd, ipa, level);
    case _ =>
  }

  /** The commands that write one entry. */
  lemma EntryStepKeeps(r: Realm, s: State, step: Step)
    requires Inv(r, s)
    ensures match step
      case DoMapNs(rd, ipa, level, pa) => Inv(r, MapNs(r, s, rd, ipa, level, pa).0)
      case DoUnmapNs(rd, ipa, level) => Inv(r, UnmapNs(r, s, rd, ipa, level).0)
      case DoDataCreate(rd, data, ipa, source, isNew) => Inv(r, DataCreate(r, s, rd, data, ipa, source, isNew).0)
      case DoDataDestroy(rd, ipa) => Inv(r, DataDestroy(r, s, rd, ipa).0)
      case DoSetBlocked(rd, ipa, blocked) => Inv(r, SetBlocked(r, s, rd, ipa, blocked).0)
      case _ => true
  {
    match step
    case DoMapNs(rd, ipa, level, pa) => MapNsKeeps(r, s, rd, ipa, level, pa);
    case DoUnmapNs(rd, ipa, level) => UnmapNsKeeps(r, s, rd, ipa, level);
    case DoDataCreate(rd, data, ipa, source, isNew) => DataCreateKeeps(r, s, rd, data, ipa, source, isNew);
    case DoDataDestroy(rd, ipa) => DataDestroyKeeps(r, s, rd, ipa);
    case DoSetBlocked(rd, ipa, blocked) => SetBlockedKeeps(r, s, rd, ipa, blocked);
    case _ =>
  }

  /** The steps of the hardware and of other worlds. */
  lemma OutsideStepKeeps(r: Realm, s: State, step: Step)
    requires Inv(r, s)
    ensures match step
      case Delegate(g) => Inv(r, HandOver(s, g, Undelegated, Delegated))
      case Undelegate(g) => Inv(r, HandOver(s, g, Delegated, Undelegated))
      case Fill(t, i) => Inv(r, FillTlb(s, t, i))
      case Evict(c) => Inv(r, s.(tlb := s.tlb - {c}))
      case _ => true
  {
    match step
    case Delegate(g) => HandOverKeeps(r, s, g, Undelegated, Delegated);
    case Undelegate(g) => HandOverKeeps(r, s, g, Delegated, Undelegated);
    case Fill(t, i) => FillKeeps(r, s, t, i);
    case Evict(c) => EvictKeeps(r, s, c);
    case _ =>
  }

  /** Every step keeps the invariant of the tables and the request in bounds. */
  lemma TakeKeeps(r: Realm, x: System, step: Step)
    requires Inv(r, x.s) && ValidRequest(r, x.q)
    ensures Inv(r, Take(r, x, step).0.s) && ValidRequest(r, Take(r, x, step).0.q)
  {
    if step.DoSetRipas? {
      CallKept(r, x.s, x.q, step.call);
    } else {
      TreeStepKeeps(r, x.s, step);
      EntryStepKeeps(r, x.s, step);
      OutsideStepKeeps(r, x.s, step);
    }
  }

  // ---- Runs from an activated realm ---------------------------------------------------------

  /** A realm as it is created: one root table, nothing mapped, nothing cached. */
  ghost predicate Initial(r: Realm, x: System) {
    && ValidRealm(r) && ValidRequest(r, x.q)
    && x.s.tables.Keys == {r.root} && x.s.places == map[r.root := Place(r.startLevel, 0)] && x.s.tlb == {}
    && (forall g :: g in x.s.granules ==> Multiple(g, GRANULE_SIZE))
    && (forall g :: Is(x.s, g, Rtt) <==> g == r.root)
    && Is(x.s, r.root, Rtt) && x.s.granules[r.root].refcount == 0
    && (forall g :: !Is(x.s, g, Data))
    && (forall g :: Is(x.s, g, Delegated) ==> x.s.granules[g].refcount == 0)
    && x.s.tables[r.root] == RootEntries(r)
  }

  /** The entries of a new root table: empty below the protected boundary, unprotected above it. */
  function RootEntries(r: Realm): (es: seq<Entry>)
    ensures |es| == ENTRIES
  {
    seq(ENTRIES, j requires 0 <= j < ENTRIES =>
      if Offset(j, MapSize(r.startLevel)) < r.parSize then Unassigned(Empty) else UnassignedNs)
  }

  lemma InitialKeeps(r: Realm, x: System)
    requires Initial(r, x)
    ensures Inv(r, x.s)
  {
    var s := x.s;
    LiveNone(s.tables[r.root]);
    forall t, i | At(s, t, i) ensures EntryOk(r, s.tables[t][i], s.places[t].level, EntryBase(s, t, i)) {
      assert t == r.root;
    }
    forall t, i, c ensures !PointsTo(s, t, i, c) {}
    forall t, i, g ensures !Covers(s, t, i, g) {}
  }

  /** The state after a run. */
  function Run(r: Realm, x: System, steps: seq<Step>): (y: System)
    requires Inv(r, x.s) && ValidRequest(r, x.q)
    ensures Inv(r, y.s) && ValidRequest(r, y.q)
    decreases |steps|
  {
    if steps == [] then x
    else
      TakeKeeps(r, x, steps[0]);
      Run(r, Take(r, x, steps[0]).0, steps[1..])
  }

  /** What the bookkeeping of a state promises, table by table and granule by granule. */
  ghost predicate Safe(r: Realm, s: State) {
    && (forall t :: t in s.tables ==> Is(s, t, Rtt) && s.granules[t].refcount == Live(s.tables[t]))
    && (forall g :: Is(s, g, Rtt) && g != r.root ==> HasParent(s, g))
    && (forall t, i, t', i', c :: PointsTo(s, t, i, c) && PointsTo(s, t', i', c) ==> t == t' && i == i')
    && (forall g :: Is(s, g, Data) <==> HasOwner(s, g))
    && (forall t, i, t', i', g :: Covers(s, t, i, g) && Covers(s, t', i', g) ==> t == t' && i == i')
    && (forall c :: c in s.tlb ==> HasSource(s, c))
  }

  /**
   * In every state that any run of commands, requests and cache activity reaches
   * from a fresh realm, each table's reference count is its number of live
   * entries, every table but the root hangs below exactly one entry, every data
   * granule is assigned by exactly one entry, and every cached translation is
   * the one a valid entry gives now.
   */
  lemma ReachableIsSafe(r: Realm, x: System, steps: seq<Step>)
    requires Initial(r, x)
    ensures Inv(r, x.s) && Safe(r, Run(r, x, steps).s)
  {
    InitialKeeps(r, x);
    var s := Run(r, x, steps).s;
    forall g ensures Is(s, g, Data) <==> HasOwner(s, g) {
      if HasOwner(s, g) {
        var t, i :| Covers(s, t, i, g);
      }
    }
    forall g | Is(s, g, Rtt) && g != r.root ensures HasParent(s, g) {
      assert g in s.tables;
    }
  }

  /** Destroying a table loses neither a table nor a data granule. */
  lemma DestroyLosesNothing(r: Realm, s: State, s': State, rd: nat, ipa: nat, level: int, g: nat)
    requires Inv(r, s) && s' == Destroy(r, s, rd, ipa, level).0
    ensures Is(s, g, Data) ==> Is(s', g, Data) && HasOwner(s', g)
    ensures Is(s', g, Rtt) && g != r.root ==> HasParent(s', g)
    ensures Is(s, g, Rtt) && !Is(s', g, Rtt) ==>
      Is(s', g, Delegated) && s'.granules[g].refcount == 0 && !HasParent(s', g)
  {
    DestroyKeeps(r, s, rd, ipa, level);
    DestroyedGranules(r, s, s', rd, ipa, level, g);
    KeptOwners(r, s', g);
  }

  lemma DestroyedGranules(r: Realm, s: State, s': State, rd: nat, ipa: nat, level: int, g: nat)
    requires Inv(r, s) && s' == Destroy(r, s, rd, ipa, level).0
    ensures Is(s, g, Data) ==> Is(s', g, Data)
    ensures Is(s, g, Rtt) && !Is(s', g, Rtt) ==> Is(s', g, Delegated) && s'.granules[g].refcount == 0
  {
    if Destroy(r, s, rd, ipa, level).1 == Success {
      var p, i, c, e := DestroyDone(r, s, rd, ipa, level);
      Detachable(r, s, p, i, c, e);
      DetachGranules(s, p, i, c, e, DestroyTlb(r, s, ipa, level), g);
    }
  }

  /** Detaching changes the state of the detached table's granule alone. */
  lemma DetachGranules(s: State, p: nat, i: nat, c: nat, e: Entry, tlb: set<Cached>, g: nat)
    requires At(s, p, i) && c != p && Is(s, p, Rtt) && Is(s, c, Rtt) && (e.Unassigned? || e.UnassignedNs?)
    requires At(s, p, i) && p in s.granules && c in s.granules && c != p
    ensures var s' := Detach(s, p, i, c, e, tlb);
      s'.granules.Keys == s.granules.Keys && s'.granules[c] == Granule(Delegated, s.granules[c].refcount)
      && (g in s.granules && g != c ==> s'.granules[g].state == s.granules[g].state)
  {
  }

  lemma KeptOwners(r: Realm, s: State, g: nat)
    requires Inv(r, s)
    ensures Is(s, g, Data) ==> HasOwner(s, g)
    ensures Is(s, g, Rtt) && g != r.root ==> HasParent(s, g)
    ensures !Is(s, g, Rtt) ==> !HasParent(s, g)
  {
    assert g in s.tables <==> Is(s, g, Rtt);
    if HasParent(s, g) {
      var t, i :| PointsTo(s, t, i, g);
    }
  }

  /** The same in every reachable state. */
  lemma DestroyNeverOrphans(r: Realm, x: System, steps: seq<Step>, rd: nat, ipa: nat, level: int, g: nat)
    requires Initial(r, x) && Inv(r, x.s)
    ensures var s := Run(r, x, steps).s; var s' := Destroy(r, s, rd, ipa, level).0;
      (Is(s, g, Data) ==> HasOwner(s', g))
      && (Is(s', g, Rtt) && g != r.root ==> HasParent(s', g))
      && (Is(s, g, Rtt) && !Is(s', g, Rtt) ==> Is(s', g, Delegated) && !HasParent(s', g))
  {
    var s := Run(r, x, steps).s;
    DestroyLosesNothing(r, s, Destroy(r, s, rd, ipa, level).0, rd, ipa, level, g);
  }

  // ---- The assertion that can fail -----------------------------------------------------------

  /** A walk to the level of a table in whose range the address lies goes through that table. */
  lemma {:induction false} WalkThrough(r: Realm, s: State, t: nat, ipa: nat, target: int)
    requires Inv(r, s) && t in s.tables && InTable(s, t, ipa) && s.places[t].level <= target <= PAGE_LEVEL
    ensures WalkTo(r, s, r.root, ipa, target) == WalkTo(r, s, t, ipa, target)
    decreases s.places[t].level - r.startLevel
  {
    if t != r.root {
      assert HasParent(s, t);
      var p, i :| PointsTo(s, p, i, t);
      assert At(s, p, i) && EntryOk(r, s.tables[p][i], s.places[p].level, EntryBase(s, p, i));
      ParentRange(s.places[p].base, i, s.places[p].level, ipa);
      WalkThrough(r, s, p, ipa, target);
    }
  }

  /** The entry above the requested table is an unprotected block. */
  ghost predicate MeetsNsBlock(s: State, ipa: nat, level: int) {
    exists t, i :: NsBlockAt(s, t, i, ipa, level)
  }

  ghost predicate NsBlockAt(s: State, t: nat, i: nat, ipa: nat, level: int) {
    At(s, t, i) && s.tables[t][i].AssignedNs? && s.places[t].level == level && EntryBase(s, t, i) == ipa
  }

  /** Such a block is what the walk finds. */
  lemma BlockFound(r: Realm, s: State, t: nat, i: nat, ipa: nat, level: int)
    requires Inv(r, s) && NsBlockAt(s, t, i, ipa, level)
    ensures t == WalkTo(r, s, r.root, ipa, level) && i == Index(ipa, level)
  {
    EntryRange(s.places[t].base, i, level, ipa);
    WalkThrough(r, s, t, ipa, level);
  }

  /**
   * Creation fails an assertion of the monitor exactly when its arguments are
   * valid and it meets an unprotected block at or above the smallest block level.
   */
  lemma CreateAsserts(r: Realm, s: State, rd: nat, c: nat, ipa: nat, level: int)
    requires Inv(r, s)
    ensures Create(r, s, rd, c, ipa, level).1 == AssertFails <==>
      c != rd && Is(s, c, Delegated) && Is(s, rd, Descriptor) && ValidStructure(r, ipa, level)
      && level <= MIN_BLOCK_LEVEL && MeetsNsBlock(s, ipa, level - 1)
  {
    if Create(r, s, rd, c, ipa, level).1 == AssertFails {
      CreateMeets(r, s, rd, c, ipa, level);
    }
    if ValidStructure(r, ipa, level) && MeetsNsBlock(s, ipa, level - 1) {
      var t, i :| NsBlockAt(s, t, i, ipa, level - 1);
      BlockFound(r, s, t, i, ipa, level - 1);
    }
  }

  lemma CreateMeets(r: Realm, s: State, rd: nat, c: nat, ipa: nat, level: int)
    requires Inv(r, s) && Create(r, s, rd, c, ipa, level).1 == AssertFails
    ensures MeetsNsBlock(s, ipa, level - 1) && level <= MIN_BLOCK_LEVEL
  {
    var t, i := FoundEntry(r, s, ipa, level - 1);
    assert EntryOk(r, s.tables[t][i], s.places[t].level, EntryBase(s, t, i));
    assert NsBlockAt(s, t, i, ipa, level - 1);
  }

  /**
   * Unfolding again with the granule a fold has just returned succeeds, except
   * where the fold made an unprotected block above the smallest block level:
   * the fold does not check the level of unprotected tables, and the creation
   * then fails the monitor's assertion.
   */
  lemma FoldThenCreate(r: Realm, s: State, rd: nat, ipa: nat, level: int) returns (c: nat)
    requires Inv(r, s) && Fold(r, s, rd, ipa, level).1 == Success
    ensures HasParent(s, c) && Inv(r, Fold(r, s, rd, ipa, level).0)
    ensures Create(r, Fold(r, s, rd, ipa, level).0, rd, c, ipa, level).1
      == if level <= MIN_BLOCK_LEVEL && MeetsNsBlock(Fold(r, s, rd, ipa, level).0, ipa, level - 1)
         then AssertFails else Success
  {
    FoldKeeps(r, s, rd, ipa, level);
    var s1 := Fold(r, s, rd, ipa, level).0;
    var p, i, e;
    p, i, c, e := FoldDone(r, s, rd, ipa, level);
    Detachable(r, s, p, i, c, e);
    DetachDiffers(s, p, i, c, e, FoldTlb(s, e, ipa, level));
    FreedGranule(s, p, i, c, e, FoldTlb(s, e, ipa, level), rd);
    CreateThere(r, s1, rd, c, ipa, level, p, i);
  }

  /** Creation succeeds where the walk finds no table, except on the blocks the assertion excludes. */
  lemma CreateThere(r: Realm, s: State, rd: nat, c: nat, ipa: nat, level: int, p: nat, i: nat)
    requires Inv(r, s) && c != rd && Is(s, c, Delegated) && Is(s, rd, Descriptor) && ValidStructure(r, ipa, level)
    requires At(s, p, i) && !s.tables[p][i].Table? && s.places[p].level == level - 1 && EntryBase(s, p, i) == ipa
    ensures Create(r, s, rd, c, ipa, level).1
      == if level <= MIN_BLOCK_LEVEL && MeetsNsBlock(s, ipa, level - 1) then AssertFails else Success
  {
    CreateAsserts(r, s, rd, c, ipa, level);
    EntryRange(s.places[p].base, i, level - 1, ipa);
    WalkThrough(r, s, p, ipa, level - 1);
  }

  lemma FreedGranule(s: State, p: nat, i: nat, c: nat, e: Entry, tlb: set<Cached>, rd: nat)
    requires At(s, p, i) && c != p && Is(s, p, Rtt) && Is(s, c, Rtt) && Is(s, rd, Descriptor)
    ensures Is(Detach(s, p, i, c, e, tlb), c, Delegated) && Is(Detach(s, p, i, c, e, tlb), rd, Descriptor) && c != rd
  {
  }
}
