/** The four-level extended page table of src/hypervisor/mmu/ept.c and the range layer of
    src/hypervisor/hypervisor.c, over one physical memory shared by every VM.

    Table pages are addressed by frame number, as the C code addresses them through
    physical_address << 12, so two entries may alias and a stray write may hit any page; that
    neither happens is a kept invariant. */
module Ept {
  import opened Common

  datatype Status = Ok | InvalidParam | NotFound

  const SLOTS: nat := 512
  const PAGE: nat := 0x1000
  const FRAMES: nat := 0x100_0000_0000          // 40-bit physical_address field
  const PAGE_NUMBERS: nat := 0x10_0000_0000     // bits 47:12 of a guest address

  datatype Entry = Entry(present: bool, write: bool, executable: bool, memoryType: nat, bigPage: bool, frame: nat)

  const EMPTY := Entry(false, false, false, 0, false, 0)
  const WRITE_BACK: nat := 6

  type Table = t: seq<Entry> | |t| == SLOTS witness seq(SLOTS, i => EMPTY)

  function Zeroed(): Table { seq(SLOTS, i => EMPTY) }

  // ----- index arithmetic

  function Pml4Index(gpa: nat): nat { (gpa / 0x80_0000_0000) % 512 }
  function PdpIndex(gpa: nat): nat { (gpa / 0x4000_0000) % 512 }
  function PdIndex(gpa: nat): nat { (gpa / 0x20_0000) % 512 }
  function PtIndex(gpa: nat): nat { (gpa / 0x1000) % 512 }

  function Path(gpa: nat): (p: seq<nat>)
    ensures |p| == 4 && forall i :: 0 <= i < 4 ==> p[i] < SLOTS
  {
    [Pml4Index(gpa), PdpIndex(gpa), PdIndex(gpa), PtIndex(gpa)]
  }

  function PageNumber(gpa: nat): nat { (gpa / PAGE) % PAGE_NUMBERS }

  lemma SplitPage(p: nat)
    ensures (p % 0x10_0000_0000)
         == 0x800_0000 * ((p / 0x800_0000) % 512) + 0x4_0000 * ((p / 0x4_0000) % 512)
            + 512 * ((p / 512) % 512) + p % 512
  {
    var a := p / 512;
    var b := a / 512;
    var c := b / 512;
    assert b == p / 0x4_0000 && c == p / 0x800_0000 && c / 512 == p / 0x10_0000_0000;
  }

  lemma RadixInjective(a: nat, b: nat, c: nat, d: nat, a': nat, b': nat, c': nat, d': nat)
    requires a < 512 && b < 512 && c < 512 && d < 512 && a' < 512 && b' < 512 && c' < 512 && d' < 512
    requires 0x800_0000 * a + 0x4_0000 * b + 512 * c + d == 0x800_0000 * a' + 0x4_0000 * b' + 512 * c' + d'
    ensures a == a' && b == b' && c == c' && d == d'
  {}

  /** The four indices together are exactly bits 47:12. */
  lemma PathIsPageNumber(g: nat, h: nat)
    ensures Path(g) == Path(h) <==> PageNumber(g) == PageNumber(h)
  {
    Digits(g);
    Digits(h);
    hide Pml4Index, PdpIndex, PdIndex, PtIndex, PageNumber;
    var p, q := Path(g), Path(h);
    assert p[0] == Pml4Index(g) && p[1] == PdpIndex(g) && p[2] == PdIndex(g) && p[3] == PtIndex(g);
    assert q[0] == Pml4Index(h) && q[1] == PdpIndex(h) && q[2] == PdIndex(h) && q[3] == PtIndex(h);
    if PageNumber(g) == PageNumber(h) {
      RadixInjective(p[0], p[1], p[2], p[3], q[0], q[1], q[2], q[3]);
    }
  }

  lemma Digits(g: nat)
    ensures PageNumber(g) == 0x800_0000 * Pml4Index(g) + 0x4_0000 * PdpIndex(g) + 512 * PdIndex(g) + PtIndex(g)
  {
    var p := g / 0x1000;
    assert g / 0x80_0000_0000 == p / 0x800_0000;
    assert g / 0x4000_0000 == p / 0x4_0000;
    assert g / 0x20_0000 == p / 512;
    SplitPage(p);
  }

  // ----- memory, ownership and the walk

  /** Where a table page sits: the root it was grown under and the indices that lead to it. */
  datatype Place = Place(root: nat, path: seq<nat>)

  /** mem maps frame numbers to table pages, supply holds the frames the allocator will hand out
      next, and own records the place of every table page (bookkeeping the C code does not keep). */
  datatype Tables = Tables(mem: map<nat, Table>, own: map<nat, Place>, supply: seq<nat>)

  ghost predicate Slot(t: Tables, f: nat, i: nat) {
    f in t.own && f in t.mem && i < SLOTS
  }

  /** An upper-level slot is no large page and, when present, points to a page of its own. */
  ghost predicate SlotOk(t: Tables, f: nat, i: nat)
    requires Slot(t, f, i)
  {
    var e := t.mem[f][i];
    && !e.bigPage
    && (e.present ==> e.frame in t.own && t.own[e.frame] == Place(t.own[f].root, t.own[f].path + [i]))
  }

  ghost predicate FreshSupply(t: Tables) {
    && (forall i :: 0 <= i < |t.supply| ==> 0 < t.supply[i] < FRAMES && t.supply[i] !in t.mem)
    && (forall i, j :: 0 <= i < j < |t.supply| ==> t.supply[i] != t.supply[j])
  }

  ghost predicate Inv(t: Tables) {
    && (forall f :: f in t.own ==> f in t.mem && f != 0 && |t.own[f].path| <= 3)
    && (forall f, i :: Slot(t, f, i) && |t.own[f].path| < 3 ==> SlotOk(t, f, i))
    && FreshSupply(t)
  }

  ghost predicate IsRoot(t: Tables, r: nat) {
    r in t.own && t.own[r] == Place(r, [])
  }

  predicate Indices(path: seq<nat>) {
    forall k :: 0 <= k < |path| ==> path[k] < SLOTS
  }

  /** The hardware walk: follow present entries down the indices; the last one is the answer. */
  function Walk(mem: map<nat, Table>, f: nat, path: seq<nat>): Option<Entry>
    requires path != [] && Indices(path)
    decreases |path|
  {
    if f !in mem then None
    else
      var e := mem[f][path[0]];
      if !e.present then None
      else if |path| == 1 then Some(e)
      else Walk(mem, e.frame, path[1..])
  }

  /** A table page at its place, with a walk that ends at the last level. */
  ghost predicate Fits(t: Tables, f: nat, path: seq<nat>) {
    f in t.own && path != [] && Indices(path) && |t.own[f].path| + |path| == 4
  }

  /** The present entries down path lead from table f to table g. */
  ghost predicate Reaches(t: Tables, f: nat, path: seq<nat>, g: nat)
    decreases |path|
  {
    if path == [] then f == g
    else path[0] < SLOTS && f in t.own && f in t.mem && t.mem[f][path[0]].present
         && Reaches(t, t.mem[f][path[0]].frame, path[1..], g)
  }

  /** A walk reads the last slot of the one page its upper entries lead to, and that page's place is
      the root and the indices walked, so distinct places never lead to one page. */
  lemma {:induction false} WalkTables(t: Tables, f: nat, path: seq<nat>) returns (g: nat)
    requires Inv(t) && Fits(t, f, path)
    ensures Walk(t.mem, f, path).Some? ==>
              g in t.own && t.own[g] == Place(t.own[f].root, t.own[f].path + path[..|path| - 1])
              && Reaches(t, f, path[..|path| - 1], g)
              && Walk(t.mem, f, path) == Some(t.mem[g][path[|path| - 1]])
    decreases |path|
  {
    g := f;
    if |path| == 1 {
      assert t.own[f].path + path[..0] == t.own[f].path;
    } else {
      var e := t.mem[f][path[0]];
      assert Slot(t, f, path[0]);
      if e.present {
        assert SlotOk(t, f, path[0]);
        g := WalkTables(t, e.frame, path[1..]);
        assert path[..|path| - 1][1..] == path[1..][..|path| - 2];
        assert t.own[f].path + [path[0]] + path[1..][..|path| - 2] == t.own[f].path + path[..|path| - 1];
      }
    }
  }

  /** Writing one slot of a leaf table leaves every walk through another slot alone. */
  lemma {:induction false} WriteMisses(t: Tables, f: nat, i: nat, e: Entry, g: nat, path: seq<nat>)
    requires Inv(t) && f in t.own && i < SLOTS && Fits(t, g, path)
    requires t.own[f].root != t.own[g].root || t.own[f].path + [i] != t.own[g].path + path
    requires |t.own[f].path| == 3
    ensures Walk(t.mem[f := t.mem[f][i := e]], g, path) == Walk(t.mem, g, path)
    decreases |path|
  {
    var mem' := t.mem[f := t.mem[f][i := e]];
    if |path| == 1 {
      assert path == [path[0]];
    } else {
      assert g != f;
      var d := t.mem[g][path[0]];
      assert Slot(t, g, path[0]);
      if d.present {
        assert SlotOk(t, g, path[0]);
        assert t.own[g].path + [path[0]] + path[1..] == t.own[g].path + path;
        WriteMisses(t, f, i, e, d.frame, path[1..]);
      }
    }
  }

  // ----- growing the tree and setting a leaf

  /** The upper entry the allocation helpers write over a slot, for a page at frame c. */
  function Upper(e: Entry, c: nat): Entry {
    e.(present := true, write := true, executable := false, memoryType := WRITE_BACK,
       frame := ((c * PAGE) / PAGE) % FRAMES)
  }

  /** The slot already leads on, or there is a frame to link under it. */
  ghost predicate CanLink(t: Tables, f: nat, i: nat)
    requires Inv(t) && f in t.own && i < SLOTS
  {
    t.mem[f][i].present || |t.supply| > 0
  }

  /** Allocate the next-level page under slot i of table f unless the slot already has one. */
  ghost function EnsureChild(t: Tables, f: nat, i: nat): Tables
    requires Inv(t) && f in t.own && i < SLOTS && CanLink(t, f, i)
  {
    if t.mem[f][i].present then t
    else
      var c := t.supply[0];
      Tables(t.mem[c := Zeroed()][f := t.mem[f][i := Upper(t.mem[f][i], c)]],
             t.own[c := Place(t.own[f].root, t.own[f].path + [i])], t.supply[1..])
  }

  lemma EnsureChildInv(t: Tables, f: nat, i: nat)
    requires Inv(t) && f in t.own && i < SLOTS && CanLink(t, f, i) && |t.own[f].path| < 3
    ensures var t' := EnsureChild(t, f, i);
            Inv(t') && f in t'.own && t'.own[f] == t.own[f]
            && (forall g :: g in t.own ==> g in t'.own && t'.own[g] == t.own[g])
            && t'.mem[f][i].present && SlotOk(t', f, i)
            && (!t.mem[f][i].present ==>
                  (t'.mem[f][i] == Entry(true, true, false, 6, false, t.supply[0]) && t.supply[0] in t'.mem
                   && forall j :: 0 <= j < SLOTS ==> !t'.mem[t.supply[0]][j].present))
            && |t'.supply| == |t.supply| - (if t.mem[f][i].present then 0 else 1)
            && (forall g: nat, j: nat :: Slot(t, g, j) && t.mem[g][j].present ==>
                  g in t'.mem && t'.mem[g][j] == t.mem[g][j])
  {
    var t' := EnsureChild(t, f, i);
    assert Slot(t, f, i) && SlotOk(t, f, i);
    if !t.mem[f][i].present {
      var c := t.supply[0];
      forall g, j | Slot(t', g, j) && |t'.own[g].path| < 3 ensures SlotOk(t', g, j) {
        if g != c {
          assert Slot(t, g, j) && SlotOk(t, g, j);
        }
      }
    }
  }

  /** Growing the tree changes no walk: the slot was absent and the new page is empty. */
  lemma {:induction false} EnsureChildWalk(t: Tables, f: nat, i: nat, g: nat, path: seq<nat>)
    requires Inv(t) && f in t.own && i < SLOTS && CanLink(t, f, i) && |t.own[f].path| < 3
    requires Fits(t, g, path)
    ensures Walk(EnsureChild(t, f, i).mem, g, path) == Walk(t.mem, g, path)
    decreases |path|
  {
    var t' := EnsureChild(t, f, i);
    assert Slot(t, g, path[0]);
    if !t.mem[f][i].present && |path| > 1 {
      var d := t.mem[g][path[0]];
      assert SlotOk(t, g, path[0]);
      if d.present {
        EnsureChildWalk(t, f, i, d.frame, path[1..]);
      } else if g == f && path[0] == i {
        assert !t'.mem[t.supply[0]][path[1..][0]].present;
      }
    }
  }

  /** t' extends t: the same pages at the same places, and every walk of t unchanged. */
  ghost predicate Extends(t: Tables, t': Tables) {
    && Inv(t')
    && (forall g :: g in t.own ==> g in t'.own && t'.own[g] == t.own[g])
    && (forall g, path :: Fits(t, g, path) ==> Walk(t'.mem, g, path) == Walk(t.mem, g, path))
    && (forall g: nat, i: nat :: Slot(t, g, i) && t.mem[g][i].present ==> g in t'.mem && t'.mem[g][i] == t.mem[g][i])
  }

  /** The present entry in slot i of table f leads to table g. */
  ghost predicate Links(t: Tables, f: nat, i: nat, g: nat) {
    Slot(t, f, i) && t.mem[f][i].present && t.mem[f][i].frame == g
  }

  lemma ExtendsTrans(t0: Tables, t1: Tables, t2: Tables)
    requires Extends(t0, t1) && Extends(t1, t2)
    ensures Extends(t0, t2)
  {
    hide Inv;
    forall g, path | Fits(t0, g, path) ensures Walk(t2.mem, g, path) == Walk(t0.mem, g, path) {
      assert Fits(t1, g, path);
    }
    forall g: nat, i: nat | Slot(t0, g, i) && t0.mem[g][i].present ensures g in t2.mem && t2.mem[g][i] == t0.mem[g][i] {
      assert Slot(t1, g, i);
    }
  }

  lemma LinksKept(t: Tables, t': Tables, f: nat, i: nat, g: nat)
    requires Extends(t, t') && Links(t, f, i, g)
    ensures Links(t', f, i, g)
  {}

  /** One level down: the tables with the child in place, and the child's frame. */
  ghost function Descend(t: Tables, f: nat, i: nat): (r: (Tables, nat))
    requires Inv(t) && f in t.own && i < SLOTS && CanLink(t, f, i) && |t.own[f].path| < 3
    ensures Inv(r.0) && r.1 in r.0.own && r.0.own[r.1] == Place(t.own[f].root, t.own[f].path + [i])
    ensures Links(r.0, f, i, r.1)
  {
    EnsureChildInv(t, f, i);
    var t' := EnsureChild(t, f, i);
    (t', t'.mem[f][i].frame)
  }

  lemma DescendExtends(t: Tables, f: nat, i: nat)
    requires Inv(t) && f in t.own && i < SLOTS && CanLink(t, f, i) && |t.own[f].path| < 3
    ensures Extends(t, Descend(t, f, i).0)
  {
    EnsureChildInv(t, f, i);
    hide Inv;
    forall g, path | Fits(t, g, path)
      ensures Walk(EnsureChild(t, f, i).mem, g, path) == Walk(t.mem, g, path)
    {
      EnsureChildWalk(t, f, i, g, path);
    }
  }

  /** How many table pages the walk down path still lacks. */
  ghost function Missing(t: Tables, f: nat, path: seq<nat>): nat
    decreases |path|
  {
    if path == [] then 0
    else if f !in t.mem || path[0] >= SLOTS || !t.mem[f][path[0]].present then |path|
    else Missing(t, t.mem[f][path[0]].frame, path[1..])
  }

  /** A level put in place uses one frame exactly when it was missing. */
  lemma DescendMissing(t: Tables, f: nat, i: nat, rest: seq<nat>)
    requires Inv(t) && f in t.own && i < SLOTS && |t.own[f].path| < 3 && |t.supply| >= Missing(t, f, [i] + rest)
    ensures CanLink(t, f, i)
    ensures var d := Descend(t, f, i);
            |d.0.supply| - Missing(d.0, d.1, rest) == |t.supply| - Missing(t, f, [i] + rest)
            && |d.0.supply| >= Missing(d.0, d.1, rest)
  {
    assert ([i] + rest)[1..] == rest;
    EnsureChildInv(t, f, i);
  }

  /** The three indices above the leaf. */
  function UpperPath(gpa: nat): (p: seq<nat>)
    ensures p == Path(gpa)[..3]
  {
    [Pml4Index(gpa)] + ([PdpIndex(gpa)] + ([PdIndex(gpa)] + []))
  }

  /** The allocator can supply every table page that ept_map has to add for gpa. */
  ghost predicate CanGrow(t: Tables, root: nat, gpa: nat) {
    |t.supply| >= Missing(t, root, UpperPath(gpa))
  }

  /** The tables with every level above the leaf of gpa in place, and the leaf table's frame. */
  ghost function Grow(t: Tables, root: nat, gpa: nat): (Tables, nat)
    requires Inv(t) && IsRoot(t, root) && CanGrow(t, root, gpa)
  {
    DescendMissing(t, root, Pml4Index(gpa), [PdpIndex(gpa)] + ([PdIndex(gpa)] + []));
    var d1 := Descend(t, root, Pml4Index(gpa));
    DescendMissing(d1.0, d1.1, PdpIndex(gpa), [PdIndex(gpa)] + []);
    var d2 := Descend(d1.0, d1.1, PdpIndex(gpa));
    DescendMissing(d2.0, d2.1, PdIndex(gpa), []);
    Descend(d2.0, d2.1, PdIndex(gpa))
  }

  /** The three upper entries on the way down gpa lead from the root to the leaf table pt. */
  ghost predicate Leads(t: Tables, root: nat, gpa: nat, pt: nat) {
    exists pdpt, pd ::
      Links(t, root, Pml4Index(gpa), pdpt) && Links(t, pdpt, PdpIndex(gpa), pd) && Links(t, pd, PdIndex(gpa), pt)
  }

  lemma MissingNone(t: Tables, f: nat)
    ensures Missing(t, f, []) == 0
  {}

  lemma {:induction false} MissingAtMost(t: Tables, f: nat, path: seq<nat>)
    ensures Missing(t, f, path) <= |path|
    decreases |path|
  {
    if path != [] && f in t.mem && path[0] < SLOTS && t.mem[f][path[0]].present {
      MissingAtMost(t, t.mem[f][path[0]].frame, path[1..]);
    }
  }

  lemma GrowCorrect(t: Tables, root: nat, gpa: nat)
    requires Inv(t) && IsRoot(t, root) && CanGrow(t, root, gpa)
    ensures var r := Grow(t, root, gpa);
            Extends(t, r.0) && |r.0.supply| == |t.supply| - Missing(t, root, UpperPath(gpa))
            && r.1 in r.0.own && r.0.own[r.1] == Place(root, Path(gpa)[..3])
            && Leads(r.0, root, gpa, r.1)
  {
    hide Descend, Extends, Inv, Missing, CanLink, Pml4Index, PdpIndex, PdIndex, PtIndex;
    var p := Path(gpa);
    assert p[0] == Pml4Index(gpa) && p[1] == PdpIndex(gpa) && p[2] == PdIndex(gpa);
    DescendMissing(t, root, Pml4Index(gpa), [PdpIndex(gpa)] + ([PdIndex(gpa)] + []));
    var d1 := Descend(t, root, Pml4Index(gpa));
    DescendMissing(d1.0, d1.1, PdpIndex(gpa), [PdIndex(gpa)] + []);
    var d2 := Descend(d1.0, d1.1, PdpIndex(gpa));
    DescendMissing(d2.0, d2.1, PdIndex(gpa), []);
    var d3 := Descend(d2.0, d2.1, PdIndex(gpa));
    MissingNone(d3.0, d3.1);
    DescendExtends(t, root, Pml4Index(gpa));
    DescendExtends(d1.0, d1.1, PdpIndex(gpa));
    DescendExtends(d2.0, d2.1, PdIndex(gpa));
    ExtendsTrans(t, d1.0, d2.0);
    ExtendsTrans(t, d2.0, d3.0);
    ExtendsTrans(d1.0, d2.0, d3.0);
    LinksKept(d1.0, d3.0, root, Pml4Index(gpa), d1.1);
    LinksKept(d2.0, d3.0, d1.1, PdpIndex(gpa), d2.1);
    assert [] + [Pml4Index(gpa)] + [PdpIndex(gpa)] + [PdIndex(gpa)] == Path(gpa)[..3];
  }

  /** What ept_map does to the tables. */
  ghost function MapEntry(t: Tables, root: nat, gpa: nat, pte: Entry): Tables
    requires Inv(t) && IsRoot(t, root) && CanGrow(t, root, gpa)
  {
    GrowCorrect(t, root, gpa);
    var (t', pt) := Grow(t, root, gpa);
    t'.(mem := t'.mem[pt := t'.mem[pt][PtIndex(gpa) := pte]])
  }

  ghost function Lookup(t: Tables, root: nat, gpa: nat): Option<Entry> {
    Walk(t.mem, root, Path(gpa))
  }

  function Filled(pte: Entry): Option<Entry> {
    if pte.present then Some(pte) else None
  }

  lemma LeafWriteInv(t: Tables, f: nat, i: nat, e: Entry)
    requires Inv(t) && f in t.own && i < SLOTS && |t.own[f].path| == 3
    ensures Inv(t.(mem := t.mem[f := t.mem[f][i := e]]))
  {
    var t' := t.(mem := t.mem[f := t.mem[f][i := e]]);
    forall g, j | Slot(t', g, j) && |t'.own[g].path| < 3 ensures SlotOk(t', g, j) {
      assert Slot(t, g, j) && SlotOk(t, g, j);
    }
  }

  lemma LeafWriteHits(t: Tables, root: nat, gpa: nat, pt: nat, pte: Entry)
    requires Inv(t) && IsRoot(t, root) && pt in t.own && |t.own[pt].path| == 3 && Leads(t, root, gpa, pt)
    ensures Lookup(t.(mem := t.mem[pt := t.mem[pt][PtIndex(gpa) := pte]]), root, gpa) == Filled(pte)
  {
    var mem' := t.mem[pt := t.mem[pt][PtIndex(gpa) := pte]];
    var pdpt, pd :|
      Links(t, root, Pml4Index(gpa), pdpt) && Links(t, pdpt, PdpIndex(gpa), pd) && Links(t, pd, PdIndex(gpa), pt);
    assert SlotOk(t, root, Pml4Index(gpa)) && SlotOk(t, pdpt, PdpIndex(gpa)) && SlotOk(t, pd, PdIndex(gpa));
    var p := Path(gpa);
    assert root != pt && pdpt != pt && pd != pt;
    hide Walk;
    WalkUnfold(mem', root, p);
    WalkUnfold(mem', pdpt, p[1..]);
    WalkUnfold(mem', pd, p[1..][1..]);
    WalkUnfold(mem', pt, p[1..][1..][1..]);
  }

  lemma WalkUnfold(mem: map<nat, Table>, f: nat, path: seq<nat>)
    requires path != [] && Indices(path) && f in mem
    ensures Walk(mem, f, path) ==
            if |path| == 1 then Filled(mem[f][path[0]])
            else if mem[f][path[0]].present then Walk(mem, mem[f][path[0]].frame, path[1..]) else None
  {}

  /** ept_map against the plain map: exactly the page of gpa changes, in the one VM. */
  lemma MapEntryRefines(t: Tables, root: nat, gpa: nat, pte: Entry, r: nat, g: nat)
    requires Inv(t) && IsRoot(t, root) && CanGrow(t, root, gpa) && IsRoot(t, r)
    ensures var t' := MapEntry(t, root, gpa, pte);
            Inv(t') && IsRoot(t', r) && |t'.supply| == |t.supply| - Missing(t, root, UpperPath(gpa))
            && Lookup(t', r, g) ==
               if r == root && PageNumber(g) == PageNumber(gpa) then Filled(pte) else Lookup(t, r, g)
  {
    hide Grow, Walk, Leads, PageNumber, Pml4Index, PdpIndex, PdIndex, PtIndex, Missing, UpperPath;
    var (t1, pt) := Grow(t, root, gpa);
    GrowCorrect(t, root, gpa);
    assert Path(gpa)[3] == PtIndex(gpa);
    LeafWriteInv(t1, pt, PtIndex(gpa), pte);
    LeafWriteHits(t1, root, gpa, pt, pte);
    PathIsPageNumber(g, gpa);
    assert Fits(t, r, Path(g)) && Fits(t1, r, Path(g));
    if r != root || PageNumber(g) != PageNumber(gpa) {
      assert t1.own[pt].path + [PtIndex(gpa)] == Path(gpa);
      assert t1.own[r].path + Path(g) == Path(g);
      WriteMisses(t1, pt, PtIndex(gpa), pte, r, Path(g));
    }
  }

  // ----- whole runs against the history of calls

  /** A call on the tables: a new VM's root, ept_map, or ept_clear_root. */
  datatype Op = NewRoot | Map(root: nat, gpa: nat, pte: Entry) | Clear(root: nat)

  /** The call's root is live and its allocations succeed. */
  ghost predicate Enabled(t: Tables, op: Op) {
    match op
    case NewRoot => |t.supply| >= 1
    case Map(root, gpa, _) => IsRoot(t, root) && CanGrow(t, root, gpa)
    case Clear(root) => IsRoot(t, root)
  }

  ghost function AddRoot(t: Tables): Tables
    requires |t.supply| >= 1
  {
    var r := t.supply[0];
    Tables(t.mem[r := Zeroed()], t.own[r := Place(r, [])], t.supply[1..])
  }

  ghost function Step(t: Tables, op: Op): Tables
    requires Inv(t) && Enabled(t, op)
  {
    match op
    case NewRoot => AddRoot(t)
    case Map(root, gpa, pte) => MapEntry(t, root, gpa, pte)
    case Clear(root) => t.(mem := t.mem[root := Zeroed()])
  }

  lemma AddRootInv(t: Tables)
    requires Inv(t) && |t.supply| >= 1
    ensures Inv(AddRoot(t))
  {
    var t' := AddRoot(t);
    forall g, j | Slot(t', g, j) && |t'.own[g].path| < 3 ensures SlotOk(t', g, j) {
      if g != t.supply[0] { assert Slot(t, g, j) && SlotOk(t, g, j); }
    }
  }

  lemma {:induction false} AddRootWalk(t: Tables, f: nat, path: seq<nat>)
    requires Inv(t) && |t.supply| >= 1 && Fits(t, f, path)
    ensures Walk(AddRoot(t).mem, f, path) == Walk(t.mem, f, path)
    decreases |path|
  {
    assert Slot(t, f, path[0]);
    if |path| > 1 && t.mem[f][path[0]].present {
      assert SlotOk(t, f, path[0]);
      AddRootWalk(t, t.mem[f][path[0]].frame, path[1..]);
    }
  }

  lemma ClearInv(t: Tables, root: nat)
    requires Inv(t) && IsRoot(t, root)
    ensures Inv(t.(mem := t.mem[root := Zeroed()]))
  {
    var t' := t.(mem := t.mem[root := Zeroed()]);
    forall g, j | Slot(t', g, j) && |t'.own[g].path| < 3 ensures SlotOk(t', g, j) {
      if g != root { assert Slot(t, g, j) && SlotOk(t, g, j); }
    }
  }

  lemma {:induction false} ClearWalk(t: Tables, root: nat, f: nat, path: seq<nat>)
    requires Inv(t) && IsRoot(t, root) && Fits(t, f, path) && f != root
    requires t.own[f].root != root || t.own[f].path != []
    requires t.own[f].path != [] || t.own[f].root == f
    ensures Walk(t.mem[root := Zeroed()], f, path) == Walk(t.mem, f, path)
    decreases |path|
  {
    assert Slot(t, f, path[0]);
    if |path| > 1 && t.mem[f][path[0]].present {
      assert SlotOk(t, f, path[0]);
      ClearWalk(t, root, t.mem[f][path[0]].frame, path[1..]);
    }
  }

  /** What one call does to the entry of one page of one VM. */
  function Effect(op: Op, r: nat, page: nat, before: Option<Entry>): Option<Entry> {
    match op
    case NewRoot => before
    case Map(root, gpa, pte) => if root == r && PageNumber(gpa) == page then Filled(pte) else before
    case Clear(root) => if root == r then None else before
  }

  lemma StepRefines(t: Tables, op: Op, r: nat, g: nat)
    requires Inv(t) && Enabled(t, op) && IsRoot(t, r)
    ensures Inv(Step(t, op)) && IsRoot(Step(t, op), r)
    ensures Lookup(Step(t, op), r, g) == Effect(op, r, PageNumber(g), Lookup(t, r, g))
  {
    hide Walk, MapEntry, PageNumber, Path;
    assert Fits(t, r, Path(g));
    match op
    case NewRoot =>
      AddRootInv(t);
      AddRootWalk(t, r, Path(g));
    case Map(root, gpa, pte) =>
      MapEntryRefines(t, root, gpa, pte, r, g);
    case Clear(root) =>
      ClearInv(t, root);
      if root == r {
        WalkUnfold(Step(t, op).mem, r, Path(g));
      } else {
        ClearWalk(t, root, r, Path(g));
      }
  }

  lemma StepInv(t: Tables, op: Op)
    requires Inv(t) && Enabled(t, op)
    ensures Inv(Step(t, op))
  {
    match op
    case NewRoot => AddRootInv(t);
    case Map(root, gpa, pte) => MapEntryRefines(t, root, gpa, pte, root, gpa);
    case Clear(root) => ClearInv(t, root);
  }

  ghost predicate Allowed(t: Tables, ops: seq<Op>)
    requires Inv(t)
    decreases |ops|
  {
    ops == [] || (Enabled(t, ops[0]) && (StepInv(t, ops[0]); Allowed(Step(t, ops[0]), ops[1..])))
  }

  ghost function Run(t: Tables, ops: seq<Op>): Tables
    requires Inv(t) && Allowed(t, ops)
    decreases |ops|
  {
    if ops == [] then t else StepInv(t, ops[0]); Run(Step(t, ops[0]), ops[1..])
  }

  /** The history, read backwards: the last call that touched the page of VM r decides. */
  function LastMapped(ops: seq<Op>, r: nat, page: nat, before: Option<Entry>): Option<Entry>
    decreases |ops|
  {
    if ops == [] then before
    else
      var op := ops[|ops| - 1];
      if op.Map? && op.root == r && PageNumber(op.gpa) == page then Filled(op.pte)
      else if op.Clear? && op.root == r then None
      else LastMapped(ops[..|ops| - 1], r, page, before)
  }

  lemma {:induction false} LastMappedFront(ops: seq<Op>, r: nat, page: nat, before: Option<Entry>)
    requires ops != []
    ensures LastMapped(ops, r, page, before) == LastMapped(ops[1..], r, page, Effect(ops[0], r, page, before))
    decreases |ops|
  {
    hide PageNumber;
    var n := |ops|;
    if n > 1 {
      LastMappedFront(ops[..n - 1], r, page, before);
      assert ops[..n - 1][1..] == ops[1..][..n - 2];
      assert ops[1..][n - 2] == ops[n - 1];
    }
  }

  /** Every run: a lookup answers the last present entry mapped for the page since the last clear. */
  lemma {:induction false} RunRefines(t: Tables, ops: seq<Op>, r: nat, g: nat)
    requires Inv(t) && Allowed(t, ops) && IsRoot(t, r)
    ensures Inv(Run(t, ops)) && IsRoot(Run(t, ops), r)
    ensures Lookup(Run(t, ops), r, g) == LastMapped(ops, r, PageNumber(g), Lookup(t, r, g))
    decreases |ops|
  {
    hide PageNumber, Lookup, Step, Effect, Enabled, Inv, IsRoot;
    if ops != [] {
      StepRefines(t, ops[0], r, g);
      RunRefines(Step(t, ops[0]), ops[1..], r, g);
      LastMappedFront(ops, r, PageNumber(g), Lookup(t, r, g));
    }
  }

  /** From a fresh root nothing but the history counts. */
  lemma FreshRootRun(t: Tables, ops: seq<Op>, g: nat)
    requires Inv(t) && |t.supply| >= 1 && (AddRootInv(t); Allowed(AddRoot(t), ops))
    ensures var r := t.supply[0];
            Lookup((AddRootInv(t); Run(AddRoot(t), ops)), r, g) == LastMapped(ops, r, PageNumber(g), None)
  {
    hide PageNumber, Run, Allowed, LastMapped, Path;
    AddRootInv(t);
    var r := t.supply[0];
    assert IsRoot(AddRoot(t), r);
    WalkUnfold(AddRoot(t).mem, r, Path(g));
    RunRefines(AddRoot(t), ops, r, g);
  }

  lemma ReachesLeads(t: Tables, root: nat, gpa: nat, f: nat)
    requires Reaches(t, root, Path(gpa)[..3], f)
    ensures Leads(t, root, gpa, f)
  {
    hide Pml4Index, PdpIndex, PdIndex, PtIndex;
    var p := Path(gpa)[..3];
    var pdpt := t.mem[root][p[0]].frame;
    assert Reaches(t, pdpt, p[1..], f);
    var pd := t.mem[pdpt][p[1..][0]].frame;
    assert Reaches(t, pd, p[1..][1..], f);
    assert Reaches(t, t.mem[pd][p[1..][1..][0]].frame, p[1..][1..][1..], f);
    assert Links(t, root, Pml4Index(gpa), pdpt) && Links(t, pdpt, PdpIndex(gpa), pd) && Links(t, pd, PdIndex(gpa), f);
  }

  /** No sharing: two walks that read the same leaf slot started at one root with one page number. */
  lemma LeafUnshared(t: Tables, r: nat, g: nat, r': nat, g': nat) returns (f: nat, f': nat)
    requires Inv(t) && IsRoot(t, r) && IsRoot(t, r')
    ensures Lookup(t, r, g).Some? ==>
              Leads(t, r, g, f) && f in t.mem && Lookup(t, r, g) == Some(t.mem[f][PtIndex(g)])
    ensures Lookup(t, r', g').Some? ==>
              Leads(t, r', g', f') && f' in t.mem && Lookup(t, r', g') == Some(t.mem[f'][PtIndex(g')])
    ensures Lookup(t, r, g).Some? && Lookup(t, r', g').Some? && f == f' && PtIndex(g) == PtIndex(g')
            ==> r == r' && PageNumber(g) == PageNumber(g')
  {
    hide Walk, Pml4Index, PdpIndex, PdIndex, PtIndex, PageNumber, Leads, Reaches;
    var p, p' := Path(g), Path(g');
    f := WalkTables(t, r, p);
    f' := WalkTables(t, r', p');
    if Lookup(t, r, g).Some? { ReachesLeads(t, r, g, f); }
    if Lookup(t, r', g').Some? { ReachesLeads(t, r', g', f'); }
    PathIsPageNumber(g, g');
    assert [] + p[..3] == p[..3] && [] + p'[..3] == p'[..3];
    assert p == p[..3] + [p[3]] && p' == p'[..3] + [p'[3]];
  }

  // ----- mapping a range, and translation

  /** The leaf entry vm_ept_map builds for a host address. */
  function Leaf(hpa: nat, write: bool, execute: bool): Entry {
    Entry(true, write, !execute, WRITE_BACK, false, (hpa / PAGE) % FRAMES)
  }

  /** The i-th call that vm_ept_map makes, in 64-bit arithmetic. */
  function RangeOp(root: nat, g: nat, h: nat, i: nat, write: bool, execute: bool): Op {
    Map(root, (g + i * PAGE) % U64, Leaf((h + i * PAGE) % U64, write, execute))
  }

  /** The ept_map calls of vm_ept_map. */
  function RangeOps(root: nat, g: nat, h: nat, n: nat, write: bool, execute: bool): (ops: seq<Op>)
    ensures |ops| == n
  {
    if n == 0 then []
    else RangeOps(root, g, h, n - 1, write, execute)
         + [RangeOp(root, g, h, n - 1, write, execute)]
  }

  function PageCount(size: nat): nat {
    ((size + PAGE - 1) % U64) / PAGE
  }

  lemma RunEmpty(t: Tables)
    requires Inv(t)
    ensures Allowed(t, []) && Run(t, []) == t
  {}

  lemma {:induction false} RunSnoc(t: Tables, ops: seq<Op>, op: Op)
    requires Inv(t) && Allowed(t, ops) && Inv(Run(t, ops)) && Enabled(Run(t, ops), op)
    ensures Allowed(t, ops + [op]) && Run(t, ops + [op]) == Step(Run(t, ops), op)
    decreases |ops|
  {
    hide Inv, Enabled, Step;
    if ops == [] {
      assert ops + [op] == [op];
      StepInv(t, op);
      assert Allowed(Step(t, op), []);
    } else {
      StepInv(t, ops[0]);
      RunSnoc(Step(t, ops[0]), ops[1..], op);
      assert (ops + [op])[1..] == ops[1..] + [op];
    }
  }

  /** A run that is allowed can be cut anywhere, and the next call is then enabled. */
  lemma {:induction false} AllowedTake(t: Tables, ops: seq<Op>, k: nat)
    requires Inv(t) && Allowed(t, ops) && k <= |ops|
    ensures Allowed(t, ops[..k]) && Inv(Run(t, ops[..k]))
    ensures k < |ops| ==> Enabled(Run(t, ops[..k]), ops[k])
    decreases k
  {
    hide Inv, Enabled, Step;
    if k == 0 {
      assert ops[..0] == [];
      RunEmpty(t);
    } else {
      StepInv(t, ops[0]);
      AllowedTake(Step(t, ops[0]), ops[1..], k - 1);
      assert ops[..k][1..] == ops[1..][..k - 1] && ops[..k][0] == ops[0];
    }
  }

  lemma {:induction false} RangeOpsTake(root: nat, g: nat, h: nat, n: nat, write: bool, execute: bool, k: nat)
    requires k <= n
    ensures RangeOps(root, g, h, n, write, execute)[..k] == RangeOps(root, g, h, k, write, execute)
    decreases n
  {
    if k < n { RangeOpsTake(root, g, h, n - 1, write, execute, k); }
  }

  /** Three frames for each page are always enough. */
  lemma {:induction false} RangeAllowed(t: Tables, root: nat, g: nat, h: nat, n: nat, write: bool, execute: bool)
    requires Inv(t) && IsRoot(t, root) && |t.supply| >= 3 * n
    ensures var ops := RangeOps(root, g, h, n, write, execute);
            Allowed(t, ops) && Inv(Run(t, ops)) && IsRoot(Run(t, ops), root)
            && |Run(t, ops).supply| >= |t.supply| - 3 * n
  {
    hide Leaf, Inv, IsRoot, MapEntry, Missing, UpperPath, Run, Allowed;
    if n == 0 {
      RunEmpty(t);
    } else {
      RangeAllowed(t, root, g, h, n - 1, write, execute);
      var ops := RangeOps(root, g, h, n - 1, write, execute);
      var op := RangeOp(root, g, h, n - 1, write, execute);
      MissingAtMost(Run(t, ops), root, UpperPath(op.gpa));
      MapEntryRefines(Run(t, ops), root, op.gpa, op.pte, root, op.gpa);
      RunSnoc(t, ops, op);
    }
  }

  /** What vm_ept_map does to the tables. */
  ghost function RangeMapped(t: Tables, root: nat, g: nat, h: nat, n: nat, write: bool, execute: bool): Tables
    requires Inv(t) && Allowed(t, RangeOps(root, g, h, n, write, execute))
  {
    Run(t, RangeOps(root, g, h, n, write, execute))
  }

  const GUEST_SPACE: nat := PAGE_NUMBERS * PAGE   // a walk looks at the low 48 bits of a guest address
  const HOST_SPACE: nat := FRAMES * PAGE          // a leaf holds the low 52 bits of a host address

  /** Pages from the page of g up to page, going round at the end of the guest space. */
  function Distance(g: nat, page: nat): (d: nat)
    ensures d < PAGE_NUMBERS
  {
    (page - g / PAGE) % PAGE_NUMBERS
  }

  lemma WrapPage(y: nat)
    ensures y % U64 / PAGE == y / PAGE % 0x10_0000_0000_0000
  {
    assert y == U64 * (y / U64) + y % U64;
    assert y / PAGE == 0x10_0000_0000_0000 * (y / U64) + y % U64 / PAGE;
  }

  /** A remainder by 2^52 does not disturb a remainder by a smaller power of two. */
  lemma SmallerRemainder(p: nat, m: nat)
    requires m == PAGE_NUMBERS || m == FRAMES
    ensures p % 0x10_0000_0000_0000 % m == p % m
  {
    var k := if m == PAGE_NUMBERS then 0x1_0000 else 0x1000;
    var q, r := p / 0x10_0000_0000_0000, p % 0x10_0000_0000_0000;
    assert p == m * (k * q) + r;
    Remainder(m, k * q, r);
  }

  lemma Remainder(m: nat, q: int, r: nat)
    requires m == PAGE_NUMBERS || m == FRAMES
    ensures (m * q + r) % m == r % m
  {
    var a := r / m;
    assert m * q + r == m * (q + a) + r % m;
  }

  lemma PageShift(g: nat, i: nat)
    ensures PageNumber((g + i * PAGE) % U64) == (g / PAGE + i) % PAGE_NUMBERS
  {
    assert (g + i * PAGE) / PAGE == g / PAGE + i;
    WrapPage(g + i * PAGE);
    SmallerRemainder(g / PAGE + i, PAGE_NUMBERS);
  }

  lemma DistanceIs(g: nat, i: nat, page: nat)
    requires i < PAGE_NUMBERS && page < PAGE_NUMBERS
    ensures (g / PAGE + i) % PAGE_NUMBERS == page <==> Distance(g, page) == i
  {
    var a, m := g / PAGE, PAGE_NUMBERS;
    var q, d := (a + i) / m, (page - a) / m;
    assert a + i == m * q + (a + i) % m;
    assert page - a == m * d + (page - a) % m;
  }

  function LeafAt(frame: nat, write: bool, execute: bool): Entry {
    Entry(true, write, !execute, WRITE_BACK, false, frame)
  }

  lemma FrameShift(h: nat, i: nat, write: bool, execute: bool)
    ensures Leaf((h + i * PAGE) % U64, write, execute) == LeafAt((h / PAGE + i) % FRAMES, write, execute)
  {
    assert (h + i * PAGE) / PAGE == h / PAGE + i;
    WrapPage(h + i * PAGE);
    SmallerRemainder(h / PAGE + i, FRAMES);
  }

  lemma RangeOpEffect(root: nat, g: nat, h: nat, i: nat, write: bool, execute: bool,
                      r: nat, page: nat, before: Option<Entry>)
    requires i < PAGE_NUMBERS && page < PAGE_NUMBERS
    ensures Effect(RangeOp(root, g, h, i, write, execute), r, page, before) ==
            if r == root && Distance(g, page) == i
            then Some(LeafAt((h / PAGE + i) % FRAMES, write, execute)) else before
  {
    hide PageNumber, Leaf, LeafAt, Distance;
    PageShift(g, i);
    FrameShift(h, i, write, execute);
    DistanceIs(g, i, page);
    LeafPresent((h / PAGE + i) % FRAMES, write, execute);
  }

  lemma {:induction false} RangeHistory(root: nat, g: nat, h: nat, n: nat, write: bool, execute: bool,
                                        r: nat, page: nat, before: Option<Entry>)
    requires n <= PAGE_NUMBERS && page < PAGE_NUMBERS
    ensures LastMapped(RangeOps(root, g, h, n, write, execute), r, page, before) ==
            if r == root && Distance(g, page) < n
            then Some(LeafAt((h / PAGE + Distance(g, page)) % FRAMES, write, execute)) else before
  {
    hide RangeOp, Effect, LeafAt, Distance;
    if n > 0 {
      RangeHistory(root, g, h, n - 1, write, execute, r, page, before);
      var ops, op := RangeOps(root, g, h, n - 1, write, execute), RangeOp(root, g, h, n - 1, write, execute);
      LastMappedSnoc(ops, op, r, page, before);
      RangeOpEffect(root, g, h, n - 1, write, execute, r, page, LastMapped(ops, r, page, before));
    }
  }

  lemma LeafPresent(frame: nat, write: bool, execute: bool)
    ensures Filled(LeafAt(frame, write, execute)) == Some(LeafAt(frame, write, execute))
  {}

  lemma LastMappedSnoc(ops: seq<Op>, op: Op, r: nat, page: nat, before: Option<Entry>)
    ensures LastMapped(ops + [op], r, page, before) == Effect(op, r, page, LastMapped(ops, r, page, before))
  {
    hide PageNumber;
    assert (ops + [op])[..|ops|] == ops;
  }

  ghost function Translate(t: Tables, r: nat, gpa: nat): Option<nat> {
    match Lookup(t, r, gpa)
    case None => None
    case Some(e) => Some(e.frame * PAGE + gpa % PAGE)
  }

  lemma PageNumberBound(x: nat)
    ensures PageNumber(x) < PAGE_NUMBERS
  {}

  /** vm_ept_map of at most 2^36 pages: the covered pages translate in order, in 48 bits on the guest
      side and 52 on the host side; nothing else moves, in this VM or another. */
  lemma RangeTranslates(t: Tables, root: nat, g: nat, h: nat, n: nat, write: bool, execute: bool, r: nat, x: nat)
    requires Inv(t) && IsRoot(t, r) && Allowed(t, RangeOps(root, g, h, n, write, execute)) && n <= PAGE_NUMBERS
    ensures var t' := RangeMapped(t, root, g, h, n, write, execute);
            var d := Distance(g, PageNumber(x));
            if r == root && d < n
            then Translate(t', r, x) == Some((h / PAGE + d) % FRAMES * PAGE + x % PAGE)
            else Translate(t', r, x) == Translate(t, r, x)
  {
    hide Lookup, PageNumber, Run, Allowed, Inv, IsRoot, Distance;
    PageNumberBound(x);
    RunRefines(t, RangeOps(root, g, h, n, write, execute), r, x);
    RangeHistory(root, g, h, n, write, execute, r, PageNumber(x), Lookup(t, r, x));
  }

  /** The entry of a covered page: present, write-back, no large page, writable as asked, and with the
      executable bit set when execution was not asked for. */
  lemma RangeEntry(t: Tables, root: nat, g: nat, h: nat, n: nat, write: bool, execute: bool, x: nat)
    requires Inv(t) && IsRoot(t, root) && Allowed(t, RangeOps(root, g, h, n, write, execute)) && n <= PAGE_NUMBERS
    requires Distance(g, PageNumber(x)) < n
    ensures var e := Lookup(RangeMapped(t, root, g, h, n, write, execute), root, x);
            && e.Some? && e.value.present && e.value.write == write && e.value.executable == !execute
            && e.value.memoryType == 6 && !e.value.bigPage
            && e.value.frame == (h / 0x1000 + Distance(g, PageNumber(x))) % 0x100_0000_0000
  {
    hide Lookup, PageNumber, Run, Allowed, Inv, IsRoot, Distance;
    PageNumberBound(x);
    RunRefines(t, RangeOps(root, g, h, n, write, execute), root, x);
    RangeHistory(root, g, h, n, write, execute, root, PageNumber(x), Lookup(t, root, x));
  }

  /** Byte k of the range translates as the caller of vm_ept_map asked. */
  ghost predicate ByteAt(t: Tables, root: nat, g: nat, h: nat, k: nat) {
    Translate(t, root, g + k) == Some(h + k)
  }

  /** Pages from the page of g to the page of byte k. */
  function PagesTo(g: nat, k: nat): (d: nat) {
    (g % PAGE + k) / PAGE
  }

  /** Byte k lies in one of the n pages counted from the page of g. */
  predicate Covered(g: nat, n: nat, k: nat) {
    PagesTo(g, k) < n
  }

  lemma PagesToDistance(g: nat, k: nat)
    requires g % PAGE + k < GUEST_SPACE
    ensures Distance(g, PageNumber(g + k)) == PagesTo(g, k) < PAGE_NUMBERS
  {
    assert (g + k) / PAGE == g / PAGE + PagesTo(g, k);
    DistanceIs(g, PagesTo(g, k), PageNumber(g + k));
  }

  /** The byte that a page and an offset make is the asked one exactly when the offsets agree and the
      asked address fits into a leaf. */
  lemma LeafByte(g: nat, h: nat, k: nat)
    ensures (h / PAGE + PagesTo(g, k)) % FRAMES * PAGE + (g + k) % PAGE == h + k <==>
            g % PAGE == h % PAGE && h + k < HOST_SPACE
  {
    var f, o := h / PAGE + PagesTo(g, k), (g + k) % PAGE;
    assert (g + k) % PAGE == (g % PAGE + k) % PAGE;
    assert f * PAGE + o == h + k + g % PAGE - h % PAGE;
    if f < FRAMES {
      assert f % FRAMES == f;
      assert f * PAGE + o < HOST_SPACE;
    } else {
      assert f % FRAMES * PAGE + o < HOST_SPACE;
      assert f * PAGE + o >= HOST_SPACE;
    }
    OffsetsApart(g, h, k);
  }

  lemma OffsetsApart(g: nat, h: nat, k: nat)
    ensures (g + k) % PAGE == (h + k) % PAGE <==> g % PAGE == h % PAGE
  {}

  lemma CountedPages(size: nat)
    requires size <= GUEST_SPACE
    ensures PageCount(size) <= PAGE_NUMBERS && size <= PageCount(size) * PAGE && (size > 0 ==> PageCount(size) > 0)
  {
    var n := PageCount(size);
    assert n == (size + 0xFFF) / 0x1000;
    assert size <= n * 0x1000 && (n > 0 ==> (n - 1) * 0x1000 < size);
  }

  /** One byte of the range: in a covered page right exactly when the page offsets agree and the host
      address fits into 52 bits, and unchanged past the covered pages. */
  lemma RangeByte(t: Tables, root: nat, g: nat, h: nat, size: nat, write: bool, execute: bool, k: nat)
    requires Inv(t) && IsRoot(t, root) && Allowed(t, RangeOps(root, g, h, PageCount(size), write, execute))
    requires k < size && g % PAGE + size <= GUEST_SPACE
    ensures var t' := RangeMapped(t, root, g, h, PageCount(size), write, execute);
            ByteAt(t', root, g, h, k) <==>
              if Covered(g, PageCount(size), k) then g % PAGE == h % PAGE && h + k < HOST_SPACE
              else ByteAt(t, root, g, h, k)
  {
    hide Translate, RangeMapped, Allowed, Inv, IsRoot, PageCount, PageNumber, Distance, PagesTo;
    CountedPages(size);
    PagesToDistance(g, k);
    RangeTranslates(t, root, g, h, PageCount(size), write, execute, root, g + k);
    LeafByte(g, h, k);
  }

  /** Addresses 2^48 apart are one page to a walk, so no range longer than the guest space, counted
      from the start of its first page, is ever translated as asked. */
  lemma TooLong(t: Tables, root: nat, g: nat, h: nat, k: nat)
    requires ByteAt(t, root, g, h, k)
    ensures !ByteAt(t, root, g, h, k + GUEST_SPACE)
  {
    hide Lookup;
    assert (g + (k + GUEST_SPACE)) / PAGE == (g + k) / PAGE + PAGE_NUMBERS;
    assert (g + (k + GUEST_SPACE)) % PAGE == (g + k) % PAGE;
    Remainder(PAGE_NUMBERS, 1, (g + k) / PAGE);
    PathIsPageNumber(g + k, g + (k + GUEST_SPACE));
    SameLookup(t, root, g + k, g + (k + GUEST_SPACE));
  }

  lemma SameLookup(t: Tables, root: nat, x: nat, y: nat)
    requires Path(x) == Path(y)
    ensures Lookup(t, root, x) == Lookup(t, root, y)
  {}

  lemma WrapsRound(t: Tables, root: nat, g: nat, h: nat, n: nat, size: nat, write: bool, execute: bool)
    requires Inv(t) && IsRoot(t, root) && Allowed(t, RangeOps(root, g, h, n, write, execute))
    requires 0 < n <= PAGE_NUMBERS && size <= GUEST_SPACE < g % PAGE + size
    ensures !ByteAt(RangeMapped(t, root, g, h, n, write, execute), root, g, h, size - 1)
  {
    hide Translate, RangeMapped, Allowed, Inv, IsRoot, PageNumber, Distance;
    var x := g + (size - 1);
    RangeTranslates(t, root, g, h, n, write, execute, root, x);
    FirstPageAgain(g, size);
    assert h / PAGE % FRAMES * PAGE <= h / PAGE * PAGE <= h;
    assert h / PAGE % FRAMES * PAGE + x % PAGE < h + (size - 1);
  }

  lemma FirstPageAgain(g: nat, size: nat)
    requires size <= GUEST_SPACE < g % PAGE + size
    ensures Distance(g, PageNumber(g + (size - 1))) == 0
  {
    hide Distance;
    var a := g / PAGE;
    assert (g + (size - 1)) / PAGE == a + PAGE_NUMBERS;
    Remainder(PAGE_NUMBERS, 1, a);
    PageNumberBound(g + (size - 1));
    DistanceIs(g, 0, PageNumber(g + (size - 1)));
  }

  /** The call did what it was asked, byte for byte. */
  ghost predicate AsAsked(t: Tables, root: nat, g: nat, h: nat, size: nat) {
    forall k: nat :: k < size ==> ByteAt(t, root, g, h, k)
  }

  /** The covered bytes go to host addresses that fit, at the offset they have in the guest. */
  ghost predicate RangeFits(g: nat, h: nat, size: nat) {
    && g % PAGE + size <= GUEST_SPACE && (size > 0 ==> g % PAGE == h % PAGE)
    && (forall k: nat :: k < size && Covered(g, PageCount(size), k) ==> h + k < HOST_SPACE)
  }

  /** The code counts pages from the size alone, checks no alignment and cuts addresses off. A call of
      any size does what it was asked exactly when the range fits and every byte past the counted
      pages was already translated that way. */
  lemma RangeCorrectIff(t: Tables, root: nat, g: nat, h: nat, size: nat, write: bool, execute: bool)
    requires Inv(t) && IsRoot(t, root) && Allowed(t, RangeOps(root, g, h, PageCount(size), write, execute))
    ensures AsAsked(RangeMapped(t, root, g, h, PageCount(size), write, execute), root, g, h, size) <==>
            RangeFits(g, h, size)
            && forall k: nat :: k < size && !Covered(g, PageCount(size), k) ==> ByteAt(t, root, g, h, k)
  {
    hide ByteAt, RangeMapped, Allowed, Inv, IsRoot, PageCount, Covered;
    var t' := RangeMapped(t, root, g, h, PageCount(size), write, execute);
    if size > GUEST_SPACE {
      if ByteAt(t', root, g, h, 0) { TooLong(t', root, g, h, 0); }
      assert !ByteAt(t', root, g, h, 0) || !ByteAt(t', root, g, h, GUEST_SPACE);
    } else if g % PAGE + size > GUEST_SPACE {
      CountedPages(size);
      WrapsRound(t, root, g, h, PageCount(size), size, write, execute);
    } else {
      forall k: nat | k < size
        ensures ByteAt(t', root, g, h, k) <==>
                  if Covered(g, PageCount(size), k) then g % PAGE == h % PAGE && h + k < HOST_SPACE
                  else ByteAt(t, root, g, h, k)
      {
        RangeByte(t, root, g, h, size, write, execute, k);
      }
      if size > 0 { FirstCovered(g, size); }
    }
  }

  lemma FirstCovered(g: nat, size: nat)
    requires 0 < size <= GUEST_SPACE
    ensures Covered(g, PageCount(size), 0)
  {
    hide PageCount;
    CountedPages(size);
  }

  /** On memory not mapped before: exactly when the page offsets agree, the counted pages, taken from the
      start of the first page, reach the end of the range, and neither side runs out of address bits. */
  lemma FreshRangeCorrectIff(t: Tables, root: nat, g: nat, h: nat, size: nat, write: bool, execute: bool)
    requires Inv(t) && IsRoot(t, root) && Allowed(t, RangeOps(root, g, h, PageCount(size), write, execute))
    requires 0 < size && forall k: nat :: k < size ==> !ByteAt(t, root, g, h, k)
    ensures AsAsked(RangeMapped(t, root, g, h, PageCount(size), write, execute), root, g, h, size) <==>
            && g % 0x1000 == h % 0x1000 && g % 0x1000 + size <= PageCount(size) * 0x1000
            && g % 0x1000 + size <= 0x1_0000_0000_0000 && h + size <= 0x10_0000_0000_0000
  {
    hide ByteAt, RangeMapped, Allowed, Inv, IsRoot, PageCount, Covered, AsAsked;
    RangeCorrectIff(t, root, g, h, size, write, execute);
    LastPage(g, size, PageCount(size));
    assert !ByteAt(t, root, g, h, size - 1);
  }

  lemma LastPage(g: nat, size: nat, n: nat)
    requires size > 0
    ensures g % PAGE + size <= n * PAGE <==> Covered(g, n, size - 1)
    ensures Covered(g, n, size - 1) ==> forall k: nat :: k < size ==> Covered(g, n, k)
  {}

  /** The page-aligned case: every byte of the range translates to its counterpart. */
  lemma AlignedRange(t: Tables, root: nat, g: nat, h: nat, size: nat, write: bool, execute: bool, k: nat)
    requires Inv(t) && IsRoot(t, root) && Allowed(t, RangeOps(root, g, h, PageCount(size), write, execute))
    requires g % PAGE == 0 && h % PAGE == 0 && k < size <= GUEST_SPACE && h + size <= HOST_SPACE
    ensures ByteAt(RangeMapped(t, root, g, h, PageCount(size), write, execute), root, g, h, k)
  {
    hide ByteAt, RangeMapped, Allowed, Inv, IsRoot, PageCount;
    CountedPages(size);
    LastPage(g, size, PageCount(size));
    RangeByte(t, root, g, h, size, write, execute, k);
  }

  /** In the last page of 64-bit sizes the page count wraps to zero and the call maps nothing. */
  lemma HugeRangeIgnored(t: Tables, root: nat, g: nat, h: nat, size: nat, write: bool, execute: bool)
    requires Inv(t) && 0 < size < 0x1_0000_0000_0000_0000
    ensures PageCount(size) == 0 <==> size > 0xFFFF_FFFF_FFFF_F000
    ensures PageCount(size) == 0 ==> Allowed(t, RangeOps(root, g, h, PageCount(size), write, execute))
                                     && RangeMapped(t, root, g, h, PageCount(size), write, execute) == t
  {
    hide Inv;
    RunEmpty(t);
  }

  /** A new VM's root over empty memory. */
  ghost function NewVm(): Tables {
    AddRoot(Tables(map[], map[], [1, 2, 3, 4]))
  }

  lemma NewVmEmpty(x: nat)
    ensures Inv(NewVm()) && IsRoot(NewVm(), 1) && |NewVm().supply| == 3 && Translate(NewVm(), 1, x) == None
  {
    hide Path;
    var t := Tables(map[], map[], [1, 2, 3, 4]);
    assert t.supply[0] == 1 && t.supply[1] == 2 && t.supply[2] == 3 && t.supply[3] == 4;
    AddRootInv(t);
    WalkUnfold(NewVm().mem, 1, Path(x));
  }

  /** A call for one counted page on a new VM leaves byte k of the range not translated as asked. */
  ghost predicate FailsOnNewVm(g: nat, h: nat, size: nat, write: bool, execute: bool, k: nat) {
    && k < size && PageCount(size) == 1 && Inv(NewVm()) && Allowed(NewVm(), RangeOps(1, g, h, 1, write, execute))
    && !ByteAt(RangeMapped(NewVm(), 1, g, h, 1, write, execute), 1, g, h, k)
  }

  lemma FailingCall(g: nat, h: nat, size: nat, write: bool, execute: bool, k: nat)
    requires k < size <= PAGE && g < PAGE
    requires Covered(g, 1, k) ==> g % PAGE != h % PAGE || h + k >= HOST_SPACE
    ensures FailsOnNewVm(g, h, size, write, execute, k)
  {
    hide Allowed, RangeMapped, Translate, Inv, NewVm, RangeOps, Covered;
    NewVmEmpty(g + k);
    assert PageCount(size) == 1;
    RangeAllowed(NewVm(), 1, g, h, 1, write, execute);
    RangeByte(NewVm(), 1, g, h, size, write, execute, k);
  }

  /** Three failing calls: two bytes across a page end at 0xFFF, where one page is counted; one byte at 0
      asked for host address 1, where the offsets differ; and one byte asked for host address 2^52. */
  lemma RangeCounterexamples(write: bool, execute: bool)
    ensures FailsOnNewVm(0xFFF, 0xFFF, 2, write, execute, 1)
    ensures FailsOnNewVm(0, 1, 1, write, execute, 0)
    ensures FailsOnNewVm(0, 0x10_0000_0000_0000, 1, write, execute, 0)
  {
    hide FailsOnNewVm;
    FailingCall(0xFFF, 0xFFF, 2, write, execute, 1);
    FailingCall(0, 1, 1, write, execute, 0);
    FailingCall(0, HOST_SPACE, 1, write, execute, 0);
  }

  // ----- the operations on the mutable memory

  class PageTables {
    var mem: map<nat, Table>
    var supply: seq<nat>          // frames the page allocator returns next
    ghost var own: map<nat, Place>

    ghost function State(): Tables
      reads this
    {
      Tables(mem, own, supply)
    }

    ghost predicate Valid()
      reads this
    {
      Inv(State())
    }

    constructor (frames: seq<nat>)
      requires forall i :: 0 <= i < |frames| ==> 0 < frames[i] < FRAMES
      requires forall i, j :: 0 <= i < j < |frames| ==> frames[i] != frames[j]
      ensures Valid() && mem == map[] && supply == frames
    {
      mem, supply, own := map[], frames, map[];
    }

    /** ept_alloc_pages(1): the next frame, zeroed. */
    method AllocPage() returns (c: nat)
      requires FreshSupply(State()) && |supply| > 0
      modifies this`mem, this`supply
      ensures 0 < c < FRAMES && c !in old(mem) && c == old(supply[0])
      ensures c in mem && (forall i :: 0 <= i < SLOTS ==> mem[c][i] == EMPTY) && mem - {c} == old(mem)
      ensures FreshSupply(State()) && supply == old(supply[1..]) && mem == old(mem)[c := Zeroed()]
    {
      c := supply[0];
      supply := supply[1..];
      mem := mem[c := Zeroed()];
    }

    /** ept_alloc_root. */
    method AllocRoot() returns (r: nat)
      requires Valid() && |supply| > 0
      modifies this
      ensures Valid() && r == old(supply[0]) && State() == AddRoot(old(State())) && IsRoot(State(), r)
    {
      AddRootInv(State());
      r := AllocPage();
      own := own[r := Place(r, [])];
    }

    /** ept_clear_root. */
    method ClearRoot(root: nat)
      requires Valid() && (root != 0 ==> IsRoot(State(), root))
      modifies this
      ensures Valid()
      ensures State() == if root == 0 then old(State()) else Step(old(State()), Clear(root))
    {
      if root != 0 {
        ClearInv(State(), root);
        mem := mem[root := Zeroed()];
      }
    }

    /** ept_alloc_pdpt, ept_alloc_pd and ept_alloc_pt, guarded as ept_map guards them. */
    method EnsureTable(f: nat, i: nat) returns (child: nat)
      requires Valid() && f in own && i < SLOTS && CanLink(State(), f, i) && |own[f].path| < 3
      modifies this
      ensures (State(), child) == Descend(old(State()), f, i)
    {
      assert Slot(State(), f, i) && SlotOk(State(), f, i);
      if !mem[f][i].present && !mem[f][i].bigPage {
        ghost var place := Place(own[f].root, own[f].path + [i]);
        var c := AllocPage();
        mem := mem[f := mem[f][i := Upper(mem[f][i], c)]];
        own := own[c := place];
      }
      child := mem[f][i].frame;
    }

    /** The three guarded allocations of ept_map. */
    method EnsureTables(root: nat, gpa: nat) returns (pt: nat)
      requires Valid() && IsRoot(State(), root) && CanGrow(State(), root, gpa)
      modifies this
      ensures (State(), pt) == Grow(old(State()), root, gpa)
    {
      hide Descend, Inv, Missing, CanLink, Pml4Index, PdpIndex, PdIndex, PtIndex;
      ghost var p := Path(gpa);
      assert p[0] == Pml4Index(gpa) && p[1] == PdpIndex(gpa) && p[2] == PdIndex(gpa);
      DescendMissing(State(), root, Pml4Index(gpa), [PdpIndex(gpa)] + ([PdIndex(gpa)] + []));
      var pdpt := EnsureTable(root, Pml4Index(gpa));
      DescendMissing(State(), pdpt, PdpIndex(gpa), [PdIndex(gpa)] + []);
      var pd := EnsureTable(pdpt, PdpIndex(gpa));
      DescendMissing(State(), pd, PdIndex(gpa), []);
      pt := EnsureTable(pd, PdIndex(gpa));
    }

    method EptMap(root: nat, gpa: nat, pte: Entry) returns (status: Status)
      requires Valid() && (root != 0 ==> IsRoot(State(), root) && CanGrow(State(), root, gpa))
      modifies this
      ensures Valid()
      ensures root == 0 ==> status == InvalidParam && State() == old(State())
      ensures root != 0 ==> status == Ok && State() == MapEntry(old(State()), root, gpa, pte)
    {
      hide Grow, Walk, Missing, Leads, UpperPath;
      if root == 0 {
        return InvalidParam;
      }
      GrowCorrect(State(), root, gpa);
      MapEntryRefines(State(), root, gpa, pte, root, gpa);
      var pt := EnsureTables(root, gpa);
      mem := mem[pt := mem[pt][PtIndex(gpa) := pte]];
      status := Ok;
    }

    method EptLookup(root: nat, gpa: nat) returns (status: Status, pte: Entry)
      requires Valid() && (root != 0 ==> IsRoot(State(), root))
      ensures root == 0 ==> status == InvalidParam
      ensures root != 0 ==> (status == Ok || status == NotFound)
      ensures status == Ok ==> root != 0 && Lookup(State(), root, gpa) == Some(pte)
      ensures status == NotFound ==> Lookup(State(), root, gpa) == None
    {
      pte := EMPTY;
      if root == 0 {
        return InvalidParam, pte;
      }
      ghost var p := Path(gpa);
      ghost var t := State();
      assert Slot(t, root, p[0]) && SlotOk(t, root, p[0]);
      WalkUnfold(mem, root, p);
      if !mem[root][Pml4Index(gpa)].present {
        return NotFound, pte;
      }
      var pdpt := mem[root][Pml4Index(gpa)].frame;
      assert Slot(t, pdpt, p[1]) && SlotOk(t, pdpt, p[1]);
      WalkUnfold(mem, pdpt, p[1..]);
      if !mem[pdpt][PdpIndex(gpa)].present {
        return NotFound, pte;
      }
      var pd := mem[pdpt][PdpIndex(gpa)].frame;
      assert Slot(t, pd, p[2]) && SlotOk(t, pd, p[2]);
      WalkUnfold(mem, pd, p[1..][1..]);
      if !mem[pd][PdIndex(gpa)].present {
        return NotFound, pte;
      }
      if mem[pd][PdIndex(gpa)].bigPage {
        assert false;
      }
      var pt := mem[pd][PdIndex(gpa)].frame;
      WalkUnfold(mem, pt, p[1..][1..][1..]);
      if !mem[pt][PtIndex(gpa)].present {
        return NotFound, pte;
      }
      return Ok, mem[pt][PtIndex(gpa)];
    }

    method EptTranslate(root: nat, gpa: nat) returns (status: Status, hpa: nat)
      requires Valid() && (root != 0 ==> IsRoot(State(), root))
      ensures root == 0 ==> status == InvalidParam
      ensures root != 0 ==> (status == Ok || status == NotFound)
      ensures status == Ok ==> root != 0 && Translate(State(), root, gpa) == Some(hpa)
      ensures status == NotFound ==> Translate(State(), root, gpa) == None
    {
      hpa := 0;
      var pte;
      status, pte := EptLookup(root, gpa);
      if status == Ok {
        hpa := pte.frame * PAGE + gpa % PAGE;
      }
    }

    /** vm_gpa_to_hpa; None stands for INVALID_PHYS_ADDR. */
    method GpaToHpa(root: nat, gpa: nat) returns (hpa: Option<nat>)
      requires Valid() && (root != 0 ==> IsRoot(State(), root))
      ensures hpa == if root == 0 then None else Translate(State(), root, gpa)
    {
      if root == 0 {
        return None;
      }
      var status, pte := EptLookup(root, gpa);
      if status != Ok {
        return None;
      }
      hpa := Some(pte.frame * PAGE + gpa % PAGE);
    }

    method VmEptMap(root: nat, g: nat, h: nat, size: nat, write: bool, execute: bool) returns (status: Status)
      requires Valid()
      requires root != 0 ==> Allowed(State(), RangeOps(root, g, h, PageCount(size), write, execute))
      modifies this
      ensures Valid()
      ensures root == 0 ==> status == InvalidParam && State() == old(State())
      ensures root != 0 ==> status == Ok
                            && State() == RangeMapped(old(State()), root, g, h, PageCount(size), write, execute)
    {
      hide Inv, Run, Allowed, MapEntry, Leaf, IsRoot, PageCount, CanGrow;
      if root == 0 {
        return InvalidParam;
      }
      ghost var start := State();
      RunEmpty(start);
      var pages := PageCount(size);
      ghost var all := RangeOps(root, g, h, pages, write, execute);
      var i := 0;
      while i < pages
        invariant 0 <= i <= pages && Valid()
        invariant Allowed(start, RangeOps(root, g, h, i, write, execute))
        invariant State() == Run(start, RangeOps(root, g, h, i, write, execute))
      {
        ghost var ops := RangeOps(root, g, h, i, write, execute);
        var gpa := (g + i * PAGE) % U64;
        var pte := Leaf((h + i * PAGE) % U64, write, execute);
        RangeOpsTake(root, g, h, pages, write, execute, i);
        RangeOpsTake(root, g, h, pages, write, execute, i + 1);
        assert all[i] == all[..i + 1][i] == Map(root, gpa, pte);
        AllowedTake(start, all, i);
        RunSnoc(start, ops, Map(root, gpa, pte));
        RootNonzero(State(), root);
        status := EptMap(root, gpa, pte);
        i := i + 1;
      }
      status := Ok;
    }
  }

  lemma RootNonzero(t: Tables, root: nat)
    requires Inv(t) && IsRoot(t, root)
    ensures root != 0
  {}
}
