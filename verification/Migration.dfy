/** Live migration of src/hypervisor/migration/migration.c: the dirty bitmap, bounded pre-copy and
    stop-and-copy, with a version number for each page on either side. */
module Migration {

  // ----- the bitmap in 64-bit words

  function Mask(i: nat): bv64
    requires i < 64
  {
    (1 as bv64) << (i as bv7)
  }

  predicate Hit(w: bv64, m: bv64) { w & m != 0 }
  function With(w: bv64, m: bv64): bv64 { w | m }
  function Minus(w: bv64, m: bv64): bv64 { w & !m }

  predicate BitAt(ws: seq<bv64>, i: nat)
    requires i < 64 * |ws|
  {
    Hit(ws[i / 64], Mask(i % 64))
  }

  function SetAt(ws: seq<bv64>, i: nat): seq<bv64>
    requires i < 64 * |ws|
  {
    ws[i / 64 := With(ws[i / 64], Mask(i % 64))]
  }

  function ClearAt(ws: seq<bv64>, i: nat): seq<bv64>
    requires i < 64 * |ws|
  {
    ws[i / 64 := Minus(ws[i / 64], Mask(i % 64))]
  }

  lemma ShiftBack(i: nat)
    requires i < 64
    ensures (i as bv7) as int == i
  {}

  lemma ShiftBelow(a: bv7)
    requires a as int < 64
    ensures a < 64
  {}

  lemma ShiftsDisjoint(a: bv7, b: bv7)
    requires a < 64 && b < 64 && a != b
    ensures ((1 as bv64) << a) & ((1 as bv64) << b) == 0
  {}

  lemma ShiftNonzero(a: bv7)
    requires a < 64
    ensures (1 as bv64) << a != 0
  {}

  lemma MasksDisjoint(i: nat, j: nat)
    requires i < 64 && j < 64 && i != j
    ensures Mask(i) & Mask(j) == 0
  {
    ShiftBack(i);
    ShiftBack(j);
    ShiftBelow(i as bv7);
    ShiftBelow(j as bv7);
    ShiftsDisjoint(i as bv7, j as bv7);
  }

  lemma MaskNonzero(i: nat)
    requires i < 64
    ensures Mask(i) != 0
  {
    ShiftBack(i);
    ShiftBelow(i as bv7);
    ShiftNonzero(i as bv7);
  }

  lemma WithSame(w: bv64, m: bv64)
    requires m != 0
    ensures Hit(With(w, m), m)
  {}

  lemma WithOther(w: bv64, m: bv64, k: bv64)
    requires m & k == 0
    ensures Hit(With(w, m), k) == Hit(w, k)
  {}

  lemma MinusSame(w: bv64, m: bv64)
    ensures !Hit(Minus(w, m), m)
  {}

  lemma MinusOther(w: bv64, m: bv64, k: bv64)
    requires m & k == 0
    ensures Hit(Minus(w, m), k) == Hit(w, k)
  {}

  lemma HitMeans(w: bv64, a: bv7)
    requires a < 64
    ensures Hit(w, (1 as bv64) << a) <==> (w >> a) & 1 == 1
  {}

  /** Page i is bit i % 64 of word i / 64, counted from the low end. */
  lemma BitMeans(ws: seq<bv64>, i: nat)
    requires i < 64 * |ws|
    ensures BitAt(ws, i) <==> (ws[i / 64] >> ((i % 64) as bv7)) & 1 == 1
  {
    hide Hit;
    ShiftBack(i % 64);
    ShiftBelow((i % 64) as bv7);
    HitMeans(ws[i / 64], (i % 64) as bv7);
  }

  /** Setting or clearing one bit changes that bit only. */
  lemma SetBits(ws: seq<bv64>, i: nat, j: nat)
    requires i < 64 * |ws| && j < 64 * |ws|
    ensures BitAt(SetAt(ws, i), j) <==> j == i || BitAt(ws, j)
  {
    hide Mask, Hit, With;
    var w, m := ws[i / 64], Mask(i % 64);
    if j == i {
      MaskNonzero(i % 64);
      WithSame(w, m);
    } else if j / 64 == i / 64 {
      MasksDisjoint(i % 64, j % 64);
      WithOther(w, m, Mask(j % 64));
    }
  }

  lemma ClearBits(ws: seq<bv64>, i: nat, j: nat)
    requires i < 64 * |ws| && j < 64 * |ws|
    ensures BitAt(ClearAt(ws, i), j) <==> j != i && BitAt(ws, j)
  {
    hide Mask, Hit, Minus;
    var w, m := ws[i / 64], Mask(i % 64);
    if j == i {
      MinusSame(w, m);
    } else if j / 64 == i / 64 {
      MasksDisjoint(i % 64, j % 64);
      MinusOther(w, m, Mask(j % 64));
    }
  }

  /** The bitmap read as one flag a page. */
  function Flags(ws: seq<bv64>, n: nat): (d: seq<bool>)
    requires n <= 64 * |ws|
    ensures |d| == n
  {
    seq(n, i requires 0 <= i < n => BitAt(ws, i))
  }

  lemma SetFlag(ws: seq<bv64>, n: nat, i: nat)
    requires i < n <= 64 * |ws|
    ensures Flags(SetAt(ws, i), n) == Flags(ws, n)[i := true]
  {
    hide Mask, Hit, With;
    forall j | 0 <= j < n ensures Flags(SetAt(ws, i), n)[j] == Flags(ws, n)[i := true][j] {
      SetBits(ws, i, j);
    }
  }

  lemma ClearFlag(ws: seq<bv64>, n: nat, i: nat)
    requires i < n <= 64 * |ws|
    ensures Flags(ClearAt(ws, i), n) == Flags(ws, n)[i := false]
  {
    hide Mask, Hit, Minus;
    forall j | 0 <= j < n ensures Flags(ClearAt(ws, i), n)[j] == Flags(ws, n)[i := false][j] {
      ClearBits(ws, i, j);
    }
  }

  // ----- the session as a value

  datatype Phase = Initiated | Precopy | StopAndCopy | Transfer

  const ROUND_PAGES: nat := 10000
  const CONVERGED: nat := 100

  /** The counters and flags of a session; source and dest are the page versions on either side and
      flips counts clean-to-dirty transitions (neither is kept by the C code). */
  datatype Session = Session(dirty: seq<bool>, dirtyCount: int, transferred: nat, iteration: nat, phase: Phase,
                             limit: nat, source: seq<nat>, dest: seq<nat>, flips: nat)

  function Marked(dirty: seq<bool>): nat {
    if dirty == [] then 0 else (if dirty[0] then 1 else 0) + Marked(dirty[1..])
  }

  lemma {:induction false} MarkedUpdate(dirty: seq<bool>, i: nat, b: bool)
    requires i < |dirty|
    ensures Marked(dirty[i := b]) == Marked(dirty) - (if dirty[i] then 1 else 0) + (if b then 1 else 0)
  {
    if i == 0 {
      assert dirty[i := b][1..] == dirty[1..];
    } else {
      MarkedUpdate(dirty[1..], i - 1, b);
      assert dirty[i := b][1..] == dirty[1..][i - 1 := b];
    }
  }

  lemma {:induction false} MarkedAll(n: nat)
    ensures Marked(seq(n, i => true)) == n
  {
    if n > 0 {
      MarkedAll(n - 1);
      assert seq(n, i => true)[1..] == seq(n - 1, i => true);
    }
  }

  lemma {:induction false} MarkedBound(dirty: seq<bool>)
    ensures 0 <= Marked(dirty) <= |dirty|
    ensures Marked(dirty) == 0 ==> forall i :: 0 <= i < |dirty| ==> !dirty[i]
  {
    if dirty != [] {
      MarkedBound(dirty[1..]);
      assert forall i :: 1 <= i < |dirty| ==> dirty[i] == dirty[1..][i - 1];
    }
  }

  /** A page that differs on the two sides is marked dirty; the cached count and the transfer
      counter agree with the bitmap and the history. */
  ghost predicate Inv(s: Session) {
    && |s.source| == |s.dest| == |s.dirty|
    && s.dirtyCount == Marked(s.dirty)
    && (forall p :: 0 <= p < |s.dirty| && s.dest[p] != s.source[p] ==> s.dirty[p])
    && s.transferred + s.dirtyCount == |s.dirty| + s.flips
  }

  /** migration_start: every page dirty, whatever the destination holds. */
  ghost function Begin(source: seq<nat>, dest: seq<nat>, limit: nat): Session
    requires |source| == |dest|
  {
    Session(seq(|source|, i => true), |source|, 0, 0, Initiated, limit, source, dest, 0)
  }

  lemma BeginInv(source: seq<nat>, dest: seq<nat>, limit: nat)
    requires |source| == |dest|
    ensures Inv(Begin(source, dest, limit))
  {
    MarkedAll(|source|);
  }

  /** Copy one page: clear its bit, count it, and bring the destination up to date. */
  function CopyPage(s: Session, i: nat): Session
    requires i < |s.dirty| == |s.source| == |s.dest|
  {
    s.(dirty := s.dirty[i := false], transferred := s.transferred + 1, dirtyCount := s.dirtyCount - 1,
       dest := s.dest[i := s.source[i]])
  }

  /** The pre-copy loop from page i on, with copied pages already taken this round. */
  function CopyFrom(s: Session, i: nat, copied: nat): Session
    requires |s.source| == |s.dest| == |s.dirty|
    decreases |s.dirty| - i
  {
    if i >= |s.dirty| || copied >= ROUND_PAGES then s
    else if s.dirty[i] then CopyFrom(CopyPage(s, i), i + 1, copied + 1)
    else CopyFrom(s, i + 1, copied)
  }

  /** migration_precopy. */
  function PrecopyRound(s: Session): Session
    requires |s.source| == |s.dest| == |s.dirty|
  {
    var c := CopyFrom(s.(phase := Precopy), 0, 0);
    c.(iteration := c.iteration + 1,
       phase := if c.dirtyCount < CONVERGED || c.iteration + 1 > c.limit then StopAndCopy else Precopy)
  }

  /** A guest write to page p, and migration_track_dirty_page for it. */
  function Write(s: Session, p: nat): Session
    requires |s.source| == |s.dest| == |s.dirty|
  {
    if p >= |s.dirty| then s
    else
      var w := s.(source := s.source[p := s.source[p] + 1]);
      if s.dirty[p] then w
      else w.(dirty := s.dirty[p := true], dirtyCount := s.dirtyCount + 1, flips := s.flips + 1)
  }

  /** The stop-and-copy loop from page i on: every dirty page is copied and counted, no bit cleared. */
  function FlushFrom(s: Session, i: nat): Session
    requires |s.source| == |s.dest| == |s.dirty|
    decreases |s.dirty| - i
  {
    if i >= |s.dirty| then s
    else if s.dirty[i] then
      FlushFrom(s.(transferred := s.transferred + 1, dest := s.dest[i := s.source[i]]), i + 1)
    else FlushFrom(s, i + 1)
  }

  /** migration_stop_and_copy; sent is the result of sending the final VM state. */
  function Flush(s: Session, sent: bool): Session
    requires |s.source| == |s.dest| == |s.dirty|
  {
    var f := FlushFrom(s.(phase := StopAndCopy), 0);
    if sent then f.(phase := Transfer) else f
  }

  // ----- what the loops do

  lemma CopyPageInv(s: Session, i: nat)
    requires Inv(s) && i < |s.dirty| && s.dirty[i]
    ensures Inv(CopyPage(s, i))
  {
    MarkedUpdate(s.dirty, i, false);
    MarkedBound(s.dirty[i := false]);
  }

  /** A round copies the dirty pages in order until ten thousand are done, and keeps the invariant. */
  lemma {:induction false} CopyFromEffect(s: Session, i: nat, copied: nat)
    requires Inv(s) && i <= |s.dirty| && copied <= ROUND_PAGES && forall p :: 0 <= p < i ==> !s.dirty[p]
    ensures var c := CopyFrom(s, i, copied);
            Inv(c)
            && c == s.(dirty := c.dirty, transferred := c.transferred, dirtyCount := c.dirtyCount, dest := c.dest)
            && |c.dirty| == |s.dirty|
            && c.dirtyCount == (if s.dirtyCount <= ROUND_PAGES - copied then 0
                                else s.dirtyCount - (ROUND_PAGES - copied))
            && (forall p :: 0 <= p < |s.dirty| ==>
                  if s.dirty[p] && !c.dirty[p] then c.dest[p] == s.source[p]
                  else c.dest[p] == s.dest[p] && c.dirty[p] == s.dirty[p])
            && (forall p, q :: 0 <= p < q < |s.dirty| && c.dirty[p] ==> c.dirty[q] == s.dirty[q])
    decreases |s.dirty| - i
  {
    if i == |s.dirty| {
      MarkedNone(s.dirty);
    } else if copied < ROUND_PAGES {
      if s.dirty[i] {
        CopyPageInv(s, i);
        CopyFromEffect(CopyPage(s, i), i + 1, copied + 1);
      } else {
        CopyFromEffect(s, i + 1, copied);
      }
    } else {
      MarkedBound(s.dirty);
    }
  }

  lemma {:induction false} MarkedNone(dirty: seq<bool>)
    requires forall p :: 0 <= p < |dirty| ==> !dirty[p]
    ensures Marked(dirty) == 0
  {
    if dirty != [] { MarkedNone(dirty[1..]); }
  }

  lemma WriteInv(s: Session, p: nat)
    requires Inv(s)
    ensures Inv(Write(s, p)) && Write(s, p).dirtyCount <= s.dirtyCount + 1
  {
    if p < |s.dirty| { MarkedUpdate(s.dirty, p, true); }
  }

  lemma PrecopyInv(s: Session)
    requires Inv(s)
    ensures Inv(PrecopyRound(s))
    ensures PrecopyRound(s).dirtyCount == (if s.dirtyCount <= ROUND_PAGES then 0 else s.dirtyCount - ROUND_PAGES)
    ensures PrecopyRound(s).phase == StopAndCopy
            <==> PrecopyRound(s).dirtyCount < CONVERGED || PrecopyRound(s).iteration > PrecopyRound(s).limit
  {
    CopyFromEffect(s.(phase := Precopy), 0, 0);
  }

  lemma {:induction false} FlushFromEffect(s: Session, i: nat)
    requires |s.source| == |s.dest| == |s.dirty| && i <= |s.dirty|
    ensures var f := FlushFrom(s, i);
            f == s.(transferred := s.transferred + Marked(s.dirty[i..]), dest := f.dest)
            && |f.dest| == |s.dest|
            && (forall p :: 0 <= p < |s.dirty| ==> f.dest[p] == if p >= i && s.dirty[p] then s.source[p] else s.dest[p])
    decreases |s.dirty| - i
  {
    if i < |s.dirty| {
      assert s.dirty[i..][1..] == s.dirty[i + 1..];
      if s.dirty[i] {
        FlushFromEffect(s.(transferred := s.transferred + 1, dest := s.dest[i := s.source[i]]), i + 1);
      } else {
        FlushFromEffect(s, i + 1);
      }
    }
  }

  /** After stop-and-copy no page differs, and the pages sent are the original ones plus one for
      every time a clean page became dirty. */
  lemma FlushAgrees(s: Session, sent: bool)
    requires Inv(s)
    ensures var f := Flush(s, sent);
            f.dest == f.source == s.source && f.transferred == |s.dirty| + s.flips && f.dirty == s.dirty
            && f.phase == (if sent then Transfer else StopAndCopy)
  {
    var t := s.(phase := StopAndCopy);
    FlushFromEffect(t, 0);
    assert t.dirty[0..] == t.dirty;
    var f := FlushFrom(t, 0);
    assert forall p :: 0 <= p < |t.dirty| ==> f.dest[p] == t.source[p];
  }

  // ----- stop-and-copy with the guest still running

  /** The loop at page pos. The code asks for the guest to be paused, but a MIGRATING guest is not. */
  datatype Flushing = Flushing(session: Session, pos: nat)

  /** One iteration of the loop, or a tracked guest write. */
  datatype FlushEvent = Pass | Touch(page: nat)

  function FlushStep(f: Flushing, e: FlushEvent): Flushing
    requires |f.session.source| == |f.session.dest| == |f.session.dirty|
  {
    var s := f.session;
    match e
    case Touch(p) => f.(session := Write(s, p))
    case Pass =>
      if f.pos >= |s.dirty| then f
      else if s.dirty[f.pos] then
        Flushing(s.(transferred := s.transferred + 1, dest := s.dest[f.pos := s.source[f.pos]]), f.pos + 1)
      else f.(pos := f.pos + 1)
  }

  /** Page p is written at a moment when the loop has passed it. */
  predicate Late(pos: nat, n: nat, es: seq<FlushEvent>, p: nat)
    decreases |es|
  {
    es != [] &&
    match es[0]
    case Pass => Late(if pos < n then pos + 1 else pos, n, es[1..], p)
    case Touch(q) => (q == p && p < pos) || Late(pos, n, es[1..], p)
  }

  /** Pages that differ are marked, and on pages passed the destination is not newer. */
  ghost predicate FlushInv(f: Flushing) {
    var s := f.session;
    && |s.source| == |s.dest| == |s.dirty| && f.pos <= |s.dirty|
    && (forall p :: 0 <= p < |s.dirty| && s.dest[p] != s.source[p] ==> s.dirty[p])
    && (forall p :: 0 <= p < f.pos ==> s.dest[p] <= s.source[p])
  }

  ghost predicate Differs(s: Session, p: nat)
    requires |s.source| == |s.dest|
  {
    p < |s.source| && s.dest[p] != s.source[p]
  }

  lemma FlushStepDiffers(f: Flushing, e: FlushEvent, p: nat)
    requires FlushInv(f) && p < FlushStep(f, e).pos
    ensures |FlushStep(f, e).session.source| == |FlushStep(f, e).session.dest|
    ensures Differs(FlushStep(f, e).session, p) <==> p < f.pos && (Differs(f.session, p) || e == Touch(p))
  {}

  ghost function FlushRun(f: Flushing, es: seq<FlushEvent>): (r: Flushing)
    requires FlushInv(f)
    ensures FlushInv(r) && |r.session.dirty| == |f.session.dirty| && r.pos >= f.pos
    decreases |es|
  {
    if es == [] then f
    else
      FlushKeeps(f, es[0]);
      FlushRun(FlushStep(f, es[0]), es[1..])
  }

  lemma FlushKeeps(f: Flushing, e: FlushEvent)
    requires FlushInv(f)
    ensures FlushInv(FlushStep(f, e)) && |FlushStep(f, e).session.dirty| == |f.session.dirty|
    ensures FlushStep(f, e).pos == if e.Pass? && f.pos < |f.session.dirty| then f.pos + 1 else f.pos
  {}

  lemma FlushShape(f: Flushing)
    requires FlushInv(f)
    ensures |f.session.source| == |f.session.dest| == |f.session.dirty|
  {}

  lemma {:induction false} FlushRunDiffers(f: Flushing, es: seq<FlushEvent>, p: nat)
    requires FlushInv(f) && p < FlushRun(f, es).pos
    ensures Differs(FlushRun(f, es).session, p) <==>
            (p < f.pos && Differs(f.session, p)) || Late(f.pos, |f.session.dirty|, es, p)
    decreases |es|
  {
    hide FlushStep, FlushInv, Differs;
    FlushShape(f);
    if es != [] {
      FlushKeeps(f, es[0]);
      var f' := FlushStep(f, es[0]);
      FlushShape(f');
      FlushRunDiffers(f', es[1..], p);
      if p < f'.pos { FlushStepDiffers(f, es[0], p); }
    }
  }

  /** Stop-and-copy interleaved in any way with tracked writes of a guest that goes on running: when the
      loop is done a page differs exactly if it was written after the loop had passed it, and every
      such page is marked. */
  lemma FlushRace(s: Session, es: seq<FlushEvent>, p: nat)
    requires Inv(s) && p < |s.dirty|
    ensures FlushInv(Flushing(s, 0))
    ensures var r := FlushRun(Flushing(s, 0), es);
            r.pos == |s.dirty| ==>
              (Differs(r.session, p) <==> Late(0, |s.dirty|, es, p)) && (Differs(r.session, p) ==> r.session.dirty[p])
  {
    hide FlushRun;
    var r := FlushRun(Flushing(s, 0), es);
    if r.pos == |s.dirty| { FlushRunDiffers(Flushing(s, 0), es, p); }
  }

  /** One page, copied and then written: the destination keeps the old version. */
  lemma LateWriteLost(s: Session)
    requires Inv(s) && |s.dirty| == 1
    ensures FlushInv(Flushing(s, 0))
    ensures var r := FlushRun(Flushing(s, 0), [Pass, Touch(0)]); r.pos == 1 && Differs(r.session, 0)
  {
    var es := [Pass, Touch(0)];
    assert es[1..] == [Touch(0)] && es[1..][1..] == [];
    assert Late(1, 1, es[1..], 0);
    FlushKeeps(Flushing(s, 0), Pass);
    FlushKeeps(FlushStep(Flushing(s, 0), Pass), Touch(0));
    assert FlushRun(FlushStep(Flushing(s, 0), Pass), es[1..]).pos == 1;
    FlushRace(s, es, 0);
  }

  /** Without writes in between this is the loop of stop-and-copy. */
  lemma {:induction false} PassesFlush(f: Flushing, n: nat)
    requires FlushInv(f) && n == |f.session.dirty| - f.pos
    ensures FlushRun(f, seq(n, _ => Pass)) == Flushing(FlushFrom(f.session, f.pos), |f.session.dirty|)
    decreases n
  {
    if n > 0 {
      assert seq(n, _ => Pass)[1..] == seq(n - 1, _ => Pass) && seq(n, _ => Pass)[0] == Pass;
      FlushKeeps(f, Pass);
      PassesFlush(FlushStep(f, Pass), n - 1);
    }
  }

  // ----- whole runs

  datatype Op = Round | GuestWrite(page: nat)

  function Apply(s: Session, op: Op): Session
    requires |s.source| == |s.dest| == |s.dirty|
  {
    match op
    case Round => PrecopyRound(s)
    case GuestWrite(p) => Write(s, p)
  }

  ghost function Run(s: Session, ops: seq<Op>): (r: Session)
    requires Inv(s)
    ensures Inv(r) && |r.dirty| == |s.dirty|
    decreases |ops|
  {
    if ops == [] then s
    else
      var r := Run(s, ops[..|ops| - 1]);
      ApplyInv(r, ops[|ops| - 1]);
      Apply(r, ops[|ops| - 1])
  }

  lemma ApplyInv(s: Session, op: Op)
    requires Inv(s)
    ensures Inv(Apply(s, op)) && |Apply(s, op).dirty| == |s.dirty| && Apply(s, op).limit == s.limit
  {
    match op
    case Round => PrecopyInv(s); CopyFromEffect(s.(phase := Precopy), 0, 0);
    case GuestWrite(p) => WriteInv(s, p);
  }

  /** No lost page: after any run of rounds and tracked writes every page that differs is marked, the
      counters agree with the bitmap, and stop-and-copy brings all pages into agreement. */
  lemma NoLostPage(source: seq<nat>, dest: seq<nat>, limit: nat, ops: seq<Op>, sent: bool)
    requires |source| == |dest|
    ensures var r := (BeginInv(source, dest, limit); Run(Begin(source, dest, limit), ops));
            (forall p :: 0 <= p < |source| && r.dest[p] != r.source[p] ==> r.dirty[p])
            && r.dirtyCount == Marked(r.dirty)
            && r.transferred + r.dirtyCount == |source| + r.flips
            && Flush(r, sent).dest == r.source
            && Flush(r, sent).transferred == |source| + r.flips
  {
    BeginInv(source, dest, limit);
    FlushAgrees(Run(Begin(source, dest, limit), ops), sent);
  }

  function RoundsIn(ops: seq<Op>): nat {
    if ops == [] then 0 else RoundsIn(ops[..|ops| - 1]) + if ops[|ops| - 1].Round? then 1 else 0
  }

  /** Pre-copy is bounded: whatever the guest dirties, the session is in stop-and-copy after
      max_convergence_iterations + 1 rounds. */
  lemma {:induction false} PrecopyBounded(s: Session, ops: seq<Op>)
    requires Inv(s)
    ensures Run(s, ops).limit == s.limit && Run(s, ops).iteration == s.iteration + RoundsIn(ops)
    ensures RoundsIn(ops) > 0 && s.iteration + RoundsIn(ops) > s.limit ==> Run(s, ops).phase == StopAndCopy
    decreases |ops|
  {
    if ops != [] {
      var n := |ops| - 1;
      PrecopyBounded(s, ops[..n]);
      var r := Run(s, ops[..n]);
      ApplyInv(r, ops[n]);
      CopyFromEffect(r.(phase := Precopy), 0, 0);
    }
  }

  // ----- a session from its start, in the numbers of the code

  /** What migration_start leaves behind. */
  lemma BeginMeans(source: seq<nat>, dest: seq<nat>, limit: nat)
    requires |source| == |dest|
    ensures var s := Begin(source, dest, limit);
            && s.iteration == 0 && s.transferred == 0 && s.phase == Initiated && s.limit == limit && s.flips == 0
            && s.dirtyCount == |source| == |s.dirty| && (forall p :: 0 <= p < |s.dirty| ==> s.dirty[p])
            && s.source == source && s.dest == dest
  {}

  /** A round after any run from the start: up to 10000 pages are copied, the round is counted, and the
      session goes on to stop-and-copy exactly if fewer than 100 pages are left or the rounds have
      passed the limit; otherwise it stays in pre-copy. */
  lemma PrecopyFromStart(source: seq<nat>, dest: seq<nat>, limit: nat, ops: seq<Op>)
    requires |source| == |dest|
    ensures var b := (BeginInv(source, dest, limit); Run(Begin(source, dest, limit), ops));
            var r := (BeginInv(source, dest, limit); Run(Begin(source, dest, limit), ops + [Round]));
            var copied := if b.dirtyCount <= 10000 then b.dirtyCount else 10000;
            && b.iteration == RoundsIn(ops) && r.iteration == RoundsIn(ops) + 1 && r.limit == limit
            && r.dirtyCount == b.dirtyCount - copied && r.transferred == b.transferred + copied
            && r.phase == (if r.dirtyCount < 100 || RoundsIn(ops) + 1 > limit then StopAndCopy else Precopy)
  {
    BeginInv(source, dest, limit);
    var s := Begin(source, dest, limit);
    PrecopyBounded(s, ops);
    assert (ops + [Round])[..|ops|] == ops;
    var b := Run(s, ops);
    PrecopyInv(b);
    CopyFromEffect(b.(phase := Precopy), 0, 0);
  }

  function Rounds(k: nat): seq<Op> { seq(k, _ => Round) }

  lemma {:induction false} RoundsCount(k: nat)
    ensures RoundsIn(Rounds(k)) == k
  {
    if k > 0 {
      assert Rounds(k)[..k - 1] == Rounds(k - 1);
      RoundsCount(k - 1);
    }
  }

  /** A guest that writes nothing: after k rounds 10000 k pages are over, and the phase says whether that
      was enough or the limit is passed. */
  lemma {:induction false} SilentRounds(source: seq<nat>, dest: seq<nat>, limit: nat, k: nat)
    requires |source| == |dest|
    ensures var r := (BeginInv(source, dest, limit); Run(Begin(source, dest, limit), Rounds(k)));
            && r.iteration == k
            && r.dirtyCount == (if |source| <= 10000 * k then 0 else |source| - 10000 * k)
            && r.phase == (if k == 0 then Initiated
                           else if r.dirtyCount < 100 || k > limit then StopAndCopy else Precopy)
    decreases k
  {
    BeginInv(source, dest, limit);
    if k > 0 {
      SilentRounds(source, dest, limit, k - 1);
      RoundsCount(k - 1);
      assert Rounds(k) == Rounds(k - 1) + [Round];
      PrecopyFromStart(source, dest, limit, Rounds(k - 1));
    }
  }

  ghost function WriteAll(s: Session, pages: seq<nat>): (r: Session)
    requires Inv(s)
    ensures Inv(r) && |r.dirty| == |s.dirty| && r.dirtyCount <= s.dirtyCount + |pages|
    decreases |pages|
  {
    if pages == [] then s
    else
      WriteInv(s, pages[0]);
      WriteAll(Write(s, pages[0]), pages[1..])
  }

  /** Rounds of pre-copy, each after a batch of guest writes. */
  ghost function Batches(s: Session, batches: seq<seq<nat>>): (r: Session)
    requires Inv(s)
    ensures Inv(r) && |r.dirty| == |s.dirty|
    decreases |batches|
  {
    if batches == [] then s
    else
      var w := WriteAll(Batches(s, batches[..|batches| - 1]), batches[|batches| - 1]);
      ApplyInv(w, Round);
      PrecopyRound(w)
  }

  lemma CountNonnegative(s: Session)
    requires Inv(s)
    ensures s.dirtyCount >= 0
  {}

  lemma GainStep(start: int, before: int, k: nat, m: nat, rate: nat)
    requires m == ROUND_PAGES - rate > 0 && start >= 0
    requires before <= if start <= k * m then 0 else start - k * m
    ensures var gain := (k + 1) * m;
            var after := if before + rate <= ROUND_PAGES then 0 else before + rate - ROUND_PAGES;
            after <= if start <= gain then 0 else start - gain
  {
    assert (k + 1) * m == k * m + m;
  }

  /** A guest that dirties at most rate < 10000 pages between rounds converges: each round gains
      10000 - rate pages, and once total / (10000 - rate) rounds are done fewer than 100 are left. */
  lemma {:induction false} PrecopyConverges(s: Session, batches: seq<seq<nat>>, rate: nat)
    requires Inv(s) && rate < ROUND_PAGES && forall i :: 0 <= i < |batches| ==> |batches[i]| <= rate
    ensures var gain := |batches| * (ROUND_PAGES - rate);
            var r := Batches(s, batches);
            r.dirtyCount <= (if s.dirtyCount <= gain then 0 else s.dirtyCount - gain)
            && (batches != [] && s.dirtyCount < gain + CONVERGED ==> r.phase == StopAndCopy && r.dirtyCount < CONVERGED)
    decreases |batches|
  {
    hide PrecopyRound, WriteAll, Inv;
    CountNonnegative(s);
    if batches != [] {
      var n := |batches| - 1;
      PrecopyConverges(s, batches[..n], rate);
      var b := Batches(s, batches[..n]);
      var w := WriteAll(b, batches[n]);
      PrecopyInv(w);
      GainStep(s.dirtyCount, b.dirtyCount, n, ROUND_PAGES - rate, rate);
    }
  }

  // ----- the session on the mutable bitmap

  class MigrationSession {
    const totalPages: nat
    const maxIterations: nat
    const words: array<bv64>
    var dirtyPageCount: int
    var transferredPages: nat
    var iteration: nat
    var phase: Phase
    ghost var source: seq<nat>
    ghost var dest: seq<nat>
    ghost var flips: nat

    ghost predicate Shape()
      reads this, words
    {
      && totalPages <= 64 * words.Length
      && |source| == |dest| == totalPages
      && (forall i :: totalPages <= i < 64 * words.Length ==> !BitAt(words[..], i))
    }

    ghost function State(): Session
      requires totalPages <= 64 * words.Length
      reads this, words
    {
      Session(Flags(words[..], totalPages), dirtyPageCount, transferredPages, iteration, phase, maxIterations,
              source, dest, flips)
    }

    ghost predicate Valid()
      reads this, words
    {
      Shape() && Inv(State())
    }

    /** migration_track_dirty_page, after the guest wrote the page. */
    method TrackDirtyPage(pageFrame: nat)
      requires Shape()
      modifies this, words
      ensures Shape() && State() == Write(old(State()), pageFrame)
    {
      hide Flags, BitAt, Hit, Mask, With;
      if pageFrame >= totalPages {
        return;
      }
      source := source[pageFrame := source[pageFrame] + 1];
      ghost var ws := words[..];
      FlagAt(ws, totalPages, pageFrame);
      if !Hit(words[pageFrame / 64], Mask(pageFrame % 64)) {
        SetFlag(ws, totalPages, pageFrame);
        forall j | totalPages <= j < 64 * words.Length ensures !BitAt(SetAt(ws, pageFrame), j) {
          SetBits(ws, pageFrame, j);
        }
        words[pageFrame / 64] := With(words[pageFrame / 64], Mask(pageFrame % 64));
        assert words[..] == SetAt(ws, pageFrame);
        dirtyPageCount := dirtyPageCount + 1;
        flips := flips + 1;
      }
    }

    constructor (memoryPages: nat, maxConvergenceIterations: nat, ghost src: seq<nat>, ghost dst: seq<nat>)
      requires |src| == |dst| == memoryPages
      ensures totalPages == memoryPages && Valid() && State() == Begin(src, dst, maxConvergenceIterations)
      ensures iteration == 0 && transferredPages == 0 && phase == Initiated && maxIterations == maxConvergenceIterations
      ensures dirtyPageCount == memoryPages && source == src && dest == dst
      ensures words.Length == (memoryPages + 63) / 64
      ensures fresh(words)
    {
      totalPages, maxIterations := memoryPages, maxConvergenceIterations;
      words := new bv64[(memoryPages + 63) / 64](i => 0);
      dirtyPageCount, transferredPages, iteration, phase := memoryPages, 0, 0, Initiated;
      source, dest, flips := src, dst, 0;
      new;
      ZeroWords(words[..]);
      var i := 0;
      while i < totalPages
        invariant 0 <= i <= totalPages && words.Length == (totalPages + 63) / 64
        invariant dirtyPageCount == memoryPages && transferredPages == 0 && iteration == 0 && phase == Initiated
        invariant source == src && dest == dst && flips == 0
        invariant forall j :: 0 <= j < 64 * words.Length ==> (BitAt(words[..], j) <==> j < i)
      {
        ghost var ws := words[..];
        forall j | 0 <= j < 64 * words.Length ensures BitAt(SetAt(ws, i), j) <==> j < i + 1 {
          SetBits(ws, i, j);
        }
        words[i / 64] := With(words[i / 64], Mask(i % 64));
        assert words[..] == SetAt(ws, i);
        i := i + 1;
      }
      assert Flags(words[..], totalPages) == seq(totalPages, i => true);
      BeginInv(src, dst, maxConvergenceIterations);
    }

    /** The copying loop of migration_precopy. */
    method CopyDirtyPages()
      requires Shape()
      modifies this`transferredPages, this`dirtyPageCount, this`dest, words
      ensures Shape() && State() == CopyFrom(old(State()), 0, 0)
    {
      hide Hit, Mask, Minus, Flags, BitAt;
      ghost var start := State();
      var pagesThisIteration := 0;
      var i := 0;
      while i < totalPages && pagesThisIteration < 10000
        invariant 0 <= i <= totalPages && 0 <= pagesThisIteration <= 10000 && Shape()
        invariant CopyFrom(State(), i, pagesThisIteration) == CopyFrom(start, 0, 0)
      {
        ghost var ws := words[..];
        FlagAt(ws, totalPages, i);
        ghost var before := State();
        if Hit(words[i / 64], Mask(i % 64)) {
          ClearPage(ws, i);
          pagesThisIteration := pagesThisIteration + 1;
          words[i / 64] := Minus(words[i / 64], Mask(i % 64));
          assert words[..] == ClearAt(ws, i);
          dest := dest[i := source[i]];
          transferredPages := transferredPages + 1;
          dirtyPageCount := dirtyPageCount - 1;
          assert State() == CopyPage(before, i);
        }
        i := i + 1;
      }
    }

    method PrecopyPhase()
      requires Shape()
      modifies this, words
      ensures Shape() && State() == PrecopyRound(old(State()))
    {
      hide Flags, BitAt, CopyFrom;
      phase := Precopy;
      assert State() == old(State()).(phase := Precopy);
      CopyDirtyPages();
      iteration := iteration + 1;
      if dirtyPageCount < 100 || iteration > maxIterations {
        phase := StopAndCopy;
      }
    }

    lemma ClearPage(ws: seq<bv64>, i: nat)
      requires i < totalPages <= 64 * |ws|
      requires forall j :: totalPages <= j < 64 * |ws| ==> !BitAt(ws, j)
      ensures Flags(ClearAt(ws, i), totalPages) == Flags(ws, totalPages)[i := false]
      ensures forall j :: totalPages <= j < 64 * |ws| ==> !BitAt(ClearAt(ws, i), j)
    {
      hide Hit, Mask, Minus;
      ClearFlag(ws, totalPages, i);
      forall j | totalPages <= j < 64 * |ws| ensures !BitAt(ClearAt(ws, i), j) {
        ClearBits(ws, i, j);
      }
    }

    /** The copying loop of migration_stop_and_copy. */
    method FlushDirtyPages()
      requires Shape()
      modifies this`transferredPages, this`dest
      ensures Shape() && State() == FlushFrom(old(State()), 0)
    {
      hide Hit, Mask, Flags, BitAt;
      ghost var start := State();
      var i := 0;
      while i < totalPages
        invariant 0 <= i <= totalPages && Shape()
        invariant FlushFrom(State(), i) == FlushFrom(start, 0)
      {
        FlagAt(words[..], totalPages, i);
        if Hit(words[i / 64], Mask(i % 64)) {
          dest := dest[i := source[i]];
          transferredPages := transferredPages + 1;
        }
        i := i + 1;
      }
    }

    /** sent is the result of migration_send_vm_state. */
    method StopAndCopyPhase(sent: bool) returns (ok: bool)
      requires Shape()
      modifies this
      ensures Shape() && State() == Flush(old(State()), sent) && ok == sent
    {
      hide Flags, BitAt, FlushFrom;
      phase := StopAndCopy;
      assert State() == old(State()).(phase := StopAndCopy);
      FlushDirtyPages();
      if !sent {
        return false;
      }
      phase := Transfer;
      return true;
    }
  }

  lemma FlagAt(ws: seq<bv64>, n: nat, i: nat)
    requires i < n <= 64 * |ws|
    ensures Flags(ws, n)[i] == Hit(ws[i / 64], Mask(i % 64))
  {}

  lemma ZeroWords(ws: seq<bv64>)
    requires forall i :: 0 <= i < |ws| ==> ws[i] == 0
    ensures forall j :: 0 <= j < 64 * |ws| ==> !BitAt(ws, j)
  {
    hide Mask, Hit;
    forall j | 0 <= j < 64 * |ws| ensures !BitAt(ws, j) {
      NoHit(Mask(j % 64));
    }
  }

  lemma NoHit(m: bv64)
    ensures !Hit(0, m)
  {}
}
