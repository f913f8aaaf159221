/**
 The memory system: page tables that several processes register, the marks of the rasterizer
 cache, and the access paths. The GPU is abstract: it lays dirty bytes over marked pages.
 */
module MemorySystems {
  import opened Common
  import opened MemoryMap

  datatype FlushMode = Flush | Invalidate | FlushAndInvalidate

  // ---------- the invariant ----------

  /** The window page `vp` is among the aliases that marking its physical page reaches. */
  predicate Seen(vp: nat, plugin: nat) {
    WindowPhys(vp, plugin).Some? && vp in Aliases(WindowPhys(vp, plugin).value, plugin)
  }

  /** A pointer only on an unmarked memory page; a cached page is marked and has none. */
  predicate EntryOk(e: Entry, vp: nat, marks: set<nat>, cells: nat) {
    match e.kind
    case Unmapped => e.pointer.None?
    case Memory => e.pointer.Some? && vp !in marks && e.pointer.value + PAGE_SIZE <= cells
    case Cached => e.pointer.None? && vp in marks
  }

  ghost predicate TablesOk(tables: seq<PageTable>, marks: set<nat>, cells: nat) {
    forall t, vp :: 0 <= t < |tables| && 0 <= vp < PAGE_COUNT ==> EntryOk(tables[t][vp], vp, marks, cells)
  }

  /** A marked page is marked on all aliases. */
  ghost predicate MarksOk(marks: set<nat>, plugin: nat) {
    forall vp :: vp in marks ==>
      Seen(vp, plugin) && forall w :: w in Aliases(WindowPhys(vp, plugin).value, plugin) ==> w in marks
  }

  predicate GpuPage(pp: nat) { VRAM <= pp < VRAM_END || FCRAM <= pp < FCRAM_N3DS_END }

  /** The GPU dirties marked pages only. */
  ghost predicate DirtyOk(overlay: Overlay, marks: set<nat>, plugin: nat) {
    forall p :: p in overlay ==>
      && GpuPage(p / PAGE_SIZE)
      && forall w :: w in Aliases(p / PAGE_SIZE, plugin) ==> w in marks
  }

  ghost predicate CleanPage(overlay: Overlay, cell: nat) {
    forall c :: cell <= c < cell + PAGE_SIZE ==> PhysOf(c) !in overlay
  }

  /** The GPU may not dirty this physical page: an alias of it is not marked. */
  ghost predicate Guarded(pp: nat, marks: set<nat>, plugin: nat) {
    GpuPage(pp) ==> exists w :: w in Aliases(pp, plugin) && w !in marks
  }

  ghost predicate GuardedCells(cell: nat, marks: set<nat>, plugin: nat) {
    forall c :: cell <= c < cell + PAGE_SIZE ==> Guarded(PhysOf(c) / PAGE_SIZE, marks, plugin)
  }

  /** A window page that marking reaches shows its own physical page; any other page shows
      memory that the GPU may not dirty. */
  ghost predicate Mapped(marks: set<nat>, vp: nat, cell: nat, plugin: nat)
    requires PluginOk(plugin)
  {
    if Seen(vp, plugin) then WindowInRange(vp, plugin); cell == CellOf(WindowPhys(vp, plugin).value)
    else GuardedCells(cell, marks, plugin)
  }

  ghost predicate MappingsOk(tables: seq<PageTable>, marks: set<nat>, plugin: nat)
    requires PluginOk(plugin)
  {
    forall t, vp :: 0 <= t < |tables| && 0 <= vp < PAGE_COUNT && tables[t][vp].pointer.Some? ==>
      Mapped(marks, vp, tables[t][vp].pointer.value, plugin)
  }

  // ---------- when the fast path is coherent ----------

  lemma GuardedIsClean(cell: nat, c: nat, marks: set<nat>, overlay: Overlay, plugin: nat)
    requires DirtyOk(overlay, marks, plugin) && cell <= c < cell + PAGE_SIZE && GuardedCells(cell, marks, plugin)
    ensures PhysOf(c) !in overlay
  {
    assert Guarded(PhysOf(c) / PAGE_SIZE, marks, plugin);
  }

  lemma OneDirtyByte(p: nat, b: Byte, marks: set<nat>, plugin: nat)
    requires !Guarded(p / PAGE_SIZE, marks, plugin)
    ensures DirtyOk(map[p := b], marks, plugin)
  {
  }

  /** No GPU write that the marks allow shows in these cells, exactly when each physical page
      among them has an alias that is not marked. */
  lemma CleanIff(cell: nat, marks: set<nat>, plugin: nat)
    ensures (forall overlay :: DirtyOk(overlay, marks, plugin) ==> CleanPage(overlay, cell))
            <==> GuardedCells(cell, marks, plugin)
  {
    if GuardedCells(cell, marks, plugin) {
      forall overlay, c: nat | DirtyOk(overlay, marks, plugin) && cell <= c < cell + PAGE_SIZE
        ensures PhysOf(c) !in overlay
      {
        GuardedIsClean(cell, c, marks, overlay, plugin);
      }
    } else {
      var c: nat :| cell <= c < cell + PAGE_SIZE && !Guarded(PhysOf(c) / PAGE_SIZE, marks, plugin);
      OneDirtyByte(PhysOf(c), 0, marks, plugin);
      var overlay: Overlay := map[PhysOf(c) := 0];
      assert DirtyOk(overlay, marks, plugin) && !CleanPage(overlay, cell);
    }
  }

  /** A page is coherent on the fast path: whatever the GPU wrote, its host bytes are what is seen. */
  ghost predicate Coherent(host: seq<Byte>, cell: nat, marks: set<nat>, plugin: nat)
    requires cell + PAGE_SIZE <= |host|
  {
    forall overlay, c: nat :: DirtyOk(overlay, marks, plugin) && cell <= c < cell + PAGE_SIZE ==>
      host[c] == ViewAt(host, overlay, c)
  }

  /** The exact condition for that. */
  lemma CoherentIff(host: seq<Byte>, cell: nat, marks: set<nat>, plugin: nat)
    requires cell + PAGE_SIZE <= |host|
    ensures Coherent(host, cell, marks, plugin) <==> GuardedCells(cell, marks, plugin)
  {
    if GuardedCells(cell, marks, plugin) {
      forall overlay, c: nat | DirtyOk(overlay, marks, plugin) && cell <= c < cell + PAGE_SIZE
        ensures host[c] == ViewAt(host, overlay, c)
      {
        GuardedIsClean(cell, c, marks, overlay, plugin);
      }
    } else {
      var c: nat :| cell <= c < cell + PAGE_SIZE && !Guarded(PhysOf(c) / PAGE_SIZE, marks, plugin);
      var b: Byte := if host[c] == 0 then 1 else 0;
      OneDirtyByte(PhysOf(c), b, marks, plugin);
      var overlay: Overlay := map[PhysOf(c) := b];
      assert DirtyOk(overlay, marks, plugin) && host[c] != ViewAt(host, overlay, c);
    }
  }

  /** The physical page behind the cells of a GPU page is that page. */
  lemma GuardedPage(pp: nat, marks: set<nat>, plugin: nat)
    requires GpuPage(pp)
    ensures GuardedCells(CellOf(pp), marks, plugin) <==> Guarded(pp, marks, plugin)
  {
    forall c: nat | CellOf(pp) <= c < CellOf(pp) + PAGE_SIZE ensures PhysOf(c) / PAGE_SIZE == pp {
      CellsOfPage(pp, c - CellOf(pp));
    }
    if GuardedCells(CellOf(pp), marks, plugin) {
      assert Guarded(PhysOf(CellOf(pp)) / PAGE_SIZE, marks, plugin);
    }
  }

  /** What an unmarked page of a table shows is guarded. */
  lemma UnmarkedIsGuarded(vp: nat, cell: nat, marks: set<nat>, plugin: nat)
    requires PluginOk(plugin) && vp !in marks && Mapped(marks, vp, cell, plugin)
    ensures GuardedCells(cell, marks, plugin)
  {
    if Seen(vp, plugin) {
      WindowInRange(vp, plugin);
      GuardedPage(WindowPhys(vp, plugin).value, marks, plugin);
    }
  }

  /** No page that is mapped as plain memory holds a dirty byte. */
  lemma MemoryIsClean(tables: seq<PageTable>, marks: set<nat>, overlay: Overlay, plugin: nat, cells: nat, t: nat, vp: nat)
    requires PluginOk(plugin) && TablesOk(tables, marks, cells) && DirtyOk(overlay, marks, plugin)
    requires MappingsOk(tables, marks, plugin)
    requires t < |tables| && vp < PAGE_COUNT && tables[t][vp].kind.Memory?
    ensures CleanPage(overlay, tables[t][vp].pointer.value)
  {
    assert EntryOk(tables[t][vp], vp, marks, cells);
    var cell := tables[t][vp].pointer.value;
    assert Mapped(marks, vp, cell, plugin);
    UnmarkedIsGuarded(vp, cell, marks, plugin);
    CleanIff(cell, marks, plugin);
  }

  /** A window page shows its own physical page and is not marked: its fast path is coherent, if
      marking reaches the page. If not, it is a linear window onto the plugin framebuffer, and
      coherent exactly while the page of the plugin window is not marked. */
  lemma WindowCoherentIff(host: seq<Byte>, vp: nat, marks: set<nat>, plugin: nat)
    requires PluginOk(plugin) && |host| >= FCRAM_CELLS + VRAM_CELLS
    requires WindowPhys(vp, plugin).Some? && vp !in marks
    ensures var pp := WindowPhys(vp, plugin).value;
            && GpuPage(pp) && CellOf(pp) + PAGE_SIZE <= |host|
            && (Coherent(host, CellOf(pp), marks, plugin)
                <==> Seen(vp, plugin) || pp - plugin + PLUGIN_WINDOW !in marks)
            && (!Seen(vp, plugin) ==> InPlugin(pp, plugin))
  {
    WindowInRange(vp, plugin);
    var pp := WindowPhys(vp, plugin).value;
    CellsOfPage(pp, PAGE_SIZE - 1);
    CoherentIff(host, CellOf(pp), marks, plugin);
    GuardedPage(pp, marks, plugin);
    AliasesShowThePage(pp, vp, plugin);
    if !Seen(vp, plugin) { assert Aliases(pp, plugin) == [pp - plugin + PLUGIN_WINDOW]; }
  }

  // ---------- flushing ----------

  predicate InWindow(start: nat, end: nat, window: nat, windowEnd: nat, phys: nat, p: nat) {
    phys <= p < phys + (windowEnd - window) && start <= p - phys + window < end
  }

  /** The physical byte `p` is shown at some address of [start, end). */
  predicate Covered(start: nat, end: nat, p: nat, plugin: nat) {
    || InWindow(start, end, LINEAR * PAGE_SIZE, LINEAR_END * PAGE_SIZE, FCRAM * PAGE_SIZE, p)
    || InWindow(start, end, NEW_LINEAR * PAGE_SIZE, NEW_LINEAR_END * PAGE_SIZE, FCRAM * PAGE_SIZE, p)
    || InWindow(start, end, VRAM_WINDOW * PAGE_SIZE, VRAM_WINDOW_END * PAGE_SIZE, VRAM * PAGE_SIZE, p)
    || (plugin != 0 &&
        InWindow(start, end, PLUGIN_WINDOW * PAGE_SIZE, PLUGIN_WINDOW_END * PAGE_SIZE, plugin * PAGE_SIZE, p))
  }

  function WriteBack(host: seq<Byte>, overlay: Overlay, lo: nat, hi: nat): (r: seq<Byte>)
    ensures |r| == |host|
    ensures forall c :: 0 <= c < |host| ==>
              r[c] == if PhysOf(c) in overlay && lo <= PhysOf(c) < hi then overlay[PhysOf(c)] else host[c]
  {
    seq(|host|, c requires 0 <= c < |host| =>
      if PhysOf(c) in overlay && lo <= PhysOf(c) < hi then overlay[PhysOf(c)] else host[c])
  }

  function Forget(overlay: Overlay, lo: nat, hi: nat): Overlay {
    map p | p in overlay && !(lo <= p < hi) :: overlay[p]
  }

  lemma WriteBackKeepsView(host: seq<Byte>, overlay: Overlay, lo: nat, hi: nat)
    ensures View(WriteBack(host, overlay, lo, hi), Forget(overlay, lo, hi)) == View(host, overlay)
  {
  }

  /** `now` is `was` without the bytes shown in [start, end). */
  ghost predicate Forgotten(was: Overlay, now: Overlay, start: nat, end: nat, plugin: nat) {
    forall p :: (p in now <==> p in was && !Covered(start, end, p, plugin)) && (p in now ==> now[p] == was[p])
  }

  lemma CoveredIff(vp: nat, offset: nat, n: nat, plugin: nat, cell: nat)
    requires PluginOk(plugin) && WindowPhys(vp, plugin).Some? && offset + n <= PAGE_SIZE
    ensures var pp := WindowPhys(vp, plugin).value;
            (VRAM <= pp < VRAM_END || FCRAM <= pp < FCRAM_N3DS_END) &&
            (Covered(vp * PAGE_SIZE + offset, vp * PAGE_SIZE + offset + n, PhysOf(cell), plugin)
             <==> CellOf(pp) + offset <= cell < CellOf(pp) + offset + n)
  {
  }

  /** What flushing part of a window page leaves of the overlay. */
  lemma ForgottenCells(was: Overlay, now: Overlay, vaddr: nat, n: nat, plugin: nat)
    requires PluginOk(plugin) && WindowPhys(vaddr / PAGE_SIZE, plugin).Some? && vaddr % PAGE_SIZE + n <= PAGE_SIZE
    requires Forgotten(was, now, vaddr, (vaddr + n) % 0x1_0000_0000, plugin)
    ensures var pp := WindowPhys(vaddr / PAGE_SIZE, plugin).value;
            && (VRAM <= pp < VRAM_END || FCRAM <= pp < FCRAM_N3DS_END)
            && var at := CellOf(pp) + vaddr % PAGE_SIZE;
               && (forall c :: at <= c < at + n ==> PhysOf(c) !in now)
               && (forall c :: 0 <= c && !(at <= c < at + n) ==>
                     (PhysOf(c) in now <==> PhysOf(c) in was)
                     && (PhysOf(c) in now ==> now[PhysOf(c)] == was[PhysOf(c)]))
  {
    var vp, offset := vaddr / PAGE_SIZE, vaddr % PAGE_SIZE;
    WindowInRange(vp, plugin);
    assert vaddr + n < 0x1_0000_0000;
    forall c: nat
      ensures var at := CellOf(WindowPhys(vp, plugin).value) + offset;
              PhysOf(c) in now <==> PhysOf(c) in was && !(at <= c < at + n)
    {
      CoveredIff(vp, offset, n, plugin, c);
    }
  }

  // ---------- accesses inside one page ----------

  function Splice(s: seq<Byte>, at: nat, data: seq<Byte>): (r: seq<Byte>)
    requires at + |data| <= |s|
    ensures |r| == |s|
    ensures forall c :: 0 <= c < |s| ==> r[c] == if at <= c < at + |data| then data[c - at] else s[c]
  {
    s[..at] + data + s[at + |data|..]
  }

  lemma {:induction false} WriterInPage(table: PageTable, vaddr: nat, n: nat, plugin: nat, at: nat, cell: nat)
    requires vaddr + n <= PAGE_COUNT * PAGE_SIZE && PluginOk(plugin) && vaddr < PAGE_COUNT * PAGE_SIZE
    requires vaddr % PAGE_SIZE + n <= PAGE_SIZE && CellAt(table, vaddr, plugin) == Some(at)
    ensures Writer(table, vaddr, n, cell, plugin) == if at <= cell < at + n then cell - at else -1
  {
    if n > 0 {
      SamePage(vaddr, n - 1);
      WriterInPage(table, vaddr, n - 1, plugin, at, cell);
    }
  }

  lemma PokeIsSplice(view: seq<Byte>, table: PageTable, vaddr: nat, data: seq<Byte>, plugin: nat, at: nat)
    requires vaddr + |data| <= PAGE_COUNT * PAGE_SIZE && PluginOk(plugin) && data != []
    requires vaddr % PAGE_SIZE + |data| <= PAGE_SIZE
    requires CellAt(table, vaddr, plugin) == Some(at) && at + |data| <= |view|
    ensures PokeAll(view, table, vaddr, data, plugin) == Splice(view, at, data)
  {
    var r := PokeAll(view, table, vaddr, data, plugin);
    forall c | 0 <= c < |view| ensures r[c] == Splice(view, at, data)[c] {
      WriterInPage(table, vaddr, |data|, plugin, at, c);
    }
  }

  function Least(a: nat, b: nat): nat { if b < a then b else a }

  lemma InPage(pageIndex: nat, pageOffset: nat)
    requires pageOffset < PAGE_SIZE
    ensures (pageIndex * PAGE_SIZE + pageOffset) % PAGE_SIZE == pageOffset
  {
  }

  lemma SamePage(vaddr: nat, i: nat)
    requires vaddr % PAGE_SIZE + i < PAGE_SIZE
    ensures (vaddr + i) / PAGE_SIZE == vaddr / PAGE_SIZE && (vaddr + i) % PAGE_SIZE == vaddr % PAGE_SIZE + i
  {
  }

  lemma PokeUnmapped(view: seq<Byte>, table: PageTable, vaddr: nat, data: seq<Byte>, plugin: nat)
    requires vaddr < PAGE_COUNT * PAGE_SIZE && vaddr + |data| <= PAGE_COUNT * PAGE_SIZE && PluginOk(plugin)
    requires vaddr % PAGE_SIZE + |data| <= PAGE_SIZE && table[vaddr / PAGE_SIZE].kind.Unmapped?
    ensures PokeAll(view, table, vaddr, data, plugin) == view
  {
    forall a | vaddr <= a < vaddr + |data| ensures CellAt(table, a, plugin).None? {
      SamePage(vaddr, a - vaddr);
    }
    var r := PokeAll(view, table, vaddr, data, plugin);
    forall c | 0 <= c < |view| ensures r[c] == view[c] {
      NoWriter(table, vaddr, |data|, c, plugin);
    }
  }

  /** Data written where nothing is dirty any more, with the rest of the overlay in place. */
  lemma SpliceView(host: seq<Byte>, was: Overlay, now: Overlay, at: nat, data: seq<Byte>)
    requires at + |data| <= |host|
    requires forall c :: at <= c < at + |data| ==> PhysOf(c) !in now
    requires forall c :: 0 <= c < |host| && !(at <= c < at + |data|) ==> ViewAt(host, now, c) == ViewAt(host, was, c)
    ensures View(Splice(host, at, data), now) == Splice(View(host, was), at, data)
  {
  }

  lemma CleanBytes(host: seq<Byte>, overlay: Overlay, at: nat, n: nat)
    requires at + n <= |host| && forall c :: at <= c < at + n ==> PhysOf(c) !in overlay
    ensures host[at..at + n] == View(host, overlay)[at..at + n]
  {
    forall c | at <= c < at + n ensures host[c] == View(host, overlay)[c] {
    }
  }

  lemma PeekCells(view: seq<Byte>, table: PageTable, vaddr: nat, n: nat, plugin: nat, at: nat)
    requires vaddr + n <= PAGE_COUNT * PAGE_SIZE && PluginOk(plugin) && n > 0
    requires vaddr % PAGE_SIZE + n <= PAGE_SIZE
    requires CellAt(table, vaddr, plugin) == Some(at) && at + n <= |view|
    ensures PeekAll(view, table, vaddr, n, plugin) == view[at..at + n]
  {
    var r := PeekAll(view, table, vaddr, n, plugin);
    forall i | 0 <= i < n ensures r[i] == view[at + i] {
      SamePage(vaddr, i);
      assert r[i] == Peek(view, table, vaddr + i, plugin);
    }
  }

  lemma PeekUnmapped(view: seq<Byte>, table: PageTable, vaddr: nat, n: nat, plugin: nat)
    requires vaddr < PAGE_COUNT * PAGE_SIZE && vaddr + n <= PAGE_COUNT * PAGE_SIZE && PluginOk(plugin)
    requires vaddr % PAGE_SIZE + n <= PAGE_SIZE && table[vaddr / PAGE_SIZE].kind.Unmapped?
    ensures PeekAll(view, table, vaddr, n, plugin) == Zeros(n)
  {
    var r := PeekAll(view, table, vaddr, n, plugin);
    forall i | 0 <= i < n ensures r[i] == 0 {
      SamePage(vaddr, i);
      assert r[i] == Peek(view, table, vaddr + i, plugin);
    }
  }

  lemma PeekAllSplit(view: seq<Byte>, table: PageTable, vaddr: nat, m: nat, n: nat, plugin: nat)
    requires vaddr + m + n <= PAGE_COUNT * PAGE_SIZE && PluginOk(plugin)
    ensures PeekAll(view, table, vaddr, m, plugin) + PeekAll(view, table, vaddr + m, n, plugin)
            == PeekAll(view, table, vaddr, m + n, plugin)
  {
    var a, b := PeekAll(view, table, vaddr, m, plugin), PeekAll(view, table, vaddr + m, n, plugin);
    var c := PeekAll(view, table, vaddr, m + n, plugin);
    forall i | 0 <= i < m + n ensures (a + b)[i] == c[i] {
      if i >= m { assert b[i - m] == Peek(view, table, vaddr + m + (i - m), plugin); }
    }
  }

  /** The two ranges have no cell in common. */
  ghost predicate Disjoint(s: PageTable, src: nat, d: PageTable, dest: nat, size: nat, plugin: nat)
    requires src + size <= PAGE_COUNT * PAGE_SIZE && dest + size <= PAGE_COUNT * PAGE_SIZE && PluginOk(plugin)
  {
    forall a, b :: src <= a < src + size && dest <= b < dest + size && CellAt(s, a, plugin).Some? ==>
      CellAt(d, b, plugin) != CellAt(s, a, plugin)
  }

  /** What was copied so far has not changed the source. */
  lemma SourceKept(view: seq<Byte>, s: PageTable, src: nat, d: PageTable, dest: nat, all: seq<Byte>, done: nat,
                   n: nat, plugin: nat)
    requires PluginOk(plugin) && src + |all| <= PAGE_COUNT * PAGE_SIZE && dest + |all| <= PAGE_COUNT * PAGE_SIZE
    requires all == PeekAll(view, s, src, |all|, plugin) && done + n <= |all|
    requires Disjoint(s, src, d, dest, |all|, plugin)
    ensures PeekAll(PokeAll(view, d, dest, all[..done], plugin), s, src + done, n, plugin) == all[done..done + n]
  {
    var now := PokeAll(view, d, dest, all[..done], plugin);
    var r := PeekAll(now, s, src + done, n, plugin);
    forall i | 0 <= i < n ensures r[i] == all[done + i] {
      var a := src + done + i;
      assert r[i] == Peek(now, s, a, plugin) && all[done + i] == Peek(view, s, a, plugin);
      var cell := CellAt(s, a, plugin);
      if cell.Some? && cell.value < |view| {
        NoWriter(d, dest, done, cell.value, plugin);
      }
    }
  }

  lemma WriteStep(view: seq<Byte>, table: PageTable, dest: nat, data: seq<Byte>, done: nat, n: nat, plugin: nat)
    requires PluginOk(plugin) && dest + |data| <= PAGE_COUNT * PAGE_SIZE && done + n <= |data|
    ensures PokeAll(PokeAll(view, table, dest, data[..done], plugin), table, dest + done, data[done..done + n], plugin)
            == PokeAll(view, table, dest, data[..done + n], plugin)
  {
    PokeAllSplit(view, table, dest, data[..done], data[done..done + n], plugin);
    assert data[..done] + data[done..done + n] == data[..done + n];
  }

  function Zeros(n: nat): (r: seq<Byte>)
    ensures |r| == n
  {
    seq(n, _ => 0)
  }

  lemma ZeroStep(view: seq<Byte>, table: PageTable, dest: nat, done: nat, n: nat, plugin: nat)
    requires PluginOk(plugin) && dest + done + n <= PAGE_COUNT * PAGE_SIZE
    ensures PokeAll(PokeAll(view, table, dest, Zeros(done), plugin), table, dest + done, Zeros(n), plugin)
            == PokeAll(view, table, dest, Zeros(done + n), plugin)
  {
    PokeAllSplit(view, table, dest, Zeros(done), Zeros(n), plugin);
    assert Zeros(done) + Zeros(n) == Zeros(done + n);
  }

  lemma WriteStepOn(view: seq<Byte>, was: seq<Byte>, now: seq<Byte>, table: PageTable, dest: nat, data: seq<Byte>,
                    done: nat, n: nat, plugin: nat)
    requires PluginOk(plugin) && dest + |data| <= PAGE_COUNT * PAGE_SIZE && done + n <= |data|
    requires was == PokeAll(view, table, dest, data[..done], plugin)
    requires now == PokeAll(was, table, dest + done, data[done..done + n], plugin)
    ensures now == PokeAll(view, table, dest, data[..done + n], plugin)
  {
    WriteStep(view, table, dest, data, done, n, plugin);
  }

  /** The memory after `done` of `size` bytes were copied. */
  function CopiedUpTo(view: seq<Byte>, s: PageTable, src: nat, d: PageTable, dest: nat, size: nat, done: nat,
                      plugin: nat): seq<Byte>
    requires PluginOk(plugin) && src + size <= PAGE_COUNT * PAGE_SIZE && dest + size <= PAGE_COUNT * PAGE_SIZE
    requires done <= size
  {
    PokeAll(view, d, dest, PeekAll(view, s, src, size, plugin)[..done], plugin)
  }

  lemma CopyEnds(view: seq<Byte>, s: PageTable, src: nat, d: PageTable, dest: nat, size: nat, plugin: nat)
    requires PluginOk(plugin) && src + size <= PAGE_COUNT * PAGE_SIZE && dest + size <= PAGE_COUNT * PAGE_SIZE
    ensures CopiedUpTo(view, s, src, d, dest, size, 0, plugin) == view
    ensures CopiedUpTo(view, s, src, d, dest, size, size, plugin)
            == PokeAll(view, d, dest, PeekAll(view, s, src, size, plugin), plugin)
  {
    var all := PeekAll(view, s, src, size, plugin);
    assert all[..size] == all;
  }

  /** Copying `n` more bytes after `done` of them goes on where the copy stands. */
  predicate CopiesOn(view: seq<Byte>, s: PageTable, src: nat, d: PageTable, dest: nat, size: nat, done: nat, n: nat,
                     plugin: nat)
    requires PluginOk(plugin) && src + size <= PAGE_COUNT * PAGE_SIZE && dest + size <= PAGE_COUNT * PAGE_SIZE
    requires done + n <= size
  {
    var now := CopiedUpTo(view, s, src, d, dest, size, done, plugin);
    PokeAll(now, d, dest + done, PeekAll(now, s, src + done, n, plugin), plugin)
    == CopiedUpTo(view, s, src, d, dest, size, done + n, plugin)
  }

  lemma CopyStep(view: seq<Byte>, s: PageTable, src: nat, d: PageTable, dest: nat, size: nat, done: nat, n: nat,
                 plugin: nat)
    requires PluginOk(plugin) && src + size <= PAGE_COUNT * PAGE_SIZE && dest + size <= PAGE_COUNT * PAGE_SIZE
    requires done + n <= size && Disjoint(s, src, d, dest, size, plugin)
    ensures CopiesOn(view, s, src, d, dest, size, done, n, plugin)
  {
    var all := PeekAll(view, s, src, size, plugin);
    SourceKept(view, s, src, d, dest, all, done, n, plugin);
    WriteStep(view, d, dest, all, done, n, plugin);
  }

  lemma CopyStepOn(view: seq<Byte>, was: seq<Byte>, now: seq<Byte>, s: PageTable, src: nat, d: PageTable, dest: nat,
                   size: nat, done: nat, n: nat, plugin: nat)
    requires PluginOk(plugin) && src + size <= PAGE_COUNT * PAGE_SIZE && dest + size <= PAGE_COUNT * PAGE_SIZE
    requires done + n <= size && CopiesOn(view, s, src, d, dest, size, done, n, plugin)
    requires was == CopiedUpTo(view, s, src, d, dest, size, done, plugin)
    requires now == PokeAll(was, d, dest + done, PeekAll(was, s, src + done, n, plugin), plugin)
    ensures now == CopiedUpTo(view, s, src, d, dest, size, done + n, plugin)
  {
  }

  lemma ShrinkOk(marks: set<nat>, was: Overlay, now: Overlay, plugin: nat)
    requires DirtyOk(was, marks, plugin) && forall p :: p in now ==> p in was
    ensures DirtyOk(now, marks, plugin)
  {
  }

  // ---------- the memory system ----------

  /** What a guest access gets: bytes, or the GPU register at an address. */
  datatype Access = Data(bytes: seq<Byte>) | Register(address: nat)

  // ---------- accesses that cross a page ----------

  /** The access starts in a page with a pointer and ends in the next. */
  predicate Crosses(table: PageTable, vaddr: nat, n: nat, cells: nat) {
    && vaddr / PAGE_SIZE + 1 < PAGE_COUNT && PAGE_SIZE < vaddr % PAGE_SIZE + n <= 2 * PAGE_SIZE
    && vaddr + n <= PAGE_COUNT * PAGE_SIZE
    && table[vaddr / PAGE_SIZE].kind.Memory? && table[vaddr / PAGE_SIZE].pointer.Some?
    && table[vaddr / PAGE_SIZE].pointer.value + vaddr % PAGE_SIZE + n <= cells
  }

  /** Where the fast path starts; it runs on in host memory from there. */
  function FastCell(table: PageTable, vaddr: nat): nat
    requires vaddr / PAGE_SIZE < PAGE_COUNT && table[vaddr / PAGE_SIZE].pointer.Some?
  {
    table[vaddr / PAGE_SIZE].pointer.value + vaddr % PAGE_SIZE
  }

  /** The next virtual page shows the next page of host memory. */
  predicate RunsOn(table: PageTable, vaddr: nat, plugin: nat)
    requires vaddr / PAGE_SIZE + 1 < PAGE_COUNT && PluginOk(plugin) && table[vaddr / PAGE_SIZE].pointer.Some?
  {
    PageCell(table, vaddr / PAGE_SIZE + 1, plugin) == Some(table[vaddr / PAGE_SIZE].pointer.value + PAGE_SIZE)
  }

  /** The bytes on the first page, and on the next. */
  lemma CrossingCell(table: PageTable, vaddr: nat, n: nat, cells: nat, plugin: nat, i: nat)
    requires PluginOk(plugin) && Crosses(table, vaddr, n, cells) && i < n
    ensures var split := PAGE_SIZE - vaddr % PAGE_SIZE;
            var next := PageCell(table, vaddr / PAGE_SIZE + 1, plugin);
            CellAt(table, vaddr + i, plugin)
            == if i < split then Some(FastCell(table, vaddr) + i)
               else if next.None? then None else Some(next.value + (i - split))
  {
    if vaddr % PAGE_SIZE + i < PAGE_SIZE {
      SamePage(vaddr, i);
    } else {
      assert (vaddr + i) / PAGE_SIZE == vaddr / PAGE_SIZE + 1;
      assert (vaddr + i) % PAGE_SIZE == vaddr % PAGE_SIZE + i - PAGE_SIZE;
    }
  }

  lemma CrossingRunsOn(view: seq<Byte>, table: PageTable, vaddr: nat, n: nat, plugin: nat)
    requires PluginOk(plugin) && Crosses(table, vaddr, n, |view|) && RunsOn(table, vaddr, plugin)
    ensures PeekAll(view, table, vaddr, n, plugin) == view[FastCell(table, vaddr)..FastCell(table, vaddr) + n]
  {
    var r := PeekAll(view, table, vaddr, n, plugin);
    forall i | 0 <= i < n ensures r[i] == view[FastCell(table, vaddr) + i] {
      CrossingCell(table, vaddr, n, |view|, plugin, i);
      assert r[i] == Peek(view, table, vaddr + i, plugin);
    }
  }

  /** Memory that is zero but for one cell. */
  function OneCell(cells: nat, cell: nat): (r: seq<Byte>)
    ensures |r| == cells && forall c :: 0 <= c < cells ==> r[c] == if c == cell then 1 else 0
  {
    seq(cells, c => if c == cell then 1 else 0)
  }

  lemma CrossingShows(table: PageTable, vaddr: nat, n: nat, cells: nat, plugin: nat)
    requires PluginOk(plugin) && Crosses(table, vaddr, n, cells) && !RunsOn(table, vaddr, plugin)
    ensures var at := FastCell(table, vaddr);
            var view := OneCell(cells, at - vaddr % PAGE_SIZE + PAGE_SIZE);
            PeekAll(view, table, vaddr, n, plugin) != view[at..at + n]
  {
    var at, split := FastCell(table, vaddr), PAGE_SIZE - vaddr % PAGE_SIZE;
    var view := OneCell(cells, at + split);
    CrossingCell(table, vaddr, n, cells, plugin, split);
    assert PeekAll(view, table, vaddr, n, plugin)[split] == Peek(view, table, vaddr + split, plugin) == 0;
    assert view[at..at + n][split] == 1;
  }

  /** A load across a page border through a pointer is the byte-by-byte load, whatever memory
      holds, exactly when the next virtual page shows the next page of host memory. */
  lemma CrossingLoadIff(table: PageTable, vaddr: nat, n: nat, cells: nat, plugin: nat)
    requires PluginOk(plugin) && Crosses(table, vaddr, n, cells)
    ensures (forall view: seq<Byte> :: |view| == cells ==>
               PeekAll(view, table, vaddr, n, plugin) == view[FastCell(table, vaddr)..FastCell(table, vaddr) + n])
            <==> RunsOn(table, vaddr, plugin)
  {
    if RunsOn(table, vaddr, plugin) {
      forall view: seq<Byte> | |view| == cells
        ensures PeekAll(view, table, vaddr, n, plugin) == view[FastCell(table, vaddr)..FastCell(table, vaddr) + n]
      {
        CrossingRunsOn(view, table, vaddr, n, plugin);
      }
    } else {
      CrossingShows(table, vaddr, n, cells, plugin);
    }
  }

  /** The cell a byte of the second page goes to is written by none behind it. */
  lemma {:induction false} LastWriter(table: PageTable, vaddr: nat, n: nat, cells: nat, plugin: nat, i: nat, k: nat)
    requires PluginOk(plugin) && Crosses(table, vaddr, n, cells) && i < k <= n
    requires PAGE_SIZE <= vaddr % PAGE_SIZE + i && CellAt(table, vaddr + i, plugin).Some?
    ensures Writer(table, vaddr, k, CellAt(table, vaddr + i, plugin).value, plugin) == i
  {
    CrossingCell(table, vaddr, n, cells, plugin, i);
    CrossingCell(table, vaddr, n, cells, plugin, k - 1);
    if i < k - 1 { LastWriter(table, vaddr, n, cells, plugin, i, k - 1); }
  }

  lemma CrossingStoreRunsOn(view: seq<Byte>, table: PageTable, vaddr: nat, data: seq<Byte>, plugin: nat)
    requires PluginOk(plugin) && Crosses(table, vaddr, |data|, |view|) && RunsOn(table, vaddr, plugin)
    ensures PokeAll(view, table, vaddr, data, plugin) == Splice(view, FastCell(table, vaddr), data)
  {
    var at := FastCell(table, vaddr);
    var r, s := PokeAll(view, table, vaddr, data, plugin), Splice(view, at, data);
    forall c | 0 <= c < |view| ensures r[c] == s[c] {
      RunningWriter(table, vaddr, |data|, |view|, plugin, |data|, c);
    }
  }

  lemma {:induction false} RunningWriter(table: PageTable, vaddr: nat, n: nat, cells: nat, plugin: nat, k: nat, cell: nat)
    requires PluginOk(plugin) && Crosses(table, vaddr, n, cells) && RunsOn(table, vaddr, plugin) && k <= n
    ensures var at := FastCell(table, vaddr);
            Writer(table, vaddr, k, cell, plugin) == if at <= cell < at + k then cell - at else -1
  {
    if k > 0 {
      CrossingCell(table, vaddr, n, cells, plugin, k - 1);
      RunningWriter(table, vaddr, n, cells, plugin, k - 1, cell);
    }
  }

  lemma CrossingStoreShows(table: PageTable, vaddr: nat, n: nat, cells: nat, plugin: nat)
    requires PluginOk(plugin) && Crosses(table, vaddr, n, cells) && !RunsOn(table, vaddr, plugin)
    ensures var split := PAGE_SIZE - vaddr % PAGE_SIZE;
            var view, data := OneCell(cells, cells), OneCell(n, split);
            PokeAll(view, table, vaddr, data, plugin) != Splice(view, FastCell(table, vaddr), data)
  {
    var at, split := FastCell(table, vaddr), PAGE_SIZE - vaddr % PAGE_SIZE;
    var view, data := OneCell(cells, cells), OneCell(n, split);
    var r, s := PokeAll(view, table, vaddr, data, plugin), Splice(view, at, data);
    assert s[at + split] == 1;
    CrossingCell(table, vaddr, n, cells, plugin, split);
    var cell := CellAt(table, vaddr + split, plugin);
    if cell.Some? && cell.value < cells {
      LastWriter(table, vaddr, n, cells, plugin, split, n);
      assert r[cell.value] == data[split] == 1;
    } else {
      OnlyThisWriter(table, vaddr, n, cells, plugin, n, at + split);
    }
  }

  /** Without a next page in reach no byte goes behind the first. */
  lemma {:induction false} OnlyThisWriter(table: PageTable, vaddr: nat, n: nat, cells: nat, plugin: nat, k: nat, cell: nat)
    requires PluginOk(plugin) && Crosses(table, vaddr, n, cells) && k <= n
    requires var split := PAGE_SIZE - vaddr % PAGE_SIZE;
             var first := CellAt(table, vaddr + split, plugin);
             cell == FastCell(table, vaddr) + split && (first.Some? ==> first.value >= cells)
    ensures Writer(table, vaddr, k, cell, plugin) == -1
  {
    if k > 0 {
      CrossingCell(table, vaddr, n, cells, plugin, PAGE_SIZE - vaddr % PAGE_SIZE);
      CrossingCell(table, vaddr, n, cells, plugin, k - 1);
      OnlyThisWriter(table, vaddr, n, cells, plugin, k - 1, cell);
    }
  }

  /** The same for stores. */
  lemma CrossingStoreIff(table: PageTable, vaddr: nat, n: nat, cells: nat, plugin: nat)
    requires PluginOk(plugin) && Crosses(table, vaddr, n, cells)
    ensures (forall view: seq<Byte>, data: seq<Byte> :: |view| == cells && |data| == n ==>
               PokeAll(view, table, vaddr, data, plugin) == Splice(view, FastCell(table, vaddr), data))
            <==> RunsOn(table, vaddr, plugin)
  {
    if RunsOn(table, vaddr, plugin) {
      forall view: seq<Byte>, data: seq<Byte> | |view| == cells && |data| == n
        ensures PokeAll(view, table, vaddr, data, plugin) == Splice(view, FastCell(table, vaddr), data)
      {
        CrossingStoreRunsOn(view, table, vaddr, data, plugin);
      }
    } else {
      CrossingStoreShows(table, vaddr, n, cells, plugin);
    }
  }

  // ---------- the high window ----------

  predicate InLumaFcram(vaddr: nat) { 0xA000_0000 <= vaddr < 0xB000_0000 }

  predicate InLumaIo(vaddr: nat) { 0x9010_0000 <= vaddr < 0xA000_0000 }

  /** What a load of `n` bytes inside a page gives: where there is no pointer the high window is
      looked at before the page's type is. */
  function Loaded(host: seq<Byte>, view: seq<Byte>, table: PageTable, vaddr: nat, n: nat, plugin: nat): Access
    requires PluginOk(plugin) && n > 0 && vaddr + n <= PAGE_COUNT * PAGE_SIZE && vaddr % PAGE_SIZE + n <= PAGE_SIZE
    requires |host| >= FCRAM_CELLS
  {
    var missing := table[vaddr / PAGE_SIZE].pointer.None?;
    if missing && InLumaFcram(vaddr) then Data(host[vaddr - 0xA000_0000..vaddr - 0xA000_0000 + n])
    else if missing && InLumaIo(vaddr) then Register(vaddr - 0x9010_0000 + 0x1EC0_0000)
    else Data(PeekAll(view, table, vaddr, n, plugin))
  }

  predicate HoldsZeros(host: seq<Byte>, at: nat, n: nat)
    requires at + n <= |host|
  {
    forall c :: at <= c < at + n ==> host[c] == 0
  }

  lemma ZeroBytes(host: seq<Byte>, at: nat, n: nat)
    requires at + n <= |host|
    ensures host[at..at + n] == Zeros(n) <==> HoldsZeros(host, at, n)
  {
    if host[at..at + n] == Zeros(n) {
      forall c | at <= c < at + n ensures host[c] == 0 {
        assert host[at..at + n][c - at] == Zeros(n)[c - at];
      }
    }
    if HoldsZeros(host, at, n) {
      forall i | 0 <= i < n ensures host[at..at + n][i] == Zeros(n)[i] {
        assert host[at + i] == 0;
      }
    }
  }

  lemma HighPagesAreNoWindows(vaddr: nat, plugin: nat)
    requires InLumaFcram(vaddr) || InLumaIo(vaddr)
    ensures WindowPhys(vaddr / PAGE_SIZE, plugin).None?
  {
  }

  /** Exactly when a load and a block read of the same bytes agree: on every page with a pointer
      and everywhere outside the high window; in its FCRAM part only where FCRAM holds zeros, and
      in its register part never. */
  lemma LoadIsBlockReadIff(host: seq<Byte>, view: seq<Byte>, table: PageTable, vaddr: nat, n: nat, marks: set<nat>,
                           plugin: nat)
    requires PluginOk(plugin) && n > 0 && vaddr + n <= PAGE_COUNT * PAGE_SIZE && vaddr % PAGE_SIZE + n <= PAGE_SIZE
    requires |host| >= FCRAM_CELLS && MarksOk(marks, plugin)
    requires EntryOk(table[vaddr / PAGE_SIZE], vaddr / PAGE_SIZE, marks, |host|)
    ensures Loaded(host, view, table, vaddr, n, plugin) == Data(PeekAll(view, table, vaddr, n, plugin))
            <==> || table[vaddr / PAGE_SIZE].pointer.Some?
                 || (!InLumaFcram(vaddr) && !InLumaIo(vaddr))
                 || (InLumaFcram(vaddr) && HoldsZeros(host, vaddr - 0xA000_0000, n))
  {
    if table[vaddr / PAGE_SIZE].pointer.None? && (InLumaFcram(vaddr) || InLumaIo(vaddr)) {
      HighPagesAreNoWindows(vaddr, plugin);
      assert vaddr / PAGE_SIZE !in marks;
      PeekUnmapped(view, table, vaddr, n, plugin);
      if InLumaFcram(vaddr) { ZeroBytes(host, vaddr - 0xA000_0000, n); }
    }
  }

  /** A store into the FCRAM part of the high window, which a block write ignores, leaves the same
      memory only where FCRAM holds the bytes already, or the GPU's bytes hide it. */
  lemma HighStoreIsLostIff(host: seq<Byte>, overlay: Overlay, vaddr: nat, data: seq<Byte>)
    requires InLumaFcram(vaddr) && vaddr + |data| <= 0xB000_0000 && |host| >= FCRAM_CELLS
    ensures View(Splice(host, vaddr - 0xA000_0000, data), overlay) == View(host, overlay)
            <==> forall c :: vaddr - 0xA000_0000 <= c < vaddr - 0xA000_0000 + |data| ==>
                   PhysOf(c) in overlay || host[c] == data[c - (vaddr - 0xA000_0000)]
  {
    SpliceShowsIff(host, overlay, vaddr - 0xA000_0000, data);
  }

  lemma SpliceShowsIff(host: seq<Byte>, overlay: Overlay, at: nat, data: seq<Byte>)
    requires at + |data| <= |host|
    ensures View(Splice(host, at, data), overlay) == View(host, overlay)
            <==> forall c :: at <= c < at + |data| ==> PhysOf(c) in overlay || host[c] == data[c - at]
  {
    var spliced := Splice(host, at, data);
    var was, now := View(host, overlay), View(spliced, overlay);
    if now == was {
      forall c | at <= c < at + |data| ensures PhysOf(c) in overlay || host[c] == data[c - at] {
        assert now[c] == was[c] && now[c] == ViewAt(spliced, overlay, c) && was[c] == ViewAt(host, overlay, c);
        assert spliced[c] == data[c - at];
      }
    }
    if forall c :: at <= c < at + |data| ==> PhysOf(c) in overlay || host[c] == data[c - at] {
      forall c | 0 <= c < |host| ensures now[c] == was[c] {
        assert now[c] == ViewAt(spliced, overlay, c) && was[c] == ViewAt(host, overlay, c);
      }
    }
  }

  /** A `MemoryRef`. */
  datatype Ref = Null | At(cell: nat, size: nat)

  /** `operator+=` in `MapPages`: only while more than a page is left. */
  function Next(memory: Ref): Ref {
    if memory.At? && memory.size > PAGE_SIZE then At(memory.cell + PAGE_SIZE, memory.size - PAGE_SIZE) else memory
  }

  function Nth(memory: Ref, i: nat): Ref { if i == 0 then memory else Next(Nth(memory, i - 1)) }

  function Pointer(memory: Ref): Option<nat> { if memory.Null? then None else Some(memory.cell) }

  /** What `MapPages` makes of page `vp`. */
  function MappedEntry(vp: nat, kind: PageType, memory: Ref, marks: set<nat>): Entry {
    if kind.Memory? && vp in marks then Entry(Cached, None) else Entry(kind, Pointer(memory))
  }

  /** Marking pages [first, first + n) reaches the window page `vp`. */
  predicate Reached(vp: nat, first: nat, n: nat, plugin: nat) {
    Seen(vp, plugin) && first <= WindowPhys(vp, plugin).value < first + n
  }

  /** What (un)marking makes of an entry. */
  function Flip(e: Entry, vp: nat, cached: bool, plugin: nat): Entry
    requires PluginOk(plugin) && Seen(vp, plugin)
  {
    if e.kind.Unmapped? then e
    else if cached then Entry(Cached, None)
    else
      WindowInRange(vp, plugin);
      Entry(Memory, Some(CellOf(WindowPhys(vp, plugin).value)))
  }

  /** The memory to map is long enough, and each of its pages may show at its address. */
  ghost predicate Fits(memory: Ref, base: nat, size: nat, marks: set<nat>, plugin: nat, cells: nat)
    requires PluginOk(plugin)
  {
    && memory.At?
    && forall i :: 0 <= i < size ==>
         Nth(memory, i).At? && Nth(memory, i).cell + PAGE_SIZE <= cells
         && Mapped(marks, base + i, Nth(memory, i).cell, plugin)
  }

  lemma MapOk(was: seq<PageTable>, now: seq<PageTable>, t: nat, base: nat, size: nat, memory: Ref, kind: PageType,
              marks: set<nat>, plugin: nat, cells: nat)
    requires PluginOk(plugin) && TablesOk(was, marks, cells) && MappingsOk(was, marks, plugin)
    requires t < |was| == |now| && base + size <= PAGE_COUNT
    requires kind.Memory? || (kind.Unmapped? && memory.Null?)
    requires kind.Memory? ==> Fits(memory, base, size, marks, plugin, cells)
    requires forall u :: 0 <= u < |was| && u != t ==> now[u] == was[u]
    requires forall vp :: 0 <= vp < PAGE_COUNT ==>
               now[t][vp] == if base <= vp < base + size then MappedEntry(vp, kind, Nth(memory, vp - base), marks)
                             else was[t][vp]
    ensures TablesOk(now, marks, cells) && MappingsOk(now, marks, plugin)
  {
    forall u, vp | 0 <= u < |now| && 0 <= vp < PAGE_COUNT
      ensures EntryOk(now[u][vp], vp, marks, cells)
      ensures now[u][vp].pointer.Some? ==> Mapped(marks, vp, now[u][vp].pointer.value, plugin)
    {
      assert EntryOk(was[u][vp], vp, marks, cells);
      assert was[u][vp].pointer.Some? ==> Mapped(marks, vp, was[u][vp].pointer.value, plugin);
      if u == t && base <= vp < base + size {
        if kind.Memory? {
          assert Mapped(marks, base + (vp - base), Nth(memory, vp - base).cell, plugin);
        } else {
          NullStays(vp - base);
        }
      }
    }
  }

  lemma {:induction false} NullStays(i: nat)
    ensures Nth(Null, i) == Null
  {
    if i > 0 { NullStays(i - 1); }
  }

  /** How many pages `RasterizerMarkRegionCached` walks; none for a null start. */
  function PageSpan(start: nat, size: nat): nat {
    if start == 0 then 0 else (start + size - 1) / PAGE_SIZE - start / PAGE_SIZE + 1
  }

  predicate InSpan(pp: nat, start: nat, size: nat) {
    start / PAGE_SIZE <= pp < start / PAGE_SIZE + PageSpan(start, size)
  }

  /** The marks after the pages of `done` were (un)marked. */
  ghost predicate Marked(was: set<nat>, now: set<nat>, done: set<nat>, cached: bool) {
    now == if cached then was + done else was - done
  }

  function FlipSeen(e: Entry, vp: nat, cached: bool, plugin: nat): Entry
    requires PluginOk(plugin)
  {
    if Seen(vp, plugin) then Flip(e, vp, cached, plugin) else e
  }

  /** The page tables after the pages of `done` were switched. */
  ghost predicate Switched(was: seq<PageTable>, now: seq<PageTable>, done: set<nat>, cached: bool, plugin: nat)
    requires PluginOk(plugin)
  {
    |now| == |was| && forall t, vp :: 0 <= t < |was| && 0 <= vp < PAGE_COUNT ==>
      now[t][vp] == if vp in done then FlipSeen(was[t][vp], vp, cached, plugin) else was[t][vp]
  }

  /** The window pages that marking [first, first + n) reaches. */
  ghost function Reach(first: nat, n: nat, plugin: nat): set<nat> {
    set vp | 0 <= vp < PAGE_COUNT && Reached(vp, first, n, plugin)
  }

  lemma SwitchOne(was: seq<PageTable>, mid: seq<PageTable>, now: seq<PageTable>, done: set<nat>, vp: nat, cached: bool,
                  plugin: nat)
    requires PluginOk(plugin) && Switched(was, mid, done, cached, plugin)
    requires vp < PAGE_COUNT && vp !in done && Seen(vp, plugin) && |now| == |mid|
    requires forall t :: 0 <= t < |mid| ==> now[t] == mid[t][vp := Flip(mid[t][vp], vp, cached, plugin)]
    ensures Switched(was, now, done + {vp}, cached, plugin)
  {
  }

  /** No table shows a page of [first, first + n) elsewhere than where marking reaches it. */
  ghost predicate ShownInPlace(tables: seq<PageTable>, first: nat, n: nat, plugin: nat) {
    forall t, vp :: 0 <= t < |tables| && 0 <= vp < PAGE_COUNT && tables[t][vp].pointer.Some? && !Seen(vp, plugin) ==>
      NotAmong(tables[t][vp].pointer.value, first, n)
  }

  ghost predicate NotAmong(cell: nat, first: nat, n: nat) {
    forall c :: cell <= c < cell + PAGE_SIZE ==> !(first <= PhysOf(c) / PAGE_SIZE < first + n)
  }

  /** Marking other pages, or unmarking, leaves a guard standing. */
  lemma GuardStays(cell: nat, wasMarks: set<nat>, marks: set<nat>, first: nat, n: nat, cached: bool, plugin: nat)
    requires PluginOk(plugin) && GuardedCells(cell, wasMarks, plugin)
    requires Marked(wasMarks, marks, Reach(first, n, plugin), cached) && (cached ==> NotAmong(cell, first, n))
    ensures GuardedCells(cell, marks, plugin)
  {
    forall c | cell <= c < cell + PAGE_SIZE ensures Guarded(PhysOf(c) / PAGE_SIZE, marks, plugin) {
      var pp := PhysOf(c) / PAGE_SIZE;
      assert Guarded(pp, wasMarks, plugin);
      if GpuPage(pp) {
        var w :| w in Aliases(pp, plugin) && w !in wasMarks;
        AliasReached(pp, w, first, n, plugin);
        assert w !in marks;
      }
    }
  }

  lemma EntryFlipOk(e: Entry, vp: nat, wasMarks: set<nat>, marks: set<nat>, plugin: nat, cells: nat, first: nat, n: nat,
                    cached: bool)
    requires PluginOk(plugin) && EntryOk(e, vp, wasMarks, cells) && cells >= FCRAM_CELLS + VRAM_CELLS && vp < PAGE_COUNT
    requires e.pointer.Some? ==> Mapped(wasMarks, vp, e.pointer.value, plugin)
    requires Marked(wasMarks, marks, Reach(first, n, plugin), cached)
    requires cached && e.pointer.Some? && !Seen(vp, plugin) ==> NotAmong(e.pointer.value, first, n)
    ensures var r := if vp in Reach(first, n, plugin) then FlipSeen(e, vp, cached, plugin) else e;
            EntryOk(r, vp, marks, cells) && (r.pointer.Some? ==> Mapped(marks, vp, r.pointer.value, plugin))
  {
    if Seen(vp, plugin) {
      WindowInRange(vp, plugin);
    } else if e.pointer.Some? {
      GuardStays(e.pointer.value, wasMarks, marks, first, n, cached, plugin);
    }
  }

  lemma TablesStayOk(was: seq<PageTable>, now: seq<PageTable>, wasMarks: set<nat>, marks: set<nat>, plugin: nat,
                     cells: nat, first: nat, n: nat, cached: bool)
    requires PluginOk(plugin) && TablesOk(was, wasMarks, cells) && MappingsOk(was, wasMarks, plugin)
    requires cells >= FCRAM_CELLS + VRAM_CELLS && (cached ==> ShownInPlace(was, first, n, plugin))
    requires Marked(wasMarks, marks, Reach(first, n, plugin), cached)
    requires Switched(was, now, Reach(first, n, plugin), cached, plugin)
    ensures TablesOk(now, marks, cells) && MappingsOk(now, marks, plugin)
  {
    forall t, vp | 0 <= t < |now| && 0 <= vp < PAGE_COUNT
      ensures EntryOk(now[t][vp], vp, marks, cells)
      ensures now[t][vp].pointer.Some? ==> Mapped(marks, vp, now[t][vp].pointer.value, plugin)
    {
      assert EntryOk(was[t][vp], vp, wasMarks, cells);
      assert was[t][vp].pointer.Some? ==> Mapped(wasMarks, vp, was[t][vp].pointer.value, plugin);
      EntryFlipOk(was[t][vp], vp, wasMarks, marks, plugin, cells, first, n, cached);
    }
  }

  lemma AliasReached(pp: nat, w: nat, first: nat, n: nat, plugin: nat)
    requires PluginOk(plugin) && w in Aliases(pp, plugin)
    ensures WindowPhys(w, plugin) == Some(pp) && Seen(w, plugin)
    ensures w in Reach(first, n, plugin) <==> first <= pp < first + n
  {
    AliasesShowThePage(pp, w, plugin);
  }

  /** Marking keeps all aliases of a page in step, and never leaves dirty bytes unmarked. */
  lemma MarksStayOk(wasMarks: set<nat>, marks: set<nat>, overlay: Overlay, plugin: nat, first: nat, n: nat, cached: bool)
    requires PluginOk(plugin) && MarksOk(wasMarks, plugin) && DirtyOk(overlay, wasMarks, plugin)
    requires Marked(wasMarks, marks, Reach(first, n, plugin), cached)
    requires !cached ==> forall p :: p in overlay ==> !(first <= p / PAGE_SIZE < first + n)
    ensures MarksOk(marks, plugin) && DirtyOk(overlay, marks, plugin)
  {
    forall vp | vp in marks
      ensures Seen(vp, plugin) && forall w :: w in Aliases(WindowPhys(vp, plugin).value, plugin) ==> w in marks
    {
      var pp := WindowPhys(vp, plugin).value;
      AliasReached(pp, vp, first, n, plugin);
      forall w | w in Aliases(pp, plugin) ensures w in marks {
        AliasReached(pp, w, first, n, plugin);
      }
    }
    forall p, w | p in overlay && w in Aliases(p / PAGE_SIZE, plugin) ensures w in marks {
      AliasReached(p / PAGE_SIZE, w, first, n, plugin);
    }
  }

  lemma ReachNextAt(first: nat, i: nat, plugin: nat, vp: nat)
    requires PluginOk(plugin)
    ensures vp in Reach(first, i + 1, plugin) <==>
              vp in Reach(first, i, plugin) || vp in Aliases(first + i, plugin)
    ensures vp in Aliases(first + i, plugin) ==> vp !in Reach(first, i, plugin)
  {
    AliasesShowThePage(first + i, vp, plugin);
    if Seen(vp, plugin) { AliasesShowThePage(WindowPhys(vp, plugin).value, vp, plugin); }
  }

  lemma ReachNext(first: nat, i: nat, plugin: nat)
    requires PluginOk(plugin)
    ensures forall vp: nat :: vp in Reach(first, i + 1, plugin) <==>
              vp in Reach(first, i, plugin) || vp in Aliases(first + i, plugin)
    ensures forall vp: nat :: vp in Aliases(first + i, plugin) ==> vp !in Reach(first, i, plugin)
  {
    forall vp: nat
      ensures vp in Reach(first, i + 1, plugin) <==>
                vp in Reach(first, i, plugin) || vp in Aliases(first + i, plugin)
      ensures vp in Aliases(first + i, plugin) ==> vp !in Reach(first, i, plugin)
    {
      ReachNextAt(first, i, plugin, vp);
    }
  }

  /** No table has the page in the state it is switched to; the source calls that unreachable. */
  predicate CanSwitch(tables: seq<PageTable>, vp: nat, cached: bool)
  {
    vp < PAGE_COUNT && forall t :: 0 <= t < |tables| ==>
      if cached then !tables[t][vp].kind.Cached? else !tables[t][vp].kind.Memory?
  }

  class MemorySystem {
    const plugin: nat
    var host: seq<Byte>
    var overlay: Overlay
    var marks: set<nat>
    var tables: seq<PageTable>

    ghost predicate Valid()
      reads this
    {
      && PluginOk(plugin) && |host| >= FCRAM_CELLS + VRAM_CELLS
      && TablesOk(tables, marks, |host|) && MarksOk(marks, plugin) && DirtyOk(overlay, marks, plugin)
      && MappingsOk(tables, marks, plugin)
    }

    /** The logical memory. */
    ghost function Logical(): seq<Byte>
      reads this
    {
      View(host, overlay)
    }

    constructor (plugin: nat, host: seq<Byte>)
      requires PluginOk(plugin) && |host| >= FCRAM_CELLS + VRAM_CELLS
      ensures Valid() && this.plugin == plugin && tables == [] && Logical() == host
    {
      this.plugin, this.host := plugin, host;
      overlay, marks, tables := map[], {}, [];
    }

    /** A table may be registered at any time if its entries fit the marks. */
    method RegisterPageTable(table: PageTable)
      requires Valid()
      requires forall vp :: 0 <= vp < PAGE_COUNT ==>
                 EntryOk(table[vp], vp, marks, |host|)
                 && (table[vp].pointer.Some? ==> Mapped(marks, vp, table[vp].pointer.value, plugin))
      modifies this
      ensures Valid() && tables == old(tables) + [table] && Logical() == old(Logical())
    {
      tables := tables + [table];
    }

    /** One `CheckRegion` of `RasterizerFlushVirtualRegion`. */
    method CheckRegion(start: nat, end: nat, mode: FlushMode, window: nat, windowEnd: nat, phys: nat)
      requires window < windowEnd
      modifies this`host, this`overlay
      ensures |host| == |old(host)|
      ensures forall p :: (p in overlay <==> p in old(overlay) && !InWindow(start, end, window, windowEnd, phys, p))
                          && (p in overlay ==> overlay[p] == old(overlay)[p])
      ensures if mode.Invalidate? then host == old(host) else Logical() == old(Logical())
    {
      if start >= windowEnd || end <= window {
        return;
      }
      var lo := if start < window then window else start;
      var hi := if end < windowEnd then end else windowEnd;
      if lo < hi {
        var physStart := phys + (lo - window);
        var physEnd := physStart + (hi - lo);
        WriteBackKeepsView(host, overlay, physStart, physEnd);
        if !mode.Invalidate? {
          host := WriteBack(host, overlay, physStart, physEnd);
        }
        overlay := Forget(overlay, physStart, physEnd);
      }
    }

    /** Flushes or invalidates exactly what is shown in the virtual range. */
    method RasterizerFlushVirtualRegion(start: nat, size: nat, mode: FlushMode)
      modifies this`host, this`overlay
      ensures |host| == |old(host)| && Forgotten(old(overlay), overlay, start, (start + size) % 0x1_0000_0000, plugin)
      ensures if mode.Invalidate? then host == old(host) else Logical() == old(Logical())
    {
      var end := (start + size) % 0x1_0000_0000;
      CheckRegion(start, end, mode, LINEAR * PAGE_SIZE, LINEAR_END * PAGE_SIZE, FCRAM * PAGE_SIZE);
      CheckRegion(start, end, mode, NEW_LINEAR * PAGE_SIZE, NEW_LINEAR_END * PAGE_SIZE, FCRAM * PAGE_SIZE);
      CheckRegion(start, end, mode, VRAM_WINDOW * PAGE_SIZE, VRAM_WINDOW_END * PAGE_SIZE, VRAM * PAGE_SIZE);
      if plugin != 0 {
        CheckRegion(start, end, mode, PLUGIN_WINDOW * PAGE_SIZE, PLUGIN_WINDOW_END * PAGE_SIZE, plugin * PAGE_SIZE);
      }
    }

    /** The cells behind a cached page, with nothing dirty left among the accessed ones. */
    method AccessCached(t: nat, vaddr: nat, n: nat, mode: FlushMode) returns (at: nat)
      requires Valid() && t < |tables| && n > 0 && vaddr + n <= PAGE_COUNT * PAGE_SIZE
      requires vaddr % PAGE_SIZE + n <= PAGE_SIZE && tables[t][vaddr / PAGE_SIZE].kind.Cached?
      modifies this`host, this`overlay
      ensures Valid() && |host| == |old(host)|
      ensures if mode.Invalidate? then host == old(host) else Logical() == old(Logical())
      ensures CellAt(tables[t], vaddr, plugin) == Some(at) && at + n <= |host|
      ensures forall c :: at <= c < at + n ==> PhysOf(c) !in overlay
      ensures forall c :: 0 <= c < |host| && !(at <= c < at + n) ==>
                ViewAt(old(host), overlay, c) == ViewAt(old(host), old(overlay), c) || !mode.Invalidate?
    {
      var vp := vaddr / PAGE_SIZE;
      assert EntryOk(tables[t][vp], vp, marks, |host|);
      assert Seen(vp, plugin);
      RasterizerFlushVirtualRegion(vaddr, n, mode);
      ShrinkOk(marks, old(overlay), overlay, plugin);
      WindowInRange(vp, plugin);
      at := CellOf(WindowPhys(vp, plugin).value) + vaddr % PAGE_SIZE;
      CellsOfPage(WindowPhys(vp, plugin).value, vaddr % PAGE_SIZE + n - 1);
      ForgottenCells(old(overlay), overlay, vaddr, n, plugin);
    }

    /** A plain page shows its host memory. */
    lemma PlainBytes(t: nat, vaddr: nat, n: nat)
      requires Valid() && t < |tables| && n > 0 && vaddr + n <= PAGE_COUNT * PAGE_SIZE
      requires vaddr % PAGE_SIZE + n <= PAGE_SIZE && tables[t][vaddr / PAGE_SIZE].kind.Memory?
      ensures tables[t][vaddr / PAGE_SIZE].pointer.Some?
      ensures var at := FastCell(tables[t], vaddr);
              at + n <= |host| && host[at..at + n] == PeekAll(Logical(), tables[t], vaddr, n, plugin)
    {
      var vp := vaddr / PAGE_SIZE;
      assert EntryOk(tables[t][vp], vp, marks, |host|);
      var at := FastCell(tables[t], vaddr);
      MemoryIsClean(tables, marks, overlay, plugin, |host|, t, vp);
      PeekCells(Logical(), tables[t], vaddr, n, plugin, at);
      CleanBytes(host, overlay, at, n);
    }

    /** Writing to it is a guest's write. */
    lemma PlainStore(t: nat, vaddr: nat, data: seq<Byte>)
      requires Valid() && t < |tables| && data != [] && vaddr + |data| <= PAGE_COUNT * PAGE_SIZE
      requires vaddr % PAGE_SIZE + |data| <= PAGE_SIZE && tables[t][vaddr / PAGE_SIZE].kind.Memory?
      ensures tables[t][vaddr / PAGE_SIZE].pointer.Some?
      ensures var at := FastCell(tables[t], vaddr);
              at + |data| <= |host|
              && View(Splice(host, at, data), overlay) == PokeAll(Logical(), tables[t], vaddr, data, plugin)
    {
      var vp := vaddr / PAGE_SIZE;
      assert EntryOk(tables[t][vp], vp, marks, |host|);
      var at := FastCell(tables[t], vaddr);
      MemoryIsClean(tables, marks, overlay, plugin, |host|, t, vp);
      PokeIsSplice(Logical(), tables[t], vaddr, data, plugin, at);
      SpliceView(host, overlay, overlay, at, data);
    }

    method ReadMemory(t: nat, vaddr: nat, n: nat) returns (bytes: seq<Byte>)
      requires Valid() && t < |tables| && n > 0 && vaddr + n <= PAGE_COUNT * PAGE_SIZE
      requires vaddr % PAGE_SIZE + n <= PAGE_SIZE && tables[t][vaddr / PAGE_SIZE].kind.Memory?
      ensures bytes == PeekAll(Logical(), tables[t], vaddr, n, plugin)
    {
      PlainBytes(t, vaddr, n);
      var at := FastCell(tables[t], vaddr);
      bytes := host[at..at + n];
    }

    method ReadCached(t: nat, vaddr: nat, n: nat) returns (bytes: seq<Byte>)
      requires Valid() && t < |tables| && n > 0 && vaddr + n <= PAGE_COUNT * PAGE_SIZE
      requires vaddr % PAGE_SIZE + n <= PAGE_SIZE && tables[t][vaddr / PAGE_SIZE].kind.Cached?
      modifies this`host, this`overlay
      ensures Valid() && |host| == |old(host)| && Logical() == old(Logical())
      ensures bytes == PeekAll(Logical(), tables[t], vaddr, n, plugin)
    {
      var at := AccessCached(t, vaddr, n, Flush);
      PeekCells(Logical(), tables[t], vaddr, n, plugin, at);
      bytes := host[at..at + n];
      CleanBytes(host, overlay, at, n);
    }

    /** The three cases of a page inside `ReadBlockImpl`. */
    method ReadPage(t: nat, vaddr: nat, n: nat) returns (bytes: seq<Byte>)
      requires Valid() && t < |tables| && n > 0 && vaddr + n <= PAGE_COUNT * PAGE_SIZE
      requires vaddr % PAGE_SIZE + n <= PAGE_SIZE
      modifies this`host, this`overlay
      ensures Valid() && |host| == |old(host)| && Logical() == old(Logical())
      ensures bytes == PeekAll(Logical(), tables[t], vaddr, n, plugin)
    {
      match tables[t][vaddr / PAGE_SIZE].kind {
        case Unmapped =>
          PeekUnmapped(Logical(), tables[t], vaddr, n, plugin);
          bytes := Zeros(n);
        case Memory => bytes := ReadMemory(t, vaddr, n);
        case Cached => bytes := ReadCached(t, vaddr, n);
      }
    }

    method WriteMemory(t: nat, vaddr: nat, data: seq<Byte>)
      requires Valid() && t < |tables| && data != [] && vaddr + |data| <= PAGE_COUNT * PAGE_SIZE
      requires vaddr % PAGE_SIZE + |data| <= PAGE_SIZE && tables[t][vaddr / PAGE_SIZE].kind.Memory?
      modifies this`host
      ensures Valid() && |host| == |old(host)|
      ensures Logical() == PokeAll(old(Logical()), tables[t], vaddr, data, plugin)
    {
      PlainStore(t, vaddr, data);
      host := Splice(host, FastCell(tables[t], vaddr), data);
    }

    method WriteCached(t: nat, vaddr: nat, data: seq<Byte>)
      requires Valid() && t < |tables| && data != [] && vaddr + |data| <= PAGE_COUNT * PAGE_SIZE
      requires vaddr % PAGE_SIZE + |data| <= PAGE_SIZE && tables[t][vaddr / PAGE_SIZE].kind.Cached?
      modifies this`host, this`overlay
      ensures Valid() && |host| == |old(host)|
      ensures Logical() == PokeAll(old(Logical()), tables[t], vaddr, data, plugin)
    {
      var at := AccessCached(t, vaddr, |data|, Invalidate);
      PokeIsSplice(old(Logical()), tables[t], vaddr, data, plugin, at);
      SpliceView(host, old(overlay), overlay, at, data);
      host := Splice(host, at, data);
    }

    /** The three cases of a page inside `WriteBlockImpl`. */
    method WritePage(t: nat, vaddr: nat, data: seq<Byte>)
      requires Valid() && t < |tables| && data != [] && vaddr + |data| <= PAGE_COUNT * PAGE_SIZE
      requires vaddr % PAGE_SIZE + |data| <= PAGE_SIZE
      modifies this`host, this`overlay
      ensures Valid() && |host| == |old(host)|
      ensures Logical() == PokeAll(old(Logical()), tables[t], vaddr, data, plugin)
    {
      match tables[t][vaddr / PAGE_SIZE].kind {
        case Unmapped => PokeUnmapped(Logical(), tables[t], vaddr, data, plugin);
        case Memory => WriteMemory(t, vaddr, data);
        case Cached => WriteCached(t, vaddr, data);
      }
    }

    /** A guest load of `n` bytes. Through a pointer it may run on into the next host page. */
    method Read(t: nat, vaddr: nat, n: nat) returns (r: Access)
      requires Valid() && t < |tables| && n > 0 && vaddr + n <= PAGE_COUNT * PAGE_SIZE
      requires vaddr % PAGE_SIZE + n <= PAGE_SIZE || Crosses(tables[t], vaddr, n, |host|)
      modifies this`host, this`overlay
      ensures Valid() && |host| == |old(host)| && Logical() == old(Logical())
      ensures if vaddr % PAGE_SIZE + n <= PAGE_SIZE then r == Loaded(old(host), Logical(), tables[t], vaddr, n, plugin)
              else r == Data(old(host)[FastCell(tables[t], vaddr)..FastCell(tables[t], vaddr) + n])
    {
      var vp := vaddr / PAGE_SIZE;
      assert EntryOk(tables[t][vp], vp, marks, |host|);
      if tables[t][vp].pointer.Some? {
        if vaddr % PAGE_SIZE + n <= PAGE_SIZE { PlainBytes(t, vaddr, n); }
        var at := tables[t][vp].pointer.value + vaddr % PAGE_SIZE;
        return Data(host[at..at + n]);
      }
      if vaddr >= 0x8000_0000 {
        var paddr := vaddr - 0x8000_0000;
        if paddr / 0x1000_0000 == 2 {
          return Data(host[paddr - 0x2000_0000..paddr - 0x2000_0000 + n]);
        } else if paddr / 0x1000_0000 == 1 && paddr >= 0x1010_0000 {
          return Register(paddr - 0x1010_0000 + 0x1EC0_0000);
        }
      }
      var bytes := ReadPage(t, vaddr, n);
      r := Data(bytes);
    }

    /** A guest store; one to a GPU register is handed out. */
    method Write(t: nat, vaddr: nat, data: seq<Byte>) returns (register: Option<nat>)
      requires Valid() && t < |tables| && data != [] && vaddr + |data| <= PAGE_COUNT * PAGE_SIZE
      requires vaddr % PAGE_SIZE + |data| <= PAGE_SIZE || Crosses(tables[t], vaddr, |data|, |host|)
      modifies this`host, this`overlay
      ensures Valid() && |host| == |old(host)|
      ensures vaddr % PAGE_SIZE + |data| > PAGE_SIZE ==>
                register.None? && overlay == old(overlay) && host == Splice(old(host), FastCell(tables[t], vaddr), data)
      ensures var luma := tables[t][vaddr / PAGE_SIZE].pointer.None?;
              if luma && InLumaFcram(vaddr) then
                register.None? && overlay == old(overlay) && host == Splice(old(host), vaddr - 0xA000_0000, data)
              else if luma && InLumaIo(vaddr) then
                register == Some(vaddr - 0x9010_0000 + 0x1EC0_0000) && Logical() == old(Logical())
              else
                register.None?
                && (vaddr % PAGE_SIZE + |data| <= PAGE_SIZE ==>
                      Logical() == PokeAll(old(Logical()), tables[t], vaddr, data, plugin))
    {
      var vp := vaddr / PAGE_SIZE;
      assert EntryOk(tables[t][vp], vp, marks, |host|);
      register := None;
      if tables[t][vp].pointer.Some? {
        if vaddr % PAGE_SIZE + |data| <= PAGE_SIZE { PlainStore(t, vaddr, data); }
        host := Splice(host, tables[t][vp].pointer.value + vaddr % PAGE_SIZE, data);
        return;
      }
      if vaddr >= 0x8000_0000 {
        var paddr := vaddr - 0x8000_0000;
        if paddr / 0x1000_0000 == 2 {
          host := Splice(host, paddr - 0x2000_0000, data);
          return;
        } else if paddr / 0x1000_0000 == 1 && paddr >= 0x1010_0000 {
          return Some(paddr - 0x1010_0000 + 0x1EC0_0000);
        }
      }
      WritePage(t, vaddr, data);
    }

    /** One pass of the loop of `ReadBlockImpl`: `n` bytes at `at` behind what was read so far. */
    method ReadNext(t: nat, src: nat, dest: seq<Byte>, at: nat, n: nat) returns (all: seq<Byte>)
      requires Valid() && t < |tables| && at + n <= PAGE_COUNT * PAGE_SIZE && n > 0
      requires at % PAGE_SIZE + n <= PAGE_SIZE && at == src + |dest|
      requires dest == PeekAll(Logical(), tables[t], src, |dest|, plugin)
      modifies this`host, this`overlay
      ensures Valid() && |host| == |old(host)| && Logical() == old(Logical())
      ensures |all| == |dest| + n && all == PeekAll(Logical(), tables[t], src, |all|, plugin)
    {
      PeekAllSplit(Logical(), tables[t], src, |dest|, n, plugin);
      var bytes := ReadPage(t, at, n);
      all := dest + bytes;
    }

    /** `ReadBlock` reads what the guest would, byte by byte, through all its pages. */
    method ReadBlock(t: nat, src: nat, size: nat) returns (dest: seq<Byte>)
      requires Valid() && t < |tables| && src + size <= PAGE_COUNT * PAGE_SIZE
      modifies this`host, this`overlay
      ensures Valid() && |host| == |old(host)| && Logical() == old(Logical())
      ensures dest == PeekAll(Logical(), tables[t], src, size, plugin)
    {
      dest := [];
      var remaining: nat, pageIndex: nat, pageOffset: nat := size, src / PAGE_SIZE, src % PAGE_SIZE;
      while remaining > 0
        invariant Valid() && |host| == |old(host)| && Logical() == old(Logical())
        invariant remaining <= size && |dest| == size - remaining && pageOffset < PAGE_SIZE
        invariant remaining > 0 ==> src + |dest| == pageIndex * PAGE_SIZE + pageOffset
        invariant dest == PeekAll(Logical(), tables[t], src, |dest|, plugin)
      {
        var copyAmount := Least(PAGE_SIZE - pageOffset, remaining);
        InPage(pageIndex, pageOffset);
        dest := ReadNext(t, src, dest, pageIndex * PAGE_SIZE + pageOffset, copyAmount);
        pageIndex, pageOffset, remaining := pageIndex + 1, 0, remaining - copyAmount;
      }
    }

    /** One pass of the loop of `WriteBlockImpl`: the bytes [done, done + n) go to `at`. */
    method WriteNext(t: nat, dest: nat, data: seq<Byte>, done: nat, at: nat, n: nat, ghost view: seq<Byte>)
      requires Valid() && t < |tables| && dest + |data| <= PAGE_COUNT * PAGE_SIZE && done + n <= |data| && n > 0
      requires at % PAGE_SIZE + n <= PAGE_SIZE && at == dest + done
      requires Logical() == PokeAll(view, tables[t], dest, data[..done], plugin)
      modifies this`host, this`overlay
      ensures Valid() && |host| == |old(host)|
      ensures Logical() == PokeAll(view, tables[t], dest, data[..done + n], plugin)
    {
      ghost var was := Logical();
      WritePage(t, at, data[done..done + n]);
      WriteStepOn(view, was, Logical(), tables[t], dest, data, done, n, plugin);
    }

    /** `WriteBlock` writes what the guest would, byte by byte. */
    method WriteBlock(t: nat, dest: nat, data: seq<Byte>)
      requires Valid() && t < |tables| && dest + |data| <= PAGE_COUNT * PAGE_SIZE
      modifies this`host, this`overlay
      ensures Valid() && |host| == |old(host)|
      ensures Logical() == PokeAll(old(Logical()), tables[t], dest, data, plugin)
    {
      ghost var view := Logical();
      var done: nat, pageIndex: nat, pageOffset: nat := 0, dest / PAGE_SIZE, dest % PAGE_SIZE;
      while done < |data|
        invariant Valid() && |host| == |old(host)|
        invariant done <= |data| && pageOffset < PAGE_SIZE
        invariant done < |data| ==> dest + done == pageIndex * PAGE_SIZE + pageOffset
        invariant Logical() == PokeAll(view, tables[t], dest, data[..done], plugin)
      {
        var copyAmount := Least(PAGE_SIZE - pageOffset, |data| - done);
        InPage(pageIndex, pageOffset);
        WriteNext(t, dest, data, done, pageIndex * PAGE_SIZE + pageOffset, copyAmount, view);
        pageIndex, pageOffset, done := pageIndex + 1, 0, done + copyAmount;
      }
      assert data[..done] == data;
    }

    /** One pass of the loop of `ZeroBlock`: `n` zeros at `at` behind `done` of them. */
    method ZeroNext(t: nat, dest: nat, done: nat, at: nat, n: nat, ghost view: seq<Byte>)
      requires Valid() && t < |tables| && at + n <= PAGE_COUNT * PAGE_SIZE && n > 0
      requires at % PAGE_SIZE + n <= PAGE_SIZE && at == dest + done
      requires Logical() == PokeAll(view, tables[t], dest, Zeros(done), plugin)
      modifies this`host, this`overlay
      ensures Valid() && |host| == |old(host)|
      ensures Logical() == PokeAll(view, tables[t], dest, Zeros(done + n), plugin)
    {
      WritePage(t, at, Zeros(n));
      ZeroStep(view, tables[t], dest, done, n, plugin);
    }

    /** `ZeroBlock` writes zeros, as the guest would byte by byte. */
    method ZeroBlock(t: nat, dest: nat, size: nat)
      requires Valid() && t < |tables| && dest + size <= PAGE_COUNT * PAGE_SIZE
      modifies this`host, this`overlay
      ensures Valid() && |host| == |old(host)|
      ensures Logical() == PokeAll(old(Logical()), tables[t], dest, Zeros(size), plugin)
    {
      ghost var view := Logical();
      assert Zeros(0) == [];
      var done: nat, pageIndex: nat, pageOffset: nat := 0, dest / PAGE_SIZE, dest % PAGE_SIZE;
      while done < size
        invariant Valid() && |host| == |old(host)|
        invariant done <= size && pageOffset < PAGE_SIZE
        invariant done < size ==> dest + done == pageIndex * PAGE_SIZE + pageOffset
        invariant Logical() == PokeAll(view, tables[t], dest, Zeros(done), plugin)
      {
        var amount := Least(PAGE_SIZE - pageOffset, size - done);
        InPage(pageIndex, pageOffset);
        ZeroNext(t, dest, done, pageIndex * PAGE_SIZE + pageOffset, amount, view);
        pageIndex, pageOffset, done := pageIndex + 1, 0, done + amount;
      }
    }

    /** One pass of the loop of `CopyBlock`: `n` bytes from `at`, inside one source page. */
    method CopyNext(destTable: nat, srcTable: nat, dest: nat, src: nat, size: nat, done: nat, at: nat, n: nat,
                    ghost view: seq<Byte>)
      requires Valid() && destTable < |tables| && srcTable < |tables| && n > 0 && done + n <= size
      requires dest + size <= PAGE_COUNT * PAGE_SIZE && src + size <= PAGE_COUNT * PAGE_SIZE
      requires at % PAGE_SIZE + n <= PAGE_SIZE && at == src + done
      requires CopiesOn(view, tables[srcTable], src, tables[destTable], dest, size, done, n, plugin)
      requires Logical() == CopiedUpTo(view, tables[srcTable], src, tables[destTable], dest, size, done, plugin)
      modifies this`host, this`overlay
      ensures Valid() && |host| == |old(host)|
      ensures Logical() == CopiedUpTo(view, tables[srcTable], src, tables[destTable], dest, size, done + n, plugin)
    {
      ghost var was := Logical();
      CopyPage(destTable, srcTable, dest + done, at, n);
      CopyStepOn(view, was, Logical(), tables[srcTable], src, tables[destTable], dest, size, done, n, plugin);
    }

    /** The loop of `CopyBlock`. */
    method CopyPages(destTable: nat, srcTable: nat, dest: nat, src: nat, size: nat, ghost view: seq<Byte>)
      requires Valid() && destTable < |tables| && srcTable < |tables|
      requires dest + size <= PAGE_COUNT * PAGE_SIZE && src + size <= PAGE_COUNT * PAGE_SIZE
      requires forall k: nat, n: nat :: k + n <= size ==>
                 CopiesOn(view, tables[srcTable], src, tables[destTable], dest, size, k, n, plugin)
      requires Logical() == CopiedUpTo(view, tables[srcTable], src, tables[destTable], dest, size, 0, plugin)
      modifies this`host, this`overlay
      ensures Valid() && |host| == |old(host)|
      ensures Logical() == CopiedUpTo(view, tables[srcTable], src, tables[destTable], dest, size, size, plugin)
    {
      var done: nat, pageIndex: nat, pageOffset: nat := 0, src / PAGE_SIZE, src % PAGE_SIZE;
      while done < size
        invariant Valid() && |host| == |old(host)|
        invariant done <= size && pageOffset < PAGE_SIZE
        invariant done < size ==> src + done == pageIndex * PAGE_SIZE + pageOffset
        invariant Logical() == CopiedUpTo(view, tables[srcTable], src, tables[destTable], dest, size, done, plugin)
      {
        var copyAmount := Least(PAGE_SIZE - pageOffset, size - done);
        InPage(pageIndex, pageOffset);
        CopyNext(destTable, srcTable, dest, src, size, done, pageIndex * PAGE_SIZE + pageOffset, copyAmount, view);
        pageIndex, pageOffset, done := pageIndex + 1, 0, done + copyAmount;
      }
    }

    /** `CopyBlock` between ranges without common cells is a read, then a write; unmapped
        source pages read as zero. */
    method CopyBlock(destTable: nat, srcTable: nat, dest: nat, src: nat, size: nat)
      requires Valid() && destTable < |tables| && srcTable < |tables|
      requires dest + size <= PAGE_COUNT * PAGE_SIZE && src + size <= PAGE_COUNT * PAGE_SIZE
      requires Disjoint(tables[srcTable], src, tables[destTable], dest, size, plugin)
      modifies this`host, this`overlay
      ensures Valid() && |host| == |old(host)|
      ensures Logical() == PokeAll(old(Logical()), tables[destTable], dest,
                                   PeekAll(old(Logical()), tables[srcTable], src, size, plugin), plugin)
    {
      ghost var view := Logical();
      CopyEnds(view, tables[srcTable], src, tables[destTable], dest, size, plugin);
      forall k: nat, n: nat | k + n <= size
        ensures CopiesOn(view, tables[srcTable], src, tables[destTable], dest, size, k, n, plugin)
      {
        CopyStep(view, tables[srcTable], src, tables[destTable], dest, size, k, n, plugin);
      }
      CopyPages(destTable, srcTable, dest, src, size, view);
    }

    /** The three cases of a source page inside `CopyBlock`. */
    method CopyPage(destTable: nat, srcTable: nat, dest: nat, src: nat, n: nat)
      requires Valid() && destTable < |tables| && srcTable < |tables| && n > 0
      requires dest + n <= PAGE_COUNT * PAGE_SIZE && src + n <= PAGE_COUNT * PAGE_SIZE
      requires src % PAGE_SIZE + n <= PAGE_SIZE
      modifies this`host, this`overlay
      ensures Valid() && |host| == |old(host)|
      ensures Logical() == PokeAll(old(Logical()), tables[destTable], dest,
                                   PeekAll(old(Logical()), tables[srcTable], src, n, plugin), plugin)
    {
      if tables[srcTable][src / PAGE_SIZE].kind.Unmapped? {
        PeekUnmapped(Logical(), tables[srcTable], src, n, plugin);
        ZeroBlock(destTable, dest, n);
      } else {
        var read := ReadPage(srcTable, src, n);
        WriteBlock(destTable, dest, read);
      }
    }

    /** `MapMemoryRegion` (kind `Memory`) and `UnmapRegion` (kind `Unmapped`, no memory). Pages
        that are marked come up cached. */
    method MapPages(t: nat, base: nat, size: nat, memory: Ref, kind: PageType, poweredOn: bool)
      requires Valid() && t < |tables| && base + size <= PAGE_COUNT
      requires kind.Memory? || (kind.Unmapped? && memory.Null?)
      requires kind.Memory? ==> Fits(memory, base, size, marks, plugin, |host|)
      modifies this`host, this`overlay, this`tables
      ensures Valid() && |host| == |old(host)| && Logical() == old(Logical())
      ensures |tables| == |old(tables)| && forall u :: 0 <= u < |tables| && u != t ==> tables[u] == old(tables)[u]
      ensures forall vp :: 0 <= vp < PAGE_COUNT ==>
                tables[t][vp] == if base <= vp < base + size then MappedEntry(vp, kind, Nth(memory, vp - base), marks)
                                 else old(tables)[t][vp]
    {
      if poweredOn {
        RasterizerFlushVirtualRegion(base * PAGE_SIZE % 0x1_0000_0000, size * PAGE_SIZE % 0x1_0000_0000,
                                     FlushAndInvalidate);
        ShrinkOk(marks, old(overlay), overlay, plugin);
      }
      ghost var was := tables;
      var table: seq<Entry> := tables[t];
      var ref := memory;
      for vp := base to base + size
        invariant |table| == PAGE_COUNT && ref == Nth(memory, vp - base)
        invariant forall w :: 0 <= w < PAGE_COUNT ==>
                    table[w] == if base <= w < vp then MappedEntry(w, kind, Nth(memory, w - base), marks) else was[t][w]
      {
        table := table[vp := Entry(kind, Pointer(ref))];
        if kind.Memory? && vp in marks {
          table := table[vp := Entry(Cached, None)];
        }
        ref := Next(ref);
      }
      tables := tables[t := table];
      MapOk(was, tables, t, base, size, memory, kind, marks, plugin, |host|);
    }

    /** Marks one window page and switches it in every registered table. */
    method MarkPage(vp: nat, cached: bool)
      requires PluginOk(plugin) && Seen(vp, plugin) && vp < PAGE_COUNT
      requires CanSwitch(tables, vp, cached)
      modifies this`marks, this`tables
      ensures marks == if cached then old(marks) + {vp} else old(marks) - {vp}
      ensures |tables| == |old(tables)|
      ensures forall t :: 0 <= t < |tables| ==>
                tables[t] == old(tables)[t][vp := Flip(old(tables)[t][vp], vp, cached, plugin)]
    {
      marks := if cached then marks + {vp} else marks - {vp};
      for t := 0 to |tables|
        invariant marks == if cached then old(marks) + {vp} else old(marks) - {vp}
        invariant |tables| == |old(tables)|
        invariant forall u :: 0 <= u < t ==> tables[u] == old(tables)[u][vp := Flip(old(tables)[u][vp], vp, cached, plugin)]
        invariant forall u :: t <= u < |tables| ==> tables[u] == old(tables)[u]
      {
        var table := tables[t];
        if cached {
          match table[vp].kind {
            case Unmapped =>
            case Memory => table := table[vp := Entry(Cached, None)];
            case Cached => assert false;
          }
        } else {
          match table[vp].kind {
            case Unmapped =>
            case Cached =>
              WindowInRange(vp, plugin);
              table := table[vp := Entry(Memory, Some(CellOf(WindowPhys(vp, plugin).value)))];
            case Memory => assert false;
          }
        }
        tables := tables[t := table];
      }
    }

    /** The rasterizer (un)marks a physical region. It does not ask again for pages some table has
        switched already, marks no page that a table shows elsewhere, and unmarks no dirty page. */
    method RasterizerMarkRegionCached(start: nat, size: nat, cached: bool)
      requires Valid() && start + size <= 0x1_0000_0000
      requires forall vp :: vp in Reach(start / PAGE_SIZE, PageSpan(start, size), plugin) ==> CanSwitch(tables, vp, cached)
      requires cached ==> ShownInPlace(tables, start / PAGE_SIZE, PageSpan(start, size), plugin)
      requires !cached ==> forall p :: p in overlay ==> !InSpan(p / PAGE_SIZE, start, size)
      modifies this`marks, this`tables
      ensures Valid()
      ensures Marked(old(marks), marks, Reach(start / PAGE_SIZE, PageSpan(start, size), plugin), cached)
      ensures Switched(old(tables), tables, Reach(start / PAGE_SIZE, PageSpan(start, size), plugin), cached, plugin)
    {
      if start == 0 {
        return;
      }
      var first := start / PAGE_SIZE;
      var numPages := (start + size - 1) / PAGE_SIZE - first + 1;
      for i := 0 to numPages
        invariant Marked(old(marks), marks, Reach(first, i, plugin), cached)
        invariant Switched(old(tables), tables, Reach(first, i, plugin), cached, plugin)
      {
        ReachNext(first, i, plugin);
        MarkAliases(first, i, cached, old(marks), old(tables));
      }
      TablesStayOk(old(tables), tables, old(marks), marks, plugin, |host|, first, numPages, cached);
      MarksStayOk(old(marks), marks, overlay, plugin, first, numPages, cached);
    }

    /** The body of the loop over pages. */
    method MarkAliases(first: nat, i: nat, cached: bool, ghost wasMarks: set<nat>, ghost was: seq<PageTable>)
      requires PluginOk(plugin)
      requires Marked(wasMarks, marks, Reach(first, i, plugin), cached)
      requires Switched(was, tables, Reach(first, i, plugin), cached, plugin)
      requires forall vp :: vp in Aliases(first + i, plugin) ==> CanSwitch(was, vp, cached)
      modifies this`marks, this`tables
      ensures Marked(wasMarks, marks, Reach(first, i + 1, plugin), cached)
      ensures Switched(was, tables, Reach(first, i + 1, plugin), cached, plugin)
    {
      var aliases := Aliases(first + i, plugin);
      ghost var done := Reach(first, i, plugin);
      for j := 0 to |aliases|
        invariant forall vp :: vp in done <==> vp in Reach(first, i, plugin) || vp in aliases[..j]
        invariant Marked(wasMarks, marks, done, cached) && Switched(was, tables, done, cached, plugin)
      {
        var vp := aliases[j];
        AliasesShowThePage(first + i, vp, plugin);
        ghost var mid := tables;
        MarkFresh(vp, cached, was, done);
        SwitchOne(was, mid, tables, done, vp, cached, plugin);
        done := done + {vp};
        assert aliases[..j + 1] == aliases[..j] + [vp];
      }
      assert aliases[..|aliases|] == aliases;
      ReachNext(first, i, plugin);
      assert done == Reach(first, i + 1, plugin);
    }

    /** `MarkPage` for a page that was not reached yet. */
    method MarkFresh(vp: nat, cached: bool, ghost was: seq<PageTable>, ghost done: set<nat>)
      requires PluginOk(plugin) && Seen(vp, plugin) && vp < PAGE_COUNT && vp !in done
      requires CanSwitch(was, vp, cached)
      requires Switched(was, tables, done, cached, plugin)
      modifies this`marks, this`tables
      ensures marks == if cached then old(marks) + {vp} else old(marks) - {vp}
      ensures |tables| == |old(tables)|
      ensures forall t :: 0 <= t < |tables| ==>
                tables[t] == old(tables)[t][vp := Flip(old(tables)[t][vp], vp, cached, plugin)]
    {
      assert forall t :: 0 <= t < |tables| ==> tables[t][vp] == was[t][vp];
      MarkPage(vp, cached);
    }

    /** The GPU renders a byte: only into marked pages. */
    method Render(p: nat, b: Byte)
      requires Valid() && GpuPage(p / PAGE_SIZE)
      requires forall w :: w in Aliases(p / PAGE_SIZE, plugin) ==> w in marks
      modifies this`overlay
      ensures Valid() && overlay == old(overlay)[p := b]
      ensures Logical() == old(Logical())[CellOf(p / PAGE_SIZE) + p % PAGE_SIZE := b]
    {
      overlay := overlay[p := b];
      RenderedView(host, old(overlay), p, b);
    }
  }

  lemma RenderedView(host: seq<Byte>, overlay: Overlay, p: nat, b: Byte)
    requires |host| >= FCRAM_CELLS + VRAM_CELLS
    requires VRAM <= p / PAGE_SIZE < VRAM_END || FCRAM <= p / PAGE_SIZE < FCRAM_N3DS_END
    ensures CellOf(p / PAGE_SIZE) + p % PAGE_SIZE < |host|
    ensures View(host, overlay[p := b]) == View(host, overlay)[CellOf(p / PAGE_SIZE) + p % PAGE_SIZE := b]
  {
    CellsOfPage(p / PAGE_SIZE, p % PAGE_SIZE);
    var cell := CellOf(p / PAGE_SIZE) + p % PAGE_SIZE;
    forall c: nat | c != cell ensures PhysOf(c) != p {
    }
  }

  /** Caching a region and uncaching it again restores every page of every table. */
  lemma UncachingRestores(tables: seq<PageTable>, cached: seq<PageTable>, restored: seq<PageTable>, marks: set<nat>,
                          plugin: nat, cells: nat, first: nat, n: nat)
    requires PluginOk(plugin) && TablesOk(tables, marks, cells) && MappingsOk(tables, marks, plugin)
    requires forall vp :: vp in Reach(first, n, plugin) ==> vp !in marks
    requires Switched(tables, cached, Reach(first, n, plugin), true, plugin)
    requires Switched(cached, restored, Reach(first, n, plugin), false, plugin)
    ensures restored == tables
  {
    forall t | 0 <= t < |tables| ensures restored[t] == tables[t] {
      forall vp | 0 <= vp < PAGE_COUNT ensures restored[t][vp] == tables[t][vp] {
        assert EntryOk(tables[t][vp], vp, marks, cells);
        assert tables[t][vp].pointer.Some? ==> Mapped(marks, vp, tables[t][vp].pointer.value, plugin);
        FlipTwice(tables[t][vp], vp, marks, plugin, cells);
        assert cached[t][vp] == if vp in Reach(first, n, plugin) then FlipSeen(tables[t][vp], vp, true, plugin)
                                else tables[t][vp];
      }
    }
  }

  lemma FlipTwice(e: Entry, vp: nat, marks: set<nat>, plugin: nat, cells: nat)
    requires PluginOk(plugin) && EntryOk(e, vp, marks, cells)
    requires e.pointer.Some? ==> Mapped(marks, vp, e.pointer.value, plugin)
    ensures vp !in marks ==> FlipSeen(FlipSeen(e, vp, true, plugin), vp, false, plugin) == e
  {
  }

  /** The linear window of a plugin framebuffer page is not reached by any marking: once the
      GPU dirties the page, a table that still maps it there reads the stale host byte. */
  lemma PluginAliasGoesStale(table: PageTable, vp: nat, plugin: nat, host: seq<Byte>, b: Byte)
    requires PluginOk(plugin) && |host| >= FCRAM_CELLS + VRAM_CELLS
    requires vp < PAGE_COUNT && WindowPhys(vp, plugin).Some? && InPlugin(WindowPhys(vp, plugin).value, plugin)
    requires !(PLUGIN_WINDOW <= vp < PLUGIN_WINDOW_END)
    requires var pp := WindowPhys(vp, plugin).value; pp >= FCRAM && table[vp] == Entry(Memory, Some(CellOf(pp)))
    ensures forall first, n :: vp !in Reach(first, n, plugin)
    ensures var pp := WindowPhys(vp, plugin).value;
            host[table[vp].pointer.value] == Peek(View(host, map[pp * PAGE_SIZE := b]), table, vp * PAGE_SIZE, plugin)
            <==> host[table[vp].pointer.value] == b
  {
    var pp := WindowPhys(vp, plugin).value;
    AliasesShowThePage(pp, vp, plugin);
    CellsOfPage(pp, 0);
  }

}
