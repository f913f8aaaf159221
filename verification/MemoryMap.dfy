/**
 The fixed layout of guest memory, page-table entries, and the logical memory they show:
 host memory with the dirty bytes of the GPU's surfaces laid over it.

 Host memory is one space of cells: FCRAM first, then VRAM, then every other backing buffer.
 Pages have 0x1000 bytes; `vp` is a virtual and `pp` a physical page number.
 */
module MemoryMap {
  import opened Common

  const PAGE_SIZE: nat := 0x1000
  const PAGE_COUNT: nat := 0x10_0000

  // Virtual windows onto GPU-visible memory, in pages.
  const LINEAR: nat := 0x14000
  const LINEAR_END: nat := 0x1C000
  const NEW_LINEAR: nat := 0x30000
  const NEW_LINEAR_END: nat := 0x40000
  const VRAM_WINDOW: nat := 0x1F000
  const VRAM_WINDOW_END: nat := 0x1F600
  const PLUGIN_WINDOW: nat := 0x06000
  const PLUGIN_WINDOW_END: nat := 0x060A9
  const PLUGIN_PAGES: nat := 0xA9

  // Physical memory, in pages.
  const VRAM: nat := 0x18000
  const VRAM_END: nat := 0x18600
  const FCRAM: nat := 0x20000
  const FCRAM_END: nat := 0x28000
  const FCRAM_N3DS_END: nat := 0x30000

  const FCRAM_CELLS: nat := 0x1000_0000
  const VRAM_CELLS: nat := 0x60_0000

  /** The plugin framebuffer is off (0), or a page-aligned range of FCRAM. */
  predicate PluginOk(plugin: nat) {
    plugin == 0 || (FCRAM <= plugin && plugin + PLUGIN_PAGES <= FCRAM_N3DS_END)
  }

  /** The physical page behind a window page; `GetPointerForRasterizerCache` without the offset. */
  function WindowPhys(vp: nat, plugin: nat): Option<nat> {
    if LINEAR <= vp < LINEAR_END then Some(vp - LINEAR + FCRAM)
    else if NEW_LINEAR <= vp < NEW_LINEAR_END then Some(vp - NEW_LINEAR + FCRAM)
    else if VRAM_WINDOW <= vp < VRAM_WINDOW_END then Some(vp - VRAM_WINDOW + VRAM)
    else if PLUGIN_WINDOW <= vp < PLUGIN_WINDOW_END && plugin != 0 then Some(vp - PLUGIN_WINDOW + plugin)
    else None
  }

  predicate InPlugin(pp: nat, plugin: nat) { plugin != 0 && plugin <= pp < plugin + PLUGIN_PAGES }

  /** `PhysicalToVirtualAddressForRasterizer`. */
  function Aliases(pp: nat, plugin: nat): seq<nat> {
    if VRAM <= pp < VRAM_END then [pp - VRAM + VRAM_WINDOW]
    else if InPlugin(pp, plugin) then [pp - plugin + PLUGIN_WINDOW]
    else if FCRAM <= pp < FCRAM_END then [pp - FCRAM + LINEAR, pp - FCRAM + NEW_LINEAR]
    else if FCRAM_END <= pp < FCRAM_N3DS_END then [pp - FCRAM + NEW_LINEAR]
    else []
  }

  /** The aliases of a page are the window pages that show it, except that a page of the
      plugin framebuffer has only its plugin window: its linear windows are forgotten. */
  lemma AliasesShowThePage(pp: nat, vp: nat, plugin: nat)
    requires PluginOk(plugin)
    ensures vp in Aliases(pp, plugin) <==>
              WindowPhys(vp, plugin) == Some(pp)
              && (InPlugin(pp, plugin) ==> PLUGIN_WINDOW <= vp < PLUGIN_WINDOW_END)
  {
  }

  /** The first cell of a physical page the GPU can reach. */
  function CellOf(pp: nat): nat
    requires VRAM <= pp < VRAM_END || FCRAM <= pp < FCRAM_N3DS_END
  {
    if pp >= FCRAM then (pp - FCRAM) * PAGE_SIZE else FCRAM_CELLS + (pp - VRAM) * PAGE_SIZE
  }

  lemma WindowInRange(vp: nat, plugin: nat)
    requires PluginOk(plugin) && WindowPhys(vp, plugin).Some?
    ensures var pp := WindowPhys(vp, plugin).value; VRAM <= pp < VRAM_END || FCRAM <= pp < FCRAM_N3DS_END
  {
  }

  /** The physical address of a cell; 0 for cells the GPU cannot reach. */
  function PhysOf(cell: nat): nat {
    if cell < FCRAM_CELLS then FCRAM * PAGE_SIZE + cell
    else if cell < FCRAM_CELLS + VRAM_CELLS then VRAM * PAGE_SIZE + (cell - FCRAM_CELLS)
    else 0
  }

  lemma CellsOfPage(pp: nat, offset: nat)
    requires (VRAM <= pp < VRAM_END || FCRAM <= pp < FCRAM_N3DS_END) && offset < PAGE_SIZE
    ensures PhysOf(CellOf(pp) + offset) == pp * PAGE_SIZE + offset
    ensures CellOf(pp) + offset < FCRAM_CELLS + VRAM_CELLS
  {
  }

  // ---------- page tables ----------

  datatype PageType = Unmapped | Memory | Cached

  /** One index of `attributes` and `pointers`. */
  datatype Entry = Entry(kind: PageType, pointer: Option<nat>)

  type PageTable = t: seq<Entry> | |t| == PAGE_COUNT witness seq(PAGE_COUNT, _ => Entry(Unmapped, None))

  /** Where the first byte of a page lives, on any of the access paths. */
  function PageCell(table: PageTable, vp: nat, plugin: nat): Option<nat>
    requires vp < PAGE_COUNT && PluginOk(plugin)
  {
    match table[vp].kind
    case Unmapped => None
    case Memory => table[vp].pointer
    case Cached =>
      if WindowPhys(vp, plugin).None? then None
      else
        WindowInRange(vp, plugin);
        Some(CellOf(WindowPhys(vp, plugin).value))
  }

  /** The cell of one virtual address. */
  function CellAt(table: PageTable, vaddr: nat, plugin: nat): Option<nat>
    requires vaddr < PAGE_COUNT * PAGE_SIZE && PluginOk(plugin)
  {
    var page := PageCell(table, vaddr / PAGE_SIZE, plugin);
    if page.None? then None else Some(page.value + vaddr % PAGE_SIZE)
  }

  // ---------- the logical memory ----------

  type Overlay = map<nat, Byte>

  function ViewAt(host: seq<Byte>, overlay: Overlay, cell: nat): Byte
    requires cell < |host|
  {
    if PhysOf(cell) in overlay then overlay[PhysOf(cell)] else host[cell]
  }

  function View(host: seq<Byte>, overlay: Overlay): (view: seq<Byte>)
    ensures |view| == |host|
  {
    seq(|host|, c requires 0 <= c < |host| => ViewAt(host, overlay, c))
  }

  /** A byte as the guest sees it; unmapped memory reads as zero. */
  function Peek(view: seq<Byte>, table: PageTable, vaddr: nat, plugin: nat): Byte
    requires vaddr < PAGE_COUNT * PAGE_SIZE && PluginOk(plugin)
  {
    var cell := CellAt(table, vaddr, plugin);
    if cell.Some? && cell.value < |view| then view[cell.value] else 0
  }

  function PeekAll(view: seq<Byte>, table: PageTable, vaddr: nat, size: nat, plugin: nat): (r: seq<Byte>)
    requires vaddr + size <= PAGE_COUNT * PAGE_SIZE && PluginOk(plugin)
    ensures |r| == size
  {
    seq<Byte>(size, i requires 0 <= i < size => Peek(view, table, vaddr + i, plugin))
  }

  /** One byte written by the guest; writes to unmapped memory vanish. */
  function Poke(view: seq<Byte>, table: PageTable, vaddr: nat, data: Byte, plugin: nat): (r: seq<Byte>)
    requires vaddr < PAGE_COUNT * PAGE_SIZE && PluginOk(plugin)
    ensures |r| == |view|
  {
    var cell := CellAt(table, vaddr, plugin);
    if cell.Some? && cell.value < |view| then view[cell.value := data] else view
  }

  /** The last of the addresses [vaddr, vaddr + n) that lives in `cell`, counted from `vaddr`. */
  function Writer(table: PageTable, vaddr: nat, n: nat, cell: nat, plugin: nat): (i: int)
    requires vaddr + n <= PAGE_COUNT * PAGE_SIZE && PluginOk(plugin)
    ensures -1 <= i < n
  {
    if n == 0 then -1
    else if CellAt(table, vaddr + n - 1, plugin) == Some(cell) then n - 1
    else Writer(table, vaddr, n - 1, cell, plugin)
  }

  /** The memory after bytes were written at rising addresses: the last one in a cell stays. */
  function PokeAll(view: seq<Byte>, table: PageTable, vaddr: nat, data: seq<Byte>, plugin: nat): (r: seq<Byte>)
    requires vaddr + |data| <= PAGE_COUNT * PAGE_SIZE && PluginOk(plugin)
    ensures |r| == |view|
  {
    seq(|view|, c requires 0 <= c < |view| =>
      var w := Writer(table, vaddr, |data|, c, plugin); if w < 0 then view[c] else data[w])
  }

  /** Writing a block is writing its bytes one by one. */
  lemma PokeOneByOne(view: seq<Byte>, table: PageTable, vaddr: nat, data: seq<Byte>, b: Byte, plugin: nat)
    requires vaddr + |data| < PAGE_COUNT * PAGE_SIZE && PluginOk(plugin)
    ensures PokeAll(view, table, vaddr, data + [b], plugin)
            == Poke(PokeAll(view, table, vaddr, data, plugin), table, vaddr + |data|, b, plugin)
    ensures PokeAll(view, table, vaddr, [], plugin) == view
  {
  }

  lemma {:induction false} WriterSplit(table: PageTable, vaddr: nat, m: nat, n: nat, cell: nat, plugin: nat)
    requires vaddr + m + n <= PAGE_COUNT * PAGE_SIZE && PluginOk(plugin)
    ensures var w := Writer(table, vaddr + m, n, cell, plugin);
            Writer(table, vaddr, m + n, cell, plugin)
            == if w < 0 then Writer(table, vaddr, m, cell, plugin) else m + w
  {
    if n > 0 { WriterSplit(table, vaddr, m, n - 1, cell, plugin); }
  }

  lemma PokeAllSplit(view: seq<Byte>, table: PageTable, vaddr: nat, a: seq<Byte>, b: seq<Byte>, plugin: nat)
    requires vaddr + |a| + |b| <= PAGE_COUNT * PAGE_SIZE && PluginOk(plugin)
    ensures PokeAll(view, table, vaddr, a + b, plugin)
            == PokeAll(PokeAll(view, table, vaddr, a, plugin), table, vaddr + |a|, b, plugin)
  {
    var l := PokeAll(view, table, vaddr, a + b, plugin);
    var r := PokeAll(PokeAll(view, table, vaddr, a, plugin), table, vaddr + |a|, b, plugin);
    forall c | 0 <= c < |view| ensures l[c] == r[c] {
      WriterSplit(table, vaddr, |a|, |b|, c, plugin);
    }
  }

  /** No two bytes of the range share a cell. */
  ghost predicate AliasFree(table: PageTable, vaddr: nat, size: nat, plugin: nat)
    requires vaddr + size <= PAGE_COUNT * PAGE_SIZE && PluginOk(plugin)
  {
    forall a, b :: vaddr <= a < b < vaddr + size && CellAt(table, a, plugin).Some? ==>
      CellAt(table, a, plugin) != CellAt(table, b, plugin)
  }

  ghost predicate AllMapped(table: PageTable, vaddr: nat, size: nat, plugin: nat, cells: nat)
    requires vaddr + size <= PAGE_COUNT * PAGE_SIZE && PluginOk(plugin)
  {
    forall a :: vaddr <= a < vaddr + size ==>
      CellAt(table, a, plugin).Some? && CellAt(table, a, plugin).value < cells
  }

  lemma {:induction false} WriterFound(table: PageTable, vaddr: nat, n: nat, i: nat, plugin: nat)
    requires vaddr + n <= PAGE_COUNT * PAGE_SIZE && PluginOk(plugin) && i < n
    requires AliasFree(table, vaddr, n, plugin) && CellAt(table, vaddr + i, plugin).Some?
    ensures Writer(table, vaddr, n, CellAt(table, vaddr + i, plugin).value, plugin) == i
  {
    if i < n - 1 {
      WriterFound(table, vaddr, n - 1, i, plugin);
      assert CellAt(table, vaddr + i, plugin) != CellAt(table, vaddr + (n - 1), plugin);
    }
  }

  /** What was written to an alias-free, fully mapped range is read back. */
  lemma PokedIsPeeked(view: seq<Byte>, table: PageTable, vaddr: nat, data: seq<Byte>, plugin: nat)
    requires vaddr + |data| <= PAGE_COUNT * PAGE_SIZE && PluginOk(plugin)
    requires AliasFree(table, vaddr, |data|, plugin) && AllMapped(table, vaddr, |data|, plugin, |view|)
    ensures PeekAll(PokeAll(view, table, vaddr, data, plugin), table, vaddr, |data|, plugin) == data
  {
    var r := PeekAll(PokeAll(view, table, vaddr, data, plugin), table, vaddr, |data|, plugin);
    forall i | 0 <= i < |data| ensures r[i] == data[i] {
      assert r[i] == Peek(PokeAll(view, table, vaddr, data, plugin), table, vaddr + i, plugin);
      assert CellAt(table, vaddr + i, plugin).Some?;
      WriterFound(table, vaddr, |data|, i, plugin);
    }
  }

  /** Cells that no written byte lives in keep their value. */
  lemma {:induction false} NoWriter(table: PageTable, vaddr: nat, n: nat, cell: nat, plugin: nat)
    requires vaddr + n <= PAGE_COUNT * PAGE_SIZE && PluginOk(plugin)
    requires forall a :: vaddr <= a < vaddr + n ==> CellAt(table, a, plugin) != Some(cell)
    ensures Writer(table, vaddr, n, cell, plugin) == -1
  {
    if n > 0 { NoWriter(table, vaddr, n - 1, cell, plugin); }
  }
}
