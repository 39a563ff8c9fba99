/** The mycelium-lichen-algal cellular automaton: a depth x size x size grid
  * of cells (0 empty, 1 nutrient, 2 hyphae, 3 bound mycelium, 4 algal,
  * 5 lichen) grows hyphae into neighbouring cells, spreads algae over the
  * surface, matures hyphae into bound mycelium and clears cells in radiation
  * storms. Every step reads the old grid and writes a copy. The random draws
  * (`_random` and the whole-grid masks) are inputs. */
module MyceliumGrowth {

  import opened Ratios

  datatype Option<T> = None | Some(value: T)

  /** A cell (z, y, x), or an offset (dz, dy, dx). */
  type Cell = (int, int, int)

  /** The grid, keyed by cell. */
  type Grid = map<Cell, int>

  predicate InBounds(c: Cell, depth: int, size: int) {
    0 <= c.0 < depth && 0 <= c.1 < size && 0 <= c.2 < size
  }

  /** The grid holds exactly the cells of the depth x size x size box. */
  ghost predicate Shaped(g: Grid, depth: int, size: int) {
    forall c :: c in g <==> InBounds(c, depth, size)
  }

  /** Every cell holds one of the six states. */
  predicate Valued(g: Grid) {
    forall c :: c in g ==> 0 <= g[c] <= 5
  }

  // ---------------------------------------------------------------------
  // Boxes of cells in NumPy's C order (z, then y, then x)

  function Span(z: int, y: int, x0: int, x1: int): seq<Cell>
    decreases x1 - x0
  {
    if x0 >= x1 then [] else [(z, y, x0)] + Span(z, y, x0 + 1, x1)
  }

  function Slab(z: int, y0: int, y1: int, x0: int, x1: int): seq<Cell>
    decreases y1 - y0
  {
    if y0 >= y1 then [] else Span(z, y0, x0, x1) + Slab(z, y0 + 1, y1, x0, x1)
  }

  /** The cells of [z0, z1) x [y0, y1) x [x0, x1), as the slice
    * `grid[z0:z1, y0:y1, x0:x1]` visits them. */
  function Box(z0: int, z1: int, y0: int, y1: int, x0: int, x1: int): seq<Cell>
    decreases z1 - z0
  {
    if z0 >= z1 then [] else Slab(z0, y0, y1, x0, x1) + Box(z0 + 1, z1, y0, y1, x0, x1)
  }

  lemma {:induction false} SpanMembers(z: int, y: int, x0: int, x1: int)
    ensures forall c :: c in Span(z, y, x0, x1) <==> c.0 == z && c.1 == y && x0 <= c.2 < x1
    decreases x1 - x0
  {
    if x0 < x1 {
      SpanMembers(z, y, x0 + 1, x1);
    }
  }

  lemma {:induction false} SlabMembers(z: int, y0: int, y1: int, x0: int, x1: int)
    ensures forall c :: c in Slab(z, y0, y1, x0, x1) <==> c.0 == z && y0 <= c.1 < y1 && x0 <= c.2 < x1
    decreases y1 - y0
  {
    if y0 < y1 {
      SpanMembers(z, y0, x0, x1);
      SlabMembers(z, y0 + 1, y1, x0, x1);
    }
  }

  /** A box holds exactly the cells within its bounds. */
  lemma {:induction false} BoxMembers(z0: int, z1: int, y0: int, y1: int, x0: int, x1: int)
    ensures forall c :: c in Box(z0, z1, y0, y1, x0, x1) <==>
      z0 <= c.0 < z1 && y0 <= c.1 < y1 && x0 <= c.2 < x1
    decreases z1 - z0
  {
    if z0 < z1 {
      SlabMembers(z0, y0, y1, x0, x1);
      BoxMembers(z0 + 1, z1, y0, y1, x0, x1);
    }
  }

  /** Every cell of the grid, in C order. */
  function AllCells(depth: int, size: int): (cells: seq<Cell>)
    ensures forall c :: c in cells <==> InBounds(c, depth, size)
  {
    BoxMembers(0, depth, 0, size, 0, size);
    Box(0, depth, 0, size, 0, size)
  }

  predicate Within(g: Grid, cells: seq<Cell>) {
    forall i :: 0 <= i < |cells| ==> cells[i] in g
  }

  /** `np.argwhere(grid == v)`: the cells holding v, in C order. */
  function Where(g: Grid, cells: seq<Cell>, v: int): (found: seq<Cell>)
    requires Within(g, cells)
    ensures |found| <= |cells|
    decreases |cells|
  {
    if |cells| == 0 then []
    else (if g[cells[0]] == v then [cells[0]] else []) + Where(g, cells[1..], v)
  }

  /** `np.sum(grid[...] >= v)`: how many of the cells hold at least v. */
  function AtLeast(g: Grid, cells: seq<Cell>, v: int): (n: nat)
    requires Within(g, cells)
    ensures n <= |cells|
    decreases |cells|
  {
    if |cells| == 0 then 0
    else (if g[cells[0]] >= v then 1 else 0) + AtLeast(g, cells[1..], v)
  }

  /** `argwhere` lists exactly the cells that hold v. */
  lemma {:induction false} WhereMembers(g: Grid, cells: seq<Cell>, v: int)
    requires Within(g, cells)
    ensures forall c :: c in Where(g, cells, v) <==> c in cells && g[c] == v
    decreases |cells|
  {
    if |cells| > 0 {
      WhereMembers(g, cells[1..], v);
      assert forall c :: c in cells <==> c == cells[0] || c in cells[1..];
    }
  }

  function Max(a: int, b: int): int {
    if a < b then b else a
  }

  function Min(a: int, b: int): int {
    if a < b then a else b
  }

  /** The 7 x 7 x 7 window around a cell, cut off at the grid's faces:
    * `grid[max(0,nz-3):nz+4, max(0,ny-3):ny+4, max(0,nx-3):nx+4]`. */
  function Window(n: Cell, depth: int, size: int): seq<Cell> {
    Box(Max(0, n.0 - 3), Min(depth, n.0 + 4), Max(0, n.1 - 3), Min(size, n.1 + 4), Max(0, n.2 - 3), Min(size, n.2 + 4))
  }

  /** The window holds exactly the grid cells at most 3 away from n along
    * every axis. */
  lemma WindowCells(n: Cell, depth: int, size: int)
    ensures forall c :: c in Window(n, depth, size) <==>
      InBounds(c, depth, size) && n.0 - 3 <= c.0 <= n.0 + 3 && n.1 - 3 <= c.1 <= n.1 + 3 && n.2 - 3 <= c.2 <= n.2 + 3
  {
    BoxMembers(Max(0, n.0 - 3), Min(depth, n.0 + 4), Max(0, n.1 - 3), Min(size, n.1 + 4), Max(0, n.2 - 3), Min(size, n.2 + 4));
    forall c
      ensures c in Window(n, depth, size) <==>
        InBounds(c, depth, size) && n.0 - 3 <= c.0 <= n.0 + 3 && n.1 - 3 <= c.1 <= n.1 + 3 && n.2 - 3 <= c.2 <= n.2 + 3
    {
      WindowAxis(n.0, c.0, depth);
      WindowAxis(n.1, c.1, size);
      WindowAxis(n.2, c.2, size);
    }
  }

  /** Along one axis the cut-off window is the in-range part of centre ± 3. */
  lemma WindowAxis(centre: int, v: int, limit: int)
    ensures Max(0, centre - 3) <= v < Min(limit, centre + 4) <==> 0 <= v < limit && centre - 3 <= v <= centre + 3
  {
  }

  /** How many cells of the window around n hold hyphae or a later state. */
  function LocalHyphae(g: Grid, n: Cell, depth: int, size: int): nat
    requires Shaped(g, depth, size)
  {
    WindowCells(n, depth, size);
    AtLeast(g, Window(n, depth, size), 2)
  }

  // ---------------------------------------------------------------------
  // Neighbourhoods

  predicate UnitStep(o: Cell) {
    -1 <= o.0 <= 1 && -1 <= o.1 <= 1 && -1 <= o.2 <= 1 && o != (0, 0, 0)
  }

  /** `_get_neighbors`: the 8 planar offsets of a single-layer grid, or the
    * 26 offsets of the 3 x 3 x 3 cube around a cell, in C order. */
  function Neighbors(depth: int): (ns: seq<Cell>)
    ensures |ns| == if depth == 1 then 8 else 26
    ensures forall i :: 0 <= i < |ns| ==> UnitStep(ns[i]) && (depth == 1 ==> ns[i].0 == 0)
  {
    if depth == 1 then
      [(0, -1, -1), (0, -1, 0), (0, -1, 1), (0, 0, -1), (0, 0, 1), (0, 1, -1), (0, 1, 0), (0, 1, 1)]
    else
      [(-1, -1, -1), (-1, -1, 0), (-1, -1, 1), (-1, 0, -1), (-1, 0, 0), (-1, 0, 1), (-1, 1, -1), (-1, 1, 0), (-1, 1, 1),
       (0, -1, -1), (0, -1, 0), (0, -1, 1), (0, 0, -1), (0, 0, 1), (0, 1, -1), (0, 1, 0), (0, 1, 1),
       (1, -1, -1), (1, -1, 0), (1, -1, 1), (1, 0, -1), (1, 0, 0), (1, 0, 1), (1, 1, -1), (1, 1, 0), (1, 1, 1)]
  }

  /** Every non-zero offset with coordinates in -1..1 (and dz = 0 on a
    * single-layer grid) is a neighbour. */
  lemma NeighborsComplete(depth: int, o: Cell)
    requires UnitStep(o) && (depth == 1 ==> o.0 == 0)
    ensures o in Neighbors(depth)
  {
    var ns := Neighbors(depth);
    var (dz, dy, dx) := o;
    if depth == 1 {
      var k := 3 * (dy + 1) + (dx + 1);
      assert o == ns[if k > 4 then k - 1 else k];
    } else {
      var k := 9 * (dz + 1) + 3 * (dy + 1) + (dx + 1);
      assert o == ns[if k > 13 then k - 1 else k];
    }
  }

  /** Lexicographic order on offsets. */
  predicate Precedes(a: Cell, b: Cell) {
    a.0 < b.0 || (a.0 == b.0 && (a.1 < b.1 || (a.1 == b.1 && a.2 < b.2)))
  }

  lemma {:induction false} AscendingApart(s: seq<Cell>, i: nat, j: nat)
    requires forall k :: 0 <= k < |s| - 1 ==> Precedes(s[k], s[k + 1])
    requires i < j < |s|
    ensures Precedes(s[i], s[j])
    decreases j - i
  {
    if i + 1 < j {
      AscendingApart(s, i + 1, j);
    }
  }

  /** No offset is listed twice. */
  lemma NeighborsDistinct(depth: int)
    ensures forall i, j :: 0 <= i < j < |Neighbors(depth)| ==> Neighbors(depth)[i] != Neighbors(depth)[j]
  {
    var ns := Neighbors(depth);
    assert forall k :: 0 <= k < |ns| - 1 ==> Precedes(ns[k], ns[k + 1]);
    forall i, j | 0 <= i < j < |ns|
      ensures ns[i] != ns[j]
    {
      AscendingApart(ns, i, j);
    }
  }

  // ---------------------------------------------------------------------
  // Growth

  /** The parameters a step reads from the simulator. */
  datatype Config = Config(size: int, depth: int, mercyRate: real, symbiotic: bool)

  /** What the step has written so far, and how many `_random` draws it used. */
  datatype Pass = Pass(grid: Grid, drawn: nat)

  /** `target in [0, 1, 4]` */
  predicate Growable(v: int) {
    v == 0 || v == 1 || v == 4
  }

  /** Hyphae turn algae into lichen and anything else into hyphae. */
  function Grown(v: int): int {
    if v == 4 then 5 else 2
  }

  /** The chance that hyphae grow into a target: 0.4, +0.3 into nutrient, +0.4
    * into algae, times 0.6 deep in a symbiotic grid, +0.5 with mercy. */
  function GrowthProb(target: int, deep: bool, mercy: bool): real {
    var base := 0.4 + (if target == 1 then 0.3 else 0.0) + (if target == 4 then 0.4 else 0.0);
    var damped := if deep then base * 0.6 else base;
    if mercy then damped + 0.5 else damped
  }

  /** The chance lies between 0.24 (deep empty cell, no mercy) and 1.3 (algae
    * near the surface with mercy); algae are preferred over nutrients, and
    * nutrients over empty cells; mercy adds exactly 0.5. */
  lemma GrowthProbRange(target: int, deep: bool, mercy: bool)
    requires Growable(target)
    ensures 0.24 <= GrowthProb(target, deep, mercy) <= 1.3
    ensures GrowthProb(0, deep, mercy) < GrowthProb(1, deep, mercy) < GrowthProb(4, deep, mercy)
    ensures GrowthProb(target, deep, true) == GrowthProb(target, deep, false) + 0.5
    ensures GrowthProb(target, true, mercy) <= GrowthProb(target, false, mercy)
  {
  }

  /** Below the top third of the depth a symbiotic grid grows slower. */
  predicate Deep(cfg: Config, z: int) {
    cfg.symbiotic && z > cfg.depth / 3
  }

  function Add(c: Cell, o: Cell): Cell {
    (c.0 + o.0, c.1 + o.1, c.2 + o.2)
  }

  /** Hyphae at c try to grow into c + o: an in-bounds growable target reads
    * one mercy draw when its window holds fewer than 4 hyphae, then one
    * growth draw. */
  function GrowAt(cfg: Config, g: Grid, s: Pass, c: Cell, o: Cell, rand: nat -> real): Pass
    requires Shaped(g, cfg.depth, cfg.size)
  {
    var n := Add(c, o);
    if !InBounds(n, cfg.depth, cfg.size) || !Growable(g[n]) then s
    else Attempt(cfg, s, n, g[n], LocalHyphae(g, n, cfg.depth, cfg.size) < 4, rand)
  }

  /** The draws of one growth attempt into a target: the mercy draw only
    * when the window is sparse, then the growth draw. */
  function Attempt(cfg: Config, s: Pass, n: Cell, target: int, sparse: bool, rand: nat -> real): Pass {
    var mercy := sparse && rand(s.drawn) < cfg.mercyRate;
    var d := if sparse then s.drawn + 1 else s.drawn;
    if rand(d) < GrowthProb(target, Deep(cfg, n.0), mercy) then Pass(s.grid[n := Grown(target)], d + 1)
    else Pass(s.grid, d + 1)
  }

  /** Hyphae at c after trying the first k offsets. */
  function GrowRow(cfg: Config, g: Grid, s: Pass, c: Cell, ns: seq<Cell>, k: nat, rand: nat -> real): Pass
    requires Shaped(g, cfg.depth, cfg.size) && k <= |ns|
    decreases k
  {
    if k == 0 then s else GrowAt(cfg, g, GrowRow(cfg, g, s, c, ns, k - 1, rand), c, ns[k - 1], rand)
  }

  /** The first h hyphae, each trying every offset. */
  function GrowAll(cfg: Config, g: Grid, s: Pass, hs: seq<Cell>, ns: seq<Cell>, h: nat, rand: nat -> real): Pass
    requires Shaped(g, cfg.depth, cfg.size) && h <= |hs|
    decreases h
  {
    if h == 0 then s else GrowRow(cfg, g, GrowAll(cfg, g, s, hs, ns, h - 1, rand), hs[h - 1], ns, |ns|, rand)
  }

  /** A growth attempt uses one draw, plus the mercy draw exactly when the
    * target's window is sparse; a target out of bounds or not growable uses
    * none. */
  lemma GrowAtDraws(cfg: Config, g: Grid, s: Pass, c: Cell, o: Cell, rand: nat -> real)
    requires Shaped(g, cfg.depth, cfg.size)
    ensures var n := Add(c, o);
      GrowAt(cfg, g, s, c, o, rand).drawn == s.drawn +
        (if !InBounds(n, cfg.depth, cfg.size) || !Growable(g[n]) then 0
         else if LocalHyphae(g, n, cfg.depth, cfg.size) < 4 then 2 else 1)
  {
  }

  /** Growth keeps the cells of the copy and writes only targets that were
    * growable in the old grid, turning algae into lichen and anything else
    * into hyphae. */
  ghost predicate GrowthOnly(g: Grid, before: Grid, after: Grid) {
    && (forall c :: c in after <==> c in before)
    && (forall c :: c in after ==> after[c] == before[c] || (c in g && Growable(g[c]) && after[c] == Grown(g[c])))
  }

  lemma GrowthOnlyTrans(g: Grid, a: Grid, b: Grid, c: Grid)
    requires GrowthOnly(g, a, b) && GrowthOnly(g, b, c)
    ensures GrowthOnly(g, a, c)
  {
  }

  lemma {:induction false} GrowRowWrites(cfg: Config, g: Grid, s: Pass, c: Cell, ns: seq<Cell>, k: nat, rand: nat -> real)
    requires Shaped(g, cfg.depth, cfg.size) && k <= |ns| && g.Keys <= s.grid.Keys
    ensures GrowthOnly(g, s.grid, GrowRow(cfg, g, s, c, ns, k, rand).grid)
    ensures GrowRow(cfg, g, s, c, ns, k, rand).drawn >= s.drawn
    decreases k
  {
    if k > 0 {
      GrowRowWrites(cfg, g, s, c, ns, k - 1, rand);
      var prev := GrowRow(cfg, g, s, c, ns, k - 1, rand);
      GrowAtDraws(cfg, g, prev, c, ns[k - 1], rand);
      assert GrowthOnly(g, prev.grid, GrowAt(cfg, g, prev, c, ns[k - 1], rand).grid);
      GrowthOnlyTrans(g, s.grid, prev.grid, GrowAt(cfg, g, prev, c, ns[k - 1], rand).grid);
    }
  }

  /** The whole growth pass writes only growable targets, as `GrowthOnly` says. */
  lemma {:induction false} GrowAllWrites(cfg: Config, g: Grid, s: Pass, hs: seq<Cell>, ns: seq<Cell>, h: nat, rand: nat -> real)
    requires Shaped(g, cfg.depth, cfg.size) && h <= |hs| && g.Keys <= s.grid.Keys
    ensures GrowthOnly(g, s.grid, GrowAll(cfg, g, s, hs, ns, h, rand).grid)
    ensures GrowAll(cfg, g, s, hs, ns, h, rand).drawn >= s.drawn
    decreases h
  {
    if h > 0 {
      GrowAllWrites(cfg, g, s, hs, ns, h - 1, rand);
      var prev := GrowAll(cfg, g, s, hs, ns, h - 1, rand);
      GrowRowWrites(cfg, g, prev, hs[h - 1], ns, |ns|, rand);
      GrowthOnlyTrans(g, s.grid, prev.grid, GrowAll(cfg, g, s, hs, ns, h, rand).grid);
    }
  }

  // ---------------------------------------------------------------------
  // Algal spread

  /** Algae at c try to spread into c + o: only planar offsets, only into an
    * in-bounds surface cell that was empty in the old grid, with one draw
    * below 0.2. */
  function SpreadAt(cfg: Config, g: Grid, s: Pass, c: Cell, o: Cell, rand: nat -> real): Pass
    requires Shaped(g, cfg.depth, cfg.size)
  {
    var n := (0, c.1 + o.1, c.2 + o.2);
    if o.0 != 0 || !InBounds(n, cfg.depth, cfg.size) || g[n] != 0 then s
    else if rand(s.drawn) < 0.2 then Pass(s.grid[n := 4], s.drawn + 1)
    else Pass(s.grid, s.drawn + 1)
  }

  /** Algae at c after trying the first k offsets; only surface algae spread. */
  function SpreadRow(cfg: Config, g: Grid, s: Pass, c: Cell, ns: seq<Cell>, k: nat, rand: nat -> real): Pass
    requires Shaped(g, cfg.depth, cfg.size) && k <= |ns|
    decreases k
  {
    if k == 0 || c.0 != 0 then s else SpreadAt(cfg, g, SpreadRow(cfg, g, s, c, ns, k - 1, rand), c, ns[k - 1], rand)
  }

  /** The first h algal cells, each trying every offset. */
  function SpreadAll(cfg: Config, g: Grid, s: Pass, als: seq<Cell>, ns: seq<Cell>, h: nat, rand: nat -> real): Pass
    requires Shaped(g, cfg.depth, cfg.size) && h <= |als|
    decreases h
  {
    if h == 0 then s else SpreadRow(cfg, g, SpreadAll(cfg, g, s, als, ns, h - 1, rand), als[h - 1], ns, |ns|, rand)
  }

  /** Spreading keeps the cells of the copy and writes 4 only into surface
    * cells that were empty in the old grid. */
  ghost predicate SpreadOnly(g: Grid, before: Grid, after: Grid) {
    && (forall c :: c in after <==> c in before)
    && (forall c :: c in after ==> after[c] == before[c] || (c.0 == 0 && c in g && g[c] == 0 && after[c] == 4))
  }

  lemma {:induction false} SpreadRowWrites(cfg: Config, g: Grid, s: Pass, c: Cell, ns: seq<Cell>, k: nat, rand: nat -> real)
    requires Shaped(g, cfg.depth, cfg.size) && k <= |ns| && g.Keys <= s.grid.Keys
    ensures SpreadOnly(g, s.grid, SpreadRow(cfg, g, s, c, ns, k, rand).grid)
    ensures SpreadRow(cfg, g, s, c, ns, k, rand).drawn >= s.drawn
    decreases k
  {
    if k > 0 && c.0 == 0 {
      SpreadRowWrites(cfg, g, s, c, ns, k - 1, rand);
    }
  }

  /** The whole spread pass writes only as `SpreadOnly` says. */
  lemma {:induction false} SpreadAllWrites(cfg: Config, g: Grid, s: Pass, als: seq<Cell>, ns: seq<Cell>, h: nat, rand: nat -> real)
    requires Shaped(g, cfg.depth, cfg.size) && h <= |als| && g.Keys <= s.grid.Keys
    ensures SpreadOnly(g, s.grid, SpreadAll(cfg, g, s, als, ns, h, rand).grid)
    ensures SpreadAll(cfg, g, s, als, ns, h, rand).drawn >= s.drawn
    decreases h
  {
    if h > 0 {
      SpreadAllWrites(cfg, g, s, als, ns, h - 1, rand);
      SpreadRowWrites(cfg, g, SpreadAll(cfg, g, s, als, ns, h - 1, rand), als[h - 1], ns, |ns|, rand);
    }
  }

  // ---------------------------------------------------------------------
  // Maturation and radiation

  /** `mature_mask`: the cell held hyphae or a later state and its draw
    * fell below 0.15. */
  predicate Matures(g: Grid, c: Cell, draw: real) {
    c in g && g[c] >= 2 && draw < 0.15
  }

  /** Maturation binds hyphae into mycelium; lichen stays lichen. */
  function Matured(g: Grid, ng: Grid, step: int, draws: (int, Cell) -> real): Grid {
    map c | c in ng :: if Matures(g, c, draws(step, c)) then (if g[c] == 5 then 5 else 3) else ng[c]
  }

  /** `0.7 * (1 - z / depth)`: the storm hits the surface hardest. */
  function DamageProb(z: int, depth: int): real
    requires depth > 0
  {
    0.7 * (1.0 - z as real / depth as real)
  }

  /** The damage chance is 0.7 at the surface, stays positive down to the
    * bottom layer, and never rises with depth. */
  lemma DamageProbRange(z: int, z2: int, depth: int)
    requires 0 <= z <= z2 < depth
    ensures DamageProb(0, depth) == 0.7
    ensures 0.0 < DamageProb(z2, depth) <= DamageProb(z, depth) <= 0.7
  {
    Fraction(z as real, z2 as real, depth as real);
  }

  lemma Fraction(a: real, b: real, d: real)
    requires 0.0 <= a <= b < d
    ensures 0.0 <= a / d <= b / d < 1.0
  {
    var p, q := a / d, b / d;
    assert p * d == a && q * d == b;
    Positive(p, d);
    Positive(q - p, d);
    Positive(1.0 - q, d);
  }

  /** A product with a positive factor has the other factor's sign. */
  lemma Positive(x: real, d: real)
    requires d > 0.0
    ensures x * d >= 0.0 ==> x >= 0.0
    ensures x * d > 0.0 ==> x > 0.0
  {
  }

  /** `damage_mask & (grid > 1)` on a storm step: the cell held more than a
    * nutrient and its draw fell below its layer's damage chance. */
  predicate Hit(g: Grid, c: Cell, depth: int, draw: real)
    requires depth > 0
  {
    c in g && g[c] > 1 && draw < DamageProb(c.0, depth)
  }

  /** A radiation storm clears every cell it hits. */
  function Irradiated(g: Grid, ng: Grid, depth: int, step: int, draws: (int, Cell) -> real): Grid
    requires depth > 0
  {
    map c | c in ng :: if Hit(g, c, depth, draws(step, c)) then 0 else ng[c]
  }

  // ---------------------------------------------------------------------
  // One step

  /** `step(current_step)`: growth and spread read the old grid and write a
    * copy, drawing from `rand` from index `start` on; maturation and, on a
    * storm step, radiation then overwrite the copy from whole-grid masks.
    * The result holds the new grid and the next unused draw. */
  function StepOutcome(cfg: Config, events: seq<int>, g: Grid, currentStep: int, rand: nat -> real, start: nat,
                       mature: (int, Cell) -> real, damage: (int, Cell) -> real): (out: Pass)
    requires cfg.depth > 0 && Shaped(g, cfg.depth, cfg.size)
    ensures Shaped(out.grid, cfg.depth, cfg.size) && out.drawn >= start
  {
    var cells := AllCells(cfg.depth, cfg.size);
    var ns := Neighbors(cfg.depth);
    var hs := Where(g, cells, 2);
    var als := Where(g, cells, 4);
    var grown := GrowAll(cfg, g, Pass(g, start), hs, ns, |hs|, rand);
    var spread := if cfg.symbiotic then SpreadAll(cfg, g, grown, als, ns, |als|, rand) else grown;
    var matured := Matured(g, spread.grid, currentStep, mature);
    var final := if currentStep in events then Irradiated(g, matured, cfg.depth, currentStep, damage) else matured;
    GrowAllWrites(cfg, g, Pass(g, start), hs, ns, |hs|, rand);
    if cfg.symbiotic then
      SpreadAllWrites(cfg, g, grown, als, ns, |als|, rand);
      Pass(final, spread.drawn)
    else
      Pass(final, spread.drawn)
  }

  /** What a step does to each cell, judged against the old grid: a storm hit
    * clears it; otherwise a maturing cell becomes bound mycelium (lichen
    * stays lichen); otherwise it keeps its old value, or hyphae grew into it
    * (algae becoming lichen), or algae spread into an empty surface cell. */
  lemma StepCells(cfg: Config, events: seq<int>, g: Grid, currentStep: int, rand: nat -> real, start: nat,
                  mature: (int, Cell) -> real, damage: (int, Cell) -> real, c: Cell)
    requires cfg.depth > 0 && Shaped(g, cfg.depth, cfg.size) && c in g
    ensures var v := StepOutcome(cfg, events, g, currentStep, rand, start, mature, damage).grid[c];
      var hit := currentStep in events && Hit(g, c, cfg.depth, damage(currentStep, c));
      && (hit ==> v == 0)
      && (!hit && Matures(g, c, mature(currentStep, c)) ==> v == if g[c] == 5 then 5 else 3)
      && (!hit && !Matures(g, c, mature(currentStep, c)) ==>
            v == g[c] || (Growable(g[c]) && v == Grown(g[c])) || (cfg.symbiotic && c.0 == 0 && g[c] == 0 && v == 4))
  {
    var cells := AllCells(cfg.depth, cfg.size);
    var ns := Neighbors(cfg.depth);
    var hs := Where(g, cells, 2);
    var als := Where(g, cells, 4);
    var grown := GrowAll(cfg, g, Pass(g, start), hs, ns, |hs|, rand);
    GrowAllWrites(cfg, g, Pass(g, start), hs, ns, |hs|, rand);
    if cfg.symbiotic {
      SpreadAllWrites(cfg, g, grown, als, ns, |als|, rand);
    }
  }

  /** Every cell stays in 0..5. */
  lemma StepValued(cfg: Config, events: seq<int>, g: Grid, currentStep: int, rand: nat -> real, start: nat,
                   mature: (int, Cell) -> real, damage: (int, Cell) -> real)
    requires cfg.depth > 0 && Shaped(g, cfg.depth, cfg.size) && Valued(g)
    ensures Valued(StepOutcome(cfg, events, g, currentStep, rand, start, mature, damage).grid)
  {
    forall c | c in StepOutcome(cfg, events, g, currentStep, rand, start, mature, damage).grid
      ensures 0 <= StepOutcome(cfg, events, g, currentStep, rand, start, mature, damage).grid[c] <= 5
    {
      StepCells(cfg, events, g, currentStep, rand, start, mature, damage, c);
    }
  }

  /** Lichen survives every step but a storm that hits it, and a cell holding
    * hyphae, bound mycelium, algae or lichen keeps one of those states. */
  lemma StepKeepsLife(cfg: Config, events: seq<int>, g: Grid, currentStep: int, rand: nat -> real, start: nat,
                      mature: (int, Cell) -> real, damage: (int, Cell) -> real, c: Cell)
    requires cfg.depth > 0 && Shaped(g, cfg.depth, cfg.size) && c in g && g[c] >= 2
    requires !(currentStep in events && Hit(g, c, cfg.depth, damage(currentStep, c)))
    ensures g[c] == 5 ==> StepOutcome(cfg, events, g, currentStep, rand, start, mature, damage).grid[c] == 5
    ensures StepOutcome(cfg, events, g, currentStep, rand, start, mature, damage).grid[c] >= 2
  {
    StepCells(cfg, events, g, currentStep, rand, start, mature, damage, c);
  }

  // ---------------------------------------------------------------------
  // Runs

  /** The grid and the next unused draw after k steps, step t numbered t. */
  function Evolve(cfg: Config, events: seq<int>, g: Grid, k: nat, rand: nat -> real,
                  mature: (int, Cell) -> real, damage: (int, Cell) -> real): (out: Pass)
    requires cfg.depth > 0 && Shaped(g, cfg.depth, cfg.size)
    ensures Shaped(out.grid, cfg.depth, cfg.size)
    decreases k
  {
    if k == 0 then Pass(g, 0)
    else
      var prev := Evolve(cfg, events, g, k - 1, rand, mature, damage);
      StepOutcome(cfg, events, prev.grid, k - 1, rand, prev.drawn, mature, damage)
  }

  /** `(np.mean(grid >= 3), np.mean(grid == 5))`: the bound share (bound
    * mycelium, algae and lichen all count) and the lichen share, both in
    * [0, 1]. */
  function Metrics(g: Grid, depth: int, size: int): (m: (real, real))
    requires depth > 0 && size > 0 && Shaped(g, depth, size)
    ensures 0.0 <= m.0 <= 1.0 && 0.0 <= m.1 <= 1.0
  {
    var cells := AllCells(depth, size);
    assert (0, 0, 0) in cells;
    var bound := AtLeast(g, cells, 3);
    var lichen := |Where(g, cells, 5)|;
    ShareInUnit(bound as real, |cells| as real);
    ShareInUnit(lichen as real, |cells| as real);
    (bound as real / |cells| as real, lichen as real / |cells| as real)
  }

  /** The metric pairs after steps 1..k. */
  function History(cfg: Config, events: seq<int>, g: Grid, k: nat, rand: nat -> real,
                   mature: (int, Cell) -> real, damage: (int, Cell) -> real): (h: seq<(real, real)>)
    requires cfg.depth > 0 && cfg.size > 0 && Shaped(g, cfg.depth, cfg.size)
    ensures |h| == k
    decreases k
  {
    if k == 0 then []
    else
      History(cfg, events, g, k - 1, rand, mature, damage)
        + [Metrics(Evolve(cfg, events, g, k, rand, mature, damage).grid, cfg.depth, cfg.size)]
  }

  /** Each step appends the metrics of the grid it leaves. */
  lemma HistoryNext(cfg: Config, events: seq<int>, g: Grid, k: nat, rand: nat -> real,
                    mature: (int, Cell) -> real, damage: (int, Cell) -> real)
    requires cfg.depth > 0 && cfg.size > 0 && Shaped(g, cfg.depth, cfg.size)
    ensures History(cfg, events, g, k + 1, rand, mature, damage) ==
      History(cfg, events, g, k, rand, mature, damage) + [Metrics(Evolve(cfg, events, g, k + 1, rand, mature, damage).grid, cfg.depth, cfg.size)]
  {
  }

  /** Each step takes the grid and draw index the previous steps left. */
  lemma EvolveNext(cfg: Config, events: seq<int>, g: Grid, k: nat, rand: nat -> real,
                   mature: (int, Cell) -> real, damage: (int, Cell) -> real)
    requires cfg.depth > 0 && Shaped(g, cfg.depth, cfg.size)
    ensures var prev := Evolve(cfg, events, g, k, rand, mature, damage);
      Evolve(cfg, events, g, k + 1, rand, mature, damage) == StepOutcome(cfg, events, prev.grid, k, rand, prev.drawn, mature, damage)
  {
  }

  /** Every pair of a history lies in [0, 1] x [0, 1]. */
  predicate InUnit(h: seq<(real, real)>) {
    forall i :: 0 <= i < |h| ==> 0.0 <= h[i].0 <= 1.0 && 0.0 <= h[i].1 <= 1.0
  }

  lemma AppendInUnit(h: seq<(real, real)>, m: (real, real))
    requires InUnit(h) && 0.0 <= m.0 <= 1.0 && 0.0 <= m.1 <= 1.0
    ensures InUnit(h + [m])
  {
    assert forall i :: 0 <= i < |h| ==> (h + [m])[i] == h[i];
  }

  /** `min(m[0] for m in metrics_history)` */
  function MinBinding(h: seq<(real, real)>): (low: real)
    requires |h| > 0
    ensures forall i :: 0 <= i < |h| ==> low <= h[i].0
    ensures exists i :: 0 <= i < |h| && low == h[i].0
    decreases |h|
  {
    if |h| == 1 then h[0].0
    else
      var rest := MinBinding(h[..|h| - 1]);
      assert forall i :: 0 <= i < |h| - 1 ==> h[..|h| - 1][i] == h[i];
      if h[|h| - 1].0 < rest then h[|h| - 1].0 else rest
  }

  /** `range(steps)` is empty for a negative count. */
  function Iterations(steps: int): nat {
    if steps < 0 then 0 else steps
  }

  /** What `run` reports: the metric history and the logged recovery. */
  datatype Report = Report(history: seq<(real, real)>, recovery: real)

  /** The recovery, the last bound share less the lowest one, is never
    * negative and never more than 1. */
  lemma RecoveryRange(h: seq<(real, real)>)
    requires |h| > 0 && InUnit(h)
    ensures 0.0 <= h[|h| - 1].0 - MinBinding(h) <= 1.0
  {
  }

  // ---------------------------------------------------------------------
  // The initial grid

  /** `nutrient_mask`: each cell is a nutrient when its draw falls below 0.05. */
  function Nutrients(cells: seq<Cell>, draws: Cell -> real): Grid {
    map c | c in cells :: if draws(c) < 0.05 then 1 else 0
  }

  /** The grid after planting the first k hyphae seeds. */
  function Seeded(g: Grid, seeds: seq<Cell>, k: nat): Grid
    requires k <= |seeds|
    decreases k
  {
    if k == 0 then g else Seeded(g, seeds, k - 1)[seeds[k - 1] := 2]
  }

  /** `surface[algal_mask] = 4`: surface cells whose draw falls below 0.1
    * become algae. */
  function Surfaced(g: Grid, draws: (int, int) -> real): Grid {
    map c | c in g :: if c.0 == 0 && draws(c.1, c.2) < 0.1 then 4 else g[c]
  }

  /** The grid `__init__` builds: nutrients, then the seeds, then (in a
    * symbiotic grid) surface algae, each layer overwriting the previous. */
  function Initial(depth: int, size: int, nutrient: Cell -> real, seeds: seq<Cell>,
                   algal: (int, int) -> real, symbiotic: bool): Grid
  {
    var planted := Seeded(Nutrients(AllCells(depth, size), nutrient), seeds, |seeds|);
    if symbiotic then Surfaced(planted, algal) else planted
  }

  /** Planting sets each seed cell to 2 and leaves the other cells alone. */
  lemma {:induction false} SeededCells(g: Grid, seeds: seq<Cell>, k: nat)
    requires k <= |seeds|
    ensures forall c :: c in Seeded(g, seeds, k) <==> c in g || c in seeds[..k]
    ensures forall c :: c in Seeded(g, seeds, k) ==> Seeded(g, seeds, k)[c] == if c in seeds[..k] then 2 else g[c]
    decreases k
  {
    if k > 0 {
      SeededCells(g, seeds, k - 1);
      assert forall c :: c in seeds[..k] <==> c in seeds[..k - 1] || c == seeds[k - 1];
    }
  }

  /** With in-bounds seeds the initial grid covers exactly the box, and each
    * cell holds algae if it is a surface cell of a symbiotic grid that drew
    * below 0.1, else hyphae if it is a seed, else a nutrient if it drew
    * below 0.05, else nothing. */
  lemma InitialCells(depth: int, size: int, nutrient: Cell -> real, seeds: seq<Cell>,
                     algal: (int, int) -> real, symbiotic: bool)
    requires forall i :: 0 <= i < |seeds| ==> InBounds(seeds[i], depth, size)
    ensures var g := Initial(depth, size, nutrient, seeds, algal, symbiotic);
      && Shaped(g, depth, size) && Valued(g)
      && forall c :: c in g ==>
           g[c] == if symbiotic && c.0 == 0 && algal(c.1, c.2) < 0.1 then 4
                   else if c in seeds then 2
                   else if nutrient(c) < 0.05 then 1 else 0
  {
    var base := Nutrients(AllCells(depth, size), nutrient);
    SeededCells(base, seeds, |seeds|);
    assert seeds[..|seeds|] == seeds;
  }

  // ---------------------------------------------------------------------
  // The simulator

  class MyceliumGrowthSim {
    const size: int
    const depth: int
    const steps: int
    const mercyRate: real
    const radiationEvents: seq<int>
    const symbiotic: bool
    var grid: Grid

    /** The grid is a full depth x size x size box of states 0..5. */
    ghost predicate Valid()
      reads this
    {
      depth > 0 && size > 0 && Shaped(grid, depth, size) && Valued(grid)
    }

    function Params(): Config {
      Config(size, depth, mercyRate, symbiotic)
    }

    /** `__init__` with the nutrient draws, the five seed positions and the
      * surface algal draws as inputs; `randint` raises on an empty range,
      * so the grid must have at least one cell. */
    constructor(size: int, depth: int, steps: int, mercyRate: real, radiationEvents: seq<int>, symbiotic: bool,
                nutrient: Cell -> real, seeds: seq<Cell>, algal: (int, int) -> real)
      requires size > 0 && depth > 0
      requires |seeds| == 5 && forall i :: 0 <= i < |seeds| ==> InBounds(seeds[i], depth, size)
      ensures Valid()
      ensures this.size == size && this.depth == depth && this.steps == steps && this.mercyRate == mercyRate
      ensures this.radiationEvents == radiationEvents && this.symbiotic == symbiotic
      ensures grid == Initial(depth, size, nutrient, seeds, algal, symbiotic)
    {
      this.size := size;
      this.depth := depth;
      this.steps := steps;
      this.mercyRate := mercyRate;
      this.radiationEvents := radiationEvents;
      this.symbiotic := symbiotic;
      var base := Nutrients(AllCells(depth, size), nutrient);
      var g := base;
      var k := 0;
      while k < |seeds|
        invariant 0 <= k <= |seeds|
        invariant g == Seeded(base, seeds, k)
      {
        g := g[seeds[k] := 2];
        k := k + 1;
      }
      if symbiotic {
        g := Surfaced(g, algal);
      }
      grid := g;
      InitialCells(depth, size, nutrient, seeds, algal, symbiotic);
    }

    /** `step(current_step)`: `_random` draws come from `rand` from index
      * `start` on, and the maturation and damage masks of step t from
      * `mature(t, _)` and `damage(t, _)`. Returns the next unused draw. */
    method Step(currentStep: int, rand: nat -> real, start: nat, mature: (int, Cell) -> real, damage: (int, Cell) -> real)
      returns (drawn: nat)
      requires Valid()
      modifies this
      ensures Valid()
      ensures Pass(grid, drawn) == StepOutcome(Params(), radiationEvents, old(grid), currentStep, rand, start, mature, damage)
    {
      var g := grid;
      var newGrid;
      newGrid, drawn := GrowPass(g, start, rand);
      if symbiotic {
        newGrid, drawn := SpreadPass(g, newGrid, drawn, rand);
      }
      newGrid := Matured(g, newGrid, currentStep, mature);
      if currentStep in radiationEvents {
        newGrid := Irradiated(g, newGrid, depth, currentStep, damage);
      }
      StepValued(Params(), radiationEvents, g, currentStep, rand, start, mature, damage);
      grid := newGrid;
    }

    /** The growth pass: every hyphae cell of the old grid g, in C order,
      * tries every neighbour offset in order. */
    method GrowPass(g: Grid, start: nat, rand: nat -> real) returns (newGrid: Grid, drawn: nat)
      requires depth > 0 && Shaped(g, depth, size)
      ensures var hs := Where(g, AllCells(depth, size), 2);
        Pass(newGrid, drawn) == GrowAll(Params(), g, Pass(g, start), hs, Neighbors(depth), |hs|, rand)
    {
      var neighbors := Neighbors(depth);
      var hyphaePos := Where(g, AllCells(depth, size), 2);
      newGrid, drawn := g, start;
      var h := 0;
      while h < |hyphaePos|
        invariant 0 <= h <= |hyphaePos|
        invariant Pass(newGrid, drawn) == GrowAll(Params(), g, Pass(g, start), hyphaePos, neighbors, h, rand)
      {
        var k := 0;
        while k < |neighbors|
          invariant 0 <= k <= |neighbors|
          invariant Pass(newGrid, drawn) ==
            GrowRow(Params(), g, GrowAll(Params(), g, Pass(g, start), hyphaePos, neighbors, h, rand), hyphaePos[h], neighbors, k, rand)
        {
          newGrid, drawn := GrowInto(g, newGrid, drawn, hyphaePos[h], neighbors[k], rand);
          k := k + 1;
        }
        h := h + 1;
      }
    }

    /** The algal spread pass: every algal cell of the old grid g, in C
      * order, spreads over the surface if it lies on it. */
    method SpreadPass(g: Grid, ng: Grid, start: nat, rand: nat -> real) returns (newGrid: Grid, drawn: nat)
      requires depth > 0 && Shaped(g, depth, size)
      ensures var als := Where(g, AllCells(depth, size), 4);
        Pass(newGrid, drawn) == SpreadAll(Params(), g, Pass(ng, start), als, Neighbors(depth), |als|, rand)
    {
      var neighbors := Neighbors(depth);
      var algalPos := Where(g, AllCells(depth, size), 4);
      newGrid, drawn := ng, start;
      var h := 0;
      while h < |algalPos|
        invariant 0 <= h <= |algalPos|
        invariant Pass(newGrid, drawn) == SpreadAll(Params(), g, Pass(ng, start), algalPos, neighbors, h, rand)
      {
        var c := algalPos[h];
        if c.0 == 0 {
          var k := 0;
          while k < |neighbors|
            invariant 0 <= k <= |neighbors|
            invariant Pass(newGrid, drawn) ==
              SpreadRow(Params(), g, SpreadAll(Params(), g, Pass(ng, start), algalPos, neighbors, h, rand), c, neighbors, k, rand)
          {
            newGrid, drawn := SpreadInto(g, newGrid, drawn, c, neighbors[k], rand);
            k := k + 1;
          }
        }
        h := h + 1;
      }
    }

    /** The loop of `run`: steps 0 .. steps - 1, each followed by the bound
      * and lichen shares of the grid it leaves. */
    method Simulate(rand: nat -> real, mature: (int, Cell) -> real, damage: (int, Cell) -> real) returns (history: seq<(real, real)>)
      requires Valid()
      modifies this
      ensures Valid()
      ensures grid == Evolve(Params(), radiationEvents, old(grid), Iterations(steps), rand, mature, damage).grid
      ensures history == History(Params(), radiationEvents, old(grid), Iterations(steps), rand, mature, damage)
      ensures InUnit(history)
    {
      ghost var g0 := grid;
      history := [];
      var drawn: nat := 0;
      var step: nat := 0;
      while step < steps
        invariant step <= Iterations(steps)
        invariant Reached(g0, step, drawn, history, rand, mature, damage)
      {
        var metrics;
        drawn, metrics := Iterate(g0, step, rand, drawn, mature, damage, history);
        history := history + [metrics];
        step := step + 1;
      }
      assert step == Iterations(steps);
    }

    /** The state after `step` passes of `run`'s loop from the grid g0: the grid
      * and draw index of that many steps, and their metric history. */
    ghost predicate Reached(g0: Grid, step: nat, drawn: nat, history: seq<(real, real)>, rand: nat -> real,
                            mature: (int, Cell) -> real, damage: (int, Cell) -> real)
      reads this
    {
      && Valid() && Shaped(g0, depth, size)
      && Pass(grid, drawn) == Evolve(Params(), radiationEvents, g0, step, rand, mature, damage)
      && history == History(Params(), radiationEvents, g0, step, rand, mature, damage)
      && InUnit(history)
    }

    /** One pass of `run`'s loop: a step on the grid the earlier steps left,
      * then the metrics of the new grid appended to the history. */
    method Iterate(ghost g0: Grid, step: nat, rand: nat -> real, drawn: nat,
                   mature: (int, Cell) -> real, damage: (int, Cell) -> real, ghost history: seq<(real, real)>)
      returns (drawnAfter: nat, metrics: (real, real))
      requires Reached(g0, step, drawn, history, rand, mature, damage)
      modifies this
      ensures Reached(g0, step + 1, drawnAfter, history + [metrics], rand, mature, damage)
    {
      EvolveNext(Params(), radiationEvents, g0, step, rand, mature, damage);
      HistoryNext(Params(), radiationEvents, g0, step, rand, mature, damage);
      drawnAfter := Step(step, rand, drawn, mature, damage);
      metrics := Metrics(grid, depth, size);
      AppendInUnit(history, metrics);
    }

    /** `run`: the history's last entry gives the final binding, so an empty
      * history raises, here `None`; otherwise the report holds the history
      * and the recovery, the final binding less the lowest one. */
    method Run(rand: nat -> real, mature: (int, Cell) -> real, damage: (int, Cell) -> real) returns (report: Option<Report>)
      requires Valid()
      modifies this
      ensures Valid()
      ensures grid == Evolve(Params(), radiationEvents, old(grid), Iterations(steps), rand, mature, damage).grid
      ensures report.None? <==> steps <= 0
      ensures report.Some? ==>
        && report.value.history == History(Params(), radiationEvents, old(grid), steps, rand, mature, damage)
        && InUnit(report.value.history)
        && report.value.recovery == report.value.history[steps - 1].0 - MinBinding(report.value.history)
        && 0.0 <= report.value.recovery <= 1.0
    {
      var history := Simulate(rand, mature, damage);
      if |history| == 0 {
        return None;
      }
      var finalBinding := history[|history| - 1].0;
      var minBinding := MinBinding(history);
      RecoveryRange(history);
      report := Some(Report(history, finalBinding - minBinding));
    }

    /** The chance of one attempt into `target` at depth z, reading the mercy
      * draw at d only when the window is sparse. */
    method Chance(target: int, z: int, sparse: bool, d: nat, rand: nat -> real) returns (prob: real, d': nat)
      ensures d' == if sparse then d + 1 else d
      ensures prob == GrowthProb(target, Deep(Params(), z), sparse && rand(d) < mercyRate)
    {
      prob := 0.4;
      if target == 1 {
        prob := prob + 0.3;
      }
      if target == 4 {
        prob := prob + 0.4;
      }
      if symbiotic && z > depth / 3 {
        prob := prob * 0.6;
      }
      d' := d;
      if sparse {
        var r := rand(d');
        d' := d' + 1;
        if r < mercyRate {
          prob := prob + 0.5;
        }
      }
    }

    /** One growth attempt into n: the chance, then the growth draw. */
    method TryGrow(ng: Grid, d: nat, n: Cell, target: int, sparse: bool, rand: nat -> real) returns (ng': Grid, d': nat)
      ensures Pass(ng', d') == Attempt(Params(), Pass(ng, d), n, target, sparse, rand)
    {
      var prob;
      prob, d' := Chance(target, n.0, sparse, d, rand);
      var r := rand(d');
      d' := d' + 1;
      ng' := ng;
      if r < prob {
        ng' := ng[n := if target == 4 then 5 else 2];
      }
    }

    /** One growth attempt from hyphae at c along offset o, reading the old
      * grid g and writing the copy ng. */
    method GrowInto(g: Grid, ng: Grid, d: nat, c: Cell, o: Cell, rand: nat -> real) returns (ng': Grid, d': nat)
      requires Shaped(g, depth, size)
      ensures Pass(ng', d') == GrowAt(Params(), g, Pass(ng, d), c, o, rand)
    {
      ng', d' := ng, d;
      var n := (c.0 + o.0, c.1 + o.1, c.2 + o.2);
      assert n == Add(c, o);
      if 0 <= n.0 < depth && 0 <= n.1 < size && 0 <= n.2 < size {
        var target := g[n];
        if target == 0 || target == 1 || target == 4 {
          var sparse := LocalHyphae(g, n, depth, size) < 4;
          ng', d' := TryGrow(ng, d, n, target, sparse, rand);
        }
      }
    }

    /** One spread attempt from surface algae at c along offset o. */
    method SpreadInto(g: Grid, ng: Grid, d: nat, c: Cell, o: Cell, rand: nat -> real) returns (ng': Grid, d': nat)
      requires Shaped(g, depth, size)
      ensures Pass(ng', d') == SpreadAt(Params(), g, Pass(ng, d), c, o, rand)
    {
      ng', d' := ng, d;
      if o.0 == 0 {
        var ny, nx := c.1 + o.1, c.2 + o.2;
        if 0 <= ny < size && 0 <= nx < size && 0 < depth && g[(0, ny, nx)] == 0 {
          var r := rand(d');
          d' := d' + 1;
          if r < 0.2 {
            ng' := ng'[(0, ny, nx) := 4];
          }
        }
      }
    }
  }
}
