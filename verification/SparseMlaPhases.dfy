/** The shared memory of the sparse-MLA prefill kernel under its barriers: 256 threads, each free to make the accesses of
    the current phase in any order and at any speed; a barrier is passed when all have made theirs. */
module SparseMlaPhases {

  /** A piece of shared memory that is always accessed whole: a 16-byte vector of q, a thread's 32 bytes of the tile, one
      bf16 of P, one float of the two reduction halves, one index of the two validity buffers. */
  datatype Cell =
    | Q(row: nat, vec: nat)
    | Tile(row: nat, j: nat)
    | P(head: nat, cand: nat)
    | Red(sum: bool, warp: nat, head: nat)
    | Valid(buf: nat, slot: nat)
  {
    predicate Real() {
      match this
      case Q(row, vec) => row < 16 && vec < 64
      case Tile(row, j) => row < 64 && j < 32
      case P(head, cand) => head < 16 && cand < 64
      case Red(_, warp, head) => warp < 8 && head < 16
      case Valid(buf, slot) => buf < 2 && slot < 64
    }

    function Addr(): nat {
      match this
      case Q(row, vec) => row * 1040 + vec * 16
      case Tile(row, j) => 0x4100 + row * 1040 + j * 32
      case P(head, cand) => 0x14500 + head * 144 + cand * 2
      case Red(sum, warp, head) => 0x14e00 + (if sum then 0x200 else 0) + warp * 0x40 + head * 4
      case Valid(buf, slot) => 0x15200 + buf * 0x100 + slot * 4
    }

    function Size(): nat {
      match this
      case Q(_, _) => 16
      case Tile(_, _) => 32
      case P(_, _) => 2
      case Red(_, _, _) => 4
      case Valid(_, _) => 4
    }
  }

  /** Different cells share no byte, and all lie in the 87040 bytes of the launch. */
  lemma CellsDisjoint(x: Cell, y: Cell)
    requires x.Real() && y.Real() && x != y
    ensures x.Addr() + x.Size() <= y.Addr() || y.Addr() + y.Size() <= x.Addr()
    ensures x.Addr() + x.Size() <= 87040
  {
  }

  /** What a cell holds, by the chunk and the row, candidate, warp or head it was computed from. */
  datatype Tag =
    | Junk
    | QOf(row: nat)
    | TileOf(chunk: nat, row: nat)
    | POf(chunk: nat, head: nat, cand: nat)
    | RedOf(sum: bool, chunk: nat, warp: nat, head: nat)
    | ValidOf(chunk: nat, row: nat)

  datatype Access = Load(cell: Cell) | Store(cell: Cell, tag: Tag)

  /** The stretches between barriers. Chunk c is scored in Score(c), exponentiated in Weigh(c), multiplied with V in
      Mix(c); Refill(c) dequantizes chunk c + 1 over the tile. */
  datatype Phase = Prologue | Fill | Score(c: nat) | Weigh(c: nat) | Mix(c: nat) | Refill(c: nat) | Finished

  function Next(n: nat, ph: Phase): Phase {
    match ph
    case Prologue => if n == 0 then Finished else Fill
    case Fill => Score(0)
    case Score(c) => Weigh(c)
    case Weigh(c) => Mix(c)
    case Mix(c) => if c + 1 < n then Refill(c) else Finished
    case Refill(c) => Score(c + 1)
    case Finished => Finished
  }

  /** The validity buffer's order: row r sits at slot (r & 7) * 8 + (r >> 3), a permutation that is its own inverse. */
  function Permute(r: nat): nat { r % 8 * 8 + r / 8 }

  lemma PermuteTwice(r: nat)
    requires r < 64
    ensures Permute(r) < 64 && Permute(Permute(r)) == r
  {
    var q, m := r / 8, r % 8;
    var p := m * 8 + q;
    assert p % 8 == q && p / 8 == m;
  }

  // ------------------------------------------------------------------ the threads' accesses

  /** Thread numbers: warp, lane, gid = lane >> 2, t4 = lane & 3; as a gatherer, row group g = tid >> 5 and pair j = tid & 31. */
  predicate StoresValid(n: nat, c: nat, tid: nat, a: Access) {
    c < n && tid < 64 && a == Store(Valid(c % 2, Permute(tid)), ValidOf(c, tid))
  }

  predicate LoadsRows(c: nat, tid: nat, a: Access) {
    a.Load? && a.cell.Valid? && a.cell.buf == c % 2 && tid / 32 * 8 <= a.cell.slot < tid / 32 * 8 + 8
  }

  predicate StoresTile(c: nat, tid: nat, a: Access) {
    a.Store? && a.cell.Tile? && a.cell.row < 64 && a.cell.row % 8 == tid / 32 && a.cell.j == tid % 32 && a.tag == TileOf(c, a.cell.row)
  }

  /** Lane 4 gid of a warp stores the warp's reduction of heads gid and gid + 8. */
  predicate StoresRed(sum: bool, c: nat, tid: nat, a: Access) {
    var warp, lane := tid / 32, tid % 32;
    lane % 4 == 0 && a.Store? && a.cell.Red? && a.cell.sum == sum && a.cell.warp == warp
    && (a.cell.head == lane / 4 || a.cell.head == lane / 4 + 8) && a.tag == RedOf(sum, c, warp, a.cell.head)
  }

  predicate LoadsRed(sum: bool, tid: nat, a: Access) {
    var gid := tid % 32 / 4;
    a.Load? && a.cell.Red? && a.cell.sum == sum && a.cell.warp < 8 && (a.cell.head == gid || a.cell.head == gid + 8)
  }

  predicate StoresP(c: nat, tid: nat, a: Access) {
    var warp, gid, t4 := tid / 32, tid % 32 / 4, tid % 4;
    a.Store? && a.cell.P? && (a.cell.head == gid || a.cell.head == gid + 8)
    && (a.cell.cand == 8 * warp + 2 * t4 || a.cell.cand == 8 * warp + 2 * t4 + 1) && a.tag == POf(c, a.cell.head, a.cell.cand)
  }

  /** LDSM rows (lane & 7) + (lane & 8) of an operand, and the 16-byte half picked by lane >> 4. */
  predicate LoadsQ(tid: nat, a: Access) {
    a.Load? && a.cell.Q? && a.cell.row == tid % 16 && a.cell.vec < 64 && a.cell.vec % 2 == tid % 32 / 16
  }

  predicate LoadsP(tid: nat, a: Access) {
    a.Load? && a.cell.P? && a.cell.head == tid % 16 && a.cell.cand < 64 && a.cell.cand / 8 % 2 == tid % 32 / 16
  }

  /** QK: candidate 8 warp + gid, every k; PV: the rows of a k-step and the columns 8 warp + 64 v. */
  predicate LoadsKey(tid: nat, a: Access) {
    a.Load? && a.cell.Tile? && a.cell.row == tid / 32 * 8 + tid % 32 / 4 && a.cell.j < 32
  }

  predicate LoadsValue(tid: nat, a: Access) {
    a.Load? && a.cell.Tile? && a.cell.row < 64 && a.cell.row % 16 == tid % 16 && a.cell.j < 32 && a.cell.j % 4 == tid / 32 / 2
  }

  /** The mask of the thread's two candidates. */
  predicate LoadsMask(c: nat, tid: nat, a: Access) {
    var slot := 16 * (tid % 4) + tid / 32;
    a == Load(Valid(c % 2, slot)) || a == Load(Valid(c % 2, slot + 8))
  }

  /** The accesses of a thread in a phase, for a token of n chunks. */
  predicate Does(n: nat, ph: Phase, tid: nat, a: Access) {
    tid < 256 && match ph
    case Prologue => StoresQ(tid, a) || StoresValid(n, 0, tid, a)
    case Fill => LoadsRows(0, tid, a) || StoresTile(0, tid, a) || StoresValid(n, 1, tid, a)
    case Score(c) => (c + 1 < n && LoadsRows(c + 1, tid, a)) || LoadsQ(tid, a) || LoadsKey(tid, a) || LoadsMask(c, tid, a) || StoresRed(false, c, tid, a)
    case Weigh(c) => LoadsRed(false, tid, a) || StoresP(c, tid, a) || StoresRed(true, c, tid, a)
    case Mix(c) => LoadsRed(true, tid, a) || LoadsP(tid, a) || LoadsValue(tid, a)
    case Refill(c) => StoresTile(c + 1, tid, a) || StoresValid(n, c + 2, tid, a)
    case Finished => false
  }

  /** Vector i = tid + 256 k of q: row i >> 6, vector i & 63. */
  predicate StoresQ(tid: nat, a: Access) {
    a.Store? && a.cell.Q? && a.cell.row < 16 && a.cell.vec == tid % 64 && a.cell.row % 4 == tid / 64 && a.tag == QOf(a.cell.row)
  }

  // ------------------------------------------------------------------ no races

  /** The thread that stores a cell, whenever it is stored. */
  function Owner(x: Cell): nat {
    match x
    case Q(row, vec) => row % 4 * 64 + vec
    case Tile(row, j) => row % 8 * 32 + j
    case P(head, cand) => cand / 8 * 32 + head % 8 * 4 + cand % 8 / 2
    case Red(_, warp, head) => warp * 32 + head % 8 * 4
    case Valid(_, slot) => Permute(slot)
  }

  /** The cells stored in a phase. */
  predicate Written(n: nat, ph: Phase, x: Cell) {
    match ph
    case Prologue => x.Q? || (x.Valid? && x.buf == 0 && 0 < n)
    case Fill => x.Tile? || (x.Valid? && x.buf == 1 && 1 < n)
    case Score(c) => x.Red? && !x.sum
    case Weigh(c) => x.P? || (x.Red? && x.sum)
    case Mix(c) => false
    case Refill(c) => x.Tile? || (x.Valid? && x.buf == c % 2 && c + 2 < n)
    case Finished => false
  }

  /** Warp and lane numbers of a thread, by digits. */
  lemma ThreadDigits(tid: nat) returns (warp: nat, gid: nat, t4: nat)
    requires tid < 256
    ensures warp < 8 && gid < 8 && t4 < 4 && tid == warp * 32 + gid * 4 + t4
    ensures tid / 32 == warp && tid % 32 == gid * 4 + t4 && tid % 32 / 4 == gid && tid % 4 == t4 && tid % 32 % 4 == t4
  {
    warp, gid, t4 := tid / 32, tid % 32 / 4, tid % 4;
  }

  lemma POwner(c: nat, tid: nat, a: Access)
    requires tid < 256 && StoresP(c, tid, a)
    ensures Owner(a.cell) == tid && a.cell.Real()
  {
    var warp, gid, t4 := ThreadDigits(tid);
    var cand := a.cell.cand;
    assert cand / 8 == warp && cand % 8 / 2 == t4;
  }

  lemma RedOwner(sum: bool, c: nat, tid: nat, a: Access)
    requires tid < 256 && StoresRed(sum, c, tid, a)
    ensures Owner(a.cell) == tid && a.cell.Real()
  {
    var warp, gid, t4 := ThreadDigits(tid);
  }

  lemma TileOwner(c: nat, tid: nat, a: Access)
    requires tid < 256 && StoresTile(c, tid, a)
    ensures Owner(a.cell) == tid && a.cell.Real()
  {
  }

  lemma QOwner(tid: nat, a: Access)
    requires tid < 256 && StoresQ(tid, a)
    ensures Owner(a.cell) == tid && a.cell.Real()
  {
  }

  lemma ValidOwner(n: nat, c: nat, tid: nat, a: Access)
    requires StoresValid(n, c, tid, a)
    ensures Owner(a.cell) == tid && a.cell.Real()
  {
    PermuteTwice(tid);
  }

  /** Whatever is stored in a phase is stored by the cell's one owner, and is one of the phase's written cells. */
  lemma StoreOwner(n: nat, ph: Phase, tid: nat, a: Access)
    requires Does(n, ph, tid, a) && a.Store?
    ensures Owner(a.cell) == tid && a.cell.Real() && Written(n, ph, a.cell)
  {
    match ph
    case Prologue =>
      if StoresQ(tid, a) { QOwner(tid, a); } else { ValidOwner(n, 0, tid, a); }
    case Fill =>
      if StoresTile(0, tid, a) { TileOwner(0, tid, a); } else { ValidOwner(n, 1, tid, a); }
    case Score(c) => RedOwner(false, c, tid, a);
    case Weigh(c) =>
      if StoresP(c, tid, a) { POwner(c, tid, a); } else { RedOwner(true, c, tid, a); }
    case Mix(c) =>
    case Refill(c) =>
      if StoresTile(c + 1, tid, a) { TileOwner(c + 1, tid, a); } else { ValidOwner(n, c + 2, tid, a); }
    case Finished =>
  }

  /** Nothing loaded in a phase is stored in it. */
  lemma LoadUnwritten(n: nat, ph: Phase, tid: nat, a: Access)
    requires Does(n, ph, tid, a) && a.Load?
    ensures !Written(n, ph, a.cell)
  {
  }

  /** Within a phase no cell is stored by one thread and accessed by another. */
  lemma NoRace(n: nat, ph: Phase, t1: nat, a1: Access, t2: nat, a2: Access)
    requires Does(n, ph, t1, a1) && Does(n, ph, t2, a2) && t1 != t2 && a1.Store?
    ensures a1.cell != a2.cell
  {
    StoreOwner(n, ph, t1, a1);
    if a2.Store? {
      StoreOwner(n, ph, t2, a2);
    } else {
      LoadUnwritten(n, ph, t2, a2);
    }
  }

  // ------------------------------------------------------------------ what the cells hold

  /** The chunk whose tile is in memory during a phase, and the chunk whose validity a buffer holds, if any. */
  datatype Held = Nothing | Holds(tag: Tag)

  function KeptValid(n: nat, c: nat, x: Cell): Held
    requires x.Valid?
  {
    if c < n && x.buf == c % 2 then Holds(ValidOf(c, Permute(x.slot))) else Nothing
  }

  /** What a cell holds throughout a phase because it was stored before it and is not stored in it. */
  function Kept(n: nat, ph: Phase, x: Cell): Held {
    match ph
    case Prologue => Nothing
    case Fill =>
      (match x case Q(row, _) => Holds(QOf(row)) case Valid(_, _) => KeptValid(n, 0, x) case _ => Nothing)
    case Score(c) =>
      (match x
       case Q(row, _) => Holds(QOf(row))
       case Tile(row, _) => Holds(TileOf(c, row))
       case Valid(buf, _) => if buf == c % 2 then KeptValid(n, c, x) else KeptValid(n, c + 1, x)
       case _ => Nothing)
    case Weigh(c) =>
      (match x
       case Q(row, _) => Holds(QOf(row))
       case Tile(row, _) => Holds(TileOf(c, row))
       case Valid(_, _) => KeptValid(n, c + 1, x)
       case Red(sum, warp, head) => if sum then Nothing else Holds(RedOf(false, c, warp, head))
       case _ => Nothing)
    case Mix(c) =>
      (match x
       case Q(row, _) => Holds(QOf(row))
       case Tile(row, _) => Holds(TileOf(c, row))
       case Valid(_, _) => KeptValid(n, c + 1, x)
       case Red(sum, warp, head) => if sum then Holds(RedOf(true, c, warp, head)) else Nothing
       case P(head, cand) => Holds(POf(c, head, cand)))
    case Refill(c) =>
      (match x case Q(row, _) => Holds(QOf(row)) case Valid(_, _) => KeptValid(n, c + 1, x) case _ => Nothing)
    case Finished => Nothing
  }

  lemma KeptUnwritten(n: nat, ph: Phase, x: Cell)
    requires Kept(n, ph, x).Holds?
    ensures !Written(n, ph, x)
  {
  }

  /** A phase's written cells do get written, with these tags. */
  function StoredTag(ph: Phase, x: Cell): Tag {
    match ph
    case Prologue => (match x case Q(row, _) => QOf(row) case Valid(_, slot) => ValidOf(0, Permute(slot)) case _ => Junk)
    case Fill => (match x case Tile(row, _) => TileOf(0, row) case Valid(_, slot) => ValidOf(1, Permute(slot)) case _ => Junk)
    case Score(c) => (match x case Red(_, warp, head) => RedOf(false, c, warp, head) case _ => Junk)
    case Weigh(c) => (match x case Red(_, warp, head) => RedOf(true, c, warp, head) case P(head, cand) => POf(c, head, cand) case _ => Junk)
    case Mix(c) => Junk
    case Refill(c) => (match x case Tile(row, _) => TileOf(c + 1, row) case Valid(_, slot) => ValidOf(c + 2, Permute(slot)) case _ => Junk)
    case Finished => Junk
  }

  lemma PWritten(c: nat, x: Cell)
    requires x.P? && x.Real()
    ensures Owner(x) < 256 && StoresP(c, Owner(x), Store(x, POf(c, x.head, x.cand)))
  {
    var warp, gid, t4 := x.cand / 8, x.head % 8, x.cand % 8 / 2;
    var tid := warp * 32 + gid * 4 + t4;
    assert tid / 32 == warp && tid % 32 == gid * 4 + t4;
    assert tid % 32 / 4 == gid && tid % 4 == t4;
  }

  lemma RedWritten(c: nat, x: Cell)
    requires x.Red? && x.Real()
    ensures Owner(x) < 256 && StoresRed(x.sum, c, Owner(x), Store(x, RedOf(x.sum, c, x.warp, x.head)))
  {
    var warp, gid := x.warp, x.head % 8;
    var tid := warp * 32 + gid * 4;
    assert tid / 32 == warp && tid % 32 == gid * 4;
  }

  lemma TileWritten(c: nat, x: Cell)
    requires x.Tile? && x.Real()
    ensures Owner(x) < 256 && StoresTile(c, Owner(x), Store(x, TileOf(c, x.row)))
  {
  }

  lemma QWritten(x: Cell)
    requires x.Q? && x.Real()
    ensures Owner(x) < 256 && StoresQ(Owner(x), Store(x, QOf(x.row)))
  {
  }

  lemma ValidWritten(n: nat, c: nat, x: Cell)
    requires x.Valid? && x.Real() && c < n && x.buf == c % 2
    ensures Owner(x) < 256 && StoresValid(n, c, Owner(x), Store(x, ValidOf(c, Permute(x.slot))))
  {
    PermuteTwice(x.slot);
  }

  /** Every written cell is stored by its owner. */
  lemma WrittenStored(n: nat, ph: Phase, x: Cell)
    requires x.Real() && Written(n, ph, x)
    ensures Does(n, ph, Owner(x), Store(x, StoredTag(ph, x)))
  {
    match x
    case Q(_, _) => QWritten(x);
    case Tile(_, _) => TileWritten(if ph.Refill? then ph.c + 1 else 0, x);
    case P(_, _) => PWritten(ph.c, x);
    case Red(_, _, _) => RedWritten(ph.c, x);
    case Valid(_, _) => ValidWritten(n, if ph.Refill? then ph.c + 2 else if ph.Fill? then 1 else 0, x);
  }

  ghost predicate Carries(n: nat, ph: Phase, x: Cell) {
    Kept(n, Next(n, ph), x).Holds? ==>
      || Kept(n, ph, x) == Kept(n, Next(n, ph), x)
      || (Written(n, ph, x) && Kept(n, Next(n, ph), x) == Holds(StoredTag(ph, x)))
  }

  lemma RefillCarries(n: nat, c: nat, x: Cell)
    requires c + 1 < n
    ensures Carries(n, Refill(c), x)
  {
    assert (c + 2) % 2 == c % 2 && (c + 1) % 2 != c % 2;
  }

  lemma ScoreCarries(n: nat, c: nat, x: Cell)
    requires c < n
    ensures Carries(n, Score(c), x) && Carries(n, Weigh(c), x) && Carries(n, Mix(c), x)
  {
    assert (c + 1) % 2 != c % 2;
  }

  /** Across a barrier a cell's content is what was kept, or what the phase just stored. */
  lemma KeptNext(n: nat, ph: Phase, x: Cell)
    requires Within(n, ph)
    ensures Carries(n, ph, x)
  {
    match ph
    case Prologue =>
    case Fill =>
    case Score(c) => ScoreCarries(n, c, x);
    case Weigh(c) => ScoreCarries(n, c, x);
    case Mix(c) => ScoreCarries(n, c, x);
    case Refill(c) => RefillCarries(n, c, x);
    case Finished =>
  }

  /** The chunk of a phase is one of the token's. */
  predicate Within(n: nat, ph: Phase) {
    match ph
    case Fill => 0 < n
    case Score(c) => c < n
    case Weigh(c) => c < n
    case Mix(c) => c < n
    case Refill(c) => c + 1 < n
    case _ => true
  }

  // ------------------------------------------------------------------ runs

  /** What a thread's load is meant to read, from the thread's point of view: as a gatherer in Fill and Score(c) the
      validity of its own eight rows of the chunk it is about to load, as a scorer the q rows, the tile row of its own
      candidate, the validity of its own two candidates, and so on, all of chunk c. */
  function Meant(ph: Phase, tid: nat, x: Cell): Tag {
    var g, warp, gid, t4 := tid / 32, tid / 32, tid % 32 / 4, tid % 4;
    match ph
    case Fill => if x.Valid? then ValidOf(0, g + x.slot % 8 * 8) else Junk
    case Score(c) =>
      (match x
       case Q(_, _) => QOf(tid % 16)
       case Tile(_, _) => TileOf(c, warp * 8 + gid)
       case Valid(buf, slot) =>
         if buf == c % 2 then ValidOf(c, 8 * warp + 2 * t4 + slot % 16 / 8) else ValidOf(c + 1, g + slot % 8 * 8)
       case _ => Junk)
    case Weigh(c) => if x.Red? then RedOf(false, c, x.warp, x.head) else Junk
    case Mix(c) =>
      (match x
       case Red(_, w, head) => RedOf(true, c, w, head)
       case P(_, cand) => POf(c, tid % 16, cand)
       case Tile(row, _) => TileOf(c, row)
       case _ => Junk)
    case _ => Junk
  }

  lemma RowsMeant(n: nat, c: nat, tid: nat, a: Access)
    requires LoadsRows(c, tid, a) && tid < 256 && c < n
    ensures a.cell.Real() && KeptValid(n, c, a.cell) == Holds(ValidOf(c, tid / 32 + a.cell.slot % 8 * 8))
  {
    var g, k := tid / 32, a.cell.slot - tid / 32 * 8;
    assert a.cell.slot == g * 8 + k && a.cell.slot % 8 == k && a.cell.slot / 8 == g;
  }

  lemma MaskMeant(n: nat, c: nat, tid: nat, a: Access)
    requires LoadsMask(c, tid, a) && tid < 256 && c < n
    ensures a.cell.Real() && KeptValid(n, c, a.cell) == Holds(ValidOf(c, 8 * (tid / 32) + 2 * (tid % 4) + a.cell.slot % 16 / 8))
  {
    var warp, gid, t4 := ThreadDigits(tid);
    var h := if a.cell.slot == 16 * t4 + warp then 0 else 1;
    var slot := 16 * t4 + 8 * h + warp;
    assert a.cell.slot == slot;
    assert slot % 8 == warp && slot / 8 == 2 * t4 + h && slot % 16 / 8 == h;
  }

  lemma KeyMeant(tid: nat, a: Access)
    requires tid < 256 && (LoadsKey(tid, a) || LoadsValue(tid, a) || LoadsQ(tid, a) || LoadsP(tid, a))
    ensures a.cell.Real()
  {
    var warp, gid, t4 := ThreadDigits(tid);
  }

  lemma ScoreMeant(n: nat, c: nat, tid: nat, a: Access)
    requires c < n && Does(n, Score(c), tid, a) && a.Load?
    ensures a.cell.Real() && Kept(n, Score(c), a.cell) == Holds(Meant(Score(c), tid, a.cell))
  {
    if a.cell.Valid? {
      if LoadsMask(c, tid, a) {
        MaskMeant(n, c, tid, a);
      } else {
        RowsMeant(n, c + 1, tid, a);
      }
    } else {
      KeyMeant(tid, a);
    }
  }

  lemma MixMeant(n: nat, c: nat, tid: nat, a: Access)
    requires c < n && Does(n, Mix(c), tid, a) && a.Load?
    ensures a.cell.Real() && Kept(n, Mix(c), a.cell) == Holds(Meant(Mix(c), tid, a.cell))
  {
    if !a.cell.Red? {
      KeyMeant(tid, a);
    }
  }

  /** Every load finds a cell that was stored before its phase, is not stored in it, and holds what the thread means. */
  lemma LoadMeant(n: nat, ph: Phase, tid: nat, a: Access)
    requires Within(n, ph) && Does(n, ph, tid, a) && a.Load?
    ensures a.cell.Real() && Kept(n, ph, a.cell) == Holds(Meant(ph, tid, a.cell))
  {
    match ph
    case Prologue =>
    case Fill => RowsMeant(n, 0, tid, a);
    case Score(c) => ScoreMeant(n, c, tid, a);
    case Weigh(c) =>
    case Mix(c) => MixMeant(n, c, tid, a);
    case Refill(c) =>
    case Finished =>
  }

  lemma StoreTagged(n: nat, ph: Phase, tid: nat, a: Access)
    requires Does(n, ph, tid, a) && a.Store?
    ensures a.tag == StoredTag(ph, a.cell)
  {
    if a.cell.Valid? {
      PermuteTwice(tid);
    }
  }

  /** The phase all threads are in, the accesses made in it so far, and the memory. */
  datatype State = State(ph: Phase, done: set<(nat, Access)>, mem: Cell -> Tag)

  predicate Init(s: State) { s.ph == Prologue && s.done == {} }

  /** Some thread makes one of its outstanding accesses of the phase. */
  ghost predicate Acts(n: nat, s: State, s': State, tid: nat, a: Access) {
    && Does(n, s.ph, tid, a) && (tid, a) !in s.done
    && s'.ph == s.ph && s'.done == s.done + {(tid, a)}
    && forall x :: s'.mem(x) == if a.Store? && a.cell == x then a.tag else s.mem(x)
  }

  /** The barrier opens once every access of the phase has been made. */
  ghost predicate Opens(n: nat, s: State, s': State) {
    && s.ph != Finished && (forall tid: nat, a :: Does(n, s.ph, tid, a) ==> (tid, a) in s.done)
    && s'.ph == Next(n, s.ph) && s'.done == {} && forall x :: s'.mem(x) == s.mem(x)
  }

  ghost predicate Step(n: nat, s: State, s': State) {
    Opens(n, s, s') || exists tid: nat, a :: Acts(n, s, s', tid, a)
  }

  ghost predicate Run(n: nat, tr: seq<State>) {
    |tr| > 0 && Init(tr[0]) && forall i :: 0 <= i < |tr| - 1 ==> Step(n, tr[i], tr[i + 1])
  }

  ghost predicate Inv(n: nat, s: State) {
    && Within(n, s.ph)
    && (forall x: Cell :: x.Real() && Kept(n, s.ph, x).Holds? ==> s.mem(x) == Kept(n, s.ph, x).tag)
    && forall tid: nat, a :: (tid, a) in s.done ==> Does(n, s.ph, tid, a) && (a.Store? ==> s.mem(a.cell) == a.tag)
  }

  lemma ActsKeepsInv(n: nat, s: State, s': State, tid: nat, a: Access)
    requires Inv(n, s) && Acts(n, s, s', tid, a)
    ensures Inv(n, s')
  {
    if a.Store? {
      StoreOwner(n, s.ph, tid, a);
      forall x: Cell | x.Real() && Kept(n, s.ph, x).Holds?
        ensures s'.mem(x) == Kept(n, s.ph, x).tag
      {
        KeptUnwritten(n, s.ph, x);
      }
      forall t: nat, b | (t, b) in s'.done && b.Store?
        ensures s'.mem(b.cell) == b.tag
      {
        if b.cell == a.cell {
          StoreTagged(n, s.ph, t, b);
          StoreTagged(n, s.ph, tid, a);
        }
      }
    }
  }

  lemma OpensKeepsInv(n: nat, s: State, s': State)
    requires Inv(n, s) && Opens(n, s, s')
    ensures Inv(n, s')
  {
    forall x: Cell | x.Real() && Kept(n, s'.ph, x).Holds?
      ensures s'.mem(x) == Kept(n, s'.ph, x).tag
    {
      KeptNext(n, s.ph, x);
      if Written(n, s.ph, x) {
        WrittenStored(n, s.ph, x);
        assert (Owner(x), Store(x, StoredTag(s.ph, x))) in s.done;
      }
    }
  }

  lemma {:induction false} RunInv(n: nat, tr: seq<State>, i: nat)
    requires Run(n, tr) && i < |tr|
    ensures Inv(n, tr[i])
  {
    if i > 0 {
      RunInv(n, tr, i - 1);
      var s, s' := tr[i - 1], tr[i];
      assert Step(n, s, s');
      if Opens(n, s, s') {
        OpensKeepsInv(n, s, s');
      } else {
        var tid: nat, a :| Acts(n, s, s', tid, a);
        ActsKeepsInv(n, s, s', tid, a);
      }
    }
  }

  /** In every run, at whatever moment of its phase a thread makes a load, it reads what it means to read: chunk c is
      scored, exponentiated and mixed against chunk c's tile, validity, maxima, sums and P, and chunk c + 1 is gathered
      with chunk c + 1's validity. */
  lemma LoadsAreRight(n: nat, tr: seq<State>, i: nat, tid: nat, a: Access)
    requires Run(n, tr) && i < |tr| && Does(n, tr[i].ph, tid, a) && a.Load?
    ensures tr[i].mem(a.cell) == Meant(tr[i].ph, tid, a.cell)
  {
    RunInv(n, tr, i);
    LoadMeant(n, tr[i].ph, tid, a);
  }

  /** The phase after k barriers. */
  function PhaseAt(n: nat, k: nat): Phase { if k == 0 then Prologue else Next(n, PhaseAt(n, k - 1)) }

  /** The phase of index 4 c + d, 2 <= d < 6. */
  function PhaseOf(c: nat, d: nat): Phase {
    if d == 2 then Score(c) else if d == 3 then Weigh(c) else if d == 4 then Mix(c) else Refill(c)
  }

  lemma {:induction false} ChunkPhases(n: nat, c: nat, d: nat)
    requires c < n && 2 <= d <= 5 && (d == 5 ==> c + 1 < n)
    ensures PhaseAt(n, 4 * c + d) == PhaseOf(c, d)
    decreases c, d
  {
    if d > 2 {
      ChunkPhases(n, c, d - 1);
    } else if c > 0 {
      ChunkPhases(n, c - 1, 5);
      assert 4 * c + 2 == (4 * (c - 1) + 5) + 1;
    } else {
      assert PhaseAt(n, 1) == Fill;
    }
  }

  lemma {:induction false} AfterLast(n: nat, k: nat)
    requires n > 0 && k > 4 * n
    ensures PhaseAt(n, k) == Finished
  {
    if k == 4 * n + 1 {
      ChunkPhases(n, n - 1, 4);
    } else {
      AfterLast(n, k - 1);
    }
  }

  /** A token of n chunks passes 4 n + 1 barriers, and each chunk is scored in exactly one phase. */
  lemma EveryChunkOnce(n: nat, c: nat, k: nat)
    requires c < n
    ensures PhaseAt(n, k) == Score(c) <==> k == 4 * c + 2
    ensures PhaseAt(n, 4 * n) == Mix(n - 1) && (k > 4 * n ==> PhaseAt(n, k) == Finished)
  {
    ChunkPhases(n, c, 2);
    ChunkPhases(n, n - 1, 4);
    if k > 4 * n {
      AfterLast(n, k);
    } else if k >= 2 {
      var b := (k - 2) / 4;
      var d := k - 4 * b;
      ChunkPhases(n, b, d);
    } else {
      assert k == 0 || k == 1;
    }
  }
}
