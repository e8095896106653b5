/** The MoE rows quantized on a side stream before the router: one marker, a ring of two buffer sets, a fork event and a
    done event per set, and the launcher that takes the buffers when they are its tensor's. */
module Prequant {

  import opened Options

  /** A tensor as the marker knows it: pointer and shape. */
  datatype Tensor = Tensor(ptr: nat, rows: nat, cols: nat)

  datatype Marker = Marker(tensor: Tensor, cap: nat, k: nat, slot: nat)

  /** A buffer set and its done event: the operations before it when it was last recorded. */
  datatype Slot = Slot(buffer: nat, done: set<nat>)

  /** What a buffer set holds: the quantization of a tensor at one of its versions, or bytes of a tensor that was written
      while it was being quantized. */
  datatype Content = Empty | QuantOf(tensor: Tensor, version: nat) | Torn

  /** A rewrite of a buffer set: what is ordered before it, and the reads of that set enqueued so far. */
  datatype Rewrite = Rewrite(op: nat, buffer: nat, past: set<nat>, readers: set<nat>)

  /** The launch plan of a step, and whether the checks on classes, dtypes and extensions let the side launch happen. */
  datatype Plan = Plan(usable: bool, cap: nat, k: nat, topk: nat) {
    predicate Fits(t: Tensor) { usable && t.rows <= cap && t.cols == k && k % 128 == 0 && t.rows * topk >= 32 }
  }

  /** The device: the two streams (operations are numbered in launch order; a clock is what is ordered before a stream's
      next operation), the buffer sets allocated, their contents and readers, the number of writes of each tensor, the
      rewrites of buffer sets, and the side quantizations launched and joined. */
  datatype Device = Device(main: set<nat>, side: set<nat>, ops: nat, buffers: nat, content: map<nat, Content>,
                           readers: map<nat, set<nat>>, writes: map<nat, nat>, rewrites: seq<Rewrite>, launched: seq<nat>, joined: seq<nat>)
  {
    /** A model-stream operation of its own. */
    function Enqueue(): Device { this.(main := main + {ops}, ops := ops + 1) }

    /** Two fresh buffer sets. */
    function Allocate(): Device {
      this.(buffers := buffers + 2, content := content[buffers := Empty][buffers + 1 := Empty], readers := readers[buffers := {}][buffers + 1 := {}])
    }

    /** The model stream waits on the done event of the last side launch. */
    function Join(done: set<nat>): Device
      requires launched != []
    {
      this.(main := main + done, joined := joined + [launched[|launched| - 1]])
    }

    /** The fork event, the side stream's wait on it, the quantize of a tensor into a buffer set, the done event. */
    function Quantize(t: Tensor, buffer: nat): Device
      requires buffer in readers
    {
      this.(side := side + main + {ops}, ops := ops + 1, content := content[buffer := QuantOf(t, Version(writes, t.ptr))],
            rewrites := rewrites + [Rewrite(ops, buffer, side + main, readers[buffer])], launched := launched + [ops])
    }

    /** A model-stream kernel writes a tensor; a buffer set being filled from it is torn. */
    function Write(ptr: nat, torn: Option<nat>): Device {
      Enqueue().(writes := writes[ptr := Version(writes, ptr) + 1], content := if torn.Some? then content[torn.value := Torn] else content)
    }

    /** A model-stream kernel reads a buffer set. */
    function Read(buffer: nat): Device
      requires buffer in readers
    {
      Enqueue().(readers := readers[buffer := readers[buffer] + {ops}])
    }
  }

  /** The context's fields and the device it enqueues on. */
  datatype State = State(marker: Option<Marker>, ring: seq<Slot>, key: (nat, nat), turn: nat, misses: nat, dev: Device)

  /** A tensor's present version is the number of its writes. */
  function Version(writes: map<nat, nat>, ptr: nat): nat { if ptr in writes then writes[ptr] else 0 }

  /** What the marker's buffers hold. */
  function Held(s: State): Content {
    if s.marker.Some? && s.marker.value.slot < |s.ring| && s.ring[s.marker.value.slot].buffer in s.dev.content
    then s.dev.content[s.ring[s.marker.value.slot].buffer] else Empty
  }

  // ------------------------------------------------------------------ the operations

  const START := State(None, [], (0, 0), 0, 0, Device({}, {}, 0, 0, map[], map[], map[], [], [], []))

  /** The model stream waits for the marker's set; the marker is gone. */
  function Waited(s: State): State {
    if s.marker.None? || s.marker.value.slot >= |s.ring| || s.dev.launched == [] then s
    else s.(marker := None, dev := s.dev.Join(s.ring[s.marker.value.slot].done))
  }

  function Missing(s: State): State { if s.marker.Some? then Waited(s).(misses := s.misses + 1) else s }

  /** Two fresh buffer sets when the capacity or K changed; otherwise the ring stays. */
  function WithRing(s: State, cap: nat, k: nat): State {
    if s.ring != [] && s.key == (cap, k) then s
    else s.(ring := [Slot(s.dev.buffers, {}), Slot(s.dev.buffers + 1, {})], key := (cap, k), turn := 0, dev := s.dev.Allocate())
  }

  /** The side launch into the turn's set, and its marker. */
  function Forked(s: State, t: Tensor, plan: Plan): State {
    if s.turn >= |s.ring| || s.ring[s.turn].buffer !in s.dev.readers then s
    else
      var d := s.dev.Quantize(t, s.ring[s.turn].buffer);
      s.(marker := Some(Marker(t, plan.cap, plan.k, s.turn)), ring := s.ring[s.turn := Slot(s.ring[s.turn].buffer, d.side)],
         turn := if s.turn == 0 then 1 else 0, dev := d)
  }

  function Begun(on: bool, s: State, t: Tensor, plan: Plan): State {
    if on && plan.Fits(t) then Forked(WithRing(Missing(s), plan.cap, plan.k), t, plan) else Missing(s)
  }

  /** The buffers a launch is handed: the marker's, when pointer, shape, capacity and K all match. */
  function Handed(s: State, t: Tensor, cap: nat, k: nat): Option<nat> {
    if s.marker.Some? && s.marker.value.slot < |s.ring| && s.marker.value.tensor == t && s.marker.value.cap == cap && s.marker.value.k == k
    then Some(s.ring[s.marker.value.slot].buffer) else None
  }

  function Took(s: State, t: Tensor, cap: nat, k: nat): State { if Handed(s, t, cap, k).Some? then Waited(s) else Missing(s) }

  /** The buffer set being filled from a tensor, if any. */
  function Filling(s: State, ptr: nat): Option<nat> {
    if s.marker.Some? && s.marker.value.tensor.ptr == ptr && s.marker.value.slot < |s.ring|
    then Some(s.ring[s.marker.value.slot].buffer) else None
  }

  /** A model-stream kernel writes a tensor: a pending quantization of it is torn. */
  function Wrote(s: State, ptr: nat): State { s.(dev := s.dev.Write(ptr, Filling(s, ptr))) }

  /** The fused kernel reads the buffers it was handed. */
  function Read(s: State, buffer: nat): State { if buffer in s.dev.readers then s.(dev := s.dev.Read(buffer)) else s }

  function Launched(s: State, t: Tensor, cap: nat, k: nat): State {
    var r := Handed(s, t, cap, k);
    if r.Some? then Read(Took(s, t, cap, k), r.value) else Took(s, t, cap, k)
  }

  // ------------------------------------------------------------------ the invariant, in closed parts

  /** The parts of the invariant open only where Open is mentioned. */
  ghost predicate Open(k: int) { true }

  /** Launches are numbered in order. The joined ones are exactly those behind the model stream: all but a pending one. */
  ghost predicate Launches(launched: seq<nat>, joined: seq<nat>, main: set<nat>, ops: nat, pending: bool) {
    forall k {:trigger Open(k)} :: k == 0 ==>
      && (forall i, j :: 0 <= i < j < |launched| ==> launched[i] < launched[j])
      && (forall i :: 0 <= i < |launched| ==> launched[i] < ops)
      && (if pending then |launched| > 0 && joined == launched[..|launched| - 1] else joined == launched)
      && forall i :: 0 <= i < |launched| ==> (launched[i] in main <==> i < |joined|)
  }

  /** Clocks hold operations that have been numbered. */
  ghost predicate Clocks(main: set<nat>, side: set<nat>, ring: seq<Slot>, ops: nat) {
    forall k {:trigger Open(k)} :: k == 0 ==>
      && (forall x :: x in main ==> x < ops) && (forall x :: x in side ==> x < ops)
      && forall i, x :: 0 <= i < |ring| && x in ring[i].done ==> x < ops
  }

  ghost predicate RingOk(ring: seq<Slot>, turn: nat, content: map<nat, Content>, readers: map<nat, set<nat>>, buffers: nat) {
    forall k {:trigger Open(k)} :: k == 0 ==>
      && (|ring| == 0 || |ring| == 2) && turn < 2
      && (forall i :: 0 <= i < |ring| ==> ring[i].buffer in content && ring[i].buffer in readers && ring[i].buffer < buffers)
      && (|ring| == 2 ==> ring[0].buffer != ring[1].buffer)
      && (forall b :: b in readers ==> b < buffers) && forall b :: b in content ==> b < buffers
  }

  /** The pending buffers hold the marked tensor at its present version, unless it was written meanwhile. */
  ghost predicate Pending(s: State) {
    forall k {:trigger Open(k)} :: k == 0 && s.marker.Some? ==>
      var m := s.marker.value;
      && m.slot < |s.ring| == 2 && s.ring[m.slot].buffer in s.dev.content && s.key == (m.cap, m.k)
      && |s.dev.launched| > 0 && s.dev.launched[|s.dev.launched| - 1] in s.ring[m.slot].done
      && (Held(s) == QuantOf(m.tensor, Version(s.dev.writes, m.tensor.ptr)) || Held(s) == Torn)
  }

  /** No buffer set was rewritten before its earlier readers. */
  ghost predicate Ordered(readers: map<nat, set<nat>>, main: set<nat>, rewrites: seq<Rewrite>) {
    forall k {:trigger Open(k)} :: k == 0 ==>
      && (forall b :: b in readers ==> readers[b] <= main)
      && forall i :: 0 <= i < |rewrites| ==> rewrites[i].readers <= rewrites[i].past
  }

  ghost predicate Consistent(s: State) {
    && Launches(s.dev.launched, s.dev.joined, s.dev.main, s.dev.ops, s.marker.Some?) && Clocks(s.dev.main, s.dev.side, s.ring, s.dev.ops)
    && RingOk(s.ring, s.turn, s.dev.content, s.dev.readers, s.dev.buffers) && Pending(s) && Ordered(s.dev.readers, s.dev.main, s.dev.rewrites)
  }

  // ------------------------------------------------------------------ what each operation keeps

  lemma PendingOpens(s: State)
    requires Pending(s) && s.marker.Some?
    ensures var m := s.marker.value; m.slot < |s.ring| == 2 && |s.dev.launched| > 0 && s.dev.launched[|s.dev.launched| - 1] in s.ring[m.slot].done
    ensures var m := s.marker.value; s.ring[m.slot].buffer in s.dev.content && s.key == (m.cap, m.k)
    ensures var t := s.marker.value.tensor; Held(s) == QuantOf(t, Version(s.dev.writes, t.ptr)) || Held(s) == Torn
  {
    assert Open(0);
  }

  lemma RingOpens(s: State)
    requires Consistent(s)
    ensures (|s.ring| == 0 || |s.ring| == 2) && s.turn < 2
    ensures forall i :: 0 <= i < |s.ring| ==> s.ring[i].buffer in s.dev.readers && s.ring[i].buffer in s.dev.content
  {
    assert Open(0);
  }

  lemma WaitLaunches(launched: seq<nat>, joined: seq<nat>, main: set<nat>, done: set<nat>, ops: nat)
    requires Launches(launched, joined, main, ops, true) && |launched| > 0 && launched[|launched| - 1] in done
    ensures Launches(launched, joined + [launched[|launched| - 1]], main + done, ops, false)
  {
    assert Open(0);
    assert joined + [launched[|launched| - 1]] == launched;
  }

  lemma ClocksJoin(main: set<nat>, side: set<nat>, ring: seq<Slot>, ops: nat, slot: nat)
    requires Clocks(main, side, ring, ops) && slot < |ring|
    ensures Clocks(main + ring[slot].done, side, ring, ops)
  {
    assert Open(0);
  }

  lemma OrderedGrows(readers: map<nat, set<nat>>, main: set<nat>, more: set<nat>, rewrites: seq<Rewrite>)
    requires Ordered(readers, main, rewrites)
    ensures Ordered(readers, main + more, rewrites)
  {
    assert Open(0);
  }

  lemma WaitKeeps(s: State)
    requires Consistent(s) && s.marker.Some?
    ensures Consistent(Waited(s)) && Waited(s).marker.None?
  {
    PendingOpens(s);
    var slot := s.marker.value.slot;
    WaitLaunches(s.dev.launched, s.dev.joined, s.dev.main, s.ring[slot].done, s.dev.ops);
    ClocksJoin(s.dev.main, s.dev.side, s.ring, s.dev.ops, slot);
    OrderedGrows(s.dev.readers, s.dev.main, s.ring[slot].done, s.dev.rewrites);
  }

  lemma MissKeeps(s: State)
    requires Consistent(s)
    ensures Consistent(Missing(s)) && Missing(s).marker.None?
  {
    if s.marker.Some? {
      WaitKeeps(s);
    }
  }

  lemma FreshRing(ring: seq<Slot>, turn: nat, content: map<nat, Content>, readers: map<nat, set<nat>>, b: nat)
    requires RingOk(ring, turn, content, readers, b)
    ensures RingOk([Slot(b, {}), Slot(b + 1, {})], 0, content[b := Empty][b + 1 := Empty], readers[b := {}][b + 1 := {}], b + 2)
  {
    assert Open(0);
  }

  lemma FreshOrdered(readers: map<nat, set<nat>>, main: set<nat>, rewrites: seq<Rewrite>, b: nat)
    requires Ordered(readers, main, rewrites)
    ensures Ordered(readers[b := {}][b + 1 := {}], main, rewrites)
  {
    assert Open(0);
  }

  lemma FreshClocks(main: set<nat>, side: set<nat>, ring: seq<Slot>, ops: nat, b: nat)
    requires Clocks(main, side, ring, ops)
    ensures Clocks(main, side, [Slot(b, {}), Slot(b + 1, {})], ops)
  {
    assert Open(0);
  }

  lemma RingKeeps(s: State, cap: nat, k: nat)
    requires Consistent(s) && s.marker.None?
    ensures Consistent(WithRing(s, cap, k)) && |WithRing(s, cap, k).ring| == 2 && WithRing(s, cap, k).key == (cap, k)
    ensures WithRing(s, cap, k).marker.None?
  {
    RingOpens(s);
    FreshRing(s.ring, s.turn, s.dev.content, s.dev.readers, s.dev.buffers);
    FreshOrdered(s.dev.readers, s.dev.main, s.dev.rewrites, s.dev.buffers);
    FreshClocks(s.dev.main, s.dev.side, s.ring, s.dev.ops, s.dev.buffers);
  }

  lemma ForkLaunches(launched: seq<nat>, joined: seq<nat>, main: set<nat>, side: set<nat>, ring: seq<Slot>, ops: nat)
    requires Launches(launched, joined, main, ops, false) && Clocks(main, side, ring, ops)
    ensures Launches(launched + [ops], joined, main, ops + 1, true)
  {
    assert Open(0);
    assert (launched + [ops])[..|launched|] == launched;
  }

  lemma ForkClocks(main: set<nat>, side: set<nat>, ring: seq<Slot>, ops: nat, slot: nat, buffer: nat)
    requires Clocks(main, side, ring, ops) && slot < |ring|
    ensures Clocks(main, side + main + {ops}, ring[slot := Slot(buffer, side + main + {ops})], ops + 1)
  {
    assert Open(0);
  }

  lemma ForkRing(ring: seq<Slot>, turn: nat, content: map<nat, Content>, readers: map<nat, set<nat>>, buffers: nat,
                 slot: nat, next: nat, done: set<nat>, q: Content)
    requires RingOk(ring, turn, content, readers, buffers) && slot < |ring| && next < 2
    ensures RingOk(ring[slot := Slot(ring[slot].buffer, done)], next, content[ring[slot].buffer := q], readers, buffers)
  {
    assert Open(0);
  }

  lemma ForkOrdered(readers: map<nat, set<nat>>, main: set<nat>, side: set<nat>, rewrites: seq<Rewrite>, op: nat, buffer: nat)
    requires Ordered(readers, main, rewrites) && buffer in readers
    ensures Ordered(readers, main, rewrites + [Rewrite(op, buffer, side + main, readers[buffer])])
  {
    assert Open(0);
  }

  lemma PendingCloses(s: State, m: Marker)
    requires s.marker == Some(m) && m.slot < |s.ring| == 2 && s.ring[m.slot].buffer in s.dev.content && s.key == (m.cap, m.k)
    requires |s.dev.launched| > 0 && s.dev.launched[|s.dev.launched| - 1] in s.ring[m.slot].done
    requires Held(s) == QuantOf(m.tensor, Version(s.dev.writes, m.tensor.ptr))
    ensures Pending(s)
  {
  }

  /** After the fork the marker's buffers hold the tensor as it is. */
  lemma ForkPending(s: State, t: Tensor, plan: Plan)
    requires |s.ring| == 2 && s.turn < 2 && s.ring[s.turn].buffer in s.dev.readers && s.key == (plan.cap, plan.k)
    ensures Pending(Forked(s, t, plan)) && Held(Forked(s, t, plan)) == QuantOf(t, Version(s.dev.writes, t.ptr))
  {
    PendingCloses(Forked(s, t, plan), Marker(t, plan.cap, plan.k, s.turn));
  }

  lemma ForkKeeps(s: State, t: Tensor, plan: Plan)
    requires Consistent(s) && s.marker.None? && |s.ring| == 2 && s.key == (plan.cap, plan.k)
    ensures Consistent(Forked(s, t, plan)) && Held(Forked(s, t, plan)) == QuantOf(t, Version(s.dev.writes, t.ptr))
    ensures Forked(s, t, plan).marker == Some(Marker(t, plan.cap, plan.k, s.turn)) && Forked(s, t, plan).dev.writes == s.dev.writes
  {
    RingOpens(s);
    var buffer, done := s.ring[s.turn].buffer, s.dev.side + s.dev.main + {s.dev.ops};
    ForkLaunches(s.dev.launched, s.dev.joined, s.dev.main, s.dev.side, s.ring, s.dev.ops);
    ForkClocks(s.dev.main, s.dev.side, s.ring, s.dev.ops, s.turn, buffer);
    ForkRing(s.ring, s.turn, s.dev.content, s.dev.readers, s.dev.buffers, s.turn, if s.turn == 0 then 1 else 0, done,
             QuantOf(t, Version(s.dev.writes, t.ptr)));
    ForkOrdered(s.dev.readers, s.dev.main, s.dev.side, s.dev.rewrites, s.dev.ops, buffer);
    ForkPending(s, t, plan);
  }

  /** A qualifying begin leaves one quantization pending, of the tensor as it is; any other leaves none. */
  lemma BeginKeeps(on: bool, s: State, t: Tensor, plan: Plan)
    requires Consistent(s)
    ensures var u := Begun(on, s, t, plan);
      Consistent(u) && u.dev.writes == s.dev.writes && u.misses == (s.misses + if s.marker.Some? then 1 else 0)
      && if on && plan.Fits(t) then
           u.marker.Some? && u.marker.value == Marker(t, plan.cap, plan.k, u.marker.value.slot) && Held(u) == QuantOf(t, Version(s.dev.writes, t.ptr))
         else u.marker.None?
  {
    MissKeeps(s);
    if on && plan.Fits(t) {
      var m := Missing(s);
      RingKeeps(m, plan.cap, plan.k);
      ForkKeeps(WithRing(m, plan.cap, plan.k), t, plan);
    }
  }

  /** A take leaves nothing pending, and hands out the marker's buffers as they are. */
  lemma TakeKeeps(s: State, t: Tensor, cap: nat, k: nat)
    requires Consistent(s)
    ensures var u, r := Took(s, t, cap, k), Handed(s, t, cap, k);
      Consistent(u) && u.marker.None? && u.dev.writes == s.dev.writes && u.misses == (s.misses + if s.marker.Some? && r.None? then 1 else 0)
      && (r.Some? <==> s.marker.Some? && s.marker.value == Marker(t, cap, k, s.marker.value.slot))
      && (r.Some? ==> r.value in u.dev.readers && r.value in u.dev.content && u.dev.content[r.value] == Held(s))
  {
    MissKeeps(s);
    RingOpens(s);
    if s.marker.Some? {
      PendingOpens(s);
      WaitKeeps(s);
    }
  }

  /** An operation of the model stream gets a number no launch has. */
  lemma MainLaunches(launched: seq<nat>, joined: seq<nat>, main: set<nat>, ops: nat, pending: bool)
    requires Launches(launched, joined, main, ops, pending)
    ensures Launches(launched, joined, main + {ops}, ops + 1, pending)
  {
    assert Open(0);
  }

  lemma MainClocks(main: set<nat>, side: set<nat>, ring: seq<Slot>, ops: nat)
    requires Clocks(main, side, ring, ops)
    ensures Clocks(main + {ops}, side, ring, ops + 1)
  {
    assert Open(0);
  }

  /** A write tears a pending quantization of its tensor and no other. */
  lemma WritePending(s: State, ptr: nat)
    requires Pending(s)
    ensures Pending(Wrote(s, ptr))
    ensures s.marker.Some? ==> Held(Wrote(s, ptr)) == if s.marker.value.tensor.ptr == ptr then Torn else Held(s)
  {
    assert Open(0);
  }

  lemma WriteRing(s: State, ptr: nat)
    requires RingOk(s.ring, s.turn, s.dev.content, s.dev.readers, s.dev.buffers)
    ensures RingOk(s.ring, s.turn, Wrote(s, ptr).dev.content, s.dev.readers, s.dev.buffers)
  {
    assert Open(0);
  }

  lemma WriteKeeps(s: State, ptr: nat)
    requires Consistent(s)
    ensures Consistent(Wrote(s, ptr)) && Wrote(s, ptr).marker == s.marker && Wrote(s, ptr).misses == s.misses
    ensures s.marker.Some? ==> Held(Wrote(s, ptr)) == if s.marker.value.tensor.ptr == ptr then Torn else Held(s)
    ensures forall q :: Version(Wrote(s, ptr).dev.writes, q) == Version(s.dev.writes, q) + if q == ptr then 1 else 0
  {
    WritePending(s, ptr);
    WriteRing(s, ptr);
    MainLaunches(s.dev.launched, s.dev.joined, s.dev.main, s.dev.ops, s.marker.Some?);
    MainClocks(s.dev.main, s.dev.side, s.ring, s.dev.ops);
    OrderedGrows(s.dev.readers, s.dev.main, {s.dev.ops}, s.dev.rewrites);
  }

  lemma ReadRing(ring: seq<Slot>, turn: nat, content: map<nat, Content>, readers: map<nat, set<nat>>, buffers: nat, buffer: nat, r: set<nat>)
    requires RingOk(ring, turn, content, readers, buffers) && buffer in readers
    ensures RingOk(ring, turn, content, readers[buffer := r], buffers)
  {
    assert Open(0);
  }

  lemma ReadOrdered(readers: map<nat, set<nat>>, main: set<nat>, rewrites: seq<Rewrite>, buffer: nat, op: nat)
    requires Ordered(readers, main, rewrites) && buffer in readers
    ensures Ordered(readers[buffer := readers[buffer] + {op}], main + {op}, rewrites)
  {
    assert Open(0);
  }

  lemma ReadKeeps(s: State, buffer: nat)
    requires Consistent(s) && s.marker.None? && buffer in s.dev.readers
    ensures Consistent(Read(s, buffer))
  {
    ReadRing(s.ring, s.turn, s.dev.content, s.dev.readers, s.dev.buffers, buffer, s.dev.readers[buffer] + {s.dev.ops});
    ReadOrdered(s.dev.readers, s.dev.main, s.dev.rewrites, buffer, s.dev.ops);
    MainLaunches(s.dev.launched, s.dev.joined, s.dev.main, s.dev.ops, false);
    MainClocks(s.dev.main, s.dev.side, s.ring, s.dev.ops);
  }

  lemma LaunchKeeps(s: State, t: Tensor, cap: nat, k: nat)
    requires Consistent(s)
    ensures Consistent(Launched(s, t, cap, k)) && Launched(s, t, cap, k).marker.None? && Launched(s, t, cap, k).dev.writes == s.dev.writes
    ensures Launched(s, t, cap, k).misses == s.misses + if s.marker.Some? && Handed(s, t, cap, k).None? then 1 else 0
  {
    TakeKeeps(s, t, cap, k);
    var r := Handed(s, t, cap, k);
    if r.Some? {
      ReadKeeps(Took(s, t, cap, k), r.value);
    }
  }

  // ------------------------------------------------------------------ the context

  /** _MOET_PREQUANT_CTX, with the device it enqueues on. */
  class Context {
    const on: bool
    var marker: Option<Marker>
    var ring: seq<Slot>
    var key: (nat, nat)
    var turn: nat
    var misses: nat
    var device: Device

    function View(): State
      reads this
    {
      State(marker, ring, key, turn, misses, device)
    }

    ghost predicate Valid()
      reads this
    {
      Consistent(View())
    }

    constructor (enabled: bool)
      ensures Valid() && View() == START && on == enabled
    {
      on := enabled;
      marker, ring, key, turn, misses, device := None, [], (0, 0), 0, 0, START.dev;
      new;
      Initial(View());
    }

    /** The model stream waits on the done event of the marker's set. */
    method Wait() returns (m: Marker)
      requires Valid() && marker.Some?
      modifies `marker, `device
      ensures Valid() && View() == Waited(old(View())) && m == old(marker).value && marker.None?
    {
      PendingOpens(View());
      WaitKeeps(View());
      m := marker.value;
      device := device.Join(ring[m.slot].done);
      marker := None;
    }

    /** _moet_prequant_join_pending. */
    method JoinPending()
      requires Valid()
      modifies `marker, `device, `misses
      ensures Valid() && View() == Missing(old(View())) && marker.None?
    {
      MissKeeps(View());
      if marker.Some? {
        var m := Wait();
        misses := misses + 1;
      }
    }

    /** Two fresh buffer sets when the capacity or K changed; otherwise the ring stays. */
    method EnsureRing(cap: nat, k: nat)
      requires Valid() && marker.None?
      modifies `ring, `key, `turn, `device
      ensures Valid() && View() == WithRing(old(View()), cap, k) && |ring| == 2 && key == (cap, k)
      ensures if old(ring) == [] || old(key) != (cap, k) then
                old(device).buffers <= ring[0].buffer < ring[1].buffer < device.buffers && turn == 0
              else ring == old(ring) && device == old(device) && turn == old(turn)
    {
      RingKeeps(View(), cap, k);
      if ring == [] || key != (cap, k) {
        ring, key, turn := [Slot(device.buffers, {}), Slot(device.buffers + 1, {})], (cap, k), 0;
        device := device.Allocate();
      }
    }

    /** fork.record(main); side.wait_event(fork); quantize; done.record(side); the marker. */
    method Fork(t: Tensor, plan: Plan)
      requires Valid() && marker.None? && |ring| == 2 && key == (plan.cap, plan.k)
      modifies `marker, `ring, `turn, `device
      ensures Valid() && View() == Forked(old(View()), t, plan)
      ensures marker == Some(Marker(t, plan.cap, plan.k, old(turn))) && Held(View()) == QuantOf(t, Version(device.writes, t.ptr))
    {
      RingOpens(View());
      ForkKeeps(View(), t, plan);
      var slot := turn;
      turn := if turn == 0 then 1 else 0;
      device := device.Quantize(t, ring[slot].buffer);
      ring := ring[slot := Slot(ring[slot].buffer, device.side)];
      marker := Some(Marker(t, plan.cap, plan.k, slot));
    }

    /** _moet_prequant_begin: join what nobody took; then, if the step qualifies, the side launch. */
    method Begin(t: Tensor, plan: Plan)
      requires Valid()
      modifies this
      ensures Valid() && View() == Begun(on, old(View()), t, plan)
      ensures misses == old(misses) + (if old(marker).Some? then 1 else 0)
      ensures marker.Some? <==> on && plan.usable && t.rows <= plan.cap && t.cols == plan.k && plan.k % 128 == 0 && t.rows * plan.topk >= 32
      ensures marker.Some? ==> Held(View()) == QuantOf(t, Version(device.writes, t.ptr))
    {
      BeginKeeps(on, View(), t, plan);
      JoinPending();
      if on && plan.Fits(t) {
        EnsureRing(plan.cap, plan.k);
        Fork(t, plan);
      }
    }

    /** _moet_prequant_take: the marker is cleared and its quantization joined either way. */
    method Take(t: Tensor, cap: nat, k: nat) returns (r: Option<nat>)
      requires Valid()
      modifies `marker, `device, `misses
      ensures Valid() && View() == Took(old(View()), t, cap, k) && marker.None? && r == Handed(old(View()), t, cap, k)
      ensures r.Some? <==> old(marker).Some? && old(marker).value == Marker(t, cap, k, old(marker).value.slot)
      ensures misses == old(misses) + if old(marker).Some? && r.None? then 1 else 0
      ensures r.Some? ==> r.value in device.content && device.content[r.value] == Held(old(View()))
    {
      TakeKeeps(View(), t, cap, k);
      r := None;
      if marker.Some? {
        PendingOpens(View());
        var m := Wait();
        if m.tensor != t || m.cap != cap || m.k != k {
          misses := misses + 1;
        } else {
          r := Some(ring[m.slot].buffer);
        }
      }
    }

    /** A model-stream kernel that writes a tensor: a pending quantization of it is torn, one of another tensor is not. */
    method WriteTensor(ptr: nat)
      requires Valid()
      modifies `device
      ensures Valid() && View() == Wrote(old(View()), ptr)
      ensures forall q :: Version(device.writes, q) == Version(old(device).writes, q) + if q == ptr then 1 else 0
      ensures marker.Some? ==> Held(View()) == if marker.value.tensor.ptr == ptr then Torn else Held(old(View()))
    {
      WriteKeeps(View(), ptr);
      device := device.Write(ptr, Filling(View(), ptr));
    }

    /** The fused kernel reads the buffers it was handed. */
    method ReadBuffers(buffer: nat)
      requires Valid() && marker.None? && buffer in device.readers
      modifies `device
      ensures Valid() && View() == Read(old(View()), buffer)
      ensures buffer in device.readers && old(device).ops in device.readers[buffer]
    {
      ReadKeeps(View(), buffer);
      device := device.Read(buffer);
    }

    /** The launcher's fused path: the buffers are taken, and read at once. */
    method Launch(t: Tensor, cap: nat, k: nat) returns (r: Option<nat>)
      requires Valid()
      modifies `marker, `device, `misses
      ensures Valid() && View() == Launched(old(View()), t, cap, k) && r == Handed(old(View()), t, cap, k)
    {
      TakeKeeps(View(), t, cap, k);
      r := Take(t, cap, k);
      if r.Some? {
        ReadBuffers(r.value);
      }
    }

    /** One call; only a take may hand out buffers. */
    method Issue(c: Call) returns (r: Option<nat>)
      requires Valid()
      modifies this
      ensures Valid() && View() == Applied(on, old(View()), c) && r == Answer(old(View()), c)
    {
      r := None;
      match c {
        case Begin(t, plan) => Begin(t, plan);
        case Take(t, cap, k) => r := Launch(t, cap, k);
        case Join => JoinPending();
        case Write(ptr) => WriteTensor(ptr);
      }
    }
  }

  lemma Initial(s: State)
    requires s == START
    ensures Consistent(s)
  {
  }

  // ------------------------------------------------------------------ any sequence of calls

  datatype Call =
    | Begin(t: Tensor, plan: Plan)
    | Take(t: Tensor, cap: nat, k: nat)
    | Join
    | Write(ptr: nat)

  function Applied(on: bool, s: State, c: Call): State {
    match c
    case Begin(t, plan) => Begun(on, s, t, plan)
    case Take(t, cap, k) => Launched(s, t, cap, k)
    case Join => Missing(s)
    case Write(ptr) => Wrote(s, ptr)
  }

  /** The buffers a call is handed. */
  function Answer(s: State, c: Call): Option<nat> { if c.Take? then Handed(s, c.t, c.cap, c.k) else None }

  /** The state before call n. */
  ghost function Before(on: bool, calls: seq<Call>, n: nat): State
    requires n <= |calls|
  {
    if n == 0 then START else Applied(on, Before(on, calls, n - 1), calls[n - 1])
  }

  /** The call whose quantization is pending before call n: a qualifying begin with no begin, take or join after it. */
  function PendingBegin(on: bool, calls: seq<Call>, n: nat): (b: Option<nat>)
    requires n <= |calls|
    ensures b.Some? ==> b.value < n && calls[b.value].Begin? && on && calls[b.value].plan.Fits(calls[b.value].t)
  {
    if n == 0 then None
    else match calls[n - 1]
      case Begin(t, plan) => if on && plan.Fits(t) then Some(n - 1) else None
      case Take(_, _, _) => None
      case Join => None
      case Write(_) => PendingBegin(on, calls, n - 1)
  }

  /** How often the first n calls write a tensor. */
  function Writes(calls: seq<Call>, n: nat, ptr: nat): nat
    requires n <= |calls|
  {
    if n == 0 then 0 else Writes(calls, n - 1, ptr) + if calls[n - 1] == Write(ptr) then 1 else 0
  }

  ghost predicate WrittenBetween(calls: seq<Call>, b: nat, n: nat, ptr: nat)
    requires n <= |calls|
  {
    exists i :: b < i < n && calls[i] == Write(ptr)
  }

  /** What the buffers of the begin at b are to hold before call n: its tensor as it was at the begin, torn exactly when the
      tensor has been written since. */
  ghost function Outcome(calls: seq<Call>, b: nat, n: nat): Content
    requires b < n <= |calls| && calls[b].Begin?
  {
    if WrittenBetween(calls, b, n, calls[b].t.ptr) then Torn else QuantOf(calls[b].t, Writes(calls, b, calls[b].t.ptr))
  }

  /** Call i is to be handed the buffers of the pending begin: tensor, shape, capacity and K are the begin's. */
  predicate HandsOut(on: bool, calls: seq<Call>, i: nat)
    requires i < |calls|
  {
    var b := PendingBegin(on, calls, i);
    && calls[i].Take? && b.Some? && calls[b.value].t == calls[i].t
    && calls[b.value].plan.cap == calls[i].cap && calls[b.value].plan.k == calls[i].k
  }

  /** Pending quantizations that a begin, a join or a take of something else gave up on, among the first n calls. */
  function Missed(on: bool, calls: seq<Call>, n: nat): nat
    requires n <= |calls|
  {
    if n == 0 then 0
    else Missed(on, calls, n - 1) + if PendingBegin(on, calls, n - 1).Some? && !calls[n - 1].Write? && !HandsOut(on, calls, n - 1) then 1 else 0
  }

  /** The state agrees with what the calls so far determine. */
  ghost predicate Follows(s: State, on: bool, calls: seq<Call>, n: nat)
    requires n <= |calls|
  {
    && Consistent(s) && s.misses == Missed(on, calls, n) && (forall ptr :: Version(s.dev.writes, ptr) == Writes(calls, n, ptr))
    && match PendingBegin(on, calls, n)
       case None => s.marker.None?
       case Some(b) =>
         && s.marker.Some? && s.marker.value == Marker(calls[b].t, calls[b].plan.cap, calls[b].plan.k, s.marker.value.slot)
         && Held(s) == Outcome(calls, b, n)
  }

  /** What call i is handed is what is promised of the begin at b. */
  ghost predicate HoldsOutcome(s: State, calls: seq<Call>, b: nat, i: nat)
    requires b < i < |calls| && calls[b].Begin?
  {
    var r := Answer(s, calls[i]);
    r.Some? && r.value in s.dev.content && s.dev.content[r.value] == Outcome(calls, b, i)
  }

  lemma NotYetWritten(calls: seq<Call>, b: nat)
    requires b < |calls| && calls[b].Begin?
    ensures Outcome(calls, b, b + 1) == QuantOf(calls[b].t, Writes(calls, b, calls[b].t.ptr))
  {
  }

  /** A write since the begin, or none. */
  lemma OutcomeNext(calls: seq<Call>, b: nat, n: nat)
    requires b < n < |calls| && calls[b].Begin? && calls[n].Write?
    ensures Outcome(calls, b, n + 1) == if calls[n].ptr == calls[b].t.ptr then Torn else Outcome(calls, b, n)
  {
    var ptr := calls[b].t.ptr;
    if calls[n].ptr == ptr {
      assert calls[n] == Write(ptr);
    } else if WrittenBetween(calls, b, n + 1, ptr) {
      var i :| b < i < n + 1 && calls[i] == Write(ptr);
      assert i < n;
    }
  }

  lemma FollowsBegin(s: State, on: bool, calls: seq<Call>, n: nat)
    requires n < |calls| && Follows(s, on, calls, n) && calls[n].Begin?
    ensures Follows(Begun(on, s, calls[n].t, calls[n].plan), on, calls, n + 1)
  {
    BeginKeeps(on, s, calls[n].t, calls[n].plan);
    NotYetWritten(calls, n);
  }

  lemma FollowsTake(s: State, on: bool, calls: seq<Call>, n: nat)
    requires n < |calls| && Follows(s, on, calls, n) && calls[n].Take?
    ensures Follows(Launched(s, calls[n].t, calls[n].cap, calls[n].k), on, calls, n + 1)
  {
    TakeKeeps(s, calls[n].t, calls[n].cap, calls[n].k);
    LaunchKeeps(s, calls[n].t, calls[n].cap, calls[n].k);
  }

  lemma FollowsWrite(s: State, on: bool, calls: seq<Call>, n: nat)
    requires n < |calls| && Follows(s, on, calls, n) && calls[n].Write?
    ensures Follows(Wrote(s, calls[n].ptr), on, calls, n + 1)
  {
    WriteKeeps(s, calls[n].ptr);
    var b := PendingBegin(on, calls, n);
    if b.Some? {
      OutcomeNext(calls, b.value, n);
    }
  }

  lemma FollowsNext(s: State, on: bool, calls: seq<Call>, n: nat)
    requires n < |calls| && Follows(s, on, calls, n)
    ensures Follows(Applied(on, s, calls[n]), on, calls, n + 1)
  {
    match calls[n]
    case Begin(t, plan) => FollowsBegin(s, on, calls, n);
    case Take(t, cap, k) => FollowsTake(s, on, calls, n);
    case Join => MissKeeps(s);
    case Write(ptr) => FollowsWrite(s, on, calls, n);
  }

  lemma {:induction false} BeforeFollows(on: bool, calls: seq<Call>, n: nat)
    requires n <= |calls|
    ensures Follows(Before(on, calls, n), on, calls, n)
  {
    if n == 0 {
      Initial(START);
    } else {
      BeforeFollows(on, calls, n - 1);
      FollowsNext(Before(on, calls, n - 1), on, calls, n - 1);
    }
  }

  /** In every sequence of calls, buffers are handed out exactly when a matching begin is pending, and they hold that begin's
      tensor as it was then; they are torn exactly when the tensor was written in between. */
  lemma HandOut(on: bool, calls: seq<Call>, i: nat)
    requires i < |calls|
    ensures Answer(Before(on, calls, i), calls[i]).Some? <==> HandsOut(on, calls, i)
    ensures HandsOut(on, calls, i) ==> HoldsOutcome(Before(on, calls, i), calls, PendingBegin(on, calls, i).value, i)
  {
    BeforeFollows(on, calls, i);
    var s := Before(on, calls, i);
    if calls[i].Take? {
      TakeKeeps(s, calls[i].t, calls[i].cap, calls[i].k);
      if s.marker.Some? {
        PendingOpens(s);
      }
    }
  }

  /** Untorn buffers hold the tensor as it is when they are handed out. */
  lemma {:induction false} OutcomeIsCurrent(calls: seq<Call>, b: nat, n: nat)
    requires b < n <= |calls| && calls[b].Begin?
    ensures Outcome(calls, b, n) == Torn || Outcome(calls, b, n) == QuantOf(calls[b].t, Writes(calls, n, calls[b].t.ptr))
  {
    var ptr := calls[b].t.ptr;
    if n == b + 1 {
      assert Writes(calls, n, ptr) == Writes(calls, b, ptr);
    } else {
      OutcomeIsCurrent(calls, b, n - 1);
      if !WrittenBetween(calls, b, n, ptr) {
        assert calls[n - 1] != Write(ptr);
        assert !WrittenBetween(calls, b, n - 1, ptr);
      }
    }
  }

  /** In every sequence of calls: side quantizations are numbered in order, at most the last is not joined, exactly the joined
      ones are behind the model stream, each once, and no buffer set was rewritten before its earlier readers. */
  lemma JoinedOnce(on: bool, calls: seq<Call>, n: nat)
    requires n <= |calls|
    ensures var s := Before(on, calls, n);
      && s.dev.joined <= s.dev.launched && |s.dev.launched| == |s.dev.joined| + (if PendingBegin(on, calls, n).Some? then 1 else 0)
      && (forall i, j :: 0 <= i < j < |s.dev.launched| ==> s.dev.launched[i] < s.dev.launched[j])
      && (forall i :: 0 <= i < |s.dev.launched| ==> (s.dev.launched[i] in s.dev.main <==> i < |s.dev.joined|))
      && forall i :: 0 <= i < |s.dev.rewrites| ==> s.dev.rewrites[i].readers <= s.dev.rewrites[i].past
  {
    BeforeFollows(on, calls, n);
    assert Open(0);
  }

  // ------------------------------------------------------------------ reads and rewrites

  /** Reads stay on record, and every rewrite added is of a buffer set with all its reads so far. */
  ghost predicate Records(d: Device, e: Device) {
    && (forall b :: b in d.readers ==> b in e.readers && d.readers[b] <= e.readers[b])
    && d.rewrites <= e.rewrites
    && forall j :: |d.rewrites| <= j < |e.rewrites| && e.rewrites[j].buffer in d.readers ==> d.readers[e.rewrites[j].buffer] <= e.rewrites[j].readers
  }

  lemma FreshRecords(s: State, cap: nat, k: nat)
    requires Consistent(s)
    ensures Records(s.dev, WithRing(s, cap, k).dev)
  {
    assert Open(0);
  }

  lemma BeginRecords(on: bool, s: State, t: Tensor, plan: Plan)
    requires Consistent(s)
    ensures Records(s.dev, Begun(on, s, t, plan).dev)
  {
    MissKeeps(s);
    FreshRecords(Missing(s), plan.cap, plan.k);
  }

  lemma AppliedRecords(on: bool, s: State, c: Call)
    requires Consistent(s)
    ensures Records(s.dev, Applied(on, s, c).dev)
  {
    if c.Begin? {
      BeginRecords(on, s, c.t, c.plan);
    }
  }

  /** The fused launch of a take that is handed a buffer set is the next operation, and it is on record as a reader. */
  lemma TakeReads(s: State, t: Tensor, cap: nat, k: nat)
    requires Consistent(s) && Handed(s, t, cap, k).Some?
    ensures var b, u := Handed(s, t, cap, k).value, Launched(s, t, cap, k);
      u.dev.ops == s.dev.ops + 1 && s.dev.ops in u.dev.main && b in u.dev.readers && s.dev.ops in u.dev.readers[b] && u.dev.rewrites == s.dev.rewrites
  {
    TakeKeeps(s, t, cap, k);
  }

  /** Operation op reads buffer set b: on record now, and ordered before every rewrite of the set from number from on. */
  ghost predicate ReadKept(d: Device, b: nat, op: nat, from: nat) {
    && b in d.readers && op in d.readers[b] && from <= |d.rewrites|
    && forall j :: from <= j < |d.rewrites| && d.rewrites[j].buffer == b ==> op in d.rewrites[j].readers && op in d.rewrites[j].past
  }

  lemma ReadKeptNext(d: Device, e: Device, b: nat, op: nat, from: nat)
    requires Records(d, e) && ReadKept(d, b, op, from) && forall j :: 0 <= j < |e.rewrites| ==> e.rewrites[j].readers <= e.rewrites[j].past
    ensures ReadKept(e, b, op, from)
  {
    forall j | from <= j < |e.rewrites| && e.rewrites[j].buffer == b
      ensures op in e.rewrites[j].readers
    {
      assert j < |d.rewrites| ==> e.rewrites[j] == d.rewrites[j];
    }
  }

  lemma ReadStays(on: bool, s: State, c: Call, b: nat, op: nat, from: nat)
    requires Consistent(s) && Consistent(Applied(on, s, c)) && ReadKept(s.dev, b, op, from)
    ensures ReadKept(Applied(on, s, c).dev, b, op, from)
  {
    AppliedRecords(on, s, c);
    OrderedOpens(Applied(on, s, c).dev);
    ReadKeptNext(s.dev, Applied(on, s, c).dev, b, op, from);
  }

  lemma OrderedOpens(d: Device)
    requires Ordered(d.readers, d.main, d.rewrites)
    ensures forall j :: 0 <= j < |d.rewrites| ==> d.rewrites[j].readers <= d.rewrites[j].past
  {
    assert Open(0);
  }

  /** The read is kept in the state before call n; closed. */
  ghost predicate KeptBefore(on: bool, calls: seq<Call>, n: nat, b: nat, op: nat, from: nat)
    requires n <= |calls|
  {
    forall k {:trigger Open(k)} :: k == 0 ==> ReadKept(Before(on, calls, n).dev, b, op, from)
  }

  lemma KeptNext(on: bool, calls: seq<Call>, n: nat, b: nat, op: nat, from: nat)
    requires n < |calls| && KeptBefore(on, calls, n, b, op, from)
    ensures KeptBefore(on, calls, n + 1, b, op, from)
  {
    var s := Before(on, calls, n);
    assert ReadKept(s.dev, b, op, from) by {
      assert Open(0);
    }
    BeforeFollows(on, calls, n);
    BeforeFollows(on, calls, n + 1);
    ReadStays(on, s, calls[n], b, op, from);
  }

  lemma {:induction false} KeptFrom(on: bool, calls: seq<Call>, m: nat, n: nat, b: nat, op: nat, from: nat)
    requires m <= n <= |calls| && KeptBefore(on, calls, m, b, op, from)
    ensures KeptBefore(on, calls, n, b, op, from)
  {
    if m < n {
      KeptFrom(on, calls, m, n - 1, b, op, from);
      KeptNext(on, calls, n - 1, b, op, from);
    }
  }

  lemma TakeKept(on: bool, s: State, c: Call, b: nat)
    requires Consistent(s) && Answer(s, c) == Some(b)
    ensures ReadKept(Applied(on, s, c).dev, b, s.dev.ops, |s.dev.rewrites|)
  {
    TakeReads(s, c.t, c.cap, c.k);
  }

  lemma TakeKeptBefore(on: bool, calls: seq<Call>, i: nat, b: nat, op: nat, from: nat)
    requires i < |calls| && Answer(Before(on, calls, i), calls[i]) == Some(b)
    requires op == Before(on, calls, i).dev.ops && from == |Before(on, calls, i).dev.rewrites|
    ensures KeptBefore(on, calls, i + 1, b, op, from)
  {
    var s := Before(on, calls, i);
    BeforeFollows(on, calls, i);
    TakeKept(on, s, calls[i], b);
    var u := Applied(on, s, calls[i]);
    assert ReadKept(u.dev, b, op, from);
    assert Before(on, calls, i + 1) == u;
  }

  /** When call i hands out a buffer set, its launch is the next operation and reads the set; every later rewrite of that set
      counts the launch among the reads before it and is ordered behind it. */
  lemma ReadBeforeRewrite(on: bool, calls: seq<Call>, i: nat, n: nat, b: nat, op: nat, from: nat)
    requires i < n <= |calls| && Answer(Before(on, calls, i), calls[i]) == Some(b)
    requires op == Before(on, calls, i).dev.ops && from == |Before(on, calls, i).dev.rewrites|
    ensures KeptBefore(on, calls, n, b, op, from)
  {
    TakeKeptBefore(on, calls, i, b, op, from);
    KeptFrom(on, calls, i + 1, n, b, op, from);
  }

  /** A state reached by the first n calls, closed. */
  ghost predicate Reached(s: State, on: bool, calls: seq<Call>, n: nat)
    requires n <= |calls|
  {
    forall k {:trigger Open(k)} :: k == 0 ==> s == Before(on, calls, n)
  }

  /** The answers to the first n calls. */
  ghost predicate Answered(taken: seq<Option<nat>>, on: bool, calls: seq<Call>, n: nat)
    requires n <= |calls|
  {
    |taken| == n && forall i :: 0 <= i < n ==> taken[i] == Answer(Before(on, calls, i), calls[i])
  }

  lemma ReachedFirst(s: State, on: bool, calls: seq<Call>, n: nat)
    requires s == START && n == 0
    ensures Reached(s, on, calls, n) && Answered([], on, calls, n)
  {
    assert Before(on, calls, n) == START;
  }

  lemma ReachedNext(s: State, u: State, on: bool, calls: seq<Call>, n: nat)
    requires n < |calls| && Reached(s, on, calls, n) && u == Applied(on, s, calls[n])
    ensures Reached(u, on, calls, n + 1)
  {
    assert Open(0);
  }

  lemma AnsweredNext(s: State, on: bool, calls: seq<Call>, n: nat, taken: seq<Option<nat>>, r: Option<nat>)
    requires n < |calls| && Reached(s, on, calls, n) && Answered(taken, on, calls, n) && r == Answer(s, calls[n])
    ensures Answered(taken + [r], on, calls, n + 1)
  {
    assert s == Before(on, calls, n) by {
      assert Open(0);
    }
    var more := taken + [r];
    forall i | 0 <= i < n + 1
      ensures more[i] == Answer(Before(on, calls, i), calls[i])
    {
      assert i == n || more[i] == taken[i];
    }
  }

  lemma ReachedFollows(s: State, on: bool, calls: seq<Call>, n: nat)
    requires n <= |calls| && Reached(s, on, calls, n)
    ensures s.misses == Missed(on, calls, n) && (s.marker.Some? <==> PendingBegin(on, calls, n).Some?)
  {
    assert Open(0);
    BeforeFollows(on, calls, n);
  }

  lemma AnsweredHands(taken: seq<Option<nat>>, on: bool, calls: seq<Call>)
    requires Answered(taken, on, calls, |calls|)
    ensures forall i :: 0 <= i < |calls| ==> (taken[i].Some? <==> HandsOut(on, calls, i))
  {
    forall i | 0 <= i < |calls|
      ensures taken[i].Some? <==> HandsOut(on, calls, i)
    {
      HandOut(on, calls, i);
    }
  }

  /** The context run over any sequence of calls. */
  method Replay(on: bool, calls: seq<Call>) returns (taken: seq<Option<nat>>, misses: nat, pending: bool)
    ensures misses == Missed(on, calls, |calls|) && (pending <==> PendingBegin(on, calls, |calls|).Some?)
    ensures |taken| == |calls| && forall i :: 0 <= i < |calls| ==> taken[i] == Answer(Before(on, calls, i), calls[i])
    ensures forall i :: 0 <= i < |calls| ==> (taken[i].Some? <==> HandsOut(on, calls, i))
  {
    var c := new Context(on);
    taken := [];
    ReachedFirst(c.View(), on, calls, 0);
    for i := 0 to |calls|
      invariant c.Valid() && fresh(c) && c.on == on && Reached(c.View(), on, calls, i) && Answered(taken, on, calls, i)
    {
      ghost var s := c.View();
      var r := c.Issue(calls[i]);
      ReachedNext(s, c.View(), on, calls, i);
      AnsweredNext(s, on, calls, i, taken, r);
      taken := taken + [r];
    }
    ReachedFollows(c.View(), on, calls, |calls|);
    AnsweredHands(taken, on, calls);
    misses, pending := c.misses, c.marker.Some?;
  }

  // ------------------------------------------------------------------ one layer

  lemma WrittenIsIn(calls: seq<Call>, b: nat, i: nat, ptr: nat)
    requires b < i <= |calls|
    ensures WrittenBetween(calls, b, i, ptr) <==> Write(ptr) in calls[b + 1..i]
  {
    var between := calls[b + 1..i];
    if Write(ptr) in between {
      var j :| 0 <= j < |between| && between[j] == Write(ptr);
      assert calls[b + 1 + j] == Write(ptr);
    }
    if WrittenBetween(calls, b, i, ptr) {
      var j :| b < j < i && calls[j] == Write(ptr);
      assert between[j - b - 1] == Write(ptr);
    }
  }

  /** A layer step: a begin, any kernels of the model stream, the launch. It is handed buffers exactly when the step qualifies
      and the launch asks for the same rows; they hold the tensor as it was at the begin, torn exactly when one of those
      kernels wrote it. */
  lemma Layer(on: bool, calls: seq<Call>, b: nat, i: nat)
    requires b < i < |calls| && calls[b].Begin? && calls[i].Take? && forall j :: b < j < i ==> calls[j].Write?
    ensures var plan, r := calls[b].plan, Answer(Before(on, calls, i), calls[i]);
            r.Some? <==> on && plan.usable && calls[i] == Take(calls[b].t, plan.cap, plan.k)
                         && calls[b].t.rows <= plan.cap && calls[b].t.cols == plan.k && plan.k % 128 == 0 && calls[b].t.rows * plan.topk >= 32
    ensures var s, t := Before(on, calls, i), calls[b].t;
            var r := Answer(s, calls[i]);
            r.Some? ==> (r.value in s.dev.content && s.dev.content[r.value] ==
            if Write(t.ptr) in calls[b + 1..i] then Torn else QuantOf(t, Version(Before(on, calls, b).dev.writes, t.ptr)))
  {
    PendingStays(on, calls, b, i);
    HandOut(on, calls, i);
    BeforeFollows(on, calls, b);
    WrittenIsIn(calls, b, i, calls[b].t.ptr);
  }

  lemma {:induction false} PendingStays(on: bool, calls: seq<Call>, b: nat, i: nat)
    requires b < i <= |calls| && calls[b].Begin? && forall j :: b < j < i ==> calls[j].Write?
    ensures PendingBegin(on, calls, i) == if on && calls[b].plan.Fits(calls[b].t) then Some(b) else None
  {
    if b + 1 < i {
      PendingStays(on, calls, b, i - 1);
    }
  }
}
