/** Deferring the mHC side-stream work: streams ordered by launch order, recorded events and waits, the program that
    launches each boundary's side work at once, and the capture that queues it behind the attention's first GEMV. */
module SideDefer {

  // ------------------------------------------------------------------ streams

  /** A kernel launch with everything that happens before it. */
  datatype Launch = Launch(kernel: nat, past: set<nat>)

  /** Per stream: the kernels ordered before whatever is enqueued next, and the launches so far. Stream 0 is the model's. */
  datatype Device = Device(clock: seq<set<nat>>, log: seq<seq<Launch>>) {
    predicate Streams(n: nat) { |clock| == n && |log| == n && n > 0 }
  }

  function Launched(d: Device, s: nat, k: nat): Device
    requires s < |d.clock| == |d.log|
  {
    Device(d.clock[s := d.clock[s] + {k}], d.log[s := d.log[s] + [Launch(k, d.clock[s])]])
  }

  function LaunchedAll(d: Device, s: nat, ks: seq<nat>): (r: Device)
    requires s < |d.clock| == |d.log|
    ensures |r.clock| == |d.clock| && |r.log| == |d.log|
    decreases |ks|
  {
    if ks == [] then d else LaunchedAll(Launched(d, s, ks[0]), s, ks[1..])
  }

  /** wait_event: later work of the stream comes after the event. */
  function Waited(d: Device, s: nat, event: set<nat>): Device
    requires s < |d.clock| == |d.log|
  {
    d.(clock := d.clock[s := d.clock[s] + event])
  }

  /** A boundary's side work: its stream, the event recorded behind the boundary kernel, its kernels, the boundary. */
  datatype Work = Work(side: nat, event: set<nat>, kernels: seq<nat>, boundary: nat)

  predicate OnSide(d: Device, w: Work) { 0 < w.side < |d.clock| == |d.log| }

  function RunWork(d: Device, w: Work): (r: Device)
    requires OnSide(d, w)
    ensures |r.clock| == |d.clock| && |r.log| == |d.log|
  {
    LaunchedAll(Waited(d, w.side, w.event), w.side, w.kernels)
  }

  // ------------------------------------------------------------------ the program without deferral

  /** What the decoder layers issue: a kernel, a tag, a boundary with its side work, the attention's first GEMV, a join. */
  datatype Command =
    | Kernel(k: nat)
    | Tag(side: nat)
    | Boundary(side: nat, k: nat, work: seq<nat>)
    | Gemv(k: nat)
    | Join(side: nat)
  {
    predicate Uses(n: nat) {
      match this
      case Kernel(_) => true
      case Gemv(_) => true
      case Tag(side) => 0 < side < n
      case Boundary(side, _, _) => 0 < side < n
      case Join(side) => 0 < side < n
    }
  }

  /** The device and the boundaries whose side work has been launched, in launch order. */
  datatype Program = Program(dev: Device, launched: seq<nat>, boundaries: nat) {
    predicate Valid() { dev.Streams(|dev.clock|) }
  }

  function Begin(n: nat): (p: Program)
    requires n > 0
    ensures p.Valid() && |p.dev.clock| == n
  {
    Program(Device(seq(n, i => {}), seq(n, i => [])), [], 0)
  }

  /** Every boundary launches its side work behind its kernel at once. */
  function Direct(p: Program, c: Command): (r: Program)
    requires p.Valid() && c.Uses(|p.dev.clock|)
    ensures r.Valid() && |r.dev.clock| == |p.dev.clock|
  {
    match c
    case Kernel(k) => p.(dev := Launched(p.dev, 0, k))
    case Gemv(k) => p.(dev := Launched(p.dev, 0, k))
    case Tag(_) => p
    case Boundary(side, k, work) =>
      var d := Launched(p.dev, 0, k);
      Program(RunWork(d, Work(side, d.clock[0], work, p.boundaries)), p.launched + [p.boundaries], p.boundaries + 1)
    case Join(side) => p.(dev := Waited(p.dev, 0, p.dev.clock[side]))
  }

  function DirectAll(n: nat, cs: seq<Command>): (p: Program)
    requires n > 0 && forall i :: 0 <= i < |cs| ==> cs[i].Uses(n)
    ensures p.Valid() && |p.dev.clock| == n
  {
    if cs == [] then Begin(n) else Direct(DirectAll(n, cs[..|cs| - 1]), cs[|cs| - 1])
  }

  // ------------------------------------------------------------------ side work commutes with the model stream

  lemma {:induction false} LaunchesCommute(d: Device, s: nat, ks: seq<nat>, k: nat)
    requires 0 < s < |d.clock| == |d.log|
    ensures LaunchedAll(Launched(d, 0, k), s, ks) == Launched(LaunchedAll(d, s, ks), 0, k)
    decreases |ks|
  {
    if ks != [] {
      assert Launched(Launched(d, 0, k), s, ks[0]) == Launched(Launched(d, s, ks[0]), 0, k);
      LaunchesCommute(Launched(d, s, ks[0]), s, ks[1..], k);
    }
  }

  /** Launching a kernel on the model stream before or after queued side work gives every kernel the same past. */
  lemma WorkCommutes(d: Device, w: Work, k: nat)
    requires OnSide(d, w)
    ensures RunWork(Launched(d, 0, k), w) == Launched(RunWork(d, w), 0, k)
  {
    assert Waited(Launched(d, 0, k), w.side, w.event) == Launched(Waited(d, w.side, w.event), 0, k);
    LaunchesCommute(Waited(d, w.side, w.event), w.side, w.kernels, k);
  }

  /** Side work leaves the model stream alone. */
  lemma {:induction false} LaunchesKeepMain(d: Device, s: nat, ks: seq<nat>)
    requires 0 < s < |d.clock| == |d.log|
    ensures LaunchedAll(d, s, ks).clock[0] == d.clock[0] && LaunchedAll(d, s, ks).log[0] == d.log[0]
    decreases |ks|
  {
    if ks != [] {
      LaunchesKeepMain(Launched(d, s, ks[0]), s, ks[1..]);
    }
  }

  lemma WorkKeepsMain(d: Device, w: Work)
    requires OnSide(d, w)
    ensures RunWork(d, w).clock[0] == d.clock[0] && RunWork(d, w).log[0] == d.log[0]
  {
    LaunchesKeepMain(Waited(d, w.side, w.event), w.side, w.kernels);
  }

  // ------------------------------------------------------------------ the capture with deferral

  /** What the un-deferred program would have, from a device and the work still queued. */
  ghost function Caught(d: Device, queue: seq<Work>): Device
    requires |queue| <= 1 && forall w :: w in queue ==> OnSide(d, w)
  {
    if queue == [] then d else RunWork(d, queue[0])
  }

  function Numbers(queue: seq<Work>): seq<nat> { seq(|queue|, i requires 0 <= i < |queue| => queue[i].boundary) }

  class Capture {
    const enabled: bool
    var dev: Device
    var tagged: seq<bool>
    var queue: seq<Work>
    var launched: seq<nat>
    var boundaries: nat
    /** The program that launches at once, fed the same commands. */
    ghost var direct: Program

    /** At most one boundary's work is queued; running it now would bring the device to the un-deferred program's. */
    ghost predicate Valid()
      reads this
    {
      && direct.Valid() && |dev.clock| == |dev.log| == |direct.dev.clock| == |tagged|
      && |queue| <= 1 && (forall w :: w in queue ==> OnSide(dev, w))
      && direct.dev == Caught(dev, queue)
      && direct.launched == launched + Numbers(queue)
      && direct.boundaries == boundaries
    }

    ghost predicate Streams(n: nat)
      reads this
    {
      |dev.clock| == n
    }

    constructor (n: nat, on: bool)
      requires n > 0
      ensures Valid() && Streams(n) && queue == [] && direct == Begin(n) && enabled == on
    {
      enabled := on;
      dev := Begin(n).dev;
      tagged := seq(n, i => false);
      queue := [];
      launched := [];
      boundaries := 0;
      direct := Begin(n);
    }

    method Kernel(k: nat)
      requires Valid()
      modifies this
      ensures Valid() && direct == Direct(old(direct), Command.Kernel(k)) && Streams(old(|dev.clock|))
      ensures queue == old(queue) && launched == old(launched) && tagged == old(tagged) && boundaries == old(boundaries)
    {
      if queue != [] {
        WorkCommutes(dev, queue[0], k);
      }
      dev := Launched(dev, 0, k);
      direct := Direct(direct, Command.Kernel(k));
    }

    /** _moet_mhc_defer_side. */
    method DeferSide(side: nat)
      requires Valid() && Command.Tag(side).Uses(|dev.clock|)
      modifies this
      ensures Valid() && direct == Direct(old(direct), Command.Tag(side)) && Streams(old(|dev.clock|))
      ensures tagged == if enabled then old(tagged)[side := true] else old(tagged)
      ensures queue == old(queue) && launched == old(launched)
    {
      if enabled {
        tagged := tagged[side := true];
      }
    }

    /** _moet_mhc_run_deferred: launches whatever is queued, first in first out. */
    method RunDeferred()
      requires Valid()
      modifies this
      ensures Valid() && queue == [] && direct == old(direct) && dev == direct.dev && Streams(old(|dev.clock|))
      ensures launched == old(launched) + Numbers(old(queue)) && tagged == old(tagged) && boundaries == old(boundaries)
    {
      while queue != []
        invariant Valid() && direct == old(direct) && Streams(old(|dev.clock|)) && tagged == old(tagged) && boundaries == old(boundaries)
        invariant launched + Numbers(queue) == old(launched) + Numbers(old(queue))
        decreases |queue|
      {
        var w := queue[0];
        assert queue == [w];
        queue := queue[1..];
        dev := RunWork(dev, w);
        launched := launched + [w.boundary];
      }
      assert Numbers(queue) == [];
    }

    /** The overlap glue: the boundary kernel, its event, the drain of a previous boundary's work, then the side work now
        or, at a tagged boundary, queued. */
    method Boundary(side: nat, k: nat, work: seq<nat>)
      requires Valid() && Command.Boundary(side, k, work).Uses(|dev.clock|)
      modifies this
      ensures Valid() && direct == Direct(old(direct), Command.Boundary(side, k, work)) && Streams(old(|dev.clock|))
      ensures |queue| == (if old(tagged[side]) then 1 else 0) && tagged == old(tagged)[side := false]
      ensures launched == old(launched) + Numbers(old(queue)) + if old(tagged[side]) then [] else [old(boundaries)]
    {
      ghost var before := direct;
      Kernel(k);
      ghost var mid := direct;
      var event := dev.clock[0];
      var w := Work(side, event, work, boundaries);
      if queue != [] {
        WorkKeepsMain(dev, queue[0]);
      }
      RunDeferred();
      boundaries := boundaries + 1;
      direct := Direct(before, Command.Boundary(side, k, work));
      if tagged[side] {
        tagged := tagged[side := false];
        queue := [w];
      } else {
        tagged := tagged[side := false];
        dev := RunWork(dev, w);
        launched := launched + [w.boundary];
      }
    }

    /** The attention's first GEMV, the deferred launch right behind it. */
    method Gemv(k: nat)
      requires Valid()
      modifies this
      ensures Valid() && queue == [] && direct == Direct(old(direct), Command.Gemv(k)) && Streams(old(|dev.clock|))
      ensures launched == old(launched) + Numbers(old(queue))
    {
      Kernel(k);
      RunDeferred();
    }

    /** The layer joins the side stream: pending work first, then the wait. */
    method Join(side: nat)
      requires Valid() && Command.Join(side).Uses(|dev.clock|)
      modifies this
      ensures Valid() && queue == [] && direct == Direct(old(direct), Command.Join(side)) && Streams(old(|dev.clock|))
      ensures dev == direct.dev && launched == direct.launched
      ensures dev.clock[side] <= dev.clock[0]
    {
      RunDeferred();
      dev := Waited(dev, 0, dev.clock[side]);
      direct := Direct(direct, Command.Join(side));
      assert Numbers(queue) == [];
    }

    method Issue(c: Command)
      requires Valid() && c.Uses(|dev.clock|)
      modifies this
      ensures Valid() && direct == Direct(old(direct), c) && Streams(old(|dev.clock|))
      ensures c.Join? ==> queue == []
    {
      match c
      case Kernel(k) => Kernel(k);
      case Tag(side) => DeferSide(side);
      case Boundary(side, k, work) => Boundary(side, k, work);
      case Gemv(k) => Gemv(k);
      case Join(side) => Join(side);
    }
  }

  // ------------------------------------------------------------------ the logs, said of the commands

  /** p is launched on the model stream. */
  ghost predicate OnMain(cs: seq<Command>, p: nat) {
    exists i :: 0 <= i < |cs| && IsMain(cs[i]) && cs[i].k == p
  }

  /** p is side work of a boundary of the stream. */
  ghost predicate InWork(cs: seq<Command>, side: nat, p: nat) {
    exists i :: 0 <= i < |cs| && cs[i].Boundary? && cs[i].side == side && p in cs[i].work
  }

  /** p is side work of a boundary whose stream is joined afterwards. */
  ghost predicate Joined(cs: seq<Command>, p: nat) {
    exists i, j :: 0 <= i < j < |cs| && cs[i].Boundary? && p in cs[i].work && cs[j] == Join(cs[i].side)
  }

  /** What comes before the model stream's next kernel: its own kernels and the side work joined. */
  ghost predicate BeforeMain(cs: seq<Command>, p: nat) { OnMain(cs, p) || Joined(cs, p) }

  /** What comes before a side stream's next kernel if it waits for nothing more: its own work, and what came before the model
      stream's next kernel behind one of its boundaries. */
  ghost predicate BeforeSide(cs: seq<Command>, side: nat, p: nat) {
    exists i :: 0 <= i < |cs| && cs[i].Boundary? && cs[i].side == side && (p in cs[i].work || BeforeMain(cs[..i + 1], p))
  }

  predicate IsMain(c: Command) { c.Kernel? || c.Gemv? || c.Boundary? }

  /** Kernels of the model stream, and of a side stream, among the first n commands. */
  function MainCount(cs: seq<Command>, n: nat): nat
    requires n <= |cs|
  {
    if n == 0 then 0 else MainCount(cs, n - 1) + if IsMain(cs[n - 1]) then 1 else 0
  }

  function WorkCount(cs: seq<Command>, side: nat, n: nat): nat
    requires n <= |cs|
  {
    if n == 0 then 0 else WorkCount(cs, side, n - 1) + if cs[n - 1].Boundary? && cs[n - 1].side == side then |cs[n - 1].work| else 0
  }

  /** The launch of a model-stream command: its kernel, behind the earlier ones and the side work joined before it. */
  ghost predicate MainLaunch(cs: seq<Command>, log: seq<Launch>, i: nat)
    requires i < |cs| && IsMain(cs[i])
  {
    var at := MainCount(cs, i);
    && at < |log| && log[at].kernel == cs[i].k
    && forall p :: p in log[at].past <==> BeforeMain(cs[..i], p)
  }

  /** The launch of kernel t of a boundary's side work: behind the boundary's kernel, whatever came before that on the model
      stream, the stream's earlier work and the kernels before it. */
  ghost predicate SideLaunch(cs: seq<Command>, log: seq<Launch>, i: nat, t: nat)
    requires i < |cs| && cs[i].Boundary? && t < |cs[i].work|
  {
    var at := WorkCount(cs, cs[i].side, i) + t;
    && at < |log| && log[at].kernel == cs[i].work[t]
    && forall p :: p in log[at].past <==> BeforeMain(cs[..i + 1], p) || InWork(cs[..i], cs[i].side, p) || p in cs[i].work[..t]
  }

  /** The model stream's log is that of the commands. */
  ghost predicate MainLogged(cs: seq<Command>, log: seq<Launch>) {
    |log| == MainCount(cs, |cs|) && forall i :: 0 <= i < |cs| && IsMain(cs[i]) ==> MainLaunch(cs, log, i)
  }

  /** A side stream's log is the work of its boundaries, in order and each kernel behind its boundary. */
  ghost predicate SideLogged(cs: seq<Command>, side: nat, log: seq<Launch>) {
    && |log| == WorkCount(cs, side, |cs|)
    && forall i, t :: 0 <= i < |cs| && cs[i].Boundary? && cs[i].side == side && 0 <= t < |cs[i].work| ==> SideLaunch(cs, log, i, t)
  }

  ghost predicate Logged(cs: seq<Command>, d: Device) {
    |d.log| > 0 && MainLogged(cs, d.log[0]) && forall s :: 0 < s < |d.log| ==> SideLogged(cs, s, d.log[s])
  }

  /** The clocks, said of the commands. */
  ghost predicate Clocked(cs: seq<Command>, d: Device) {
    && |d.clock| == |d.log| > 0 && (forall p :: p in d.clock[0] <==> BeforeMain(cs, p))
    && forall s, p :: 0 < s < |d.clock| ==> (p in d.clock[s] <==> BeforeSide(cs, s, p))
  }

  // ------------------------------------------------------------------ one more command

  lemma OnMainNext(front: seq<Command>, c: Command, p: nat)
    ensures OnMain(front + [c], p) <==> OnMain(front, p) || (IsMain(c) && c.k == p)
  {
    var all := front + [c];
    if OnMain(front, p) {
      var i :| 0 <= i < |front| && IsMain(front[i]) && front[i].k == p;
      assert all[i] == front[i];
    }
    if OnMain(all, p) {
      var i :| 0 <= i < |all| && IsMain(all[i]) && all[i].k == p;
      if i < |front| {
        assert all[i] == front[i];
      }
    }
    if IsMain(c) && c.k == p {
      assert IsMain(all[|front|]) && all[|front|].k == p;
    }
  }

  lemma JoinedNext(front: seq<Command>, c: Command, p: nat)
    ensures Joined(front + [c], p) <==> Joined(front, p) || (c.Join? && InWork(front, c.side, p))
  {
    var all := front + [c];
    if Joined(front, p) {
      var i, j :| 0 <= i < j < |front| && front[i].Boundary? && p in front[i].work && front[j] == Join(front[i].side);
      assert all[i] == front[i] && all[j] == front[j];
    }
    if c.Join? && InWork(front, c.side, p) {
      var i :| 0 <= i < |front| && front[i].Boundary? && front[i].side == c.side && p in front[i].work;
      assert all[i] == front[i] && all[|front|] == c;
    }
  }

  lemma BeforeMainNext(front: seq<Command>, c: Command, p: nat)
    ensures BeforeMain(front + [c], p) <==> BeforeMain(front, p) || (IsMain(c) && c.k == p) || (c.Join? && InWork(front, c.side, p))
  {
    OnMainNext(front, c, p);
    JoinedNext(front, c, p);
  }

  lemma BeforeSideNext(front: seq<Command>, c: Command, side: nat, p: nat)
    ensures BeforeSide(front + [c], side, p)
      <==> BeforeSide(front, side, p) || (c.Boundary? && c.side == side && (p in c.work || BeforeMain(front + [c], p)))
  {
    var all := front + [c];
    assert all[..|front| + 1] == all;
    if BeforeSide(front, side, p) {
      var i :| 0 <= i < |front| && front[i].Boundary? && front[i].side == side && (p in front[i].work || BeforeMain(front[..i + 1], p));
      assert all[i] == front[i] && all[..i + 1] == front[..i + 1];
    }
    if BeforeSide(all, side, p) {
      var i :| 0 <= i < |all| && all[i].Boundary? && all[i].side == side && (p in all[i].work || BeforeMain(all[..i + 1], p));
      if i < |front| {
        assert all[i] == front[i] && all[..i + 1] == front[..i + 1];
      }
    }
    if c.Boundary? && c.side == side && (p in c.work || BeforeMain(all, p)) {
      assert all[|front|] == c;
    }
  }

  lemma {:induction false} BeforeMainGrows(cs: seq<Command>, n: nat, p: nat)
    requires n <= |cs| && BeforeMain(cs[..n], p)
    ensures BeforeMain(cs, p)
    decreases |cs|
  {
    if n < |cs| {
      var front := cs[..|cs| - 1];
      assert front[..n] == cs[..n] && cs == front + [cs[|cs| - 1]];
      BeforeMainGrows(front, n, p);
      BeforeMainNext(front, cs[|cs| - 1], p);
    } else {
      assert cs[..n] == cs;
    }
  }

  /** What a side stream has behind it is its own work or behind the model stream. */
  lemma BeforeSideIs(cs: seq<Command>, side: nat, p: nat)
    ensures BeforeSide(cs, side, p) ==> InWork(cs, side, p) || BeforeMain(cs, p)
    ensures InWork(cs, side, p) ==> BeforeSide(cs, side, p)
  {
    if BeforeSide(cs, side, p) {
      var i :| 0 <= i < |cs| && cs[i].Boundary? && cs[i].side == side && (p in cs[i].work || BeforeMain(cs[..i + 1], p));
      if p !in cs[i].work {
        BeforeMainGrows(cs, i + 1, p);
      }
    }
  }

  /** Launching a list on a stream: each behind what the clock had and the ones before it. */
  lemma {:induction false} LaunchedAllIs(d: Device, s: nat, ks: seq<nat>)
    requires s < |d.clock| == |d.log|
    ensures var r := LaunchedAll(d, s, ks);
      && |r.log[s]| == |d.log[s]| + |ks| && (forall p :: p in r.clock[s] <==> p in d.clock[s] || p in ks)
      && (forall i :: 0 <= i < |d.log[s]| ==> r.log[s][i] == d.log[s][i])
      && (forall j :: |d.log[s]| <= j < |r.log[s]| ==> LaunchIs(r.log[s][j], ks, j - |d.log[s]|, d.clock[s]))
      && forall u :: 0 <= u < |d.clock| && u != s ==> r.clock[u] == d.clock[u] && r.log[u] == d.log[u]
    decreases |ks|
  {
    if ks != [] {
      var first, rest := Launched(d, s, ks[0]), ks[1..];
      LaunchedAllIs(first, s, rest);
      var r := LaunchedAll(first, s, rest);
      assert LaunchedAll(d, s, ks) == r && ks == [ks[0]] + rest;
      forall j | |d.log[s]| <= j < |r.log[s]|
        ensures LaunchIs(r.log[s][j], ks, j - |d.log[s]|, d.clock[s])
      {
        var t := j - |d.log[s]|;
        if t == 0 {
          assert r.log[s][j] == first.log[s][j];
        } else {
          assert LaunchIs(r.log[s][j], rest, t - 1, first.clock[s]);
          assert ks[..t] == [ks[0]] + rest[..t - 1];
        }
      }
    }
  }

  ghost predicate LaunchIs(l: Launch, ks: seq<nat>, t: nat, clock: set<nat>)
    requires t < |ks|
  {
    l.kernel == ks[t] && forall p :: p in l.past <==> p in clock || p in ks[..t]
  }

  // ------------------------------------------------------------------ every program is logged as its commands say

  lemma ClockStart(d: Device, cs: seq<Command>, n: nat)
    requires n > 0 && d == Begin(n).dev && cs == []
    ensures Clocked(cs, d) && Logged(cs, d)
  {
  }

  /** A device after one command, stream by stream. */
  lemma DirectClocks(p: Program, c: Command, front: seq<Command>, r: Device)
    requires p.Valid() && c.Uses(|p.dev.clock|) && Clocked(front, p.dev) && r == Direct(p, c).dev
    ensures Clocked(front + [c], r)
  {
    var d, all := p.dev, front + [c];
    if c.Boundary? {
      var m := Launched(d, 0, c.k);
      LaunchedAllIs(Waited(m, c.side, m.clock[0]), c.side, c.work);
    }
    forall x
      ensures x in r.clock[0] <==> BeforeMain(all, x)
    {
      BeforeMainNext(front, c, x);
      if c.Join? {
        BeforeSideIs(front, c.side, x);
      }
    }
    forall s, x | 0 < s < |r.clock|
      ensures x in r.clock[s] <==> BeforeSide(all, s, x)
    {
      BeforeSideNext(front, c, s, x);
      BeforeMainNext(front, c, x);
    }
  }

  lemma MainLaunchStays(front: seq<Command>, c: Command, log: seq<Launch>, log2: seq<Launch>, i: nat)
    requires i < |front| && IsMain(front[i]) && MainLaunch(front, log, i) && log <= log2
    ensures (front + [c])[i] == front[i] && MainLaunch(front + [c], log2, i)
  {
    var all := front + [c];
    assert all[..i] == front[..i];
    MainCountFront(front, c, i);
  }

  lemma {:induction false} MainCountFront(front: seq<Command>, c: Command, n: nat)
    requires n <= |front|
    ensures MainCount(front + [c], n) == MainCount(front, n)
  {
    if n > 0 {
      MainCountFront(front, c, n - 1);
    }
  }

  lemma {:induction false} WorkCountFront(front: seq<Command>, c: Command, side: nat, n: nat)
    requires n <= |front|
    ensures WorkCount(front + [c], side, n) == WorkCount(front, side, n)
  {
    if n > 0 {
      WorkCountFront(front, c, side, n - 1);
    }
  }

  /** The model stream gains the command's kernel, behind what its clock had. */
  lemma MainLogNext(front: seq<Command>, c: Command, log: seq<Launch>, clock: set<nat>, log2: seq<Launch>)
    requires MainLogged(front, log) && (forall p :: p in clock <==> BeforeMain(front, p))
    requires log2 == if IsMain(c) then log + [Launch(c.k, clock)] else log
    ensures MainLogged(front + [c], log2)
  {
    var all := front + [c];
    MainCountFront(front, c, |front|);
    assert all[|front|] == c && all[..|front|] == front;
    forall i | 0 <= i < |all| && IsMain(all[i])
      ensures MainLaunch(all, log2, i)
    {
      if i < |front| {
        MainLaunchStays(front, c, log, log2, i);
      }
    }
  }

  lemma SideLaunchStays(front: seq<Command>, c: Command, log: seq<Launch>, log2: seq<Launch>, i: nat, t: nat)
    requires i < |front| && front[i].Boundary? && t < |front[i].work| && SideLaunch(front, log, i, t) && log <= log2
    ensures (front + [c])[i] == front[i] && SideLaunch(front + [c], log2, i, t)
  {
    var all := front + [c];
    assert all[..i] == front[..i] && all[..i + 1] == front[..i + 1];
    WorkCountFront(front, c, front[i].side, i);
  }

  /** A side stream gains a boundary's work, each kernel behind what clock and event had. */
  lemma SideLogNext(front: seq<Command>, c: Command, side: nat, log: seq<Launch>, clock: set<nat>, log2: seq<Launch>)
    requires SideLogged(front, side, log) && log <= log2
    requires if c.Boundary? && c.side == side then
               && |log2| == |log| + |c.work|
               && (forall p :: p in clock <==> BeforeSide(front, side, p) || BeforeMain(front + [c], p))
               && forall j :: |log| <= j < |log2| ==> LaunchIs(log2[j], c.work, j - |log|, clock)
             else log2 == log
    ensures SideLogged(front + [c], side, log2)
  {
    var all := front + [c];
    WorkCountFront(front, c, side, |front|);
    assert all[|front|] == c && all[..|front|] == front && all[..|front| + 1] == all;
    forall i, t | 0 <= i < |all| && all[i].Boundary? && all[i].side == side && 0 <= t < |all[i].work|
      ensures SideLaunch(all, log2, i, t)
    {
      if i < |front| {
        SideLaunchStays(front, c, log, log2, i, t);
      } else {
        assert LaunchIs(log2[|log| + t], c.work, t, clock);
        forall p
          ensures p in log2[|log| + t].past <==> BeforeMain(all, p) || InWork(front, side, p) || p in c.work[..t]
        {
          BeforeSideIs(front, side, p);
          BeforeMainNext(front, c, p);
        }
      }
    }
  }

  /** What a command does to a side stream's log, from the clocks before it. */
  lemma SideOf(p: Program, c: Command, r: Device, s: nat) returns (clock: set<nat>)
    requires p.Valid() && c.Uses(|p.dev.clock|) && r == Direct(p, c).dev && 0 < s < |p.dev.clock|
    ensures |r.log| == |p.dev.log| && p.dev.log[s] <= r.log[s]
    ensures if c.Boundary? && c.side == s then
              && |r.log[s]| == |p.dev.log[s]| + |c.work| && clock == p.dev.clock[s] + (p.dev.clock[0] + {c.k})
              && forall j :: |p.dev.log[s]| <= j < |r.log[s]| ==> LaunchIs(r.log[s][j], c.work, j - |p.dev.log[s]|, clock)
            else r.log[s] == p.dev.log[s]
  {
    clock := {};
    if c.Boundary? {
      clock := p.dev.clock[s] + (p.dev.clock[0] + {c.k});
      var m := Launched(p.dev, 0, c.k);
      var w := Waited(m, c.side, m.clock[0]);
      assert c.side == s ==> w.clock[s] == clock && w.log[s] == p.dev.log[s];
      LaunchedAllIs(w, c.side, c.work);
      assert r.log[s][..|p.dev.log[s]|] == p.dev.log[s];
    }
  }

  lemma DirectSideLog(p: Program, c: Command, front: seq<Command>, r: Device, s: nat)
    requires p.Valid() && c.Uses(|p.dev.clock|) && Clocked(front, p.dev) && Logged(front, p.dev) && r == Direct(p, c).dev
    requires 0 < s < |p.dev.clock|
    ensures s < |r.log| && SideLogged(front + [c], s, r.log[s])
  {
    var clock := SideOf(p, c, r, s);
    if c.Boundary? && c.side == s {
      forall x
        ensures x in clock <==> BeforeSide(front, s, x) || BeforeMain(front + [c], x)
      {
        BeforeMainNext(front, c, x);
      }
    }
    SideLogNext(front, c, s, p.dev.log[s], clock, r.log[s]);
  }

  lemma DirectMainLog(p: Program, c: Command, r: Device)
    requires p.Valid() && c.Uses(|p.dev.clock|) && r == Direct(p, c).dev
    ensures |r.log| == |p.dev.log| > 0
    ensures r.log[0] == if IsMain(c) then p.dev.log[0] + [Launch(c.k, p.dev.clock[0])] else p.dev.log[0]
  {
    if c.Boundary? {
      var m := Launched(p.dev, 0, c.k);
      LaunchedAllIs(Waited(m, c.side, m.clock[0]), c.side, c.work);
      assert |r.log[0]| == |m.log[0]|;
    }
  }

  lemma DirectLogs(p: Program, c: Command, front: seq<Command>, r: Device)
    requires p.Valid() && c.Uses(|p.dev.clock|) && Clocked(front, p.dev) && Logged(front, p.dev) && r == Direct(p, c).dev
    ensures Logged(front + [c], r)
  {
    DirectMainLog(p, c, r);
    MainLogNext(front, c, p.dev.log[0], p.dev.clock[0], r.log[0]);
    forall s | 0 < s < |r.log|
      ensures SideLogged(front + [c], s, r.log[s])
    {
      DirectSideLog(p, c, front, r, s);
    }
  }

  /** Every program without deferral: each stream's log holds the kernels of its commands in order, each behind exactly what the
      commands put before it. */
  lemma {:induction false} DirectIsLogged(n: nat, cs: seq<Command>)
    requires n > 0 && forall i :: 0 <= i < |cs| ==> cs[i].Uses(n)
    ensures Clocked(cs, DirectAll(n, cs).dev) && Logged(cs, DirectAll(n, cs).dev)
  {
    if cs == [] {
      ClockStart(Begin(n).dev, cs, n);
    } else {
      var front, c := cs[..|cs| - 1], cs[|cs| - 1];
      DirectIsLogged(n, front);
      assert cs == front + [c];
      var p := DirectAll(n, front);
      DirectClocks(p, c, front, Direct(p, c).dev);
      DirectLogs(p, c, front, Direct(p, c).dev);
    }
  }

  // ------------------------------------------------------------------ whole programs

  /** Any program of tagged and untagged boundaries: whenever nothing is queued, in particular after every join, each stream
      has launched the same kernels in the same order, each with the same kernels ordered before it, as the program that
      never defers; the model stream has so at every moment. */
  method Replay(n: nat, on: bool, cs: seq<Command>) returns (dev: Device, launched: seq<nat>, queue: seq<Work>)
    requires n > 0 && forall i :: 0 <= i < |cs| ==> cs[i].Uses(n)
    ensures |queue| <= 1 && (forall w :: w in queue ==> OnSide(dev, w))
    ensures Caught(dev, queue) == DirectAll(n, cs).dev && launched + Numbers(queue) == DirectAll(n, cs).launched
    ensures queue == [] ==> dev == DirectAll(n, cs).dev && launched == DirectAll(n, cs).launched
    ensures |dev.clock| == |dev.log| == n
    ensures cs != [] && cs[|cs| - 1].Join? ==> queue == [] && Guarded(dev, cs[|cs| - 1].side)
    ensures |dev.log| > 0 && MainLogged(cs, dev.log[0]) && (queue == [] ==> Logged(cs, dev))
    ensures dev.log[0] == DirectAll(n, cs).dev.log[0]
  {
    var c := new Capture(n, on);
    for i := 0 to |cs|
      invariant c.Valid() && c.Streams(n) && c.direct == DirectAll(n, cs[..i])
      invariant i > 0 && cs[i - 1].Join? ==> c.queue == []
      invariant fresh(c)
    {
      assert cs[..i + 1][..i] == cs[..i];
      c.Issue(cs[i]);
    }
    assert cs[..|cs|] == cs;
    dev, launched, queue := c.dev, c.launched, c.queue;
    assert queue == [] ==> Numbers(queue) == [];
    if queue != [] {
      WorkKeepsMain(dev, queue[0]);
    }
    if cs != [] && cs[|cs| - 1].Join? {
      JoinGuards(n, cs, cs[|cs| - 1].side);
    }
    DirectIsLogged(n, cs);
  }

  function Boundaries(cs: seq<Command>): nat {
    if cs == [] then 0 else Boundaries(cs[..|cs| - 1]) + if cs[|cs| - 1].Boundary? then 1 else 0
  }

  /** Every boundary's side work is launched exactly once, in boundary order. */
  lemma {:induction false} LaunchedOnceInOrder(n: nat, cs: seq<Command>)
    requires n > 0 && forall i :: 0 <= i < |cs| ==> cs[i].Uses(n)
    ensures DirectAll(n, cs).boundaries == Boundaries(cs)
    ensures DirectAll(n, cs).launched == seq(Boundaries(cs), i => i)
  {
    if cs != [] {
      LaunchedOnceInOrder(n, cs[..|cs| - 1]);
    }
  }

  /** A stream's launches are all ordered before what it runs next. */
  ghost predicate ClockCovers(d: Device, s: nat)
    requires s < |d.clock| == |d.log|
  {
    forall i :: 0 <= i < |d.log[s]| ==> d.log[s][i].kernel in d.clock[s]
  }

  lemma {:induction false} LaunchesCovered(d: Device, s: nat, ks: seq<nat>, t: nat)
    requires s < |d.clock| == |d.log| && t < |d.clock| && ClockCovers(d, t)
    ensures ClockCovers(LaunchedAll(d, s, ks), t)
    decreases |ks|
  {
    if ks != [] {
      LaunchesCovered(Launched(d, s, ks[0]), s, ks[1..], t);
    }
  }

  lemma {:induction false} AlwaysCovered(n: nat, cs: seq<Command>, t: nat)
    requires t < n && forall i :: 0 <= i < |cs| ==> cs[i].Uses(n)
    ensures ClockCovers(DirectAll(n, cs).dev, t)
  {
    if cs != [] {
      var p, c := DirectAll(n, cs[..|cs| - 1]), cs[|cs| - 1];
      AlwaysCovered(n, cs[..|cs| - 1], t);
      if c.Boundary? {
        var d := Launched(p.dev, 0, c.k);
        assert ClockCovers(d, t);
        LaunchesCovered(Waited(d, c.side, d.clock[0]), c.side, c.work, t);
      }
    }
  }

  /** Everything the stream has launched comes before what the model stream runs next. */
  ghost predicate Guarded(d: Device, side: nat) {
    side < |d.log| && |d.clock| > 0 && forall i :: 0 <= i < |d.log[side]| ==> d.log[side][i].kernel in d.clock[0]
  }

  /** A join guards the side work's results. */
  lemma JoinGuards(n: nat, cs: seq<Command>, side: nat)
    requires side < n && (forall j :: 0 <= j < |cs| ==> cs[j].Uses(n)) && cs != [] && cs[|cs| - 1] == Join(side)
    ensures Guarded(DirectAll(n, cs).dev, side)
  {
    AlwaysCovered(n, cs[..|cs| - 1], side);
  }
}
