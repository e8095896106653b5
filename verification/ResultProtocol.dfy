/** The reservation and publication of one result path by processes that interleave at every file-system call and may crash
    between any two: a lock file created exclusively under a guard lock, and a result published by a hard link. */
module ResultProtocol {
  import opened Options

  /** A lock file's inode: who created it, and the pid in it once it is written. */
  datatype Lock = Lock(creator: nat, pid: Option<nat>)

  /** Where a process is: in reserve_result (up to Recording) or in write_result (from Checking on). */
  datatype Pc =
    | Idle
    | Guarding | Creating | Reading | Probing(owner: nat) | Unlinking | Recreating | Releasing(fd: nat) | Recording(fd: nat)
    | Checking(text: string) | Owning(text: string) | Opening(text: string) | Dumping(text: string, file: nat, n: nat)
    | Linking(text: string, file: nat) | Tidying(linked: bool) | Dropping

  /** holds: the lock inode whose reservation the process has been given; tmp: the inode its temporary name refers to. */
  datatype Proc = Proc(live: bool, pc: Pc, holds: Option<nat>, tmp: Option<nat>)

  /** The directory entries of the lock and of the result, and every inode made so far. */
  datatype State = State(procs: seq<Proc>, guard: Option<nat>, lock: Option<nat>, locks: seq<Lock>, result: Option<nat>, files: seq<string>)

  /** Call reserve_result, call write_result, make the next system call, have json.dump raise, die. */
  datatype Act = Reserve | Write(text: string) | Go | Raise | Crash

  function At(s: State, p: nat, pc: Pc): State
    requires p < |s.procs|
  {
    s.(procs := s.procs[p := s.procs[p].(pc := pc)])
  }

  /** open(lock, O_CREAT | O_EXCL) when there is no lock. */
  function Create(s: State, p: nat): State
    requires p < |s.procs|
  {
    At(s.(lock := Some(|s.locks|), locks := s.locks + [Lock(p, None)]), p, Releasing(|s.locks|))
  }

  /** An exception under the guard: the guard is released on the way out. */
  function Refuse(s: State, p: nat): State
    requires p < |s.procs|
  {
    At(s.(guard := None), p, Idle)
  }

  /** int(read_text().split("=")[1]) of the lock: no lock, an empty one, or a pid. */
  function Owner(s: State): Option<nat> {
    if s.lock.Some? && s.lock.value < |s.locks| then s.locks[s.lock.value].pid else None
  }

  /** The system call that process p makes next. */
  function Next(s: State, p: nat): State
    requires p < |s.procs|
  {
    var me := s.procs[p];
    match me.pc
    case Idle => s
    case Guarding => if s.guard.None? then At(s.(guard := Some(p)), p, Creating) else s
    case Creating => if s.lock.None? then Create(s, p) else At(s, p, Reading)
    case Reading => if Owner(s).Some? then At(s, p, Probing(Owner(s).value)) else At(s, p, Unlinking)
    case Probing(owner) => if owner < |s.procs| && s.procs[owner].live then Refuse(s, p) else At(s, p, Unlinking)
    case Unlinking => if s.lock.None? then Refuse(s, p) else At(s.(lock := None), p, Recreating)
    case Recreating => if s.lock.None? then Create(s, p) else Refuse(s, p)
    case Releasing(fd) => At(s.(guard := None), p, Recording(fd))
    case Recording(fd) =>
      var t := if fd < |s.locks| then s.(locks := s.locks[fd := s.locks[fd].(pid := Some(p))]) else s;
      t.(procs := s.procs[p := me.(pc := Idle, holds := Some(fd))])
    case Checking(text) => At(s, p, if s.result.Some? then Idle else Owning(text))
    case Owning(text) => At(s, p, if Owner(s) == Some(p) then Opening(text) else Idle)
    case Opening(text) =>
      if me.tmp.Some? && me.tmp.value < |s.files| then
        At(s.(files := s.files[me.tmp.value := ""]), p, Dumping(text, me.tmp.value, 0))
      else
        s.(files := s.files + [""], procs := s.procs[p := me.(pc := Dumping(text, |s.files|, 0), tmp := Some(|s.files|))])
    case Dumping(text, file, n) =>
      if n < |text| && file < |s.files| then At(s.(files := s.files[file := s.files[file] + [text[n]]]), p, Dumping(text, file, n + 1))
      else At(s, p, Linking(text, file))
    case Linking(text, file) => if s.result.Some? then At(s, p, Tidying(false)) else At(s.(result := Some(file)), p, Tidying(true))
    case Tidying(linked) => s.(procs := s.procs[p := me.(pc := if linked then Dropping else Idle, tmp := None)])
    case Dropping => s.(lock := None, procs := s.procs[p := me.(pc := Idle, holds := None)])
  }

  /** One step of process p; an action that does not apply changes nothing. */
  function Step(s: State, p: nat, a: Act): State
    requires p < |s.procs|
  {
    var me := s.procs[p];
    if !me.live then s
    else match a
      case Reserve => if me.pc.Idle? && s.result.None? then At(s, p, Guarding) else s
      case Write(text) => if me.pc.Idle? then At(s, p, Checking(text)) else s
      case Go => Next(s, p)
      case Raise => if me.pc.Dumping? then At(s, p, Idle) else s
      case Crash => s.(procs := s.procs[p := me.(live := false)], guard := if s.guard == Some(p) then None else s.guard)
  }

  /** Steps by process and action; a process outside the system makes none. */
  function Run(s: State, acts: seq<(nat, Act)>): State {
    if acts == [] then s
    else
      var t := Run(s, acts[..|acts| - 1]);
      var (p, a) := acts[|acts| - 1];
      if p < |t.procs| then Step(t, p, a) else t
  }

  ghost predicate Fresh(s: State) {
    && (forall p :: 0 <= p < |s.procs| ==> s.procs[p] == Proc(true, Idle, None, None))
    && s.guard.None? && s.lock.None? && s.locks == [] && s.result.None? && s.files == []
  }

  // ------------------------------------------------------------------ publication

  /** A process's temporary file is its own, holds what has been dumped, and is the result only between link and unlink. */
  ghost predicate FileInv(s: State, p: nat)
    requires p < |s.procs|
  {
    var me := s.procs[p];
    && (me.tmp.Some? ==> me.tmp.value < |s.files|)
    && (me.tmp.Some? && me.tmp == s.result ==> !me.live || me.pc == Tidying(true))
    && (me.live && me.pc.Dumping? ==> me.tmp == Some(me.pc.file) && me.pc.n <= |me.pc.text| && s.files[me.pc.file] == me.pc.text[..me.pc.n])
    && (me.live && me.pc.Linking? ==> me.tmp == Some(me.pc.file) && s.files[me.pc.file] == me.pc.text)
  }

  ghost predicate FilesInv(s: State) {
    && (s.result.Some? ==> s.result.value < |s.files|)
    && (forall p :: 0 <= p < |s.procs| ==> FileInv(s, p))
    && forall p, q :: 0 <= p < q < |s.procs| && s.procs[p].tmp.Some? ==> s.procs[p].tmp != s.procs[q].tmp
  }

  /** A step of p that keeps its own file invariant and leaves the other processes' files alone. */
  ghost predicate FilesLocal(s: State, t: State, p: nat)
    requires p < |s.procs|
  {
    && |t.procs| == |s.procs| && |t.files| >= |s.files|
    && (forall q :: 0 <= q < |s.procs| && q != p ==> t.procs[q] == s.procs[q])
    && (t.procs[p].tmp == s.procs[p].tmp || t.procs[p].tmp in {None, Some(|s.files|)})
    && (t.result == s.result || (s.result.None? && t.result == s.procs[p].tmp))
    && (forall i :: 0 <= i < |s.files| && Some(i) != s.procs[p].tmp ==> t.files[i] == s.files[i])
    && (s.result.Some? ==> s.result.value < |s.files| && t.files[s.result.value] == s.files[s.result.value])
  }

  lemma FilesKept(s: State, t: State, p: nat)
    requires FilesInv(s) && p < |s.procs| && FilesLocal(s, t, p) && FileInv(t, p) && (t.result.Some? ==> t.result.value < |t.files|)
    ensures FilesInv(t)
  {
    forall q | 0 <= q < |t.procs| && q != p
      ensures FileInv(t, q) && (t.procs[p].tmp.Some? ==> t.procs[q].tmp != t.procs[p].tmp)
    {
      assert FileInv(s, q);
      assert s.procs[q].tmp.Some? ==> s.procs[q].tmp != s.procs[p].tmp;
    }
  }

  lemma OpenLocal(s: State, t: State, p: nat)
    requires FilesInv(s) && p < |s.procs| && s.procs[p].live && t == Next(s, p) && (s.procs[p].pc.Opening? || s.procs[p].pc.Dumping?)
    ensures FilesLocal(s, t, p) && FileInv(t, p) && t.result == s.result
  {
    assert FileInv(s, p);
  }

  predicate Reserving(pc: Pc) {
    pc.Guarding? || pc.Creating? || pc.Reading? || pc.Probing? || pc.Unlinking? || pc.Recreating? || pc.Releasing? || pc.Recording?
  }

  lemma ReserveFiles(s: State, t: State, p: nat)
    requires p < |s.procs| && t == Next(s, p) && Reserving(s.procs[p].pc)
    ensures t.files == s.files && t.result == s.result && |t.procs| == |s.procs|
    ensures t.procs[p].tmp == s.procs[p].tmp && (t.procs[p].pc.Idle? || Reserving(t.procs[p].pc)) && t.procs[p].live == s.procs[p].live
    ensures forall q :: 0 <= q < |s.procs| && q != p ==> t.procs[q] == s.procs[q]
  {
  }

  lemma OtherLocal(s: State, t: State, p: nat)
    requires FilesInv(s) && p < |s.procs| && s.procs[p].live && t == Next(s, p) && !s.procs[p].pc.Opening? && !s.procs[p].pc.Dumping?
    ensures FilesLocal(s, t, p) && FileInv(t, p) && (t.result.Some? ==> t.result.value < |t.files|)
  {
    assert FileInv(s, p);
    if Reserving(s.procs[p].pc) {
      ReserveFiles(s, t, p);
    }
  }

  /** Every step keeps the invariant, and a result that is there keeps its inode and every character of it. */
  lemma FilesStep(s: State, p: nat, a: Act)
    requires FilesInv(s) && p < |s.procs|
    ensures FilesInv(Step(s, p, a)) && |Step(s, p, a).procs| == |s.procs| && |Step(s, p, a).files| >= |s.files|
    ensures s.result.Some? ==> Step(s, p, a).result == s.result && Step(s, p, a).files[s.result.value] == s.files[s.result.value]
  {
    var t := Step(s, p, a);
    assert FileInv(s, p);
    if s.procs[p].live && a.Go? {
      if s.procs[p].pc.Opening? || s.procs[p].pc.Dumping? {
        OpenLocal(s, t, p);
      } else {
        OtherLocal(s, t, p);
      }
    }
    FilesKept(s, t, p);
  }

  /** A result appears by one step of a live process, whole: the text that process was asked to write. */
  lemma AppearsWhole(s: State, p: nat, a: Act)
    requires FilesInv(s) && p < |s.procs| && s.result.None? && Step(s, p, a).result.Some?
    ensures a == Go && s.procs[p].live && s.procs[p].pc.Linking?
    ensures var file := s.procs[p].pc.file; file < |s.files| && Step(s, p, a).result == Some(file) && Step(s, p, a).files[file] == s.procs[p].pc.text
  {
    assert FileInv(s, p);
  }

  /** In every run, once there, the result stays there and never changes. */
  lemma {:induction false} ResultIsFinal(s: State, acts: seq<(nat, Act)>)
    requires FilesInv(s)
    ensures FilesInv(Run(s, acts)) && |Run(s, acts).procs| == |s.procs|
    ensures s.result.Some? ==> Run(s, acts).result == s.result && Run(s, acts).files[s.result.value] == s.files[s.result.value]
  {
    if acts != [] {
      var rest := acts[..|acts| - 1];
      var (p, a) := acts[|acts| - 1];
      ResultIsFinal(s, rest);
      if p < |Run(s, rest).procs| {
        FilesStep(Run(s, rest), p, a);
      }
    }
  }

  /** Step k of a run is the link by which a process publishes the text it was asked to write. */
  ghost predicate Publishes(s: State, acts: seq<(nat, Act)>, k: nat, text: string)
    requires k < |acts|
  {
    var t, p := Run(s, acts[..k]), acts[k].0;
    p < |t.procs| && acts[k].1 == Go && t.procs[p].live && t.procs[p].pc.Linking? && t.procs[p].pc.text == text && t.result.None?
  }

  /** In every run the result, if there, is the whole text of exactly one publication. */
  lemma {:induction false} ResultIsOneText(s: State, acts: seq<(nat, Act)>) returns (k: nat)
    requires Fresh(s)
    ensures FilesInv(Run(s, acts))
    ensures var t := Run(s, acts); t.result.Some? ==> k < |acts| && Publishes(s, acts, k, t.files[t.result.value])
    ensures forall j, text :: 0 <= j < |acts| && Publishes(s, acts, j, text) ==> Run(s, acts).result.Some? && j == k
  {
    k := 0;
    if acts != [] {
      var rest := acts[..|acts| - 1];
      var (p, a) := acts[|acts| - 1];
      k := ResultIsOneText(s, rest);
      var t := Run(s, rest);
      ResultIsFinal(s, acts);
      assert forall j :: 0 <= j < |rest| ==> acts[..j] == rest[..j];
      forall j, text | 0 <= j < |rest| && Publishes(s, acts, j, text)
        ensures Publishes(s, rest, j, text)
      {
      }
      if p < |t.procs| {
        FilesStep(t, p, a);
        if t.result.None? && Step(t, p, a).result.Some? {
          AppearsWhole(t, p, a);
          k := |rest|;
        }
      }
    }
  }

  // ------------------------------------------------------------------ the reservation

  predicate Guarded(pc: Pc) { pc.Creating? || pc.Reading? || pc.Probing? || pc.Unlinking? || pc.Recreating? || pc.Releasing? }

  predicate Publishing(pc: Pc) { pc.Opening? || pc.Dumping? || pc.Linking? || pc.Tidying? || pc.Dropping? }

  /** The lock inode a live process has made and not given back. */
  predicate Owns(me: Proc, i: nat) {
    me.live && (me.holds == Some(i) || me.pc == Releasing(i) || me.pc == Recording(i))
  }

  ghost predicate ProcInv(s: State, p: nat)
    requires p < |s.procs|
  {
    var me := s.procs[p];
    && (s.guard == Some(p) <==> me.live && Guarded(me.pc))
    && (me.live && (me.pc.Releasing? || me.pc.Recording?) ==> s.lock == Some(me.pc.fd) && me.pc.fd < |s.locks| && s.locks[me.pc.fd] == Lock(p, None))
    && (me.live && me.holds.Some? ==> s.lock == me.holds && me.holds.value < |s.locks| && s.locks[me.holds.value] == Lock(p, Some(p)))
    && (me.live && Publishing(me.pc) ==> me.holds.Some?)
    && (me.live && s.lock.Some? && s.lock.value < |s.locks| && s.locks[s.lock.value].pid == Some(p) ==> me.holds == s.lock)
    && (me.live && me.pc.Probing? && s.lock.Some? ==> s.lock.value < |s.locks| && s.locks[s.lock.value].pid == Some(me.pc.owner))
    && (me.live && me.pc.Unlinking? && s.lock.Some? ==> Abandoned(s))
    && (me.live && me.pc.Recreating? ==> s.lock.None?)
  }

  /** No live process owns the lock there is. */
  ghost predicate Abandoned(s: State) { s.lock.Some? ==> forall q :: 0 <= q < |s.procs| ==> !Owns(s.procs[q], s.lock.value) }

  ghost predicate LockInv(s: State) {
    && (s.lock.Some? ==> s.lock.value < |s.locks| && s.locks[s.lock.value].creator < |s.procs|)
    && (s.guard.Some? ==> s.guard.value < |s.procs|)
    && (forall i :: 0 <= i < |s.locks| && s.locks[i].pid.Some? ==> s.locks[i].pid == Some(s.locks[i].creator))
    && forall p :: 0 <= p < |s.procs| ==> ProcInv(s, p)
  }

  /** The lock's creator has recorded its pid before process p reads the lock in reserve_result. */
  ghost predicate Prompt(s: State, p: nat, a: Act)
    requires p < |s.procs|
  {
    a.Go? && s.procs[p].live && s.procs[p].pc.Reading? && s.lock.Some? ==>
      forall q :: 0 <= q < |s.procs| && s.procs[q].live ==> s.procs[q].pc != Recording(s.lock.value)
  }

  /** What a step of p that leaves the lock alone must satisfy. */
  ghost predicate Local(s: State, t: State, p: nat)
    requires p < |s.procs|
  {
    && |t.procs| == |s.procs| && t.lock == s.lock && t.locks == s.locks
    && (forall q :: 0 <= q < |s.procs| && q != p ==> t.procs[q] == s.procs[q])
    && (t.guard == s.guard || (s.guard in {None, Some(p)} && t.guard in {None, Some(p)}))
    && forall i :: Owns(t.procs[p], i) ==> Owns(s.procs[p], i)
  }

  lemma LocalStep(s: State, t: State, p: nat)
    requires LockInv(s) && p < |s.procs| && Local(s, t, p) && ProcInv(t, p)
    ensures LockInv(t)
  {
    forall q | 0 <= q < |t.procs|
      ensures ProcInv(t, q)
    {
      assert ProcInv(s, q);
      if q != p {
        AbandonedStays(s, t, p);
      }
    }
  }

  lemma AbandonedStays(s: State, t: State, p: nat)
    requires p < |s.procs| && Local(s, t, p)
    ensures Abandoned(s) ==> Abandoned(t)
  {
    if Abandoned(s) && t.lock.Some? {
      forall q | 0 <= q < |t.procs|
        ensures !Owns(t.procs[q], t.lock.value)
      {
        assert !Owns(s.procs[q], s.lock.value);
      }
    }
  }

  lemma CreateStep(s: State, p: nat)
    requires LockInv(s) && p < |s.procs| && s.procs[p].live && (s.procs[p].pc.Creating? || s.procs[p].pc.Recreating?) && s.lock.None?
    ensures LockInv(Create(s, p))
  {
    var t := Create(s, p);
    assert ProcInv(s, p);
    forall q | 0 <= q < |t.procs|
      ensures ProcInv(t, q)
    {
      assert ProcInv(s, q);
    }
  }

  lemma UnlinkStep(s: State, t: State, p: nat)
    requires LockInv(s) && p < |s.procs| && s.procs[p].live && s.procs[p].pc.Unlinking? && s.lock.Some?
    requires t == At(s.(lock := None), p, Recreating)
    ensures LockInv(t)
  {
    assert ProcInv(s, p);
    forall q | 0 <= q < |t.procs|
      ensures ProcInv(t, q)
    {
      assert ProcInv(s, q);
      assert !Owns(s.procs[q], s.lock.value);
    }
  }

  lemma RecordStep(s: State, t: State, p: nat, fd: nat)
    requires LockInv(s) && p < |s.procs| && s.procs[p].live && s.procs[p].pc == Recording(fd) && fd < |s.locks|
    requires t == s.(locks := s.locks[fd := Lock(p, Some(p))], procs := s.procs[p := s.procs[p].(pc := Idle, holds := Some(fd))])
    ensures LockInv(t)
  {
    assert ProcInv(s, p);
    forall q | 0 <= q < |t.procs|
      ensures ProcInv(t, q)
    {
      assert ProcInv(s, q);
    }
  }

  lemma DropStep(s: State, t: State, p: nat)
    requires LockInv(s) && p < |s.procs| && s.procs[p].live && s.procs[p].pc.Dropping?
    requires t == s.(lock := None, procs := s.procs[p := s.procs[p].(pc := Idle, holds := None)])
    ensures LockInv(t)
  {
    assert ProcInv(s, p);
    forall q | 0 <= q < |t.procs|
      ensures ProcInv(t, q)
    {
      assert ProcInv(s, q);
    }
  }

  /** A lock read without a pid, or with a dead process's, has no live owner if its creator was prompt. */
  lemma ReadAbandoned(s: State, p: nat)
    requires LockInv(s) && p < |s.procs| && s.procs[p].live && (s.procs[p].pc.Reading? || s.procs[p].pc.Probing?)
    requires s.procs[p].pc.Reading? ==> Owner(s).None? && Prompt(s, p, Go)
    requires s.procs[p].pc.Probing? ==> var owner := s.procs[p].pc.owner; owner >= |s.procs| || !s.procs[owner].live
    ensures Abandoned(s)
  {
    assert ProcInv(s, p);
    if s.lock.Some? {
      forall q | 0 <= q < |s.procs|
        ensures !Owns(s.procs[q], s.lock.value)
      {
        assert ProcInv(s, q);
      }
    }
  }

  /** Steps of reserve_result that do not touch the lock, and those of write_result. */
  lemma ReserveLocal(s: State, t: State, p: nat)
    requires LockInv(s) && p < |s.procs| && s.procs[p].live && t == Next(s, p)
    requires var pc := s.procs[p].pc; pc.Guarding? || (pc.Creating? && s.lock.Some?) || (pc.Unlinking? && s.lock.None?) || pc.Releasing?
    ensures Local(s, t, p) && ProcInv(t, p)
  {
    assert ProcInv(s, p);
  }

  lemma ReadLocal(s: State, t: State, p: nat)
    requires LockInv(s) && p < |s.procs| && s.procs[p].live && t == Next(s, p) && Prompt(s, p, Go)
    requires s.procs[p].pc.Reading? || s.procs[p].pc.Probing?
    ensures Local(s, t, p) && ProcInv(t, p)
  {
    assert ProcInv(s, p);
    if t.procs[p].pc.Unlinking? {
      ReadAbandoned(s, p);
      AbandonedStays(s, t, p);
    }
  }

  lemma WriteLocal(s: State, t: State, p: nat)
    requires LockInv(s) && p < |s.procs| && s.procs[p].live && t == Next(s, p)
    requires var pc := s.procs[p].pc; pc.Idle? || pc.Checking? || pc.Owning? || (Publishing(pc) && !pc.Dropping?)
    ensures Local(s, t, p) && ProcInv(t, p)
  {
    assert ProcInv(s, p);
  }

  lemma GoStep(s: State, t: State, p: nat)
    requires LockInv(s) && p < |s.procs| && s.procs[p].live && t == Next(s, p) && Prompt(s, p, Go)
    ensures LockInv(t)
  {
    var pc := s.procs[p].pc;
    assert ProcInv(s, p);
    if (pc.Creating? && s.lock.None?) || pc.Recreating? {
      CreateStep(s, p);
    } else if pc.Unlinking? && s.lock.Some? {
      UnlinkStep(s, t, p);
    } else if pc.Recording? {
      RecordStep(s, t, p, pc.fd);
    } else if pc.Dropping? {
      DropStep(s, t, p);
    } else {
      if pc.Reading? || pc.Probing? {
        ReadLocal(s, t, p);
      } else if pc.Guarding? || pc.Creating? || pc.Unlinking? || pc.Releasing? {
        ReserveLocal(s, t, p);
      } else {
        WriteLocal(s, t, p);
      }
      LocalStep(s, t, p);
    }
  }

  lemma CallStep(s: State, t: State, p: nat, a: Act)
    requires LockInv(s) && p < |s.procs| && s.procs[p].live && !a.Go? && t == Step(s, p, a)
    ensures LockInv(t)
  {
    assert ProcInv(s, p);
    assert Local(s, t, p) && ProcInv(t, p);
    LocalStep(s, t, p);
  }

  /** With prompt reads every step keeps the invariant. */
  lemma LockStep(s: State, p: nat, a: Act)
    requires LockInv(s) && p < |s.procs| && Prompt(s, p, a)
    ensures LockInv(Step(s, p, a)) && |Step(s, p, a).procs| == |s.procs|
  {
    var t := Step(s, p, a);
    if !s.procs[p].live {
    } else if a.Go? {
      GoStep(s, t, p);
    } else {
      CallStep(s, t, p, a);
    }
  }

  // ------------------------------------------------------------------ whole runs

  /** Every reserver reads the lock only when its creator has recorded its pid. */
  ghost predicate PromptRun(s: State, acts: seq<(nat, Act)>) {
    acts == [] ||
    var t := Run(s, acts[..|acts| - 1]);
    var (p, a) := acts[|acts| - 1];
    PromptRun(s, acts[..|acts| - 1]) && (p < |t.procs| ==> Prompt(t, p, a))
  }

  lemma {:induction false} RunKeepsLock(s: State, acts: seq<(nat, Act)>)
    requires LockInv(s) && PromptRun(s, acts)
    ensures LockInv(Run(s, acts)) && |Run(s, acts).procs| == |s.procs|
  {
    if acts != [] {
      var rest := acts[..|acts| - 1];
      var (p, a) := acts[|acts| - 1];
      RunKeepsLock(s, rest);
      if p < |Run(s, rest).procs| {
        LockStep(Run(s, rest), p, a);
      }
    }
  }

  ghost predicate Holds(s: State, p: nat) { p < |s.procs| && s.procs[p].live && s.procs[p].holds.Some? }

  /** In every run with prompt reads at most one live process holds the reservation, and the one that publishes is that one. */
  lemma AtMostOneHolder(s: State, acts: seq<(nat, Act)>, p: nat, q: nat)
    requires Fresh(s) && PromptRun(s, acts)
    ensures Holds(Run(s, acts), p) && Holds(Run(s, acts), q) ==> p == q
    ensures var t := Run(s, acts); p < |t.procs| && t.procs[p].live && t.procs[p].pc.Linking? ==> Holds(t, p)
  {
    RunKeepsLock(s, acts);
    var t := Run(s, acts);
    assert p < |t.procs| ==> ProcInv(t, p);
    assert q < |t.procs| ==> ProcInv(t, q);
  }

  /** The condition is exact, step by step: a read keeps the invariant if and only if it is prompt ... */
  lemma PromptIsExact(s: State, q: nat)
    requires LockInv(s) && q < |s.procs| && s.procs[q].live && s.procs[q].pc.Reading?
    ensures LockInv(Step(s, q, Go)) <==> Prompt(s, q, Go)
  {
    if Prompt(s, q, Go) {
      LockStep(s, q, Go);
    } else {
      var t := Step(s, q, Go);
      var p :| 0 <= p < |s.procs| && s.procs[p].live && s.procs[p].pc == Recording(s.lock.value);
      assert ProcInv(s, p);
      assert t.procs[q].pc.Unlinking? && Owns(t.procs[p], t.lock.value);
      assert !ProcInv(t, q);
    }
  }

  lemma RunNext(s: State, acts: seq<(nat, Act)>, p: nat, a: Act)
    ensures Run(s, acts + [(p, a)]) == if p < |Run(s, acts).procs| then Step(Run(s, acts), p, a) else Run(s, acts)
  {
    assert (acts + [(p, a)])[..|acts|] == acts;
  }

  /** n system calls of p in a row. */
  function Calls(s: State, p: nat, n: nat): State
    requires p < |s.procs|
    ensures |Calls(s, p, n).procs| == |s.procs|
  {
    if n == 0 then s else
      var t := Calls(s, p, n - 1);
      Step(t, p, Go)
  }

  lemma CallNext(s: State, p: nat, n: nat)
    requires p < |s.procs|
    ensures Calls(s, p, 0) == s && Calls(s, p, n + 1) == Step(Calls(s, p, n), p, Go)
  {
  }

  lemma {:induction false} CallsSplit(s: State, p: nat, a: nat, b: nat)
    requires p < |s.procs|
    ensures Calls(s, p, a + b) == Calls(Calls(s, p, a), p, b)
  {
    if b > 0 {
      CallsSplit(s, p, a, b - 1);
      CallNext(s, p, a + b - 1);
      CallNext(Calls(s, p, a), p, b - 1);
    }
  }

  /** The guard released and the pid written: the reservation. */
  lemma Records(s: State, p: nat, fd: nat)
    requires p < |s.procs| && s.procs[p].live && s.procs[p].pc == Releasing(fd) && fd < |s.locks|
    ensures Calls(s, p, 2) == s.(guard := None, procs := s.procs[p := s.procs[p].(pc := Idle, holds := Some(fd))],
                                 locks := s.locks[fd := s.locks[fd].(pid := Some(p))])
  {
    CallNext(s, p, 0);
    CallNext(s, p, 1);
    assert Calls(s, p, 1) == At(s.(guard := None), p, Recording(fd));
  }

  /** The old lock removed and a new one made. */
  lemma Recreates(s: State, q: nat)
    requires q < |s.procs| && s.procs[q].live && s.procs[q].pc.Unlinking? && s.lock.Some?
    ensures Calls(s, q, 2) == Create(s, q)
  {
    var t := At(s.(lock := None), q, Recreating);
    RecreateStep(s, t, q);
    TwoCalls(s, q, t, Create(s, q), 2);
  }

  lemma TwoCalls(s: State, p: nat, t: State, u: State, n: nat)
    requires p < |s.procs| == |t.procs| && t == Step(s, p, Go) && u == Step(t, p, Go) && n == 2
    ensures Calls(s, p, n) == u
  {
    CallNext(s, p, 0);
    CallNext(s, p, 1);
  }

  lemma RecreateStep(s: State, t: State, q: nat)
    requires q < |s.procs| && s.procs[q].live && s.procs[q].pc.Unlinking? && s.lock.Some? && t == At(s.(lock := None), q, Recreating)
    ensures Step(s, q, Go) == t && Step(t, q, Go) == Create(s, q)
  {
  }

  lemma CreatedRecords(s: State, c: State, t: State, q: nat)
    requires q < |s.procs| && s.procs[q].live && c == Create(s, q) && t == Calls(c, q, 2)
    ensures t == s.(guard := None, lock := Some(|s.locks|), locks := s.locks + [Lock(q, Some(q))],
                    procs := s.procs[q := s.procs[q].(pc := Idle, holds := Some(|s.locks|))])
  {
    Records(c, q, |s.locks|);
  }

  /** From Unlinking on, four calls end the reclaim with the reservation. */
  lemma Reclaim(s: State, q: nat)
    requires q < |s.procs| && s.procs[q].live && s.procs[q].pc.Unlinking? && s.lock.Some?
    ensures Holds(Calls(s, q, 4), q) && Calls(s, q, 4).procs == s.procs[q := s.procs[q].(pc := Idle, holds := Some(|s.locks|))]
    ensures Calls(s, q, 4).locks == s.locks + [Lock(q, Some(q))] && Calls(s, q, 4).lock == Some(|s.locks|)
  {
    Recreates(s, q);
    CallsSplit(s, q, 2, 2);
    CreatedRecords(s, Create(s, q), Calls(Create(s, q), q, 2), q);
  }

  /** ... and a read that is not prompt lets two live processes hold the reservation: the reader reclaims the empty lock, and
      then the creator writes its pid to a file that is no longer the lock. */
  lemma EarlyReadBreaks(s: State, p: nat, q: nat)
    requires LockInv(s) && p < |s.procs| && q < |s.procs| && s.procs[q].live && s.procs[q].pc.Reading?
    requires s.lock.Some? && s.procs[p].live && s.procs[p].pc == Recording(s.lock.value)
    ensures p != q && var t := Step(Calls(Step(s, q, Go), q, 4), p, Go); Holds(t, p) && Holds(t, q)
  {
    assert ProcInv(s, p) && ProcInv(s, q);
    var t := Step(s, q, Go);
    assert t == At(s, q, Unlinking);
    Reclaim(t, q);
    assert Calls(t, q, 4).procs[p] == s.procs[p];
  }

  lemma Then(s: State, acts: seq<(nat, Act)>, p: nat, a: Act) returns (next: seq<(nat, Act)>)
    requires LockInv(s) && PromptRun(s, acts) && p < |s.procs| && (p < |Run(s, acts).procs| ==> !Run(s, acts).procs[p].pc.Reading?)
    ensures PromptRun(s, next) && |Run(s, acts).procs| == |s.procs| && Run(s, next) == Step(Run(s, acts), p, a) && LockInv(Run(s, next))
  {
    next := acts + [(p, a)];
    RunNext(s, acts, p, a);
    RunKeepsLock(s, acts);
    assert next[..|acts|] == acts;
    RunKeepsLock(s, next);
  }

  /** One process creates the lock and releases the guard ... */
  lemma CreatorPauses(s: State) returns (acts: seq<(nat, Act)>)
    requires Fresh(s) && |s.procs| >= 1
    ensures PromptRun(s, acts)
    ensures Run(s, acts) == s.(procs := s.procs[0 := Proc(true, Recording(0), None, None)], lock := Some(0), locks := [Lock(0, None)])
  {
    acts := Then(s, [], 0, Reserve);
    assert Run(s, acts) == At(s, 0, Guarding);
    acts := Then(s, acts, 0, Go);
    assert Run(s, acts) == At(s.(guard := Some(0)), 0, Creating);
    acts := Then(s, acts, 0, Go);
    assert Run(s, acts) == Create(s.(guard := Some(0)), 0);
    acts := Then(s, acts, 0, Go);
  }

  /** ... and is overtaken before it writes its pid: the read that is not prompt is reachable. */
  lemma EarlyReadReachable(s: State) returns (acts: seq<(nat, Act)>)
    requires Fresh(s) && |s.procs| >= 2
    ensures PromptRun(s, acts) && LockInv(Run(s, acts))
    ensures |Run(s, acts).procs| == |s.procs| && Run(s, acts).lock == Some(0)
    ensures var procs := Run(s, acts).procs; procs[1].live && procs[1].pc.Reading? && procs[0].live && procs[0].pc == Recording(0)
  {
    acts := CreatorPauses(s);
    var t := Run(s, acts);
    acts := Then(s, acts, 1, Reserve);
    assert Run(s, acts) == At(t, 1, Guarding);
    acts := Then(s, acts, 1, Go);
    assert Run(s, acts) == At(t.(guard := Some(1)), 1, Creating);
    acts := Then(s, acts, 1, Go);
  }

  /** A lock whose holder has died does not block: the next process to call reserve_result gets the reservation. */
  lemma DeadHolderIsReplaced(s: State, q: nat)
    requires LockInv(s) && q < |s.procs| && s.procs[q].live && s.procs[q].pc.Idle? && s.result.None? && s.guard.None?
    requires s.lock.Some? && !s.procs[s.locks[s.lock.value].creator].live
    ensures Holds(Calls(Calls(Step(s, q, Reserve), q, if Owner(s).Some? then 4 else 3), q, 4), q)
  {
    var t := Step(s, q, Reserve);
    CallNext(t, q, 0);
    CallNext(t, q, 1);
    CallNext(t, q, 2);
    CallNext(t, q, 3);
    var t1, t2 := Calls(t, q, 1), Calls(t, q, 2);
    assert t1 == At(t.(guard := Some(q)), q, Creating) && t2 == At(t1, q, Reading);
    assert Owner(t2) == Owner(s);
    if Owner(s).Some? {
      assert Calls(t, q, 3) == At(t2, q, Probing(Owner(s).value));
      Reclaim(Calls(t, q, 4), q);
    } else {
      Reclaim(Calls(t, q, 3), q);
    }
  }

  // ------------------------------------------------------------------ what one process achieves undisturbed

  /** Without a lock: the reservation, with the process's pid in the new lock, and nothing else touched. */
  lemma FirstReserves(s: State, p: nat)
    requires p < |s.procs| && s.procs[p].live && s.procs[p].pc.Idle? && s.result.None? && s.guard.None? && s.lock.None?
    ensures Calls(Step(s, p, Reserve), p, 4) ==
            s.(procs := s.procs[p := s.procs[p].(holds := Some(|s.locks|))], lock := Some(|s.locks|), locks := s.locks + [Lock(p, Some(p))])
  {
    var t := Step(s, p, Reserve);
    CallNext(t, p, 0);
    CallNext(t, p, 1);
    var t1, t2 := Calls(t, p, 1), Calls(t, p, 2);
    assert t1 == At(s.(guard := Some(p)), p, Creating) && t2 == Create(t1, p);
    CallsSplit(t, p, 2, 2);
    CreatedRecords(t1, t2, Calls(t2, p, 2), p);
  }

  /** A live holder keeps the reservation: the caller is refused and nothing has changed. */
  lemma LiveHolderRefuses(s: State, q: nat)
    requires q < |s.procs| && s.procs[q].live && s.procs[q].pc.Idle? && s.result.None? && s.guard.None?
    requires s.lock.Some? && Owner(s).Some? && Owner(s).value < |s.procs| && s.procs[Owner(s).value].live
    ensures Calls(Step(s, q, Reserve), q, 4) == s
  {
    var t := Step(s, q, Reserve);
    CallNext(t, q, 0);
    CallNext(t, q, 1);
    CallNext(t, q, 2);
    CallNext(t, q, 3);
    var t1, t2 := Calls(t, q, 1), Calls(t, q, 2);
    assert t1 == At(t.(guard := Some(q)), q, Creating) && t2 == At(t1, q, Reading);
    assert Calls(t, q, 3) == At(t2, q, Probing(Owner(s).value));
    assert Calls(t, q, 4).procs == s.procs;
  }

  /** A reclaimer that finds the lock already gone gives up: the guard is released and nothing is reserved. */
  lemma VanishedLockRefuses(s: State, q: nat)
    requires q < |s.procs| && s.procs[q].live && s.procs[q].pc.Probing? && s.lock.None?
    requires s.procs[q].pc.owner < |s.procs| ==> !s.procs[s.procs[q].pc.owner].live
    ensures Calls(s, q, 2) == s.(guard := None, procs := s.procs[q := s.procs[q].(pc := Idle)])
  {
    CallNext(s, q, 0);
    CallNext(s, q, 1);
    assert Calls(s, q, 1) == At(s, q, Unlinking);
  }

  /** Characters written one by one. */
  lemma {:induction false} Dumps(s: State, p: nat, text: string, file: nat, k: nat)
    requires p < |s.procs| && s.procs[p].live && s.procs[p].pc == Dumping(text, file, 0) && file < |s.files| && s.files[file] == ""
    requires k <= |text|
    ensures Calls(s, p, k) == s.(procs := s.procs[p := s.procs[p].(pc := Dumping(text, file, k))], files := s.files[file := text[..k]])
  {
    if k == 0 {
      assert text[..0] == s.files[file];
      assert Calls(s, p, 0) == s;
    } else {
      Dumps(s, p, text, file, k - 1);
      CallNext(s, p, k - 1);
      DumpStep(s, p, text, file, k - 1, Calls(s, p, k - 1));
    }
  }

  lemma DumpStep(s: State, p: nat, text: string, file: nat, k: nat, t: State)
    requires p < |s.procs| && s.procs[p].live && file < |s.files| && k < |text|
    requires t == s.(procs := s.procs[p := s.procs[p].(pc := Dumping(text, file, k))], files := s.files[file := text[..k]])
    ensures Step(t, p, Go) == s.(procs := s.procs[p := s.procs[p].(pc := Dumping(text, file, k + 1))], files := s.files[file := text[..k + 1]])
  {
    assert text[..k + 1] == text[..k] + [text[k]];
  }

  /** After the dump: the link, and both the temporary name and the lock gone. */
  lemma LinksAndTidies(s: State, p: nat, text: string, file: nat)
    requires p < |s.procs| && s.procs[p].live && s.procs[p].pc == Linking(text, file) && s.result.None?
    ensures Calls(s, p, 3) == s.(procs := s.procs[p := s.procs[p].(pc := Idle, holds := None, tmp := None)], result := Some(file), lock := None)
  {
    CallNext(s, p, 0);
    CallNext(s, p, 1);
    CallNext(s, p, 2);
    var t1, t2 := Calls(s, p, 1), Calls(s, p, 2);
    assert t1 == At(s.(result := Some(file)), p, Tidying(true));
    assert t2 == t1.(procs := s.procs[p := s.procs[p].(pc := Dropping, tmp := None)]);
  }

  lemma Dumped(s: State, p: nat, text: string, file: nat)
    requires p < |s.procs| && s.procs[p].live && s.procs[p].pc == Dumping(text, file, 0) && file < |s.files| && s.files[file] == ""
    ensures Calls(s, p, |text| + 1) == s.(procs := s.procs[p := s.procs[p].(pc := Linking(text, file))], files := s.files[file := text])
  {
    Dumps(s, p, text, file, |text|);
    assert text[..|text|] == text;
    CallNext(s, p, |text|);
  }

  /** From the open temporary file on. */
  lemma WritesOut(s: State, p: nat, text: string, file: nat, t: State)
    requires p < |s.procs| && s.procs[p].live && s.procs[p].pc == Dumping(text, file, 0) && file < |s.files| && s.files[file] == ""
    requires s.result.None? && t == Calls(s, p, |text| + 4)
    ensures t == s.(procs := s.procs[p := s.procs[p].(pc := Idle, holds := None, tmp := None)],
                    files := s.files[file := text], result := Some(file), lock := None)
  {
    Dumped(s, p, text, file);
    CallsSplit(s, p, |text| + 1, 3);
    LinksAndTidies(Calls(s, p, |text| + 1), p, text, file);
  }

  /** The temporary file opened for a write: the one left over from a failed dump if there is one, else a new one. */
  lemma Opened(s: State, p: nat, text: string) returns (file: nat)
    requires p < |s.procs| && s.procs[p].live && s.procs[p].pc.Idle? && s.result.None? && Owner(s) == Some(p)
    requires s.procs[p].tmp.Some? ==> s.procs[p].tmp.value < |s.files|
    ensures file == if s.procs[p].tmp.Some? then s.procs[p].tmp.value else |s.files|
    ensures Calls(Step(s, p, Write(text)), p, 3) ==
            s.(procs := s.procs[p := s.procs[p].(pc := Dumping(text, file, 0), tmp := Some(file))],
               files := if s.procs[p].tmp.Some? then s.files[file := ""] else s.files + [""])
  {
    file := if s.procs[p].tmp.Some? then s.procs[p].tmp.value else |s.files|;
    var t := Step(s, p, Write(text));
    CallNext(t, p, 0);
    CallNext(t, p, 1);
    CallNext(t, p, 2);
    var t1, t2 := Calls(t, p, 1), Calls(t, p, 2);
    assert t1 == At(s, p, Owning(text)) && t2 == At(s, p, Opening(text));
  }

  /** p has published text in a file and is done: every other file and process is as it was. */
  ghost predicate Published(s: State, t: State, p: nat, text: string, file: nat)
    requires p < |s.procs|
  {
    && t.result == Some(file) && file < |t.files| && t.files[file] == text && t.lock.None? && t.guard == s.guard
    && t.procs == s.procs[p := Proc(true, Idle, None, None)]
    && (if s.procs[p].tmp.Some? then s.procs[p].tmp.value == file && |t.files| == |s.files| else |t.files| == |s.files| + 1)
    && forall i :: 0 <= i < |s.files| && i != file ==> t.files[i] == s.files[i]
  }

  lemma WrittenIsPublished(s: State, t: State, u: State, p: nat, text: string, file: nat)
    requires p < |s.procs| && s.procs[p].live && (s.procs[p].tmp.Some? ==> s.procs[p].tmp.value < |s.files|)
    requires file == if s.procs[p].tmp.Some? then s.procs[p].tmp.value else |s.files|
    requires t == s.(procs := s.procs[p := s.procs[p].(pc := Dumping(text, file, 0), tmp := Some(file))],
                     files := if s.procs[p].tmp.Some? then s.files[file := ""] else s.files + [""])
    requires u == t.(procs := t.procs[p := t.procs[p].(pc := Idle, holds := None, tmp := None)],
                     files := t.files[file := text], result := Some(file), lock := None)
    ensures Published(s, u, p, text, file)
  {
  }

  /** After opens only where Opens is mentioned. */
  ghost predicate Opens(k: int) { true }

  /** t is the state after n system calls of p in a row. */
  ghost predicate After(s: State, p: nat, n: nat, t: State)
    requires p < |s.procs|
  {
    forall k {:trigger Opens(k)} :: k == 0 ==> t == Calls(s, p, n)
  }

  lemma AfterBoth(s: State, p: nat, a: nat, t: State, b: nat, u: State)
    requires p < |s.procs| && p < |t.procs| && After(s, p, a, t) && After(t, p, b, u)
    ensures After(s, p, a + b, u)
  {
    assert Opens(0);
    CallsSplit(s, p, a, b);
  }

  lemma OpenedAfter(s: State, p: nat, text: string) returns (t: State, file: nat)
    requires p < |s.procs| && s.procs[p].live && s.procs[p].pc.Idle? && s.result.None? && Owner(s) == Some(p)
    requires s.procs[p].tmp.Some? ==> s.procs[p].tmp.value < |s.files|
    ensures After(Step(s, p, Write(text)), p, 3, t) && file == if s.procs[p].tmp.Some? then s.procs[p].tmp.value else |s.files|
    ensures t == s.(procs := s.procs[p := s.procs[p].(pc := Dumping(text, file, 0), tmp := Some(file))],
                    files := if s.procs[p].tmp.Some? then s.files[file := ""] else s.files + [""])
  {
    file := Opened(s, p, text);
    t := Calls(Step(s, p, Write(text)), p, 3);
  }

  lemma WrittenAfter(s: State, p: nat, text: string, file: nat) returns (t: State)
    requires p < |s.procs| && s.procs[p].live && s.procs[p].pc == Dumping(text, file, 0) && file < |s.files| && s.files[file] == ""
    requires s.result.None?
    ensures After(s, p, |text| + 4, t)
    ensures t == s.(procs := s.procs[p := s.procs[p].(pc := Idle, holds := None, tmp := None)],
                    files := s.files[file := text], result := Some(file), lock := None)
  {
    t := Calls(s, p, |text| + 4);
    WritesOut(s, p, text, file, t);
  }

  lemma WriteFrom(s: State, w: State, t: State, p: nat, text: string, file: nat, k: nat) returns (u: State)
    requires p < |s.procs| == |w.procs| && s.procs[p].live && (s.procs[p].tmp.Some? ==> s.procs[p].tmp.value < |s.files|) && s.result.None?
    requires After(w, p, k, t) && file == if s.procs[p].tmp.Some? then s.procs[p].tmp.value else |s.files|
    requires t == s.(procs := s.procs[p := s.procs[p].(pc := Dumping(text, file, 0), tmp := Some(file))],
                     files := if s.procs[p].tmp.Some? then s.files[file := ""] else s.files + [""])
    ensures After(w, p, k + (|text| + 4), u) && Published(s, u, p, text, file)
  {
    u := WrittenAfter(t, p, text, file);
    AfterBoth(w, p, k, t, |text| + 4, u);
    WrittenIsPublished(s, t, u, p, text, file);
  }

  /** The holder of the reservation publishes its text whole, and then holds neither a temporary file nor the lock. */
  lemma HolderPublishes(s: State, p: nat, text: string) returns (t: State, file: nat)
    requires p < |s.procs| && s.procs[p].live && s.procs[p].pc.Idle? && s.result.None? && Owner(s) == Some(p)
    requires s.procs[p].tmp.Some? ==> s.procs[p].tmp.value < |s.files|
    ensures After(Step(s, p, Write(text)), p, 3 + (|text| + 4), t) && Published(s, t, p, text, file)
  {
    t, file := OpenedAfter(s, p, text);
    t := WriteFrom(s, Step(s, p, Write(text)), t, p, text, file, 3);
  }

  /** A write is refused, and changes nothing, when there is a result or the lock does not name the writer. */
  lemma OthersAreRefused(s: State, p: nat, text: string)
    requires p < |s.procs| && s.procs[p].live && s.procs[p].pc.Idle?
    ensures s.result.Some? ==> Calls(Step(s, p, Write(text)), p, 1) == s
    ensures s.result.None? && Owner(s) != Some(p) ==> Calls(Step(s, p, Write(text)), p, 2) == s
  {
    var t := Step(s, p, Write(text));
    CallNext(t, p, 0);
    CallNext(t, p, 1);
    if s.result.Some? {
      assert Calls(t, p, 1).procs == s.procs;
    } else {
      assert Calls(t, p, 1) == At(s, p, Owning(text));
      assert Owner(s) != Some(p) ==> Calls(t, p, 2).procs == s.procs;
    }
  }

  /** A link that comes too late leaves result and lock alone; only the temporary name goes. */
  lemma LateLinkLoses(s: State, p: nat)
    requires p < |s.procs| && s.procs[p].live && s.procs[p].pc.Linking? && s.result.Some?
    ensures Calls(s, p, 2) == s.(procs := s.procs[p := s.procs[p].(pc := Idle, tmp := None)])
  {
    CallNext(s, p, 0);
    CallNext(s, p, 1);
    assert Calls(s, p, 1) == At(s, p, Tidying(false));
  }

  /** A dump that raises keeps the reservation: the next write starts the same temporary file again and publishes. */
  lemma RetryPublishes(s: State, p: nat, text: string) returns (t: State, file: nat)
    requires FilesInv(s) && p < |s.procs| && s.procs[p].live && s.procs[p].pc.Dumping? && s.result.None? && Owner(s) == Some(p)
    ensures file == s.procs[p].pc.file && Published(s, t, p, text, file)
    ensures After(Step(Step(s, p, Raise), p, Write(text)), p, 3 + (|text| + 4), t)
  {
    assert FileInv(s, p);
    var r := Step(s, p, Raise);
    t, file := HolderPublishes(r, p, text);
    RaisedPublished(s, r, t, p, text, file);
  }

  lemma RaisedPublished(s: State, r: State, t: State, p: nat, text: string, file: nat)
    requires p < |s.procs| && r == At(s, p, Idle) && Published(r, t, p, text, file)
    ensures Published(s, t, p, text, file)
  {
  }
}
