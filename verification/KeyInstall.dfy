/**
 Installing the enclave's key: any number of bootstrap commands without --force share one file
 system.  Every system call is one atomic step; each may fail without effect, and a process may
 crash between any two.
 */
module KeyInstall {
  import opened Wrappers

  type Key = nat

  /** Temporary names never equal the two names that files are installed under. */
  datatype Name = KeyFile | MetadataFile | Temp(suffix: nat)

  /** A public key and an address stand for the key that they derive from; an empty quote is 0. */
  datatype Content =
    | Partial
    | SealedKey(key: Key)
    | Metadata(publicKey: Key, instance: Key, quote: nat)

  /** Directory entries, and the files they name: links share a file. */
  datatype Fs = Fs(names: map<Name, nat>, files: map<nat, Content>, next: nat)

  /** One call of atomicWriteFile: the key file without, the metadata with overwriting. */
  datatype Job = KeyJob(key: Key, quote: nat) | MetadataJob(key: Key, quote: nat)

  function Data(job: Job): Content {
    match job
    case KeyJob(key, _) => SealedKey(key)
    case MetadataJob(key, quote) => Metadata(key, key, quote)
  }

  /** What a process does next. */
  datatype Pc =
    | Start
    | Generate
    | CreateTemp(job: Job)
    | Write(job: Job, tmp: Name, file: nat)
    | Sync(job: Job, tmp: Name)
    | Install(job: Job, tmp: Name)
    | Unlink(job: Job, tmp: Name)
    | SyncDir(job: Job)
    | CleanUp(tmp: Name, keyExists: bool)
    | Recover
    | RecoverMetadata(key: Key)
    | Rebuild(key: Key)
    | Done(key: Key)
    | Failed
    | Crashed

  /** How the environment lets a step go, and the random values it supplies. */
  datatype Choice = Choice(crash: bool, ok: bool, suffix: nat, key: Key, quote: nat)

  // ---------- One step of one process ----------

  predicate Matches(fs: Fs, key: Key) {
    && MetadataFile in fs.names
    && fs.names[MetadataFile] in fs.files
    && var content := fs.files[fs.names[MetadataFile]];
       content.Metadata? && content.publicKey == key && content.instance == key && content.quote != 0
  }

  // The effects that calls have on the file system.

  function Created(fs: Fs, tmp: Name): Fs {
    Fs(fs.names[tmp := fs.next], fs.files[fs.next := Partial], fs.next + 1)
  }

  function Written(fs: Fs, file: nat, content: Content): Fs {
    fs.(files := fs.files[file := content])
  }

  function Renamed(fs: Fs, tmp: Name): Fs
    requires tmp in fs.names
  {
    fs.(names := (fs.names - {tmp})[MetadataFile := fs.names[tmp]])
  }

  function LinkedAsKey(fs: Fs, tmp: Name): Fs
    requires tmp in fs.names
  {
    fs.(names := fs.names[KeyFile := fs.names[tmp]])
  }

  function Removed(fs: Fs, tmp: Name): Fs {
    fs.(names := fs.names - {tmp})
  }

  function Step(fs: Fs, pc: Pc, c: Choice): (Fs, Pc) {
    if pc.Done? || pc.Failed? || pc.Crashed? then (fs, pc)
    else if c.crash then (fs, Crashed)
    else
      match pc
      case Start => (fs, if !c.ok then Failed else if KeyFile in fs.names then Recover else Generate)
      case Generate => (fs, if !c.ok then Failed else CreateTemp(KeyJob(c.key, c.quote)))
      case CreateTemp(job) =>
        if !c.ok then (fs, Failed)
        else if Temp(c.suffix) in fs.names then (fs, pc)
        else
          (Created(fs, Temp(c.suffix)), Write(job, Temp(c.suffix), fs.next))
      case Write(job, tmp, file) =>
        if !c.ok then (fs, CleanUp(tmp, false)) else (Written(fs, file, Data(job)), Sync(job, tmp))
      case Sync(job, tmp) => (fs, if !c.ok then CleanUp(tmp, false) else Install(job, tmp))
      case Install(job, tmp) =>
        if !c.ok || tmp !in fs.names then (fs, CleanUp(tmp, false))
        else if job.MetadataJob? then (Renamed(fs, tmp), SyncDir(job))
        else if KeyFile in fs.names then (fs, CleanUp(tmp, true))
        else (LinkedAsKey(fs, tmp), Unlink(job, tmp))
      case Unlink(job, tmp) =>
        if !c.ok then (fs, CleanUp(tmp, false)) else (Removed(fs, tmp), SyncDir(job))
      case SyncDir(job) =>
        (fs, if !c.ok then Failed
             else if job.KeyJob? then CreateTemp(MetadataJob(job.key, job.quote)) else Done(job.key))
      case CleanUp(tmp, keyExists) =>
        (if c.ok then Removed(fs, tmp) else fs, if keyExists then Recover else Failed)
      case Recover =>
        (fs, if !c.ok || KeyFile !in fs.names || fs.names[KeyFile] !in fs.files then Failed
             else
               var content := fs.files[fs.names[KeyFile]];
               if content.SealedKey? then RecoverMetadata(content.key) else Failed)
      case RecoverMetadata(key) =>
        (fs, if !c.ok then Failed else if Matches(fs, key) then Done(key) else Rebuild(key))
      case Rebuild(key) => (fs, if !c.ok then Failed else CreateTemp(MetadataJob(key, c.quote)))
  }

  // ---------- Runs ----------

  datatype World = World(fs: Fs, procs: seq<Pc>)

  datatype Turn = Turn(process: nat, choice: Choice)

  function Next(w: World, t: Turn): World {
    if t.process >= |w.procs| then w
    else
      var (fs, pc) := Step(w.fs, w.procs[t.process], t.choice);
      World(fs, w.procs[t.process := pc])
  }

  /** Any interleaving of any number of processes, with failures and crashes anywhere. */
  function After(w: World, schedule: seq<Turn>): World {
    if schedule == [] then w else Next(After(w, schedule[..|schedule| - 1]), schedule[|schedule| - 1])
  }

  // ---------- The invariant ----------

  predicate Installed(fs: Fs, key: Key) {
    KeyFile in fs.names && fs.names[KeyFile] in fs.files && fs.files[fs.names[KeyFile]] == SealedKey(key)
  }

  predicate Described(fs: Fs, key: Key) {
    && MetadataFile in fs.names
    && fs.names[MetadataFile] in fs.files
    && var content := fs.files[fs.names[MetadataFile]];
       content.Metadata? && content.publicKey == key && content.instance == key
  }

  /** Entries name files, and the key file, when there is one, holds a whole key. */
  ghost predicate FsOk(fs: Fs) {
    && (forall n :: n in fs.names ==> fs.names[n] in fs.files)
    && (forall f :: f in fs.files ==> f < fs.next)
    && (KeyFile in fs.names ==> fs.files[fs.names[KeyFile]].SealedKey?)
  }

  function Owned(pc: Pc): Option<Name> {
    match pc
    case Write(_, tmp, _) => Some(tmp)
    case Sync(_, tmp) => Some(tmp)
    case Install(_, tmp) => Some(tmp)
    case Unlink(_, tmp) => Some(tmp)
    case CleanUp(tmp, _) => Some(tmp)
    case _ => None
  }

  ghost predicate OnlyName(fs: Fs, name: Name) {
    name in fs.names && forall n :: n in fs.names && fs.names[n] == fs.names[name] ==> n == name
  }

  /** What a process at pc relies on. */
  ghost predicate ProcOk(fs: Fs, pc: Pc) {
    && (Owned(pc).Some? ==> Owned(pc).value.Temp? && Owned(pc).value in fs.names)
    && match pc
       case CreateTemp(job) => job.MetadataJob? ==> Installed(fs, job.key)
       case Write(job, tmp, file) =>
         fs.names[tmp] == file && OnlyName(fs, tmp) && (job.MetadataJob? ==> Installed(fs, job.key))
       case Sync(job, tmp) =>
         fs.names[tmp] in fs.files && fs.files[fs.names[tmp]] == Data(job) && (job.MetadataJob? ==> Installed(fs, job.key))
       case Install(job, tmp) =>
         fs.names[tmp] in fs.files && fs.files[fs.names[tmp]] == Data(job) && (job.MetadataJob? ==> Installed(fs, job.key))
       case Unlink(job, _) => job.KeyJob? && Installed(fs, job.key)
       case SyncDir(job) => Installed(fs, job.key) && (job.MetadataJob? ==> Described(fs, job.key))
       case RecoverMetadata(key) => Installed(fs, key)
       case Rebuild(key) => Installed(fs, key)
       case Done(key) => Installed(fs, key) && Described(fs, key)
       case _ => true
  }

  ghost predicate Apart(a: Pc, b: Pc) {
    Owned(a).Some? && Owned(b).Some? ==> Owned(a).value != Owned(b).value
  }

  ghost predicate Inv(w: World) {
    && FsOk(w.fs)
    && (forall p :: 0 <= p < |w.procs| ==> ProcOk(w.fs, w.procs[p]))
    && (forall p, q :: 0 <= p < q < |w.procs| ==> Apart(w.procs[p], w.procs[q]))
  }

  /** All processes yet to start, on any file system whose key file, if any, is whole: the metadata
      may be absent, torn or stale, and temporary files may lie around. */
  ghost predicate Init(w: World) {
    FsOk(w.fs) && forall p :: 0 <= p < |w.procs| ==> w.procs[p] == Start
  }

  lemma StepKeepsFs(fs: Fs, pc: Pc, c: Choice)
    requires FsOk(fs) && ProcOk(fs, pc)
    ensures FsOk(Step(fs, pc, c).0)
  {
  }

  /** Every step, failed or not, leaves the file system sound and the process with what it relies on next. */
  lemma StepKeepsOwn(fs: Fs, pc: Pc, c: Choice)
    requires FsOk(fs) && ProcOk(fs, pc)
    ensures FsOk(Step(fs, pc, c).0) && ProcOk(Step(fs, pc, c).0, Step(fs, pc, c).1)
  {
    StepKeepsFs(fs, pc, c);
    match pc
    case Install(job, tmp) => InstallKeepsOwn(fs, job, tmp, c);
    case SyncDir(_) => RestKeepsOwn(fs, pc, c);
    case Unlink(_, _) => RestKeepsOwn(fs, pc, c);
    case CleanUp(_, _) => RestKeepsOwn(fs, pc, c);
    case Recover => RestKeepsOwn(fs, pc, c);
    case RecoverMetadata(_) => RestKeepsOwn(fs, pc, c);
    case Rebuild(_) => RestKeepsOwn(fs, pc, c);
    case _ =>
  }

  lemma RestKeepsOwn(fs: Fs, pc: Pc, c: Choice)
    requires FsOk(fs) && ProcOk(fs, pc)
    requires pc.SyncDir? || pc.Unlink? || pc.CleanUp? || pc.Recover? || pc.RecoverMetadata? || pc.Rebuild?
    ensures ProcOk(Step(fs, pc, c).0, Step(fs, pc, c).1)
  {
  }

  lemma InstallKeepsOwn(fs: Fs, job: Job, tmp: Name, c: Choice)
    requires FsOk(fs) && ProcOk(fs, Install(job, tmp))
    ensures var (next, pc) := Step(fs, Install(job, tmp), c);
            ProcOk(next, pc)
  {
  }

  /** What a process may rely on, besides its own place: the key, its metadata, and the name it owns. */
  ghost predicate Kept(fs: Fs, next: Fs, owned: Option<Name>) {
    && (forall key :: Installed(fs, key) ==> Installed(next, key))
    && (forall key :: Installed(fs, key) && Described(fs, key) ==> Described(next, key))
    && (owned.Some? && owned.value in fs.names ==> NameKept(fs, next, owned.value))
  }

  ghost predicate NameKept(fs: Fs, next: Fs, name: Name)
    requires name in fs.names
  {
    && name in next.names && next.names[name] == fs.names[name]
    && (fs.names[name] in fs.files ==> fs.names[name] in next.files && next.files[fs.names[name]] == fs.files[fs.names[name]])
    && (OnlyName(fs, name) ==> OnlyName(next, name))
  }

  lemma KeptSuffices(fs: Fs, next: Fs, other: Pc)
    requires ProcOk(fs, other) && Kept(fs, next, Owned(other))
    ensures ProcOk(next, other)
  {
  }

  // Each effect of a call keeps what others rely on: a new file has a free name, ...
  lemma CreateKeeps(fs: Fs, suffix: nat, owned: Option<Name>)
    requires FsOk(fs) && Temp(suffix) !in fs.names && (owned.Some? ==> owned.value in fs.names)
    ensures Kept(fs, Created(fs, Temp(suffix)), owned)
  {
  }

  /** ... a file is written only while the writer's temporary name is its only one, ... */
  lemma WriteKeeps(fs: Fs, tmp: Name, content: Content, owned: Option<Name>)
    requires FsOk(fs) && tmp.Temp? && OnlyName(fs, tmp) && owned != Some(tmp)
    ensures Kept(fs, Written(fs, fs.names[tmp], content), owned)
  {
  }

  /** ... only the owner removes a temporary name, ... */
  lemma RemoveKeeps(fs: Fs, tmp: Name, owned: Option<Name>)
    requires FsOk(fs) && tmp.Temp? && owned != Some(tmp)
    ensures Kept(fs, Removed(fs, tmp), owned)
  {
  }

  /** ... metadata is replaced by metadata of the installed key only, ... */
  lemma RenameKeeps(fs: Fs, job: Job, tmp: Name, owned: Option<Name>)
    requires FsOk(fs) && owned != Some(tmp) && (owned.Some? ==> owned.value.Temp?)
    requires job.MetadataJob? && ProcOk(fs, Install(job, tmp))
    ensures Kept(fs, Renamed(fs, tmp), owned)
  {
  }

  /** ... and a key is linked only where there is none. */
  lemma LinkKeeps(fs: Fs, tmp: Name, owned: Option<Name>)
    requires FsOk(fs) && tmp.Temp? && tmp in fs.names && owned != Some(tmp) && KeyFile !in fs.names
    requires owned.Some? ==> owned.value.Temp?
    ensures Kept(fs, LinkedAsKey(fs, tmp), owned)
  {
  }

  /** So every step of one process keeps what any other relies on. */
  lemma StepKeepsOther(fs: Fs, pc: Pc, c: Choice, other: Pc)
    requires FsOk(fs) && ProcOk(fs, pc) && ProcOk(fs, other) && Apart(pc, other)
    ensures ProcOk(Step(fs, pc, c).0, other) && Apart(Step(fs, pc, c).1, other)
  {
    StepKeeps(fs, pc, c, Owned(other));
    KeptSuffices(fs, Step(fs, pc, c).0, other);
  }

  lemma StepKeeps(fs: Fs, pc: Pc, c: Choice, owned: Option<Name>)
    requires FsOk(fs) && ProcOk(fs, pc)
    requires owned.Some? ==> owned.value.Temp? && owned.value in fs.names && owned != Owned(pc)
    ensures Kept(fs, Step(fs, pc, c).0, owned)
    ensures owned.Some? ==> owned != Owned(Step(fs, pc, c).1)
  {
    match pc
    case CreateTemp(_) =>
      if Temp(c.suffix) !in fs.names {
        CreateKeeps(fs, c.suffix, owned);
      }
    case Write(job, tmp, _) => WriteKeeps(fs, tmp, Data(job), owned);
    case Install(job, tmp) =>
      if job.MetadataJob? {
        RenameKeeps(fs, job, tmp, owned);
      } else if KeyFile !in fs.names {
        LinkKeeps(fs, tmp, owned);
      }
    case Unlink(_, tmp) => RemoveKeeps(fs, tmp, owned);
    case CleanUp(tmp, _) => RemoveKeeps(fs, tmp, owned);
    case _ =>
  }

  lemma NextKeepsInv(w: World, t: Turn)
    requires Inv(w)
    ensures Inv(Next(w, t))
  {
    if t.process < |w.procs| {
      var p, v := t.process, Next(w, t);
      StepKeepsOwn(w.fs, w.procs[p], t.choice);
      forall q | 0 <= q < |w.procs| && q != p
        ensures ProcOk(v.fs, v.procs[q]) && Apart(v.procs[p], v.procs[q]) && Apart(v.procs[q], v.procs[p])
      {
        assert Apart(w.procs[p], w.procs[q]) by {
          assert p < q ==> Apart(w.procs[p], w.procs[q]);
          assert q < p ==> Apart(w.procs[q], w.procs[p]);
        }
        StepKeepsOther(w.fs, w.procs[p], t.choice, w.procs[q]);
      }
    }
  }

  lemma {:induction false} RunKeepsInv(w: World, schedule: seq<Turn>)
    requires Inv(w)
    ensures Inv(After(w, schedule))
  {
    if schedule != [] {
      RunKeepsInv(w, schedule[..|schedule| - 1]);
      NextKeepsInv(After(w, schedule[..|schedule| - 1]), schedule[|schedule| - 1]);
    }
  }

  // ---------- What every run guarantees ----------

  /** The key file is never partial. */
  lemma KeyFileWhole(w: World, schedule: seq<Turn>)
    requires Init(w)
    ensures var fs := After(w, schedule).fs;
            KeyFile in fs.names ==> exists key :: Installed(fs, key)
  {
    RunKeepsInv(w, schedule);
    var fs := After(w, schedule).fs;
    if KeyFile in fs.names {
      assert Installed(fs, fs.files[fs.names[KeyFile]].key);
    }
  }

  lemma StepKeepsKey(fs: Fs, pc: Pc, c: Choice, key: Key)
    requires FsOk(fs) && ProcOk(fs, pc) && Installed(fs, key)
    ensures Installed(Step(fs, pc, c).0, key)
    ensures Described(fs, key) ==> Described(Step(fs, pc, c).0, key)
  {
  }

  /** At most one key is ever installed, and it never changes; nor does metadata stop describing it. */
  lemma {:induction false} KeyNeverChanges(w: World, schedule: seq<Turn>, n: nat, key: Key)
    requires Init(w) && n <= |schedule| && Installed(After(w, schedule[..n]).fs, key)
    ensures Installed(After(w, schedule).fs, key)
    ensures Described(After(w, schedule[..n]).fs, key) ==> Described(After(w, schedule).fs, key)
  {
    if n < |schedule| {
      var front, turn := schedule[..|schedule| - 1], schedule[|schedule| - 1];
      assert front[..n] == schedule[..n];
      KeyNeverChanges(w, front, n, key);
      RunKeepsInv(w, front);
      var before := After(w, front);
      if turn.process < |before.procs| {
        StepKeepsKey(before.fs, before.procs[turn.process], turn.choice, key);
      }
    } else {
      assert schedule[..n] == schedule;
    }
  }

  /**
   Every bootstrap command that got through its metadata phase leaves, from then on, metadata that
   describes the installed key.
   */
  lemma CompletedCommandsAgree(w: World, schedule: seq<Turn>, n: nat, p: nat)
    requires Init(w) && n <= |schedule| && p < |After(w, schedule[..n]).procs|
    requires After(w, schedule[..n]).procs[p].Done?
    ensures var key := After(w, schedule[..n]).procs[p].key;
            Installed(After(w, schedule).fs, key) && Described(After(w, schedule).fs, key)
  {
    RunKeepsInv(w, schedule[..n]);
    DoneMeansDescribed(After(w, schedule[..n]), p);
    KeyNeverChanges(w, schedule, n, After(w, schedule[..n]).procs[p].key);
  }

  lemma DoneMeansDescribed(w: World, p: nat)
    requires Inv(w) && p < |w.procs| && w.procs[p].Done?
    ensures Installed(w.fs, w.procs[p].key) && Described(w.fs, w.procs[p].key)
  {
    assert ProcOk(w.fs, w.procs[p]);
  }

  // ---------- No run leaves the installation stuck ----------

  function Rank(pc: Pc): nat {
    match pc
    case Start => 20
    case Generate => 19
    case CreateTemp(job) => if job.KeyJob? then 18 else 9
    case Write(job, _, _) => if job.KeyJob? then 17 else 8
    case Sync(job, _) => if job.KeyJob? then 16 else 7
    case Install(job, _) => if job.KeyJob? then 15 else 6
    case Unlink(_, _) => 11
    case SyncDir(job) => if job.KeyJob? then 10 else 5
    case CleanUp(_, _) => 14
    case Recover => 13
    case RecoverMetadata(_) => 12
    case Rebuild(_) => 11
    case _ => 0
  }

  ghost predicate CanStillFinish(fs: Fs, pc: Pc) {
    && FsOk(fs) && ProcOk(fs, pc)
    && !pc.Failed? && !pc.Crashed?
    && (pc.CleanUp? ==> pc.keyExists)
    && (pc.Recover? || pc.CleanUp? ==> KeyFile in fs.names)
  }

  lemma {:induction false} FreeSuffix(names: set<Name>) returns (suffix: nat)
    ensures Temp(suffix) !in names
    ensures forall n :: n in names && n.Temp? ==> n.suffix < suffix
    decreases |names|
  {
    if names == {} {
      suffix := 0;
    } else {
      var n :| n in names;
      var s := FreeSuffix(names - {n});
      suffix := if n.Temp? && n.suffix >= s then n.suffix + 1 else s;
      forall k | k in names && k.Temp? ensures k.suffix < suffix {
        assert k == n || k in names - {n};
      }
    }
  }

  /** A step that succeeds, under a free temporary name, brings the process nearer to its end. */
  lemma SmoothStep(fs: Fs, pc: Pc, c: Choice)
    requires CanStillFinish(fs, pc) && !pc.Done? && !c.crash && c.ok && Temp(c.suffix) !in fs.names
    ensures CanStillFinish(Step(fs, pc, c).0, Step(fs, pc, c).1) && Rank(Step(fs, pc, c).1) < Rank(pc)
  {
    StepKeepsOwn(fs, pc, c);
  }

  /** Only process p moves, and all its calls succeed. */
  predicate Undisturbed(schedule: seq<Turn>, p: nat) {
    forall i :: 0 <= i < |schedule| ==> schedule[i].process == p && !schedule[i].choice.crash && schedule[i].choice.ok
  }

  lemma {:induction false} AfterAppend(w: World, a: seq<Turn>, b: seq<Turn>)
    ensures After(w, a + b) == After(After(w, a), b)
  {
    if b == [] {
      assert a + b == a;
    } else {
      assert (a + b)[..|a + b| - 1] == a + b[..|b| - 1];
      AfterAppend(w, a, b[..|b| - 1]);
    }
  }

  /** Undisturbed, and each temporary name that is tried is free at that turn. */
  ghost predicate Smooth(w: World, solo: seq<Turn>, p: nat)
    decreases |solo|
  {
    Undisturbed(solo, p) &&
    (solo == [] || (Temp(solo[0].choice.suffix) !in w.fs.names && Smooth(Next(w, solo[0]), solo[1..], p)))
  }

  lemma AfterCons(w: World, t: Turn, rest: seq<Turn>)
    ensures After(w, [t] + rest) == After(Next(w, t), rest)
  {
    AfterAppend(w, [t], rest);
    assert [t][..0] == [] && After(w, []) == w;
  }

  /** Every smooth run of a process that can still finish finishes, after no more steps than its rank. */
  lemma {:induction false} EverySmoothRunFinishes(w: World, solo: seq<Turn>, p: nat)
    requires Inv(w) && p < |w.procs| && CanStillFinish(w.fs, w.procs[p]) && Smooth(w, solo, p)
    ensures p < |After(w, solo).procs| && CanStillFinish(After(w, solo).fs, After(w, solo).procs[p])
    ensures var pc := After(w, solo).procs[p]; pc.Done? || Rank(pc) + |solo| <= Rank(w.procs[p])
    decreases |solo|
  {
    if w.procs[p].Done? {
      StaysDone(w, solo, p);
    } else if solo != [] {
      AfterCons(w, solo[0], solo[1..]);
      assert solo == [solo[0]] + solo[1..];
      NextKeepsInv(w, solo[0]);
      SmoothStep(w.fs, w.procs[p], solo[0].choice);
      EverySmoothRunFinishes(Next(w, solo[0]), solo[1..], p);
    }
  }

  lemma {:induction false} StaysDone(w: World, solo: seq<Turn>, p: nat)
    requires p < |w.procs| && w.procs[p].Done? && Undisturbed(solo, p)
    ensures After(w, solo) == w
  {
    if solo != [] {
      StaysDone(w, solo[..|solo| - 1], p);
      assert w.procs[p := w.procs[p]] == w.procs;
    }
  }

  /** Smooth runs of any length exist: a free name can always be found. */
  lemma {:induction false} SmoothRunExists(w: World, p: nat, n: nat) returns (solo: seq<Turn>)
    ensures |solo| == n && Smooth(w, solo, p)
    decreases n
  {
    solo := [];
    if n > 0 {
      var suffix := FreeSuffix(w.fs.names.Keys);
      var turn := Turn(p, Choice(false, true, suffix, 0, 1));
      var rest := SmoothRunExists(Next(w, turn), p, n - 1);
      solo := [turn] + rest;
      assert solo[1..] == rest;
    }
  }

  ghost predicate Recovered(before: World, after: World, p: nat) {
    && p < |after.procs| && after.procs[p].Done?
    && Installed(after.fs, after.procs[p].key) && Described(after.fs, after.procs[p].key)
    && forall key :: Installed(before.fs, key) ==> after.procs[p].key == key
  }

  /**
   Whatever crashed or failed before, every bootstrap command that then runs smoothly completes within
   Rank(Start) steps, whatever key and quote it generates, and leaves metadata for the installed key,
   which is the earlier key if there was one.
   */
  lemma BootstrapRecovers(w: World, schedule: seq<Turn>, solo: seq<Turn>, p: nat)
    requires Init(w) && p < |After(w, schedule).procs| && After(w, schedule).procs[p] == Start
    requires Smooth(After(w, schedule), solo, p) && |solo| >= Rank(Start)
    ensures Recovered(After(w, schedule), After(w, schedule + solo), p)
  {
    RunKeepsInv(w, schedule);
    StartCanFinish(After(w, schedule), p);
    EverySmoothRunFinishes(After(w, schedule), solo, p);
    AfterAppend(w, schedule, solo);
    DoneMeansRecovered(w, schedule, solo, p);
  }

  lemma StartCanFinish(w: World, p: nat)
    requires Inv(w) && p < |w.procs| && w.procs[p] == Start
    ensures CanStillFinish(w.fs, w.procs[p])
  {
  }

  lemma DoneMeansRecovered(w: World, schedule: seq<Turn>, more: seq<Turn>, p: nat)
    requires Init(w) && p < |After(w, schedule + more).procs| && After(w, schedule + more).procs[p].Done?
    ensures Recovered(After(w, schedule), After(w, schedule + more), p)
  {
    hide Init, Next;
    var all := schedule + more;
    assert all[..|all|] == all && all[..|schedule|] == schedule;
    CompletedCommandsAgree(w, all, |all|, p);
    forall key | Installed(After(w, schedule).fs, key) ensures After(w, all).procs[p].key == key {
      KeyNeverChanges(w, all, |schedule|, key);
    }
  }

  /** So no run leaves the installation stuck. */
  lemma RecoveryExists(w: World, schedule: seq<Turn>, p: nat) returns (solo: seq<Turn>)
    requires Init(w) && p < |After(w, schedule).procs| && After(w, schedule).procs[p] == Start
    ensures Smooth(After(w, schedule), solo, p) && Recovered(After(w, schedule), After(w, schedule + solo), p)
  {
    solo := SmoothRunExists(After(w, schedule), p, Rank(Start));
    BootstrapRecovers(w, schedule, solo, p);
  }

  // ---------- What a smooth run leaves behind, exactly ----------

  ghost predicate FilesKept(before: Fs, fs: Fs) {
    forall f :: f in before.files ==> f in fs.files && fs.files[f] == before.files[f]
  }

  /** The name stands for a file that was not there before, with this content. */
  ghost predicate NewFile(before: Fs, fs: Fs, name: Name, content: Content) {
    && name in fs.names
    && fs.names[name] !in before.files && fs.names[name] in fs.files
    && fs.files[fs.names[name]] == content
  }

  /** A new key has been installed, and no other name has changed. */
  ghost predicate OnlyKeyNew(before: Fs, fs: Fs, key: Key) {
    NewFile(before, fs, KeyFile, SealedKey(key)) && fs.names == before.names[KeyFile := fs.names[KeyFile]]
  }

  ghost predicate KeyAndMetadataNew(before: Fs, fs: Fs, key: Key, quote: nat) {
    && NewFile(before, fs, KeyFile, SealedKey(key))
    && NewFile(before, fs, MetadataFile, Metadata(key, key, quote))
    && fs.names == before.names[KeyFile := fs.names[KeyFile]][MetadataFile := fs.names[MetadataFile]]
  }

  ghost predicate OnlyMetadataNew(before: Fs, fs: Fs, key: Key, quote: nat) {
    && NewFile(before, fs, MetadataFile, Metadata(key, key, quote))
    && fs.names == before.names[MetadataFile := fs.names[MetadataFile]]
  }

  /** How far installing a key that this process generated has got, on a file system without a key file. */
  ghost predicate Installing(before: Fs, fs: Fs, pc: Pc, key: Key, quote: nat) {
    && FilesKept(before, fs)
    && match pc
       case CreateTemp(job) =>
         if job.KeyJob? then job == KeyJob(key, quote) && fs.names == before.names
         else job == MetadataJob(key, quote) && OnlyKeyNew(before, fs, key)
       case Write(job, tmp, file) =>
         && tmp.Temp? && tmp !in before.names && tmp in fs.names && fs.names[tmp] == file && file !in before.files
         && if job.KeyJob? then job == KeyJob(key, quote) && fs.names == before.names[tmp := file]
            else
              && job == MetadataJob(key, quote) && NewFile(before, fs, KeyFile, SealedKey(key))
              && fs.names[KeyFile] != file
              && fs.names == before.names[KeyFile := fs.names[KeyFile]][tmp := file]
       case Sync(job, tmp) => Filled(before, fs, job, tmp, key, quote)
       case Install(job, tmp) => Filled(before, fs, job, tmp, key, quote)
       case Unlink(job, tmp) =>
         && job == KeyJob(key, quote) && tmp.Temp? && tmp !in before.names
         && NewFile(before, fs, KeyFile, SealedKey(key))
         && fs.names == before.names[tmp := fs.names[KeyFile]][KeyFile := fs.names[KeyFile]]
       case SyncDir(job) =>
         if job.KeyJob? then job == KeyJob(key, quote) && OnlyKeyNew(before, fs, key)
         else job == MetadataJob(key, quote) && KeyAndMetadataNew(before, fs, key, quote)
       case Done(k) => k == key && KeyAndMetadataNew(before, fs, key, quote)
       case _ => false
  }

  /** The temporary file is written and still has its temporary name only. */
  ghost predicate Filled(before: Fs, fs: Fs, job: Job, tmp: Name, key: Key, quote: nat) {
    && tmp.Temp? && tmp !in before.names && NewFile(before, fs, tmp, Data(job))
    && if job.KeyJob? then job == KeyJob(key, quote) && fs.names == before.names[tmp := fs.names[tmp]]
       else
         && job == MetadataJob(key, quote) && NewFile(before, fs, KeyFile, SealedKey(key))
         && fs.names == before.names[KeyFile := fs.names[KeyFile]][tmp := fs.names[tmp]]
  }

  lemma SmoothInstalling(before: Fs, fs: Fs, pc: Pc, c: Choice, key: Key, quote: nat)
    requires FsOk(before) && KeyFile !in before.names && FsOk(fs) && Installing(before, fs, pc, key, quote)
    requires !c.crash && c.ok && Temp(c.suffix) !in fs.names
    ensures Installing(before, Step(fs, pc, c).0, Step(fs, pc, c).1, key, quote)
  {
  }

  lemma {:induction false} InstallingRun(before: Fs, w: World, solo: seq<Turn>, p: nat, key: Key, quote: nat)
    requires Inv(w) && p < |w.procs| && Smooth(w, solo, p)
    requires FsOk(before) && KeyFile !in before.names && Installing(before, w.fs, w.procs[p], key, quote)
    ensures p < |After(w, solo).procs| && Installing(before, After(w, solo).fs, After(w, solo).procs[p], key, quote)
    decreases |solo|
  {
    hide Installing;
    if solo != [] {
      AfterCons(w, solo[0], solo[1..]);
      assert solo == [solo[0]] + solo[1..];
      NextKeepsInv(w, solo[0]);
      SmoothInstalling(before, w.fs, w.procs[p], solo[0].choice, key, quote);
      InstallingRun(before, Next(w, solo[0]), solo[1..], p, key, quote);
    }
  }

  /** Recovering: the metadata of the installed key is on its way, and nothing else has changed. */
  ghost predicate Describing(before: Fs, fs: Fs, pc: Pc, key: Key, quote: nat) {
    && FilesKept(before, fs)
    && match pc
       case CreateTemp(job) => job == MetadataJob(key, quote) && fs.names == before.names
       case Write(job, tmp, file) =>
         && tmp.Temp? && tmp !in before.names && file !in before.files
         && job == MetadataJob(key, quote) && fs.names == before.names[tmp := file]
       case Sync(job, tmp) => Drafted(before, fs, job, tmp, key, quote)
       case Install(job, tmp) => Drafted(before, fs, job, tmp, key, quote)
       case SyncDir(job) => job == MetadataJob(key, quote) && OnlyMetadataNew(before, fs, key, quote)
       case Done(k) => k == key && OnlyMetadataNew(before, fs, key, quote)
       case _ => false
  }

  ghost predicate Drafted(before: Fs, fs: Fs, job: Job, tmp: Name, key: Key, quote: nat) {
    && tmp.Temp? && tmp !in before.names && NewFile(before, fs, tmp, Data(job))
    && job == MetadataJob(key, quote) && fs.names == before.names[tmp := fs.names[tmp]]
  }

  lemma SmoothDescribing(before: Fs, fs: Fs, pc: Pc, c: Choice, key: Key, quote: nat)
    requires FsOk(before) && FsOk(fs) && Describing(before, fs, pc, key, quote)
    requires !c.crash && c.ok && Temp(c.suffix) !in fs.names
    ensures Describing(before, Step(fs, pc, c).0, Step(fs, pc, c).1, key, quote)
  {
  }

  lemma {:induction false} DescribingRun(before: Fs, w: World, solo: seq<Turn>, p: nat, key: Key, quote: nat)
    requires Inv(w) && p < |w.procs| && Smooth(w, solo, p)
    requires FsOk(before) && Describing(before, w.fs, w.procs[p], key, quote)
    ensures p < |After(w, solo).procs| && Describing(before, After(w, solo).fs, After(w, solo).procs[p], key, quote)
    decreases |solo|
  {
    hide Describing;
    if solo != [] {
      AfterCons(w, solo[0], solo[1..]);
      assert solo == [solo[0]] + solo[1..];
      NextKeepsInv(w, solo[0]);
      SmoothDescribing(before, w.fs, w.procs[p], solo[0].choice, key, quote);
      DescribingRun(before, Next(w, solo[0]), solo[1..], p, key, quote);
    }
  }

  /** Taking n smooth turns and then the rest. */
  lemma SmoothTurns(w: World, solo: seq<Turn>, p: nat)
    requires Inv(w) && p < |w.procs| && Smooth(w, solo, p) && solo != []
    ensures var turn := solo[0];
            && Next(w, turn) == World(Step(w.fs, w.procs[p], turn.choice).0, w.procs[p := Step(w.fs, w.procs[p], turn.choice).1])
            && Inv(Next(w, turn)) && Smooth(Next(w, turn), solo[1..], p)
            && After(w, solo) == After(Next(w, turn), solo[1..])
  {
    AfterCons(w, solo[0], solo[1..]);
    assert solo == [solo[0]] + solo[1..];
    NextKeepsInv(w, solo[0]);
  }

  ghost predicate DoneWith(w: World, p: nat, key: Key) {
    p < |w.procs| && w.procs[p] == Done(key)
  }

  /**
   Where no key is installed, a smooth bootstrap installs the key and the quote of its own Generate turn:
   these two names are new, and no other name or file changes, so no temporary file remains.
   */
  lemma FreshInstall(w: World, solo: seq<Turn>, p: nat)
    requires Inv(w) && p < |w.procs| && w.procs[p] == Start && Smooth(w, solo, p) && |solo| >= Rank(Start)
    requires KeyFile !in w.fs.names
    ensures DoneWith(After(w, solo), p, solo[1].choice.key)
    ensures KeyAndMetadataNew(w.fs, After(w, solo).fs, solo[1].choice.key, solo[1].choice.quote)
    ensures FilesKept(w.fs, After(w, solo).fs)
  {
    hide Inv, Smooth, Undisturbed;
    StartCanFinish(w, p);
    EverySmoothRunFinishes(w, solo, p);
    SmoothTurn(w, solo, p);
    SmoothTurns(w, solo, p);
    var u := Next(w, solo[0]);
    SmoothTurn(u, solo[1..], p);
    SmoothTurns(u, solo[1..], p);
    var v := Next(u, solo[1]);
    FsSound(w);
    InstallingRun(w.fs, v, solo[1..][1..], p, solo[1].choice.key, solo[1].choice.quote);
  }

  lemma SmoothTurn(w: World, solo: seq<Turn>, p: nat)
    requires Smooth(w, solo, p) && solo != []
    ensures !solo[0].choice.crash && solo[0].choice.ok
  {
  }

  lemma FsSound(w: World)
    requires Inv(w)
    ensures FsOk(w.fs)
  {
  }

  lemma RecoversKey(w: World, solo: seq<Turn>, p: nat, key: Key) returns (v: World)
    requires Inv(w) && p < |w.procs| && w.procs[p] == Start && Smooth(w, solo, p) && |solo| >= 2
    requires Installed(w.fs, key)
    ensures v.fs == w.fs && p < |v.procs| && v.procs[p] == RecoverMetadata(key)
    ensures Inv(v) && Smooth(v, solo[2..], p) && After(w, solo) == After(v, solo[2..])
  {
    hide Inv, Smooth, Undisturbed;
    SmoothTurn(w, solo, p);
    SmoothTurns(w, solo, p);
    var u := Next(w, solo[0]);
    SmoothTurn(u, solo[1..], p);
    SmoothTurns(u, solo[1..], p);
    v := Next(u, solo[1]);
    assert solo[1..][1..] == solo[2..];
  }

  /** Complete metadata of the installed key is kept, quote and all: such a bootstrap changes nothing. */
  lemma CompleteIsKept(w: World, solo: seq<Turn>, p: nat, key: Key)
    requires Inv(w) && p < |w.procs| && w.procs[p] == Start && Smooth(w, solo, p) && |solo| >= Rank(Start)
    requires Installed(w.fs, key) && Described(w.fs, key) && w.fs.files[w.fs.names[MetadataFile]].quote != 0
    ensures After(w, solo).fs == w.fs && DoneWith(After(w, solo), p, key)
  {
    hide Inv, Smooth;
    var v := RecoversKey(w, solo, p, key);
    SmoothTurn(v, solo[2..], p);
    SmoothTurns(v, solo[2..], p);
    var u := Next(v, solo[2]);
    AllUndisturbed(u, solo[2..][1..], p);
    StaysDone(u, solo[2..][1..], p);
  }

  lemma AllUndisturbed(w: World, solo: seq<Turn>, p: nat)
    requires Smooth(w, solo, p)
    ensures Undisturbed(solo, p)
  {
  }

  /** Anything else is replaced by metadata of the installed key, with the quote of the Rebuild turn. */
  lemma IncompleteIsRebuilt(w: World, solo: seq<Turn>, p: nat, key: Key)
    requires Inv(w) && p < |w.procs| && w.procs[p] == Start && Smooth(w, solo, p) && |solo| >= Rank(Start)
    requires Installed(w.fs, key)
    requires Described(w.fs, key) ==> w.fs.files[w.fs.names[MetadataFile]].quote == 0
    ensures DoneWith(After(w, solo), p, key)
    ensures OnlyMetadataNew(w.fs, After(w, solo).fs, key, solo[3].choice.quote) && FilesKept(w.fs, After(w, solo).fs)
  {
    hide Inv, Smooth, Undisturbed;
    StartCanFinish(w, p);
    EverySmoothRunFinishes(w, solo, p);
    var v := RecoversKey(w, solo, p, key);
    SmoothTurn(v, solo[2..], p);
    SmoothTurns(v, solo[2..], p);
    var u := Next(v, solo[2]);
    SmoothTurn(u, solo[2..][1..], p);
    SmoothTurns(u, solo[2..][1..], p);
    FsSound(w);
    DescribingRun(w.fs, Next(u, solo[3]), solo[2..][1..][1..], p, key, solo[3].choice.quote);
  }

  // ---------- Failed calls leave no temporary files ----------

  /** The process did not crash, and if it was cleaning up, that call succeeded; other calls may fail. */
  predicate Tidy(pc: Pc, c: Choice) {
    !c.crash && (pc.CleanUp? ==> c.ok)
  }

  /** A temporary name is new only while its process owns it, and gone as soon as it does not. */
  lemma TidyStep(fs: Fs, pc: Pc, c: Choice)
    requires Tidy(pc, c)
    ensures var (next, after) := Step(fs, pc, c);
            && (forall n :: n in next.names && n.Temp? ==> n in fs.names || Owned(after) == Some(n))
            && (Owned(pc).Some? && Owned(pc).value.Temp? && Owned(pc) != Owned(after) ==> Owned(pc).value !in next.names)
  {
  }

  ghost predicate TidyRun(w: World, schedule: seq<Turn>)
    decreases |schedule|
  {
    schedule == [] ||
    var front, turn := schedule[..|schedule| - 1], schedule[|schedule| - 1];
    && TidyRun(w, front)
    && var before := After(w, front);
       turn.process < |before.procs| ==> Tidy(before.procs[turn.process], turn.choice)
  }

  ghost predicate OwnedBySome(w: World, name: Name) {
    exists p :: 0 <= p < |w.procs| && Owned(w.procs[p]) == Some(name)
  }

  ghost predicate NoLitterSince(start: World, w: World) {
    forall n :: n in w.fs.names && n.Temp? ==> n in start.fs.names || OwnedBySome(w, n)
  }

  lemma TidyNext(start: World, w: World, t: Turn)
    requires Inv(w) && NoLitterSince(start, w)
    requires t.process < |w.procs| ==> Tidy(w.procs[t.process], t.choice)
    ensures NoLitterSince(start, Next(w, t))
  {
    if t.process < |w.procs| {
      var p, v := t.process, Next(w, t);
      TidyStep(w.fs, w.procs[p], t.choice);
      assert ProcOk(w.fs, w.procs[p]);
      forall n | n in v.fs.names && n.Temp? && n !in start.fs.names ensures OwnedBySome(v, n) {
        if Owned(v.procs[p]) != Some(n) {
          var q :| 0 <= q < |w.procs| && Owned(w.procs[q]) == Some(n);
          assert q != p && Owned(v.procs[q]) == Some(n);
        }
      }
    }
  }

  /**
   However calls fail and processes race, as long as none crashes and clean-up itself succeeds, every
   temporary name that a run added belongs to a process that is still at work.
   */
  lemma {:induction false} NoLitter(w: World, schedule: seq<Turn>)
    requires Inv(w) && TidyRun(w, schedule)
    ensures NoLitterSince(w, After(w, schedule))
    decreases |schedule|
  {
    hide Inv, NoLitterSince, Next;
    if schedule == [] {
      NoneYet(w);
    } else {
      var front := schedule[..|schedule| - 1];
      NoLitter(w, front);
      RunKeepsInv(w, front);
      TidyNext(w, After(w, front), schedule[|schedule| - 1]);
    }
  }

  lemma NoneYet(w: World)
    ensures NoLitterSince(w, w)
  {
  }

  // ---------- A failed call is never ignored ----------

  /** The process can no longer complete. */
  predicate Doomed(pc: Pc) {
    pc.Failed? || pc.Crashed? || (pc.CleanUp? && !pc.keyExists)
  }

  /**
   A failed call changes nothing, and it dooms the process in every case but one: failing to remove the
   temporary name after another process's key won.
   */
  lemma FailureDooms(fs: Fs, pc: Pc, c: Choice)
    requires !c.ok && !c.crash && !pc.Done?
    ensures Step(fs, pc, c).0 == fs
    ensures Doomed(Step(fs, pc, c).1) <==> !(pc.CleanUp? && pc.keyExists)
  {
  }

  /** And a doomed process never completes. */
  lemma {:induction false} DoomedForever(w: World, schedule: seq<Turn>, n: nat, p: nat)
    requires n <= |schedule| && p < |After(w, schedule[..n]).procs| && Doomed(After(w, schedule[..n]).procs[p])
    ensures p < |After(w, schedule).procs| && Doomed(After(w, schedule).procs[p])
  {
    if n < |schedule| {
      var front := schedule[..|schedule| - 1];
      assert front[..n] == schedule[..n];
      DoomedForever(w, front, n, p);
    } else {
      assert schedule[..n] == schedule;
    }
  }
}
