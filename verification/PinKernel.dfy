/**
 The system calls of the program, each with its own arguments, and what the
 kernel does with them. The kernel knows the file system and the caller's
 number; it does not know what the caller is about. That it does what a step of
 the protocol says is proved here.
 */
module PinKernel {
  import opened Prelude
  import opened PinFs
  import opened PinProtocol
  import opened PinInvariant

  datatype SysCall =
    | NoCall
    | OpenRead(name: Name)
    | ReadAndClose(ino: nat)
    | Dial
    | MakeDirectory
    | MakeTemp
    | Chmod(file: TempFile, mode: nat)
    | Write(file: TempFile, data: seq<byte>)
    | Fsync(file: TempFile)
    | Close(kind: HandleKind)
    | Link(from: Name, to: Name)
    | OpenDirectory
    | FsyncDirectory
    | Remove(name: Name)
    | Connect(role: Role, pem: seq<byte>)

  datatype Errno = Fine | Exists | Missing | Trouble

  // What a call hands back besides its error.
  datatype Value =
    | Nothing
    | Ino(ino: nat)
    | Temporary(file: TempFile)
    | Data(data: seq<byte>)
    | Leaf(cert: Cert)

  datatype Answer = Answer(fs: Fs, errno: Errno, value: Value)

  function Done(fs: Fs, value: Value): Answer {
    Answer(fs, Fine, value)
  }

  function Fail(fs: Fs, errno: Errno): Answer {
    Answer(fs, errno, Nothing)
  }

  // Calls on the names in the directory.
  function NameCall(fs: Fs, p: nat, s: SysCall, c: Choice): Answer {
    match s
    case OpenRead(n) =>
      if !c.ok then Fail(fs, Trouble)
      else if n !in fs.vol then Fail(fs, Missing)
      else Done(OpenHandle(fs, Handle(p, PinFd)), Ino(fs.vol[n]))
    case MakeDirectory => if c.ok then Done(MkdirAll(fs), Nothing) else Fail(fs, Trouble)
    case MakeTemp =>
      if c.ok && fs.dirExists && Temp(c.id) !in fs.vol then
        Done(PinFs.CreateTemp(fs, p, c.id), Temporary(TempFile(c.id, |fs.inodes|)))
      else Fail(fs, Trouble)
    case Link(from, to) =>
      if !c.ok || from !in fs.vol then Fail(fs, Trouble)
      else if to in fs.vol then Fail(fs, Exists)
      else Done(fs.(vol := fs.vol[to := fs.vol[from]]), Nothing)
    case OpenDirectory =>
      if c.ok then Done(OpenHandle(fs, Handle(p, DirFd)), Nothing) else Fail(fs, Trouble)
    case FsyncDirectory => if c.ok then Done(PinFs.SyncDir(fs), Nothing) else Fail(fs, Trouble)
    case Remove(n) => if c.ok then Done(Unlink(fs, n), Nothing) else Fail(fs, Trouble)
    case _ => Done(fs, Nothing)
  }

  // Calls on open files. Closing releases the descriptor even when it fails; a
  // write that fails may have written some of the data.
  function FileCall(fs: Fs, p: nat, s: SysCall, c: Choice): Answer {
    match s
    case ReadAndClose(i) =>
      var fs' := CloseHandle(fs, Handle(p, PinFd));
      if c.ok && i < |fs.inodes| then Done(fs', Data(fs.inodes[i].vol.data)) else Fail(fs', Trouble)
    case Chmod(f, mode) =>
      if c.ok && f.ino < |fs.inodes| then
        Done(Edit(fs, f.ino, fs.inodes[f.ino].vol.(mode := mode)), Nothing)
      else Fail(fs, Trouble)
    case Write(f, data) =>
      if f.ino >= |fs.inodes| then Fail(fs, Trouble)
      else
        var landed := if c.ok || c.cut > |data| then data else data[..c.cut];
        Answer(Edit(fs, f.ino, fs.inodes[f.ino].vol.(data := landed)), if c.ok then Fine else Trouble, Nothing)
    case Fsync(f) =>
      if c.ok && f.ino < |fs.inodes| then Done(SyncFile(fs, f.ino), Nothing) else Fail(fs, Trouble)
    case Close(k) => Answer(CloseHandle(fs, Handle(p, k)), if c.ok then Fine else Trouble, Nothing)
    case _ => Done(fs, Nothing)
  }

  // Calls to the target.
  function NetCall(fs: Fs, s: SysCall, c: Choice): Answer {
    match s
    case Dial => if c.ok then Done(fs, Leaf(c.cert)) else Fail(fs, Trouble)
    case Connect(_, _) => if c.ok then Done(fs, Nothing) else Fail(fs, Trouble)
    case _ => Done(fs, Nothing)
  }

  function Kernel(fs: Fs, p: nat, s: SysCall, c: Choice): Answer {
    match s
    case NoCall => Done(fs, Nothing)
    case OpenRead(_) => NameCall(fs, p, s, c)
    case ReadAndClose(_) => FileCall(fs, p, s, c)
    case Dial => NetCall(fs, s, c)
    case MakeDirectory => NameCall(fs, p, s, c)
    case MakeTemp => NameCall(fs, p, s, c)
    case Chmod(_, _) => FileCall(fs, p, s, c)
    case Write(_, _) => FileCall(fs, p, s, c)
    case Fsync(_) => FileCall(fs, p, s, c)
    case Close(_) => FileCall(fs, p, s, c)
    case Link(_, _) => NameCall(fs, p, s, c)
    case OpenDirectory => NameCall(fs, p, s, c)
    case FsyncDirectory => NameCall(fs, p, s, c)
    case Remove(_) => NameCall(fs, p, s, c)
    case Connect(_, _) => NetCall(fs, s, c)
  }

  // The connections that a call opens; a failed one may have been dialed.
  function Opens(s: SysCall, c: Choice): seq<Connection> {
    if s.Connect? && (c.ok || c.dialed) then [Connection(s.role, s.pem)] else []
  }

  // The call that the protocol makes in the state q, arguments and all.
  predicate Issues(e: Env, q: Proc, s: SysCall) {
    match q.pc
    case Start => s == NoCall
    case OpenPin(_) => s == OpenRead(Pin)
    case ReadPin(_) => s == ReadAndClose(q.fd)
    case Fetch => s == Dial
    case Mkdir => s == MakeDirectory
    case CreateTemp => s == MakeTemp
    case Chmod => q.temp.Some? && s == SysCall.Chmod(q.temp.value, PIN_MODE)
    case Write =>
      q.temp.Some? && q.cand.Some? && s == SysCall.Write(q.temp.value, e.pki.encode(q.cand.value))
    case SyncTemp => q.temp.Some? && s == Fsync(q.temp.value)
    case CloseTemp => s == Close(TmpFd)
    case AbortTemp => s == Close(TmpFd)
    case Link => q.temp.Some? && s == SysCall.Link(Temp(q.temp.value.id), Pin)
    case OpenDir => s == OpenDirectory
    case SyncDir => s == FsyncDirectory
    case CloseDir(_) => s == Close(DirFd)
    case RemoveTemp(_) => q.temp.Some? && s == Remove(Temp(q.temp.value.id))
    case ConnectPrimary => ConnectsAs(q, s, Role.Primary)
    case ConnectAdmin => ConnectsAs(q, s, Role.Admin)
    case Up => false
    case Stopped => false
    case Dead => false
  }

  predicate ConnectsAs(q: Proc, s: SysCall, role: Role) {
    q.res.Some? && q.res.value.Resolved? && s == Connect(role, q.res.value.pem)
  }

  // What the kernel does with the call is what the protocol's step says.
  predicate Agree(fs: Fs, p: nat, q: Proc, s: SysCall, c: Choice, x: Effect) {
    x.fs == Kernel(fs, p, s, c).fs && x.q.conns == q.conns + Opens(s, c)
  }

  lemma LoadAgrees(e: Env, fs: Fs, p: nat, q: Proc, s: SysCall, c: Choice)
    requires StageOf(q.pc).Loading? && Issues(e, q, s)
    ensures Agree(fs, p, q, s, c, LoadCall(e, fs, p, q, c))
  {
    assert q.conns + [] == q.conns;
  }

  lemma TempAgrees(e: Env, fs: Fs, p: nat, q: Proc, s: SysCall, c: Choice)
    requires StageOf(q.pc).Preparing? && Issues(e, q, s) && ProcFit(e, fs, p, q)
    ensures Agree(fs, p, q, s, c, TempCall(e, fs, p, q, c))
  {
    assert q.conns + [] == q.conns;
  }

  lemma PublishAgrees(e: Env, fs: Fs, p: nat, q: Proc, s: SysCall, c: Choice)
    requires StageOf(q.pc).Publishing? && Issues(e, q, s)
    ensures Agree(fs, p, q, s, c, PublishCall(e, fs, p, q, c))
  {
    assert q.conns + [] == q.conns;
  }

  lemma ConnectAgrees(e: Env, fs: Fs, p: nat, q: Proc, s: SysCall, c: Choice)
    requires StageOf(q.pc).Connecting? && Issues(e, q, s)
    ensures Agree(fs, p, q, s, c, ConnectCall(e, fs, p, q, c))
  {
    assert q.conns + [] == q.conns;
  }

  lemma KernelIsProtocol(e: Env, fs: Fs, p: nat, q: Proc, s: SysCall, c: Choice)
    requires ProcFit(e, fs, p, q) && Issues(e, q, s)
    ensures var x := Call(e, fs, p, q, c);
            x.fs == Kernel(fs, p, s, c).fs && x.q.conns == q.conns + Opens(s, c)
  {
    match StageOf(q.pc)
    case Loading => LoadAgrees(e, fs, p, q, s, c);
    case Preparing => TempAgrees(e, fs, p, q, s, c);
    case Publishing => PublishAgrees(e, fs, p, q, s, c);
    case Connecting => ConnectAgrees(e, fs, p, q, s, c);
  }
}
