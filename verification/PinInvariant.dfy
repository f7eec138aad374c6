/**
 The inductive invariant of the pin protocol and the proof that every action
 keeps it. The proof is rely/guarantee: a call changes the file system only in
 ways the other processes tolerate, a process keeps its part of the invariant
 across tolerable changes, and the caller re-establishes its own part.
 */
module PinInvariant {
  import opened Prelude
  import opened PinFs
  import opened PinProtocol

  function CandidateFile(e: Env, c: Cert): File {
    File(e.pki.encode(c), PIN_MODE)
  }

  // --- what each process can count on ---

  // The temporary file a process made stays its own for ever.
  predicate TempOwned(fs: Fs, p: nat, q: Proc) {
    q.temp.Some? ==>
      && q.cand.Some?
      && q.temp.value.ino < |fs.inodes|
      && fs.inodes[q.temp.value.ino].creator == Some(p)
  }

  // The fingerprint reported with a pin is that of the certificate in it.
  predicate TrustFit(e: Env, q: Proc, pem: seq<byte>, t: Trust) {
    if !UsesTls(q) then pem == [] && t == Trust("", "", false)
    else
      && t.path == e.path
      && if t.firstUse then
           && q.temp.Some?
           && q.cand.Some?
           && pem == e.pki.encode(q.cand.value)
           && t.fingerprint == PrintOf(e.pki, q.cand.value)
         else
           && e.pki.parse(pem).Some?
           && t.fingerprint == PrintOf(e.pki, e.pki.parse(pem).value)
  }

  // Connections: none without a resolved PEM, all with that PEM, the primary
  // one first and the admin one only for a process with an admin credential.
  predicate ConnsFit(q: Proc) {
    || q.conns == []
    || (&& q.res.Some?
        && q.res.value.Resolved?
        && var pem := q.res.value.pem;
           || q.conns == [Connection(Role.Primary, pem)]
           || (q.admin && q.conns == [Connection(Role.Primary, pem), Connection(Role.Admin, pem)]))
  }

  predicate History(e: Env, fs: Fs, p: nat, q: Proc) {
    && TempOwned(fs, p, q)
    && (q.res.Some? && q.res.value.Resolved? ==> TrustFit(e, q, q.res.value.pem, q.res.value.trust))
    && ConnsFit(q)
  }

  predicate Unresolved(q: Proc) {
    q.res.None? && q.conns == []
  }

  predicate BeforeFetch(q: Proc) {
    Unresolved(q) && q.cand.None? && q.temp.None?
  }

  predicate Fetched(q: Proc) {
    Unresolved(q) && UsesTls(q) && q.cand.Some? && q.temp.None?
  }

  // The process has its temporary file, under its name.
  predicate Holding(fs: Fs, p: nat, q: Proc) {
    && Unresolved(q)
    && UsesTls(q)
    && q.temp.Some?
    && TempOwned(fs, p, q)
    && fs.dirExists
    && Temp(q.temp.value.id) in fs.vol
    && fs.vol[Temp(q.temp.value.id)] == q.temp.value.ino
  }

  predicate Unpublished(fs: Fs, p: nat, q: Proc) {
    Holding(fs, p, q) && !PinIs(fs, q.temp.value.ino)
  }

  predicate Synced(e: Env, fs: Fs, p: nat, q: Proc) {
    && Unpublished(fs, p, q)
    && var n := fs.inodes[q.temp.value.ino];
       n.clean && n.vol == n.dur == CandidateFile(e, q.cand.value)
  }

  predicate Linked(e: Env, fs: Fs, p: nat, q: Proc) {
    && Holding(fs, p, q)
    && PinIs(fs, q.temp.value.ino)
    && fs.inodes[q.temp.value.ino].vol == CandidateFile(e, q.cand.value)
  }

  // The pin holds what New connects with.
  predicate Trusting(fs: Fs, q: Proc) {
    q.res.Some? && q.res.value.Resolved? && (UsesTls(q) ==> PinHolds(fs, q.res.value.pem))
  }

  predicate At(e: Env, fs: Fs, p: nat, q: Proc) {
    match q.pc
    case Start => BeforeFetch(q)
    case OpenPin(again) => UsesTls(q) && Unresolved(q) && (!again ==> BeforeFetch(q))
    case ReadPin(again) => UsesTls(q) && Unresolved(q) && (!again ==> BeforeFetch(q)) && PinIs(fs, q.fd)
    case Fetch => UsesTls(q) && BeforeFetch(q)
    case Mkdir => Fetched(q)
    case CreateTemp => Fetched(q) && fs.dirExists
    case Chmod => Unpublished(fs, p, q) && fs.inodes[q.temp.value.ino].vol == File([], PRIVATE_MODE)
    case Write => Unpublished(fs, p, q) && fs.inodes[q.temp.value.ino].vol == File([], PIN_MODE)
    case SyncTemp =>
      Unpublished(fs, p, q) && fs.inodes[q.temp.value.ino].vol == CandidateFile(e, q.cand.value)
    case CloseTemp => Synced(e, fs, p, q)
    case AbortTemp => Unpublished(fs, p, q)
    case Link => Synced(e, fs, p, q)
    case OpenDir => Linked(e, fs, p, q)
    case SyncDir => Linked(e, fs, p, q)
    case CloseDir(out) => Holding(fs, p, q) && (out.Created? ==> Linked(e, fs, p, q) && Pin in fs.dur)
    case RemoveTemp(out) => Holding(fs, p, q) && (out.Created? ==> Linked(e, fs, p, q) && Pin in fs.dur)
    case ConnectPrimary => Trusting(fs, q) && q.conns == []
    case ConnectAdmin => Trusting(fs, q) && q.admin && |q.conns| == 1
    case Up => Trusting(fs, q) && |q.conns| == if q.admin then 2 else 1
    case Stopped => true
    case Dead => true
  }

  predicate ProcFit(e: Env, fs: Fs, p: nat, q: Proc) {
    History(e, fs, p, q) && At(e, fs, p, q)
  }

  // --- what the file system keeps ---

  // Inode i is fit to be the pin: it is the file of the pin that was there at
  // the start, unchanged if all of it was on disk then, or one process's whole
  // candidate, all of it on disk.
  predicate PinFit(w0: World, w: World, i: nat) {
    && i < |w.fs.inodes|
    && (w.fs.inodes[i].clean ==> w.fs.inodes[i].vol == w.fs.inodes[i].dur)
    && match w.fs.inodes[i].creator
       case None =>
         && PinIs(w0.fs, i)
         && i < |w0.fs.inodes|
         && (w0.fs.inodes[i].clean ==> w.fs.inodes[i] == w0.fs.inodes[i])
       case Some(p) =>
         && p < |w.procs|
         && w.procs[p].cand.Some?
         && w.fs.inodes[i].clean
         && w.fs.inodes[i].vol == CandidateFile(w.env, w.procs[p].cand.value)
  }

  predicate PinsFit(w0: World, w: World) {
    && (Pin in w.fs.vol ==> PinFit(w0, w, w.fs.vol[Pin]))
    && (Pin in w.fs.dur ==> PinIs(w.fs, w.fs.dur[Pin]))
  }

  // A process creates at most one inode, and remembers it.
  predicate InodeFit(w: World, i: nat)
    requires i < |w.fs.inodes|
  {
    match w.fs.inodes[i].creator
    case None => true
    case Some(p) =>
      p < |w.procs| && w.procs[p].temp.Some? && w.procs[p].temp.value.ino == i
  }

  predicate HasOpen(pc: PC, k: HandleKind) {
    match k
    case PinFd => pc.ReadPin?
    case TmpFd => pc.Chmod? || pc.Write? || pc.SyncTemp? || pc.CloseTemp? || pc.AbortTemp?
    case DirFd => pc.SyncDir? || pc.CloseDir?
  }

  ghost predicate HandlesFit(w: World) {
    forall h: Handle ::
      h in w.fs.handles <==> h.pid < |w.procs| && HasOpen(w.procs[h.pid].pc, h.kind)
  }

  predicate SameInput(q: Proc, q': Proc) {
    q'.url == q.url && q'.admin == q.admin
  }

  ghost predicate Inv(w0: World, w: World) {
    && w.env == w0.env
    && |w.procs| == |w0.procs|
    && (forall p | 0 <= p < |w.procs| :: SameInput(w0.procs[p], w.procs[p]))
    && (w0.fs.dirDurable ==> w.fs.dirDurable)
    && WellFormed(w.fs)
    && PinsFit(w0, w)
    && HandlesFit(w)
    && (forall i | 0 <= i < |w.fs.inodes| :: InodeFit(w, i))
    && (forall p | 0 <= p < |w.procs| :: ProcFit(w.env, w.fs, p, w.procs[p]))
  }

  // --- rely and guarantee ---

  // As far as any process can tell, the inode is the same: what reads return
  // is unchanged, and so is what is on disk if it is all there.
  predicate SameFile(n: Inode, n': Inode) {
    n'.vol == n.vol && n'.creator == n.creator && n'.clean == n.clean && (n.clean ==> n' == n)
  }

  // A change by process p (or, with no such process, by the machine) that the
  // others tolerate.
  ghost predicate Tolerable(fs: Fs, fs': Fs, p: nat) {
    && |fs.inodes| <= |fs'.inodes|
    && (forall i | 0 <= i < |fs.inodes| ::
         && fs'.inodes[i].creator == fs.inodes[i].creator
         && (fs.inodes[i].creator != Some(p) || PinIs(fs, i) ==> SameFile(fs.inodes[i], fs'.inodes[i])))
    && (Pin in fs.vol ==> Pin in fs'.vol && fs'.vol[Pin] == fs.vol[Pin])
    && (Pin in fs'.vol && Pin !in fs.vol ==>
         fs'.vol[Pin] < |fs.inodes| && fs.inodes[fs'.vol[Pin]].creator == Some(p))
    && (forall n: nat | Temp(n) in fs.vol && fs.vol[Temp(n)] < |fs.inodes| && fs.inodes[fs.vol[Temp(n)]].creator != Some(p) ::
         Temp(n) in fs'.vol && fs'.vol[Temp(n)] == fs.vol[Temp(n)])
    && (Pin in fs.dur ==> Pin in fs'.dur)
    && (fs.dirExists ==> fs'.dirExists)
    && (fs.dirDurable ==> fs'.dirDurable)
    && (forall h: Handle | h.pid != p :: h in fs.handles <==> h in fs'.handles)
  }

  // The pin and its file stay.
  lemma StablePin(fs: Fs, fs': Fs, p: nat, data: seq<byte>)
    requires Tolerable(fs, fs', p) && (Pin in fs.vol ==> fs.vol[Pin] < |fs.inodes|)
    ensures PinHolds(fs, data) ==> PinHolds(fs', data)
  {
  }

  // So does a process's temporary file, and whether it is the pin.
  lemma StableTemp(fs: Fs, fs': Fs, p: nat, r: nat, q: Proc)
    requires Holding(fs, r, q) && Tolerable(fs, fs', p) && r != p
    requires Pin in fs.vol ==> fs.vol[Pin] < |fs.inodes|
    ensures var i := q.temp.value.ino;
            && Holding(fs', r, q)
            && SameFile(fs.inodes[i], fs'.inodes[i])
            && (PinIs(fs', i) <==> PinIs(fs, i))
  {
  }

  lemma Stable(e: Env, fs: Fs, fs': Fs, p: nat, r: nat, q: Proc)
    requires ProcFit(e, fs, r, q) && Tolerable(fs, fs', p) && r != p
    requires Pin in fs.vol ==> fs.vol[Pin] < |fs.inodes|
    ensures ProcFit(e, fs', r, q)
  {
    if q.res.Some? && q.res.value.Resolved? { StablePin(fs, fs', p, q.res.value.pem); }
    if Holding(fs, r, q) { StableTemp(fs, fs', p, r, q); }
  }

  // What a process has recorded is never unset or changed.
  predicate Grows(q: Proc, q': Proc) {
    && SameInput(q, q')
    && (q.cand.Some? ==> q'.cand == q.cand)
    && (q.temp.Some? ==> q'.temp == q.temp)
    && (q.res.Some? ==> q'.res == q.res)
    && q.conns <= q'.conns
  }

  predicate OwnHandles(fs: Fs, p: nat, q: Proc) {
    && (Handle(p, PinFd) in fs.handles <==> HasOpen(q.pc, PinFd))
    && (Handle(p, TmpFd) in fs.handles <==> HasOpen(q.pc, TmpFd))
    && (Handle(p, DirFd) in fs.handles <==> HasOpen(q.pc, DirFd))
  }

  // What a process needs of the world when it makes a call.
  ghost predicate Ready(w: World, p: nat) {
    && p < |w.procs|
    && WellFormed(w.fs)
    && (Pin in w.fs.dur ==> PinIs(w.fs, w.fs.dur[Pin]))
    && ProcFit(w.env, w.fs, p, w.procs[p])
    && OwnHandles(w.fs, p, w.procs[p])
  }

  // The call keeps the caller's part.
  predicate KeepsSelf(w: World, p: nat, x: Effect)
    requires p < |w.procs|
  {
    && ProcFit(w.env, x.fs, p, x.q)
    && OwnHandles(x.fs, p, x.q)
    && Grows(w.procs[p], x.q)
  }

  // The call is tolerable to the others and keeps the pin and the inodes fit.
  ghost predicate KeepsOthers(w: World, p: nat, x: Effect) {
    && Tolerable(w.fs, x.fs, p)
    && WellFormed(x.fs)
    && (Pin in x.fs.vol && Pin !in w.fs.vol ==> x.q.temp.Some? && Published(w, x, x.fs.vol[Pin]))
    && (Pin in x.fs.dur ==> PinIs(x.fs, x.fs.dur[Pin]))
    && (forall i | |w.fs.inodes| <= i < |x.fs.inodes| ::
         x.fs.inodes[i].creator == Some(p) && x.q.temp.Some? && x.q.temp.value.ino == i)
  }

  ghost predicate Keeps(w: World, p: nat, x: Effect)
    requires p < |w.procs|
  {
    KeepsSelf(w, p, x) && KeepsOthers(w, p, x)
  }

  // The inode a call has just linked: one whole candidate, all on disk.
  predicate Published(w: World, x: Effect, i: nat) {
    && i < |x.fs.inodes|
    && x.q.cand.Some?
    && x.fs.inodes[i].clean
    && x.fs.inodes[i].vol == x.fs.inodes[i].dur == CandidateFile(w.env, x.q.cand.value)
  }

  // One lemma for each kind of call.

  lemma StartKeeps(w: World, p: nat, c: Choice)
    requires Ready(w, p) && w.procs[p].pc.Start?
    ensures KeepsSelf(w, p, LoadCall(w.env, w.fs, p, w.procs[p], c))
  {
  }

  lemma OpenPinKeeps(w: World, p: nat, c: Choice)
    requires Ready(w, p) && w.procs[p].pc.OpenPin?
    ensures KeepsSelf(w, p, LoadCall(w.env, w.fs, p, w.procs[p], c))
  {
  }

  lemma ReadPinKeeps(w: World, p: nat, c: Choice)
    requires Ready(w, p) && w.procs[p].pc.ReadPin?
    ensures KeepsSelf(w, p, LoadCall(w.env, w.fs, p, w.procs[p], c))
  {
    var q := w.procs[p];
    var x := LoadCall(w.env, w.fs, p, q, c);
    assert PinHolds(w.fs, w.fs.inodes[q.fd].vol.data);
    if x.q.pc.Stopped? {
      assert x.q == Stop(q, x.q.res.value.error);
    } else {
      var data := w.fs.inodes[q.fd].vol.data;
      assert x.q == Resolve(q, data, Trust(w.env.path, PrintOf(w.env.pki, w.env.pki.parse(data).value), false));
    }
  }

  lemma FetchKeeps(w: World, p: nat, c: Choice)
    requires Ready(w, p) && w.procs[p].pc.Fetch?
    ensures KeepsSelf(w, p, LoadCall(w.env, w.fs, p, w.procs[p], c))
  {
  }

  lemma MkdirKeeps(w: World, p: nat, c: Choice)
    requires Ready(w, p) && w.procs[p].pc.Mkdir?
    ensures KeepsSelf(w, p, TempCall(w.env, w.fs, p, w.procs[p], c))
  {
  }

  lemma CreateTempKeeps(w: World, p: nat, c: Choice)
    requires Ready(w, p) && w.procs[p].pc.CreateTemp?
    ensures KeepsSelf(w, p, TempCall(w.env, w.fs, p, w.procs[p], c))
  {
  }

  lemma ChmodKeeps(w: World, p: nat, c: Choice)
    requires Ready(w, p) && w.procs[p].pc.Chmod?
    ensures KeepsSelf(w, p, TempCall(w.env, w.fs, p, w.procs[p], c))
  {
  }

  lemma WriteKeeps(w: World, p: nat, c: Choice)
    requires Ready(w, p) && w.procs[p].pc.Write?
    ensures KeepsSelf(w, p, TempCall(w.env, w.fs, p, w.procs[p], c))
  {
    var q := w.procs[p];
    var x := TempCall(w.env, w.fs, p, q, c);
    assert HasTemp(w.fs, q);
    if c.ok {
      assert x.q == q.(pc := SyncTemp);
      assert x.fs.inodes[q.temp.value.ino].vol == CandidateFile(w.env, q.cand.value);
    } else {
      assert x.q == q.(pc := AbortTemp);
    }
  }

  lemma SyncTempKeeps(w: World, p: nat, c: Choice)
    requires Ready(w, p) && w.procs[p].pc.SyncTemp?
    ensures KeepsSelf(w, p, TempCall(w.env, w.fs, p, w.procs[p], c))
  {
  }

  lemma CloseTempKeeps(w: World, p: nat, c: Choice)
    requires Ready(w, p) && w.procs[p].pc.CloseTemp?
    ensures KeepsSelf(w, p, TempCall(w.env, w.fs, p, w.procs[p], c))
  {
  }

  lemma AbortTempKeeps(w: World, p: nat, c: Choice)
    requires Ready(w, p) && w.procs[p].pc.AbortTemp?
    ensures KeepsSelf(w, p, TempCall(w.env, w.fs, p, w.procs[p], c))
  {
  }

  lemma LinkKeeps(w: World, p: nat, c: Choice)
    requires Ready(w, p) && w.procs[p].pc.Link?
    ensures KeepsSelf(w, p, PublishCall(w.env, w.fs, p, w.procs[p], c))
  {
    var q := w.procs[p];
    var x := PublishCall(w.env, w.fs, p, q, c);
    if x.q.pc.OpenDir? {
      assert x == Effect(LinkPin(w.fs, q.temp.value.ino), q.(pc := OpenDir));
    } else {
      assert x.fs == w.fs && x.q == q.(pc := x.q.pc) && x.q.pc.RemoveTemp?;
    }
  }

  lemma OpenDirKeeps(w: World, p: nat, c: Choice)
    requires Ready(w, p) && w.procs[p].pc.OpenDir?
    ensures KeepsSelf(w, p, PublishCall(w.env, w.fs, p, w.procs[p], c))
  {
  }

  lemma SyncDirKeeps(w: World, p: nat, c: Choice)
    requires Ready(w, p) && w.procs[p].pc.SyncDir?
    ensures KeepsSelf(w, p, PublishCall(w.env, w.fs, p, w.procs[p], c))
  {
  }

  lemma CloseDirKeeps(w: World, p: nat, c: Choice)
    requires Ready(w, p) && w.procs[p].pc.CloseDir?
    ensures KeepsSelf(w, p, PublishCall(w.env, w.fs, p, w.procs[p], c))
  {
  }

  lemma RemoveTempKeeps(w: World, p: nat, c: Choice)
    requires Ready(w, p) && w.procs[p].pc.RemoveTemp?
    ensures KeepsSelf(w, p, PublishCall(w.env, w.fs, p, w.procs[p], c))
  {
    var q := w.procs[p];
    var x := PublishCall(w.env, w.fs, p, q, c);
    assert x.q == AfterPublish(w.env, q, q.pc.out);
    if q.pc.out.Created? {
      assert x.q.pc.ConnectPrimary? && PinHolds(x.fs, x.q.res.value.pem);
    } else if q.pc.out.Lost? {
      assert x.q == q.(pc := OpenPin(true));
    } else {
      assert x.q.pc.Stopped?;
    }
  }

  lemma ConnectPrimaryKeeps(w: World, p: nat, c: Choice)
    requires Ready(w, p) && w.procs[p].pc.ConnectPrimary?
    ensures KeepsSelf(w, p, ConnectCall(w.env, w.fs, p, w.procs[p], c))
  {
    var pem := w.procs[p].res.value.pem;
    assert [] + [Connection(Role.Primary, pem)] == [Connection(Role.Primary, pem)];
  }

  lemma ConnectAdminKeeps(w: World, p: nat, c: Choice)
    requires Ready(w, p) && w.procs[p].pc.ConnectAdmin?
    ensures KeepsSelf(w, p, ConnectCall(w.env, w.fs, p, w.procs[p], c))
  {
  }

  lemma LoadTolerable(w: World, p: nat, c: Choice)
    requires Ready(w, p)
    requires w.procs[p].pc.Start? || w.procs[p].pc.OpenPin? || w.procs[p].pc.ReadPin? || w.procs[p].pc.Fetch?
    ensures KeepsOthers(w, p, LoadCall(w.env, w.fs, p, w.procs[p], c))
  {
  }

  lemma CreateTolerable(w: World, p: nat, c: Choice)
    requires Ready(w, p)
    requires w.procs[p].pc.Mkdir? || w.procs[p].pc.CreateTemp?
    ensures KeepsOthers(w, p, TempCall(w.env, w.fs, p, w.procs[p], c))
  {
  }

  lemma NoChangeTolerable(w: World, p: nat, q': Proc)
    requires Ready(w, p)
    ensures KeepsOthers(w, p, Effect(w.fs, q'))
  {
  }

  // A process may do what it likes to its own unpublished file.
  lemma OwnFileTolerable(w: World, p: nat, n: Inode, q': Proc)
    requires Ready(w, p) && Unpublished(w.fs, p, w.procs[p]) && n.creator == Some(p)
    ensures var i := w.procs[p].temp.value.ino;
            KeepsOthers(w, p, Effect(w.fs.(inodes := w.fs.inodes[i := n]), q'))
  {
  }

  lemma EditTolerable(w: World, p: nat, c: Choice)
    requires Ready(w, p)
    requires w.procs[p].pc.Chmod? || w.procs[p].pc.Write? || w.procs[p].pc.SyncTemp?
    ensures KeepsOthers(w, p, TempCall(w.env, w.fs, p, w.procs[p], c))
  {
    var q := w.procs[p];
    var x := TempCall(w.env, w.fs, p, q, c);
    var i := q.temp.value.ino;
    if x.fs == w.fs {
      NoChangeTolerable(w, p, x.q);
    } else {
      assert x.fs == w.fs.(inodes := w.fs.inodes[i := x.fs.inodes[i]]);
      OwnFileTolerable(w, p, x.fs.inodes[i], x.q);
    }
  }

  lemma CloseTolerable(w: World, p: nat, c: Choice)
    requires Ready(w, p)
    requires w.procs[p].pc.CloseTemp? || w.procs[p].pc.AbortTemp?
    ensures KeepsOthers(w, p, TempCall(w.env, w.fs, p, w.procs[p], c))
  {
  }

  lemma PublishTolerable(w: World, p: nat, c: Choice)
    requires Ready(w, p)
    requires w.procs[p].pc.Link? || w.procs[p].pc.OpenDir?
    ensures KeepsOthers(w, p, PublishCall(w.env, w.fs, p, w.procs[p], c))
  {
  }

  lemma FinishTolerable(w: World, p: nat, c: Choice)
    requires Ready(w, p)
    requires w.procs[p].pc.SyncDir? || w.procs[p].pc.CloseDir?
    ensures KeepsOthers(w, p, PublishCall(w.env, w.fs, p, w.procs[p], c))
  {
  }

  lemma RemoveTolerable(w: World, p: nat, c: Choice)
    requires Ready(w, p) && w.procs[p].pc.RemoveTemp?
    ensures KeepsOthers(w, p, PublishCall(w.env, w.fs, p, w.procs[p], c))
  {
  }

  lemma ConnectTolerable(w: World, p: nat, c: Choice)
    requires Ready(w, p)
    requires w.procs[p].pc.ConnectPrimary? || w.procs[p].pc.ConnectAdmin?
    ensures KeepsOthers(w, p, ConnectCall(w.env, w.fs, p, w.procs[p], c))
  {
  }

  // All kinds together, stage by stage.

  lemma LoadKeeps(w: World, p: nat, c: Choice)
    requires Ready(w, p) && StageOf(w.procs[p].pc).Loading?
    ensures Keeps(w, p, LoadCall(w.env, w.fs, p, w.procs[p], c))
  {
    match w.procs[p].pc {
      case Start => StartKeeps(w, p, c);
      case OpenPin(_) => OpenPinKeeps(w, p, c);
      case ReadPin(_) => ReadPinKeeps(w, p, c);
      case Fetch => FetchKeeps(w, p, c);
    }
    LoadTolerable(w, p, c);
  }

  lemma TempKeeps(w: World, p: nat, c: Choice)
    requires Ready(w, p) && StageOf(w.procs[p].pc).Preparing?
    ensures Keeps(w, p, TempCall(w.env, w.fs, p, w.procs[p], c))
  {
    match w.procs[p].pc
    case Mkdir => MkdirKeeps(w, p, c); CreateTolerable(w, p, c);
    case CreateTemp => CreateTempKeeps(w, p, c); CreateTolerable(w, p, c);
    case Chmod => ChmodKeeps(w, p, c); EditTolerable(w, p, c);
    case Write => WriteKeeps(w, p, c); EditTolerable(w, p, c);
    case SyncTemp => SyncTempKeeps(w, p, c); EditTolerable(w, p, c);
    case CloseTemp => CloseTempKeeps(w, p, c); CloseTolerable(w, p, c);
    case AbortTemp => AbortTempKeeps(w, p, c); CloseTolerable(w, p, c);
  }

  lemma PublishKeeps(w: World, p: nat, c: Choice)
    requires Ready(w, p) && StageOf(w.procs[p].pc).Publishing?
    ensures Keeps(w, p, PublishCall(w.env, w.fs, p, w.procs[p], c))
  {
    match w.procs[p].pc
    case Link => LinkKeeps(w, p, c); PublishTolerable(w, p, c);
    case OpenDir => OpenDirKeeps(w, p, c); PublishTolerable(w, p, c);
    case SyncDir => SyncDirKeeps(w, p, c); FinishTolerable(w, p, c);
    case CloseDir(_) => CloseDirKeeps(w, p, c); FinishTolerable(w, p, c);
    case RemoveTemp(_) => RemoveTempKeeps(w, p, c); RemoveTolerable(w, p, c);
  }

  lemma ConnectKeeps(w: World, p: nat, c: Choice)
    requires Ready(w, p) && StageOf(w.procs[p].pc).Connecting?
    ensures Keeps(w, p, ConnectCall(w.env, w.fs, p, w.procs[p], c))
  {
    if w.procs[p].pc.ConnectPrimary? { ConnectPrimaryKeeps(w, p, c); } else { ConnectAdminKeeps(w, p, c); }
    ConnectTolerable(w, p, c);
  }

  lemma OverKeeps(w: World, p: nat)
    requires Ready(w, p)
    ensures Keeps(w, p, Effect(w.fs, w.procs[p]))
  {
  }

  lemma CallKeeps(w: World, p: nat, c: Choice)
    requires Ready(w, p)
    ensures Keeps(w, p, Call(w.env, w.fs, p, w.procs[p], c))
  {
    match StageOf(w.procs[p].pc)
    case Loading => LoadKeeps(w, p, c);
    case Preparing => TempKeeps(w, p, c);
    case Publishing => PublishKeeps(w, p, c);
    case Connecting => ConnectKeeps(w, p, c);
    case Over => OverKeeps(w, p);
  }

  lemma InvReady(w0: World, w: World, p: nat)
    requires Inv(w0, w) && p < |w.procs|
    ensures Ready(w, p)
  {
  }

  lemma KeepsInodes(w0: World, w: World, p: nat, x: Effect)
    requires Inv(w0, w) && p < |w.procs| && Keeps(w, p, x)
    ensures var w' := Apply(w, p, x);
            PinsFit(w0, w') && forall i | 0 <= i < |w'.fs.inodes| :: InodeFit(w', i)
  {
    var w' := Apply(w, p, x);
    forall i | 0 <= i < |w'.fs.inodes| ensures InodeFit(w', i) {
      if i < |w.fs.inodes| { assert InodeFit(w, i); }
    }
  }

  lemma KeepsHandles(w: World, p: nat, x: Effect)
    requires HandlesFit(w) && p < |w.procs| && Keeps(w, p, x)
    ensures HandlesFit(Apply(w, p, x))
  {
    var w' := Apply(w, p, x);
    forall h: Handle ensures h in w'.fs.handles <==> h.pid < |w'.procs| && HasOpen(w'.procs[h.pid].pc, h.kind) {
      if h.pid == p { assert h == Handle(p, h.kind); }
    }
  }

  lemma KeepsInv(w0: World, w: World, p: nat, x: Effect)
    requires Inv(w0, w) && p < |w.procs| && Keeps(w, p, x)
    ensures Inv(w0, Apply(w, p, x))
  {
    var w' := Apply(w, p, x);
    KeepsInodes(w0, w, p, x);
    KeepsHandles(w, p, x);
    forall r | 0 <= r < |w'.procs| ensures ProcFit(w'.env, w'.fs, r, w'.procs[r]) {
      if r != p { Stable(w.env, w.fs, x.fs, p, r, w.procs[r]); }
    }
  }

  lemma MoveKeepsInv(w0: World, w: World, p: nat, c: Choice)
    requires Inv(w0, w) && p < |w.procs|
    ensures Inv(w0, Step(w, Move(p, c)))
  {
    InvReady(w0, w, p);
    CallKeeps(w, p, c);
    KeepsInv(w0, w, p, Call(w.env, w.fs, p, w.procs[p], c));
  }

  lemma CrashKeepsInv(w0: World, w: World, p: nat)
    requires Inv(w0, w) && p < |w.procs|
    ensures Inv(w0, Step(w, Crash(p)))
  {
    assert ProcFit(w.env, w.fs, p, w.procs[p]);
    KeepsInv(w0, w, p, Effect(CloseAll(w.fs, p), w.procs[p].(pc := Dead)));
  }

  // The machine writing something back on its own.
  lemma FlushKeepsInv(w0: World, w: World, fs': Fs)
    requires Inv(w0, w)
    requires Tolerable(w.fs, fs', |w.procs|) && WellFormed(fs')
    requires fs'.vol == w.fs.vol && |fs'.inodes| == |w.fs.inodes| && fs'.handles == w.fs.handles
    requires Pin in fs'.dur ==> PinIs(fs', fs'.dur[Pin])
    ensures Inv(w0, w.(fs := fs'))
  {
    var w' := w.(fs := fs');
    forall i | 0 <= i < |fs'.inodes| ensures InodeFit(w', i) && fs'.inodes[i].creator != Some(|w.procs|) {
      assert InodeFit(w, i);
    }
    forall r | 0 <= r < |w.procs| ensures ProcFit(w'.env, fs', r, w'.procs[r]) {
      Stable(w.env, w.fs, fs', |w.procs|, r, w.procs[r]);
    }
  }

  lemma LosePowerKeepsFiles(w0: World, w: World)
    requires Inv(w0, w)
    ensures var w' := Step(w, LosePower);
            && PinsFit(w0, w') && WellFormed(w'.fs)
            && forall i | 0 <= i < |w'.fs.inodes| :: InodeFit(w', i)
  {
    var w' := Step(w, LosePower);
    forall i | 0 <= i < |w'.fs.inodes| ensures InodeFit(w', i) {
      assert InodeFit(w, i);
    }
  }

  lemma LosePowerKeepsProc(e: Env, fs: Fs, p: nat, q: Proc)
    requires ProcFit(e, fs, p, q)
    ensures ProcFit(e, PowerLoss(fs), p, Kill(q))
  {
  }

  lemma LosePowerKeepsInv(w0: World, w: World)
    requires Inv(w0, w)
    ensures Inv(w0, Step(w, LosePower))
  {
    var w' := Step(w, LosePower);
    LosePowerKeepsFiles(w0, w);
    forall r | 0 <= r < |w'.procs| ensures ProcFit(w'.env, w'.fs, r, w'.procs[r]) {
      LosePowerKeepsProc(w.env, w.fs, r, w.procs[r]);
    }
  }

  lemma FileFlushKeepsInv(w0: World, w: World, i: nat, file: File)
    requires Inv(w0, w)
    ensures Inv(w0, Step(w, Action.FlushInode(i, file)))
  {
    FlushKeepsInv(w0, w, PinFs.FlushInode(w.fs, i, file));
  }

  lemma EntryFlushKeepsInv(w0: World, w: World, n: Name)
    requires Inv(w0, w)
    ensures Inv(w0, Step(w, Action.FlushEntry(n)))
  {
    FlushKeepsInv(w0, w, PinFs.FlushEntry(w.fs, n));
  }

  lemma StepKeepsInv(w0: World, w: World, a: Action)
    requires Inv(w0, w)
    ensures Inv(w0, Step(w, a))
  {
    match a
    case Move(p, c) => if p < |w.procs| { MoveKeepsInv(w0, w, p, c); }
    case Crash(p) => if p < |w.procs| { CrashKeepsInv(w0, w, p); }
    case LosePower => LosePowerKeepsInv(w0, w);
    case FlushInode(i, file) => FileFlushKeepsInv(w0, w, i, file);
    case FlushEntry(n) => EntryFlushKeepsInv(w0, w, n);
    case FlushParent => FlushKeepsInv(w0, w, PinFs.FlushParent(w.fs));
  }

  lemma InitInv(w0: World)
    requires Init(w0)
    ensures Inv(w0, w0)
  {
  }

  lemma {:induction false} RunKeepsInv(w0: World, acts: seq<Action>)
    requires Init(w0)
    ensures Inv(w0, Run(w0, acts))
  {
    if acts == [] {
      InitInv(w0);
    } else {
      RunKeepsInv(w0, acts[..|acts| - 1]);
      StepKeepsInv(w0, Run(w0, acts[..|acts| - 1]), acts[|acts| - 1]);
    }
  }
}
