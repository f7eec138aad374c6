/**
 The program itself, statement by statement: `New`,
 `resolveTargetCertificate` and what they call, run by one process while the
 others and the machine do as they please between its system calls. What a
 call does is up to the kernel and the call's arguments; that the program makes
 the protocol's calls, in its order and with its arguments, is proved, and so
 what holds in every run of the protocol holds here.
 */
module PinHost {
  import opened Prelude
  import opened PinFs
  import opened PinProtocol
  import opened PinInvariant
  import opened PinKernel
  import opened PinSafety
  import opened PinAgreement
  import Fingerprint

  // What is not this process's own call, and leaves it running.
  predicate Foreign(a: Action, me: nat) {
    match a
    case Move(p, _) => p != me
    case Crash(p) => p != me
    case LosePower => false
    case _ => true
  }

  function With(w: World, p: nat, q: Proc): World
    requires p < |w.procs|
  {
    w.(procs := w.procs[p := q])
  }

  // The others neither see nor change this process's state.
  lemma ForeignStep(w: World, me: nat, q: Proc, a: Action)
    requires me < |w.procs| && Foreign(a, me)
    ensures Step(With(w, me, q), a) == With(Step(w, a), me, q)
  {
    match a
    case Move(p, c) =>
      if p < |w.procs| {
        var x := Call(w.env, w.fs, p, w.procs[p], c);
        assert w.procs[me := q][p := x.q] == w.procs[p := x.q][me := q];
      }
    case Crash(p) =>
      if p < |w.procs| {
        var dead := w.procs[p].(pc := Dead);
        assert w.procs[me := q][p := dead] == w.procs[p := dead][me := q];
      }
    case _ =>
  }

  // One process and its machine. `answers` and `others` fix, for each of its
  // system calls, the outcome and what happens just before; a statement about
  // every Host is a statement about every schedule. Where this process is in
  // the protocol is in `mine`, which is ghost: its entry in `machine` is not
  // kept up to date, and nothing depends on it.
  class Host {
    ghost const start: World
    const me: nat
    const answers: nat -> Choice
    const others: nat -> seq<Action>
    var machine: World
    var clock: nat
    ghost var mine: Proc
    ghost var log: seq<Action>

    ghost predicate Valid() reads this {
      && Init(start)
      && me < |start.procs| == |machine.procs|
      && With(machine, me, mine) == Run(start, log)
      && NoPowerLoss(log)
    }

    ghost function Now(): World
      requires Valid()
      reads this
    {
      With(machine, me, mine)
    }

    constructor (w: World, p: nat, a: nat -> Choice, o: nat -> seq<Action>)
      requires Init(w) && p < |w.procs|
      ensures Valid() && start == w && Now() == w && me == p && log == []
    {
      start, me, answers, others := w, p, a, o;
      machine, clock, mine, log := w, 0, w.procs[p], [];
      assert w.procs[p := w.procs[p]] == w.procs;
    }

    // The others move.
    method Wait()
      requires Valid()
      modifies `machine, `log
      ensures Valid() && machine.env == old(machine.env) && old(log) <= log
    {
      var acts := others(clock);
      for i := 0 to |acts|
        invariant Valid() && machine.env == old(machine.env) && old(log) <= log
      {
        if Foreign(acts[i], me) {
          assert (log + [acts[i]])[..|log|] == log;
          ForeignStep(machine, me, mine, acts[i]);
          machine := Step(machine, acts[i]);
          log := log + [acts[i]];
        }
      }
    }

    // One system call of this process, which has to be the one the protocol
    // makes now. `met` is the world that the call meets, `c` how it goes.
    method Make(s: SysCall) returns (a: Answer, ghost c: Choice, ghost met: World)
      requires Valid() && Issues(machine.env, mine, s)
      modifies this
      ensures Valid() && old(log) <= log
      ensures me < |met.procs| && met.procs[me] == old(mine) && Inv(start, met)
      ensures met.env == machine.env == old(machine.env)
      ensures a == Kernel(met.fs, me, s, c) && machine.fs == a.fs
      ensures mine == Call(met.env, met.fs, me, old(mine), c).q
    {
      Wait();
      met, c := Now(), answers(clock);
      RunKeepsInv(start, log);
      assert ProcFit(met.env, met.fs, me, met.procs[me]);
      KernelIsProtocol(met.env, met.fs, me, mine, s, c);
      a := Kernel(machine.fs, me, s, answers(clock));
      ghost var x := Call(met.env, met.fs, me, mine, c);
      assert met.procs[me := x.q] == machine.procs[me := x.q];
      assert (log + [Move(me, c)])[..|log|] == log;
      machine := machine.(fs := a.fs);
      mine := x.q;
      log := log + [Move(me, c)];
      clock := clock + 1;
    }
  }

  // Nothing but this process's own progress is promised about the rest.
  twostate predicate Went(h: Host)
    reads h
  {
    h.Valid() && old(h.Valid()) && old(h.log) <= h.log && h.machine.env == old(h.machine.env)
  }

  // --- loading ---

  // os.ReadFile: the open, then the read and the close.
  method OpenFile(h: Host, ghost again: bool) returns (e: Errno, ino: nat)
    requires h.Valid() && h.mine.pc == OpenPin(again)
    modifies h
    ensures Went(h)
    ensures match e
            case Fine => h.mine.pc == PC.ReadPin(again) && h.mine.fd == ino
            case Missing =>
              if again then h.mine.pc.Stopped? && h.mine.res == Some(Failed(Error.ReadPin))
              else h.mine.pc.Fetch?
            case _ => h.mine.pc.Stopped? && h.mine.res == Some(Failed(Error.ReadPin))
  {
    var a, c, met := h.Make(OpenRead(Pin));
    return a.errno, if a.value.Ino? then a.value.ino else 0;
  }

  method ReadFile(h: Host, ino: nat, ghost again: bool) returns (ok: bool, data: seq<byte>)
    requires h.Valid() && h.mine.pc == PC.ReadPin(again) && ino == h.mine.fd
    modifies h
    ensures Went(h)
    ensures !ok ==> h.mine.pc.Stopped? && h.mine.res == Some(Failed(Error.ReadPin))
    ensures ok ==> match h.machine.env.pki.parse(data)
                   case None => h.mine.pc.Stopped? && h.mine.res == Some(Failed(ParsePin))
                   case Some(cert) =>
                     && h.mine.pc.ConnectPrimary?
                     && h.mine.res == Some(Resolved(data, Trust(h.machine.env.path, PrintOf(h.machine.env.pki, cert), false)))
  {
    var a, c, met := h.Make(ReadAndClose(ino));
    if a.value.Data? { return true, a.value.data; }
    return false, [];
  }

  datatype Loaded = Loaded(pem: seq<byte>, trust: Trust) | NoFile | NotLoaded(error: Error)

  // loadTargetCertificate
  method LoadTargetCertificate(h: Host, path: string, ghost again: bool) returns (r: Loaded)
    requires h.Valid() && h.mine.pc == OpenPin(again) && path == h.machine.env.path
    modifies h
    ensures Went(h)
    ensures match r
            case Loaded(pem, t) => h.mine.pc.ConnectPrimary? && h.mine.res == Some(Resolved(pem, t))
            case NotLoaded(error) => h.mine.pc.Stopped? && h.mine.res == Some(Failed(error))
            case NoFile =>
              if again then h.mine.pc.Stopped? && h.mine.res == Some(Failed(Error.ReadPin))
              else h.mine.pc.Fetch?
    ensures r.NotLoaded? ==> r.error == Error.ReadPin || r.error == ParsePin
  {
    var e, ino := OpenFile(h, again);
    if e.Missing? { return NoFile; }
    if !e.Fine? { return NotLoaded(Error.ReadPin); }
    var ok, data := ReadFile(h, ino, again);
    if !ok { return NotLoaded(Error.ReadPin); }
    var cert := h.machine.env.pki.parse(data);
    if cert.None? { return NotLoaded(ParsePin); }
    var fingerprint := Fingerprint.CertificateFingerprint(h.machine.env.pki.sha256(cert.value.raw));
    return Loaded(data, Trust(path, fingerprint, false));
  }

  // fetchTargetCertificate: the leaf the target presents.
  method FetchTargetCertificate(h: Host) returns (pem: seq<byte>, fingerprint: string, ok: bool)
    requires h.Valid() && h.mine.pc.Fetch?
    modifies h
    ensures Went(h)
    ensures !ok ==> h.mine.pc.Stopped? && h.mine.res == Some(Failed(FetchTarget))
    ensures ok ==>
      && h.mine.pc.Mkdir? && h.mine.cand.Some?
      && pem == h.machine.env.pki.encode(h.mine.cand.value)
      && fingerprint == PrintOf(h.machine.env.pki, h.mine.cand.value)
  {
    var a, c, met := h.Make(Dial);
    if !a.value.Leaf? { return [], "", false; }
    var leaf := a.value.cert;
    pem := h.machine.env.pki.encode(leaf);
    fingerprint := Fingerprint.CertificateFingerprint(h.machine.env.pki.sha256(leaf.raw));
    ok := true;
  }

  // --- publishing ---

  // Calls that only fail or go on, and where each leaves the program.
  predicate Plain(pc: PC) {
    || pc.Mkdir? || pc.Chmod? || pc.Write? || pc.SyncTemp? || pc.CloseTemp?
    || pc.AbortTemp? || pc.OpenDir? || pc.SyncDir? || pc.CloseDir?
  }

  function Onward(pc: PC, ok: bool): PC
    requires Plain(pc)
  {
    match pc
    case Mkdir => if ok then PC.CreateTemp else Stopped
    case Chmod => if ok then PC.Write else AbortTemp
    case Write => if ok then SyncTemp else AbortTemp
    case SyncTemp => if ok then CloseTemp else AbortTemp
    case CloseTemp => if ok then PC.Link else RemoveTemp(Broken)
    case AbortTemp => RemoveTemp(Broken)
    case OpenDir => if ok then PC.SyncDir else RemoveTemp(Broken)
    case SyncDir => CloseDir(if ok then Created else Broken)
    case CloseDir(out) => RemoveTemp(out)
  }

  predicate WentOn(q: Proc, q': Proc, ok: bool)
    requires Plain(q.pc)
  {
    q' == q.(pc := Onward(q.pc, ok), res := if q.pc.Mkdir? && !ok then Some(Failed(Publish)) else q.res)
  }

  lemma MakingCall(e: Env, fs: Fs, p: nat, q: Proc, s: SysCall, c: Choice)
    requires ProcFit(e, fs, p, q) && Plain(q.pc) && StageOf(q.pc).Preparing? && Issues(e, q, s)
    ensures WentOn(q, TempCall(e, fs, p, q, c).q, Kernel(fs, p, s, c).errno.Fine?)
  {
  }

  lemma SyncingCall(e: Env, fs: Fs, p: nat, q: Proc, s: SysCall, c: Choice)
    requires Plain(q.pc) && StageOf(q.pc).Publishing? && Issues(e, q, s)
    ensures WentOn(q, PublishCall(e, fs, p, q, c).q, Kernel(fs, p, s, c).errno.Fine?)
  {
  }

  method Try(h: Host, s: SysCall) returns (ok: bool)
    requires h.Valid() && Plain(h.mine.pc) && Issues(h.machine.env, h.mine, s)
    modifies h
    ensures Went(h) && WentOn(old(h.mine), h.mine, ok)
  {
    ghost var q := h.mine;
    var a, c, met := h.Make(s);
    assert ProcFit(met.env, met.fs, h.me, q);
    if StageOf(q.pc).Preparing? {
      MakingCall(met.env, met.fs, h.me, q, s, c);
    } else {
      SyncingCall(met.env, met.fs, h.me, q, s, c);
    }
    ok := a.errno.Fine?;
  }

  // os.CreateTemp
  method CreateTempFile(h: Host) returns (tmp: Option<TempFile>)
    requires h.Valid() && h.mine.pc.CreateTemp?
    modifies h
    ensures Went(h)
    ensures h.mine == if tmp.Some? then old(h.mine).(pc := PC.Chmod, temp := tmp)
                      else old(h.mine).(pc := Stopped, res := Some(Failed(Publish)))
  {
    var a, c, met := h.Make(MakeTemp);
    tmp := if a.value.Temporary? then Some(a.value.file) else None;
  }

  // publishTargetCertificate. Its deferred calls are written out: the
  // directory handle is closed before the temporary name is removed.
  method PublishTargetCertificate(h: Host, data: seq<byte>) returns (created: bool, ok: bool)
    requires h.Valid() && h.mine.pc.Mkdir? && h.mine.cand.Some?
    requires data == h.machine.env.pki.encode(h.mine.cand.value)
    modifies h
    ensures Went(h)
    ensures !ok ==> h.mine.pc.Stopped? && h.mine.res == Some(Failed(Publish))
    ensures ok && !created ==> h.mine.pc == OpenPin(true)
    ensures ok && created ==>
      && h.mine.pc.ConnectPrimary? && h.mine.cand == old(h.mine.cand)
      && h.mine.res == Some(Resolved(data, Trust(h.machine.env.path, PrintOf(h.machine.env.pki, h.mine.cand.value), true)))
  {
    var made := Try(h, MakeDirectory);                     // os.MkdirAll
    if !made { return false, false; }
    var tmp := CreateTempFile(h);                          // os.CreateTemp
    if tmp.None? { return false, false; }
    var out := Broken;
    var ready := PrepareTemp(h, tmp.value, data);
    if ready { out := LinkTemp(h, tmp.value); }
    RemoveAndReturn(h, tmp.value, out);                    // os.Remove
    return out.Created?, !out.Broken?;
  }

  // The deferred removal, and the return to resolveTargetCertificate.
  method RemoveAndReturn(h: Host, tmp: TempFile, ghost out: Outcome)
    requires h.Valid() && h.mine.pc == RemoveTemp(out) && h.mine.cand.Some? && h.mine.temp == Some(tmp)
    modifies h
    ensures Went(h) && h.mine.cand == old(h.mine.cand)
    ensures match out
            case Broken => h.mine.pc.Stopped? && h.mine.res == Some(Failed(Publish))
            case Lost => h.mine.pc == OpenPin(true)
            case Created =>
              && h.mine.pc.ConnectPrimary?
              && var cert := h.mine.cand.value;
                 h.mine.res == Some(Resolved(h.machine.env.pki.encode(cert), Trust(h.machine.env.path, PrintOf(h.machine.env.pki, cert), true)))
  {
    var a, c, met := h.Make(Remove(Temp(tmp.id)));
  }

  // The calls between os.CreateTemp and os.Link.
  method PrepareTemp(h: Host, tmp: TempFile, data: seq<byte>) returns (ready: bool)
    requires h.Valid() && h.mine.pc.Chmod? && h.mine.temp == Some(tmp)
    requires h.mine.cand.Some? && data == h.machine.env.pki.encode(h.mine.cand.value)
    modifies h
    ensures Went(h)
    ensures h.mine == old(h.mine).(pc := if ready then PC.Link else RemoveTemp(Broken))
  {
    var ok := Try(h, SysCall.Chmod(tmp, PIN_MODE));        // tmp.Chmod
    if ok { ok := Try(h, SysCall.Write(tmp, data)); }      // tmp.Write
    if ok { ok := Try(h, Fsync(tmp)); }                    // tmp.Sync
    if !ok {
      ok := Try(h, Close(TmpFd));                          // closeWithError
      return false;
    }
    ready := Try(h, Close(TmpFd));                         // tmp.Close
  }

  // os.Link and, if it made the pin, the directory sync.
  method LinkTemp(h: Host, tmp: TempFile) returns (out: Outcome)
    requires h.Valid() && h.mine.pc.Link? && h.mine.temp == Some(tmp)
    modifies h
    ensures Went(h)
    ensures h.mine == old(h.mine).(pc := RemoveTemp(out))
  {
    var e := LinkName(h, tmp);                             // os.Link
    if e.Exists? { return Lost; }
    if !e.Fine? { return Broken; }
    var ok := Try(h, OpenDirectory);                       // os.Open(dir)
    if !ok { return Broken; }
    ok := Try(h, FsyncDirectory);                          // dirHandle.Sync
    out := if ok then Created else Broken;
    ok := Try(h, Close(DirFd));                            // dirHandle.Close
  }

  method LinkName(h: Host, tmp: TempFile) returns (e: Errno)
    requires h.Valid() && h.mine.pc.Link? && h.mine.temp == Some(tmp)
    modifies h
    ensures Went(h)
    ensures h.mine == old(h.mine).(pc := match e
                                         case Fine => OpenDir
                                         case Exists => RemoveTemp(Lost)
                                         case _ => RemoveTemp(Broken))
  {
    var a, c, met := h.Make(SysCall.Link(Temp(tmp.id), Pin));
    e := a.errno;
  }

  // --- resolving ---

  // resolveTargetCertificate
  method ResolveTargetCertificate(h: Host, url: Url, certPath: string) returns (r: Resolved)
    requires h.Valid() && h.mine.pc.Start? && url == h.mine.url && certPath == h.machine.env.path
    modifies h
    ensures Went(h)
    ensures h.mine.res == Some(r) && h.mine.pc == if r.Resolved? then ConnectPrimary else Stopped
    ensures SameInput(old(h.mine), h.mine)
    // An https target is resolved only with a pin that holds what is returned,
    // and a first use is on disk if the directory was on disk at the start.
    ensures r.Resolved? && UsesTls(h.mine) ==> PinHolds(h.machine.fs, r.pem) && r.trust.path == certPath
    ensures r.Resolved? && r.trust.firstUse && h.start.fs.dirDurable ==> PinDurablyHolds(h.machine.fs, r.pem)
    // The fingerprint is that of the certificate in the PEM.
    ensures r.Resolved? && url.Url? && url.scheme == "https" && RoundTrips(h.machine.env.pki) ==>
      && h.machine.env.pki.parse(r.pem).Some?
      && r.trust.fingerprint == Fingerprint.Format(h.machine.env.pki.sha256(h.machine.env.pki.parse(r.pem).value.raw))
    // A target that is not https is resolved, with no certificate and no trust.
    ensures url.Url? && url.scheme != "https" ==> r == Resolved([], Trust("", "", false))
    // Which URLs and paths are refused, and how.
    ensures r == Failed(BadUrl) <==> url.Unparsable?
    ensures r == Failed(NoHostname) <==> url.Url? && url.scheme == "https" && url.hostname == ""
    ensures r == Failed(NoPath) <==> url.Url? && url.scheme == "https" && url.hostname != "" && certPath == ""
  {
    StartsAsItself(h.start, h.log, h.me);
    r := Resolving(h, url, certPath);
    StartsAsItself(h.start, h.log, h.me);
    if r.Resolved? { ResolvedMeans(h.start, h.log, h.me); }
  }

  lemma StartsAsItself(w0: World, acts: seq<Action>, p: nat)
    requires Init(w0) && p < |w0.procs|
    ensures SameInput(w0.procs[p], Run(w0, acts).procs[p])
  {
    RunKeepsInv(w0, acts);
  }

  // What a resolution is worth while the machine has power.
  lemma ResolvedMeans(w0: World, acts: seq<Action>, p: nat)
    requires Init(w0) && NoPowerLoss(acts) && p < |w0.procs|
    requires var q := Run(w0, acts).procs[p]; q.res.Some? && q.res.value.Resolved?
    ensures var w := Run(w0, acts);
            var q := w.procs[p];
            var Resolved(pem, t) := q.res.value;
            && (UsesTls(q) ==> PinHolds(w.fs, pem) && t.path == w.env.path)
            && (t.firstUse && w0.fs.dirDurable ==> PinDurablyHolds(w.fs, pem))
            && (!UsesTls(q) ==> q.res.value == Resolved([], Trust("", "", false)))
            && (UsesTls(q) && RoundTrips(w.env.pki) ==>
                 && w.env.pki.parse(pem).Some?
                 && t.fingerprint == Fingerprint.Format(w.env.pki.sha256(w.env.pki.parse(pem).value.raw)))
  {
    RunKeepsAllHoldPin(w0, acts);
    var w := Run(w0, acts);
    assert ProcFit(w.env, w.fs, p, w.procs[p]);
    if w.procs[p].res.value.trust.firstUse && w0.fs.dirDurable { FirstUseIsOnDisk(w0, acts, p); }
  }

  lemma FirstUseIsOnDisk(w0: World, acts: seq<Action>, p: nat)
    requires Init(w0) && w0.fs.dirDurable && p < |w0.procs| && FirstUse(Run(w0, acts).procs[p])
    ensures var w := Run(w0, acts); PinDurablyHolds(w.fs, PemOf(w.procs[p]))
  {
    RunKeepsFirstUses(w0, acts);
    var w := Run(w0, acts);
    assert ProcFit(w.env, w.fs, p, w.procs[p]);
  }

  method Resolving(h: Host, url: Url, certPath: string) returns (r: Resolved)
    requires h.Valid() && h.mine.pc.Start? && url == h.mine.url && certPath == h.machine.env.path
    modifies h
    ensures Went(h)
    ensures h.mine.res == Some(r) && h.mine.pc == if r.Resolved? then ConnectPrimary else Stopped
    ensures url.Url? && url.scheme != "https" ==> r == Resolved([], Trust("", "", false))
    ensures r == Failed(BadUrl) <==> url.Unparsable?
    ensures r == Failed(NoHostname) <==> url.Url? && url.scheme == "https" && url.hostname == ""
    ensures r == Failed(NoPath) <==> url.Url? && url.scheme == "https" && url.hostname != "" && certPath == ""
  {
    var a, c, met := h.Make(NoCall);
    if url.Unparsable? { return Failed(BadUrl); }
    if url.scheme != "https" { return Resolved([], Trust("", "", false)); }
    if url.hostname == "" { return Failed(NoHostname); }
    if certPath == "" { return Failed(NoPath); }
    r := ResolvingTls(h, certPath);
  }

  method ResolvingTls(h: Host, certPath: string) returns (r: Resolved)
    requires h.Valid() && h.mine.pc == OpenPin(false) && certPath == h.machine.env.path
    modifies h
    ensures Went(h)
    ensures h.mine.res == Some(r) && h.mine.pc == if r.Resolved? then ConnectPrimary else Stopped
    ensures r.Failed? ==> r.error in {Error.ReadPin, ParsePin, FetchTarget, Publish}
  {
    var loaded := LoadTargetCertificate(h, certPath, false);
    if loaded.Loaded? { return Resolved(loaded.pem, loaded.trust); }
    if loaded.NotLoaded? { return Failed(loaded.error); }
    var pem, fingerprint, fetched := FetchTargetCertificate(h);
    if !fetched { return Failed(FetchTarget); }
    var created, ok := PublishTargetCertificate(h, pem);
    if !ok { return Failed(Publish); }
    if created { return Resolved(pem, Trust(certPath, fingerprint, true)); }
    loaded := LoadTargetCertificate(h, certPath, true);
    match loaded
    case Loaded(p, t) => return Resolved(p, t);
    case NotLoaded(error) => return Failed(error);
    case NoFile => return Failed(Error.ReadPin);
  }

  // --- connecting ---

  datatype Client = Client(server: Connection, admin: Option<Connection>, trust: Trust)

  // One connection later.
  predicate Connected(q: Proc, q': Proc, conn: Connection, ok: bool) {
    && q'.res == q.res && SameInput(q, q')
    && q'.pc == (if !ok then Stopped else if conn.role.Primary? && q.admin then ConnectAdmin else Up)
    && (ok ==> q'.conns == q.conns + [conn])
  }

  lemma ConnectingCall(e: Env, fs: Fs, p: nat, q: Proc, role: Role, c: Choice)
    requires q.pc == if role.Primary? then ConnectPrimary else ConnectAdmin
    requires q.res.Some? && q.res.value.Resolved?
    ensures Connected(q, Call(e, fs, p, q, c).q, Connection(role, q.res.value.pem), c.ok)
  {
  }

  lemma IssuesConnect(e: Env, q: Proc, role: Role)
    requires q.pc == if role.Primary? then ConnectPrimary else ConnectAdmin
    requires q.res.Some? && q.res.value.Resolved?
    ensures Issues(e, q, SysCall.Connect(role, q.res.value.pem))
  {
  }

  // connect, with one credential.
  method ConnectWith(h: Host, role: Role, pem: seq<byte>) returns (conn: Option<Connection>)
    requires h.Valid() && h.mine.pc == if role.Primary? then ConnectPrimary else ConnectAdmin
    requires h.mine.res.Some? && h.mine.res.value.Resolved? && h.mine.res.value.pem == pem
    modifies h
    ensures Went(h) && Connected(old(h.mine), h.mine, Connection(role, pem), conn.Some?)
    ensures conn.Some? ==> conn.value == Connection(role, pem)
  {
    ghost var q := h.mine;
    IssuesConnect(h.machine.env, q, role);
    var a, c, met := h.Make(SysCall.Connect(role, pem));
    ConnectingCall(met.env, met.fs, h.me, q, role, c);
    conn := if a.errno.Fine? then Some(Connection(role, pem)) else None;
  }

  // The second half of New.
  method ConnectBoth(h: Host, pem: seq<byte>, trust: Trust, admin: bool) returns (client: Option<Client>)
    requires h.Valid() && h.mine.pc.ConnectPrimary? && admin == h.mine.admin
    requires h.mine.res == Some(Resolved(pem, trust))
    modifies h
    ensures Went(h) && h.mine.res == old(h.mine.res) && SameInput(old(h.mine), h.mine)
    ensures h.mine.pc == if client.Some? then Up else Stopped
    ensures client.Some? ==>
      client.value == Client(
        Connection(Role.Primary, pem), if admin then Some(Connection(Role.Admin, pem)) else None, trust)
  {
    var server := ConnectWith(h, Role.Primary, pem);
    if server.None? { return None; }
    var second := None;
    if admin {
      second := ConnectWith(h, Role.Admin, pem);
      if second.None? { return None; }
    }
    client := Some(Client(server.value, second, trust));
  }

  // New. `admin`: an admin credential with a certificate path is configured.
  method New(h: Host, url: Url, certPath: string, admin: bool) returns (client: Option<Client>)
    requires h.Valid() && h.mine.pc.Start?
    requires url == h.mine.url && certPath == h.machine.env.path && admin == h.mine.admin
    modifies h
    ensures Went(h)
    ensures h.mine.pc == if client.Some? then Up else Stopped
    // Both identities are bound to one pin, and an admin client is there
    // exactly when it is configured.
    ensures client.Some? ==>
      && client.value.server.role.Primary?
      && client.value.admin.Some? == admin
      && (admin ==> client.value.admin.value == Connection(Role.Admin, client.value.server.pem))
      && (UsesTls(h.mine) ==> PinHolds(h.machine.fs, client.value.server.pem))
      && h.mine.res == Some(Resolved(client.value.server.pem, client.value.trust))
    ensures h.mine.res.Some? && (h.mine.res.value.Failed? ==> client.None? && h.mine.conns == [])
    // A target that is not https needs no pin, and a client for it has none.
    ensures url.Url? && url.scheme != "https" ==>
      && h.mine.res == Some(Resolved([], Trust("", "", false)))
      && (client.Some? ==> client.value.server == Connection(Role.Primary, []))
  {
    var r := ResolveTargetCertificate(h, url, certPath);
    match r
    case Failed(_) =>
      FailureConnectsNothing(h.start, h.log, h.me);
      return None;
    case Resolved(pem, trust) =>
      client := ConnectBoth(h, pem, trust, admin);
      ResolvedMeans(h.start, h.log, h.me);
  }
}
