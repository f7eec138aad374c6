/**
 Trust on first use as a step system: any number of processes run `New`
 against one pin path. A step is one system call of one process, or something
 the machine does. Every choice (which process moves, whether its call fails,
 which certificate the target presents, how much of a write lands, when the
 machine loses power) is in the action, so a run is a sequence of actions and
 a statement about every sequence is a statement about every interleaving.
 */
module PinProtocol {
  import opened Prelude
  import opened PinFs
  import Fingerprint

  // A parsed x509 certificate is its DER bytes.
  datatype Cert = Cert(raw: seq<byte>)

  // PEM, x509 and SHA-256 as this program uses them. `parse` is PEM decoding
  // followed by x509 parsing.
  datatype Pki = Pki(
    parse: seq<byte> -> Option<Cert>,
    encode: Cert -> seq<byte>,
    sha256: seq<byte> -> Fingerprint.Digest)

  function PrintOf(pki: Pki, c: Cert): string {
    Fingerprint.Format(pki.sha256(c.raw))
  }

  // RFC 7468 section 5: an encoded certificate parses back.
  ghost predicate RoundTrips(pki: Pki) {
    forall c :: pki.parse(pki.encode(c)) == Some(c)
  }

  datatype Url = Unparsable | Url(scheme: string, hostname: string)

  datatype Error =
    | BadUrl | NoHostname | NoPath | ReadPin | ParsePin | FetchTarget | Publish

  datatype Trust = Trust(path: string, fingerprint: string, firstUse: bool)

  datatype Resolved = Resolved(pem: seq<byte>, trust: Trust) | Failed(error: Error)

  datatype Role = Primary | Admin

  datatype Connection = Connection(role: Role, pem: seq<byte>)

  // What publishTargetCertificate is about to return: (true, nil),
  // (false, nil), or an error.
  datatype Outcome = Created | Lost | Broken

  datatype PC =
    | Start
    | OpenPin(again: bool)   // `again`: the reload after losing the race
    | ReadPin(again: bool)
    | Fetch
    | Mkdir | CreateTemp | Chmod | Write | SyncTemp | CloseTemp | AbortTemp
    | Link | OpenDir | SyncDir
    | CloseDir(out: Outcome)
    | RemoveTemp(out: Outcome)
    | ConnectPrimary | ConnectAdmin
    | Up        // New returned a client
    | Stopped   // New returned an error
    | Dead      // crashed

  datatype TempFile = TempFile(id: nat, ino: nat)

  // `cand`, `temp`, `res` and `conns` are never unset: they are also the
  // process's history.
  datatype Proc = Proc(
    url: Url,
    admin: bool,             // an admin credential with a certificate path
    pc: PC,
    fd: nat,                 // the inode open for reading at ReadPin
    cand: Option<Cert>,
    temp: Option<TempFile>,
    res: Option<Resolved>,
    conns: seq<Connection>)

  // What never changes: the libraries and the pin path.
  datatype Env = Env(pki: Pki, path: string)

  datatype World = World(env: Env, fs: Fs, procs: seq<Proc>)

  // What one call leaves behind: the file system and the caller.
  datatype Effect = Effect(fs: Fs, q: Proc)

  // The environment's answers to one system call. `ok`: it succeeds.
  datatype Choice = Choice(ok: bool, cert: Cert, id: nat, cut: nat, dialed: bool)

  datatype Action =
    | Move(p: nat, c: Choice)
    | Crash(p: nat)
    | LosePower
    | FlushInode(i: nat, file: File)
    | FlushEntry(n: Name)
    | FlushParent

  predicate UsesTls(q: Proc) {
    q.url.Url? && q.url.scheme == "https"
  }

  // resolveTargetCertificate, up to the first look at the pin file.
  function Begin(e: Env, q: Proc): Proc {
    if q.url.Unparsable? then Stop(q, BadUrl)
    else if q.url.scheme != "https" then Resolve(q, [], Trust("", "", false))
    else if q.url.hostname == "" then Stop(q, NoHostname)
    else if e.path == "" then Stop(q, NoPath)
    else q.(pc := OpenPin(false))
  }

  function Stop(q: Proc, e: Error): Proc {
    q.(pc := Stopped, res := Some(Failed(e)))
  }

  function Resolve(q: Proc, pem: seq<byte>, t: Trust): Proc {
    q.(pc := ConnectPrimary, res := Some(Resolved(pem, t)))
  }

  // loadTargetCertificate after the open: read, parse, fingerprint.
  function Load(e: Env, fs: Fs, q: Proc, ok: bool): Proc {
    if !ok || q.fd >= |fs.inodes| then Stop(q, Error.ReadPin)
    else
      var data := fs.inodes[q.fd].vol.data;
      match e.pki.parse(data)
      case None => Stop(q, ParsePin)
      case Some(c) => Resolve(q, data, Trust(e.path, PrintOf(e.pki, c), false))
  }

  // The end of publishTargetCertificate and what its caller does next.
  function AfterPublish(e: Env, q: Proc, out: Outcome): Proc {
    match out
    case Broken => Stop(q, Publish)
    case Lost => q.(pc := OpenPin(true))
    case Created =>
      if q.cand.None? then Stop(q, Publish)
      else Resolve(q, e.pki.encode(q.cand.value), Trust(e.path, PrintOf(e.pki, q.cand.value), true))
  }

  predicate HasTemp(fs: Fs, q: Proc) {
    q.temp.Some? && q.cand.Some? && q.temp.value.ino < |fs.inodes|
  }

  // resolveTargetCertificate and loadTargetCertificate.
  function LoadCall(e: Env, fs: Fs, p: nat, q: Proc, c: Choice): Effect {
    match q.pc
    case Start => Effect(fs, Begin(e, q))
    case OpenPin(again) =>
      if !c.ok then Effect(fs, Stop(q, Error.ReadPin))
      else if Pin in fs.vol then
        Effect(OpenHandle(fs, Handle(p, PinFd)), q.(pc := PC.ReadPin(again), fd := fs.vol[Pin]))
      else if again then Effect(fs, Stop(q, Error.ReadPin))
      else Effect(fs, q.(pc := Fetch))
    case ReadPin(_) => Effect(CloseHandle(fs, Handle(p, PinFd)), Load(e, fs, q, c.ok))
    case Fetch =>
      if c.ok then Effect(fs, q.(pc := Mkdir, cand := Some(c.cert)))
      else Effect(fs, Stop(q, FetchTarget))
    case _ => Effect(fs, q)
  }

  // publishTargetCertificate, while the temporary file is being made.
  function TempCall(e: Env, fs: Fs, p: nat, q: Proc, c: Choice): Effect {
    match q.pc
    case Mkdir =>
      if c.ok then Effect(MkdirAll(fs), q.(pc := PC.CreateTemp))
      else Effect(fs, Stop(q, Publish))
    case CreateTemp =>
      // os.CreateTemp creates exclusively: an id in use is not a success.
      if c.ok && fs.dirExists && Temp(c.id) !in fs.vol then
        Effect(PinFs.CreateTemp(fs, p, c.id),
               q.(pc := Chmod, temp := Some(TempFile(c.id, |fs.inodes|))))
      else Effect(fs, Stop(q, Publish))
    case Chmod =>
      if c.ok && HasTemp(fs, q) then
        var i := q.temp.value.ino;
        Effect(Edit(fs, i, fs.inodes[i].vol.(mode := PIN_MODE)), q.(pc := Write))
      else Effect(fs, q.(pc := AbortTemp))
    case Write =>
      if !HasTemp(fs, q) then Effect(fs, q.(pc := AbortTemp))
      else
        var i := q.temp.value.ino;
        var data := e.pki.encode(q.cand.value);
        var landed := if c.ok || c.cut > |data| then data else data[..c.cut];
        Effect(Edit(fs, i, fs.inodes[i].vol.(data := landed)),
               q.(pc := if c.ok then SyncTemp else AbortTemp))
    case SyncTemp =>
      if c.ok && HasTemp(fs, q) then
        Effect(SyncFile(fs, q.temp.value.ino), q.(pc := CloseTemp))
      else Effect(fs, q.(pc := AbortTemp))
    case CloseTemp =>
      Effect(CloseHandle(fs, Handle(p, TmpFd)),
             q.(pc := if c.ok then Link else RemoveTemp(Broken)))
    case AbortTemp =>
      Effect(CloseHandle(fs, Handle(p, TmpFd)), q.(pc := RemoveTemp(Broken)))
    case _ => Effect(fs, q)
  }

  // publishTargetCertificate, from the hard link to the deferred removal.
  function PublishCall(e: Env, fs: Fs, p: nat, q: Proc, c: Choice): Effect {
    match q.pc
    case Link =>
      if !c.ok || q.temp.None? || Temp(q.temp.value.id) !in fs.vol then
        Effect(fs, q.(pc := RemoveTemp(Broken)))
      else if Pin in fs.vol then Effect(fs, q.(pc := RemoveTemp(Lost)))
      else Effect(LinkPin(fs, fs.vol[Temp(q.temp.value.id)]), q.(pc := OpenDir))
    case OpenDir =>
      if c.ok then Effect(OpenHandle(fs, Handle(p, DirFd)), q.(pc := PC.SyncDir))
      else Effect(fs, q.(pc := RemoveTemp(Broken)))
    case SyncDir =>
      if c.ok then Effect(PinFs.SyncDir(fs), q.(pc := CloseDir(Created)))
      else Effect(fs, q.(pc := CloseDir(Broken)))
    case CloseDir(out) =>
      Effect(CloseHandle(fs, Handle(p, DirFd)), q.(pc := RemoveTemp(out)))
    case RemoveTemp(out) =>
      Effect(if c.ok && q.temp.Some? then Unlink(fs, Temp(q.temp.value.id)) else fs,
             AfterPublish(e, q, out))
    case _ => Effect(fs, q)
  }

  // New, after the pin is resolved: `connect` with one credential. It may
  // fail before dialing, when it reads the client key pair.
  function ConnectAs(q: Proc, role: Role, c: Choice): Proc {
    if q.res.None? || q.res.value.Failed? then q.(pc := Stopped)
    else
      var q' := if c.ok || c.dialed then q.(conns := q.conns + [Connection(role, q.res.value.pem)]) else q;
      if !c.ok then q'.(pc := Stopped)
      else if role.Primary? && q.admin then q'.(pc := ConnectAdmin)
      else q'.(pc := Up)
  }

  function ConnectCall(e: Env, fs: Fs, p: nat, q: Proc, c: Choice): Effect {
    match q.pc
    case ConnectPrimary => Effect(fs, ConnectAs(q, Role.Primary, c))
    case ConnectAdmin => Effect(fs, ConnectAs(q, Role.Admin, c))
    case _ => Effect(fs, q)
  }

  datatype Stage = Loading | Preparing | Publishing | Connecting | Over

  function StageOf(pc: PC): Stage {
    match pc
    case Start => Loading
    case OpenPin(_) => Loading
    case ReadPin(_) => Loading
    case Fetch => Loading
    case Mkdir => Preparing
    case CreateTemp => Preparing
    case Chmod => Preparing
    case Write => Preparing
    case SyncTemp => Preparing
    case CloseTemp => Preparing
    case AbortTemp => Preparing
    case Link => Publishing
    case OpenDir => Publishing
    case SyncDir => Publishing
    case CloseDir(_) => Publishing
    case RemoveTemp(_) => Publishing
    case ConnectPrimary => Connecting
    case ConnectAdmin => Connecting
    case Up => Over
    case Stopped => Over
    case Dead => Over
  }

  // One call of process p.
  function Call(e: Env, fs: Fs, p: nat, q: Proc, c: Choice): Effect {
    match StageOf(q.pc)
    case Loading => LoadCall(e, fs, p, q, c)
    case Preparing => TempCall(e, fs, p, q, c)
    case Publishing => PublishCall(e, fs, p, q, c)
    case Connecting => ConnectCall(e, fs, p, q, c)
    case Over => Effect(fs, q)
  }

  function Apply(w: World, p: nat, x: Effect): World
    requires p < |w.procs|
  {
    w.(fs := x.fs, procs := w.procs[p := x.q])
  }

  function Kill(q: Proc): Proc {
    if q.pc.Start? then q else q.(pc := Dead)
  }

  function Step(w: World, a: Action): (w': World)
    ensures |w'.procs| == |w.procs| && w'.env == w.env
  {
    match a
    case Move(p, c) =>
      if p < |w.procs| then Apply(w, p, Call(w.env, w.fs, p, w.procs[p], c)) else w
    case Crash(p) =>
      if p < |w.procs| then Apply(w, p, Effect(CloseAll(w.fs, p), w.procs[p].(pc := Dead))) else w
    case LosePower =>
      // A process that has not started yet starts after the reboot.
      w.(fs := PowerLoss(w.fs),
         procs := seq(|w.procs|, i requires 0 <= i < |w.procs| => Kill(w.procs[i])))
    case FlushInode(i, file) => w.(fs := PinFs.FlushInode(w.fs, i, file))
    case FlushEntry(n) => w.(fs := PinFs.FlushEntry(w.fs, n))
    case FlushParent => w.(fs := PinFs.FlushParent(w.fs))
  }

  function Run(w: World, acts: seq<Action>): (w': World)
    ensures |w'.procs| == |w.procs| && w'.env == w.env
  {
    if acts == [] then w else Step(Run(w, acts[..|acts| - 1]), acts[|acts| - 1])
  }

  // Nobody has started. The directory may be missing or not on disk yet, and so
  // may its entries and files, the pin and what it leads to included; only, no
  // other pin is on disk. `PinRestart.EveryEndIsAStart`: whatever the program
  // leaves behind is such a start.
  ghost predicate Init(w: World) {
    && WellFormed(w.fs)
    && (Pin in w.fs.dur ==> PinIs(w.fs, w.fs.dur[Pin]))
    && (Pin in w.fs.vol ==> var n := w.fs.inodes[w.fs.vol[Pin]]; n.clean ==> n.vol == n.dur)
    && w.fs.handles == {}
    && (forall i | 0 <= i < |w.fs.inodes| :: w.fs.inodes[i].creator.None?)
    && (forall p | 0 <= p < |w.procs| :: Fresh(w.procs[p]))
  }

  // The next start: the processes of the last one are gone, and the new ones
  // know nothing of who made which file.
  function Restart(w: World, procs: seq<Proc>): World {
    var inodes := seq(|w.fs.inodes|, i requires 0 <= i < |w.fs.inodes| => w.fs.inodes[i].(creator := None));
    World(w.env, w.fs.(inodes := inodes, handles := {}), procs)
  }

  predicate NoPowerLoss(acts: seq<Action>) {
    forall a | a in acts :: !a.LosePower?
  }

  predicate Fresh(q: Proc) {
    q.pc.Start? && q.cand.None? && q.temp.None? && q.res.None? && q.conns == []
  }

  lemma {:induction false} RunConcat(w: World, a: seq<Action>, b: seq<Action>)
    ensures Run(w, a + b) == Run(Run(w, a), b)
    decreases |b|
  {
    if b == [] {
      assert a + b == a;
    } else {
      var b' := b[..|b| - 1];
      assert (a + b)[..|a + b| - 1] == a + b';
      RunConcat(w, a, b');
    }
  }
}
