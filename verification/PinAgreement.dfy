/**
 What the processes of one run can rely on together: they agree, they connect
 only with the pin, they leave an existing pin alone and they tidy up.
 */
module PinAgreement {
  import opened Prelude
  import opened PinFs
  import opened PinProtocol
  import opened PinInvariant
  import opened PinSafety

  // Everyone who resolved did so with the pin, and whoever reported first use
  // made it.
  ghost predicate AllHoldPin(w: World) {
    && (forall p | 0 <= p < |w.procs| && Trusted(w.procs[p]) :: PinHolds(w.fs, PemOf(w.procs[p])))
    && (forall p | 0 <= p < |w.procs| && FirstUse(w.procs[p]) ::
         w.procs[p].temp.Some? && PinIs(w.fs, w.procs[p].temp.value.ino))
  }

  lemma StepKeepsAllHoldPin(w0: World, w: World, a: Action)
    requires Inv(w0, w) && AllHoldPin(w) && !a.LosePower?
    ensures AllHoldPin(Step(w, a))
  {
    var w' := Step(w, a);
    if Pin in w.fs.vol { PinIsNeverReplaced(w0, w, a, w.fs.vol[Pin]); }
    forall p | 0 <= p < |w'.procs|
      ensures Trusted(w'.procs[p]) ==> PinHolds(w'.fs, PemOf(w'.procs[p]))
      ensures FirstUse(w'.procs[p]) ==> w'.procs[p].temp.Some? && PinIs(w'.fs, w'.procs[p].temp.value.ino)
    {
      ResultIsFinal(w0, w, a, p);
      if Trusted(w'.procs[p]) && w.procs[p].res.None? { ResolutionSeesPin(w0, w, a, p); }
      if FirstUse(w'.procs[p]) && !FirstUse(w.procs[p]) { FirstUseIsSynced(w0, w, a, p); }
    }
  }

  lemma {:induction false} RunKeepsAllHoldPin(w0: World, acts: seq<Action>)
    requires Init(w0) && NoPowerLoss(acts)
    ensures Inv(w0, Run(w0, acts)) && AllHoldPin(Run(w0, acts))
  {
    RunKeepsInv(w0, acts);
    if acts == [] {
    } else {
      RunKeepsAllHoldPin(w0, acts[..|acts| - 1]);
      StepKeepsAllHoldPin(w0, Run(w0, acts[..|acts| - 1]), acts[|acts| - 1]);
    }
  }

  // Without a power loss all successful resolutions agree on the PEM and the
  // fingerprint, and at most one of them reports first use, even when the
  // directory had to be made.
  lemma ResolversAgree(w0: World, acts: seq<Action>)
    requires Init(w0) && NoPowerLoss(acts) && RoundTrips(w0.env.pki)
    ensures var w := Run(w0, acts);
            && AtMostOneFirstUse(w)
            && forall p, r | 0 <= p < |w.procs| && 0 <= r < |w.procs| && Trusted(w.procs[p]) && Trusted(w.procs[r]) ::
                 Agrees(w.procs[p], w.procs[r])
  {
    RunKeepsAllHoldPin(w0, acts);
    var w := Run(w0, acts);
    forall p, r | 0 <= p < |w.procs| && 0 <= r < |w.procs| && Trusted(w.procs[p]) && Trusted(w.procs[r])
      ensures Agrees(w.procs[p], w.procs[r])
    {
      FingerprintFollowsPem(w0, w, p, r);
    }
    forall p, r | 0 <= p < |w.procs| && 0 <= r < |w.procs| && FirstUse(w.procs[p]) && FirstUse(w.procs[r])
      ensures p == r
    {
      assert ProcFit(w.env, w.fs, p, w.procs[p]) && ProcFit(w.env, w.fs, r, w.procs[r]);
    }
  }

  // --- what a process answers ---

  // The first call of a process looks at nothing but the URL and the path. A
  // target that is not https is resolved at once, with no certificate.
  lemma FirstCallDecides(e: Env, fs: Fs, p: nat, q: Proc, c: Choice)
    requires Fresh(q)
    ensures var x := Call(e, fs, p, q, c);
            && x.fs == fs
            && match q.url
               case Unparsable => x.q == q.(pc := Stopped, res := Some(Failed(BadUrl)))
               case Url(scheme, hostname) =>
                 if scheme != "https" then
                   x.q == q.(pc := ConnectPrimary, res := Some(Resolved([], Trust("", "", false))))
                 else if hostname == "" then x.q == q.(pc := Stopped, res := Some(Failed(NoHostname)))
                 else if e.path == "" then x.q == q.(pc := Stopped, res := Some(Failed(NoPath)))
                 else x.q.res.None? && x.q.pc == OpenPin(false)
  {
  }

  // Why a resolution fails, call by call.
  predicate FailsBecause(e: Env, fs: Fs, q: Proc, c: Choice, error: Error) {
    match q.pc
    case Start => error == BadUrl || error == NoHostname || error == NoPath
    case OpenPin(again) => error == Error.ReadPin && (!c.ok || (again && Pin !in fs.vol))
    case ReadPin(_) =>
      if !c.ok then error == Error.ReadPin
      else q.fd < |fs.inodes| && e.pki.parse(fs.inodes[q.fd].vol.data).None? && error == ParsePin
    case Fetch => error == FetchTarget && !c.ok
    case Mkdir => error == Publish && !c.ok
    case CreateTemp => error == Publish && (!c.ok || Temp(c.id) in fs.vol)
    case RemoveTemp(out) => error == Publish && out.Broken?
    case _ => false
  }

  lemma FailuresSayWhy(w0: World, acts: seq<Action>, p: nat, c: Choice)
    requires Init(w0) && p < |w0.procs|
    ensures var w := Run(w0, acts);
            var q, q' := w.procs[p], Step(w, Move(p, c)).procs[p];
            q.res.None? && q'.res.Some? && q'.res.value.Failed? ==>
              FailsBecause(w.env, w.fs, q, c, q'.res.value.error)
  {
    RunKeepsInv(w0, acts);
    var w := Run(w0, acts);
    assert ProcFit(w.env, w.fs, p, w.procs[p]);
    FailingCall(w.env, w.fs, p, w.procs[p], c);
  }

  lemma FailingCall(e: Env, fs: Fs, p: nat, q: Proc, c: Choice)
    requires ProcFit(e, fs, p, q) && (Pin in fs.vol ==> fs.vol[Pin] < |fs.inodes|)
    ensures var q' := Call(e, fs, p, q, c).q;
            q.res.None? && q'.res.Some? && q'.res.value.Failed? ==> FailsBecause(e, fs, q, c, q'.res.value.error)
  {
  }

  // --- New connects only with the pin ---

  // Whenever a process opens a connection, it has resolved, the connection is
  // given the resolved PEM, and at that moment the pin file holds that PEM.
  lemma ConnectionsUseThePin(w0: World, acts: seq<Action>, a: Action, p: nat)
    requires Init(w0) && p < |w0.procs|
    ensures var w := Run(w0, acts);
            var q, q' := w.procs[p], Step(w, a).procs[p];
            q'.conns != q.conns ==>
              && q.res.Some? && q.res.value.Resolved?
              && |q'.conns| == |q.conns| + 1
              && q'.conns[..|q.conns|] == q.conns
              && q'.conns[|q.conns|].pem == q.res.value.pem
              && (UsesTls(w0.procs[p]) ==> PinHolds(w.fs, q.res.value.pem))
  {
    RunKeepsInv(w0, acts);
    var w := Run(w0, acts);
    assert ProcFit(w.env, w.fs, p, w.procs[p]);
    if Step(w, a).procs[p].conns != w.procs[p].conns {
      ConnsChange(w, a, p);
    }
  }

  lemma ConnsChange(w: World, a: Action, p: nat)
    requires p < |w.procs| && Step(w, a).procs[p].conns != w.procs[p].conns
    ensures var q, q' := w.procs[p], Step(w, a).procs[p];
            && (q.pc.ConnectPrimary? || q.pc.ConnectAdmin?)
            && q.res.Some? && q.res.value.Resolved?
            && exists role :: q'.conns == q.conns + [Connection(role, q.res.value.pem)]
  {
    assert a.Move? && a.p == p;
  }

  // When New returns a client: the primary connection, then the admin one
  // exactly when an admin credential is configured, both with one PEM.
  lemma ClientHasBothIdentities(w0: World, acts: seq<Action>, p: nat)
    requires Init(w0) && p < |w0.procs| && Run(w0, acts).procs[p].pc.Up?
    ensures var q := Run(w0, acts).procs[p];
            && q.res.Some? && q.res.value.Resolved?
            && q.conns == [Connection(Role.Primary, q.res.value.pem)]
                          + (if w0.procs[p].admin then [Connection(Role.Admin, q.res.value.pem)] else [])
            && (!UsesTls(w0.procs[p]) ==> q.res.value.pem == [])
  {
    RunKeepsInv(w0, acts);
    var w := Run(w0, acts);
    assert ProcFit(w.env, w.fs, p, w.procs[p]);
  }

  // A failed resolution is never followed by a connection.
  lemma FailureConnectsNothing(w0: World, acts: seq<Action>, p: nat)
    requires Init(w0) && p < |w0.procs|
    requires var q := Run(w0, acts).procs[p]; q.res.Some? && q.res.value.Failed?
    ensures Run(w0, acts).procs[p].conns == []
  {
    RunKeepsInv(w0, acts);
    var w := Run(w0, acts);
    assert ProcFit(w.env, w.fs, p, w.procs[p]);
  }

  // --- an existing pin is authoritative ---

  ghost predicate NobodyFetches(w: World) {
    forall p | 0 <= p < |w.procs| :: w.procs[p].cand.None? && !w.procs[p].pc.Fetch?
  }

  lemma StepNobodyFetches(w0: World, w: World, a: Action)
    requires Inv(w0, w) && NobodyFetches(w) && Pin in w.fs.vol
    ensures NobodyFetches(Step(w, a))
  {
    forall p | 0 <= p < |w.procs| ensures Step(w, a).procs[p].cand.None? && !Step(w, a).procs[p].pc.Fetch? {
      assert ProcFit(w.env, w.fs, p, w.procs[p]);
    }
  }

  lemma {:induction false} RunNobodyFetches(w0: World, acts: seq<Action>)
    requires Init(w0) && Pin in w0.fs.vol && (PinOnDisk(w0.fs) || NoPowerLoss(acts))
    ensures NobodyFetches(Run(w0, acts))
  {
    if acts == [] {
    } else {
      var acts' := acts[..|acts| - 1];
      RunNobodyFetches(w0, acts');
      InitInv(w0);
      LaterResolutionsSeePin(w0, w0, w0.fs.vol[Pin], acts');
      StepNobodyFetches(w0, Run(w0, acts'), acts[|acts| - 1]);
    }
  }

  // A pin that was there at the start keeps its file through every run, power
  // losses included if the pin is on disk; nobody contacts the target or makes a
  // temporary file; everyone who resolves gets its bytes and does not report
  // first use; and if it does not parse, nobody resolves.
  lemma ExistingPinIsAuthoritative(w0: World, acts: seq<Action>)
    requires Init(w0) && Pin in w0.fs.vol && (PinOnDisk(w0.fs) || NoPowerLoss(acts))
    ensures var w := Run(w0, acts);
            var i := w0.fs.vol[Pin];
            && PinIs(w.fs, i) && (PinOnDisk(w0.fs) ==> PinOnDisk(w.fs))
            && i < |w0.fs.inodes| <= |w.fs.inodes|
            && SameFile(w0.fs.inodes[i], w.fs.inodes[i])
            && (forall p | 0 <= p < |w.procs| :: w.procs[p].cand.None? && w.procs[p].temp.None?)
            && (forall p | 0 <= p < |w.procs| && Trusted(w.procs[p]) ::
                 && PemOf(w.procs[p]) == w0.fs.inodes[i].vol.data
                 && !FirstUse(w.procs[p])
                 && w.env.pki.parse(w0.fs.inodes[i].vol.data).Some?)
  {
    var i := w0.fs.vol[Pin];
    var w := Run(w0, acts);
    InitInv(w0);
    LaterResolutionsSeePin(w0, w0, i, acts);
    RunNobodyFetches(w0, acts);
    forall p | 0 <= p < |w.procs|
      ensures w.procs[p].temp.None?
      ensures Trusted(w.procs[p]) ==> !FirstUse(w.procs[p]) && w.env.pki.parse(PemOf(w.procs[p])).Some?
    {
      assert ProcFit(w.env, w.fs, p, w.procs[p]);
      assert w.procs[p].cand.None?;
    }
  }

  // --- cleanup ---

  // Whatever happened, a process that is over has nothing open.
  lemma NoHandleLeaks(w0: World, acts: seq<Action>, h: Handle)
    requires Init(w0)
    requires h.pid < |w0.procs| ==> StageOf(Run(w0, acts).procs[h.pid].pc).Over?
    ensures h !in Run(w0, acts).fs.handles
  {
    RunKeepsInv(w0, acts);
  }

  predicate HoldsTemp(pc: PC) {
    || pc.Chmod? || pc.Write? || pc.SyncTemp? || pc.CloseTemp? || pc.AbortTemp?
    || StageOf(pc).Publishing?
  }

  // No crash, no power loss, and removing a temporary file works. Any other
  // call may fail.
  predicate Tidy(w: World, a: Action) {
    match a
    case Move(p, c) => p < |w.procs| && w.procs[p].pc.RemoveTemp? ==> c.ok
    case Crash(_) => false
    case LosePower => false
    case _ => true
  }

  predicate TidyRun(w: World, acts: seq<Action>) {
    acts == [] || (TidyRun(w, acts[..|acts| - 1]) && Tidy(Run(w, acts[..|acts| - 1]), acts[|acts| - 1]))
  }

  // A temporary name was there at the start, or its maker still holds it.
  predicate TempNameFit(w0: World, w: World, n: nat)
    requires Temp(n) in w.fs.vol
  {
    var i := w.fs.vol[Temp(n)];
    && i < |w.fs.inodes|
    && match w.fs.inodes[i].creator
       case None => Temp(n) in w0.fs.vol && w0.fs.vol[Temp(n)] == i
       case Some(p) =>
         && p < |w.procs|
         && HoldsTemp(w.procs[p].pc)
         && w.procs[p].temp == Some(TempFile(n, i))
  }

  ghost predicate NamesFit(w0: World, w: World) {
    && (forall n: nat | Temp(n) in w.fs.vol :: TempNameFit(w0, w, n))
    && (forall n: nat | Temp(n) in w0.fs.vol ::
         && Temp(n) in w.fs.vol
         && w.fs.vol[Temp(n)] == w0.fs.vol[Temp(n)] < |w.fs.inodes|
         && w.fs.inodes[w.fs.vol[Temp(n)]].creator.None?)
  }

  // How one call changes the temporary names: only creating adds one, and the
  // removal takes away the caller's own.
  predicate NamesAfter(w: World, p: nat, x: Effect, n: nat)
    requires p < |w.procs|
  {
    var q := w.procs[p];
    var mine := q.pc.RemoveTemp? && q.temp.Some? && q.temp.value.id == n;
    if Temp(n) in w.fs.vol then
      if mine then Temp(n) !in x.fs.vol else Temp(n) in x.fs.vol && x.fs.vol[Temp(n)] == w.fs.vol[Temp(n)]
    else
      Temp(n) in x.fs.vol ==>
        && x.fs.vol[Temp(n)] == |w.fs.inodes| < |x.fs.inodes|
        && x.fs.inodes[|w.fs.inodes|].creator == Some(p)
        && HoldsTemp(x.q.pc)
        && x.q.temp == Some(TempFile(n, |w.fs.inodes|))
  }

  lemma CallNames(w: World, p: nat, c: Choice, n: nat)
    requires p < |w.procs| && Tidy(w, Move(p, c))
    ensures NamesAfter(w, p, Call(w.env, w.fs, p, w.procs[p], c), n)
  {
  }

  lemma CallHolds(w: World, p: nat, c: Choice)
    requires p < |w.procs|
    ensures var q, q' := w.procs[p], Call(w.env, w.fs, p, w.procs[p], c).q;
            HoldsTemp(q.pc) && !q.pc.RemoveTemp? ==> HoldsTemp(q'.pc) && q'.temp == q.temp
  {
  }

  lemma TidyMoveKeepsName(w0: World, w: World, p: nat, c: Choice, n: nat)
    requires Inv(w0, w) && NamesFit(w0, w) && p < |w.procs| && Tidy(w, Move(p, c))
    ensures var w' := Step(w, Move(p, c));
            && (Temp(n) in w'.fs.vol ==> TempNameFit(w0, w', n))
            && (Temp(n) in w0.fs.vol ==> Temp(n) in w'.fs.vol && w'.fs.vol[Temp(n)] == w0.fs.vol[Temp(n)])
  {
    var x := Call(w.env, w.fs, p, w.procs[p], c);
    InvReady(w0, w, p);
    CallKeeps(w, p, c);
    CallNames(w, p, c, n);
    CallHolds(w, p, c);
    if Temp(n) in w.fs.vol {
      assert TempNameFit(w0, w, n);
      assert x.fs.inodes[w.fs.vol[Temp(n)]].creator == w.fs.inodes[w.fs.vol[Temp(n)]].creator;
    }
  }

  lemma TidyMoveKeepsNames(w0: World, w: World, p: nat, c: Choice)
    requires Inv(w0, w) && NamesFit(w0, w) && p < |w.procs| && Tidy(w, Move(p, c))
    ensures NamesFit(w0, Step(w, Move(p, c)))
  {
    var w' := Step(w, Move(p, c));
    InvReady(w0, w, p);
    CallKeeps(w, p, c);
    forall n: nat
      ensures Temp(n) in w'.fs.vol ==> TempNameFit(w0, w', n)
      ensures Temp(n) in w0.fs.vol ==>
        && Temp(n) in w'.fs.vol
        && w'.fs.vol[Temp(n)] == w0.fs.vol[Temp(n)] < |w'.fs.inodes|
        && w'.fs.inodes[w'.fs.vol[Temp(n)]].creator.None?
    {
      TidyMoveKeepsName(w0, w, p, c, n);
    }
  }

  // Writing back changes no name and no process.
  lemma FlushKeepsNames(w0: World, w: World, a: Action)
    requires NamesFit(w0, w) && (a.FlushInode? || a.FlushEntry? || a.FlushParent?)
    ensures NamesFit(w0, Step(w, a))
  {
    var w' := Step(w, a);
    assert w'.fs.vol == w.fs.vol && w'.procs == w.procs && |w'.fs.inodes| == |w.fs.inodes|;
    assert forall i | 0 <= i < |w.fs.inodes| :: w'.fs.inodes[i].creator == w.fs.inodes[i].creator;
    forall n: nat | Temp(n) in w.fs.vol ensures TempNameFit(w0, w', n) {
      assert TempNameFit(w0, w, n);
    }
  }

  lemma TidyStepKeepsNames(w0: World, w: World, a: Action)
    requires Inv(w0, w) && NamesFit(w0, w) && Tidy(w, a)
    ensures NamesFit(w0, Step(w, a))
  {
    if a.Move? {
      if a.p < |w.procs| { TidyMoveKeepsNames(w0, w, a.p, a.c); }
    } else {
      FlushKeepsNames(w0, w, a);
    }
  }

  lemma {:induction false} TidyRunKeepsNames(w0: World, acts: seq<Action>)
    requires Init(w0) && TidyRun(w0, acts)
    ensures NamesFit(w0, Run(w0, acts))
  {
    if acts == [] {
    } else {
      TidyRunKeepsNames(w0, acts[..|acts| - 1]);
      RunKeepsInv(w0, acts[..|acts| - 1]);
      TidyStepKeepsNames(w0, Run(w0, acts[..|acts| - 1]), acts[|acts| - 1]);
    }
  }

  lemma OnlyPinIsNew(w0: World, w: World)
    requires NamesFit(w0, w)
    requires forall p | 0 <= p < |w.procs| :: !HoldsTemp(w.procs[p].pc)
    ensures w.fs.vol - {Pin} == w0.fs.vol - {Pin}
  {
    forall n: Name | n != Pin
      ensures n in w.fs.vol <==> n in w0.fs.vol
      ensures n in w.fs.vol && n in w0.fs.vol ==> w.fs.vol[n] == w0.fs.vol[n]
    {
      assert n == Temp(n.id);
      if n in w.fs.vol { assert TempNameFit(w0, w, n.id); }
    }
  }

  // When everyone has returned, the directory is the one at the start plus at
  // most the pin, and nothing is open.
  lemma NothingIsLeftBehind(w0: World, acts: seq<Action>)
    requires Init(w0) && TidyRun(w0, acts)
    requires forall p | 0 <= p < |w0.procs| :: StageOf(Run(w0, acts).procs[p].pc).Over?
    ensures var fs := Run(w0, acts).fs;
            fs.vol - {Pin} == w0.fs.vol - {Pin} && fs.handles == {}
  {
    TidyRunKeepsNames(w0, acts);
    OnlyPinIsNew(w0, Run(w0, acts));
    forall h ensures h !in Run(w0, acts).fs.handles {
      NoHandleLeaks(w0, acts, h);
    }
  }
}
