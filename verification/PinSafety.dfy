/**
 What holds in every run of the pin protocol, whatever is interleaved, fails,
 crashes or loses power.
 */
module PinSafety {
  import opened Prelude
  import opened PinFs
  import opened PinProtocol
  import opened PinInvariant

  predicate Trusted(q: Proc) {
    q.res.Some? && q.res.value.Resolved? && UsesTls(q)
  }

  predicate FirstUse(q: Proc) {
    q.res.Some? && q.res.value.Resolved? && q.res.value.trust.firstUse
  }

  function PemOf(q: Proc): seq<byte>
    requires Trusted(q) || FirstUse(q)
  {
    q.res.value.pem
  }

  // --- crash consistency ---

  // It is the file of the pin that was there at the start, untouched if all of
  // it was on disk.
  predicate FromStart(w0: World, w: World, i: nat)
    requires i < |w.fs.inodes|
  {
    && PinIs(w0.fs, i) && i < |w0.fs.inodes|
    && (w0.fs.inodes[i].clean ==> w.fs.inodes[i] == w0.fs.inodes[i])
  }

  // It is exactly what process p set out to publish, whole and on disk.
  predicate FromCandidate(w: World, i: nat, p: nat)
    requires i < |w.fs.inodes| && p < |w.procs|
  {
    && w.procs[p].cand.Some?
    && w.procs[p].temp.Some?
    && w.procs[p].temp.value.ino == i
    && w.fs.inodes[i].clean
    && w.fs.inodes[i].vol == w.fs.inodes[i].dur
    && w.fs.inodes[i].vol == File(w.env.pki.encode(w.procs[p].cand.value), 420) // 0644
  }

  ghost predicate Authentic(w0: World, w: World, i: nat) {
    && i < |w.fs.inodes|
    && (FromStart(w0, w, i) || exists p: nat | p < |w.procs| :: FromCandidate(w, i, p))
  }

  // In every reachable state, before and after a power loss, the pin name is
  // absent or leads to an authentic file.
  lemma PinIsNeverPartial(w0: World, acts: seq<Action>)
    requires Init(w0)
    ensures var w := Run(w0, acts);
            && (Pin in w.fs.vol ==> Authentic(w0, w, w.fs.vol[Pin]))
            && (Pin in w.fs.dur ==> Authentic(w0, w, w.fs.dur[Pin]))
  {
    RunKeepsInv(w0, acts);
    var w := Run(w0, acts);
    if Pin in w.fs.vol {
      var i := w.fs.vol[Pin];
      assert InodeFit(w, i);
      if w.fs.inodes[i].creator.Some? { assert FromCandidate(w, i, w.fs.inodes[i].creator.value); }
    }
  }

  // A step never changes a published pin or what it leads to; only losing
  // power can take it away, and only while it is not durable, or change the
  // file, and only while that is not all on disk.
  lemma PinIsNeverReplaced(w0: World, w: World, a: Action, i: nat)
    requires Inv(w0, w) && PinIs(w.fs, i)
    ensures var fs' := Step(w, a).fs;
            && i < |w.fs.inodes| <= |fs'.inodes|
            && (w.fs.inodes[i].clean ==> fs'.inodes[i] == w.fs.inodes[i])
            && (!a.LosePower? ==> SameFile(w.fs.inodes[i], fs'.inodes[i]))
            && (PinIs(fs', i) || (a.LosePower? && !PinDurablyIs(w.fs, i)))
            && (PinDurablyIs(w.fs, i) ==> PinDurablyIs(fs', i))
  {
    StepKeepsInv(w0, w, a);
    if a.Move? && a.p < |w.procs| {
      InvReady(w0, w, a.p);
      CallKeeps(w, a.p, a.c);
    }
  }

  // --- what a successful resolution saw ---

  lemma ResultOfCall(e: Env, fs: Fs, p: nat, q: Proc, c: Choice)
    ensures var q' := Call(e, fs, p, q, c).q;
            && (q.res.None? && q'.res.Some? && q'.res.value.Resolved? ==> q'.pc.ConnectPrimary?)
            && (!FirstUse(q) && FirstUse(q') ==> q.pc == RemoveTemp(Created))
  {
  }

  lemma ConnectingSeesPin(e: Env, fs: Fs, p: nat, q: Proc)
    requires ProcFit(e, fs, p, q) && q.pc.ConnectPrimary? && Trusted(q)
    ensures PinHolds(fs, PemOf(q))
  {
  }

  lemma ResolutionSeesPin(w0: World, w: World, a: Action, p: nat)
    requires Inv(w0, w) && p < |w.procs|
    requires w.procs[p].res.None? && Trusted(Step(w, a).procs[p])
    ensures PinHolds(Step(w, a).fs, PemOf(Step(w, a).procs[p]))
  {
    assert a.Move? && a.p == p;
    InvReady(w0, w, p);
    CallKeeps(w, p, a.c);
    ResultOfCall(w.env, w.fs, p, w.procs[p], a.c);
    var x := Call(w.env, w.fs, p, w.procs[p], a.c);
    ConnectingSeesPin(w.env, x.fs, p, x.q);
  }

  lemma FirstUseIsSynced(w0: World, w: World, a: Action, p: nat)
    requires Inv(w0, w) && p < |w.procs|
    requires !FirstUse(w.procs[p]) && FirstUse(Step(w, a).procs[p])
    ensures var w' := Step(w, a);
            && w'.procs[p].temp.Some?
            && PinIs(w'.fs, w'.procs[p].temp.value.ino)
            && Pin in w'.fs.dur
  {
    assert a.Move? && a.p == p;
    assert ProcFit(w.env, w.fs, p, w.procs[p]);
    ResultOfCall(w.env, w.fs, p, w.procs[p], a.c);
  }

  // A recorded result never changes.
  lemma ResultIsFinal(w0: World, w: World, a: Action, p: nat)
    requires Inv(w0, w) && p < |w.procs|
    ensures Grows(w.procs[p], Step(w, a).procs[p])
  {
    if a.Move? && a.p < |w.procs| {
      InvReady(w0, w, a.p);
      CallKeeps(w, a.p, a.c);
    }
  }

  // --- first use, when the directory was on disk at the start ---

  // Everyone who reported first use made the pin, and it is on disk.
  ghost predicate FirstUsesLast(w: World) {
    forall p | 0 <= p < |w.procs| && FirstUse(w.procs[p]) ::
      w.procs[p].temp.Some? && PinDurablyIs(w.fs, w.procs[p].temp.value.ino)
  }

  lemma StepKeepsFirstUses(w0: World, w: World, a: Action)
    requires Inv(w0, w) && w.fs.dirDurable && FirstUsesLast(w)
    ensures FirstUsesLast(Step(w, a)) && Step(w, a).fs.dirDurable
  {
    var w' := Step(w, a);
    StepKeepsInv(w0, w, a);
    if a.Move? && a.p < |w.procs| {
      InvReady(w0, w, a.p);
      CallKeeps(w, a.p, a.c);
    }
    assert w'.fs.dirDurable;
    forall p | 0 <= p < |w'.procs| && FirstUse(w'.procs[p])
      ensures w'.procs[p].temp.Some? && PinDurablyIs(w'.fs, w'.procs[p].temp.value.ino)
    {
      ResultIsFinal(w0, w, a, p);
      if FirstUse(w.procs[p]) {
        PinIsNeverReplaced(w0, w, a, w.procs[p].temp.value.ino);
      } else {
        FirstUseIsSynced(w0, w, a, p);
      }
    }
  }

  lemma {:induction false} RunKeepsFirstUses(w0: World, acts: seq<Action>)
    requires Init(w0) && w0.fs.dirDurable
    ensures Inv(w0, Run(w0, acts)) && FirstUsesLast(Run(w0, acts)) && Run(w0, acts).fs.dirDurable
  {
    RunKeepsInv(w0, acts);
    if acts == [] {
    } else {
      var acts' := acts[..|acts| - 1];
      RunKeepsFirstUses(w0, acts');
      StepKeepsFirstUses(w0, Run(w0, acts'), acts[|acts| - 1]);
    }
  }

  ghost predicate AtMostOneFirstUse(w: World) {
    forall p, r | 0 <= p < |w.procs| && 0 <= r < |w.procs| && FirstUse(w.procs[p]) && FirstUse(w.procs[r]) ::
      p == r
  }

  lemma FirstUsesLastIsUnique(w0: World, w: World)
    requires Inv(w0, w) && FirstUsesLast(w)
    ensures AtMostOneFirstUse(w)
  {
    forall p, r | 0 <= p < |w.procs| && 0 <= r < |w.procs| && FirstUse(w.procs[p]) && FirstUse(w.procs[r])
      ensures p == r
    {
      assert ProcFit(w.env, w.fs, p, w.procs[p]) && ProcFit(w.env, w.fs, r, w.procs[r]);
    }
  }

  // What one process can say of another that resolved after it.
  predicate Agrees(q: Proc, r: Proc)
    requires Trusted(q) && Trusted(r)
  {
    PemOf(r) == PemOf(q) && r.res.value.trust.fingerprint == q.res.value.trust.fingerprint
  }

  lemma FingerprintFollowsPem(w0: World, w: World, p: nat, r: nat)
    requires Inv(w0, w) && RoundTrips(w.env.pki)
    requires p < |w.procs| && r < |w.procs| && Trusted(w.procs[p]) && Trusted(w.procs[r])
    requires PemOf(w.procs[p]) == PemOf(w.procs[r])
    ensures Agrees(w.procs[p], w.procs[r])
  {
    assert ProcFit(w.env, w.fs, p, w.procs[p]) && ProcFit(w.env, w.fs, r, w.procs[r]);
  }

  // While inode i is the pin, on disk or without a power loss, whoever resolves
  // gets its bytes.
  lemma {:induction false} LaterResolutionsSeePin(w0: World, w: World, i: nat, acts: seq<Action>)
    requires Inv(w0, w) && PinIs(w.fs, i) && (PinOnDisk(w.fs) || NoPowerLoss(acts))
    ensures var w' := Run(w, acts);
            && Inv(w0, w')
            && PinIs(w'.fs, i)
            && (PinDurablyIs(w.fs, i) ==> PinDurablyIs(w'.fs, i))
            && i < |w.fs.inodes| <= |w'.fs.inodes|
            && SameFile(w.fs.inodes[i], w'.fs.inodes[i])
            && (forall r | 0 <= r < |w.procs| :: Grows(w.procs[r], w'.procs[r]))
            && (forall r | 0 <= r < |w.procs| && w.procs[r].res.None? && Trusted(w'.procs[r]) ::
                 PemOf(w'.procs[r]) == w.fs.inodes[i].vol.data)
  {
    if acts == [] {
    } else {
      var last := acts[|acts| - 1];
      var w1 := Run(w, acts[..|acts| - 1]);
      LaterResolutionsSeePin(w0, w, i, acts[..|acts| - 1]);
      StepKeepsInv(w0, w1, last);
      PinIsNeverReplaced(w0, w1, last, i);
      var w' := Step(w1, last);
      forall r | 0 <= r < |w.procs|
        ensures Grows(w.procs[r], w'.procs[r])
        ensures w.procs[r].res.None? && Trusted(w'.procs[r]) ==> PemOf(w'.procs[r]) == w.fs.inodes[i].vol.data
      {
        ResultIsFinal(w0, w1, last, r);
        if w1.procs[r].res.None? && Trusted(w'.procs[r]) {
          ResolutionSeesPin(w0, w1, last, r);
        }
      }
    }
  }

  // Once a process has reported first use, the pin is on disk with exactly
  // the PEM it reported and stays so in every continuation, crashes and power
  // losses included; everyone who resolves later gets that PEM and
  // fingerprint, and nobody else ever reports first use.
  lemma FirstUseIsFinal(w0: World, acts: seq<Action>, p: nat, more: seq<Action>)
    requires Init(w0) && w0.fs.dirDurable && RoundTrips(w0.env.pki)
    requires p < |w0.procs| && FirstUse(Run(w0, acts).procs[p])
    ensures var w := Run(w0, acts);
            var w' := Run(w, more);
            && w'.procs[p].res == w.procs[p].res
            && PinDurablyHolds(w'.fs, PemOf(w.procs[p]))
            && (forall r | 0 <= r < |w'.procs| && FirstUse(w'.procs[r]) :: r == p)
            && (forall r | 0 <= r < |w.procs| && w.procs[r].res.None? && Trusted(w'.procs[r]) ::
                 Trusted(w'.procs[p]) && Agrees(w'.procs[p], w'.procs[r]))
  {
    RunKeepsFirstUses(w0, acts);
    RunConcat(w0, acts, more);
    RunKeepsFirstUses(w0, acts + more);
    var w := Run(w0, acts);
    var w' := Run(w, more);
    FirstUsesLastIsUnique(w0, w');
    var i := w.procs[p].temp.value.ino;
    LaterResolutionsSeePin(w0, w, i, more);
    assert ProcFit(w.env, w.fs, p, w.procs[p]);
    assert PinFit(w0, w, i);
    forall r | 0 <= r < |w.procs| && w.procs[r].res.None? && Trusted(w'.procs[r])
      ensures Trusted(w'.procs[p]) && Agrees(w'.procs[p], w'.procs[r])
    {
      FingerprintFollowsPem(w0, w', p, r);
    }
  }
}
