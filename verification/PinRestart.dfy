/**
 What one start leaves to the next, and which pins a power loss spares. Every
 state the program leaves is one it can be started in; among them are a
 directory, and a pin, that are there and not on disk.
 */
module PinRestart {
  import opened Prelude
  import opened PinFs
  import opened PinProtocol
  import opened PinInvariant
  import opened PinSafety
  import opened PinAgreement
  import opened PinDurability

  // Whatever the processes of a run have left behind, wherever they have got to,
  // is a state in which new ones can start.
  lemma EveryEndIsAStart(w0: World, acts: seq<Action>, procs: seq<Proc>)
    requires Init(w0) && forall p | 0 <= p < |procs| :: Fresh(procs[p])
    ensures Init(Restart(Run(w0, acts), procs))
  {
    RunKeepsInv(w0, acts);
  }

  // --- what failed starts leave ---

  // A start that makes the directory and then fails leaves the next start with
  // a directory that is there and not on disk.
  lemma FailedStartLeavesUnsynced(w0: World, p: nat, c: Choice, bad: Choice)
    requires Init(w0) && !w0.fs.dirExists && p < |w0.procs| && CanStart(w0.env, w0.procs[p]) && c.ok && !bad.ok
    ensures var w := Run(w0, Alone(p, c, 4) + [Move(p, bad)]);
            && w.procs[p].res == Some(Failed(Publish))
            && w.fs == w0.fs.(dirExists := true, dirDurable := false)
            && Init(w.(procs := w0.procs)) && Exposed(w.fs, c.id)
  {
    var q := w0.procs[p];
    MakesDirectory(w0.env, w0.fs, p, q, c);
    AloneIsCalls(w0, p, c, 4);
    RunOne(w0, Alone(p, c, 4), Move(p, bad));
  }

  // A start that links the pin and then cannot open the directory returns an
  // error and leaves the pin there, not on disk.
  lemma FailedStartLeavesPin(w0: World, p: nat, c: Choice, bad: Choice, procs: seq<Proc>)
    requires Init(w0) && Clear(w0.fs, c.id) && p < |w0.procs| && CanStart(w0.env, w0.procs[p]) && c.ok && !bad.ok
    requires forall r | 0 <= r < |procs| :: Fresh(procs[r])
    ensures var w := Run(w0, Alone(p, c, 10) + [Move(p, bad)] + [Move(p, c)]);
            && w.procs[p].res == Some(Failed(Publish))
            && PinHolds(w.fs, w.env.pki.encode(c.cert)) && Pin !in w.fs.dur
            && (w0.fs.dirDurable ==> w.fs.dirDurable)
            && Init(Restart(w, procs)) && !PinOnDisk(Restart(w, procs).fs)
  {
    var acts := Alone(p, c, 10);
    AloneIsCalls(w0, p, c, 10);
    LinksAlone(w0.env, w0.fs, p, w0.procs[p], c);
    RunOne(w0, acts, Move(p, bad));
    RunOne(w0, acts + [Move(p, bad)], Move(p, c));
    FailsToSync(Run(w0, acts), p, c, bad);
    EveryEndIsAStart(w0, acts + [Move(p, bad)] + [Move(p, c)], procs);
  }

  lemma FailsToSync(w: World, p: nat, c: Choice, bad: Choice)
    requires p < |w.procs| && w.procs[p].pc.OpenDir? && w.procs[p].temp.Some? && c.ok && !bad.ok
    ensures var w' := Step(Step(w, Move(p, bad)), Move(p, c));
            && w'.procs[p].res == Some(Failed(Publish))
            && w'.fs == w.fs.(vol := w.fs.vol - {Temp(w.procs[p].temp.value.id)})
  {
  }

  // --- whether the pin of the start survives ---

  // What a power loss leaves of a start whose pin, if any, has no entry on disk.
  lemma PowerLossTakes(w0: World)
    requires Init(w0) && !(Pin in w0.fs.vol && PinDurablyIs(w0.fs, w0.fs.vol[Pin]))
    ensures var w := Run(w0, [LosePower]);
            && w.procs == w0.procs && w.env == w0.env
            && Pin !in w.fs.vol && Pin !in w.fs.dur
            && (forall n | n in w.fs.vol || n in w.fs.dur :: n in w0.fs.dur)
  {
    RunOne(w0, [], LosePower);
    assert [] + [LosePower] == [LosePower];
    assert Step(w0, LosePower).procs == w0.procs;
  }

  lemma {:induction false} DurableEntryStays(w0: World, w: World, i: nat, acts: seq<Action>)
    requires Inv(w0, w) && PinDurablyIs(w.fs, i)
    ensures Inv(w0, Run(w, acts)) && PinIs(Run(w, acts).fs, i) && PinDurablyIs(Run(w, acts).fs, i)
  {
    if acts == [] {
    } else {
      var w1 := Run(w, acts[..|acts| - 1]);
      DurableEntryStays(w0, w, i, acts[..|acts| - 1]);
      StepKeepsInv(w0, w1, acts[|acts| - 1]);
      PinIsNeverReplaced(w0, w1, acts[|acts| - 1], i);
    }
  }

  // The name keeps its file in every run exactly when its entry is on disk.
  lemma ExistingPinSurvivesIff(w0: World)
    requires Init(w0) && Pin in w0.fs.vol
    ensures (forall acts :: PinIs(Run(w0, acts).fs, w0.fs.vol[Pin])) <==> PinDurablyIs(w0.fs, w0.fs.vol[Pin])
  {
    if PinDurablyIs(w0.fs, w0.fs.vol[Pin]) {
      forall acts ensures PinIs(Run(w0, acts).fs, w0.fs.vol[Pin]) {
        InitInv(w0);
        DurableEntryStays(w0, w0, w0.fs.vol[Pin], acts);
      }
    } else {
      PowerLossTakes(w0);
    }
  }

  // A file that is not all on disk may come back from a power loss as anything.
  function Spoil(i: nat, file: File): seq<Action> {
    [Action.FlushInode(i, file), LosePower]
  }

  lemma SpoiledPin(w: World, i: nat, file: File)
    requires WellFormed(w.fs) && PinIs(w.fs, i) && PinDurablyIs(w.fs, i) && i < |w.fs.inodes| && !w.fs.inodes[i].clean
    ensures var w' := Run(w, Spoil(i, file));
            && w'.env == w.env
            && Named(w'.fs, Pin, i, file.data)
            && (forall p | 0 <= p < |w.procs| :: w'.procs[p] == Kill(w.procs[p]))
  {
    RunOne(w, [], Action.FlushInode(i, file));
    RunOne(w, [Action.FlushInode(i, file)], LosePower);
    assert [] + [Action.FlushInode(i, file)] == [Action.FlushInode(i, file)];
    assert [Action.FlushInode(i, file)] + [LosePower] == Spoil(i, file);
  }

  // The pin keeps its bytes in every run exactly when all of it is on disk: the
  // directory, the entry and the file.
  lemma ExistingPinKeepsBytesIff(w0: World)
    requires Init(w0) && Pin in w0.fs.vol
    ensures (forall acts :: PinHolds(Run(w0, acts).fs, w0.fs.inodes[w0.fs.vol[Pin]].vol.data)) <==> PinOnDisk(w0.fs)
  {
    var i := w0.fs.vol[Pin];
    var data := w0.fs.inodes[i].vol.data;
    if PinOnDisk(w0.fs) {
      forall acts ensures PinHolds(Run(w0, acts).fs, data) {
        InitInv(w0);
        LaterResolutionsSeePin(w0, w0, i, acts);
      }
    } else if PinDurablyIs(w0.fs, i) {
      SpoiledPin(w0, i, File(data + [0], 0));
      assert !PinHolds(Run(w0, Spoil(i, File(data + [0], 0))).fs, data);
    } else {
      PowerLossTakes(w0);
      assert !PinHolds(Run(w0, [LosePower]).fs, data);
    }
  }

  // --- agreement across a power loss ---

  // Whoever finds a pin when it starts trusts it after three calls.
  lemma ReadsPin(e: Env, fs: Fs, p: nat, q: Proc, c: Choice, i: nat, data: seq<byte>)
    requires CanStart(e, q) && Named(fs, Pin, i, data) && e.pki.parse(data).Some? && c.ok
    ensures var x := Calls(e, fs, p, q, c, 3);
            && Trusted(x.q) && PemOf(x.q) == data
            && x.fs == fs.(handles := x.fs.handles)
  {
    OneMore(e, fs, p, q, c, 0);
    assert Calls(e, fs, p, q, c, 1) == Effect(fs, q.(pc := OpenPin(false)));
    OneMore(e, fs, p, q, c, 1);
    assert Calls(e, fs, p, q, c, 2)
        == Effect(OpenHandle(fs, Handle(p, PinFd)), q.(pc := PC.ReadPin(false), fd := i));
    OneMore(e, fs, p, q, c, 2);
  }

  // Process 0 has linked the pin and not yet synced the directory; process 1
  // reads the pin and trusts it; the power goes; process 2 starts.
  function ReadTooSoon(c: Choice): seq<Action> {
    Alone(0, c, 10) + Alone(1, c, 3) + [LosePower]
  }

  lemma TrustsUnsyncedPin(w: World, c: Choice)
    requires |w.procs| >= 3 && CanStart(w.env, w.procs[0]) && CanStart(w.env, w.procs[1])
    requires RoundTrips(w.env.pki) && Clear(w.fs, c.id) && c.ok
    ensures var w' := Run(w, Alone(0, c, 10) + Alone(1, c, 3));
            && Trusted(w'.procs[1]) && PemOf(w'.procs[1]) == w.env.pki.encode(c.cert)
            && w'.procs[2] == w.procs[2]
            && DiskBehind(w.fs, w'.fs)
  {
    AloneIsCalls(w, 0, c, 10);
    LinksAlone(w.env, w.fs, 0, w.procs[0], c);
    var w1 := Run(w, Alone(0, c, 10));
    AloneIsCalls(w1, 1, c, 3);
    ReadsPin(w.env, w1.fs, 1, w1.procs[1], c, |w.fs.inodes|, w.env.pki.encode(c.cert));
    RunConcat(w, Alone(0, c, 10), Alone(1, c, 3));
  }

  // Names that are not on disk are gone, what was recorded is history, and who
  // has not started is as before.
  lemma PowerLossLeaves(w: World, p: nat, id: nat)
    requires p < |w.procs| && Pin !in w.fs.dur && Temp(id) !in w.fs.dur
    ensures var w' := Step(w, LosePower);
            && Clear(w'.fs, id)
            && w'.procs[p].res == w.procs[p].res && w'.procs[p].url == w.procs[p].url
            && (w.procs[p].pc.Start? ==> w'.procs[p] == w.procs[p])
  {
  }

  lemma PowerLossTakesPin(w: World, c: Choice, id: nat)
    requires |w.procs| >= 3 && CanStart(w.env, w.procs[0]) && CanStart(w.env, w.procs[1]) && CanStart(w.env, w.procs[2])
    requires RoundTrips(w.env.pki) && Clear(w.fs, c.id) && c.ok
    requires Pin !in w.fs.dur && Temp(id) !in w.fs.dur
    ensures var w' := Run(w, ReadTooSoon(c));
            && Trusted(w'.procs[1]) && PemOf(w'.procs[1]) == w.env.pki.encode(c.cert)
            && w'.procs[2] == w.procs[2]
            && Clear(w'.fs, id)
  {
    TrustsUnsyncedPin(w, c);
    RunOne(w, Alone(0, c, 10) + Alone(1, c, 3), LosePower);
    PowerLossLeaves(Run(w, Alone(0, c, 10) + Alone(1, c, 3)), 1, id);
    PowerLossLeaves(Run(w, Alone(0, c, 10) + Alone(1, c, 3)), 2, id);
  }

  // Two resolutions with different pins, durable directory or not, whenever
  // there is no pin at the start.
  lemma ReadersCanDisagree(w: World, c: Choice, c': Choice)
    requires |w.procs| >= 3 && CanStart(w.env, w.procs[0]) && CanStart(w.env, w.procs[1]) && CanStart(w.env, w.procs[2])
    requires RoundTrips(w.env.pki) && c.ok && c'.ok && c.cert != c'.cert
    requires Clear(w.fs, c.id) && Pin !in w.fs.dur && Temp(c'.id) !in w.fs.dur
    ensures var w' := Run(w, ReadTooSoon(c) + Alone(2, c', 14));
            Trusted(w'.procs[1]) && Trusted(w'.procs[2]) && PemOf(w'.procs[1]) != PemOf(w'.procs[2])
  {
    PowerLossTakesPin(w, c, c'.id);
    var w1 := Run(w, ReadTooSoon(c));
    AloneTrustsOnFirstUse(w1, 2, c');
    RunConcat(w, ReadTooSoon(c), Alone(2, c', 14));
    assert w.env.pki.parse(w.env.pki.encode(c.cert)) != w.env.pki.parse(w.env.pki.encode(c'.cert));
  }

  ghost predicate AllAgree(w: World) {
    forall p, r | 0 <= p < |w.procs| && 0 <= r < |w.procs| && Trusted(w.procs[p]) && Trusted(w.procs[r]) ::
      Agrees(w.procs[p], w.procs[r])
  }

  // Some temporary name is always free.
  lemma {:induction false} FreeName(names: set<Name>) returns (id: nat)
    ensures forall n: nat | n >= id :: Temp(n) !in names
  {
    if names == {} {
      id := 0;
    } else {
      var n :| n in names;
      id := FreeName(names - {n});
      if n.Temp? && n.id >= id { id := n.id + 1; }
    }
  }

  lemma DisagreesWithoutPin(w: World, c: Choice, c': Choice)
    requires |w.procs| >= 3 && CanStart(w.env, w.procs[0]) && CanStart(w.env, w.procs[1]) && CanStart(w.env, w.procs[2])
    requires RoundTrips(w.env.pki) && c.ok && c'.ok && c.cert != c'.cert
    requires Clear(w.fs, c.id) && Pin !in w.fs.dur && Temp(c'.id) !in w.fs.dur
    ensures !AllAgree(Run(w, ReadTooSoon(c) + Alone(2, c', 14)))
  {
    ReadersCanDisagree(w, c, c');
  }

  lemma DisagreesAfterPowerLoss(w0: World, c: Choice, c': Choice)
    requires Init(w0) && RoundTrips(w0.env.pki) && |w0.procs| >= 3
    requires !(Pin in w0.fs.vol && PinDurablyIs(w0.fs, w0.fs.vol[Pin]))
    requires CanStart(w0.env, w0.procs[0]) && CanStart(w0.env, w0.procs[1]) && CanStart(w0.env, w0.procs[2])
    requires c.ok && c'.ok && c.cert != c'.cert && Temp(c.id) !in w0.fs.dur && Temp(c'.id) !in w0.fs.dur
    ensures !AllAgree(Run(w0, [LosePower] + (ReadTooSoon(c) + Alone(2, c', 14))))
  {
    PowerLossTakes(w0);
    DisagreesWithoutPin(Run(w0, [LosePower]), c, c');
    RunConcat(w0, [LosePower], ReadTooSoon(c) + Alone(2, c', 14));
  }

  // A process on its own that finds a pin that parses.
  lemma ReadsAlone(w: World, p: nat, c: Choice, i: nat, data: seq<byte>)
    requires p < |w.procs| && CanStart(w.env, w.procs[p]) && c.ok
    requires Named(w.fs, Pin, i, data) && w.env.pki.parse(data).Some?
    ensures var w' := Run(w, Alone(p, c, 3));
            && w'.fs == w.fs.(handles := w'.fs.handles)
            && Trusted(w'.procs[p]) && PemOf(w'.procs[p]) == data
            && (forall r | 0 <= r < |w.procs| && r != p :: w'.procs[r] == w.procs[r])
  {
    AloneIsCalls(w, p, c, 3);
    ReadsPin(w.env, w.fs, p, w.procs[p], c, i, data);
  }

  lemma KillKeepsTrust(q: Proc)
    requires Trusted(q)
    ensures Trusted(Kill(q)) && PemOf(Kill(q)) == PemOf(q)
  {
  }

  // Process 0 trusts a pin whose file is not all on disk, and process 1 what the
  // power loss makes of it.
  lemma SpoiledPinDisagrees(w0: World, c: Choice, i: nat, data: seq<byte>, file: File)
    requires WellFormed(w0.fs) && Named(w0.fs, Pin, i, data) && PinDurablyIs(w0.fs, i) && !w0.fs.inodes[i].clean
    requires |w0.procs| >= 2 && c.ok && CanStart(w0.env, w0.procs[0]) && CanStart(w0.env, w0.procs[1])
    requires w0.env.pki.parse(data).Some? && w0.env.pki.parse(file.data).Some? && file.data != data
    ensures !AllAgree(Run(w0, Alone(0, c, 3) + Spoil(i, file) + Alone(1, c, 3)))
  {
    ReadsAlone(w0, 0, c, i, data);
    var w1 := Run(w0, Alone(0, c, 3));
    SpoiledPin(w1, i, file);
    var w2 := Run(w1, Spoil(i, file));
    KillKeepsTrust(w1.procs[0]);
    ReadsAlone(w2, 1, c, i, file.data);
    RunConcat(w0, Alone(0, c, 3), Spoil(i, file));
    RunConcat(w0, Alone(0, c, 3) + Spoil(i, file), Alone(1, c, 3));
  }

  // The pin of the start cannot be doubted: its entry is on disk, and so is all
  // of its file, or else nobody can read it before a power loss settles it.
  predicate PinSettled(e: Env, fs: Fs) {
    && Pin in fs.vol && fs.vol[Pin] < |fs.inodes|
    && PinDurablyIs(fs, fs.vol[Pin])
    && (fs.inodes[fs.vol[Pin]].clean || e.pki.parse(fs.inodes[fs.vol[Pin]].vol.data).None?)
  }

  lemma SomeRunDisagrees(w0: World)
    requires Init(w0) && RoundTrips(w0.env.pki) && !PinSettled(w0.env, w0.fs) && |w0.procs| >= 3
    requires CanStart(w0.env, w0.procs[0]) && CanStart(w0.env, w0.procs[1]) && CanStart(w0.env, w0.procs[2])
    ensures exists acts :: !AllAgree(Run(w0, acts))
  {
    var id := FreeName(w0.fs.vol.Keys + w0.fs.dur.Keys);
    assert Temp(id) !in w0.fs.vol.Keys + w0.fs.dur.Keys;
    var c, c' := Choice(true, Cert([]), id, 0, true), Choice(true, Cert([0]), id, 0, true);
    assert c.cert.raw != c'.cert.raw;
    if Pin !in w0.fs.vol {
      DisagreesWithoutPin(w0, c, c');
    } else if !PinDurablyIs(w0.fs, w0.fs.vol[Pin]) {
      DisagreesAfterPowerLoss(w0, c, c');
    } else {
      var data := w0.fs.inodes[w0.fs.vol[Pin]].vol.data;
      var other := if w0.env.pki.parse(data) == Some(c.cert) then c'.cert else c.cert;
      SpoiledPinDisagrees(w0, c, w0.fs.vol[Pin], data, File(w0.env.pki.encode(other), 0));
    }
  }

  // Inode i is durably the pin; nobody has resolved before all of it is on disk,
  // and then everybody who has did so with its bytes.
  ghost predicate Settling(w: World, i: nat) {
    && PinIs(w.fs, i) && PinDurablyIs(w.fs, i) && i < |w.fs.inodes|
    && (!w.fs.inodes[i].clean ==> w.env.pki.parse(w.fs.inodes[i].vol.data).None?)
    && forall p | 0 <= p < |w.procs| && Trusted(w.procs[p]) ::
         w.fs.inodes[i].clean && PemOf(w.procs[p]) == w.fs.inodes[i].vol.data
  }

  lemma ResolvedPinParses(w0: World, w: World, p: nat)
    requires Inv(w0, w) && RoundTrips(w.env.pki) && p < |w.procs| && Trusted(w.procs[p])
    ensures w.env.pki.parse(PemOf(w.procs[p])).Some?
  {
    assert ProcFit(w.env, w.fs, p, w.procs[p]);
  }

  lemma StepKeepsSettling(w0: World, w: World, a: Action, i: nat)
    requires Inv(w0, w) && RoundTrips(w.env.pki) && Settling(w, i)
    ensures Inv(w0, Step(w, a)) && Settling(Step(w, a), i)
  {
    var w' := Step(w, a);
    StepKeepsInv(w0, w, a);
    PinIsNeverReplaced(w0, w, a, i);
    forall p | 0 <= p < |w'.procs| && Trusted(w'.procs[p])
      ensures w'.fs.inodes[i].clean && PemOf(w'.procs[p]) == w'.fs.inodes[i].vol.data
    {
      ResultIsFinal(w0, w, a, p);
      ResolvedPinParses(w0, w', p);
      if w.procs[p].res.None? { ResolutionSeesPin(w0, w, a, p); }
    }
  }

  lemma {:induction false} RunKeepsSettling(w0: World, acts: seq<Action>, i: nat)
    requires Init(w0) && RoundTrips(w0.env.pki) && Settling(w0, i)
    ensures Inv(w0, Run(w0, acts)) && Settling(Run(w0, acts), i)
  {
    if acts == [] {
      InitInv(w0);
    } else {
      RunKeepsSettling(w0, acts[..|acts| - 1], i);
      StepKeepsSettling(w0, Run(w0, acts[..|acts| - 1]), acts[|acts| - 1], i);
    }
  }

  lemma SettledPinMakesAgree(w0: World, acts: seq<Action>)
    requires Init(w0) && RoundTrips(w0.env.pki) && PinSettled(w0.env, w0.fs)
    ensures AllAgree(Run(w0, acts))
  {
    RunKeepsSettling(w0, acts, w0.fs.vol[Pin]);
    var w := Run(w0, acts);
    forall p, r | 0 <= p < |w.procs| && 0 <= r < |w.procs| && Trusted(w.procs[p]) && Trusted(w.procs[r])
      ensures Agrees(w.procs[p], w.procs[r])
    {
      FingerprintFollowsPem(w0, w, p, r);
    }
  }

  // All who resolve agree, in every run, exactly when the pin of the start is
  // settled. Otherwise one of them may trust a pin that is not on disk yet, and
  // a power loss takes it away or changes it.
  lemma AgreementIff(w0: World)
    requires Init(w0) && RoundTrips(w0.env.pki) && |w0.procs| >= 3
    requires CanStart(w0.env, w0.procs[0]) && CanStart(w0.env, w0.procs[1]) && CanStart(w0.env, w0.procs[2])
    ensures (forall acts :: AllAgree(Run(w0, acts))) <==> PinSettled(w0.env, w0.fs)
  {
    if PinSettled(w0.env, w0.fs) {
      forall acts ensures AllAgree(Run(w0, acts)) {
        SettledPinMakesAgree(w0, acts);
      }
    } else {
      SomeRunDisagrees(w0);
    }
  }
}
