/**
 Where first use is not unique. publishTargetCertificate syncs the pin's own
 directory, but never the directory above it, in which that directory itself is
 an entry. After a power loss a directory that is not on disk, and the pin in
 it, may be gone, and the next process trusts on first use again. First use is
 unique in every run exactly when the directory is on disk at the start; that
 it is there does not suffice.
 */
module PinDurability {
  import opened Prelude
  import opened PinFs
  import opened PinProtocol
  import opened PinInvariant
  import opened PinSafety
  import opened PinAgreement

  function Iterate(f: Effect -> Effect, x: Effect, n: nat): Effect {
    if n == 0 then x else f(Iterate(f, x, n - 1))
  }

  function CallOf(e: Env, p: nat, c: Choice): Effect -> Effect {
    (x: Effect) => Call(e, x.fs, p, x.q, c)
  }

  // n calls of one process on its own.
  function Calls(e: Env, fs: Fs, p: nat, q: Proc, c: Choice, n: nat): Effect {
    Iterate(CallOf(e, p, c), Effect(fs, q), n)
  }

  function Alone(p: nat, c: Choice, n: nat): seq<Action> {
    if n == 0 then [] else Alone(p, c, n - 1) + [Move(p, c)]
  }

  lemma RunOne(w: World, acts: seq<Action>, a: Action)
    ensures Run(w, acts + [a]) == Step(Run(w, acts), a)
  {
    assert (acts + [a])[..|acts|] == acts;
  }

  lemma {:induction false} AloneIsCalls(w: World, p: nat, c: Choice, n: nat)
    requires p < |w.procs|
    ensures Run(w, Alone(p, c, n)) == Apply(w, p, Calls(w.env, w.fs, p, w.procs[p], c, n))
  {
    if n == 0 {
      assert w.procs[p := w.procs[p]] == w.procs;
    } else {
      AloneIsCalls(w, p, c, n - 1);
      RunOne(w, Alone(p, c, n - 1), Move(p, c));
      OneMore(w.env, w.fs, p, w.procs[p], c, n - 1);
      MoveAfter(w, p, Calls(w.env, w.fs, p, w.procs[p], c, n - 1), c);
    }
  }

  lemma MoveAfter(w: World, p: nat, x: Effect, c: Choice)
    requires p < |w.procs|
    ensures Step(Apply(w, p, x), Move(p, c)) == Apply(w, p, Call(w.env, x.fs, p, x.q, c))
  {
    var x' := Call(w.env, x.fs, p, x.q, c);
    assert w.procs[p := x.q][p := x'.q] == w.procs[p := x'.q];
  }

  predicate CanStart(e: Env, q: Proc) {
    Fresh(q) && UsesTls(q) && q.url.hostname != "" && e.path != ""
  }

  // No pin, and no name in the way of the temporary file.
  predicate Clear(fs: Fs, id: nat) {
    Pin !in fs.vol && Temp(id) !in fs.vol
  }

  // And a directory that is missing or not on disk.
  predicate Exposed(fs: Fs, id: nat) {
    Clear(fs, id) && !fs.dirDurable
  }

  // The file a process has made is there, and nothing of it is on disk by name.
  predicate Named(fs: Fs, n: Name, i: nat, data: seq<byte>) {
    n in fs.vol && fs.vol[n] == i < |fs.inodes| && fs.inodes[i].vol.data == data
  }

  // What the steps before the directory sync leave of the disk.
  predicate DiskBehind(fs: Fs, fs': Fs) {
    && fs'.dur == fs.dur
    && (!fs.dirDurable ==> !fs'.dirDurable)
    && (fs.dirDurable && fs.dirExists ==> fs'.dirDurable && fs'.dirExists)
  }

  lemma OneMore(e: Env, fs: Fs, p: nat, q: Proc, c: Choice, n: nat)
    ensures var x := Calls(e, fs, p, q, c, n);
            Calls(e, fs, p, q, c, n + 1) == Call(e, x.fs, p, x.q, c)
  {
  }

  // A process that is alone has the directory after four calls, its temporary
  // file after five ...
  lemma MakesDirectory(e: Env, fs: Fs, p: nat, q: Proc, c: Choice)
    requires CanStart(e, q) && Pin !in fs.vol && c.ok
    ensures Calls(e, fs, p, q, c, 4) == Effect(MkdirAll(fs), q.(pc := PC.CreateTemp, cand := Some(c.cert)))
  {
    OneMore(e, fs, p, q, c, 0);
    assert Calls(e, fs, p, q, c, 1) == Effect(fs, q.(pc := OpenPin(false)));
    OneMore(e, fs, p, q, c, 1);
    assert Calls(e, fs, p, q, c, 2) == Effect(fs, q.(pc := Fetch));
    OneMore(e, fs, p, q, c, 2);
    assert Calls(e, fs, p, q, c, 3) == Effect(fs, q.(pc := Mkdir, cand := Some(c.cert)));
    OneMore(e, fs, p, q, c, 3);
  }

  lemma MakesTemp(e: Env, fs: Fs, p: nat, q: Proc, c: Choice)
    requires CanStart(e, q) && Clear(fs, c.id) && c.ok
    ensures var x := Calls(e, fs, p, q, c, 5);
            && x.q == q.(pc := Chmod, cand := Some(c.cert), temp := Some(TempFile(c.id, |fs.inodes|)))
            && DiskBehind(fs, x.fs)
            && x.fs.vol == fs.vol[Temp(c.id) := |fs.inodes|]
            && |x.fs.inodes| == |fs.inodes| + 1
  {
    MakesDirectory(e, fs, p, q, c);
    OneMore(e, fs, p, q, c, 4);
  }

  // ... fills it in three ...
  lemma FillsTemp(e: Env, fs: Fs, p: nat, q: Proc, c: Choice)
    requires q.pc.Chmod? && HasTemp(fs, q) && c.ok
    ensures var x := Calls(e, fs, p, q, c, 3);
            && x.q == q.(pc := CloseTemp)
            && DiskBehind(fs, x.fs) && x.fs.vol == fs.vol && |x.fs.inodes| == |fs.inodes|
            && x.fs.inodes[q.temp.value.ino].vol.data == e.pki.encode(q.cand.value)
  {
    OneMore(e, fs, p, q, c, 0);
    assert Calls(e, fs, p, q, c, 1).q == q.(pc := Write);
    OneMore(e, fs, p, q, c, 1);
    assert Calls(e, fs, p, q, c, 2).q == q.(pc := SyncTemp);
    OneMore(e, fs, p, q, c, 2);
  }

  // ... publishes it in two ...
  lemma Publishes(e: Env, fs: Fs, p: nat, q: Proc, c: Choice)
    requires q.pc.CloseTemp? && q.temp.Some? && c.ok
    requires Temp(q.temp.value.id) in fs.vol && Pin !in fs.vol
    ensures var x := Calls(e, fs, p, q, c, 2);
            && x.q == q.(pc := OpenDir)
            && DiskBehind(fs, x.fs) && x.fs.inodes == fs.inodes
            && x.fs.vol == fs.vol[Pin := fs.vol[Temp(q.temp.value.id)]]
  {
    OneMore(e, fs, p, q, c, 0);
    assert Calls(e, fs, p, q, c, 1).q == q.(pc := Link);
    OneMore(e, fs, p, q, c, 1);
  }

  // ... and reports first use after four more.
  lemma Reports(e: Env, fs: Fs, p: nat, q: Proc, c: Choice)
    requires q.pc.OpenDir? && q.cand.Some? && c.ok
    ensures var x := Calls(e, fs, p, q, c, 4);
            && FirstUse(x.q) && PemOf(x.q) == e.pki.encode(q.cand.value) && x.q.url == q.url
            && x.fs.dirDurable == fs.dirDurable
  {
    OneMore(e, fs, p, q, c, 0);
    assert Calls(e, fs, p, q, c, 1).q == q.(pc := PC.SyncDir);
    OneMore(e, fs, p, q, c, 1);
    assert Calls(e, fs, p, q, c, 2).q == q.(pc := CloseDir(Created));
    OneMore(e, fs, p, q, c, 2);
    assert Calls(e, fs, p, q, c, 3).q == q.(pc := RemoveTemp(Created));
    OneMore(e, fs, p, q, c, 3);
  }

  lemma {:induction false} IterateCompose(f: Effect -> Effect, x: Effect, m: nat, n: nat)
    ensures Iterate(f, x, m + n) == Iterate(f, Iterate(f, x, m), n)
  {
    if n == 0 {
    } else {
      IterateCompose(f, x, m, n - 1);
    }
  }

  // A process on its own has its whole file under its temporary name after
  // eight calls ...
  lemma FillsAlone(e: Env, fs: Fs, p: nat, q: Proc, c: Choice)
    requires CanStart(e, q) && Clear(fs, c.id) && c.ok
    ensures var x := Calls(e, fs, p, q, c, 8);
            && x.q == q.(pc := CloseTemp, cand := Some(c.cert), temp := Some(TempFile(c.id, |fs.inodes|)))
            && DiskBehind(fs, x.fs) && Pin !in x.fs.vol
            && Named(x.fs, Temp(c.id), |fs.inodes|, e.pki.encode(c.cert))
  {
    MakesTemp(e, fs, p, q, c);
    var y := Calls(e, fs, p, q, c, 5);
    FillsTemp(e, y.fs, p, y.q, c);
    IterateCompose(CallOf(e, p, c), Effect(fs, q), 5, 3);
  }

  // ... and under the pin's name after ten, and nothing of that is on disk by
  // name.
  lemma LinksAlone(e: Env, fs: Fs, p: nat, q: Proc, c: Choice)
    requires CanStart(e, q) && Clear(fs, c.id) && c.ok
    ensures var x := Calls(e, fs, p, q, c, 10);
            && x.q == q.(pc := OpenDir, cand := Some(c.cert), temp := Some(TempFile(c.id, |fs.inodes|)))
            && DiskBehind(fs, x.fs)
            && Named(x.fs, Pin, |fs.inodes|, e.pki.encode(c.cert))
  {
    FillsAlone(e, fs, p, q, c);
    var y := Calls(e, fs, p, q, c, 8);
    Publishes(e, y.fs, p, y.q, c);
    IterateCompose(CallOf(e, p, c), Effect(fs, q), 8, 2);
  }

  lemma CallsAlone(e: Env, fs: Fs, p: nat, q: Proc, c: Choice)
    requires CanStart(e, q) && Clear(fs, c.id) && c.ok
    ensures var x := Calls(e, fs, p, q, c, 14);
            && FirstUse(x.q) && PemOf(x.q) == e.pki.encode(c.cert) && x.q.url == q.url
            && (!fs.dirDurable ==> !x.fs.dirDurable)
  {
    var f, x := CallOf(e, p, c), Effect(fs, q);
    LinksAlone(e, fs, p, q, c);
    var y := Iterate(f, x, 10);
    Reports(e, y.fs, p, y.q, c);
    IterateCompose(f, x, 10, 4);
  }

  lemma AloneTrustsOnFirstUse(w: World, p: nat, c: Choice)
    requires p < |w.procs| && CanStart(w.env, w.procs[p]) && Clear(w.fs, c.id) && c.ok
    ensures var w' := Run(w, Alone(p, c, 14));
            && FirstUse(w'.procs[p]) && Trusted(w'.procs[p]) && PemOf(w'.procs[p]) == w.env.pki.encode(c.cert)
            && (!w.fs.dirDurable ==> !w'.fs.dirDurable)
            && (forall r | 0 <= r < |w.procs| && r != p :: w'.procs[r] == w.procs[r])
  {
    AloneIsCalls(w, p, c, 14);
    CallsAlone(w.env, w.fs, p, w.procs[p], c);
  }

  // Two processes, one after the other, with a power loss between them.
  function TwoFirstUses(c: Choice): seq<Action> {
    Alone(0, c, 14) + [LosePower] + Alone(1, c, 14)
  }

  lemma ExposedAllowsTwo(w0: World, c: Choice)
    requires |w0.procs| >= 2 && CanStart(w0.env, w0.procs[0]) && CanStart(w0.env, w0.procs[1])
    requires Exposed(w0.fs, c.id) && c.ok
    ensures var w := Run(w0, TwoFirstUses(c)); FirstUse(w.procs[0]) && FirstUse(w.procs[1])
    // The pin that process 0 reported is gone after the power loss.
    ensures var w := Run(w0, Alone(0, c, 14) + [LosePower]); FirstUse(w.procs[0]) && Pin !in w.fs.vol
  {
    AloneTrustsOnFirstUse(w0, 0, c);
    var w1 := Run(w0, Alone(0, c, 14));
    var w2 := Step(w1, LosePower);
    RunOne(w0, Alone(0, c, 14), LosePower);
    AloneTrustsOnFirstUse(w2, 1, c);
    RunConcat(w0, Alone(0, c, 14) + [LosePower], Alone(1, c, 14));
  }

  lemma MissingDirectoryAllowsTwo(w0: World, c: Choice)
    requires Init(w0) && !w0.fs.dirExists && |w0.procs| >= 2 && c.ok
    requires CanStart(w0.env, w0.procs[0]) && CanStart(w0.env, w0.procs[1])
    ensures var w := Run(w0, TwoFirstUses(c)); FirstUse(w.procs[0]) && FirstUse(w.procs[1])
    ensures var w := Run(w0, Alone(0, c, 14) + [LosePower]); FirstUse(w.procs[0]) && Pin !in w.fs.vol
  {
    ExposedAllowsTwo(w0, c);
  }

  // That the directory is there does not help if it is not on disk.
  lemma UnsyncedDirectoryAllowsTwo(w0: World, c: Choice)
    requires Init(w0) && w0.fs.dirExists && !w0.fs.dirDurable && w0.fs.vol == map[] && |w0.procs| >= 2 && c.ok
    requires CanStart(w0.env, w0.procs[0]) && CanStart(w0.env, w0.procs[1])
    ensures var w := Run(w0, TwoFirstUses(c)); FirstUse(w.procs[0]) && FirstUse(w.procs[1])
    ensures var w := Run(w0, Alone(0, c, 14) + [LosePower]); FirstUse(w.procs[0]) && Pin !in w.fs.vol
  {
    ExposedAllowsTwo(w0, c);
  }

  // A start, then a power loss, from any start without a durable directory.
  lemma PowerLossExposes(w0: World)
    requires Init(w0) && !w0.fs.dirDurable
    ensures var w := Run(w0, [LosePower]);
            && w.procs == w0.procs && w.env == w0.env
            && w.fs.dur == map[] && forall id :: Exposed(w.fs, id)
  {
    RunOne(w0, [], LosePower);
    assert [] + [LosePower] == [LosePower];
    var w := Step(w0, LosePower);
    assert w.procs == w0.procs;
  }

  lemma NotUniqueWhenExposed(w0: World, c: Choice)
    requires Init(w0) && !w0.fs.dirDurable && |w0.procs| >= 2 && c.ok
    requires CanStart(w0.env, w0.procs[0]) && CanStart(w0.env, w0.procs[1])
    ensures !AtMostOneFirstUse(Run(w0, [LosePower] + TwoFirstUses(c)))
  {
    PowerLossExposes(w0);
    ExposedAllowsTwo(Run(w0, [LosePower]), c);
    RunConcat(w0, [LosePower], TwoFirstUses(c));
  }

  lemma FirstUseIsUniqueIff(w0: World)
    requires Init(w0) && |w0.procs| >= 2
    requires CanStart(w0.env, w0.procs[0]) && CanStart(w0.env, w0.procs[1])
    ensures (forall acts :: AtMostOneFirstUse(Run(w0, acts))) <==> w0.fs.dirDurable
  {
    if w0.fs.dirDurable {
      forall acts ensures AtMostOneFirstUse(Run(w0, acts)) {
        RunKeepsFirstUses(w0, acts);
        FirstUsesLastIsUnique(w0, Run(w0, acts));
      }
    } else {
      var c := Choice(true, Cert([]), 0, 0, true);
      NotUniqueWhenExposed(w0, c);
    }
  }
}
