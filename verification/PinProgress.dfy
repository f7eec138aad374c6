/**
 Every process finishes within a fixed number of its own calls, whatever the
 others do; and when nothing fails everybody succeeds.
 */
module PinProgress {
  import opened Prelude
  import opened PinFs
  import opened PinProtocol
  import opened PinInvariant
  import opened PinSafety
  import opened PinAgreement

  // An upper bound on the calls a process still makes.
  function Rank(pc: PC): nat {
    match pc
    case Start => 19
    case OpenPin(again) => if again then 4 else 18
    case ReadPin(again) => if again then 3 else 17
    case Fetch => 16
    case Mkdir => 15
    case CreateTemp => 14
    case Chmod => 13
    case Write => 12
    case SyncTemp => 11
    case CloseTemp => 10
    case AbortTemp => 6
    case Link => 9
    case OpenDir => 8
    case SyncDir => 7
    case CloseDir(_) => 6
    case RemoveTemp(_) => 5
    case ConnectPrimary => 2
    case ConnectAdmin => 1
    case Up => 0
    case Stopped => 0
    case Dead => 0
  }

  function Moves(acts: seq<Action>, p: nat): nat {
    if acts == [] then 0
    else
      var a := acts[|acts| - 1];
      Moves(acts[..|acts| - 1], p) + if a.Move? && a.p == p then 1 else 0
  }

  // The remaining work of all processes together.
  function TotalRank(procs: seq<Proc>): nat {
    if procs == [] then 0 else Rank(procs[0].pc) + TotalRank(procs[1..])
  }

  lemma LoadLowersRank(e: Env, fs: Fs, p: nat, q: Proc, c: Choice)
    requires StageOf(q.pc).Loading?
    ensures Rank(LoadCall(e, fs, p, q, c).q.pc) < Rank(q.pc)
  {
  }

  lemma TempLowersRank(e: Env, fs: Fs, p: nat, q: Proc, c: Choice)
    requires StageOf(q.pc).Preparing?
    ensures Rank(TempCall(e, fs, p, q, c).q.pc) < Rank(q.pc)
  {
  }

  lemma RemoveLowersRank(e: Env, q: Proc, out: Outcome)
    ensures Rank(AfterPublish(e, q, out).pc) < Rank(RemoveTemp(out))
  {
  }

  lemma PublishLowersRank(e: Env, fs: Fs, p: nat, q: Proc, c: Choice)
    requires StageOf(q.pc).Publishing?
    ensures Rank(PublishCall(e, fs, p, q, c).q.pc) < Rank(q.pc)
  {
    match q.pc
    case RemoveTemp(out) => RemoveLowersRank(e, q, out);
    case _ =>
  }

  lemma CallLowersRank(e: Env, fs: Fs, p: nat, q: Proc, c: Choice)
    requires !StageOf(q.pc).Over?
    ensures Rank(Call(e, fs, p, q, c).q.pc) < Rank(q.pc)
  {
    match StageOf(q.pc)
    case Loading => LoadLowersRank(e, fs, p, q, c);
    case Preparing => TempLowersRank(e, fs, p, q, c);
    case Publishing => PublishLowersRank(e, fs, p, q, c);
    case Connecting =>
  }

  lemma StepLowersRank(w: World, a: Action, p: nat)
    requires p < |w.procs|
    ensures Rank(Step(w, a).procs[p].pc) <= Rank(w.procs[p].pc)
    ensures a.Move? && a.p == p && Rank(w.procs[p].pc) > 0 ==>
      Rank(Step(w, a).procs[p].pc) < Rank(w.procs[p].pc)
  {
    if a.Move? && a.p == p && !StageOf(w.procs[p].pc).Over? { CallLowersRank(w.env, w.fs, p, w.procs[p], a.c); }
  }

  lemma {:induction false} TotalRankMonotone(a: seq<Proc>, b: seq<Proc>, p: nat)
    requires |a| == |b| && p <= |a|
    requires forall i | 0 <= i < |a| :: Rank(b[i].pc) <= Rank(a[i].pc)
    ensures TotalRank(b) <= TotalRank(a)
    ensures p < |a| && Rank(b[p].pc) < Rank(a[p].pc) ==> TotalRank(b) < TotalRank(a)
  {
    if a == [] {
    } else {
      TotalRankMonotone(a[1..], b[1..], if p == 0 then |a| - 1 else p - 1);
    }
  }

  // The work left never grows, and every call of a process that is not over
  // uses some of it up: the sum is a termination measure for any schedule.
  lemma WorkRunsOut(w: World, a: Action)
    ensures TotalRank(Step(w, a).procs) <= TotalRank(w.procs)
    ensures a.Move? && a.p < |w.procs| && !StageOf(w.procs[a.p].pc).Over? ==>
      TotalRank(Step(w, a).procs) < TotalRank(w.procs)
  {
    var w' := Step(w, a);
    forall p | 0 <= p < |w.procs| ensures Rank(w'.procs[p].pc) <= Rank(w.procs[p].pc) {
      StepLowersRank(w, a, p);
    }
    var p := if a.Move? && a.p < |w.procs| then a.p else |w.procs|;
    if p < |w.procs| { StepLowersRank(w, a, p); }
    TotalRankMonotone(w.procs, w'.procs, p);
  }

  // Nobody waits for anybody: a process that has been given 19 calls is over,
  // wherever the others are, crashed or not.
  lemma {:induction false} NobodyWaits(w: World, acts: seq<Action>, p: nat)
    requires p < |w.procs|
    ensures Rank(Run(w, acts).procs[p].pc) + Moves(acts, p) <= Rank(w.procs[p].pc)
         || StageOf(Run(w, acts).procs[p].pc).Over?
  {
    if acts == [] {
    } else {
      NobodyWaits(w, acts[..|acts| - 1], p);
      StepLowersRank(Run(w, acts[..|acts| - 1]), acts[|acts| - 1], p);
    }
  }

  // --- runs in which nothing fails ---

  // Every URL parses, and the https ones have a host name and a pin path.
  predicate WellConfigured(w: World) {
    forall p | 0 <= p < |w.procs| ::
      && w.procs[p].url.Url?
      && (w.procs[p].url.scheme == "https" ==> w.procs[p].url.hostname != "" && w.env.path != "")
  }

  predicate Smooth(w: World, a: Action) {
    match a
    case Move(p, c) => c.ok && (p < |w.procs| && w.procs[p].pc.CreateTemp? ==> Temp(c.id) !in w.fs.vol)
    case Crash(_) => false
    case LosePower => false
    case _ => true
  }

  predicate SmoothRun(w: World, acts: seq<Action>) {
    acts == [] || (SmoothRun(w, acts[..|acts| - 1]) && Smooth(Run(w, acts[..|acts| - 1]), acts[|acts| - 1]))
  }

  // Process p made the pin and is on its way to reporting it.
  predicate OnItsWay(q: Proc) {
    || q.pc.OpenDir? || q.pc.SyncDir? || q.pc == CloseDir(Created) || q.pc == RemoveTemp(Created)
    || FirstUse(q)
  }

  // No error so far, and nobody has lost the race to nobody.
  predicate Unharmed(fs: Fs, q: Proc) {
    && !q.pc.Stopped? && !q.pc.Dead? && !q.pc.AbortTemp?
    && q.pc != CloseDir(Broken) && q.pc != RemoveTemp(Broken) && q.pc != CloseDir(Lost)
    && (q.res.Some? ==> q.res.value.Resolved?)
    && (q.pc == OpenPin(true) || q.pc == RemoveTemp(Lost) ==> Pin in fs.vol)
    && (q.pc.ConnectPrimary? || q.pc.ConnectAdmin? || q.pc.Up? || q.res.None?)
  }

  ghost predicate AllSmooth(w: World) {
    && (forall p | 0 <= p < |w.procs| :: Unharmed(w.fs, w.procs[p]))
    && (Pin in w.fs.vol ==>
         exists p | 0 <= p < |w.procs| ::
           w.procs[p].temp.Some? && w.procs[p].temp.value.ino == w.fs.vol[Pin] && OnItsWay(w.procs[p]))
  }

  // A pin that nobody had at the start always parses.
  lemma NewPinParses(w0: World, w: World)
    requires Inv(w0, w) && Pin !in w0.fs.vol && RoundTrips(w0.env.pki) && Pin in w.fs.vol
    ensures w.fs.vol[Pin] < |w.fs.inodes|
    ensures w.env.pki.parse(w.fs.inodes[w.fs.vol[Pin]].vol.data).Some?
  {
  }

  // What a call needs so that it has no reason of its own to fail.
  predicate Fair(e: Env, fs: Fs, p: nat, q: Proc, c: Choice) {
    && ProcFit(e, fs, p, q)
    && Unharmed(fs, q)
    && q.url.Url? && (q.url.scheme == "https" ==> q.url.hostname != "" && e.path != "")
    && c.ok && (q.pc.CreateTemp? ==> Temp(c.id) !in fs.vol)
    && (Pin in fs.vol ==>
         fs.vol[Pin] < |fs.inodes| && e.pki.parse(fs.inodes[fs.vol[Pin]].vol.data).Some?)
  }

  lemma SmoothLoad(e: Env, fs: Fs, p: nat, q: Proc, c: Choice)
    requires Fair(e, fs, p, q, c) && StageOf(q.pc).Loading?
    ensures var x := LoadCall(e, fs, p, q, c); Unharmed(x.fs, x.q)
  {
  }

  lemma SmoothTemp(e: Env, fs: Fs, p: nat, q: Proc, c: Choice)
    requires Fair(e, fs, p, q, c) && StageOf(q.pc).Preparing?
    ensures var x := TempCall(e, fs, p, q, c); Unharmed(x.fs, x.q)
  {
  }

  lemma SmoothPublish(e: Env, fs: Fs, p: nat, q: Proc, c: Choice)
    requires Fair(e, fs, p, q, c) && StageOf(q.pc).Publishing?
    ensures var x := PublishCall(e, fs, p, q, c); Unharmed(x.fs, x.q)
  {
  }

  lemma SmoothCall(w0: World, w: World, p: nat, c: Choice)
    requires Inv(w0, w) && Pin !in w0.fs.vol && RoundTrips(w0.env.pki) && WellConfigured(w0)
    requires p < |w.procs| && Unharmed(w.fs, w.procs[p]) && Smooth(w, Move(p, c))
    ensures var x := Call(w.env, w.fs, p, w.procs[p], c); Unharmed(x.fs, x.q)
  {
    var q := w.procs[p];
    assert ProcFit(w.env, w.fs, p, q);
    assert SameInput(w0.procs[p], q);
    if Pin in w.fs.vol { NewPinParses(w0, w); }
    match StageOf(q.pc)
    case Loading => SmoothLoad(w.env, w.fs, p, q, c);
    case Preparing => SmoothTemp(w.env, w.fs, p, q, c);
    case Publishing => SmoothPublish(w.env, w.fs, p, q, c);
    case Connecting =>
    case Over =>
  }

  lemma StaysOnItsWay(w: World, p: nat, c: Choice)
    requires p < |w.procs| && OnItsWay(w.procs[p]) && c.ok
    requires ProcFit(w.env, w.fs, p, w.procs[p])
    ensures OnItsWay(Call(w.env, w.fs, p, w.procs[p], c).q)
  {
  }

  lemma LinkIsOnItsWay(w: World, p: nat, c: Choice)
    requires p < |w.procs| && ProcFit(w.env, w.fs, p, w.procs[p])
    ensures var x := Call(w.env, w.fs, p, w.procs[p], c);
            Pin in x.fs.vol && Pin !in w.fs.vol ==>
              OnItsWay(x.q) && x.q.temp.Some? && x.q.temp.value.ino == x.fs.vol[Pin]
  {
    var x := Call(w.env, w.fs, p, w.procs[p], c);
    if Pin in x.fs.vol && Pin !in w.fs.vol {
      assert w.procs[p].pc.Link?;
    }
  }

  lemma StepKeepsSmooth(w0: World, w: World, a: Action)
    requires Inv(w0, w) && Pin !in w0.fs.vol && RoundTrips(w0.env.pki) && WellConfigured(w0)
    requires AllSmooth(w) && Smooth(w, a)
    ensures AllSmooth(Step(w, a))
  {
    var w' := Step(w, a);
    if Pin in w.fs.vol { PinIsNeverReplaced(w0, w, a, w.fs.vol[Pin]); }
    if a.Move? && a.p < |w.procs| {
      var p, c := a.p, a.c;
      SmoothCall(w0, w, p, c);
      assert ProcFit(w.env, w.fs, p, w.procs[p]);
      if Pin in w.fs.vol {
        var r :| 0 <= r < |w.procs| && w.procs[r].temp.Some? &&
          w.procs[r].temp.value.ino == w.fs.vol[Pin] && OnItsWay(w.procs[r]);
        ResultIsFinal(w0, w, a, r);
        if r == p { StaysOnItsWay(w, p, c); }
        assert w'.procs[r].temp.Some? && OnItsWay(w'.procs[r]);
      } else if Pin in w'.fs.vol {
        LinkIsOnItsWay(w, p, c);
        assert w'.procs[p].temp.Some? && OnItsWay(w'.procs[p]);
      }
    }
  }

  lemma {:induction false} RunKeepsSmooth(w0: World, acts: seq<Action>)
    requires Init(w0) && Pin !in w0.fs.vol && RoundTrips(w0.env.pki) && WellConfigured(w0)
    requires SmoothRun(w0, acts)
    ensures AllSmooth(Run(w0, acts)) && NoPowerLoss(acts)
  {
    if acts == [] {
    } else {
      RunKeepsSmooth(w0, acts[..|acts| - 1]);
      RunKeepsInv(w0, acts[..|acts| - 1]);
      StepKeepsSmooth(w0, Run(w0, acts[..|acts| - 1]), acts[|acts| - 1]);
      assert acts == acts[..|acts| - 1] + [acts[|acts| - 1]];
    }
  }

  // No pin at the start, nothing fails, and every process is given its calls
  // in any order at all: everybody gets a client, those with an https target all
  // with one PEM and fingerprint, and exactly one of them reports first use.
  lemma EverybodySucceeds(w0: World, acts: seq<Action>)
    requires Init(w0) && Pin !in w0.fs.vol && RoundTrips(w0.env.pki) && WellConfigured(w0)
    requires SmoothRun(w0, acts)
    requires forall p | 0 <= p < |w0.procs| :: Moves(acts, p) >= Rank(Start)
    ensures var w := Run(w0, acts);
            && (forall p | 0 <= p < |w.procs| :: w.procs[p].pc.Up?)
            && (forall p | 0 <= p < |w.procs| && w0.procs[p].url.scheme == "https" :: Trusted(w.procs[p]))
            && (forall p, r | 0 <= p < |w.procs| && 0 <= r < |w.procs| && Trusted(w.procs[p]) && Trusted(w.procs[r]) ::
                 Agrees(w.procs[p], w.procs[r]))
            && ((exists p | 0 <= p < |w.procs| :: w0.procs[p].url.scheme == "https") ==>
                 exists p | 0 <= p < |w.procs| :: FirstUse(w.procs[p]))
            && AtMostOneFirstUse(w)
  {
    var w := Run(w0, acts);
    RunKeepsSmooth(w0, acts);
    RunKeepsInv(w0, acts);
    ResolversAgree(w0, acts);
    forall p | 0 <= p < |w.procs|
      ensures w.procs[p].pc.Up? && (w0.procs[p].url.scheme == "https" ==> Trusted(w.procs[p]))
    {
      NobodyWaits(w0, acts, p);
      assert Unharmed(w.fs, w.procs[p]) && ProcFit(w.env, w.fs, p, w.procs[p]);
      assert SameInput(w0.procs[p], w.procs[p]);
    }
    RunKeepsAllHoldPin(w0, acts);
    if p :| 0 <= p < |w.procs| && w0.procs[p].url.scheme == "https" {
      assert Trusted(w.procs[p]);
      assert Pin in w.fs.vol;
    }
  }
}
