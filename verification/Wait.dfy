/**
 Waiting for an Incus operation against a timer, twice: `waitResult` with a
 worker that sends on one of two one-slot channels, and `WaitOperation` with a
 worker that fills shared variables and closes a channel. Each is a step
 system over the worker, the selecting caller and the clock, with every choice
 in the action, and both refine the same specification.
 */
module Wait {
  import opened Prelude

  datatype Operation = Operation(
    id: string,
    status: string,
    resources: Option<map<string, seq<string>>>,
    metadata: Option<map<string, string>>)

  const RUNNING := "running"

  // What MCP clients can validate: both maps are objects, not null.
  predicate McpReady(op: Operation) {
    op.resources.Some? && op.metadata.Some?
  }

  function Normal(op: Operation): Operation {
    op.(resources := if op.resources.None? then Some(map[]) else op.resources,
        metadata := if op.metadata.None? then Some(map[]) else op.metadata)
  }

  // The operation as the program holds it, by reference.
  class OperationRef {
    var id: string
    var status: string
    var resources: Option<map<string, seq<string>>>
    var metadata: Option<map<string, string>>

    constructor (op: Operation)
      ensures View() == op
    {
      id, status, resources, metadata := op.id, op.status, op.resources, op.metadata;
    }

    function View(): Operation reads this {
      Operation(id, status, resources, metadata)
    }
  }

  // mcpOperation: fills its argument in place and returns it.
  method McpOperation(operation: OperationRef) returns (r: OperationRef)
    modifies operation
    ensures r == operation
    ensures McpReady(operation.View())
    ensures operation.id == old(operation.id) && operation.status == old(operation.status)
    ensures old(operation.resources).Some? ==> operation.resources == old(operation.resources)
    ensures old(operation.metadata).Some? ==> operation.metadata == old(operation.metadata)
    ensures old(operation.resources).None? ==> operation.resources == Some(map[])
    ensures old(operation.metadata).None? ==> operation.metadata == Some(map[])
    ensures operation.View() == Normal(old(operation.View()))
  {
    if operation.resources.None? {
      operation.resources := Some(map[]);
    }
    if operation.metadata.None? {
      operation.metadata := Some(map[]);
    }
    r := operation;
  }

  // --- the specification both implementations meet ---

  datatype Outcome = Success(op: Operation) | Failure(cause: string)

  datatype Reply = Running(id: string) | Final(op: Operation) | Failed(cause: string)

  datatype Spec = Spec(outcome: Option<Outcome>, expired: bool, reply: Option<Reply>)

  predicate SpecInit(s: Spec) {
    s.outcome.None? && s.reply.None?
  }

  // A reply must have its reason: the outcome, or the timer.
  predicate Justified(outcome: Option<Outcome>, expired: bool, r: Reply) {
    match r
    case Running(_) => expired
    case Final(op) => outcome == Some(Success(op))
    case Failed(cause) => outcome == Some(Failure(cause))
  }

  // The outcome is published once, the timer expires once, and the caller
  // replies once, at any time and in any order, also after the reply.
  predicate SpecNext(s: Spec, s': Spec) {
    || s' == s
    || (s.outcome.None? && s'.outcome.Some? && s' == s.(outcome := s'.outcome))
    || (s' == s.(expired := true))
    || (s.reply.None? && s'.reply.Some? && s' == s.(reply := s'.reply)
        && Justified(s.outcome, s.expired, s'.reply.value))
  }

  // --- waitResult ---

  datatype Worker = Waiting | Getting | SendDone(op: Operation) | SendErr(cause: string) | Ended

  datatype State = State(
    timeout: int64,                // nanoseconds, a time.Duration
    worker: Worker,
    done: seq<Operation>,          // channel of capacity 1
    errCh: seq<string>,            // channel of capacity 1
    elapsed: nat,                  // nanoseconds
    reply: Option<Reply>,
    returned: Option<Operation>,   // the operation the caller got back
    waited: Option<Option<string>>,// what Wait returned
    sent: seq<Outcome>)            // every message sent, in order

  datatype Action =
    | WaitReturns(err: Option<string>)
    | GetReturns(op: Operation)
    | Send
    | Tick(n: nat)
    | PickDone
    | PickErr
    | PickTimer(cur: Operation)

  const SECOND: int := 1_000_000_000

  // time.Duration(seconds) * time.Second, in 64 bits.
  function Nanoseconds(seconds: int64): int64 {
    Wrap(seconds * SECOND)
  }

  const LONGEST: int64 := 9223372036   // the most seconds a Duration can hold

  // A duration is what was asked for, or wrapped around; and beyond the longest
  // it is always shorter.
  lemma DurationIsExactIff(seconds: int64)
    ensures Nanoseconds(seconds) == seconds * 1_000_000_000 <==> -9223372036 <= seconds <= 9223372036
    ensures seconds > 9223372036 ==> Nanoseconds(seconds) < seconds * 1_000_000_000
    // The two always differ by a multiple of 2^64.
    ensures (seconds * 1_000_000_000 - Nanoseconds(seconds)) % 0x1_0000_0000_0000_0000 == 0
  {
    WrapsByTurns(seconds * 1_000_000_000);
    NoRemainder((seconds * 1_000_000_000 + 0x8000_0000_0000_0000) / 0x1_0000_0000_0000_0000);
  }

  lemma WrapsByTurns(n: int)
    ensures n - Wrap(n) == (n + 0x8000_0000_0000_0000) / 0x1_0000_0000_0000_0000 * 0x1_0000_0000_0000_0000
  {
  }

  lemma NoRemainder(turns: int)
    ensures turns * 0x1_0000_0000_0000_0000 % 0x1_0000_0000_0000_0000 == 0
  {
  }

  // The timeout in seconds that applies: the caller's if it has one.
  function Asked(configured: int64, override: int64): int64 {
    if override > 0 then override else configured
  }

  function EffectiveTimeout(configured: int64, override: int64): int64 {
    Nanoseconds(Asked(configured, override))
  }

  function Start(configured: int64, override: int64): State {
    State(EffectiveTimeout(configured, override), Waiting, [], [], 0, None, None, None, [])
  }

  function Step(s: State, a: Action): State {
    match a
    case WaitReturns(err) =>
      if !s.worker.Waiting? then s
      else if err.Some? then s.(worker := SendErr(err.value), waited := Some(err))
      else s.(worker := Getting, waited := Some(err))
    case GetReturns(op) =>
      if s.worker.Getting? then s.(worker := SendDone(Normal(op))) else s
    case Send =>
      // A send on a full channel blocks.
      if s.worker.SendDone? && |s.done| < 1 then
        s.(worker := Ended, done := s.done + [s.worker.op], sent := s.sent + [Success(s.worker.op)])
      else if s.worker.SendErr? && |s.errCh| < 1 then
        s.(worker := Ended, errCh := s.errCh + [s.worker.cause], sent := s.sent + [Failure(s.worker.cause)])
      else s
    case Tick(n) => s.(elapsed := s.elapsed + n)
    case PickDone =>
      if s.reply.Some? || s.done == [] then s
      else s.(reply := Some(Final(s.done[0])), returned := Some(s.done[0]), done := s.done[1..])
    case PickErr =>
      if s.reply.Some? || s.errCh == [] then s
      else s.(reply := Some(Failed(s.errCh[0])), errCh := s.errCh[1..])
    case PickTimer(cur) =>
      if s.reply.Some? || s.elapsed < s.timeout then s
      else
        s.(reply := Some(Running(cur.id)),
           returned := Some(Normal(Operation(cur.id, RUNNING, None, None))))
  }

  function Run(s: State, acts: seq<Action>): State {
    if acts == [] then s else Step(Run(s, acts[..|acts| - 1]), acts[|acts| - 1])
  }

  function View(s: State): Spec {
    Spec(if s.sent == [] then None else Some(s.sent[0]), s.elapsed >= s.timeout, s.reply)
  }

  predicate Sending(w: Worker) {
    w.SendDone? || w.SendErr?
  }

  predicate Inv(s: State) {
    && (s.worker.Waiting? <==> s.waited.None?)
    && (s.worker.Getting? || s.worker.SendDone? ==> s.waited == Some(None))
    && (s.worker.SendErr? ==> s.waited == Some(Some(s.worker.cause)))
    && (s.worker.SendDone? ==> McpReady(s.worker.op))
    && |s.sent| == (if s.worker.Ended? then 1 else 0)
    && (s.sent == [] ==> s.done == [] && s.errCh == [])
    && (s.sent != [] ==> match s.sent[0]
          case Success(op) =>
            s.waited == Some(None) && s.errCh == [] && McpReady(op) && (s.done == [] || s.done == [op])
          case Failure(cause) =>
            s.waited == Some(Some(cause)) && s.done == [] && (s.errCh == [] || s.errCh == [cause]))
    && (s.reply.Some? ==> match s.reply.value
          case Running(id) =>
            && s.elapsed >= s.timeout
            && s.returned.Some?
            && s.returned.value.id == id && s.returned.value.status == RUNNING
            && McpReady(s.returned.value)
          case Final(op) => s.sent == [Success(op)] && s.returned == Some(op)
          case Failed(cause) => s.sent == [Failure(cause)] && s.returned.None?)
    && (s.reply.None? ==>
         && s.returned.None?
         && (s.sent != [] && s.sent[0].Success? ==> s.done == [s.sent[0].op])
         && (s.sent != [] && s.sent[0].Failure? ==> s.errCh == [s.sent[0].cause]))
  }

  lemma StepInv(s: State, a: Action)
    requires Inv(s)
    ensures Inv(Step(s, a)) && Step(s, a).timeout == s.timeout
  {
  }

  lemma {:induction false} RunInv(configured: int64, override: int64, acts: seq<Action>)
    ensures Inv(Run(Start(configured, override), acts))
    ensures Run(Start(configured, override), acts).timeout == EffectiveTimeout(configured, override)
  {
    if acts == [] {
    } else {
      RunInv(configured, override, acts[..|acts| - 1]);
      StepInv(Run(Start(configured, override), acts[..|acts| - 1]), acts[|acts| - 1]);
    }
  }

  // "running" only after the duration of the timer, a final state only if Wait
  // succeeded, an error only if Wait failed with it; and what is returned can
  // be validated by an MCP client. How the duration relates to the seconds that
  // were asked for: `RunningIsNeverEarlyIff`.
  lemma WaitResultIsJustified(configured: int64, override: int64, acts: seq<Action>)
    ensures var s := Run(Start(configured, override), acts);
            s.reply.Some? ==>
              match s.reply.value
              case Running(id) =>
                && s.elapsed >= Nanoseconds(if override > 0 then override else configured)
                && s.returned.Some? && s.returned.value.id == id && s.returned.value.status == "running"
                && McpReady(s.returned.value)
              case Final(op) => s.waited == Some(None) && s.returned == Some(op) && McpReady(op)
              case Failed(cause) => s.waited == Some(Some(cause)) && s.returned.None?
  {
    RunInv(configured, override, acts);
  }

  // --- what a reply says ---

  // `op` is `got` with the missing maps filled in.
  predicate Carries(got: Operation, op: Operation) {
    && op.id == got.id && op.status == got.status
    && op.resources == (if got.resources.Some? then got.resources else Some(map[]))
    && op.metadata == (if got.metadata.Some? then got.metadata else Some(map[]))
  }

  // Get has returned what `op` carries.
  predicate WasGot(acts: seq<Action>, op: Operation) {
    exists i | 0 <= i < |acts| :: acts[i].GetReturns? && Carries(acts[i].op, op)
  }

  predicate WasRaised(acts: seq<Action>, cause: string) {
    exists i | 0 <= i < |acts| :: acts[i] == WaitReturns(Some(cause))
  }

  // Whatever the worker is about to send, or has sent, it has got.
  predicate Sourced(s: State, acts: seq<Action>) {
    && (s.worker.SendDone? ==> WasGot(acts, s.worker.op))
    && (s.worker.SendErr? ==> WasRaised(acts, s.worker.cause))
    && (s.done != [] ==> WasGot(acts, s.done[0]))
    && (s.errCh != [] ==> WasRaised(acts, s.errCh[0]))
  }

  lemma MoreActions(acts: seq<Action>, a: Action)
    ensures forall op :: WasGot(acts, op) ==> WasGot(acts + [a], op)
    ensures forall cause :: WasRaised(acts, cause) ==> WasRaised(acts + [a], cause)
    ensures a.GetReturns? ==> WasGot(acts + [a], Normal(a.op))
    ensures a.WaitReturns? && a.err.Some? ==> WasRaised(acts + [a], a.err.value)
  {
    var more := acts + [a];
    assert more[|acts|] == a;
    forall op | WasGot(acts, op) ensures WasGot(more, op) {
      var i :| 0 <= i < |acts| && acts[i].GetReturns? && Carries(acts[i].op, op);
      assert more[i] == acts[i];
    }
    forall cause | WasRaised(acts, cause) ensures WasRaised(more, cause) {
      var i :| 0 <= i < |acts| && acts[i] == WaitReturns(Some(cause));
      assert more[i] == acts[i];
    }
  }

  lemma StepKeepsSourced(s: State, acts: seq<Action>, a: Action)
    requires Inv(s) && Sourced(s, acts)
    ensures Sourced(Step(s, a), acts + [a])
  {
    MoreActions(acts, a);
  }

  lemma {:induction false} RunIsSourced(configured: int64, override: int64, acts: seq<Action>)
    ensures Sourced(Run(Start(configured, override), acts), acts)
  {
    if acts == [] {
    } else {
      var before := acts[..|acts| - 1];
      RunIsSourced(configured, override, before);
      RunInv(configured, override, before);
      StepKeepsSourced(Run(Start(configured, override), before), before, acts[|acts| - 1]);
      assert before + [acts[|acts| - 1]] == acts;
    }
  }

  // The step that makes the reply: "running" has the ID that Get gave when the
  // timer fired and nothing else of it; a final state is what Get returned to
  // the worker, with missing maps filled in; an error is the one of Wait.
  lemma ReplySaysWhatGetGave(configured: int64, override: int64, acts: seq<Action>, a: Action)
    ensures var s := Run(Start(configured, override), acts);
            var s' := Step(s, a);
            s.reply.None? && s'.reply.Some? ==>
              && (s'.reply.value.Running? ==>
                   && a.PickTimer? && s'.reply.value.id == a.cur.id
                   && s'.returned == Some(Operation(a.cur.id, "running", Some(map[]), Some(map[]))))
              && (s'.reply.value.Final? ==>
                   && a.PickDone? && s'.returned == Some(s'.reply.value.op)
                   && WasGot(acts, s'.reply.value.op))
              && (s'.reply.value.Failed? ==>
                   && a.PickErr? && s'.returned.None?
                   && WasRaised(acts, s'.reply.value.cause))
  {
    RunIsSourced(configured, override, acts);
    RunInv(configured, override, acts);
  }

  // Whoever gets "running" has waited as many seconds as were asked for. The
  // clock only goes on, so to say it of every run is to say it of the moment of
  // every reply.
  ghost predicate NeverEarly(configured: int64, override: int64) {
    forall acts ::
      var s := Run(Start(configured, override), acts);
      s.reply.Some? && s.reply.value.Running? ==>
        s.elapsed >= (if override > 0 then override else configured) * 1_000_000_000
  }

  lemma RunningIsNeverEarlyIff(configured: int64, override: int64)
    ensures NeverEarly(configured, override) <==> (if override > 0 then override else configured) <= 9223372036
  {
    var seconds := Asked(configured, override);
    DurationIsExactIff(seconds);
    if seconds <= LONGEST {
      forall acts
        ensures var s := Run(Start(configured, override), acts);
                s.reply.Some? && s.reply.value.Running? ==> s.elapsed >= seconds * 1_000_000_000
      {
        WaitResultIsJustified(configured, override, acts);
      }
    } else {
      TimerGivesRunning(configured, override, "");
    }
  }

  // As soon as the timer fires, "running" can be the reply.
  lemma TimerGivesRunning(configured: int64, override: int64, id: string)
    ensures var t := EffectiveTimeout(configured, override);
            var late: nat := if t > 0 then t else 0;
            var s := Run(Start(configured, override), [Tick(late), PickTimer(Operation(id, "", None, None))]);
            s.reply == Some(Running(id)) && s.elapsed == late
  {
    var t := EffectiveTimeout(configured, override);
    var late: nat := if t > 0 then t else 0;
    var acts := [Tick(late), PickTimer(Operation(id, "", None, None))];
    Unfold2(Start(configured, override), acts);
  }

  // So can every final state that can be validated, and every error.
  lemma WorkerGivesFinal(configured: int64, override: int64, op: Operation)
    requires McpReady(op)
    ensures Run(Start(configured, override), [WaitReturns(None), GetReturns(op), Send, PickDone]).reply == Some(Final(op))
  {
    Unfold4(Start(configured, override), [WaitReturns(None), GetReturns(op), Send, PickDone]);
  }

  lemma WorkerGivesError(configured: int64, override: int64, cause: string)
    ensures Run(Start(configured, override), [WaitReturns(Some(cause)), Send, PickErr]).reply == Some(Failed(cause))
  {
    Unfold3(Start(configured, override), [WaitReturns(Some(cause)), Send, PickErr]);
  }

  // 9223372037 seconds, and "running" is returned at once; 18446744074, some
  // 584 years, and it is returned after a third of a second.
  lemma RunningCanBeEarly(configured: int64)
    ensures Nanoseconds(9223372037) < 0 && Nanoseconds(18446744074) == 290448384
    ensures exists acts ::
      var s := Run(Start(configured, 9223372037), acts); s.reply == Some(Running("")) && s.elapsed == 0
    ensures exists acts ::
      var s := Run(Start(configured, 18446744074), acts); s.reply == Some(Running("")) && s.elapsed == 290448384
  {
    TimerGivesRunning(configured, 9223372037, "");
    TimerGivesRunning(configured, 18446744074, "");
  }

  // The worker never blocks: once Wait has returned it needs its own two
  // steps and nothing else, whether or not the caller is still there. It sends
  // once, on one channel.
  lemma WorkerNeverBlocks(configured: int64, override: int64, acts: seq<Action>, op: Operation)
    ensures var s := Run(Start(configured, override), acts);
            && (s.waited.Some? ==> Step(Step(s, GetReturns(op)), Send).worker.Ended?)
            && (Sending(s.worker) ==> Step(s, Send).worker.Ended?)
            && |s.sent| == (if s.worker.Ended? then 1 else 0)
            && !(s.done != [] && s.errCh != [])
  {
    RunInv(configured, override, acts);
  }

  // The caller is never stuck once the timer or the worker has come through.
  lemma CallerCanReply(configured: int64, override: int64, acts: seq<Action>, cur: Operation)
    ensures var s := Run(Start(configured, override), acts);
            s.worker.Ended? || s.elapsed >= s.timeout ==>
              || Step(s, PickDone).reply.Some?
              || Step(s, PickErr).reply.Some?
              || Step(s, PickTimer(cur)).reply.Some?
  {
    RunInv(configured, override, acts);
  }

  lemma WaitResultRefines(configured: int64, override: int64, acts: seq<Action>, a: Action)
    ensures SpecInit(View(Start(configured, override)))
    ensures var s := Run(Start(configured, override), acts); SpecNext(View(s), View(Step(s, a)))
  {
    RunInv(configured, override, acts);
    RunInv(configured, override, acts + [a]);
    assert (acts + [a])[..|acts|] == acts;
  }

  // Exactly these replies can be had: every error, every "running", and every
  // final state that an MCP client can validate.
  lemma WaitResultReplies(configured: int64, override: int64, r: Reply)
    ensures (exists acts :: Run(Start(configured, override), acts).reply == Some(r))
        <==> (r.Final? ==> McpReady(r.op))
  {
    var s0 := Start(configured, override);
    forall acts ensures Run(s0, acts).reply == Some(r) ==> (r.Final? ==> McpReady(r.op)) {
      WaitResultIsJustified(configured, override, acts);
    }
    match r
    case Running(id) => TimerGivesRunning(configured, override, id);
    case Final(op) => if McpReady(op) { WorkerGivesFinal(configured, override, op); }
    case Failed(cause) => WorkerGivesError(configured, override, cause);
  }

  lemma Unfold2(s: State, acts: seq<Action>)
    requires |acts| >= 2
    ensures Run(s, acts[..2]) == Step(Step(s, acts[0]), acts[1])
    ensures |acts| == 2 ==> Run(s, acts) == Run(s, acts[..2])
  {
    assert acts[..2][..1] == [acts[0]];
    assert [acts[0]][..0] == [];
    assert Run(s, [acts[0]]) == Step(s, acts[0]);
    if |acts| == 2 { assert acts[..2] == acts; }
  }

  lemma Unfold3(s: State, acts: seq<Action>)
    requires |acts| >= 3
    ensures Run(s, acts[..3]) == Step(Step(Step(s, acts[0]), acts[1]), acts[2])
    ensures |acts| == 3 ==> Run(s, acts) == Run(s, acts[..3])
  {
    Unfold2(s, acts);
    assert acts[..3][..2] == acts[..2];
    if |acts| == 3 { assert acts[..3] == acts; }
  }

  lemma Unfold4(s: State, acts: seq<Action>)
    requires |acts| == 4
    ensures Run(s, acts) == Step(Step(Step(Step(s, acts[0]), acts[1]), acts[2]), acts[3])
  {
    Unfold3(s, acts);
  }
}
