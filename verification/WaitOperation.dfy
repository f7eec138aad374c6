/**
 `Client.WaitOperation`: the worker assigns `opErr` or `final` and closes
 `done`; the caller selects over `done`, its context and the timer.
 */
module WaitOperation {
  import opened Prelude
  import opened Wait

  datatype Goroutine = Waiting | Failing(cause: string) | Getting | Closing | Ended

  datatype Return =
    | Answer(reply: Reply)
    | Cancelled
    | Fallback(cur: Operation)   // neither variable was set

  datatype Shared = Shared(
    timeout: int64,
    worker: Goroutine,
    closed: bool,
    final: Option<Operation>,
    opErr: Option<string>,
    cancelled: bool,
    elapsed: nat,
    ret: Option<Return>,
    waited: Option<Option<string>>)

  datatype Event =
    | WaitReturns(err: Option<string>)
    | SetErr
    | SetFinal(op: Operation)
    | Close
    | Tick(n: nat)
    | Cancel
    | PickDone(cur: Operation)
    | PickContext
    | PickTimer(cur: Operation)

  function Begin(timeout: int64): Shared {
    Shared(timeout, Goroutine.Waiting, false, None, None, false, 0, None, None)
  }

  function Next(s: Shared, e: Event): Shared {
    match e
    case WaitReturns(err) =>
      if !s.worker.Waiting? then s
      else if err.Some? then s.(worker := Failing(err.value), waited := Some(err))
      else s.(worker := Goroutine.Getting, waited := Some(err))
    case SetErr =>
      if s.worker.Failing? then s.(worker := Closing, opErr := Some(s.worker.cause)) else s
    case SetFinal(op) =>
      if s.worker.Getting? then s.(worker := Closing, final := Some(op)) else s
    case Close =>
      if s.worker.Closing? then s.(worker := Goroutine.Ended, closed := true) else s
    case Tick(n) => s.(elapsed := s.elapsed + n)
    case Cancel => s.(cancelled := true)
    case PickDone(cur) =>
      if s.ret.Some? || !s.closed then s
      else if s.opErr.Some? then s.(ret := Some(Answer(Failed(s.opErr.value))))
      else if s.final.Some? then s.(ret := Some(Answer(Final(s.final.value))))
      else s.(ret := Some(Fallback(cur)))
    case PickContext =>
      if s.ret.Some? || !s.cancelled then s else s.(ret := Some(Cancelled))
    case PickTimer(cur) =>
      if s.ret.Some? || s.elapsed < s.timeout then s
      else s.(ret := Some(Answer(Running(cur.id))))
  }

  function Exec(s: Shared, es: seq<Event>): Shared {
    if es == [] then s else Next(Exec(s, es[..|es| - 1]), es[|es| - 1])
  }

  predicate Fit(s: Shared) {
    && (s.worker.Waiting? <==> s.waited.None?)
    && (s.worker.Failing? ==> s.waited == Some(Some(s.worker.cause)))
    && (s.worker.Getting? ==> s.waited == Some(None))
    && (s.worker.Closing? || s.worker.Ended? <==> s.final.Some? || s.opErr.Some?)
    && !(s.final.Some? && s.opErr.Some?)
    && (s.closed <==> s.worker.Ended?)
    && (s.final.Some? ==> s.waited == Some(None))
    && (s.opErr.Some? ==> s.waited == Some(s.opErr))
    && (s.ret.Some? ==> match s.ret.value
          case Answer(Running(_)) => s.elapsed >= s.timeout
          case Answer(Final(op)) => s.closed && s.final == Some(op)
          case Answer(Failed(cause)) => s.closed && s.opErr == Some(cause)
          case Cancelled => s.cancelled
          case Fallback(_) => false)
  }

  lemma NextFit(s: Shared, e: Event)
    requires Fit(s)
    ensures Fit(Next(s, e)) && Next(s, e).timeout == s.timeout
  {
  }

  lemma {:induction false} ExecFit(timeout: int64, es: seq<Event>)
    ensures Fit(Exec(Begin(timeout), es)) && Exec(Begin(timeout), es).timeout == timeout
  {
    if es == [] {
    } else {
      ExecFit(timeout, es[..|es| - 1]);
      NextFit(Exec(Begin(timeout), es[..|es| - 1]), es[|es| - 1]);
    }
  }

  // `final` and `opErr` have one owner at a time: only the worker changes
  // them, before it closes `done`; the caller looks at them only afterwards,
  // when exactly one is set, so it never needs the fallback.
  lemma OwnershipPassesAtClose(timeout: int64, es: seq<Event>, e: Event)
    ensures var s := Exec(Begin(timeout), es);
            var s' := Next(s, e);
            && (s'.final != s.final || s'.opErr != s.opErr ==>
                 (e.SetErr? || e.SetFinal?) && !s.closed && !s'.closed)
            && (e.PickDone? && s' != s ==> s.closed && (s.final.Some? <==> s.opErr.None?))
            && (s'.ret.Some? ==> !s'.ret.value.Fallback?)
            && (s.closed ==> s'.closed)
  {
    ExecFit(timeout, es);
    ExecFit(timeout, es + [e]);
    assert (es + [e])[..|es|] == es;
  }

  lemma WaitOperationIsJustified(timeout: int64, es: seq<Event>)
    ensures var s := Exec(Begin(timeout), es);
            s.ret.Some? ==>
              match s.ret.value
              case Answer(Running(_)) => s.elapsed >= timeout
              case Answer(Final(op)) => s.waited == Some(None) && s.final == Some(op)
              case Answer(Failed(cause)) => s.waited == Some(Some(cause))
              case Cancelled => s.cancelled
              case Fallback(_) => false
  {
    ExecFit(timeout, es);
  }

  // --- what a return says ---

  // The worker has what Get returned, or the error of Wait.
  predicate Sourced(s: Shared, es: seq<Event>) {
    && (s.worker.Failing? ==> Event.WaitReturns(Some(s.worker.cause)) in es)
    && (s.final.Some? ==> SetFinal(s.final.value) in es)
    && (s.opErr.Some? ==> Event.WaitReturns(Some(s.opErr.value)) in es)
  }

  lemma {:induction false} ExecIsSourced(timeout: int64, es: seq<Event>)
    ensures Sourced(Exec(Begin(timeout), es), es)
  {
    if es == [] {
    } else {
      var before, e := es[..|es| - 1], es[|es| - 1];
      ExecIsSourced(timeout, before);
      ExecFit(timeout, before);
      assert es == before + [e];
      NextIsSourced(Exec(Begin(timeout), before), before, e);
    }
  }

  lemma NextIsSourced(s: Shared, es: seq<Event>, e: Event)
    requires Fit(s) && Sourced(s, es)
    ensures Sourced(Next(s, e), es + [e])
  {
    assert e in es + [e] && forall x | x in es :: x in es + [e];
  }

  // The step that returns: "running" has the ID that Get gave when the timer
  // fired; a final operation is exactly what Get returned to the worker; an
  // error is the one of Wait; the cancellation is the caller's.
  lemma ReturnSaysWhatGetGave(timeout: int64, es: seq<Event>, e: Event)
    ensures var s := Exec(Begin(timeout), es);
            var s' := Next(s, e);
            s.ret.None? && s'.ret.Some? ==>
              var r := s'.ret.value;
              && !r.Fallback?
              && (r.Cancelled? ==> e.PickContext? && Cancel in es)
              && (r.Answer? && r.reply.Running? ==> e.PickTimer? && r.reply.id == e.cur.id)
              && (r.Answer? && r.reply.Final? ==> e.PickDone? && SetFinal(r.reply.op) in es)
              && (r.Answer? && r.reply.Failed? ==> e.PickDone? && Event.WaitReturns(Some(r.reply.cause)) in es)
  {
    ExecFit(timeout, es);
    ExecIsSourced(timeout, es);
    CancelIsAsked(timeout, es);
  }

  lemma {:induction false} CancelIsAsked(timeout: int64, es: seq<Event>)
    ensures Exec(Begin(timeout), es).cancelled ==> Cancel in es
  {
    if es == [] {
    } else {
      CancelIsAsked(timeout, es[..|es| - 1]);
      assert es == es[..|es| - 1] + [es[|es| - 1]];
    }
  }

  lemma OneEvent(s: Shared, es: seq<Event>, e: Event)
    ensures Exec(s, es + [e]) == Next(Exec(s, es), e)
  {
    assert (es + [e])[..|es|] == es;
  }

  lemma TwoEvents(s: Shared, a: Event, b: Event)
    ensures Exec(s, [a, b]) == Next(Next(s, a), b)
  {
    OneEvent(s, [], a);
    OneEvent(s, [a], b);
    assert [] + [a] == [a] && [a] + [b] == [a, b];
  }

  lemma FourEvents(s: Shared, a: Event, b: Event, c: Event, d: Event)
    ensures Exec(s, [a, b, c, d]) == Next(Next(Next(Next(s, a), b), c), d)
  {
    TwoEvents(s, a, b);
    OneEvent(s, [a, b], c);
    OneEvent(s, [a, b, c], d);
    assert [a, b] + [c] == [a, b, c] && [a, b, c] + [d] == [a, b, c, d];
  }

  // A schedule that ends with the return r.
  function Towards(timeout: int64, r: Return): seq<Event> {
    match r
    case Answer(Running(id)) =>
      [Event.Tick(if timeout > 0 then timeout else 0), Event.PickTimer(Operation(id, "", None, None))]
    case Answer(Final(op)) => [Event.WaitReturns(None), SetFinal(op), Close, Event.PickDone(op)]
    case Answer(Failed(cause)) => [Event.WaitReturns(Some(cause)), SetErr, Close, Event.PickDone(Operation("", "", None, None))]
    case Cancelled => [Cancel, PickContext]
    case Fallback(_) => []
  }

  // Exactly these returns can be had: every final operation, as it is, every
  // error, every "running" and the cancellation; the fallback never.
  lemma WaitOperationReturns(timeout: int64, r: Return)
    ensures (exists es :: Exec(Begin(timeout), es).ret == Some(r)) <==> !r.Fallback?
  {
    forall es ensures Exec(Begin(timeout), es).ret == Some(r) ==> !r.Fallback? {
      ExecFit(timeout, es);
    }
    if !r.Fallback? {
      var s, es := Begin(timeout), Towards(timeout, r);
      if |es| == 2 {
        TwoEvents(s, es[0], es[1]);
        assert es == [es[0], es[1]];
      } else {
        FourEvents(s, es[0], es[1], es[2], es[3]);
        assert es == [es[0], es[1], es[2], es[3]];
      }
      assert Exec(s, es).ret == Some(r);
    }
  }

  // With the configured number of seconds: "running" is never early exactly
  // when a duration can hold them.
  ghost predicate NeverEarly(seconds: int64) {
    forall es ::
      var s := Exec(Begin(Nanoseconds(seconds)), es);
      s.ret.Some? && s.ret.value.Answer? && s.ret.value.reply.Running? ==> s.elapsed >= seconds * 1_000_000_000
  }

  lemma RunningIsNeverEarlyIff(seconds: int64)
    ensures NeverEarly(seconds) <==> seconds <= 9223372036
  {
    var t := Nanoseconds(seconds);
    DurationIsExactIff(seconds);
    if seconds <= LONGEST {
      forall es
        ensures var s := Exec(Begin(t), es);
                s.ret.Some? && s.ret.value.Answer? && s.ret.value.reply.Running? ==> s.elapsed >= seconds * 1_000_000_000
      {
        ExecFit(t, es);
      }
    } else {
      var late: nat := if t > 0 then t else 0;
      TwoEvents(Begin(t), Event.Tick(late), Event.PickTimer(Operation("", "", None, None)));
      assert Exec(Begin(t), [Event.Tick(late), Event.PickTimer(Operation("", "", None, None))]).elapsed == late;
    }
  }

  // --- refinement, for callers that never cancel ---

  predicate NeverCancelled(es: seq<Event>) {
    forall e | e in es :: !e.Cancel?
  }

  function View(s: Shared): Spec {
    Spec(
      if !s.closed then None
      else if s.opErr.Some? then Some(Failure(s.opErr.value))
      else if s.final.Some? then Some(Success(s.final.value))
      else None,
      s.elapsed >= s.timeout,
      if s.ret.Some? && s.ret.value.Answer? then Some(s.ret.value.reply) else None)
  }

  lemma {:induction false} NobodyCancelled(timeout: int64, es: seq<Event>)
    requires NeverCancelled(es)
    ensures var s := Exec(Begin(timeout), es); !s.cancelled && (s.ret.Some? ==> s.ret.value.Answer?)
  {
    ExecFit(timeout, es);
    if es == [] {
    } else {
      NobodyCancelled(timeout, es[..|es| - 1]);
    }
  }

  lemma WaitOperationRefines(timeout: int64, es: seq<Event>, e: Event)
    requires NeverCancelled(es + [e])
    ensures SpecInit(View(Begin(timeout)))
    ensures var s := Exec(Begin(timeout), es); SpecNext(View(s), View(Next(s, e)))
  {
    assert e in es + [e] && forall x | x in es :: x in es + [e];
    NobodyCancelled(timeout, es);
    ExecFit(timeout, es);
    ExecFit(timeout, es + [e]);
    assert (es + [e])[..|es|] == es;
  }
}
