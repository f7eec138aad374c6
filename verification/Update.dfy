/**
 Read-then-replace updates under an entity tag. Any number of update handlers
 and foreign writers work on one resource of the target. The target answers a
 read with the content and its tag, and makes a replacement only if the tag
 sent with it is the current one (If-Match, section 13.1.1 of RFC 9110).
 */
module Update {
  import opened Prelude

  type Config = map<string, string>

  // The bodies the handlers send.
  datatype Content =
    | Profile(description: string, config: Config, devices: map<string, Config>)
    | Volume(settings: Option<Config>, restore: string)
    | Bucket(description: string, config: Config)

  datatype Status =
    | Idle
    | HasTag(tag: string)
    | Updated   // the handler reported success
    | Refused   // the tag was no longer current
    | Lost      // a request or its answer failed; the handler reported an error

  // `read`: the version the handler has read; `wrote`: the version it has
  // replaced. Both are history.
  datatype Updater = Updater(put: Content, status: Status, read: Option<nat>, wrote: Option<nat>)

  datatype Write = Write(writer: Option<nat>, before: Content, after: Content)

  datatype World = World(
    tags: (nat, Content) -> string,   // the tag of a version with a content
    version: nat,
    content: Content,
    updaters: seq<Updater>,
    log: seq<Write>)          // every replacement made, in order

  datatype Answer = Arrives | RequestLost | ReplyLost

  datatype Action =
    | Get(k: nat, ok: bool)
    | Put(k: nat, answer: Answer)
    | Foreign(content: Content)

  function Replace(w: World, writer: Option<nat>, c: Content): World {
    w.(version := w.version + 1, content := c, log := w.log + [Write(writer, w.content, c)])
  }

  function Tag(w: World): string {
    w.tags(w.version, w.content)
  }

  function Set(w: World, k: nat, u: Updater): World
    requires k < |w.updaters|
  {
    w.(updaters := w.updaters[k := u])
  }

  function Step(w: World, a: Action): (w': World)
    ensures |w'.updaters| == |w.updaters| && w'.tags == w.tags
  {
    match a
    case Get(k, ok) =>
      if k >= |w.updaters| || !w.updaters[k].status.Idle? then w
      else if ok then Set(w, k, w.updaters[k].(status := HasTag(Tag(w)), read := Some(w.version)))
      else Set(w, k, w.updaters[k].(status := Lost))
    case Put(k, answer) =>
      if k >= |w.updaters| || !w.updaters[k].status.HasTag? then w
      else
        var u := w.updaters[k];
        if answer.RequestLost? then Set(w, k, u.(status := Lost))
        else if u.status.tag != Tag(w) then
          Set(w, k, u.(status := if answer.ReplyLost? then Lost else Refused))
        else
          Set(Replace(w, Some(k), u.put), k,
              u.(status := if answer.ReplyLost? then Lost else Updated, wrote := Some(w.version)))
    case Foreign(c) => Replace(w, None, c)
  }

  function Run(w: World, acts: seq<Action>): (w': World)
    ensures |w'.updaters| == |w.updaters| && w'.tags == w.tags
  {
    if acts == [] then w else Step(Run(w, acts[..|acts| - 1]), acts[|acts| - 1])
  }

  predicate Init(w: World) {
    && w.version == 0 && w.log == []
    && forall k | 0 <= k < |w.updaters| :: Unused(w.updaters[k])
  }

  predicate Unused(u: Updater) {
    u.status.Idle? && u.read.None? && u.wrote.None?
  }

  // The content at version n.
  function At(w: World, n: nat): Content
    requires n <= |w.log|
  {
    if n == |w.log| then w.content else w.log[n].before
  }

  predicate ReadFit(w: World, u: Updater)
    requires u.read.Some?
  {
    u.read.value <= |w.log|
  }

  // A handler that has replaced a version did so under a tag that was the one
  // it had read.
  predicate WroteFit(w: World, k: nat, u: Updater)
    requires u.wrote.Some?
  {
    && u.read.Some?
    && u.read.value <= u.wrote.value < |w.log|
    && w.log[u.wrote.value] == Write(Some(k), At(w, u.wrote.value), u.put)
    && w.tags(u.wrote.value, At(w, u.wrote.value)) == w.tags(u.read.value, At(w, u.read.value))
  }

  predicate UpdaterFit(w: World, k: nat)
    requires k < |w.updaters|
  {
    var u := w.updaters[k];
    && (u.read.Some? ==> ReadFit(w, u))
    && (u.wrote.Some? ==> WroteFit(w, k, u) && (u.status.Updated? || u.status.Lost?))
    && (u.status.Idle? ==> u.read.None?)
    && (u.status.HasTag? ==>
         u.read.Some? && u.read.value <= |w.log| && u.status.tag == w.tags(u.read.value, At(w, u.read.value)))
    && (u.status.Updated? ==> u.wrote.Some?)
    && (u.status.Refused? ==> u.read.Some? && u.read.value < |w.log|)
  }

  // The entry at n, if a handler made it, is that handler's.
  predicate EntryFit(w: World, n: nat)
    requires n < |w.log|
  {
    && w.log[n].after == At(w, n + 1)
    && (w.log[n].writer.Some? ==>
         w.log[n].writer.value < |w.updaters| && w.updaters[w.log[n].writer.value].wrote == Some(n))
  }

  // The log is the whole story of the resource.
  predicate LogFit(w: World) {
    w.version == |w.log| && forall n | 0 <= n < |w.log| :: EntryFit(w, n)
  }

  ghost predicate Inv(w0: World, w: World) {
    && w.tags == w0.tags
    && LogFit(w)
    && At(w, 0) == w0.content
    && forall k | 0 <= k < |w.updaters| :: UpdaterFit(w, k)
  }

  lemma StepKeepsLog(w0: World, w: World, a: Action)
    requires Inv(w0, w)
    ensures LogFit(Step(w, a)) && w.log <= Step(w, a).log
    ensures forall n | 0 <= n <= |w.log| :: At(Step(w, a), n) == At(w, n)
  {
    var w' := Step(w, a);
    forall n | 0 <= n < |w'.log| ensures EntryFit(w', n) {
      if n < |w.log| { assert EntryFit(w, n); }
      if a.Put? && a.k < |w.updaters| { assert UpdaterFit(w, a.k); }
    }
  }

  // Nothing that a handler relies on is changed by somebody else.
  lemma OthersKeepUpdater(w: World, w': World, k: nat)
    requires k < |w.updaters| && UpdaterFit(w, k)
    requires |w'.updaters| == |w.updaters| && w'.updaters[k] == w.updaters[k]
    requires w'.tags == w.tags && w.log <= w'.log
    requires forall n | 0 <= n <= |w.log| :: At(w', n) == At(w, n)
    ensures UpdaterFit(w', k)
  {
    var u := w.updaters[k];
    if u.read.Some? { assert At(w', u.read.value) == At(w, u.read.value); }
    if u.wrote.Some? { assert At(w', u.wrote.value) == At(w, u.wrote.value); }
  }

  lemma OwnStepKeepsUpdater(w0: World, w: World, a: Action)
    requires Inv(w0, w) && (a.Get? || a.Put?) && a.k < |w.updaters|
    ensures UpdaterFit(Step(w, a), a.k)
  {
    var w' := Step(w, a);
    StepKeepsLog(w0, w, a);
    assert UpdaterFit(w, a.k);
    var u := w.updaters[a.k];
    if w'.updaters[a.k] == u {
      OthersKeepUpdater(w, w', a.k);
    } else if a.Put? {
      assert At(w', u.read.value) == At(w, u.read.value) && At(w', |w.log|) == w.content;
    }
  }

  lemma StepKeepsInv(w0: World, w: World, a: Action)
    requires Inv(w0, w)
    ensures Inv(w0, Step(w, a))
  {
    var w' := Step(w, a);
    StepKeepsLog(w0, w, a);
    assert At(w', 0) == At(w, 0);
    forall k | 0 <= k < |w.updaters| ensures UpdaterFit(w', k) {
      if !a.Foreign? && a.k == k {
        OwnStepKeepsUpdater(w0, w, a);
      } else {
        OthersKeepUpdater(w, w', k);
      }
    }
  }

  lemma {:induction false} RunKeepsInv(w0: World, acts: seq<Action>)
    requires Init(w0)
    ensures Inv(w0, Run(w0, acts))
  {
    if acts == [] {
    } else {
      RunKeepsInv(w0, acts[..|acts| - 1]);
      StepKeepsInv(w0, Run(w0, acts[..|acts| - 1]), acts[|acts| - 1]);
    }
  }

  // --- what the target must promise ---

  // The contents a version can have: the first one has the content of the
  // start, every other one any content.
  predicate Possible(w0: World, n: nat, c: Content) {
    n == 0 ==> c == w0.content
  }

  // No two versions ever share a tag.
  ghost predicate UniqueTags(w0: World) {
    forall m: nat, c, n: nat, d | Possible(w0, m, c) && Possible(w0, n, d) && w0.tags(m, c) == w0.tags(n, d) ::
      m == n
  }

  // Two versions share a tag only if they have the same content.
  ghost predicate TagsTellContents(w0: World) {
    forall m: nat, c, n: nat, d | Possible(w0, m, c) && Possible(w0, n, d) && w0.tags(m, c) == w0.tags(n, d) ::
      m == n || c == d
  }

  // The tag is made from the content alone.
  ghost predicate TagsFromContent(w0: World) {
    forall m: nat, n: nat, c :: w0.tags(m, c) == w0.tags(n, c)
  }

  ghost predicate OneTagPerContent(w0: World) {
    forall m: nat, n: nat, c, d :: w0.tags(m, c) == w0.tags(n, d) <==> c == d
  }

  // Updater k replaced exactly the version it had read, so no other write came
  // between its read and its write.
  predicate ReplacedWhatItRead(w: World, k: nat)
    requires k < |w.updaters|
  {
    var u := w.updaters[k];
    && u.read.Some? && u.wrote == u.read && u.read.value < |w.log|
    && w.log[u.read.value] == Write(Some(k), At(w, u.read.value), u.put)
  }

  // Updater k replaced a version with the content it had read, if perhaps not
  // the very same version.
  predicate ReplacedSameContent(w: World, k: nat)
    requires k < |w.updaters|
  {
    var u := w.updaters[k];
    && u.read.Some? && u.wrote.Some? && u.read.value <= u.wrote.value < |w.log|
    && w.log[u.wrote.value] == Write(Some(k), At(w, u.read.value), u.put)
  }

  predicate Safe(w: World) {
    forall k | 0 <= k < |w.updaters| && w.updaters[k].status.Updated? :: ReplacedWhatItRead(w, k)
  }

  predicate SafeForContent(w: World) {
    forall k | 0 <= k < |w.updaters| && w.updaters[k].status.Updated? :: ReplacedSameContent(w, k)
  }

  lemma LaterVersions(w0: World, w: World, n: nat)
    requires Inv(w0, w) && n <= |w.log|
    ensures Possible(w0, n, At(w, n))
  {
  }

  lemma TagsDecide(w0: World, w: World, k: nat)
    requires Inv(w0, w) && k < |w.updaters| && w.updaters[k].status.Updated?
    ensures UniqueTags(w0) ==> ReplacedWhatItRead(w, k)
    ensures TagsTellContents(w0) ==> ReplacedSameContent(w, k)
  {
    assert UpdaterFit(w, k);
    var u := w.updaters[k];
    LaterVersions(w0, w, u.read.value);
    LaterVersions(w0, w, u.wrote.value);
  }

  lemma UpdatesAreSafe(w0: World, acts: seq<Action>)
    requires Init(w0) && UniqueTags(w0)
    ensures var w := Run(w0, acts);
            && w.version == |w.log|
            && (forall k | 0 <= k < |w.updaters| && w.updaters[k].status.Updated? :: ReplacedWhatItRead(w, k))
            // Different handlers never replaced the same version.
            && (forall j, k | 0 <= j < |w.updaters| && 0 <= k < |w.updaters| && j != k
                    && w.updaters[j].status.Updated? && w.updaters[k].status.Updated? ::
                 w.updaters[j].read != w.updaters[k].read)
            // A refusal always has somebody else's write to blame.
            && (forall k | 0 <= k < |w.updaters| && w.updaters[k].status.Refused? :: HasWriteToBlame(w, k))
            // The content is the last replacement, and there was no other.
            && w.content == (if w.log == [] then w0.content else w.log[|w.log| - 1].after)
  {
    RunKeepsInv(w0, acts);
    var w := Run(w0, acts);
    forall k | 0 <= k < |w.updaters|
      ensures w.updaters[k].status.Updated? ==> ReplacedWhatItRead(w, k)
      ensures w.updaters[k].status.Refused? ==> HasWriteToBlame(w, k)
    {
      if w.updaters[k].status.Updated? { TagsDecide(w0, w, k); }
      if w.updaters[k].status.Refused? { RefusedByAnother(w0, w, k); }
    }
    if w.log != [] { assert EntryFit(w, |w.log| - 1); }
  }

  predicate HasWriteToBlame(w: World, k: nat)
    requires k < |w.updaters|
  {
    var u := w.updaters[k];
    u.read.Some? && u.read.value < |w.log| && w.log[u.read.value].writer != Some(k)
  }

  lemma RefusedByAnother(w0: World, w: World, k: nat)
    requires Inv(w0, w) && k < |w.updaters| && w.updaters[k].status.Refused?
    ensures HasWriteToBlame(w, k)
  {
    assert UpdaterFit(w, k);
    assert EntryFit(w, w.updaters[k].read.value);
  }

  // --- progress ---

  predicate Undisturbed(a: Action) {
    match a
    case Get(_, ok) => ok
    case Put(_, answer) => answer.Arrives?
    case Foreign(_) => false
  }

  predicate OnlyHandlers(w: World) {
    && (forall n | 0 <= n < |w.log| :: w.log[n].writer.Some?)
    && (forall k | 0 <= k < |w.updaters| :: !w.updaters[k].status.Lost?)
  }

  lemma {:induction false} OnlyHandlersWrite(w0: World, acts: seq<Action>)
    requires Init(w0)
    requires forall i | 0 <= i < |acts| :: Undisturbed(acts[i])
    ensures OnlyHandlers(Run(w0, acts))
  {
    if acts == [] {
    } else {
      OnlyHandlersWrite(w0, acts[..|acts| - 1]);
      assert Undisturbed(acts[|acts| - 1]);
    }
  }

  // Without foreign writers and failures, somebody always wins, whatever the
  // tags: as soon as one handler is done, one has succeeded.
  lemma SomebodyWins(w0: World, acts: seq<Action>, k: nat)
    requires Init(w0) && k < |w0.updaters|
    requires forall i | 0 <= i < |acts| :: Undisturbed(acts[i])
    requires var s := Run(w0, acts).updaters[k].status; !s.Idle? && !s.HasTag?
    ensures exists j | 0 <= j < |w0.updaters| :: Run(w0, acts).updaters[j].status.Updated?
  {
    RunKeepsInv(w0, acts);
    OnlyHandlersWrite(w0, acts);
    var w := Run(w0, acts);
    assert UpdaterFit(w, k);
    if w.updaters[k].status.Refused? {
      var n := w.updaters[k].read.value;
      assert EntryFit(w, n);
      var j := w.log[n].writer.value;
      assert UpdaterFit(w, j) && w.updaters[j].status.Updated?;
    }
  }

  // --- runs in which a tag comes back ---

  function Foreigners(n: nat, c: Content): seq<Action> {
    if n == 0 then [] else Foreigners(n - 1, c) + [Foreign(c)]
  }

  lemma OneAction(w: World, before: seq<Action>, a: Action)
    ensures Run(w, before + [a]) == Step(Run(w, before), a)
  {
    assert (before + [a])[..|before|] == before;
  }

  // n replacements by others lead from w to w', which has content c if there
  // were any.
  predicate Replaced(w: World, n: nat, c: Content, w': World) {
    && w'.updaters == w.updaters
    && w'.version == |w'.log| == |w.log| + n
    && w.log <= w'.log
    && At(w', |w.log|) == w.content
    && w'.content == if n > 0 then c else w.content
  }

  lemma OneMoreReplaced(w: World, n: nat, c: Content, w': World)
    requires Replaced(w, n, c, w')
    ensures Replaced(w, n + 1, c, Replace(w', None, c))
  {
  }

  lemma {:induction false} ForeignersWrite(w: World, n: nat, c: Content)
    requires w.version == |w.log|
    ensures Replaced(w, n, c, Run(w, Foreigners(n, c)))
  {
    if n == 0 {
    } else {
      ForeignersWrite(w, n - 1, c);
      OneAction(w, Foreigners(n - 1, c), Foreign(c));
      OneMoreReplaced(w, n - 1, c, Run(w, Foreigners(n - 1, c)));
    }
  }

  lemma {:induction false} RunConcat(w: World, a: seq<Action>, b: seq<Action>)
    ensures Run(w, a + b) == Run(Run(w, a), b)
    decreases |b|
  {
    if b == [] {
      assert a + b == a;
    } else {
      assert (a + b)[..|a + b| - 1] == a + b[..|b| - 1];
      RunConcat(w, a, b[..|b| - 1]);
    }
  }

  // The resource comes to version m with content c, handler 0 reads it, the
  // resource moves on to version n with content d, and the handler writes.
  function ToRead(m: nat, c: Content): seq<Action> {
    Foreigners(m, c) + [Get(0, true)]
  }

  function Aba(m: nat, c: Content, n: nat, d: Content): seq<Action>
    requires m <= n
  {
    ToRead(m, c) + Foreigners(n - m, d) + [Put(0, Arrives)]
  }

  lemma ReadsVersion(w0: World, m: nat, c: Content)
    requires Init(w0) && |w0.updaters| > 0 && Possible(w0, m, c)
    ensures var w := Run(w0, ToRead(m, c));
            && w.version == |w.log| == m && w.content == c
            && w.updaters[0] == w0.updaters[0].(status := HasTag(w0.tags(m, c)), read := Some(m))
  {
    ForeignersWrite(w0, m, c);
    OneAction(w0, Foreigners(m, c), Get(0, true));
  }

  lemma PutUnderTag(w: World, n: nat)
    requires |w.updaters| > 0 && w.updaters[0].status == HasTag(Tag(w)) && w.version == |w.log| == n
    ensures var w' := Step(w, Put(0, Arrives));
            && w'.updaters[0] == w.updaters[0].(status := Updated, wrote := Some(n))
            && w'.log == w.log + [Write(Some(0), w.content, w.updaters[0].put)]
  {
  }

  lemma MovesOn(w0: World, m: nat, c: Content, n: nat, d: Content)
    requires Init(w0) && |w0.updaters| > 0 && m < n && Possible(w0, m, c)
    ensures var w := Run(w0, ToRead(m, c) + Foreigners(n - m, d));
            && w.version == |w.log| == n && w.content == d && At(w, m) == c
            && w.updaters[0] == w0.updaters[0].(status := HasTag(w0.tags(m, c)), read := Some(m))
  {
    ReadsVersion(w0, m, c);
    RunConcat(w0, ToRead(m, c), Foreigners(n - m, d));
    ForeignersWrite(Run(w0, ToRead(m, c)), n - m, d);
  }

  lemma TagComesBack(w0: World, m: nat, c: Content, n: nat, d: Content)
    requires Init(w0) && |w0.updaters| > 0 && m < n
    requires Possible(w0, m, c) && Possible(w0, n, d) && w0.tags(m, c) == w0.tags(n, d)
    ensures var w := Run(w0, Aba(m, c, n, d));
            && w.updaters[0].status.Updated?
            && w.updaters[0].read == Some(m) && w.updaters[0].wrote == Some(n)
            && n < |w.log| && At(w, m) == c && w.log[n].before == d
  {
    MovesOn(w0, m, c, n, d);
    OneAction(w0, ToRead(m, c) + Foreigners(n - m, d), Put(0, Arrives));
    PutUnderTag(Run(w0, ToRead(m, c) + Foreigners(n - m, d)), n);
  }

  ghost predicate AlwaysSafe(w0: World) {
    forall acts :: Safe(Run(w0, acts))
  }

  ghost predicate AlwaysSafeForContent(w0: World) {
    forall acts :: SafeForContent(Run(w0, acts))
  }

  // The handlers replace exactly what they have read, in every run, exactly
  // when no two versions of the resource can ever carry the same tag.
  lemma SafeIffTagsAreUnique(w0: World)
    requires Init(w0) && |w0.updaters| > 0
    ensures AlwaysSafe(w0) <==> UniqueTags(w0)
  {
    if UniqueTags(w0) {
      forall acts ensures Safe(Run(w0, acts)) {
        UpdatesAreSafe(w0, acts);
      }
    } else {
      var m: nat, c, n: nat, d :| Possible(w0, m, c) && Possible(w0, n, d) && w0.tags(m, c) == w0.tags(n, d) && m != n;
      SharedTagIsUnsafe(w0, m, c, n, d);
    }
  }

  lemma SharedTagIsUnsafe(w0: World, m: nat, c: Content, n: nat, d: Content)
    requires Init(w0) && |w0.updaters| > 0 && m != n
    requires Possible(w0, m, c) && Possible(w0, n, d) && w0.tags(m, c) == w0.tags(n, d)
    ensures !AlwaysSafe(w0)
    ensures c != d ==> !AlwaysSafeForContent(w0)
  {
    if m < n {
      TagComesBack(w0, m, c, n, d);
      var w := Run(w0, Aba(m, c, n, d));
      assert !ReplacedWhatItRead(w, 0);
      assert c != d ==> !ReplacedSameContent(w, 0);
    } else {
      SharedTagIsUnsafe(w0, n, d, m, c);
    }
  }

  // They replace a content equal to the one they have read, in every run,
  // exactly when two versions with different contents never carry the same tag.
  lemma SafeForContentIff(w0: World)
    requires Init(w0) && |w0.updaters| > 0
    ensures AlwaysSafeForContent(w0) <==> TagsTellContents(w0)
  {
    if TagsTellContents(w0) {
      forall acts ensures SafeForContent(Run(w0, acts)) {
        var w := Run(w0, acts);
        RunKeepsInv(w0, acts);
        forall k | 0 <= k < |w.updaters| && w.updaters[k].status.Updated? ensures ReplacedSameContent(w, k) {
          TagsDecide(w0, w, k);
        }
      }
    } else {
      var m: nat, c, n: nat, d :| Possible(w0, m, c) && Possible(w0, n, d) && w0.tags(m, c) == w0.tags(n, d)
        && m != n && c != d;
      SharedTagIsUnsafe(w0, m, c, n, d);
    }
  }

  // With tags made from the content alone, somebody changes the resource to b
  // and back to what handler 0 has read, and the handler does not notice.
  lemma ContentTagsAllowAba(w0: World, b: Content)
    requires Init(w0) && |w0.updaters| > 0 && TagsFromContent(w0)
    ensures var a := w0.content;
            var w := Run(w0, [Get(0, true), Foreign(b), Foreign(a), Put(0, Arrives)]);
            && w.log == [Write(None, a, b), Write(None, b, a), Write(Some(0), a, w0.updaters[0].put)]
            && w.updaters[0].status.Updated? && w.updaters[0].read == Some(0)
            && !ReplacedWhatItRead(w, 0)
  {
    var a := w0.content;
    OneAction(w0, [], Get(0, true));
    OneAction(w0, [Get(0, true)], Foreign(b));
    OneAction(w0, [Get(0, true), Foreign(b)], Foreign(a));
    OneAction(w0, [Get(0, true), Foreign(b), Foreign(a)], Put(0, Arrives));
    assert [Get(0, true)] == [] + [Get(0, true)];
    assert [Get(0, true), Foreign(b)] == [Get(0, true)] + [Foreign(b)];
    assert [Get(0, true), Foreign(b), Foreign(a)] == [Get(0, true), Foreign(b)] + [Foreign(a)];
    assert [Get(0, true), Foreign(b), Foreign(a), Put(0, Arrives)]
        == [Get(0, true), Foreign(b), Foreign(a)] + [Put(0, Arrives)];
    assert w0.tags(0, a) == w0.tags(2, a);
  }

  // What such tags do give, exactly if no two contents share one: every
  // successful update replaced a content equal to the one it had read.
  lemma ContentTagsIff(w0: World)
    requires Init(w0) && |w0.updaters| > 0 && TagsFromContent(w0)
    ensures !AlwaysSafe(w0)
    ensures AlwaysSafeForContent(w0) <==> OneTagPerContent(w0)
  {
    ContentTagsAllowAba(w0, w0.content);
    assert !Safe(Run(w0, [Get(0, true), Foreign(w0.content), Foreign(w0.content), Put(0, Arrives)]));
    SafeForContentIff(w0);
    if TagsTellContents(w0) {
      forall m: nat, n: nat, c, d ensures w0.tags(m, c) == w0.tags(n, d) <==> c == d {
        assert w0.tags(m, c) == w0.tags(1, c) && w0.tags(n, d) == w0.tags(2, d) && w0.tags(n, c) == w0.tags(m, c);
        assert Possible(w0, 1, c) && Possible(w0, 2, d);
      }
    }
  }
}
