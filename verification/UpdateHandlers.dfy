/**
 The update handlers as they are written: check the required fields, read the
 tag, build the body, replace. Others use the resource between the two
 requests.
 */
module UpdateHandlers {
  import opened Prelude
  import opened Update

  // A Go map held by reference; null is the nil map.
  class ConfigRef {
    var entries: Config

    constructor (m: Config)
      ensures entries == m
    {
      entries := m;
    }
  }

  datatype Reply = Done | MissingField | Error

  // One handler's connection to the target. `others` fixes what everybody else
  // does before each of its requests.
  class Target {
    ghost const start: World
    const me: nat
    const getOk: bool
    const putAnswer: Answer
    const others: nat -> seq<Action>
    var world: World
    var clock: nat
    ghost var log: seq<Action>
    ghost var sent: nat          // where in the log the PUT is

    ghost predicate Valid() reads this {
      && Init(start)
      && me < |start.updaters|
      && world == Run(start, log)
    }

    ghost function Me(): Updater
      requires Valid()
      reads this
    {
      world.updaters[me]
    }

    constructor (w: World, k: nat, g: bool, p: Answer, o: nat -> seq<Action>)
      requires Init(w) && k < |w.updaters|
      ensures Valid() && start == w && world == w && me == k
    {
      start, me, getOk, putAnswer, others := w, k, g, p, o;
      world, clock, log, sent := w, 0, [], 0;
    }

    predicate Foreigner(a: Action) {
      match a
      case Get(k, _) => k != me
      case Put(k, _) => k != me
      case Foreign(_) => true
    }

    method Wait()
      requires Valid()
      modifies `world, `log
      ensures Valid() && Me() == old(Me())
    {
      var acts := others(clock);
      for i := 0 to |acts|
        invariant Valid() && Me() == old(Me())
      {
        if Foreigner(acts[i]) { Do(acts[i]); }
      }
    }

    method Do(a: Action)
      requires Valid()
      modifies `world, `log
      ensures Valid() && world == Step(old(world), a) && log == old(log) + [a]
    {
      assert (log + [a])[..|log|] == log;
      world := Step(world, a);
      log := log + [a];
    }

    // GET: the content is not used, only its tag.
    method GetTag() returns (tag: Option<string>)
      requires Valid() && Me().status.Idle?
      modifies this
      ensures Valid() && Me().put == old(Me().put)
      ensures Me().status == if tag.Some? then HasTag(tag.value) else Lost
      ensures tag.Some? <==> getOk
    {
      Wait();
      Do(Get(me, getOk));
      clock := clock + 1;
      tag := if getOk then Some(Tag(world)) else None;
    }

    // PUT with If-Match. The body is the one this handler stands for.
    method PutIf(body: Content, tag: string) returns (ok: bool)
      requires Valid() && Me().status == HasTag(tag) && Me().put == body && getOk
      modifies this
      ensures Valid() && Finished(body, ok)
    {
      Wait();
      RunKeepsInv(start, log);
      ghost var met, before := world, log;
      var current := Tag(world);
      sent := |log|;
      Do(Put(me, putAnswer));
      clock := clock + 1;
      ok := putAnswer.Arrives? && tag == current;
      assert log[..sent] == before;
      RunKeepsInv(start, log);
      PutAnswered(start, met, me, putAnswer);
      if ok { TagsDecide(start, world, me); }
    }

    // What success means: this handler's body replaced exactly the version it
    // had read if no two versions share a tag, and a version with the content
    // it had read if versions that share one have the same content.
    ghost predicate Replaced(body: Content)
      requires Valid()
      reads this
    {
      && Me().status.Updated? && Me().put == body
      && (UniqueTags(start) ==> ReplacedWhatItRead(world, me))
      && (TagsTellContents(start) ==> ReplacedSameContent(world, me))
    }

    // The tag of the version this handler read was still the current one when
    // its PUT came in.
    ghost predicate StillCurrent()
      requires Valid()
      reads this
    {
      var met := Run(start, log[..if sent <= |log| then sent else 0]);
      && Me().read.Some? && Me().read.value <= |met.log|
      && Tag(met) == met.tags(Me().read.value, At(met, Me().read.value))
    }

    // The handler has made both its requests, or the first one failed; it
    // succeeds exactly if both got through under a tag that was still current,
    // and if they got through and it does not, somebody else has replaced the
    // version it had read.
    ghost predicate Finished(body: Content, ok: bool)
      requires Valid()
      reads this
    {
      && (ok ==> Replaced(body))
      && (ok <==> Me().status.Updated?)
      && !Me().status.Idle? && !Me().status.HasTag?
      && (getOk ==> sent < |log| && log[sent] == Put(me, putAnswer) && Me().put == body)
      && (ok <==> getOk && putAnswer.Arrives? && StillCurrent())
      && (getOk && putAnswer.Arrives? && !ok ==> HasWriteToBlame(world, me))
    }
  }

  // How one PUT ends.
  lemma PutAnswered(w0: World, w: World, k: nat, answer: Answer)
    requires Inv(w0, w) && k < |w.updaters| && w.updaters[k].status.HasTag?
    ensures var u, w' := w.updaters[k], Step(w, Put(k, answer));
            var u' := w'.updaters[k];
            && u.read.Some? && u.read.value <= |w.log|
            && u.status.tag == w.tags(u.read.value, At(w, u.read.value))
            && u'.read == u.read && u'.put == u.put
            && (u'.status.Updated? <==> answer.Arrives? && u.status.tag == Tag(w))
            && (u'.status.Refused? || u'.status.Lost? || u'.status.Updated?)
            && (answer.Arrives? && !u'.status.Updated? ==> HasWriteToBlame(w', k))
  {
    assert UpdaterFit(w, k);
    StepKeepsInv(w0, w, Put(k, answer));
    if answer.Arrives? && w.updaters[k].status.tag != Tag(w) {
      RefusedByAnother(w0, Step(w, Put(k, answer)), k);
    }
  }

  // GET, then PUT with the tag.
  method ReadThenReplace(t: Target, body: Content) returns (r: Reply)
    requires t.Valid() && t.Me().status.Idle? && t.Me().put == body
    modifies t
    ensures t.Valid() && !r.MissingField? && t.Finished(body, r.Done?)
  {
    var tag := t.GetTag();
    if tag.None? { return Error; }
    var ok := t.PutIf(body, tag.value);
    return if ok then Done else Error;
  }

  // profileUpdate
  method ProfileUpdate(t: Target, name: string, description: string, config: Config, devices: map<string, Config>)
    returns (r: Reply)
    requires t.Valid() && t.Me() == Updater(Profile(description, config, devices), Idle, None, None)
    modifies t
    ensures t.Valid()
    ensures name == "" <==> r.MissingField?
    ensures name == "" ==> t.world == old(t.world)
    ensures !r.MissingField? ==> t.Finished(Profile(description, config, devices), r.Done?)
  {
    if name == "" { return MissingField; }
    r := ReadThenReplace(t, Profile(description, config, devices));
  }

  // storageBucketUpdate
  method StorageBucketUpdate(t: Target, pool: string, name: string, description: string, config: Config)
    returns (r: Reply)
    requires t.Valid() && t.Me() == Updater(Bucket(description, config), Idle, None, None)
    modifies t
    ensures t.Valid()
    ensures pool == "" || name == "" <==> r.MissingField?
    ensures r.MissingField? ==> t.world == old(t.world)
    ensures !r.MissingField? ==> t.Finished(Bucket(description, config), r.Done?)
  {
    if pool == "" || name == "" { return MissingField; }
    r := ReadThenReplace(t, Bucket(description, config));
  }

  // storageVolumeSnapshotRestore: a PUT that only names the snapshot.
  method StorageVolumeSnapshotRestore(t: Target, pool: string, volume: string, snapshot: string)
    returns (r: Reply)
    requires t.Valid() && t.Me() == Updater(Volume(None, snapshot), Idle, None, None)
    modifies t
    ensures t.Valid()
    ensures pool == "" || volume == "" || snapshot == "" <==> r.MissingField?
    ensures r.MissingField? ==> t.world == old(t.world)
    ensures !r.MissingField? ==> t.Finished(Volume(None, snapshot), r.Done?)
  {
    if pool == "" || volume == "" || snapshot == "" { return MissingField; }
    r := ReadThenReplace(t, Volume(None, snapshot));
  }

  // The configuration a volume update sends.
  function VolumeConfig(config: Option<Config>, size: string): Option<Config> {
    if size == "" then config
    else Some((if config.Some? then config.value else map[])["size" := size])
  }

  ghost function Entries(config: ConfigRef?): Option<Config>
    reads config
  {
    if config == null then None else Some(config.entries)
  }

  // storageVolumeUpdate. The size goes into the caller's own map, once the
  // volume has been read.
  method StorageVolumeUpdate(t: Target, pool: string, name: string, config: ConfigRef?, size: string)
    returns (r: Reply)
    requires t.Valid() && t.Me() == Updater(Volume(VolumeConfig(Entries(config), size), ""), Idle, None, None)
    modifies t, config
    ensures t.Valid()
    ensures pool == "" || name == "" <==> r.MissingField?
    ensures r.MissingField? ==> t.world == old(t.world)
    ensures !r.MissingField? ==>
      && t.Finished(t.Me().put, r.Done?) && t.Me().put.Volume? && t.Me().put.restore == ""
      // What is sent: the caller's entries, with the size in if there is one,
      // and otherwise the caller's map or none.
      && var sent := t.Me().put.settings;
         && (size == "" ==> sent == if config == null then None else Some(old(config.entries)))
         && (size != "" ==>
              && sent.Some? && "size" in sent.value && sent.value["size"] == size
              && (forall k | k != "size" :: k in sent.value <==> config != null && k in old(config.entries))
              && (config != null ==>
                   forall k | k != "size" && k in sent.value :: sent.value[k] == old(config.entries[k])))
    // The caller's map has the size once the volume has been read, also if the
    // update then fails.
    ensures config != null && (r.MissingField? || size == "" || !t.getOk) ==> config.entries == old(config.entries)
    ensures config != null && !r.MissingField? && size != "" && t.getOk ==>
      && "size" in config.entries && config.entries["size"] == size
      && (forall k | k != "size" :: k in config.entries <==> k in old(config.entries))
      && (forall k | k != "size" && k in config.entries :: config.entries[k] == old(config.entries[k]))
  {
    if pool == "" || name == "" { return MissingField; }
    var tag := t.GetTag();
    if tag.None? { return Error; }
    var put := config;
    if size != "" {
      if put == null { put := new ConfigRef(map[]); }
      put.entries := put.entries["size" := size];
    }
    var body := if put == null then None else Some(put.entries);
    var ok := t.PutIf(Volume(body, ""), tag.value);
    return if ok then Done else Error;
  }
}
