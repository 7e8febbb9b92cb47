/** The event processor of src/docker_housekeep/base.py: `update_state` and
    `process_event` fold one container-engine event into the `State`.

    Event times are whole seconds, so `fromtimestamp` is the identity. The
    container lookup (`dockerapi.get_container`) is an oracle: `None` when
    the container has already disappeared, otherwise its image id. */
module Events {
  import opened Wrappers
  import opened StateStore

  type ContainerId = string

  /** One decoded engine event: its `Type`, `Action`, `id` and `time`. */
  datatype Event = Event(kind: string, action: string, id: string, time: Time)

  /** `update_state`'s effect: the new map, and whether the "missing entry"
      warning was logged. */
  datatype Update = Update(lastUsed: map<ImageId, Time>, warning: bool)

  /** Key `k` is present in both maps with the same value, or in neither. */
  ghost predicate SameAt(m: map<ImageId, Time>, m': map<ImageId, Time>, k: ImageId) {
    (k in m <==> k in m') && (k in m ==> m[k] == m'[k])
  }

  /** `m'` is `m` with `k` set to `v`, every other key unchanged. */
  ghost predicate Upserted(m: map<ImageId, Time>, m': map<ImageId, Time>, k: ImageId, v: Time) {
    && k in m' && m'[k] == v
    && forall j :: j != k ==> SameAt(m, m', j)
  }

  /** `m'` is `m` without `k`, every other key unchanged. */
  ghost predicate Removed(m: map<ImageId, Time>, m': map<ImageId, Time>, k: ImageId) {
    && k !in m'
    && forall j :: j != k ==> SameAt(m, m', j)
  }

  /** An image action that counts as a use: `save`, `tag` or `untag`.
      (`import`, `load` and `pull` are followed by a `save`; `push` is no use.) */
  predicate IsImageUse(e: Event) {
    e.kind == "image" && e.action in {"save", "tag", "untag"}
  }

  predicate IsImageDelete(e: Event) {
    e.kind == "image" && e.action == "delete"
  }

  /** The image events the tracker reacts to. */
  predicate IsImageTracked(e: Event) {
    IsImageUse(e) || IsImageDelete(e)
  }

  /** A container event whose action starts with `create` or `exec_create`. */
  predicate IsContainerCreate(e: Event) {
    e.kind == "container" && ("create" <= e.action || "exec_create" <= e.action)
  }

  /** `update_state`: a time upserts the entry; `None` deletes it, and a
      missing entry only raises the warning flag. */
  function UpdateState(m: map<ImageId, Time>, id: ImageId, time: Option<Time>): (u: Update)
    ensures time.Some? ==> Upserted(m, u.lastUsed, id, time.value) && !u.warning
    ensures time.None? ==> Removed(m, u.lastUsed, id) && (u.warning <==> id !in m)
    ensures time.None? && id !in m ==> u.lastUsed == m
  {
    match time
    case Some(t) => Update(m[id := t], false)
    case None => if id in m then Update(m - {id}, false) else Update(m, true)
  }

  /** `process_event`: the watermark always becomes the event's time (even
      when that is older than the current watermark), and the map changes
      only for tracked image events and container creations. */
  function ProcessEvent(e: Event, s: State, inspect: ContainerId -> Option<ImageId>): (r: State)
    ensures r.timestamp == Some(e.time)
    ensures IsImageUse(e) ==> Upserted(s.lastUsed, r.lastUsed, e.id, e.time)
    ensures IsImageDelete(e) ==> Removed(s.lastUsed, r.lastUsed, e.id)
    ensures IsImageDelete(e) && e.id !in s.lastUsed ==> r.lastUsed == s.lastUsed
    ensures IsContainerCreate(e) && inspect(e.id).Some? ==>
              Upserted(s.lastUsed, r.lastUsed, inspect(e.id).value, e.time)
    ensures IsContainerCreate(e) && inspect(e.id).None? ==> r.lastUsed == s.lastUsed
    ensures !IsImageTracked(e) && !IsContainerCreate(e) ==> r.lastUsed == s.lastUsed
  {
    var m := s.lastUsed;
    var used :=
      if IsImageTracked(e) then
        if e.action == "delete" then UpdateState(m, e.id, None).lastUsed
        else UpdateState(m, e.id, Some(e.time)).lastUsed
      else if IsContainerCreate(e) then
        match inspect(e.id)
        case Some(image) => UpdateState(m, image, Some(e.time)).lastUsed
        case None => m
      else m;
    State(Some(e.time), used)
  }

  /** The events processed one after the other, oldest first, as the
      `watch` loop feeds them to `process_event`. No event leaves the state
      as it was, and otherwise the watermark is the last event's time. */
  function ProcessAll(events: seq<Event>, s: State, inspect: ContainerId -> Option<ImageId>): (r: State)
    ensures |events| == 0 ==> r == s
    ensures |events| > 0 ==> r.timestamp == Some(events[|events| - 1].time)
    decreases |events|
  {
    if |events| == 0 then s
    else ProcessEvent(events[|events| - 1], ProcessAll(events[..|events| - 1], s, inspect), inspect)
  }

  /** `e` is a tracked image event about `id`. */
  predicate IsAbout(e: Event, id: ImageId) {
    IsImageTracked(e) && e.id == id
  }

  /** The most recent tracked image event (save, tag, untag or delete) about `id`. */
  function LastImageEvent(events: seq<Event>, id: ImageId): (r: Option<Event>)
    ensures r.Some? ==> r.value in events && IsImageTracked(r.value) && r.value.id == id
    decreases |events|
  {
    if |events| == 0 then None
    else
      var n := |events| - 1;
      if IsAbout(events[n], id) then Some(events[n])
      else LastImageEvent(events[..n], id)
  }

  /** `LastImageEvent` finds no event exactly when the history has no
      tracked image event about `id`. */
  lemma {:induction false} LastImageEventNone(events: seq<Event>, id: ImageId)
    ensures LastImageEvent(events, id).None? <==>
              forall i :: 0 <= i < |events| ==> !IsAbout(events[i], id)
    decreases |events|
  {
    if |events| > 0 {
      var n := |events| - 1;
      var prefix := events[..n];
      assert forall i :: 0 <= i < n ==> prefix[i] == events[i];
      if !IsAbout(events[n], id) {
        LastImageEventNone(prefix, id);
      }
    }
  }

  /** A tracked image event about `id` that no later one follows is the
      event `LastImageEvent` finds. */
  lemma {:induction false} LastImageEventIsLast(events: seq<Event>, id: ImageId, i: nat)
    requires i < |events| && IsAbout(events[i], id)
    requires forall j :: i < j < |events| ==> !IsAbout(events[j], id)
    ensures LastImageEvent(events, id) == Some(events[i])
    decreases |events|
  {
    var n := |events| - 1;
    if i < n {
      var prefix := events[..n];
      assert forall j :: i < j < n ==> prefix[j] == events[j];
      LastImageEventIsLast(prefix, id, i);
    }
  }

  /** The reference description of the map after a history: an id with a
      tracked event is present exactly when that last event is not a delete,
      with that event's time; any other id keeps its entry from `m`. */
  ghost predicate Reflects(events: seq<Event>, m: map<ImageId, Time>, m': map<ImageId, Time>, id: ImageId) {
    match LastImageEvent(events, id)
    case None => SameAt(m, m', id)
    case Some(e) => (id in m' <==> e.action != "delete") && (id in m' ==> m'[id] == e.time)
  }

  predicate AllImageEvents(events: seq<Event>) {
    forall i :: 0 <= i < |events| ==> events[i].kind == "image"
  }

  /** Over image events only, every id ends up as its last tracked event says. */
  lemma {:induction false} ImageHistory(events: seq<Event>, s: State, inspect: ContainerId -> Option<ImageId>)
    requires AllImageEvents(events)
    ensures forall id :: Reflects(events, s.lastUsed, ProcessAll(events, s, inspect).lastUsed, id)
    decreases |events|
  {
    if |events| > 0 {
      var n := |events| - 1;
      var prefix := events[..n];
      var e := events[n];
      assert AllImageEvents(prefix) by {
        forall i | 0 <= i < |prefix| ensures prefix[i].kind == "image" {
          assert prefix[i] == events[i];
        }
      }
      ImageHistory(prefix, s, inspect);
      var before := ProcessAll(prefix, s, inspect).lastUsed;
      var after := ProcessAll(events, s, inspect).lastUsed;
      assert e.kind == "image";
      forall id ensures Reflects(events, s.lastUsed, after, id) {
        assert Reflects(prefix, s.lastUsed, before, id);
        if !(IsImageTracked(e) && e.id == id) {
          assert LastImageEvent(events, id) == LastImageEvent(prefix, id);
          assert SameAt(before, after, id);
        }
      }
    }
  }

  /** Starting from an empty map, after image events only, an id is a key
      exactly when its last save/tag/untag/delete was not a delete, and its
      value is the time of that event. */
  lemma ImageHistoryFromEmpty(events: seq<Event>, ts: Option<Time>, inspect: ContainerId -> Option<ImageId>)
    requires AllImageEvents(events)
    ensures var m := ProcessAll(events, State(ts, map[]), inspect).lastUsed;
            forall id :: (id in m <==> LastImageEvent(events, id).Some? && LastImageEvent(events, id).value.action != "delete")
                      && (id in m ==> m[id] == LastImageEvent(events, id).value.time)
  {
    var m := ProcessAll(events, State(ts, map[]), inspect).lastUsed;
    ImageHistory(events, State(ts, map[]), inspect);
    forall id
      ensures (id in m <==> LastImageEvent(events, id).Some? && LastImageEvent(events, id).value.action != "delete")
      ensures (id in m ==> m[id] == LastImageEvent(events, id).value.time)
    {
      assert Reflects(events, map[], m, id);
    }
  }

  /** After a non-empty history the watermark is the time of the last event
      delivered, whatever the times of the earlier ones. */
  lemma WatermarkIsLastEventTime(events: seq<Event>, s: State, inspect: ContainerId -> Option<ImageId>)
    requires |events| > 0
    ensures ProcessAll(events, s, inspect).timestamp == Some(events[|events| - 1].time)
  {
  }

  /** The watermark is assigned, not advanced: an event older than the
      current watermark moves it back. */
  lemma WatermarkCanRegress(inspect: ContainerId -> Option<ImageId>)
    ensures var s := ProcessEvent(Event("image", "pull", "sha256:abc", 2000), Fresh, inspect);
            ProcessEvent(Event("image", "pull", "sha256:abc", 1000), s, inspect).timestamp == Some(1000)
  {
  }

  /** A tag at 1000 followed by a delete at 2000 leaves no entry for the
      image and the watermark at 2000; a container created at 1500 from
      image `sha256:def` records that image at 1500. */
  lemma TagDeleteAndCreateScenario(inspect: ContainerId -> Option<ImageId>)
    requires inspect("c1") == Some("sha256:def")
    ensures var s := ProcessAll([Event("image", "tag", "sha256:abc", 1000),
                                 Event("image", "delete", "sha256:abc", 2000)], Fresh, inspect);
            "sha256:abc" !in s.lastUsed && s.timestamp == Some(2000)
    ensures var s := ProcessEvent(Event("container", "create", "c1", 1500), Fresh, inspect);
            s.lastUsed == map["sha256:def" := 1500]
  {
  }
}
