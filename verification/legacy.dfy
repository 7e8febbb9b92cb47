/** The earlier event handler (the loop body of `handle_events` in
    src/docker-housekeep/__main__.py), which acts on a global `image_info`
    dict; here it is a pure step from one map to the next, and related to
    the current processor. */
module Legacy {
  import opened Wrappers
  import opened StateStore
  import opened Events

  /** One iteration of the loop: image save/tag/untag records the time,
      image delete removes the entry (a missing entry prints a warning and
      raises nothing), and every other event, container `create` included,
      leaves the map alone. */
  function LegacyStep(info: map<ImageId, Time>, e: Event): (u: Update)
    ensures IsImageUse(e) ==> Upserted(info, u.lastUsed, e.id, e.time) && !u.warning
    ensures IsImageDelete(e) ==> Removed(info, u.lastUsed, e.id) && (u.warning <==> e.id !in info)
    ensures IsImageDelete(e) && e.id !in info ==> u.lastUsed == info
    ensures !IsImageTracked(e) ==> u.lastUsed == info && !u.warning
  {
    if e.kind == "image" && e.action in {"save", "tag", "untag", "delete"} then
      if e.action == "delete" then
        if e.id in info then Update(info - {e.id}, false) else Update(info, true)
      else Update(info[e.id := e.time], false)
    else Update(info, false)
  }

  /** The loop over a history of events, oldest first. Every key it adds
      to the map is the id of an image save, tag or untag in the history. */
  function LegacyRun(info: map<ImageId, Time>, events: seq<Event>): (r: map<ImageId, Time>)
    ensures forall k :: k in r && k !in info ==>
              exists i :: 0 <= i < |events| && IsImageUse(events[i]) && events[i].id == k
    decreases |events|
  {
    if |events| == 0 then info
    else LegacyStep(LegacyRun(info, events[..|events| - 1]), events[|events| - 1]).lastUsed
  }

  /** On an image event the legacy step and `process_event` have the same
      effect on the map, whatever the container lookup would answer. */
  lemma LegacyAgreesOnImageEvents(info: map<ImageId, Time>, e: Event, ts: Option<Time>,
                                  inspect: ContainerId -> Option<ImageId>)
    requires e.kind == "image"
    ensures LegacyStep(info, e).lastUsed == ProcessEvent(e, State(ts, info), inspect).lastUsed
  {
    var a := LegacyStep(info, e).lastUsed;
    var b := ProcessEvent(e, State(ts, info), inspect).lastUsed;
    forall k ensures SameAt(a, b, k) {
      if IsImageTracked(e) {
        assert SameAt(info, a, k) <==> SameAt(info, b, k);
      }
    }
    assert a.Keys == b.Keys;
  }

  /** The two differ on container creation: the current processor records
      the container's image, the legacy step does not. */
  lemma LegacyIgnoresContainerCreate(info: map<ImageId, Time>, e: Event, ts: Option<Time>,
                                     inspect: ContainerId -> Option<ImageId>)
    requires IsContainerCreate(e) && inspect(e.id).Some?
    ensures LegacyStep(info, e).lastUsed == info
    ensures var r := ProcessEvent(e, State(ts, info), inspect).lastUsed;
            inspect(e.id).value in r && r[inspect(e.id).value] == e.time
  {
  }

  /** Over a history of image events the legacy loop builds the same map as
      the current processor. */
  lemma {:induction false} LegacyRunAgrees(info: map<ImageId, Time>, events: seq<Event>, ts: Option<Time>,
                                           inspect: ContainerId -> Option<ImageId>)
    requires AllImageEvents(events)
    ensures LegacyRun(info, events) == ProcessAll(events, State(ts, info), inspect).lastUsed
    decreases |events|
  {
    if |events| > 0 {
      var n := |events| - 1;
      var prefix := events[..n];
      assert AllImageEvents(prefix) by {
        forall i | 0 <= i < |prefix| ensures prefix[i].kind == "image" {
          assert prefix[i] == events[i];
        }
      }
      LegacyRunAgrees(info, prefix, ts, inspect);
      var before := ProcessAll(prefix, State(ts, info), inspect);
      LegacyAgreesOnImageEvents(before.lastUsed, events[n], before.timestamp, inspect);
    }
  }
}
