/** The event half of the `watch` loop (src/docker_housekeep/__main__.py,
    `handle_events`): resume the stream from the watermark, then process
    each event and immediately rewrite the state file with the new state. */
module Watch {
  import opened Wrappers
  import opened StateStore
  import opened Events

  /** The `since` argument of the event stream: the watermark, or the epoch
      when there is none. */
  function ResumeFrom(s: State): (since: Time)
    ensures s.timestamp.Some? ==> since == s.timestamp.value
    ensures s.timestamp.None? ==> since == 0
  {
    s.timestamp.GetOr(0)
  }

  /** Process one event, then dump the new state over the file: the state
      in memory is `process_event`'s result and the file holds its dump. */
  function HandleEvent(e: Event, s: State, inspect: ContainerId -> Option<ImageId>, iso: IsoCodec)
    : (r: (State, Doc))
    ensures r.0.timestamp == Some(e.time)
    ensures r.0 == ProcessEvent(e, s, inspect)
    ensures r.1 == Dump(r.0, iso)
    ensures r.1.Obj? && "timestamp" in r.1.fields && r.1.fields["timestamp"] == Str(iso.format(e.time))
  {
    var next := ProcessEvent(e, s, inspect);
    (next, Dump(next, iso))
  }

  /** After any event the file holds a document that loads back to the
      state in memory, and the next restart resumes from that event's time:
      the null-timestamp failure of the loader can only hit a state that has
      seen no event yet. */
  lemma PersistedStateReloads(e: Event, s: State, inspect: ContainerId -> Option<ImageId>, iso: IsoCodec)
    requires LeftInverse(iso)
    ensures var (next, doc) := HandleEvent(e, s, inspect, iso);
            && Load(Parsed(doc), iso) == Success(next)
            && ResumeFrom(Load(Parsed(doc), iso).value) == e.time
  {
    var (next, doc) := HandleEvent(e, s, inspect, iso);
    LoadDumpRoundTrip(next, iso);
  }
}
