# docker-housekeep: event tracker and sweep, in Dafny

docker-housekeep is a housekeeping daemon for the Docker engine. It watches the
engine's event stream and records, for each image, the last time it was used.
A use is a save, tag or untag of the image, or a container `create` or
`exec_create` event for a container made from it.
Periodically it deletes every image unused for longer than a configured
maximum age. This project models the logic at its core and proves properties
of that model:

- `StateStore` (`src/docker_housekeep/state.py`): the persisted `State` holds a
  watermark timestamp and a map from image id to last-used time. It also
  holds `load` and `dump` over an abstract JSON document `Doc`.
- `Events` (`src/docker_housekeep/base.py`): `update_state` and
  `process_event`. It also has the fold of a history of events and the
  reference description of the map that results.
- `Sweeping` (`src/docker_housekeep/base.py`): `sweep`, the deletion pass. It
  tolerates 404 and 409 and aborts on any other status.
- `Configuration` (`src/docker_housekeep/config.py`): construction with
  validation, the two-key dictionary encoding, `default_config` and the
  default-merging `load`.
- `Legacy` (`src/docker-housekeep/__main__.py`): the earlier event handler as a
  pure step on the `image_info` map, proved equal to `process_event` on
  image events.
- `Watch` (`src/docker_housekeep/__main__.py`): "process one event, then dump
  the state". It proves that the dumped file always loads back.

Times are whole seconds, so `fromtimestamp` is the identity. Everything
outside the process is a parameter:

- the container lookup is `inspect: ContainerId -> Option<ImageId>`;
- `delete_image` is `delete: ImageId -> DeleteReply`;
- the clock reading is `now`;
- the iteration order of the Python dict is `order`;
- ISO-8601 text is an `IsoCodec`, a format/parse pair. The round trip assumes
  only that parsing inverts formatting;
- cron validity, `pytimeparse.parse` and `str(timedelta)` are `Parsers`.

The watermark is assigned, not advanced. `process_event` sets it to the
event's time even when that time is older than the current watermark
(base.py:33). A monotonic watermark would be the natural design, but the
model follows the code; `Events.WatermarkCanRegress` shows the regression.

## Model

| member | source | states |
|---|---|---|
| `StateStore.ParseTime` | src/docker_housekeep/state.py:24-27 | a document value parses to a time only when it is a string that `fromisoformat` accepts; null and other values fail |
| `StateStore.RenderTime` | src/docker_housekeep/state.py:33-36 | a datetime field is written as null exactly when it is absent, and the ISO parser reads the written value back to the original time |
| `StateStore.Dump` | src/docker_housekeep/state.py:32-38 | the document is a record with exactly the fields `timestamp` and `last_used`; the timestamp is null or its ISO text, and `last_used` has the state's keys, each mapped to the ISO text of its time |
| `StateStore.Load` | src/docker_housekeep/state.py:14-29 | empty content is the fresh state, unparsable content fails, and a parsed document loads exactly when it is a well-formed record; a loaded non-empty file always has a watermark, keeps the key set of `last_used` and parses every time through `fromisoformat` |
| `StateStore.LoadDumpRoundTrip` | src/docker_housekeep/state.py:24-38 | a state with a watermark loads back from its dump unchanged, and re-dumping it gives the same document |
| `StateStore.NullTimestampDoesNotReload` | src/docker_housekeep/state.py:24 | dumping a state without a watermark writes null, and loading that fails on the timestamp |
| `StateStore.FreshDoesNotRoundTrip` | src/docker_housekeep/state.py:8-24 | an empty file loads as the fresh state, but the dump of the fresh state does not load |
| `Events.UpdateState` | src/docker_housekeep/base.py:19-28 | a time upserts the entry and leaves every other key alone; no time removes the entry, and only a missing entry raises the warning and leaves the map unchanged |
| `Events.ProcessEvent` | src/docker_housekeep/base.py:31-49 | the watermark becomes the event's time; image save/tag/untag upserts the id at that time; image delete removes it; a container create/exec_create upserts the inspected image, or changes nothing when the container is gone; every other event leaves the map unchanged |
| `Events.LastImageEvent` | src/docker_housekeep/base.py:35 | the event found is a tracked image event about the id and occurs in the history |
| `Events.LastImageEventNone` | src/docker_housekeep/base.py:35 | no event is found exactly when the history has no tracked image event about the id |
| `Events.LastImageEventIsLast` | src/docker_housekeep/base.py:35 | a tracked image event about the id that no later tracked event about the id follows is exactly the event found |
| `Events.ProcessAll` | src/docker_housekeep/__main__.py:43-44 | an empty history leaves the state as it was; otherwise the watermark is the time of the last event |
| `Events.ImageHistory` | src/docker_housekeep/base.py:35-43 | after any history of image events, each id is as its last save/tag/untag/delete says (present with that time unless it was a delete); ids with no such event keep their initial entry |
| `Events.ImageHistoryFromEmpty` | src/docker_housekeep/base.py:35-43 | from an empty map, an id is a key exactly when its last tracked event is not a delete, with the time of that event |
| `Events.WatermarkIsLastEventTime` | src/docker_housekeep/base.py:33 | after a non-empty history the watermark is the time of the last event delivered |
| `Events.WatermarkCanRegress` | src/docker_housekeep/base.py:33 | an event older than the watermark moves the watermark back |
| `Events.TagDeleteAndCreateScenario` | src/docker_housekeep/base.py:35-49 | tag then delete leaves no entry and the watermark at the delete's time; a container create records the inspected image at the event's time |
| `Sweeping.StaleMembers` | src/docker_housekeep/base.py:55-56 | an entry is on the stale list of an order exactly when it is in the order and strictly older than the cutoff |
| `Sweeping.StaleNoDuplicates` | src/docker_housekeep/base.py:55-56 | an order without repetitions gives a stale list without repetitions |
| `Sweeping.StaleIsExact` | src/docker_housekeep/base.py:55-56 | over an enumeration of the map, the stale list holds exactly the keys strictly older than the cutoff, each once |
| `Sweeping.StaleStep` | src/docker_housekeep/base.py:55-56 | one more entry of the order extends the stale list by that entry exactly when it is strictly older than the cutoff |
| `Sweeping.AbortedPass` | src/docker_housekeep/base.py:59-73 | a pass that stops at a stale entry has attempted only stale entries, a prefix of the stale list, all answered with success, 404 or 409 except that last one |
| `Sweeping.StalePrefix` | src/docker_housekeep/base.py:55-56 | the stale entries of a prefix of the iteration order are a prefix of those of the whole order |
| `Sweeping.Sweep` | src/docker_housekeep/base.py:52-73 | only entries strictly older than `now - max_age` are attempted, in iteration order; a completed pass attempted every stale entry with 404/409/success answers; an aborted pass ends right after the one entry whose status was neither 404 nor 409; with only tolerated answers the pass completes and attempts each stale entry exactly once |
| `Configuration.NewConfig` | src/docker_housekeep/config.py:14-31 | an invalid cron schedule fails first; a duration is stored unchanged; text fails exactly when the duration parser rejects it, and is stored as the parsed seconds otherwise |
| `Configuration.DefaultConfig` | src/docker_housekeep/config.py:34 | the default has schedule `0 6 * * *` and the maximum age that `1w` parses to, and exists exactly when both validate |
| `Configuration.DumpDict` | src/docker_housekeep/config.py:52-53 | exactly the keys `sweep-schedule` (the schedule unchanged) and `max-age` (the rendered duration) |
| `Configuration.LoadDict` | src/docker_housekeep/config.py:44-45 | a missing `sweep-schedule`, then a missing `max-age`, is an error; with both keys present the result is the constructor's on the schedule and the `max-age` text, so a result carries the two values of the dictionary |
| `Configuration.DictRoundTrip` | src/docker_housekeep/config.py:44-53 | a valid configuration loads back from its dictionary when the duration parser reads the rendered duration back |
| `Configuration.LoadAsWritten` | src/docker_housekeep/config.py:37-41 | the merge as written yields what loading the defaults alone yields, whatever the file holds |
| `Configuration.LoadAsWrittenIgnoresFile` | src/docker_housekeep/config.py:37-41 | the as-written result does not depend on the file, and a non-default schedule in the file never survives |
| `Configuration.Load` | src/docker_housekeep/config.py:37-41 | corrected merge: it succeeds exactly when the file's schedule (or the default) is a valid cron expression and the file's `max-age` (or the default's text) parses; each field the file sets survives, a missing field takes the default, and no key is ever reported missing |
| `Configuration.LoadHonoursCompleteFile` | src/docker_housekeep/config.py:37-45 | a file holding both keys loads as that file alone |
| `Legacy.LegacyStep` | src/docker-housekeep/__main__.py:17-33 | image save/tag/untag records the event time; image delete removes the id, or only warns and leaves the map unchanged when it is missing; every other event, container `create` included, leaves the map unchanged |
| `Legacy.LegacyRun` | src/docker-housekeep/__main__.py:14-33 | every key the loop adds to the map is the id of an image save, tag or untag event in the history |
| `Legacy.LegacyAgreesOnImageEvents` | src/docker-housekeep/__main__.py:17-28 | on an image event the legacy step changes the map exactly as `process_event` does |
| `Legacy.LegacyIgnoresContainerCreate` | src/docker-housekeep/__main__.py:29-33 | on a container create with a live container the legacy step changes nothing, while `process_event` records the image |
| `Legacy.LegacyRunAgrees` | src/docker-housekeep/__main__.py:13-28 | over any history of image events the legacy loop builds the same map as the current processor |
| `Watch.ResumeFrom` | src/docker_housekeep/__main__.py:40 | the stream resumes from the watermark, or from the epoch when there is none |
| `Watch.HandleEvent` | src/docker_housekeep/__main__.py:43-48 | the state in memory becomes `process_event`'s result, and the file is rewritten with its dump, whose timestamp is the event's time |
| `Watch.PersistedStateReloads` | src/docker_housekeep/__main__.py:43-48 | after any event the file loads back to the state in memory and resumes from that event's time |

## Findings

| source | as written | input that shows it | evidently intended | confidence | as-written member | corrected member |
|---|---|---|---|---|---|---|
| src/docker_housekeep/config.py:39 | the in-place union of the file's data with `dump_dict(default_config)` lets the defaults overwrite every field of the file | a file `{sweep-schedule: "59 23 * * *"}` loads with schedule `0 6 * * *` | fill in only the missing fields, so the file's values win over the defaults | high; not executed | `Configuration.LoadAsWrittenIgnoresFile` | `Configuration.Load` |

## Left out

- Events.ProcessEvent: does not return the "missing entry" warning; `Events.UpdateState` and `Legacy.LegacyStep` return it as a flag, and logging is otherwise not modelled.
- Event decoding: events are already-decoded records. A missing `Type`, `Action`, `id` or `time` key raises KeyError in the source and is not modelled.
- Sweeping.Sweep: the engine's answers are a fixed function, so an answer cannot depend on earlier deletions in the same pass.
- Sweeping.Sweep: an error body that is not JSON, or lacks `message`, raises while the error is being handled; this is not modelled. Transport failures of `delete_image` are not modelled either.
- Sweeping.Sweep: Python's dict order is the `order` parameter, required to list every key once; insertion order itself is not tracked.
- StateStore.Load: a `last_used` that is an empty JSON list or empty string is accepted by the source and yields a state whose map is not a dict. The model rejects it as not a record.
- File handling: reading, `tell`/`seek`/`truncate`, and JSON, YAML and ISO-8601 text are I/O, abstracted to documents and codecs.
- Configuration: YAML values that are not strings, and a YAML document that is not a mapping (an empty config file gives `None`, and `None |= …` raises), are not modelled. `dumps` is YAML text.
- Configuration: durations are whole seconds. Fractional results of `pytimeparse` and microseconds of `timedelta` are not modelled.
- Local-timezone lookup in `fromtimestamp` (base.py:13-16): times are integer seconds.
- The engine client and HTTP over a Unix socket (`dockerapi.py`, `unixsocket.py`, both versions) are transport. The event stream is a sequence of events.
- `feedback.py` (log formatting), `daemon.py` (systemd unit installation), argparse and the command-line surface are not part of this model.
- `asyncio.TaskGroup`, the cron-driven sweep schedule and systemd notification are not modelled. Concurrent execution of sweep and event handling is not modelled either; the model is sequential.
