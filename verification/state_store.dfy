/** The persisted state of the daemon (src/docker_housekeep/state.py): a
    watermark timestamp and the last-used time of every tracked image, and
    the `load`/`dump` pair that moves it to and from the state file.

    JSON text is abstracted to the document tree `Doc`; the file content is
    either empty, not JSON at all, or a parsed document. Datetimes are whole
    seconds, and their ISO-8601 text form is an `IsoCodec` supplied by the
    caller. */
module StateStore {
  import opened Wrappers

  type Time = int
  type ImageId = string

  /** The persisted aggregate: `timestamp` is the watermark (absent before
      the first event), `lastUsed` maps image ids to their last-used time. */
  datatype State = State(timestamp: Option<Time>, lastUsed: map<ImageId, Time>)

  /** The value of a default-constructed `State()`. */
  const Fresh: State := State(None, map[])

  /** A JSON document, as `json.load` returns it and `json.dump` consumes it. */
  datatype Doc =
    | Null
    | Bool(b: bool)
    | Num(n: int)
    | Str(text: string)
    | Arr(items: seq<Doc>)
    | Obj(fields: map<string, Doc>)

  /** What reading the state file yields: nothing at all, text that is not
      JSON, or a parsed document. */
  datatype FileContent = EmptyFile | Unparsable | Parsed(doc: Doc)

  /** `datetime.isoformat` and `datetime.fromisoformat`; `parse` answers
      `None` where `fromisoformat` raises. */
  datatype IsoCodec = IsoCodec(format: Time -> string, parse: string -> Option<Time>)

  /** `fromisoformat` inverts `isoformat` on every time. */
  ghost predicate LeftInverse(iso: IsoCodec) {
    forall t :: iso.parse(iso.format(t)) == Some(t)
  }

  /** The reasons `load` raises (ValueError, KeyError or TypeError in the source). */
  datatype LoadError =
    | NotJson
    | NotARecord(field: string)
    | MissingField(name: string)
    | BadDatetime(field: string)

  /** `fromisoformat` applied to a document value: only strings can parse,
      and `None` (JSON null) raises. */
  function ParseTime(d: Doc, iso: IsoCodec): (r: Option<Time>)
    ensures r.Some? ==> d.Str? && iso.parse(d.text) == r
    ensures d.Str? ==> r == iso.parse(d.text)
  {
    if d.Str? then iso.parse(d.text) else None
  }

  /** The document written for a datetime field, through the `default` hook
      of `json.dump` (a datetime becomes its ISO text, `None` becomes null). */
  function RenderTime(t: Option<Time>, iso: IsoCodec): (d: Doc)
    ensures d.Null? <==> t.None?
    ensures LeftInverse(iso) ==> ParseTime(d, iso) == t
  {
    match t
    case None => Null
    case Some(v) => Str(iso.format(v))
  }

  /** The well-formed state records: an object whose `timestamp` is ISO text
      and whose `last_used` is an object of ISO texts. Extra fields are
      ignored by the loader and therefore allowed. */
  ghost predicate WellFormedRecord(d: Doc, iso: IsoCodec) {
    && d.Obj?
    && "timestamp" in d.fields
    && ParseTime(d.fields["timestamp"], iso).Some?
    && "last_used" in d.fields
    && d.fields["last_used"].Obj?
    && forall id :: id in d.fields["last_used"].fields ==>
         ParseTime(d.fields["last_used"].fields[id], iso).Some?
  }

  /** `dump`: the record `{timestamp, last_used}` of `dataclasses.asdict`,
      every datetime rendered through `isoformat`. */
  function Dump(s: State, iso: IsoCodec): (d: Doc)
    ensures d.Obj? && d.fields.Keys == {"timestamp", "last_used"}
    ensures d.fields["timestamp"] == RenderTime(s.timestamp, iso)
    ensures d.fields["last_used"].Obj?
    ensures d.fields["last_used"].fields.Keys == s.lastUsed.Keys
    ensures forall id :: id in s.lastUsed ==>
              d.fields["last_used"].fields[id] == Str(iso.format(s.lastUsed[id]))
  {
    var used := map id | id in s.lastUsed :: RenderTime(Some(s.lastUsed[id]), iso);
    Obj(map["timestamp" := RenderTime(s.timestamp, iso), "last_used" := Obj(used)])
  }

  /** `load`: an empty file is a fresh state; otherwise the content must be
      a well-formed record, parsed field by field in the order the source
      reads them (timestamp first, then last_used). */
  function Load(content: FileContent, iso: IsoCodec): (r: Result<State, LoadError>)
    ensures content == EmptyFile ==> r == Success(Fresh)
    ensures content == Unparsable ==> r.Failure?
    ensures content.Parsed? ==> (r.Success? <==> WellFormedRecord(content.doc, iso))
    ensures content != EmptyFile && r.Success? ==> r.value.timestamp.Some?
    ensures content.Parsed? && r.Success? ==>
              && Some(r.value.timestamp.value) == ParseTime(content.doc.fields["timestamp"], iso)
              && r.value.lastUsed.Keys == content.doc.fields["last_used"].fields.Keys
              && forall id :: id in r.value.lastUsed ==>
                   Some(r.value.lastUsed[id]) == ParseTime(content.doc.fields["last_used"].fields[id], iso)
  {
    match content
    case EmptyFile => Success(Fresh)
    case Unparsable => Failure(NotJson)
    case Parsed(d) =>
      if !d.Obj? then Failure(NotARecord("state"))
      else if "timestamp" !in d.fields then Failure(MissingField("timestamp"))
      else match ParseTime(d.fields["timestamp"], iso)
        case None => Failure(BadDatetime("timestamp"))
        case Some(t) =>
          if "last_used" !in d.fields then Failure(MissingField("last_used"))
          else
            var used := d.fields["last_used"];
            if !used.Obj? then Failure(NotARecord("last_used"))
            else if exists id | id in used.fields :: ParseTime(used.fields[id], iso).None? then
              Failure(BadDatetime("last_used"))
            else
              Success(State(Some(t), map id | id in used.fields :: ParseTime(used.fields[id], iso).value))
  }

  /** A state with a watermark survives a dump followed by a load, so
      dumping the reloaded state rewrites the same document. */
  lemma LoadDumpRoundTrip(s: State, iso: IsoCodec)
    requires LeftInverse(iso)
    requires s.timestamp.Some?
    ensures Load(Parsed(Dump(s, iso)), iso) == Success(s)
    ensures Dump(Load(Parsed(Dump(s, iso)), iso).value, iso) == Dump(s, iso)
  {
    var d := Dump(s, iso);
    var used := d.fields["last_used"];
    forall id | id in used.fields
      ensures ParseTime(used.fields[id], iso) == Some(s.lastUsed[id])
    {
      assert used.fields[id] == RenderTime(Some(s.lastUsed[id]), iso);
    }
    assert WellFormedRecord(d, iso);
    var r := Load(Parsed(d), iso).value;
    assert r.lastUsed == s.lastUsed;
  }

  /** Dumping a state without a watermark writes `"timestamp": null`, and
      loading that document fails because `fromisoformat(None)` raises:
      this is the case where the round trip does not hold. */
  lemma NullTimestampDoesNotReload(s: State, iso: IsoCodec)
    requires s.timestamp.None?
    ensures Load(Parsed(Dump(s, iso)), iso) == Failure(BadDatetime("timestamp"))
  {
  }

  /** In particular a fresh state, once dumped, cannot be loaded back. */
  lemma FreshDoesNotRoundTrip(iso: IsoCodec)
    ensures Load(EmptyFile, iso) == Success(Fresh)
    ensures Load(Parsed(Dump(Fresh, iso)), iso).Failure?
  {
    NullTimestampDoesNotReload(Fresh, iso);
  }
}
