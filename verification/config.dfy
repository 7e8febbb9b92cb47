/** Configuration (src/docker_housekeep/config.py): construction with
    validation, the two-key dictionary encoding, the default configuration
    and the default-merging `load`.

    Durations are whole seconds. Cron validity (`croniter.is_valid`), the
    duration parser (`pytimeparse.parse`) and the text form of a duration
    (`str(timedelta)`) are supplied as `Parsers`. The YAML document is the
    mapping `yaml.safe_load` returns, with string values. */
module Configuration {
  import opened Wrappers

  datatype Parsers = Parsers(
    isValidCron: string -> bool,
    parseDuration: string -> Option<int>,
    renderDuration: int -> string)

  /** The `max_age` argument of the constructor: a `timedelta`, or text to parse. */
  datatype MaxAge = Duration(seconds: int) | Text(text: string)

  datatype Config = Config(sweepSchedule: string, maxAge: int)

  /** The ValueError of the constructor, and the KeyError of `load_dict`. */
  datatype ConfigError =
    | InvalidSchedule(schedule: string)
    | InvalidMaxAge(maxAge: string)
    | MissingKey(key: string)

  type Dict = map<string, string>

  const ScheduleKey := "sweep-schedule"
  const MaxAgeKey := "max-age"
  const DefaultSchedule := "0 6 * * *"
  const DefaultMaxAge := "1w"

  /** `Config.__init__`: the schedule is checked first and must be a cron
      expression; a duration is kept as given, and text must parse. */
  function NewConfig(schedule: string, maxAge: MaxAge, p: Parsers): (r: Result<Config, ConfigError>)
    ensures !p.isValidCron(schedule) ==> r == Failure(InvalidSchedule(schedule))
    ensures p.isValidCron(schedule) && maxAge.Text? && p.parseDuration(maxAge.text).None? ==>
              r == Failure(InvalidMaxAge(maxAge.text))
    ensures r.Success? <==>
              p.isValidCron(schedule) && (maxAge.Text? ==> p.parseDuration(maxAge.text).Some?)
    ensures r.Success? ==> r.value.sweepSchedule == schedule
    ensures r.Success? && maxAge.Duration? ==> r.value.maxAge == maxAge.seconds
    ensures r.Success? && maxAge.Text? ==> Some(r.value.maxAge) == p.parseDuration(maxAge.text)
  {
    if !p.isValidCron(schedule) then Failure(InvalidSchedule(schedule))
    else match maxAge
      case Duration(seconds) => Success(Config(schedule, seconds))
      case Text(text) =>
        match p.parseDuration(text)
        case None => Failure(InvalidMaxAge(text))
        case Some(seconds) => Success(Config(schedule, seconds))
  }

  /** `default_config`, built when the module is imported. */
  function DefaultConfig(p: Parsers): (r: Result<Config, ConfigError>)
    ensures r.Success? <==> p.isValidCron("0 6 * * *") && p.parseDuration("1w").Some?
    ensures r.Success? ==> r.value.sweepSchedule == "0 6 * * *"
    ensures r.Success? ==> Some(r.value.maxAge) == p.parseDuration("1w")
  {
    NewConfig(DefaultSchedule, Text(DefaultMaxAge), p)
  }

  /** `dump_dict`: exactly the two keys, the schedule as given and the
      maximum age as text. */
  function DumpDict(c: Config, p: Parsers): (d: Dict)
    ensures d.Keys == {"sweep-schedule", "max-age"}
    ensures d["sweep-schedule"] == c.sweepSchedule
    ensures d["max-age"] == p.renderDuration(c.maxAge)
  {
    map[ScheduleKey := c.sweepSchedule, MaxAgeKey := p.renderDuration(c.maxAge)]
  }

  /** `load_dict`: both keys are looked up (the schedule first) before the
      constructor validates them; other keys are ignored. */
  function LoadDict(data: Dict, p: Parsers): (r: Result<Config, ConfigError>)
    ensures "sweep-schedule" !in data ==> r == Failure(MissingKey("sweep-schedule"))
    ensures "sweep-schedule" in data && "max-age" !in data ==> r == Failure(MissingKey("max-age"))
    ensures "sweep-schedule" in data && "max-age" in data ==>
              r == NewConfig(data["sweep-schedule"], Text(data["max-age"]), p)
    ensures r.Success? ==>
              && "sweep-schedule" in data && "max-age" in data
              && r.value.sweepSchedule == data["sweep-schedule"]
              && Some(r.value.maxAge) == p.parseDuration(data["max-age"])
  {
    if ScheduleKey !in data then Failure(MissingKey(ScheduleKey))
    else if MaxAgeKey !in data then Failure(MissingKey(MaxAgeKey))
    else NewConfig(data[ScheduleKey], Text(data[MaxAgeKey]), p)
  }

  /** The dictionary encoding round-trips a valid configuration whenever the
      duration parser reads back the text form of a duration. */
  lemma DictRoundTrip(c: Config, p: Parsers)
    requires p.isValidCron(c.sweepSchedule)
    requires p.parseDuration(p.renderDuration(c.maxAge)) == Some(c.maxAge)
    ensures LoadDict(DumpDict(c, p), p) == Success(c)
  {
  }

  /** `load` as written: `data |= dump_dict(default_config)`, so on a shared
      key the default replaces the file's value. Since the defaults hold both
      keys, the result is what loading the defaults alone gives. */
  function LoadAsWritten(data: Dict, p: Parsers): (r: Result<Config, ConfigError>)
    ensures DefaultConfig(p).Failure? ==> r == DefaultConfig(p)
    ensures DefaultConfig(p).Success? ==> r == LoadDict(DumpDict(DefaultConfig(p).value, p), p)
  {
    match DefaultConfig(p)
    case Failure(e) => Failure(e)
    case Success(defaults) =>
      var merged := data + DumpDict(defaults, p);
      assert merged["sweep-schedule"] == defaults.sweepSchedule;
      assert merged["max-age"] == p.renderDuration(defaults.maxAge);
      LoadDict(merged, p)
  }

  /** The file never matters to `load` as written: whatever it says, the
      result is the one for an empty file, and a schedule the file sets to
      anything but the default does not survive. */
  lemma LoadAsWrittenIgnoresFile(data: Dict, p: Parsers)
    ensures LoadAsWritten(data, p) == LoadAsWritten(map[], p)
    ensures "sweep-schedule" in data && data["sweep-schedule"] != "0 6 * * *" &&
            LoadAsWritten(data, p).Success? ==>
              LoadAsWritten(data, p).value.sweepSchedule != data["sweep-schedule"]
  {
  }

  /** `load` as documented ("fill in missing fields"): the defaults are the
      base and the file's fields win. Every field the file sets survives, a
      missing field takes its default, and no key can be reported missing. */
  function Load(data: Dict, p: Parsers): (r: Result<Config, ConfigError>)
    ensures DefaultConfig(p).Failure? ==> r == DefaultConfig(p)
    ensures DefaultConfig(p).Success? && r.Failure? ==> !r.error.MissingKey?
    ensures DefaultConfig(p).Success? ==>
              (r.Success? <==>
                 && p.isValidCron(if "sweep-schedule" in data then data["sweep-schedule"] else "0 6 * * *")
                 && p.parseDuration(if "max-age" in data then data["max-age"]
                                    else p.renderDuration(DefaultConfig(p).value.maxAge)).Some?)
    ensures r.Success? && "sweep-schedule" in data ==> r.value.sweepSchedule == data["sweep-schedule"]
    ensures r.Success? && "sweep-schedule" !in data ==> r.value.sweepSchedule == "0 6 * * *"
    ensures r.Success? && "max-age" in data ==> Some(r.value.maxAge) == p.parseDuration(data["max-age"])
    ensures r.Success? && "max-age" !in data ==>
              Some(r.value.maxAge) == p.parseDuration(p.renderDuration(DefaultConfig(p).value.maxAge))
  {
    match DefaultConfig(p)
    case Failure(e) => Failure(e)
    case Success(defaults) => LoadDict(DumpDict(defaults, p) + data, p)
  }

  /** With a valid file the corrected `load` is exactly the file's
      configuration, where `load` as written returns the defaults. */
  lemma LoadHonoursCompleteFile(data: Dict, p: Parsers)
    requires DefaultConfig(p).Success?
    requires "sweep-schedule" in data && "max-age" in data
    ensures Load(data, p) == LoadDict(data, p)
  {
  }
}
