/** Record shaping of application/logger.py: the JSON formatter that the file
    handler writes with, and the two handler filters.

    A record's message is either a dictionary or anything else; the rendering
    of the creation time as an ISO-8601 string and `json.dumps` itself are
    outside the model, so the formatter yields the dictionary it would dump. */
module JsonLogging {

  /** A JSON-serialisable value. */
  datatype Json =
    | Null
    | Bool(b: bool)
    | Number(n: real)
    | Str(s: string)
    | Array(items: seq<Json>)
    | Object(fields: map<string, Json>)

  datatype Msg = DictMsg(entries: map<string, Json>) | OtherMsg(text: string)

  /** The attributes of a `logging.LogRecord` the formatter and filters read;
      `createdIso` is `utcfromtimestamp(created).isoformat()`. */
  datatype LogRecord = LogRecord(createdIso: string, levelname: string, moduleName: string,
                                 funcName: string, msg: Msg)

  /** The keys every formatted record carries. */
  const FixedKeys: set<string> := {"timestamp", "level", "module", "function"}

  /** The message keys copied into a formatted record. */
  const CopiedKeys: set<string> := {"sim_time", "step", "run_id", "data", "event"}

  /** `JsonFormatter.format`: the four fixed keys from the record, then, for a
      dictionary message, exactly its whitelisted keys with their values
      unchanged. No fixed key is ever overwritten, since the whitelist does
      not contain one. */
  function Format(record: LogRecord): (out: map<string, Json>)
    ensures out.Keys == FixedKeys + (if record.msg.DictMsg? then record.msg.entries.Keys * CopiedKeys else {})
    ensures && out["timestamp"] == Str(record.createdIso + "Z")
            && out["level"] == Str(record.levelname)
            && out["module"] == Str(record.moduleName)
            && out["function"] == Str(record.funcName)
    ensures record.msg.DictMsg? ==>
      forall k :: k in record.msg.entries && k in CopiedKeys ==> out[k] == record.msg.entries[k]
  {
    var fixed := map["timestamp" := Str(record.createdIso + "Z"), "level" := Str(record.levelname),
                     "module" := Str(record.moduleName), "function" := Str(record.funcName)];
    match record.msg
    case OtherMsg(_) => fixed
    case DictMsg(entries) =>
      fixed + map k | k in entries && k in CopiedKeys :: entries[k]
  }

  /** The file handler's filter: a dictionary message with an "event" key. */
  predicate FileAccepts(record: LogRecord)
  {
    record.msg.DictMsg? && "event" in record.msg.entries
  }

  /** The console handler's filter: a dictionary message with a "message"
      key. */
  predicate ConsoleAccepts(record: LogRecord)
  {
    record.msg.DictMsg? && "message" in record.msg.entries
  }

  /** A message that is not a dictionary contributes nothing, and is
      rejected by both handlers. */
  lemma PlainMessageOnlyFixed(record: LogRecord)
    requires record.msg.OtherMsg?
    ensures Format(record).Keys == FixedKeys
    ensures !FileAccepts(record) && !ConsoleAccepts(record)
  {
  }

  /** Every record the file handler accepts is written with its event. */
  lemma FileRecordsCarryEvent(record: LogRecord)
    requires FileAccepts(record)
    ensures "event" in Format(record) && Format(record)["event"] == record.msg.entries["event"]
  {
  }

  /** The console text is never written to the file: "message" is not a key
      of any formatted record, whatever the handlers accept. */
  lemma MessageNeverFormatted(record: LogRecord)
    ensures "message" !in Format(record)
  {
  }
}
