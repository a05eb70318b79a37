/** The record that producers hand to sinks, and a conventional option type. */
module Records {

  datatype Option<+T> = None | Some(value: T)

  datatype Level = Debug | Info | Warn | Error | Fatal

  datatype Tag = Tag(key: string, value: string)

  /** An immutable, fully materialized log record. */
  datatype LogRecord = LogRecord(
    level: Level,
    simTime: real,
    missionElapsed: real,
    wallTimeNs: int,
    threadId: nat,
    file: string,
    line: nat,
    func: string,
    loggerName: string,
    tags: seq<Tag>,
    message: string)
}
