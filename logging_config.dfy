/**
 * The logger configuration: the deployment environment picks a default level, an output
 * format and the list of transports; a non-empty LOG_LEVEL overrides the level.
 */
module LoggingConfig {
  import opened Values

  /** `colorize()+simple()` for the console, `timestamp()+json()` in production. */
  datatype Format = ColorizedSimple | TimestampJson

  datatype Transport = ConsoleTransport(format: Format) | SentryTransport

  /** `{ level, format, transports }`; an unset `logFormat` is `None`. */
  datatype LoggerConfig = LoggerConfig(level: string, format: Option<Format>, transports: seq<Transport>)

  /** `getLoggerConfig`, with `env.NODE_ENV` and `env.LOG_LEVEL` as inputs. */
  method GetLoggerConfig(nodeEnv: string, logLevel: string) returns (cfg: LoggerConfig)
    ensures nodeEnv == "development" || nodeEnv == "sandbox" ==>
      cfg.format == Some(ColorizedSimple) && cfg.transports == [ConsoleTransport(ColorizedSimple)] &&
      cfg.level == OrElse(logLevel, "info")
    ensures nodeEnv == "production" ==>
      cfg.format == Some(TimestampJson) &&
      cfg.transports == [SentryTransport, ConsoleTransport(ColorizedSimple)] &&
      cfg.level == OrElse(logLevel, "error")
    ensures nodeEnv !in {"development", "sandbox", "production"} ==>
      cfg.format == None && cfg.transports == [] && cfg.level == logLevel
    ensures logLevel != "" ==> cfg.level == logLevel
    ensures cfg.transports != [] <==> nodeEnv in {"development", "sandbox", "production"}
  {
    var defaultLogLevel := "";
    var logFormat: Option<Format> := None;
    var loggerTransports: seq<Transport> := [];

    var consoleLogFormat := ColorizedSimple;
    var consoleLogTransport := ConsoleTransport(consoleLogFormat);
    if nodeEnv == "development" || nodeEnv == "sandbox" {
      defaultLogLevel := "info";
      logFormat := Some(consoleLogFormat);
      loggerTransports := loggerTransports + [consoleLogTransport];
    } else if nodeEnv == "production" {
      defaultLogLevel := "error";
      logFormat := Some(TimestampJson);
      loggerTransports := loggerTransports + [SentryTransport];
      loggerTransports := loggerTransports + [consoleLogTransport];
    }

    var level := OrElse(logLevel, defaultLogLevel);
    cfg := LoggerConfig(level, logFormat, loggerTransports);
  }
}
