/**
 * The MongoDB connection: the connection URL assembled from the environment, and the
 * connect step, which logs the URL outside production and never lets a failure escape.
 */
module DbConnection {
  import opened Values
  import opened Text

  /** The MONGODB_* settings read from the environment. */
  datatype MongoEnv = MongoEnv(
    uriPrefix: string, appUser: string, appPassword: string,
    host: string, databaseName: string, optionParams: string)

  /** The `user:password@` segment, left out when no user is configured. */
  function Credentials(user: string, password: string): (creds: string)
    ensures creds == "" <==> user == ""
    ensures user != "" ==> creds == user + ":" + password + "@"
  {
    if user != "" then user + ":" + password + "@" else ""
  }

  function MongoUrl(e: MongoEnv): (url: string)
  {
    e.uriPrefix + "://" + Credentials(e.appUser, e.appPassword) + e.host + "/" + e.databaseName + "?" + e.optionParams
  }

  /** The URL opens with the scheme and "://" and closes with '?' and the option parameters. */
  lemma MongoUrlFrame(e: MongoEnv)
    ensures var url := MongoUrl(e);
            var scheme := e.uriPrefix + "://";
            var options := "?" + e.optionParams;
            && |url| >= |scheme| + |options|
            && url[..|scheme|] == scheme
            && url[|url| - |options|..] == options
  {
    var scheme := e.uriPrefix + "://";
    var options := "?" + e.optionParams;
    var middle := Credentials(e.appUser, e.appPassword) + e.host + "/" + e.databaseName;
    assert MongoUrl(e) == scheme + middle + options;
  }

  /** The option parameters are everything after the URL's last '?'. */
  lemma OptionsRecovered(e: MongoEnv)
    requires '?' !in e.optionParams
    ensures AfterLast(MongoUrl(e), '?') == e.optionParams
  {
    var head := e.uriPrefix + "://" + Credentials(e.appUser, e.appPassword) + e.host + "/" + e.databaseName;
    assert MongoUrl(e) == head + ['?'] + e.optionParams;
    AfterLastOfJoin(head, '?', e.optionParams);
  }

  /** The `?` separator is present even when there are no option parameters. */
  lemma EmptyOptionsKeepSeparator(e: MongoEnv)
    requires e.optionParams == ""
    ensures |MongoUrl(e)| > 0 && MongoUrl(e)[|MongoUrl(e)| - 1] == '?'
  {
  }

  /** Without a user the URL has no credentials: the host follows the scheme separator directly. */
  lemma NoUserNoCredentials(e: MongoEnv)
    requires e.appUser == ""
    ensures MongoUrl(e) == e.uriPrefix + "://" + e.host + "/" + e.databaseName + "?" + e.optionParams
  {
  }

  /** With a user, the text after "://" up to the first ':' is that user. */
  lemma UserRecovered(e: MongoEnv)
    requires e.appUser != "" && ':' !in e.appUser
    ensures BeforeFirst(MongoUrl(e)[|e.uriPrefix| + 3..], ':') == e.appUser
  {
    var rest := e.appPassword + "@" + e.host + "/" + e.databaseName + "?" + e.optionParams;
    assert MongoUrl(e) == e.uriPrefix + "://" + (e.appUser + [':'] + rest);
    assert MongoUrl(e)[|e.uriPrefix| + 3..] == e.appUser + [':'] + rest;
    BeforeFirstOfJoin(e.appUser, ':', rest);
  }

  datatype LogEntry = Info(message: string) | Failure(message: string, reason: string)

  const ConnectingPrefix := "Connecting to MongoDB with URL: "
  const Connected := "Successful connection to MongoDB."
  const FailedConnection := "Failed connection to MongoDB:"

  /**
   * `connectDB`: `processNodeEnv` is `process.env.NODE_ENV` (absent when unset) and `connect`
   * stands for `mongoose.connect`. The result is the sequence of log entries written.
   */
  function ConnectDB(e: MongoEnv, processNodeEnv: Option<string>, connect: string -> Outcome<()>): (r: Outcome<seq<LogEntry>>)
    ensures r.Returned? && 1 <= |r.value| <= 2
    ensures Info(ConnectingPrefix + MongoUrl(e)) in r.value <==> processNodeEnv != Some("production")
    ensures connect(MongoUrl(e)).Returned? <==> Info(Connected) in r.value
    ensures connect(MongoUrl(e)).Threw? ==>
      r.value[|r.value| - 1] == Failure(FailedConnection, connect(MongoUrl(e)).message)
  {
    var url := MongoUrl(e);
    var announced := if processNodeEnv != Some("production") then [Info(ConnectingPrefix + url)] else [];
    match connect(url)
    case Returned(_) => Returned(announced + [Info(Connected)])
    case Threw(message) => Returned(announced + [Failure(FailedConnection, message)])
  }
}
