/**
  The credential part of a task's options object, the process environment,
  and the messages the authentication code emits through the build tool's
  logger (`log.error`, `log.writeln`) and failure channel (`fail.warn`).
*/
module AuthOptions {
  import opened Wrappers

  /**
    A credential option as JavaScript holds it: missing, the Grunt task default
    `false`, or a string.
  */
  datatype Val = Undefined | False | Str(s: string)

  /** JavaScript truthiness: only a non-empty string is truthy. */
  predicate Truthy(v: Val) {
    v.Str? && v.s != ""
  }

  /** The string `+` makes of a value. */
  function ToJsString(v: Val): string {
    match v
    case Undefined => "undefined"
    case False => "false"
    case Str(s) => s
  }

  /** `a + b`: string concatenation after conversion. */
  function Plus(a: Val, b: Val): Val {
    Str(ToJsString(a) + ToJsString(b))
  }

  /** `a || b`. */
  function Or(a: Val, b: Val): Val {
    if Truthy(a) then a else b
  }

  /** `process.env`: every variable that is set holds a string. */
  type Env = map<string, string>

  /** `process.env[name]`. */
  function EnvVar(env: Env, name: string): Val {
    if name in env then Str(env[name]) else Undefined
  }

  /** A session exported by an editor plugin, in either of the two shapes it comes in. */
  datatype SessionConfig = SessionConfig(accessToken: Val, instanceUrl: Val, sid: Val, serverUrl: Val)

  /** The options fields the authentication code reads or writes. */
  datatype AuthConfig = AuthConfig(
    user: Val, pass: Val, token: Val, sessionid: Val, serverurl: Val,
    useEnv: bool, sessionConfig: Option<SessionConfig>)

  /**
    What reaches the user: `log.error` lines, `fail.warn` aborts (recorded,
    execution continuing as under `--force`), `log.writeln` lines, and a
    JavaScript exception that ends the Grunt task.
  */
  datatype Message = LogError(text: string) | FailWarn(text: string) | LogLine(text: string) | Thrown(text: string)

  const NoUser: string := "no username specified for "
  const NoPass: string := "no password specified for "
  const CredentialsError: string := "username/password error"

  /** The texts passed to `fail.warn`, in order: what the tests collect by stubbing it. */
  function Warnings(messages: seq<Message>): seq<string> {
    if messages == [] then []
    else (if messages[0].FailWarn? then [messages[0].text] else []) + Warnings(messages[1..])
  }

  /** The shared, mutable options object of one task run. */
  class Options {
    var user: Val
    var pass: Val
    var token: Val
    var sessionid: Val
    var serverurl: Val
    var useEnv: bool
    var sessionConfig: Option<SessionConfig>

    /** The current field values. */
    function Snapshot(): AuthConfig
      reads this
    {
      AuthConfig(user, pass, token, sessionid, serverurl, useEnv, sessionConfig)
    }

    constructor (c: AuthConfig)
      ensures Snapshot() == c
    {
      user, pass, token, sessionid, serverurl := c.user, c.pass, c.token, c.sessionid, c.serverurl;
      useEnv, sessionConfig := c.useEnv, c.sessionConfig;
    }
  }
}
