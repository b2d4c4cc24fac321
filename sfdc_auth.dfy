/**
  `auth.parseAuth(options, target)` of `sfdc-auth.js`: three phases over the
  shared options object (import of an editor session, environment override,
  validation with the token appended to the password), then one log line
  naming the user or the server.
*/
module SfdcAuth {
  import opened Wrappers
  import opened Strings
  import opened AuthOptions

  // ---------------------------------------------------------------------------
  // The three phases as functions of the options
  // ---------------------------------------------------------------------------

  /** `parseAuthMavensMate`: the access-token shape wins over the sid shape; neither leaves the options as they are. */
  function ImportSessionConfig(c: AuthConfig): AuthConfig
    requires c.sessionConfig.Some?
  {
    var sc := c.sessionConfig.value;
    if Truthy(sc.accessToken) && Truthy(sc.instanceUrl) then
      c.(sessionid := sc.accessToken, serverurl := sc.instanceUrl)
    else if Truthy(sc.sid) && Truthy(sc.serverUrl) then
      c.(sessionid := sc.sid, serverurl := Str(CutAfterDotCom(sc.serverUrl.s)))
    else c
  }

  /** `parseAuthEnv`: each variable that is set and non-empty replaces its option. */
  function EnvOverride(c: AuthConfig, env: Env): AuthConfig {
    c.(user := Or(EnvVar(env, "SFUSER"), c.user),
       pass := Or(EnvVar(env, "SFPASS"), c.pass),
       token := Or(EnvVar(env, "SFTOKEN"), c.token),
       sessionid := Or(EnvVar(env, "SFSESSIONID"), c.sessionid),
       serverurl := Or(EnvVar(env, "SFSERVERURL"), c.serverurl))
  }

  /** The state change of `validateAuth`: a truthy token is appended to the stored password. */
  function WithToken(c: AuthConfig): AuthConfig {
    if Truthy(c.token) then c.(pass := Plus(c.pass, c.token)) else c
  }

  /** The options after the session import and the environment override, each run only when enabled. */
  function BeforeValidation(c: AuthConfig, env: Env): AuthConfig {
    var imported := if c.sessionConfig.Some? then ImportSessionConfig(c) else c;
    if imported.useEnv then EnvOverride(imported, env) else imported
  }

  /** The options once `parseAuth` returns. */
  function Resolved(c: AuthConfig, env: Env): AuthConfig {
    WithToken(BeforeValidation(c, env))
  }

  /** Both the session id and the server URL are truthy. */
  predicate SessionComplete(r: AuthConfig) {
    Truthy(r.sessionid) && Truthy(r.serverurl)
  }

  /** The reports of `validateAuth`, read off the options it leaves behind. */
  function Checks(r: AuthConfig, target: string): seq<Message> {
    (if !Truthy(r.user) && !SessionComplete(r) then [LogError(NoUser + target)] else [])
    + (if !Truthy(r.pass) && !SessionComplete(r) then [LogError(NoPass + target)] else [])
    + (if !SessionComplete(r) && !(Truthy(r.user) || Truthy(r.pass)) then [FailWarn(CredentialsError)] else [])
  }

  /** The closing line: the user if set, else the server URL if set, else nothing. */
  function FinalLine(r: AuthConfig): seq<Message> {
    if Truthy(r.user) then [LogLine("User -> " + r.user.s)]
    else if Truthy(r.serverurl) then [LogLine("Server -> " + r.serverurl.s)]
    else []
  }

  /** Everything `parseAuth` emits, in order. */
  function Messages(c: AuthConfig, env: Env, target: string): seq<Message> {
    var r := Resolved(c, env);
    Checks(r, target) + FinalLine(r)
  }

  // ---------------------------------------------------------------------------
  // The phases as the source runs them, on the shared options object
  // ---------------------------------------------------------------------------

  method ParseAuthMavensMate(o: Options)
    requires o.sessionConfig.Some?
    modifies o
    ensures o.Snapshot() == ImportSessionConfig(old(o.Snapshot()))
  {
    var sc := o.sessionConfig.value;
    if Truthy(sc.accessToken) && Truthy(sc.instanceUrl) {
      o.sessionid := sc.accessToken;
      o.serverurl := sc.instanceUrl;
    } else if Truthy(sc.sid) && Truthy(sc.serverUrl) {
      o.sessionid := sc.sid;
      o.serverurl := Str(CutAfterDotCom(sc.serverUrl.s));
    }
  }

  method ParseAuthEnv(o: Options, env: Env)
    modifies o
    ensures o.Snapshot() == EnvOverride(old(o.Snapshot()), env)
  {
    o.user := Or(EnvVar(env, "SFUSER"), o.user);
    o.pass := Or(EnvVar(env, "SFPASS"), o.pass);
    o.token := Or(EnvVar(env, "SFTOKEN"), o.token);
    o.sessionid := Or(EnvVar(env, "SFSESSIONID"), o.sessionid);
    o.serverurl := Or(EnvVar(env, "SFSERVERURL"), o.serverurl);
  }

  method ValidateAuth(o: Options, target: string) returns (messages: seq<Message>)
    modifies o
    ensures o.Snapshot() == WithToken(old(o.Snapshot()))
    ensures messages == Checks(o.Snapshot(), target)
  {
    var un, pw, tk, sid, url := o.user, o.pass, o.token, o.sessionid, o.serverurl;
    if Truthy(tk) {
      pw := Plus(pw, tk);
      o.pass := pw;
    }
    messages := [];
    if !Truthy(un) && !(Truthy(sid) && Truthy(url)) {
      messages := messages + [LogError(NoUser + target)];
    }
    if !Truthy(pw) && !(Truthy(sid) && Truthy(url)) {
      messages := messages + [LogError(NoPass + target)];
    }
    if !(Truthy(sid) && Truthy(url)) && !(Truthy(un) || Truthy(pw)) {
      messages := messages + [FailWarn(CredentialsError)];
    }
  }

  /** `auth.parseAuth(options, target)`. */
  method ParseAuth(o: Options, env: Env, target: string) returns (messages: seq<Message>)
    modifies o
    ensures o.Snapshot() == Resolved(old(o.Snapshot()), env)
    ensures messages == Messages(old(o.Snapshot()), env, target)
  {
    if o.sessionConfig.Some? {
      ParseAuthMavensMate(o);
    }
    if o.useEnv {
      ParseAuthEnv(o, env);
    }
    messages := ValidateAuth(o, target);
    if Truthy(o.user) {
      messages := messages + [LogLine("User -> " + o.user.s)];
    } else if Truthy(o.serverurl) {
      messages := messages + [LogLine("Server -> " + o.serverurl.s)];
    }
  }

  // ---------------------------------------------------------------------------
  // Session import
  // ---------------------------------------------------------------------------

  /**
    The session import touches only the session id and the server URL: the
    access-token shape sets them from `accessToken` and `instanceUrl`
    whatever `sid` holds; otherwise the sid shape sets them from `sid` and
    the server URL cut after ".com"; a config of neither shape changes
    nothing.
  */
  lemma SessionConfigShapes(c: AuthConfig)
    requires c.sessionConfig.Some?
    ensures var r := ImportSessionConfig(c);
      r.(sessionid := c.sessionid, serverurl := c.serverurl) == c
    ensures var sc := c.sessionConfig.value; var r := ImportSessionConfig(c);
      Truthy(sc.accessToken) && Truthy(sc.instanceUrl) ==> r.sessionid == sc.accessToken && r.serverurl == sc.instanceUrl
    ensures var sc := c.sessionConfig.value; var r := ImportSessionConfig(c);
      !(Truthy(sc.accessToken) && Truthy(sc.instanceUrl)) && Truthy(sc.sid) && Truthy(sc.serverUrl) ==>
        r.sessionid == sc.sid && r.serverurl == Str(CutAfterDotCom(sc.serverUrl.s))
    ensures var sc := c.sessionConfig.value;
      !(Truthy(sc.accessToken) && Truthy(sc.instanceUrl)) && !(Truthy(sc.sid) && Truthy(sc.serverUrl)) ==>
        ImportSessionConfig(c) == c
  {
  }

  /**
    A server URL taken from the sid shape is already cut: cutting it again
    changes nothing, and one without ".com" is kept whole.
  */
  lemma SidShapeUrlIsStable(c: AuthConfig)
    requires c.sessionConfig.Some?
    requires var sc := c.sessionConfig.value;
      !(Truthy(sc.accessToken) && Truthy(sc.instanceUrl)) && Truthy(sc.sid) && Truthy(sc.serverUrl)
    ensures var url := ImportSessionConfig(c).serverurl;
      url.Str? && CutAfterDotCom(url.s) == url.s
    ensures var u := c.sessionConfig.value.serverUrl.s;
      (forall i :: !DotComAt(u, i)) ==> ImportSessionConfig(c).serverurl == c.sessionConfig.value.serverUrl
  {
    CutAfterDotComIdempotent(c.sessionConfig.value.serverUrl.s);
  }

  // ---------------------------------------------------------------------------
  // Environment override and token
  // ---------------------------------------------------------------------------

  /**
    Under `useEnv` each non-empty variable wins over the option and over the
    session import, which runs first; an unset or empty variable keeps the
    value the option had after the import. The password is the one validation
    then appends the token to; the token, once resolved, is kept.
  */
  lemma EnvWins(c: AuthConfig, env: Env)
    requires c.useEnv
    ensures var imported := if c.sessionConfig.Some? then ImportSessionConfig(c) else c;
      var r := Resolved(c, env);
      && r.user == (if Truthy(EnvVar(env, "SFUSER")) then EnvVar(env, "SFUSER") else imported.user)
      && BeforeValidation(c, env).pass == (if Truthy(EnvVar(env, "SFPASS")) then EnvVar(env, "SFPASS") else imported.pass)
      && r.token == (if Truthy(EnvVar(env, "SFTOKEN")) then EnvVar(env, "SFTOKEN") else imported.token)
      && r.sessionid == (if Truthy(EnvVar(env, "SFSESSIONID")) then EnvVar(env, "SFSESSIONID") else imported.sessionid)
      && r.serverurl == (if Truthy(EnvVar(env, "SFSERVERURL")) then EnvVar(env, "SFSERVERURL") else imported.serverurl)
  {
  }

  /** Without `useEnv` the environment is never read. */
  lemma EnvIgnoredWithoutUseEnv(c: AuthConfig, env1: Env, env2: Env, target: string)
    requires !c.useEnv
    ensures Resolved(c, env1) == Resolved(c, env2)
    ensures Messages(c, env1, target) == Messages(c, env2, target)
  {
  }

  /**
    The password stored back is the resolved password with a truthy token
    appended once; the token field itself stays, and nothing else is changed
    by validation.
  */
  lemma TokenAppendedToPassword(c: AuthConfig, env: Env)
    ensures var b := BeforeValidation(c, env); var r := Resolved(c, env);
      && r.pass == (if Truthy(b.token) then Str(ToJsString(b.pass) + b.token.s) else b.pass)
      && r.(pass := b.pass) == b
    ensures var b := BeforeValidation(c, env);
      Truthy(b.token) ==> Truthy(Resolved(c, env).pass)
  {
  }

  // ---------------------------------------------------------------------------
  // Validation reports
  // ---------------------------------------------------------------------------

  /**
    "no username" and "no password" are logged exactly when that credential
    is falsy and the session pair is incomplete; the one warning is raised
    exactly when the session pair is incomplete and user and password are
    both falsy, so a user alone or a password alone raises none.
  */
  lemma ReportsIff(c: AuthConfig, env: Env, target: string)
    ensures var r := Resolved(c, env); var ms := Messages(c, env, target);
      && (LogError(NoUser + target) in ms <==> !Truthy(r.user) && !SessionComplete(r))
      && (LogError(NoPass + target) in ms <==> !Truthy(r.pass) && !SessionComplete(r))
      && (FailWarn(CredentialsError) in ms <==> !SessionComplete(r) && !Truthy(r.user) && !Truthy(r.pass))
    ensures var r := Resolved(c, env);
      Warnings(Messages(c, env, target)) ==
        if !SessionComplete(r) && !Truthy(r.user) && !Truthy(r.pass) then [CredentialsError] else []
  {
    var r := Resolved(c, env);
    assert Messages(c, env, target) == Checks(r, target) + FinalLine(r);
    ChecksMembership(r, target);
    ChecksWarnings(r, target);
  }

  /** The three iffs of `ReportsIff`, for whatever options `validateAuth` leaves behind. */
  lemma ChecksMembership(r: AuthConfig, target: string)
    ensures var ms := Checks(r, target) + FinalLine(r);
      && (LogError(NoUser + target) in ms <==> !Truthy(r.user) && !SessionComplete(r))
      && (LogError(NoPass + target) in ms <==> !Truthy(r.pass) && !SessionComplete(r))
      && (FailWarn(CredentialsError) in ms <==> !SessionComplete(r) && !Truthy(r.user) && !Truthy(r.pass))
  {
    assert NoUser + target != NoPass + target by {
      assert (NoUser + target)[3] != (NoPass + target)[3];
    }
  }

  /** The warnings of `ReportsIff`, for whatever options `validateAuth` leaves behind. */
  lemma ChecksWarnings(r: AuthConfig, target: string)
    ensures Warnings(Checks(r, target) + FinalLine(r)) ==
      if !SessionComplete(r) && !Truthy(r.user) && !Truthy(r.pass) then [CredentialsError] else []
  {
    WarningsOfConcat(Checks(r, target), FinalLine(r));
    var a := if !Truthy(r.user) && !SessionComplete(r) then [LogError(NoUser + target)] else [];
    var b := if !Truthy(r.pass) && !SessionComplete(r) then [LogError(NoPass + target)] else [];
    var w := if !SessionComplete(r) && !(Truthy(r.user) || Truthy(r.pass)) then [FailWarn(CredentialsError)] else [];
    WarningsOfConcat(a + b, w);
    WarningsOfConcat(a, b);
  }

  lemma {:induction false} WarningsOfConcat(xs: seq<Message>, ys: seq<Message>)
    ensures Warnings(xs + ys) == Warnings(xs) + Warnings(ys)
  {
    if xs == [] {
      assert xs + ys == ys;
    } else {
      assert (xs + ys)[0] == xs[0];
      assert (xs + ys)[1..] == xs[1..] + ys;
      WarningsOfConcat(xs[1..], ys);
    }
  }

  // ---------------------------------------------------------------------------
  // What is logged
  // ---------------------------------------------------------------------------

  /** Two session configs of the same shape with the same URLs; their secrets may differ. */
  predicate SameSessionShape(a: Option<SessionConfig>, b: Option<SessionConfig>) {
    && a.Some? == b.Some?
    && (a.Some? ==>
         && Truthy(a.value.accessToken) == Truthy(b.value.accessToken)
         && Truthy(a.value.sid) == Truthy(b.value.sid)
         && a.value.instanceUrl == b.value.instanceUrl
         && a.value.serverUrl == b.value.serverUrl)
  }

  /**
    The log line never depends on the password, the token or the session
    id: runs that differ only in those (in the options, the session config or
    the environment) log the same line.
  */
  lemma LogLineHidesSecrets(c1: AuthConfig, env1: Env, c2: AuthConfig, env2: Env)
    requires c1.user == c2.user && c1.serverurl == c2.serverurl && c1.useEnv == c2.useEnv
    requires SameSessionShape(c1.sessionConfig, c2.sessionConfig)
    requires EnvVar(env1, "SFUSER") == EnvVar(env2, "SFUSER")
    requires EnvVar(env1, "SFSERVERURL") == EnvVar(env2, "SFSERVERURL")
    ensures FinalLine(Resolved(c1, env1)) == FinalLine(Resolved(c2, env2))
  {
    ImportKeepsLogged(c1, c2);
    var b1, b2 := BeforeValidation(c1, env1), BeforeValidation(c2, env2);
    assert b1.user == b2.user && b1.serverurl == b2.serverurl;
    assert Resolved(c1, env1).user == b1.user && Resolved(c1, env1).serverurl == b1.serverurl;
    assert Resolved(c2, env2).user == b2.user && Resolved(c2, env2).serverurl == b2.serverurl;
  }

  /** The session import sets the same user and server URL from configs of the same shape. */
  lemma ImportKeepsLogged(c1: AuthConfig, c2: AuthConfig)
    requires c1.user == c2.user && c1.serverurl == c2.serverurl && c1.useEnv == c2.useEnv
    requires SameSessionShape(c1.sessionConfig, c2.sessionConfig)
    ensures var i1 := if c1.sessionConfig.Some? then ImportSessionConfig(c1) else c1;
      var i2 := if c2.sessionConfig.Some? then ImportSessionConfig(c2) else c2;
      i1.user == i2.user && i1.serverurl == i2.serverurl && i1.useEnv == i2.useEnv
  {
  }

  /** The only log line names the user when one is set, otherwise the server URL. */
  lemma LogLineNamesUserOrServer(c: AuthConfig, env: Env, target: string)
    ensures var r := Resolved(c, env);
      forall m :: m in Messages(c, env, target) && m.LogLine? ==>
        (Truthy(r.user) && m.text == "User -> " + r.user.s)
        || (!Truthy(r.user) && Truthy(r.serverurl) && m.text == "Server -> " + r.serverurl.s)
  {
  }

  // ---------------------------------------------------------------------------
  // The cases of test/spec/auth-test.js (which call parseAuth without a target)
  // ---------------------------------------------------------------------------

  const Unset: AuthConfig := AuthConfig(Undefined, Undefined, Undefined, Undefined, Undefined, false, None)

  /** Empty options: the one warning is "username/password error". */
  lemma EmptyOptionsWarn(env: Env)
    ensures Warnings(Messages(Unset, env, "undefined")) == [CredentialsError]
  {
    ReportsIff(Unset, env, "undefined");
  }

  /** User and password set: no warning. */
  lemma UserAndPassDoNotWarn(env: Env)
    ensures Warnings(Messages(Unset.(user := Str("user"), pass := Str("pass")), env, "undefined")) == []
  {
    ReportsIff(Unset.(user := Str("user"), pass := Str("pass")), env, "undefined");
  }

  /** Session id and server URL set: no warning. */
  lemma SessionDoesNotWarn(env: Env)
    ensures Warnings(Messages(Unset.(sessionid := Str("sessionid"), serverurl := Str("serverurl")), env, "undefined")) == []
  {
    ReportsIff(Unset.(sessionid := Str("sessionid"), serverurl := Str("serverurl")), env, "undefined");
  }

  /** A session config of the access-token shape sets the session id and the server URL. */
  lemma SessionConfigSetsSession(env: Env)
    ensures var c := Unset.(sessionConfig := Some(SessionConfig(Str("123"), Str("abc"), Undefined, Undefined)));
      Resolved(c, env).sessionid == Str("123") && Resolved(c, env).serverurl == Str("abc")
  {
  }

  /** All five variables set under `useEnv`: the options take them, the password with the token appended. */
  lemma EnvironmentSetsEverything()
    ensures var env := map["SFUSER" := "user", "SFPASS" := "pass", "SFTOKEN" := "token",
                           "SFSESSIONID" := "sessionid", "SFSERVERURL" := "serverurl"];
      var r := Resolved(Unset.(useEnv := true), env);
      r.user == Str("user") && r.pass == Str("passtoken") && r.token == Str("token")
      && r.sessionid == Str("sessionid") && r.serverurl == Str("serverurl")
  {
  }
}
