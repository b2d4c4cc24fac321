/**
  The credential resolution the tasks of `ant_sfdc.js` call: user, password
  and token come either all from the options or all from the environment,
  a token is appended to the password, and a missing user or password is
  reported.
*/
module LegacyAuth {
  import opened Wrappers
  import opened AuthOptions

  /** Where a credential comes from: the option itself, or only the environment variable under `useEnv`. */
  function Source(c: AuthConfig, env: Env, option: Val, variable: string): Val {
    if !c.useEnv then option else EnvVar(env, variable)
  }

  /** The user, the password with any token appended, and the server URL the options end up with. */
  function Resolved(c: AuthConfig, env: Env): AuthConfig {
    var un := Source(c, env, c.user, "SFUSER");
    var pw := Source(c, env, c.pass, "SFPASS");
    var tk := Source(c, env, c.token, "SFTOKEN");
    var url := if c.useEnv && Truthy(EnvVar(env, "SFSERVERURL")) then EnvVar(env, "SFSERVERURL") else c.serverurl;
    c.(user := un, pass := if Truthy(tk) then Plus(pw, tk) else pw, serverurl := url)
  }

  /** The closing `User -> ...` line; reading `.green` of an undefined user throws. */
  function UserLine(user: Val): Message {
    match user
    case Undefined => Thrown("TypeError: cannot read property 'green' of undefined")
    case False => LogLine("User -> undefined")
    case Str(s) => LogLine("User -> " + s)
  }

  /** The reports on the resolved user and password: a missing user, a missing password, then the warning. */
  function Reports(user: Val, pass: Val, target: string): seq<Message> {
    (if !Truthy(user) then [LogError(NoUser + target)] else [])
    + (if !Truthy(pass) then [LogError(NoPass + target)] else [])
    + (if !Truthy(user) || !Truthy(pass) then [FailWarn(CredentialsError)] else [])
  }

  /** The messages `parseAuth(options, target)` emits, in order. */
  function Messages(c: AuthConfig, env: Env, target: string): seq<Message> {
    var r := Resolved(c, env);
    Reports(r.user, r.pass, target) + [UserLine(r.user)]
  }

  /** `parseAuth(options, target)` of `ant_sfdc.js`, updating the shared options object. */
  method ParseAuth(o: Options, env: Env, target: string) returns (messages: seq<Message>)
    modifies o
    ensures o.Snapshot() == Resolved(old(o.Snapshot()), env)
    ensures messages == Messages(old(o.Snapshot()), env, target)
  {
    var un := if !o.useEnv then o.user else EnvVar(env, "SFUSER");
    var pw := if !o.useEnv then o.pass else EnvVar(env, "SFPASS");
    var tk := if !o.useEnv then o.token else EnvVar(env, "SFTOKEN");
    if Truthy(tk) {
      pw := Plus(pw, tk);
    }
    ghost var r := Resolved(old(o.Snapshot()), env);
    assert un == r.user && pw == r.pass;
    messages := [];
    if !Truthy(un) {
      messages := messages + [LogError(NoUser + target)];
    }
    ghost var m1 := messages;
    if !Truthy(pw) {
      messages := messages + [LogError(NoPass + target)];
    }
    assert messages == m1 + (if !Truthy(pw) then [LogError(NoPass + target)] else []);
    ghost var m2 := messages;
    if !Truthy(un) || !Truthy(pw) {
      messages := messages + [FailWarn(CredentialsError)];
    }
    assert messages == m2 + (if !Truthy(un) || !Truthy(pw) then [FailWarn(CredentialsError)] else []);
    assert messages == Reports(un, pw, target);
    o.user := un;
    o.pass := pw;
    if o.useEnv && Truthy(EnvVar(env, "SFSERVERURL")) {
      o.serverurl := EnvVar(env, "SFSERVERURL");
    }
    assert o.serverurl == r.serverurl;
    messages := messages + [UserLine(o.user)];
  }

  // ---------------------------------------------------------------------------
  // Properties
  // ---------------------------------------------------------------------------

  /** Two environments agree on the variable `name`. */
  predicate SameVar(env1: Env, env2: Env, name: string) {
    EnvVar(env1, name) == EnvVar(env2, name)
  }

  /**
    Under `useEnv` the credentials depend only on SFUSER, SFPASS and SFTOKEN,
    never on the options; without it only on the options, never on the
    environment.
  */
  lemma CredentialsFromOneSource(c1: AuthConfig, env1: Env, c2: AuthConfig, env2: Env)
    requires c1.useEnv == c2.useEnv
    requires c1.useEnv ==> SameVar(env1, env2, "SFUSER") && SameVar(env1, env2, "SFPASS") && SameVar(env1, env2, "SFTOKEN")
    requires !c1.useEnv ==> c1.user == c2.user && c1.pass == c2.pass && c1.token == c2.token
    ensures Resolved(c1, env1).user == Resolved(c2, env2).user
    ensures Resolved(c1, env1).pass == Resolved(c2, env2).pass
  {
  }

  /** Under `useEnv` with SFUSER unset, a user given in the options is dropped and the closing log line throws. */
  lemma NoFallbackToOptions(c: AuthConfig, env: Env, target: string)
    requires c.useEnv && "SFUSER" !in env
    ensures Resolved(c, env).user == Undefined
    ensures FailWarn(CredentialsError) in Messages(c, env, target)
    ensures Messages(c, env, target)[|Messages(c, env, target)| - 1].Thrown?
  {
  }

  /** A truthy token is appended to the password, which is then truthy whatever it was. */
  lemma TokenAppended(c: AuthConfig, env: Env)
    requires Truthy(Source(c, env, c.token, "SFTOKEN"))
    ensures var pw := Source(c, env, c.pass, "SFPASS");
      var tk := Source(c, env, c.token, "SFTOKEN");
      Resolved(c, env).pass == Str(ToJsString(pw) + tk.s)
    ensures Truthy(Resolved(c, env).pass)
  {
  }

  /** With the Grunt task default `pass: false` and a token, the password becomes "false" followed by the token. */
  lemma DefaultPasswordWithToken(c: AuthConfig, env: Env)
    requires !c.useEnv && c.pass == False && c.token == Str("tok")
    ensures Resolved(c, env).pass == Str("falsetok")
  {
  }

  /** The warning is raised exactly when the resolved user or password is falsy. */
  lemma WarnIff(c: AuthConfig, env: Env, target: string)
    ensures var r := Resolved(c, env);
      FailWarn(CredentialsError) in Messages(c, env, target) <==> !Truthy(r.user) || !Truthy(r.pass)
    ensures var r := Resolved(c, env);
      && (LogError(NoUser + target) in Messages(c, env, target) <==> !Truthy(r.user))
      && (LogError(NoPass + target) in Messages(c, env, target) <==> !Truthy(r.pass))
  {
    var r := Resolved(c, env);
    var ms := Messages(c, env, target);
    assert NoUser + target != NoPass + target by {
      assert (NoUser + target)[3] != (NoPass + target)[3];
    }
  }

  /** The server URL changes only under `useEnv` with SFSERVERURL set, and then to that value. */
  lemma ServerUrlOverride(c: AuthConfig, env: Env)
    ensures Resolved(c, env).serverurl != c.serverurl ==> c.useEnv && Truthy(EnvVar(env, "SFSERVERURL"))
    ensures c.useEnv && Truthy(EnvVar(env, "SFSERVERURL")) ==> Resolved(c, env).serverurl == EnvVar(env, "SFSERVERURL")
  {
  }

  /** The only log line shows the user; neither the password nor the token is ever written. */
  lemma LogShowsOnlyUser(c: AuthConfig, env: Env, target: string)
    ensures forall m :: m in Messages(c, env, target) && m.LogLine? ==> m == UserLine(Resolved(c, env).user)
  {
  }
}
