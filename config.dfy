/**
 * The application settings of config.py: every attribute of `Settings` is one
 * environment lookup with a default, followed by a coercion. The process
 * environment is a parameter here; `Load` is the evaluation of the class body
 * and the module-level `settings` instance built from it.
 */
module Config {
  import opened Wrappers
  import Coerce
  import IntLiteral

  /** The process environment: variable name to raw value. */
  type Env = map<string, string>

  // ---------------------------------------------------------------------
  // Defaults
  // ---------------------------------------------------------------------

  const DefaultAppName: string := "wudi"
  const DefaultAppVersion: string := "0.1.0"
  const DefaultDebug: string := "false"
  const DefaultHost: string := "0.0.0.0"
  const DefaultPort: string := "8000"
  const DefaultReload: string := "false"
  const DefaultAllowedHosts: string := "*"
  const DefaultLogLevel: string := "INFO"
  const DefaultTemplatesDir: string := "templates"
  const DefaultHealthCheckEnabled: string := "true"
  const DefaultGitCommit: string := "unknown"

  /** The variables the settings read; no other variable affects them. */
  const SettingsKeys: set<string> := {
    "APP_NAME", "APP_VERSION", "DEBUG", "HOST", "PORT", "RELOAD", "SECRET_KEY",
    "ALLOWED_HOSTS", "LOG_LEVEL", "TEMPLATES_DIR", "HEALTH_CHECK_ENABLED", "GIT_COMMIT"
  }

  // ---------------------------------------------------------------------
  // Data model
  // ---------------------------------------------------------------------

  /** One field per attribute of the `Settings` class. */
  datatype Settings = Settings(
    appName: string,
    appVersion: string,
    debug: bool,
    host: string,
    port: int,
    reload: bool,
    secretKey: Option<string>,
    allowedHosts: seq<string>,
    logLevel: string,
    templatesDir: string,
    healthCheckEnabled: bool,
    gitCommit: string
  )

  /** The ValueError `int()` raises on the PORT value, with the offending text. */
  datatype ConfigError = InvalidPort(raw: string)

  // ---------------------------------------------------------------------
  // Environment lookup
  // ---------------------------------------------------------------------

  /** `os.getenv(key, default)`. */
  function Getenv(env: Env, key: string, default: string): (v: string)
    ensures key in env ==> v == env[key]
    ensures key !in env ==> v == default
  {
    if key in env then env[key] else default
  }

  /** `os.getenv(key)`: `None` exactly when the variable is unset. */
  function GetenvOptional(env: Env, key: string): (v: Option<string>)
    ensures v.None? <==> key !in env
    ensures v.Some? ==> v.value == env[key]
  {
    if key in env then Some(env[key]) else None
  }

  // ---------------------------------------------------------------------
  // Loading
  // ---------------------------------------------------------------------

  /** The attributes of `Settings` other than PORT, around an already parsed port. */
  function Build(env: Env, port: int): Settings {
    Settings(
      appName := Getenv(env, "APP_NAME", DefaultAppName),
      appVersion := Getenv(env, "APP_VERSION", DefaultAppVersion),
      debug := Coerce.ParseBool(Getenv(env, "DEBUG", DefaultDebug)),
      host := Getenv(env, "HOST", DefaultHost),
      port := port,
      reload := Coerce.ParseBool(Getenv(env, "RELOAD", DefaultReload)),
      secretKey := GetenvOptional(env, "SECRET_KEY"),
      allowedHosts := Coerce.SplitComma(Getenv(env, "ALLOWED_HOSTS", DefaultAllowedHosts)),
      logLevel := Getenv(env, "LOG_LEVEL", DefaultLogLevel),
      templatesDir := Getenv(env, "TEMPLATES_DIR", DefaultTemplatesDir),
      healthCheckEnabled := Coerce.ParseBool(Getenv(env, "HEALTH_CHECK_ENABLED", DefaultHealthCheckEnabled)),
      gitCommit := Getenv(env, "GIT_COMMIT", DefaultGitCommit)
    )
  }

  /**
   * The class body of `Settings`, evaluated against `env`. The only attribute
   * that can raise is PORT, and only when it is set to a value `int()`
   * refuses; the error carries that value.
   */
  function Load(env: Env): (r: Result<Settings, ConfigError>)
    ensures r.Failure? <==> "PORT" in env && IntLiteral.ParseDecimal(env["PORT"]).None?
    ensures r.Failure? ==> r.error == InvalidPort(env["PORT"])
    ensures r.Success? ==> r.value == Build(env, r.value.port)
  {
    IntLiteral.DefaultPortLiteral();
    var portRaw := Getenv(env, "PORT", DefaultPort);
    match IntLiteral.ParseDecimal(portRaw)
    case None => Failure(InvalidPort(portRaw))
    case Some(port) => Success(Build(env, port))
  }

  /** A set string variable is copied through unchanged; an unset one takes its default. */
  lemma LoadStringFields(env: Env)
    requires Load(env).Success?
    ensures var s := Load(env).value;
      && s.appName == (if "APP_NAME" in env then env["APP_NAME"] else "wudi")
      && s.appVersion == (if "APP_VERSION" in env then env["APP_VERSION"] else "0.1.0")
      && s.host == (if "HOST" in env then env["HOST"] else "0.0.0.0")
      && s.logLevel == (if "LOG_LEVEL" in env then env["LOG_LEVEL"] else "INFO")
      && s.templatesDir == (if "TEMPLATES_DIR" in env then env["TEMPLATES_DIR"] else "templates")
      && s.gitCommit == (if "GIT_COMMIT" in env then env["GIT_COMMIT"] else "unknown")
  {
  }

  /** A boolean attribute: the rule applied to the raw value, or to the default when unset. */
  lemma ParsedFlag(env: Env, key: string, default: string)
    ensures Coerce.ParseBool(Getenv(env, key, default)) <==>
      if key in env then Coerce.IsTrueSpelling(env[key]) else Coerce.IsTrueSpelling(default)
  {
  }

  /**
   * DEBUG and RELOAD hold exactly when the variable is set to some casing of
   * "true"; HEALTH_CHECK_ENABLED also holds when the variable is unset.
   */
  lemma LoadBoolFields(env: Env)
    requires Load(env).Success?
    ensures var s := Load(env).value;
      && (s.debug <==> "DEBUG" in env && Coerce.IsTrueSpelling(env["DEBUG"]))
      && (s.reload <==> "RELOAD" in env && Coerce.IsTrueSpelling(env["RELOAD"]))
      && (s.healthCheckEnabled <==>
            "HEALTH_CHECK_ENABLED" !in env || Coerce.IsTrueSpelling(env["HEALTH_CHECK_ENABLED"]))
  {
    var s := Load(env).value;
    assert s == Build(env, s.port);
    assert s.debug <==> "DEBUG" in env && Coerce.IsTrueSpelling(env["DEBUG"]) by {
      ParsedFlag(env, "DEBUG", DefaultDebug);
    }
    assert s.reload <==> "RELOAD" in env && Coerce.IsTrueSpelling(env["RELOAD"]) by {
      ParsedFlag(env, "RELOAD", DefaultReload);
    }
    assert s.healthCheckEnabled <==>
        "HEALTH_CHECK_ENABLED" !in env || Coerce.IsTrueSpelling(env["HEALTH_CHECK_ENABLED"]) by {
      ParsedFlag(env, "HEALTH_CHECK_ENABLED", DefaultHealthCheckEnabled);
    }
  }

  /** SECRET_KEY is absent exactly when unset, and otherwise the raw value, even "". */
  lemma LoadSecretKey(env: Env)
    requires Load(env).Success?
    ensures Load(env).value.secretKey == if "SECRET_KEY" in env then Some(env["SECRET_KEY"]) else None
  {
  }

  /**
   * ALLOWED_HOSTS unset gives exactly ["*"]. Otherwise the hosts are the
   * comma-separated pieces of the raw value: at least one, none holding a
   * comma, one more than the commas, and joined by commas they are the raw value.
   */
  lemma LoadAllowedHosts(env: Env)
    requires Load(env).Success?
    ensures "ALLOWED_HOSTS" !in env ==> Load(env).value.allowedHosts == ["*"]
    ensures "ALLOWED_HOSTS" in env ==>
      var hosts := Load(env).value.allowedHosts;
      && |hosts| == Coerce.CountComma(env["ALLOWED_HOSTS"]) + 1
      && Coerce.CommaFree(hosts)
      && Coerce.Join(hosts) == env["ALLOWED_HOSTS"]
  {
    HostsField(env);
    if "ALLOWED_HOSTS" in env {
      var raw := env["ALLOWED_HOSTS"];
      assert Load(env).value.allowedHosts == Coerce.SplitComma(raw);
    } else {
      assert Load(env).value.allowedHosts == Coerce.SplitComma(DefaultAllowedHosts);
      DefaultHostsSplit();
    }
  }

  /** The default host list "*" is a single wildcard host. */
  lemma DefaultHostsSplit()
    ensures Coerce.SplitComma(DefaultAllowedHosts) == ["*"]
  {
    Coerce.SplitCommaFree(DefaultAllowedHosts);
  }

  /** The host list is the split of the raw value, or of the default when unset. */
  lemma HostsField(env: Env)
    requires Load(env).Success?
    ensures Load(env).value.allowedHosts == Coerce.SplitComma(Getenv(env, "ALLOWED_HOSTS", DefaultAllowedHosts))
  {
  }

  /**
   * PORT unset gives 8000; a value of ASCII digits gives its decimal value;
   * the text of any integer gives that integer; a value without any digit
   * makes loading fail.
   */
  lemma LoadPort(env: Env)
    ensures "PORT" !in env ==> Load(env).Success? && Load(env).value.port == 8000
    ensures "PORT" in env && |env["PORT"]| > 0 && IntLiteral.AllDigits(env["PORT"]) ==>
      Load(env).Success? && Load(env).value.port == IntLiteral.DigitsValue(env["PORT"])
    ensures forall n :: "PORT" in env && env["PORT"] == IntLiteral.ShowInt(n) ==>
      Load(env).Success? && Load(env).value.port == n
    ensures "PORT" in env && (forall i :: 0 <= i < |env["PORT"]| ==> !IntLiteral.IsDigit(env["PORT"][i])) ==>
      Load(env) == Failure(InvalidPort(env["PORT"]))
  {
    IntLiteral.DefaultPortLiteral();
    if "PORT" in env {
      var raw := env["PORT"];
      if |raw| > 0 && IntLiteral.AllDigits(raw) {
        IntLiteral.DigitsAccepted(raw);
      }
      forall n | raw == IntLiteral.ShowInt(n)
        ensures Load(env).Success? && Load(env).value.port == n
      {
        IntLiteral.ParseShowInt(n);
      }
      if forall i :: 0 <= i < |raw| ==> !IntLiteral.IsDigit(raw[i]) {
        IntLiteral.NoDigitRejected(raw);
      }
    }
  }

  /** A PORT value led by a file separator (0x1C) is not a port: loading fails on it. */
  lemma LoadSeparatorPort(env: Env)
    requires "PORT" in env && |env["PORT"]| > 0 && 0x1C <= env["PORT"][0] as int <= 0x1F
    ensures Load(env) == Failure(InvalidPort(env["PORT"]))
  {
    var raw := env["PORT"];
    assert raw == [raw[0]] + raw[1..];
    IntLiteral.SeparatorRejected(raw[0], raw[1..]);
  }

  /** Variables other than the twelve the settings name have no effect on loading. */
  lemma LoadReadsOnlySettingsKeys(env1: Env, env2: Env)
    requires forall k :: k in SettingsKeys ==> (k in env1 <==> k in env2)
    requires forall k :: k in SettingsKeys && k in env1 ==> env1[k] == env2[k]
    ensures Load(env1) == Load(env2)
  {
    forall k, d | k in SettingsKeys
      ensures Getenv(env1, k, d) == Getenv(env2, k, d)
      ensures GetenvOptional(env1, k) == GetenvOptional(env2, k)
    {
    }
  }

  /** With no variable set, every field takes its documented default. */
  lemma LoadEmptyEnv()
    ensures Load(map[]) == Success(Settings(
      "wudi", "0.1.0", false, "0.0.0.0", 8000, false, None, ["*"],
      "INFO", "templates", true, "unknown"))
  {
    var env: Env := map[];
    LoadPort(env);
    LoadStringFields(env);
    LoadBoolFields(env);
    LoadSecretKey(env);
    LoadAllowedHosts(env);
  }

  // ---------------------------------------------------------------------
  // Text representation
  // ---------------------------------------------------------------------

  const ReprHead: string := "<Settings app_name="
  const ReprMid: string := " version="

  /** `Settings.__repr__`: app name and version inside "<Settings ...>". */
  function Repr(s: Settings): (r: string)
    ensures |r| == |ReprHead| + |s.appName| + |ReprMid| + |s.appVersion| + 1
    ensures r[..|ReprHead|] == ReprHead && r[|r| - 1] == '>'
  {
    ReprHead + s.appName + ReprMid + s.appVersion + ">"
  }

  /** `p` occurs in `b` starting at index `k`. */
  predicate OccursAt(b: string, p: string, k: nat) {
    k + |p| <= |b| && b[k..k + |p|] == p
  }

  /** `b` contains the text " version=" that separates name from version. */
  predicate MentionsMid(b: string) {
    exists k: nat :: k < |b| && OccursAt(b, ReprMid, k)
  }

  /** Index of the first " version=" in `b` at or after `i`, or `|b|` when there is none. */
  function FindMid(b: string, i: nat): (k: nat)
    requires i <= |b|
    ensures i <= k <= |b|
    ensures k < |b| ==> OccursAt(b, ReprMid, k)
    ensures forall j: nat :: i <= j < k ==> !OccursAt(b, ReprMid, j)
    decreases |b| - i
  {
    if i == |b| || OccursAt(b, ReprMid, i) then i else FindMid(b, i + 1)
  }

  /**
   * Reads the app name and version back out of a representation: the name runs
   * up to the first " version=", the version from there to the closing ">".
   */
  function ParseRepr(r: string): Option<(string, string)> {
    if |r| < |ReprHead| + 1 || r[..|ReprHead|] != ReprHead || r[|r| - 1] != '>' then None
    else
      var body := r[|ReprHead|..|r| - 1];
      var k := FindMid(body, 0);
      if k == |body| then None
      else Some((body[..k], body[k + |ReprMid|..]))
  }

  /**
   * " version=" cannot begin inside a name that does not contain it: its only
   * space is its first character, and the name is followed by that space.
   */
  lemma NoEarlierMid(name: string, version: string, j: nat)
    requires !MentionsMid(name) && j < |name|
    ensures !OccursAt(name + ReprMid + version, ReprMid, j)
  {
    var body := name + ReprMid + version;
    if j + |ReprMid| <= |name| {
      assert body[j..j + |ReprMid|] == name[j..j + |ReprMid|];
      assert !OccursAt(name, ReprMid, j);
    } else if j + |ReprMid| <= |body| {
      var m := |name| - j;
      assert body[j..j + |ReprMid|][m] == body[|name|] == ' ';
      assert ReprMid[m] != ' ';
    }
  }

  /**
   * When the app name does not contain " version=", the representation
   * determines the app name and version: reading it back gives both.
   */
  lemma ReprRoundTrip(s: Settings)
    requires !MentionsMid(s.appName)
    ensures ParseRepr(Repr(s)) == Some((s.appName, s.appVersion))
  {
    var r := Repr(s);
    var body := r[|ReprHead|..|r| - 1];
    var n := |s.appName|;
    assert body == s.appName + ReprMid + s.appVersion;
    assert OccursAt(body, ReprMid, n) by {
      assert body[n..n + |ReprMid|] == ReprMid;
    }
    forall j: nat | j < n
      ensures !OccursAt(body, ReprMid, j)
    {
      NoEarlierMid(s.appName, s.appVersion, j);
    }
    var k := FindMid(body, 0);
    assert k == n;
    assert body[..k] == s.appName;
    assert body[k + |ReprMid|..] == s.appVersion;
  }

  /** Two settings whose app names do not contain " version=" print alike only if name and version agree. */
  lemma ReprInjective(a: Settings, b: Settings)
    requires !MentionsMid(a.appName) && !MentionsMid(b.appName)
    requires Repr(a) == Repr(b)
    ensures a.appName == b.appName && a.appVersion == b.appVersion
  {
    ReprRoundTrip(a);
    ReprRoundTrip(b);
  }

  /**
   * Without that condition the representation is ambiguous: moving a
   * " version=" from the end of the name to the start of the version prints
   * the same text for a different name.
   */
  lemma ReprAmbiguous(a: Settings, b: Settings, x: string, y: string, z: string)
    requires a.appName == x + ReprMid + y && a.appVersion == z
    requires b.appName == x && b.appVersion == y + ReprMid + z
    ensures Repr(a) == Repr(b) && a.appName != b.appName
  {
    assert |a.appName| > |b.appName|;
  }
}
