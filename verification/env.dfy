/**
 * The back end's start-up check of its environment variables. Each variable is an input
 * (`None` when unset); the logger's warning becomes a returned flag.
 */
module Env {
  import opened Wrappers
  import Text
  import PokeApi

  datatype NodeEnv = Development | Production | Test

  /** The validated configuration. */
  datatype EnvConfig = EnvConfig(
    port: int, apiMode: PokeApi.ApiMode, mockoonUrl: Option<string>, nodeEnv: NodeEnv)

  const DEFAULT_PORT: int := 4000
  const PORT_ERROR := "PORT must be a valid port number (1-65535)"
  const API_MODE_ERROR := "API_MODE must be either \"real\" or \"mockoon\""
  const NODE_ENV_ERROR := "NODE_ENV must be \"development\", \"production\", or \"test\""
  const INVALID_ENVIRONMENT_MESSAGE := "Invalid environment configuration"

  /** The thrown error, with the messages logged before it. */
  datatype EnvFailure = EnvFailure(message: string, errors: seq<string>)

  /** A variable's value when it is set and non-empty (JavaScript truthiness of a string). */
  function Given(v: Option<string>): (r: Option<string>)
    ensures r.Some? <==> v.Some? && v.value != []
    ensures r.Some? ==> r.value == v.value
  {
    if v.Some? && v.value != [] then v else None
  }

  /** The port read: 4000 when PORT is unset or empty, else `parseInt(PORT, 10)`
      (`None` for `NaN`). */
  function PortOf(portEnv: Option<string>): (p: Option<int>)
    ensures Given(portEnv).None? ==> p == Some(DEFAULT_PORT)
    ensures Given(portEnv).Some? ==> p == Text.ParseInt(portEnv.value)
  {
    if Given(portEnv).Some? then Text.ParseInt(portEnv.value) else Some(DEFAULT_PORT)
  }

  predicate ValidPort(p: Option<int>) { p.Some? && 1 <= p.value <= 65535 }

  function ModeOf(apiMode: Option<string>): string { Given(apiMode).GetOr("real") }
  function NodeEnvOf(nodeEnv: Option<string>): string { Given(nodeEnv).GetOr("development") }

  function ParseMode(m: string): Option<PokeApi.ApiMode> {
    if m == "real" then Some(PokeApi.Real) else if m == "mockoon" then Some(PokeApi.Mockoon) else None
  }

  function ParseNodeEnv(e: string): Option<NodeEnv> {
    if e == "development" then Some(Development)
    else if e == "production" then Some(Production)
    else if e == "test" then Some(Test)
    else None
  }

  /** `validateEnv`: every check runs and its error is recorded in check order; any error
      means the failure is raised with all of them, otherwise the values read are returned.
      A missing mock server URL in mockoon mode is only a warning. */
  method ValidateEnv(portEnv: Option<string>, apiModeEnv: Option<string>, mockoonUrlEnv: Option<string>, nodeEnvEnv: Option<string>)
    returns (r: Result<EnvConfig, EnvFailure>, warned: bool)
    ensures var badPort := !ValidPort(PortOf(portEnv));
      var badMode := ParseMode(ModeOf(apiModeEnv)).None?;
      var badNode := ParseNodeEnv(NodeEnvOf(nodeEnvEnv)).None?;
      var errors := (if badPort then [PORT_ERROR] else [])
        + (if badMode then [API_MODE_ERROR] else [])
        + (if badNode then [NODE_ENV_ERROR] else []);
      && (r.Err? <==> badPort || badMode || badNode)
      && (r.Err? ==> r.error == EnvFailure(INVALID_ENVIRONMENT_MESSAGE, errors))
      && (r.Ok? ==> r.value == EnvConfig(
            PortOf(portEnv).value, ParseMode(ModeOf(apiModeEnv)).value, mockoonUrlEnv,
            ParseNodeEnv(NodeEnvOf(nodeEnvEnv)).value))
    ensures warned <==> ModeOf(apiModeEnv) == "mockoon" && Given(mockoonUrlEnv).None?
  {
    var errors: seq<string> := [];

    var port := PortOf(portEnv);
    if !ValidPort(port) {
      errors := errors + [PORT_ERROR];
    }
    ghost var portErrors := errors;
    assert portErrors == if !ValidPort(PortOf(portEnv)) then [PORT_ERROR] else [];

    var apiMode := ModeOf(apiModeEnv);
    var mode := ParseMode(apiMode);
    if mode.None? {
      errors := errors + [API_MODE_ERROR];
    }
    ghost var modeErrors := errors[|portErrors|..];
    assert errors == portErrors + modeErrors;
    assert modeErrors == if mode.None? then [API_MODE_ERROR] else [];

    warned := apiMode == "mockoon" && Given(mockoonUrlEnv).None?;

    var nodeEnv := ParseNodeEnv(NodeEnvOf(nodeEnvEnv));
    if nodeEnv.None? {
      errors := errors + [NODE_ENV_ERROR];
    }
    assert errors == portErrors + modeErrors + (if nodeEnv.None? then [NODE_ENV_ERROR] else []);

    if |errors| > 0 {
      return Err(EnvFailure(INVALID_ENVIRONMENT_MESSAGE, errors)), warned;
    }
    r := Ok(EnvConfig(port.value, mode.value, mockoonUrlEnv, nodeEnv.value));
  }

  /** With nothing set, the server starts on port 4000 against the real API in development. */
  method DefaultsWhenUnset() returns (r: Result<EnvConfig, EnvFailure>, warned: bool)
    ensures r == Ok(EnvConfig(DEFAULT_PORT, PokeApi.Real, None, Development)) && !warned
  {
    r, warned := ValidateEnv(None, None, None, None);
  }

  /** Mockoon mode without a URL starts, with a warning. */
  method MockoonWithoutUrlOnlyWarns() returns (r: Result<EnvConfig, EnvFailure>, warned: bool)
    ensures r == Ok(EnvConfig(DEFAULT_PORT, PokeApi.Mockoon, None, Development)) && warned
  {
    r, warned := ValidateEnv(None, Some("mockoon"), None, None);
  }

  /** Three bad variables are all reported, in the order they are checked. */
  method EveryErrorReported() returns (r: Result<EnvConfig, EnvFailure>, warned: bool)
    ensures r == Err(EnvFailure(INVALID_ENVIRONMENT_MESSAGE, [PORT_ERROR, API_MODE_ERROR, NODE_ENV_ERROR]))
  {
    assert !Text.IsWhitespace('h') && !Text.IsDigit('h');
    assert Text.TrimStart("http") == "http";
    assert Text.ParseInt("http") == None;
    assert PortOf(Some("http")) == None;
    assert ModeOf(Some("fake")) == "fake" && ParseMode("fake") == None;
    assert NodeEnvOf(Some("staging")) == "staging" && ParseNodeEnv("staging") == None;
    assert [PORT_ERROR] + [API_MODE_ERROR] + [NODE_ENV_ERROR] == [PORT_ERROR, API_MODE_ERROR, NODE_ENV_ERROR];
    r, warned := ValidateEnv(Some("http"), Some("fake"), None, Some("staging"));
  }
}
