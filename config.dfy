/** The exporter's address settings (main.py, module level): each is read
    from the environment, with a default when the variable is unset. */
module Config {
  import opened Wrappers
  import opened Decimal

  /** The process environment: a variable is either unset or holds a string. */
  type Environment = map<string, string>

  const HostVariable := "EXPORTER_HOST"
  const PortVariable := "EXPORTER_PORT"
  const DefaultHost := "0.0.0.0"
  const DefaultPortText := "8081"

  /** `os.environ.get(name, default)`. */
  function Get(env: Environment, name: string, default: string): (v: string)
    ensures name in env ==> v == env[name]
    ensures name !in env ==> v == default
  {
    if name in env then env[name] else default
  }

  /** The bind address and the text `int()` turns into the bind port. */
  datatype Settings = Settings(host: string, portText: string)

  function Load(env: Environment): Settings
  {
    Settings(Get(env, HostVariable, DefaultHost), Get(env, PortVariable, DefaultPortText))
  }

  /** Unset variables give the address 0.0.0.0 and the port 8081. */
  lemma DefaultsWhenUnset(env: Environment)
    requires HostVariable !in env && PortVariable !in env
    ensures Load(env).host == "0.0.0.0"
    ensures ParseNat(Load(env).portText) == Some(8081)
  {
    assert NatToString(8) == "8";
    assert NatToString(80) == NatToString(8) + "0";
    assert NatToString(808) == NatToString(80) + "8";
    assert NatToString(8081) == NatToString(808) + "1";
    assert NatToString(8081) == DefaultPortText;
    ParseNatToString(8081);
  }

  /** A variable that is set is used as it is, and each variable decides only
      its own setting. */
  lemma SetVariablesUsed(env: Environment)
    ensures HostVariable in env ==> Load(env).host == env[HostVariable]
    ensures PortVariable in env ==> Load(env).portText == env[PortVariable]
    ensures Load(env).host == Load(env - {PortVariable}).host
    ensures Load(env).portText == Load(env - {HostVariable}).portText
  {
  }
}
