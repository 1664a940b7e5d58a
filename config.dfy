/**
 * `check_config` of opengemini_client/client_impl.py: the checks a client
 * configuration must pass, and the defaults it fills in, in place.
 *
 * The `Config` dataclass is a class whose fields the check overwrites; its
 * value is a `ConfigData`, and the method is proved against `Checked`, a
 * function from the value before to the value after and the error raised.
 * A `timedelta` is its length in microseconds, the resolution Python keeps.
 */
module Configs {
  import opened Wire

  datatype Address = Address(host: string, port: int)

  datatype AuthType = Password | Token

  datatype AuthConfig = AuthConfig(authType: AuthType, username: string, password: string, token: string)

  datatype TlsConfig = TlsConfig(certFile: string, keyFile: string, caFile: string)

  /** `TlsConfig()`. */
  const DefaultTls: TlsConfig := TlsConfig("", "", "")

  datatype BatchConfig = BatchConfig(batchInterval: int, batchSize: int)

  /** A `timedelta`, in microseconds. */
  type Duration = int

  const Second: Duration := 1000000
  const DefaultTimeout: Duration := 30 * Second
  const DefaultConnectionTimeout: Duration := 10 * Second

  /** The `ValueError`s of `check_config`. */
  datatype ConfigError =
    | NoAddress | EmptyUsername | EmptyPassword | EmptyToken | BadBatchInterval | BadBatchSize
  {
    function Message(): string
    {
      match this
      case NoAddress => "must have at least one address"
      case EmptyUsername => "invalid auth config due to empty username"
      case EmptyPassword => "invalid auth config due to empty password"
      case EmptyToken => "invalid auth config due to empty token"
      case BadBatchInterval => "batch enabled,batch interval must be greater than 0"
      case BadBatchSize => "batch enabled,batch size must be greater than 0"
    }
  }

  /** The fields of a `Config` that `check_config` reads or writes. */
  datatype ConfigData = ConfigData(
    address: seq<Address>,
    batchConfig: Option<BatchConfig>,
    timeout: Option<Duration>,
    connectionTimeout: Option<Duration>,
    gzipEnabled: bool,
    tlsEnabled: bool,
    authConfig: Option<AuthConfig>,
    tlsConfig: Option<TlsConfig>)

  /** The error of the address and authentication checks, which run before
      anything is written. */
  function AuthError(c: ConfigData): Option<ConfigError>
  {
    if |c.address| == 0 then Some(NoAddress)
    else if c.authConfig.Some? && c.authConfig.value.authType == Password && |c.authConfig.value.username| == 0 then
      Some(EmptyUsername)
    else if c.authConfig.Some? && c.authConfig.value.authType == Password && |c.authConfig.value.password| == 0 then
      Some(EmptyPassword)
    else if c.authConfig.Some? && c.authConfig.value.authType == Token && |c.authConfig.value.token| == 0 then
      Some(EmptyToken)
    else None
  }

  /** The error of the batch checks, which run after the TLS default. */
  function BatchError(c: ConfigData): Option<ConfigError>
  {
    if c.batchConfig.Some? && c.batchConfig.value.batchInterval <= 0 then Some(BadBatchInterval)
    else if c.batchConfig.Some? && c.batchConfig.value.batchSize <= 0 then Some(BadBatchSize)
    else None
  }

  /** A timeout that is missing or not positive gets its default. */
  function Defaulted(t: Option<Duration>, default: Duration): Option<Duration>
  {
    if t.None? || t.value <= 0 then Some(default) else t
  }

  /** `check_config` on a value: the configuration it leaves and the error
      it raises, if any. */
  function Checked(c: ConfigData): (ConfigData, Option<ConfigError>)
  {
    if AuthError(c).Some? then (c, AuthError(c))
    else
      var tls := if c.tlsEnabled && c.tlsConfig.None? then c.(tlsConfig := Some(DefaultTls)) else c;
      if BatchError(tls).Some? then (tls, BatchError(tls))
      else
        (tls.(timeout := Defaulted(tls.timeout, DefaultTimeout),
              connectionTimeout := Defaulted(tls.connectionTimeout, DefaultConnectionTimeout)), None)
  }

  /** A configuration `check_config` accepts as it is. */
  predicate Settled(c: ConfigData)
  {
    |c.address| > 0
    && (c.authConfig.Some? && c.authConfig.value.authType == Password ==>
          |c.authConfig.value.username| > 0 && |c.authConfig.value.password| > 0)
    && (c.authConfig.Some? && c.authConfig.value.authType == Token ==> |c.authConfig.value.token| > 0)
    && (c.tlsEnabled ==> c.tlsConfig.Some?)
    && (c.batchConfig.Some? ==> c.batchConfig.value.batchInterval > 0 && c.batchConfig.value.batchSize > 0)
    && c.timeout.Some? && c.timeout.value > 0
    && c.connectionTimeout.Some? && c.connectionTimeout.value > 0
  }

  class Config {
    var address: seq<Address>
    var batchConfig: Option<BatchConfig>
    var timeout: Option<Duration>
    var connectionTimeout: Option<Duration>
    var gzipEnabled: bool
    var tlsEnabled: bool
    var authConfig: Option<AuthConfig>
    var tlsConfig: Option<TlsConfig>

    function Data(): ConfigData
      reads this
    {
      ConfigData(address, batchConfig, timeout, connectionTimeout, gzipEnabled, tlsEnabled, authConfig, tlsConfig)
    }

    /** `Config(...)`. */
    constructor (d: ConfigData)
      ensures Data() == d
    {
      address := d.address;
      batchConfig := d.batchConfig;
      timeout := d.timeout;
      connectionTimeout := d.connectionTimeout;
      gzipEnabled := d.gzipEnabled;
      tlsEnabled := d.tlsEnabled;
      authConfig := d.authConfig;
      tlsConfig := d.tlsConfig;
    }
  }

  /** The address and authentication checks of `check_config`, which
      change nothing. */
  method CheckAuth(config: Config) returns (err: Option<ConfigError>)
    ensures err == AuthError(config.Data())
  {
    if |config.address| == 0 {
      return Some(NoAddress);
    }
    if config.authConfig.Some? {
      var auth := config.authConfig.value;
      if auth.authType == Password {
        if |auth.username| == 0 {
          return Some(EmptyUsername);
        }
        if |auth.password| == 0 {
          return Some(EmptyPassword);
        }
      }
      if auth.authType == Token && |auth.token| == 0 {
        return Some(EmptyToken);
      }
    }
    return None;
  }

  /** The batch checks of `check_config`. */
  method CheckBatch(config: Config) returns (err: Option<ConfigError>)
    ensures err == BatchError(config.Data())
  {
    if config.batchConfig.Some? {
      if config.batchConfig.value.batchInterval <= 0 {
        return Some(BadBatchInterval);
      }
      if config.batchConfig.value.batchSize <= 0 {
        return Some(BadBatchSize);
      }
    }
    return None;
  }

  /** `check_config`: the checks in order, the TLS default before the batch
      checks, the timeout defaults last; the config it returns is the one it
      was given. */
  method CheckConfig(config: Config) returns (r: Result<Config, ConfigError>)
    modifies config
    ensures (config.Data(), if r.Err? then Some(r.error) else None) == Checked(old(config.Data()))
    ensures r.Ok? ==> r.value == config
  {
    var err := CheckAuth(config);
    if err.Some? {
      return Err(err.value);
    }
    if config.tlsEnabled && config.tlsConfig.None? {
      config.tlsConfig := Some(DefaultTls);
    }
    err := CheckBatch(config);
    if err.Some? {
      return Err(err.value);
    }
    if config.timeout.None? || config.timeout.value <= 0 {
      config.timeout := Some(DefaultTimeout);
    }
    if config.connectionTimeout.None? || config.connectionTimeout.value <= 0 {
      config.connectionTimeout := Some(DefaultConnectionTimeout);
    }
    return Ok(config);
  }

  // -----------------------------------------------------------------------
  // Lemmas

  /** `check_config` succeeds exactly when the addresses, the credentials
      of the chosen authentication and the batch sizes are usable, and then
      leaves a configuration it accepts as it is. */
  lemma CheckedSettles(c: ConfigData)
    ensures Checked(c).1.None? <==>
              |c.address| > 0
              && (c.authConfig.Some? && c.authConfig.value.authType == Password ==>
                    |c.authConfig.value.username| > 0 && |c.authConfig.value.password| > 0)
              && (c.authConfig.Some? && c.authConfig.value.authType == Token ==> |c.authConfig.value.token| > 0)
              && (c.batchConfig.Some? ==> c.batchConfig.value.batchInterval > 0 && c.batchConfig.value.batchSize > 0)
    ensures Checked(c).1.None? ==> Settled(Checked(c).0)
  {
  }

  /** A configuration `check_config` accepts as it is comes back unchanged. */
  lemma SettledFixed(c: ConfigData)
    requires Settled(c)
    ensures Checked(c) == (c, None)
  {
  }

  /** Checking twice is checking once. */
  lemma CheckedIdempotent(c: ConfigData)
    requires Checked(c).1.None?
    ensures Checked(Checked(c).0) == Checked(c)
  {
    CheckedSettles(c);
    SettledFixed(Checked(c).0);
  }

  /** What a successful check changes: only the TLS default and the two
      timeouts, and a positive timeout is kept. */
  lemma CheckedChanges(c: ConfigData)
    requires Checked(c).1.None?
    ensures var d := Checked(c).0;
            d.address == c.address && d.batchConfig == c.batchConfig && d.gzipEnabled == c.gzipEnabled
            && d.tlsEnabled == c.tlsEnabled && d.authConfig == c.authConfig
            && d.tlsConfig == (if c.tlsEnabled && c.tlsConfig.None? then Some(DefaultTls) else c.tlsConfig)
            && (c.timeout.Some? && c.timeout.value > 0 ==> d.timeout == c.timeout)
            && (c.connectionTimeout.Some? && c.connectionTimeout.value > 0 ==> d.connectionTimeout == c.connectionTimeout)
            && (c.timeout.None? || c.timeout.value <= 0 ==> d.timeout == Some(DefaultTimeout))
            && (c.connectionTimeout.None? || c.connectionTimeout.value <= 0 ==>
                  d.connectionTimeout == Some(DefaultConnectionTimeout))
  {
  }

  /** A failed check leaves the configuration as it was, except that a
      batch error comes after the TLS default was filled in. */
  lemma CheckedFails(c: ConfigData)
    requires Checked(c).1.Some?
    ensures var d := Checked(c).0;
            var e := Checked(c).1.value;
            if e == BadBatchInterval || e == BadBatchSize then
              d == c.(tlsConfig := if c.tlsEnabled && c.tlsConfig.None? then Some(DefaultTls) else c.tlsConfig)
            else d == c
  {
  }
}
