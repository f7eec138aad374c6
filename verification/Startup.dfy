/**
 From the layers of configuration to the connected client.
 */
module Startup {
  import opened Prelude
  import Config
  import PinProtocol
  import PinFs
  import PinHost
  import Wait
  import WaitOperation

  // The condition under which New connects a second time.
  predicate WantsAdmin(s: Config.Settings) {
    s.admin.Some? && s.admin.value.cert != ""
  }

  // The process h runs New with these settings.
  ghost predicate Stands(h: PinHost.Host, s: Config.Settings, url: PinProtocol.Url, path: string)
    reads h
  {
    && h.Valid() && h.mine.pc.Start?
    && h.mine.url == url && h.machine.env.path == path
    && h.mine.admin == WantsAdmin(s)
  }

  // The settings that Load gives if it gives any.
  function Wanted(
    o: Config.Options, answer: Config.FileAnswer, env: Config.Environment,
    dirOf: string -> string, defaultDir: string): Config.Settings
  {
    Config.Effective(
      if o.configFile != "" && answer.Parsed? then answer.file else Config.NO_FILE, env, o,
      if o.configFile != "" then dirOf(o.configFile) else defaultDir)
  }

  // Load, then New. `parse` is url.Parse; `join` filepath.Join.
  method LoadAndConnect(
    o: Config.Options, answer: Config.FileAnswer, env: Config.Environment,
    dirOf: string -> string, defaultDir: string, join: (string, string) -> string,
    parse: string -> PinProtocol.Url, h: PinHost.Host)
    returns (client: Option<PinHost.Client>)
    requires var s := Wanted(o, answer, env, dirOf, defaultDir);
             Stands(h, s, parse(s.url), Config.TargetCertificatePath(s, join, defaultDir))
    modifies h
    // The client has an admin identity exactly when some layer sets the path of
    // the admin certificate to something, and then it is bound to the same pin
    // as the primary one.
    ensures client.Some? ==>
      && Config.Acceptable(Wanted(o, answer, env, dirOf, defaultDir))
      && (client.value.admin.Some? <==>
           || o.adminCert != ""
           || ("INCUS_MCP_ADMIN_CERT_PATH" in env && env["INCUS_MCP_ADMIN_CERT_PATH"] != "")
           || (o.configFile != "" && answer.Parsed? && answer.file.admin.Entry?
               && answer.file.admin.cert.Some? && answer.file.admin.cert.value != ""))
      && (client.value.admin.Some? ==> client.value.admin.value.pem == client.value.server.pem)
      && h.Valid()
      && (PinProtocol.UsesTls(h.mine) ==> PinFs.PinHolds(h.machine.fs, client.value.server.pem))
  {
    var cfg := Config.Load(o, answer, env, dirOf, defaultDir);
    if cfg == null { return None; }
    var file := if o.configFile != "" then answer.file else Config.NO_FILE;
    Config.AdminHalvesWin(file, env, o, if o.configFile != "" then dirOf(o.configFile) else defaultDir);
    var admin := cfg.admin != null && cfg.admin.certPath != "";
    var path := if cfg.targetCert != "" then cfg.targetCert
                else join(if cfg.dir == "" then defaultDir else cfg.dir, "target.crt");
    client := PinHost.New(h, parse(cfg.url), path, admin);
  }

  // Validation lets timeouts through that come early: whatever else is
  // accepted is accepted with 9223372037 seconds, and then both ways of waiting
  // can return "running" too soon.
  lemma AcceptedTimeoutCanBeEarly(s: Config.Settings)
    requires Config.Acceptable(s)
    ensures var long := s.(waitTimeout := 9223372037);
            && Config.Acceptable(long)
            && !Wait.NeverEarly(long.waitTimeout, 0)
            && !WaitOperation.NeverEarly(long.waitTimeout)
  {
    Wait.RunningIsNeverEarlyIff(9223372037, 0);
    WaitOperation.RunningIsNeverEarlyIff(9223372037);
  }
}
