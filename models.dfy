/** The two entities of the application: a tunnel definition and one of its
    port forwardings, with the defaults a freshly created value carries. */
module Models {
  import opened Wrappers

  const LocalType: string := "local"
  const RemoteType: string := "remote"
  const DynamicType: string := "dynamic"
  /** The placeholder a dynamic forwarding shows in its unused fields. */
  const NotApplicable: string := "n/a"

  /** One `-L`, `-R` or `-D` forwarding. `kind` is the forwarding type
      ("local", "remote" or "dynamic"); for a dynamic forwarding only
      `port1` is used. */
  datatype PortRedirection = PortRedirection(
    kind: string,
    port1: string,
    host: string,
    port2: string)

  /** A forwarding as `new PortRedirection()` creates it. */
  function NewPortRedirection(): (r: PortRedirection)
    ensures r.kind == LocalType && r.port1 == "" && r.host == "" && r.port2 == ""
  {
    PortRedirection(LocalType, "", "", "")
  }

  /** A tunnel definition. Every connection field is kept as text, as it is
      entered and stored. `active` and `sshPid` are runtime state that is
      never written to a file; `fileName` is the configuration file the
      tunnel was loaded from or saved to, if any. */
  datatype SshTunnel = SshTunnel(
    name: string,
    host: string,
    port: string,
    login: string,
    privateKeyPath: string,
    autoStart: bool,
    restart: bool,
    notify: bool,
    maxRestarts: string,
    preset: bool,
    portRedirections: seq<PortRedirection>,
    active: bool,
    sshPid: int,
    fileName: Option<string>)

  /** A tunnel as `new SshTunnel()` creates it. */
  function NewSshTunnel(): (t: SshTunnel)
    ensures t.name == "" && t.host == "" && t.login == "" && t.privateKeyPath == ""
    ensures t.port == "22" && t.maxRestarts == "9"
    ensures !t.autoStart && !t.restart && t.notify && !t.preset
    ensures t.portRedirections == [] && !t.active && t.sshPid == 0 && t.fileName.None?
  {
    SshTunnel("", "", "22", "", "", false, false, true, "9", false, [], false, 0, None)
  }

  /** The tunnel with its runtime state reset: what a configuration file
      can hold about it. */
  function Persistent(t: SshTunnel): (p: SshTunnel)
    ensures !p.active && p.sshPid == 0 && p.fileName.None?
    ensures p.(active := t.active, sshPid := t.sshPid, fileName := t.fileName) == t
  {
    t.(active := false, sshPid := 0, fileName := None)
  }
}
