/** How a sandbox's network mode is written into Docker's host configuration and read back:
    core/security_context.go and core/sandbox_helpers.go. */
module SandboxNetwork {
  import opened Text
  import opened Naming

  datatype NamespaceMode = Pod | PerContainer | Node | Target

  datatype NamespaceOptions = NamespaceOptions(network: NamespaceMode, pid: NamespaceMode, ipc: NamespaceMode)

  /** Each Option stands for a pointer that may be nil. */
  datatype SecurityContext = SecurityContext(namespaces: Option<NamespaceOptions>)
  datatype LinuxConfig = LinuxConfig(security: Option<SecurityContext>)
  datatype PodConfig = PodConfig(metadata: PodMetadata, linux: Option<LinuxConfig>, dns: bool)

  const HOST_MODE := "host"

  /** The generated getters answer with the zero mode, POD, on nil. */
  function OptionsOf(c: PodConfig): NamespaceOptions {
    match c.linux
    case Some(LinuxConfig(Some(SecurityContext(Some(o))))) => o
    case _ => NamespaceOptions(Pod, Pod, Pod)
  }

  function Network(c: PodConfig): NamespaceMode { OptionsOf(c).network }

  function NetworkNamespaceMode(mode: string): NamespaceMode { if mode == HOST_MODE then Node else Pod }

  /** The network mode a sandbox container is created with; `plugin` is the network plugin's name. */
  function NetworkModeOf(c: PodConfig, plugin: Option<string>): string {
    if c.linux.None? then ""
    else if Network(c) == Node then HOST_MODE
    else if plugin == Some("cni") || plugin == Some("kubenet") then "none"
    else "default"
  }

  /** Host networking survives the trip through Docker, whichever pointers are nil. */
  lemma NetworkModeRoundTrip(c: PodConfig, plugin: Option<string>)
    ensures NetworkNamespaceMode(NetworkModeOf(c, plugin)) == Node <==> Network(c) == Node
  {
  }

  class HostConfig {
    var networkMode: string
    var pidMode: string
    var ipcMode: string

    constructor ()
      ensures networkMode == "" && pidMode == "" && ipcMode == "shareable"
    {
      networkMode, pidMode, ipcMode := "", "", "shareable";
    }

    method ApplySandboxLinuxOptions(c: PodConfig, plugin: Option<string>)
      requires networkMode == ""
      modifies this
      ensures networkMode == NetworkModeOf(c, plugin)
      ensures networkMode == HOST_MODE <==> Network(c) == Node
      ensures pidMode == if OptionsOf(c).pid == Node then HOST_MODE else old(pidMode)
      ensures ipcMode == if OptionsOf(c).ipc == Node then HOST_MODE else old(ipcMode)
    {
      NetworkModeRoundTrip(c, plugin);
      if c.linux.None? { return; }
      ModifySandboxNamespaceOptions(OptionsOf(c), plugin);
    }

    method ModifySandboxNamespaceOptions(o: NamespaceOptions, plugin: Option<string>)
      modifies this
      ensures networkMode == if o.network == Node then HOST_MODE else if plugin == Some("cni") || plugin == Some("kubenet") then "none" else "default"
      ensures pidMode == if o.pid == Node then HOST_MODE else old(pidMode)
      ensures ipcMode == if o.ipc == Node then HOST_MODE else old(ipcMode)
    {
      if o.pid == Node { pidMode := HOST_MODE; }
      if o.ipc == Node { ipcMode := HOST_MODE; }
      if o.network == Node {
        networkMode := HOST_MODE;
        return;
      }
      if plugin.None? {
        networkMode := "default";
        return;
      }
      if plugin.value == "cni" || plugin.value == "kubenet" {
        networkMode := "none";
      } else {
        networkMode := "default";
      }
    }
  }
}
