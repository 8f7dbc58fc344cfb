/** The host ports of a sandbox on their way from its configuration, through its checkpoint, to the host-port manager:
    core/sandbox_helpers.go, core/sandbox_port_forward.go and network/kubenet/kubenet_linux.go.

    The checkpoint spells protocols in lower case; the manager skips SCTP under its upper-case name only. */
module SandboxPorts {
  import opened Text
  import CP = Checkpoints
  import HS = HostportSockets

  /** A mapping read back from the checkpoint, as the manager gets it. */
  function Handed(m: CP.HostMapping): HS.PortMapping { HS.PortMapping(m.hostPort, m.containerPort, m.protocol, m.hostIP) }

  function HandedAll(pms: seq<CP.PortMapping>): seq<HS.PortMapping> {
    seq(|pms|, i requires 0 <= i < |pms| => Handed(CP.HostMappings(pms)[i]))
  }

  /** The request that addPortMapping makes for one address of the pod. */
  function RequestFor(config: CP.SandboxConfig, ip: Option<HS.PodIP>): HS.PodPortMapping {
    HS.PodPortMapping(config.namespace, config.name, HandedAll(config.portMappings), false, ip)
  }

  /** The mapping has a host port in the family. */
  predicate Wanted(pm: CP.PortMapping, fam: HS.Family) {
    pm.hostPort > 0 && (pm.hostIP == "" || fam.isV6(pm.hostIP) == fam.v6)
  }

  /** Protocols other than the three are taken for TCP. */
  predicate IsTcp(p: CP.Protocol) { p.TCP? || p.Unknown? }

  lemma LowerTexts()
    ensures HS.Lower("tcp") == "tcp" && HS.Lower("udp") == "udp" && HS.Lower("sctp") == "sctp"
  {
    assert "p"[1..] == "" && HS.Lower("p") == "p";
    assert "cp"[1..] == "p" && "tp"[1..] == "p" && "dp"[1..] == "p";
    assert HS.Lower("cp") == ['c'] + "p" && HS.Lower("tp") == ['t'] + "p" && HS.Lower("dp") == ['d'] + "p";
    assert "tcp"[1..] == "cp" && "udp"[1..] == "dp" && "ctp"[1..] == "tp" && "sctp"[1..] == "ctp";
    assert HS.Lower("tcp") == ['t'] + "cp" && HS.Lower("udp") == ['u'] + "dp" && HS.Lower("ctp") == ['c'] + "tp";
    assert HS.Lower("sctp") == ['s'] + "ctp";
  }

  lemma ProtocolTexts(p: CP.Protocol)
    ensures var t := CP.ToCheckpointProtocol(p);
      HS.Lower(t) == t && t != HS.PROTOCOL_SCTP && (t == "tcp" <==> IsTcp(p)) && (t == "udp" <==> p.UDP?)
  {
    LowerTexts();
    assert "tcp"[0] != "udp"[0] && "sctp"[0] != "udp"[0] && "tcp"[0] != "sctp"[0];
    assert HS.PROTOCOL_SCTP[0] == 'S' && "tcp"[0] == 't' && "udp"[0] == 'u' && "sctp"[0] == 's';
  }

  /** No mapping of a sandbox is skipped as SCTP. */
  lemma NothingIsSkipped(pms: seq<CP.PortMapping>, i: nat, fam: HS.Family)
    requires i < |pms|
    ensures HS.ToOpen(HandedAll(pms)[i], fam) <==> Wanted(pms[i], fam)
  {
    ProtocolTexts(pms[i].protocol);
  }

  /** Two mappings ask for the same socket. */
  predicate SamePort(a: CP.PortMapping, b: CP.PortMapping) {
    a.hostPort == b.hostPort && a.hostIP == b.hostIP && a.protocol.UDP? == b.protocol.UDP? && a.protocol.SCTP? == b.protocol.SCTP?
  }

  /** The socket is the one of a TCP or UDP mapping. */
  predicate SocketOf(hp: HS.Hostport, pm: CP.PortMapping, v6: bool) {
    && hp.port == pm.hostPort && hp.ip == pm.hostIP && hp.ipFamily == (if v6 then "6" else "4")
    && ((hp.protocol == "tcp" && IsTcp(pm.protocol)) || (hp.protocol == "udp" && pm.protocol.UDP?))
  }

  /** The i-th mapping can be served: it is not SCTP, the host does not refuse it, and its socket is free. */
  ghost predicate CanServe(held: map<HS.SocketId, HS.Hostport>, pms: seq<CP.PortMapping>, i: nat, refused: set<nat>, fam: HS.Family)
    requires i < |pms|
  {
    && !pms[i].protocol.SCTP? && i !in refused
    && (forall s :: s in held ==> !SocketOf(held[s], pms[i], fam.v6))
    && (forall j :: 0 <= j < i && Wanted(pms[j], fam) ==> !SamePort(pms[j], pms[i]))
  }

  lemma SameSocketText(a: CP.Protocol, b: CP.Protocol)
    ensures CP.ToCheckpointProtocol(a) == CP.ToCheckpointProtocol(b) <==> a.UDP? == b.UDP? && a.SCTP? == b.SCTP?
  {
    ProtocolTexts(a);
    ProtocolTexts(b);
  }

  lemma ServeIff(held: map<HS.SocketId, HS.Hostport>, pms: seq<CP.PortMapping>, i: nat, refused: set<nat>, fam: HS.Family)
    requires i < |pms|
    ensures HS.CanOpen(held, HandedAll(pms), i, refused, fam) <==> CanServe(held, pms, i, refused, fam)
  {
    ProtocolTexts(pms[i].protocol);
    forall j | 0 <= j < i
      ensures HS.ToOpen(HandedAll(pms)[j], fam) && HS.SamePort(HandedAll(pms)[j], HandedAll(pms)[i]) <==>
              Wanted(pms[j], fam) && SamePort(pms[j], pms[i])
    {
      NothingIsSkipped(pms, j, fam);
      ProtocolTexts(pms[j].protocol);
      SameSocketText(pms[j].protocol, pms[i].protocol);
    }
  }

  ghost predicate AllServed(held: map<HS.SocketId, HS.Hostport>, pms: seq<CP.PortMapping>, refused: set<nat>, fam: HS.Family) {
    forall i :: 0 <= i < |pms| && Wanted(pms[i], fam) ==> CanServe(held, pms, i, refused, fam)
  }

  ghost predicate NoneWanted(pms: seq<CP.PortMapping>, fam: HS.Family) { forall i :: 0 <= i < |pms| ==> !Wanted(pms[i], fam) }

  lemma AllServedIff(held: map<HS.SocketId, HS.Hostport>, pms: seq<CP.PortMapping>, refused: set<nat>, fam: HS.Family)
    ensures HS.AllCanOpen(held, HandedAll(pms), 0, refused, fam) <==> AllServed(held, pms, refused, fam)
    ensures HS.NoneWanted(HandedAll(pms), fam.v6, fam.isV6) <==> NoneWanted(pms, fam)
  {
    forall i | 0 <= i < |pms|
      ensures HS.CanOpen(held, HandedAll(pms), i, refused, fam) <==> CanServe(held, pms, i, refused, fam)
      ensures HS.ToOpen(HandedAll(pms)[i], fam) <==> Wanted(pms[i], fam)
    {
      ServeIff(held, pms, i, refused, fam);
      NothingIsSkipped(pms, i, fam);
    }
    if !NoneWanted(pms, fam) {
      var i :| 0 <= i < |pms| && Wanted(pms[i], fam);
      assert HandedAll(pms)[i] in HandedAll(pms);
    }
  }

  /** Add for an address of the manager's family succeeds exactly if no mapping of the sandbox has a host port, or
      iptables does not fail and every mapping with one can be served. */
  lemma AddForSandboxIff(w: HS.Ports, config: CP.SandboxConfig, ip: HS.PodIP, env: HS.Env, fam: HS.Family)
    requires HS.Exact(w) && ip.isV6 == fam.v6
    ensures HS.AddPorts(w, Some(RequestFor(config, Some(ip))), env, fam).1 <==>
      || NoneWanted(config.portMappings, fam)
      || (env.ensureOk && env.saveOk && env.restoreOk && AllServed(w.held, config.portMappings, env.refused, fam))
  {
    HS.AddSucceedsIff(w, Some(RequestFor(config, Some(ip))), env, fam);
    AllServedIff(w.held, config.portMappings, env.refused, fam);
  }

  /** So a sandbox with an SCTP host port never gets its ports, whatever the host does: the manager tries to open
      the SCTP port instead of skipping it, fails, and leaves everything as it was. */
  lemma SctpFailsTheSandbox(w: HS.Ports, config: CP.SandboxConfig, ip: HS.PodIP, env: HS.Env, fam: HS.Family, i: nat)
    requires HS.Exact(w) && ip.isV6 == fam.v6
    requires i < |config.portMappings| && config.portMappings[i].protocol.SCTP? && Wanted(config.portMappings[i], fam)
    ensures var (w', ok) := HS.AddPorts(w, Some(RequestFor(config, Some(ip))), env, fam);
      !ok && w'.hostPortMap == w.hostPortMap && w'.held == w.held
  {
    AddForSandboxIff(w, config, ip, env, fam);
    HS.AddIsAllOrNothing(w, Some(RequestFor(config, Some(ip))), env, fam);
  }
}
