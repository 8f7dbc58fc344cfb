/** The socket side of network/hostport/hostport_manager.go: which host ports the manager holds open.

    `hostPortMap` must be exactly the sockets held, whatever the opener, the save and the restore do.
    Ports are closed by key, not by pod, so the laws are stated per key. */
module HostportSockets {
  import opened Text

  const PROTOCOL_SCTP := "SCTP"

  type SocketId = nat

  datatype PortMapping = PortMapping(hostPort: int, containerPort: int, protocol: string, hostIP: string)

  datatype PodIP = PodIP(text: string, isV6: bool)

  /** `ip` is None where net.IP.To16 returns nil. */
  datatype PodPortMapping = PodPortMapping(
    namespace: string, name: string, portMappings: seq<PortMapping>, hostNetwork: bool, ip: Option<PodIP>)

  datatype Hostport = Hostport(ipFamily: string, ip: string, port: int, protocol: string)

  /** The address family of the manager's iptables, and utilnet.IsIPv6String. */
  datatype Family = Family(v6: bool, isV6: string -> bool)

  /** strings.ToLower on ASCII. */
  function Lower(s: string): string {
    if s == "" then ""
    else [if 'A' <= s[0] <= 'Z' then ((s[0] as int) + 32) as char else s[0]] + Lower(s[1..])
  }

  /** portMappingToHostport. */
  function Key(pm: PortMapping, v6: bool): Hostport {
    Hostport(if v6 then "6" else "4", pm.hostIP, pm.hostPort, Lower(pm.protocol))
  }

  /** gatherHostportMappings keeps these, in order. */
  predicate Wanted(pm: PortMapping, v6: bool, isV6: string -> bool) {
    pm.hostPort > 0 && (pm.hostIP == "" || isV6(pm.hostIP) == v6)
  }

  function Gather(pms: seq<PortMapping>, v6: bool, isV6: string -> bool): seq<PortMapping> {
    if pms == [] then []
    else (if Wanted(pms[0], v6, isV6) then [pms[0]] else []) + Gather(pms[1..], v6, isV6)
  }

  lemma {:induction false} GatherKeepsWanted(pms: seq<PortMapping>, v6: bool, isV6: string -> bool)
    ensures forall pm :: pm in Gather(pms, v6, isV6) <==> pm in pms && Wanted(pm, v6, isV6)
  {
    if pms != [] { GatherKeepsWanted(pms[1..], v6, isV6); }
  }

  lemma {:induction false} GatherAppend(pms: seq<PortMapping>, pm: PortMapping, v6: bool, isV6: string -> bool)
    ensures Gather(pms + [pm], v6, isV6) == Gather(pms, v6, isV6) + if Wanted(pm, v6, isV6) then [pm] else []
  {
    if pms == [] {
      assert [] + [pm] == [pm];
    } else {
      GatherAppend(pms[1..], pm, v6, isV6);
      assert (pms + [pm])[1..] == pms[1..] + [pm];
    }
  }

  // ---- sockets ---------------------------------------------------------------------------------------

  /** The manager's map, and the sockets the process holds open. */
  datatype Ports = Ports(hostPortMap: map<Hostport, SocketId>, held: map<SocketId, Hostport>, next: SocketId)

  /** The map names exactly the sockets held, each under its own key. */
  ghost predicate Exact(w: Ports) {
    && (forall hp :: hp in w.hostPortMap ==> w.hostPortMap[hp] in w.held && w.held[w.hostPortMap[hp]] == hp)
    && (forall s :: s in w.held ==> w.held[s] in w.hostPortMap && w.hostPortMap[w.held[s]] == s)
    && (forall s :: s in w.held ==> s < w.next)
    && (forall s :: s in w.held ==> Openable(w.held[s]))
  }

  predicate Openable(hp: Hostport) { hp.protocol == "tcp" || hp.protocol == "udp" }

  /** openLocalPort refuses protocols other than tcp and udp and addresses in use, and may refuse
      for reasons outside the program. */
  predicate Opens(held: map<SocketId, Hostport>, hp: Hostport, refused: bool) {
    Openable(hp) && !refused && forall s :: s in held ==> held[s] != hp
  }

  datatype Opening = Opening(held: map<SocketId, Hostport>, next: SocketId, ports: map<Hostport, SocketId>, ok: bool)

  function OpenOne(o: Opening, hp: Hostport): Opening {
    Opening(o.held[o.next := hp], o.next + 1, o.ports[hp := o.next], true)
  }

  /** The loop of openHostports; `refused` tells at which indices the host refuses. */
  function OpenFrom(o: Opening, pms: seq<PortMapping>, i: nat, refused: set<nat>, fam: Family): Opening
    requires i <= |pms|
    decreases |pms| - i
  {
    if i == |pms| || !o.ok then o
    else if !Wanted(pms[i], fam.v6, fam.isV6) || pms[i].protocol == PROTOCOL_SCTP then OpenFrom(o, pms, i + 1, refused, fam)
    else
      var hp := Key(pms[i], fam.v6);
      if Opens(o.held, hp, i in refused)
      then OpenFrom(OpenOne(o, hp), pms, i + 1, refused, fam)
      else o.(ok := false)
  }

  /** openHostports: all or, after closing what was opened, nothing. */
  function OpenHostports(w: Ports, pms: seq<PortMapping>, refused: set<nat>, fam: Family): Opening {
    var o := OpenFrom(Opening(w.held, w.next, map[], true), pms, 0, refused, fam);
    if o.ok then o else Opening(o.held - (set hp | hp in o.ports :: o.ports[hp]), o.next, map[], false)
  }

  function CloseOne(w: Ports, hp: Hostport): Ports {
    if hp in w.hostPortMap then w.(hostPortMap := w.hostPortMap - {hp}, held := w.held - {w.hostPortMap[hp]}) else w
  }

  /** closeHostports, every Close succeeding. */
  function CloseHostports(w: Ports, pms: seq<PortMapping>, v6: bool): Ports
    decreases |pms|
  {
    if pms == [] then w else CloseHostports(CloseOne(w, Key(pms[0], v6)), pms[1..], v6)
  }

  // ---- what opening and closing do -------------------------------------------------------------------------

  /** Opening in progress: the new sockets are exactly `ports`, disjoint from the old ones. */
  ghost predicate OpeningInv(w: Ports, o: Opening) {
    && o.next >= w.next
    && (forall s :: s in w.held ==> s in o.held && o.held[s] == w.held[s])
    && (forall hp :: hp in o.ports ==> w.next <= o.ports[hp] < o.next && o.ports[hp] in o.held && o.held[o.ports[hp]] == hp)
    && (forall s :: s in o.held && s !in w.held ==> o.held[s] in o.ports && o.ports[o.held[s]] == s)
    && (forall hp :: hp in o.ports ==> hp !in w.hostPortMap && Openable(hp))
  }

  lemma OpenOneKeepsInv(w: Ports, o: Opening, hp: Hostport)
    requires Exact(w) && OpeningInv(w, o) && Opens(o.held, hp, false)
    ensures OpeningInv(w, OpenOne(o, hp))
  {
  }

  lemma {:induction false} OpenFromKeepsInv(w: Ports, o: Opening, pms: seq<PortMapping>, i: nat, refused: set<nat>, fam: Family)
    requires Exact(w) && OpeningInv(w, o) && i <= |pms|
    ensures OpeningInv(w, OpenFrom(o, pms, i, refused, fam))
    decreases |pms| - i
  {
    if i < |pms| && o.ok {
      if !Wanted(pms[i], fam.v6, fam.isV6) || pms[i].protocol == PROTOCOL_SCTP {
        OpenFromKeepsInv(w, o, pms, i + 1, refused, fam);
      } else if Opens(o.held, Key(pms[i], fam.v6), i in refused) {
        var hp := Key(pms[i], fam.v6);
        OpenOneKeepsInv(w, o, hp);
        OpenFromKeepsInv(w, OpenOne(o, hp), pms, i + 1, refused, fam);
      }
    }
  }

  /** The keys an accepted request opens: those of its wanted mappings that are not SCTP. */
  ghost function OpenKeys(pms: seq<PortMapping>, fam: Family): set<Hostport> {
    set pm | pm in pms && Wanted(pm, fam.v6, fam.isV6) && pm.protocol != PROTOCOL_SCTP :: Key(pm, fam.v6)
  }

  ghost predicate ToOpen(pm: PortMapping, fam: Family) {
    Wanted(pm, fam.v6, fam.isV6) && pm.protocol != PROTOCOL_SCTP
  }

  lemma SliceCons(pms: seq<PortMapping>, i: nat)
    requires i < |pms|
    ensures forall pm :: pm in pms[i..] <==> pm == pms[i] || pm in pms[i + 1..]
  {
    assert pms[i..] == [pms[i]] + pms[i + 1..];
  }

  lemma OpenKeysCons(pms: seq<PortMapping>, i: nat, fam: Family)
    requires i < |pms|
    ensures OpenKeys(pms[i..], fam) == (if ToOpen(pms[i], fam) then {Key(pms[i], fam.v6)} else {}) + OpenKeys(pms[i + 1..], fam)
  {
    SliceCons(pms, i);
  }

  lemma KeysRegroup(a: set<Hostport>, hp: Hostport, b: set<Hostport>)
    ensures (a + {hp}) + b == a + ({hp} + b)
  {
  }

  lemma {:induction false} OpenFromKeys(o: Opening, pms: seq<PortMapping>, i: nat, refused: set<nat>, fam: Family)
    requires i <= |pms| && OpenFrom(o, pms, i, refused, fam).ok
    ensures OpenFrom(o, pms, i, refused, fam).ports.Keys == o.ports.Keys + OpenKeys(pms[i..], fam)
    decreases |pms| - i
  {
    if i < |pms| {
      OpenKeysCons(pms, i, fam);
      if ToOpen(pms[i], fam) {
        var hp := Key(pms[i], fam.v6);
        OpenFromKeys(OpenOne(o, hp), pms, i + 1, refused, fam);
        assert OpenOne(o, hp).ports.Keys == o.ports.Keys + {hp};
        KeysRegroup(o.ports.Keys, hp, OpenKeys(pms[i + 1..], fam));
      } else {
        OpenFromKeys(o, pms, i + 1, refused, fam);
      }
    }
  }

  lemma {:induction false} OpenFromOpenable(o: Opening, pms: seq<PortMapping>, i: nat, refused: set<nat>, fam: Family)
    requires i <= |pms| && OpenFrom(o, pms, i, refused, fam).ok
    ensures forall pm :: pm in pms[i..] && ToOpen(pm, fam) ==> Openable(Key(pm, fam.v6))
    decreases |pms| - i
  {
    if i < |pms| {
      SliceCons(pms, i);
      OpenFromOpenable(if ToOpen(pms[i], fam) then OpenOne(o, Key(pms[i], fam.v6)) else o, pms, i + 1, refused, fam);
    }
  }

  ghost function AfterOpen(w: Ports, o: Opening): Ports {
    Ports(w.hostPortMap + o.ports, o.held, o.next)
  }

  /** What was opened can be taken over into the map. */
  lemma OpenedIsExact(w: Ports, o: Opening)
    requires Exact(w) && OpeningInv(w, o)
    ensures Exact(AfterOpen(w, o)) && o.ports.Keys !! w.hostPortMap.Keys
  {
  }

  /** Closing what was opened leaves the sockets held before. */
  lemma OpenedCanBeClosed(w: Ports, o: Opening)
    requires Exact(w) && OpeningInv(w, o)
    ensures o.held - (set hp | hp in o.ports :: o.ports[hp]) == w.held
  {
    var mine := set hp | hp in o.ports :: o.ports[hp];
    assert forall s :: s in o.held ==> (s in mine <==> s !in w.held);
  }

  lemma NothingOpenedIsExact(w: Ports, next: SocketId)
    requires Exact(w) && next >= w.next
    ensures Exact(AfterOpen(w, Opening(w.held, next, map[], false)))
  {
    assert w.hostPortMap + map[] == w.hostPortMap;
  }

  lemma OpenKeepsExact(w: Ports, pms: seq<PortMapping>, refused: set<nat>, fam: Family)
    requires Exact(w)
    ensures var o := OpenHostports(w, pms, refused, fam);
      && Exact(AfterOpen(w, o)) && o.ports.Keys !! w.hostPortMap.Keys
      && (!o.ok ==> o.held == w.held && o.ports == map[])
      && (o.ok ==> o.ports.Keys == OpenKeys(pms, fam))
  {
    var start := Opening(w.held, w.next, map[], true);
    var o := OpenFrom(start, pms, 0, refused, fam);
    OpenFromKeepsInv(w, start, pms, 0, refused, fam);
    if o.ok {
      OpenedIsExact(w, o);
      OpenFromKeys(start, pms, 0, refused, fam);
      assert pms[0..] == pms;
    } else {
      OpenedCanBeClosed(w, o);
      NothingOpenedIsExact(w, o.next);
    }
  }

  ghost function CloseKeys(pms: seq<PortMapping>, v6: bool): set<Hostport> {
    set pm | pm in pms :: Key(pm, v6)
  }

  lemma CloseOneExact(w: Ports, hp: Hostport)
    requires Exact(w)
    ensures Exact(CloseOne(w, hp)) && CloseOne(w, hp).hostPortMap == w.hostPortMap - {hp}
  {
  }

  lemma CloseKeysCons(pms: seq<PortMapping>, v6: bool)
    requires pms != []
    ensures CloseKeys(pms, v6) == {Key(pms[0], v6)} + CloseKeys(pms[1..], v6)
  {
  }

  /** Closing removes the listed keys and nothing else, and stays exact. */
  lemma {:induction false} CloseRemovesKeys(w: Ports, pms: seq<PortMapping>, v6: bool)
    requires Exact(w)
    ensures Exact(CloseHostports(w, pms, v6))
    ensures CloseHostports(w, pms, v6).hostPortMap == w.hostPortMap - CloseKeys(pms, v6)
    decreases |pms|
  {
    if pms != [] {
      var hp := Key(pms[0], v6);
      CloseOneExact(w, hp);
      CloseRemovesKeys(CloseOne(w, hp), pms[1..], v6);
      CloseKeysCons(pms, v6);
      assert (w.hostPortMap - {hp}) - CloseKeys(pms[1..], v6) == w.hostPortMap - ({hp} + CloseKeys(pms[1..], v6));
    }
  }

  /** In an exact state the map determines the sockets held. */
  lemma ExactDeterminesHeld(w: Ports, w': Ports)
    requires Exact(w) && Exact(w') && w.hostPortMap == w'.hostPortMap
    ensures w.held == w'.held
  {
  }

  // ---- Add and Remove ----------------------------------------------------------------------------------------

  /** What happens around the sockets during a call: which opens the host refuses, and whether the
      chain set-up, iptables-save and iptables-restore succeed.  `nothingToRemove` is the early exit
      of Remove when none of its chains exists. */
  datatype Env = Env(refused: set<nat>, ensureOk: bool, saveOk: bool, restoreOk: bool, nothingToRemove: bool)

  function AddPorts(w: Ports, req: Option<PodPortMapping>, env: Env, fam: Family): (Ports, bool) {
    if req.None? || req.value.hostNetwork then (w, true)
    else if req.value.ip.None? then (w, false)
    else
      var ip := req.value.ip.value;
      var pms := Gather(req.value.portMappings, ip.isV6, fam.isV6);
      if pms == [] then (w, true)
      else if ip.isV6 != fam.v6 || !env.ensureOk then (w, false)
      else OpenAndAdd(w, req.value.portMappings, pms, env, fam)
  }

  /** Add from the opening of the ports on; `gathered` are the mappings closed again after a failure. */
  function OpenAndAdd(w: Ports, pms: seq<PortMapping>, gathered: seq<PortMapping>, env: Env, fam: Family): (Ports, bool) {
    var o := OpenHostports(w, pms, env.refused, fam);
    if !o.ok then (w.(held := o.held, next := o.next), false)
    else
      var w' := Ports(w.hostPortMap + o.ports, o.held, o.next);
      if env.saveOk && env.restoreOk then (w', true) else (CloseHostports(w', gathered, fam.v6), false)
  }

  function RemovePorts(w: Ports, req: Option<PodPortMapping>, env: Env, fam: Family): (Ports, bool) {
    if req.None? || req.value.hostNetwork then (w, true)
    else
      var pms := Gather(req.value.portMappings, fam.v6, fam.isV6);
      if pms == [] then (w, true)
      else if !env.saveOk then (w, false)
      else if env.nothingToRemove || env.restoreOk then (CloseHostports(w, pms, fam.v6), true)
      else (w, false)
  }

  /** The keys opened are all closed again by the gathered mappings, and an SCTP key is never held. */
  lemma OpenedThenClosed(w: Ports, pms: seq<PortMapping>, fam: Family, ports: map<Hostport, SocketId>)
    requires Exact(w) && ports.Keys == OpenKeys(pms, fam) && ports.Keys !! w.hostPortMap.Keys
    ensures (w.hostPortMap + ports) - CloseKeys(Gather(pms, fam.v6, fam.isV6), fam.v6) == w.hostPortMap
            <==> w.hostPortMap.Keys !! CloseKeys(Gather(pms, fam.v6, fam.isV6), fam.v6)
    ensures forall hp :: hp in CloseKeys(Gather(pms, fam.v6, fam.isV6), fam.v6) ==> hp in ports || hp.protocol == "sctp"
  {
    GatherKeepsWanted(pms, fam.v6, fam.isV6);
    var closed := CloseKeys(Gather(pms, fam.v6, fam.isV6), fam.v6);
    assert ports.Keys <= closed;
    LowerSctp();
    var m := (w.hostPortMap + ports) - closed;
    assert m.Keys == w.hostPortMap.Keys - closed;
    if w.hostPortMap.Keys !! closed {
      assert m == w.hostPortMap;
    }
  }

  lemma LowerSctp()
    ensures Lower(PROTOCOL_SCTP) == "sctp"
  {
  }

  lemma OpenedThenClosedRestores(w: Ports, pms: seq<PortMapping>, fam: Family, refused: set<nat>)
    requires Exact(w) && OpenHostports(w, pms, refused, fam).ok
    ensures var w' := AfterOpen(w, OpenHostports(w, pms, refused, fam));
      var c := CloseHostports(w', Gather(pms, fam.v6, fam.isV6), fam.v6);
      Exact(c) && c.hostPortMap == w.hostPortMap && c.held == w.held
  {
    OpenKeepsExact(w, pms, refused, fam);
    var o := OpenHostports(w, pms, refused, fam);
    var w' := AfterOpen(w, o);
    var gathered := Gather(pms, fam.v6, fam.isV6);
    CloseRemovesKeys(w', gathered, fam.v6);
    OpenedThenClosed(w, pms, fam, o.ports);
    var closed := CloseKeys(gathered, fam.v6);
    forall hp | hp in w.hostPortMap ensures hp !in closed {
      assert Openable(w.held[w.hostPortMap[hp]]);
    }
    ExactDeterminesHeld(CloseHostports(w', gathered, fam.v6), w);
  }

  ghost predicate AllOrNothing(w: Ports, w': Ports, ok: bool) {
    && Exact(w') && w.hostPortMap.Keys <= w'.hostPortMap.Keys
    && (!ok ==> w'.hostPortMap == w.hostPortMap && w'.held == w.held)
  }

  lemma OpenedAddIsAllOrNothing(w: Ports, pms: seq<PortMapping>, env: Env, fam: Family)
    requires Exact(w)
    ensures var (w', ok) := OpenAndAdd(w, pms, Gather(pms, fam.v6, fam.isV6), env, fam); AllOrNothing(w, w', ok)
  {
    var o := OpenHostports(w, pms, env.refused, fam);
    OpenKeepsExact(w, pms, env.refused, fam);
    if o.ok {
      OpenedThenClosedRestores(w, pms, fam, env.refused);
    } else {
      assert w.hostPortMap + map[] == w.hostPortMap;
    }
  }

  /** Every Add keeps the map exact and every key it held; a failed Add leaves the map and the sockets
      as they were. */
  lemma AddIsAllOrNothing(w: Ports, req: Option<PodPortMapping>, env: Env, fam: Family)
    requires Exact(w)
    ensures var (w', ok) := AddPorts(w, req, env, fam); AllOrNothing(w, w', ok)
  {
    if req.Some? {
      OpenedAddIsAllOrNothing(w, req.value.portMappings, env, fam);
    }
  }

  ghost function RemoveKeys(req: PodPortMapping, fam: Family): set<Hostport> {
    CloseKeys(Gather(req.portMappings, fam.v6, fam.isV6), fam.v6)
  }

  /** Every Remove keeps the map exact, changes nothing when it fails, and touches only its own keys. */
  lemma RemoveKeepsExact(w: Ports, req: Option<PodPortMapping>, env: Env, fam: Family)
    requires Exact(w)
    ensures Exact(RemovePorts(w, req, env, fam).0)
    ensures !RemovePorts(w, req, env, fam).1 ==> RemovePorts(w, req, env, fam).0 == w
    ensures forall hp :: hp in w.hostPortMap && (req.None? || hp !in RemoveKeys(req.value, fam)) ==>
                         hp in RemovePorts(w, req, env, fam).0.hostPortMap
  {
    if req.Some? {
      CloseRemovesKeys(w, Gather(req.value.portMappings, fam.v6, fam.isV6), fam.v6);
    }
  }

  /** A successful Add and then a successful Remove of the same mapping restore the map exactly when
      the pod's address family is the manager's, or else Remove's keys are not in use: Add selects the
      mappings by the pod's family and Remove by the manager's. */
  lemma AddThenRemoveRestoresIff(w: Ports, req: PodPortMapping, env: Env, env': Env, fam: Family)
    requires Exact(w) && !req.hostNetwork
    requires AddPorts(w, Some(req), env, fam).1
    requires RemovePorts(AddPorts(w, Some(req), env, fam).0, Some(req), env', fam).1
    ensures req.ip.Some?
    ensures var w' := RemovePorts(AddPorts(w, Some(req), env, fam).0, Some(req), env', fam).0;
      w'.hostPortMap == w.hostPortMap && w'.held == w.held
      <==> req.ip.value.isV6 == fam.v6
           || RemoveKeys(req, fam) !! w.hostPortMap.Keys
  {
    var gathered := Gather(req.portMappings, fam.v6, fam.isV6);
    if req.ip.value.isV6 == fam.v6 {
      if gathered != [] {
        OpenedThenClosedRestores(w, req.portMappings, fam, env.refused);
      }
    } else {
      assert AddPorts(w, Some(req), env, fam).0 == w;
      if gathered != [] {
        CloseRemovesKeys(w, gathered, fam.v6);
        var w' := CloseHostports(w, gathered, fam.v6);
        if CloseKeys(gathered, fam.v6) !! w.hostPortMap.Keys {
          assert w'.hostPortMap == w.hostPortMap;
          ExactDeterminesHeld(w', w);
        } else {
          var hp :| hp in CloseKeys(gathered, fam.v6) && hp in w.hostPortMap;
          assert hp !in w'.hostPortMap;
        }
      }
    }
  }

  /** An input on which it fails: an IPv6 pod whose mapping names an IPv4 host address that another
      pod holds, under an IPv4 manager.  Add does nothing and Remove closes the other pod's port. */
  lemma FamilyMismatchClosesAnotherPodsPort(fam: Family)
    requires !fam.v6 && !fam.isV6("10.0.0.1")
    ensures var pm := PortMapping(80, 80, "TCP", "10.0.0.1");
      var other := Ports(map[Key(pm, false) := 0], map[0 := Key(pm, false)], 1);
      var req := PodPortMapping("ns", "pod", [pm], false, Some(PodIP("::1", true)));
      var env := Env({}, true, true, true, true);
      && Exact(other)
      && AddPorts(other, Some(req), env, fam) == (other, true)
      && RemovePorts(other, Some(req), env, fam).1
      && Key(pm, false) !in RemovePorts(other, Some(req), env, fam).0.hostPortMap
  {
    var pm := PortMapping(80, 80, "TCP", "10.0.0.1");
    assert "TCP"[1..] == "CP" && "CP"[1..] == "P" && "P"[1..] == "";
    assert Lower("P") == "p" && Lower("CP") == ['c'] + "p" && Lower("TCP") == ['t'] + "cp";
    assert Lower("TCP") == "tcp";
    assert [pm][1..] == [];
    assert Gather([pm], true, fam.isV6) == [] && Gather([pm], false, fam.isV6) == [pm];
    var other := Ports(map[Key(pm, false) := 0], map[0 := Key(pm, false)], 1);
    CloseRemovesKeys(other, [pm], false);
    assert Key(pm, false) in CloseKeys([pm], false);
  }

  // ---- runs -----------------------------------------------------------------------------------------------------

  datatype Op = AddOp(req: Option<PodPortMapping>, env: Env) | RemoveOp(req: Option<PodPortMapping>, env: Env)

  function PortsAfter(ops: seq<Op>, fam: Family): Ports {
    if ops == [] then Ports(map[], map[], 0)
    else
      var w, op := PortsAfter(ops[..|ops| - 1], fam), ops[|ops| - 1];
      if op.AddOp? then AddPorts(w, op.req, op.env, fam).0 else RemovePorts(w, op.req, op.env, fam).0
  }

  /** Over every run of Add and Remove with arbitrary failures the map is exactly the sockets held. */
  lemma {:induction false} RunsStayExact(ops: seq<Op>, fam: Family)
    ensures Exact(PortsAfter(ops, fam))
  {
    if ops != [] {
      var op := ops[|ops| - 1];
      RunsStayExact(ops[..|ops| - 1], fam);
      if op.AddOp? {
        AddIsAllOrNothing(PortsAfter(ops[..|ops| - 1], fam), op.req, op.env, fam);
      } else {
        RemoveKeepsExact(PortsAfter(ops[..|ops| - 1], fam), op.req, op.env, fam);
      }
    }
  }

  // ---- when Add succeeds, and which ports are held -----------------------------------------------------------------

  /** The socket of a mapping: its host port, protocol and host address, in the manager's family. */
  predicate IsFor(hp: Hostport, pm: PortMapping, v6: bool) {
    && hp.port == pm.hostPort && hp.protocol == Lower(pm.protocol) && hp.ip == pm.hostIP
    && hp.ipFamily == (if v6 then "6" else "4")
  }

  lemma KeyIsFor(hp: Hostport, pm: PortMapping, v6: bool)
    ensures IsFor(hp, pm, v6) <==> hp == Key(pm, v6)
  {
  }

  /** The port of the i-th mapping can be opened: its protocol is tcp or udp, the host does not refuse, and neither
      a socket held before nor an earlier mapping has it. */
  ghost predicate CanOpen(held: map<SocketId, Hostport>, pms: seq<PortMapping>, i: nat, refused: set<nat>, fam: Family)
    requires i < |pms|
  {
    && (Lower(pms[i].protocol) == "tcp" || Lower(pms[i].protocol) == "udp") && i !in refused
    && (forall s :: s in held ==> !IsFor(held[s], pms[i], fam.v6))
    && (forall j :: 0 <= j < i && ToOpen(pms[j], fam) ==> !SamePort(pms[j], pms[i]))
  }

  predicate SamePort(a: PortMapping, b: PortMapping) {
    a.hostPort == b.hostPort && a.hostIP == b.hostIP && Lower(a.protocol) == Lower(b.protocol)
  }

  ghost predicate AllCanOpen(held: map<SocketId, Hostport>, pms: seq<PortMapping>, from: nat, refused: set<nat>, fam: Family) {
    forall i :: from <= i < |pms| && ToOpen(pms[i], fam) ==> CanOpen(held, pms, i, refused, fam)
  }

  ghost predicate Used(held: map<SocketId, Hostport>, hp: Hostport) { exists s :: s in held && held[s] == hp }

  /** After the first i mappings the sockets are those held before and theirs. */
  ghost predicate OpenedSoFar(held: map<SocketId, Hostport>, o: Opening, pms: seq<PortMapping>, i: nat, fam: Family)
    requires i <= |pms|
  {
    && o.ok && (forall s :: s in o.held ==> s < o.next)
    && forall hp :: Used(o.held, hp) <==> Used(held, hp) || exists j :: 0 <= j < i && ToOpen(pms[j], fam) && hp == Key(pms[j], fam.v6)
  }

  lemma OpensIff(held: map<SocketId, Hostport>, o: Opening, pms: seq<PortMapping>, i: nat, refused: set<nat>, fam: Family)
    requires i < |pms| && OpenedSoFar(held, o, pms, i, fam)
    ensures Opens(o.held, Key(pms[i], fam.v6), i in refused) <==> CanOpen(held, pms, i, refused, fam)
  {
    var hp := Key(pms[i], fam.v6);
    assert Used(o.held, hp) <==> Used(held, hp) || exists j :: 0 <= j < i && ToOpen(pms[j], fam) && hp == Key(pms[j], fam.v6);
  }

  lemma OpenedOneMore(held: map<SocketId, Hostport>, o: Opening, pms: seq<PortMapping>, i: nat, fam: Family)
    requires i < |pms| && OpenedSoFar(held, o, pms, i, fam)
    ensures ToOpen(pms[i], fam) ==> OpenedSoFar(held, OpenOne(o, Key(pms[i], fam.v6)), pms, i + 1, fam)
    ensures !ToOpen(pms[i], fam) ==> OpenedSoFar(held, o, pms, i + 1, fam)
  {
    var key := Key(pms[i], fam.v6);
    var o' := OpenOne(o, key);
    forall hp ensures Used(o'.held, hp) <==> Used(o.held, hp) || hp == key {
      assert o'.held[o.next] == key;
      if s :| s in o.held && o.held[s] == hp { assert o'.held[s] == hp; }
    }
  }

  lemma {:induction false} OpenFromIff(held: map<SocketId, Hostport>, o: Opening, pms: seq<PortMapping>, i: nat, refused: set<nat>, fam: Family)
    requires i <= |pms| && OpenedSoFar(held, o, pms, i, fam)
    ensures OpenFrom(o, pms, i, refused, fam).ok <==> AllCanOpen(held, pms, i, refused, fam)
    decreases |pms| - i
  {
    if i < |pms| {
      OpensIff(held, o, pms, i, refused, fam);
      OpenedOneMore(held, o, pms, i, fam);
      if !ToOpen(pms[i], fam) {
        OpenFromIff(held, o, pms, i + 1, refused, fam);
      } else if CanOpen(held, pms, i, refused, fam) {
        OpenFromIff(held, OpenOne(o, Key(pms[i], fam.v6)), pms, i + 1, refused, fam);
      }
    }
  }

  /** openHostports succeeds exactly if every port it has to open can be opened. */
  lemma OpenSucceedsIff(w: Ports, pms: seq<PortMapping>, refused: set<nat>, fam: Family)
    requires Exact(w)
    ensures OpenHostports(w, pms, refused, fam).ok <==> AllCanOpen(w.held, pms, 0, refused, fam)
  {
    OpenFromIff(w.held, Opening(w.held, w.next, map[], true), pms, 0, refused, fam);
  }

  /** None of the pod's mappings has a host port in the family. */
  ghost predicate NoneWanted(pms: seq<PortMapping>, v6: bool, isV6: string -> bool) {
    forall pm :: pm in pms ==> !Wanted(pm, v6, isV6)
  }

  lemma GatherEmptyIff(pms: seq<PortMapping>, v6: bool, isV6: string -> bool)
    ensures Gather(pms, v6, isV6) == [] <==> NoneWanted(pms, v6, isV6)
  {
    GatherKeepsWanted(pms, v6, isV6);
    if Gather(pms, v6, isV6) != [] { assert Gather(pms, v6, isV6)[0] in pms; }
  }

  /** Add succeeds exactly if there is nothing to do, or the pod has an address of the manager's family, its ports
      can be opened and iptables does not fail. */
  lemma AddSucceedsIff(w: Ports, req: Option<PodPortMapping>, env: Env, fam: Family)
    requires Exact(w)
    ensures AddPorts(w, req, env, fam).1 <==>
      || req.None? || req.value.hostNetwork
      || (req.value.ip.Some? && NoneWanted(req.value.portMappings, req.value.ip.value.isV6, fam.isV6))
      || (&& req.value.ip.Some? && req.value.ip.value.isV6 == fam.v6 && env.ensureOk && env.saveOk && env.restoreOk
          && AllCanOpen(w.held, req.value.portMappings, 0, env.refused, fam))
  {
    if req.Some? && req.value.ip.Some? {
      GatherEmptyIff(req.value.portMappings, req.value.ip.value.isV6, fam.isV6);
      OpenSucceedsIff(w, req.value.portMappings, env.refused, fam);
    }
  }

  /** The request asks for the socket to be opened, or to be closed. */
  ghost predicate AsksToOpen(req: Option<PodPortMapping>, hp: Hostport, fam: Family) {
    && req.Some? && !req.value.hostNetwork && req.value.ip.Some? && req.value.ip.value.isV6 == fam.v6
    && exists pm :: pm in req.value.portMappings && ToOpen(pm, fam) && IsFor(hp, pm, fam.v6)
  }

  ghost predicate AsksToClose(req: Option<PodPortMapping>, hp: Hostport, fam: Family) {
    && req.Some? && !req.value.hostNetwork
    && exists pm :: pm in req.value.portMappings && Wanted(pm, fam.v6, fam.isV6) && IsFor(hp, pm, fam.v6)
  }

  lemma OpenKeysIff(pms: seq<PortMapping>, fam: Family, hp: Hostport)
    ensures hp in OpenKeys(pms, fam) <==> exists pm :: pm in pms && ToOpen(pm, fam) && IsFor(hp, pm, fam.v6)
  {
    if pm :| pm in pms && ToOpen(pm, fam) && IsFor(hp, pm, fam.v6) { KeyIsFor(hp, pm, fam.v6); }
    if hp in OpenKeys(pms, fam) {
      var pm :| pm in pms && ToOpen(pm, fam) && hp == Key(pm, fam.v6);
      assert IsFor(hp, pm, fam.v6);
    }
  }

  lemma CloseKeysIff(pms: seq<PortMapping>, fam: Family, hp: Hostport)
    ensures hp in CloseKeys(Gather(pms, fam.v6, fam.isV6), fam.v6) <==>
            exists pm :: pm in pms && Wanted(pm, fam.v6, fam.isV6) && IsFor(hp, pm, fam.v6)
  {
    GatherKeepsWanted(pms, fam.v6, fam.isV6);
    if pm :| pm in pms && Wanted(pm, fam.v6, fam.isV6) && IsFor(hp, pm, fam.v6) {
      KeyIsFor(hp, pm, fam.v6);
      assert pm in Gather(pms, fam.v6, fam.isV6);
    }
    if hp in CloseKeys(Gather(pms, fam.v6, fam.isV6), fam.v6) {
      var pm :| pm in Gather(pms, fam.v6, fam.isV6) && hp == Key(pm, fam.v6);
      assert IsFor(hp, pm, fam.v6);
    }
  }

  /** Add adds exactly the sockets it is asked to open, if it succeeds, and none otherwise. */
  lemma AddHolds(w: Ports, req: Option<PodPortMapping>, env: Env, fam: Family, hp: Hostport)
    requires Exact(w)
    ensures var (w', ok) := AddPorts(w, req, env, fam);
      hp in w'.hostPortMap <==> hp in w.hostPortMap || (ok && AsksToOpen(req, hp, fam))
  {
    AddIsAllOrNothing(w, req, env, fam);
    var (w', ok) := AddPorts(w, req, env, fam);
    if ok && req.Some? && !req.value.hostNetwork {
      var pms := req.value.portMappings;
      OpenKeysIff(pms, fam, hp);
      GatherEmptyIff(pms, req.value.ip.value.isV6, fam.isV6);
      OpenKeepsExact(w, pms, env.refused, fam);
    }
  }

  /** Remove succeeds exactly if there is nothing to do or iptables does not fail, and then the sockets it is asked
      to close are gone; no others. */
  lemma RemoveReleases(w: Ports, req: Option<PodPortMapping>, env: Env, fam: Family, hp: Hostport)
    requires Exact(w)
    ensures var (w', ok) := RemovePorts(w, req, env, fam);
      && (ok <==> req.None? || req.value.hostNetwork || NoneWanted(req.value.portMappings, fam.v6, fam.isV6) ||
                  (env.saveOk && (env.nothingToRemove || env.restoreOk)))
      && (hp in w'.hostPortMap <==> hp in w.hostPortMap && !(ok && AsksToClose(req, hp, fam)))
  {
    if req.Some? {
      GatherEmptyIff(req.value.portMappings, fam.v6, fam.isV6);
      CloseKeysIff(req.value.portMappings, fam, hp);
      CloseRemovesKeys(w, Gather(req.value.portMappings, fam.v6, fam.isV6), fam.v6);
    }
  }

  /** The operation at `j` succeeds and opens the socket, or closes it. */
  ghost predicate OpensAt(ops: seq<Op>, fam: Family, hp: Hostport, j: nat)
    requires j < |ops|
  {
    ops[j].AddOp? && AddPorts(PortsAfter(ops[..j], fam), ops[j].req, ops[j].env, fam).1 && AsksToOpen(ops[j].req, hp, fam)
  }

  ghost predicate ClosesAt(ops: seq<Op>, fam: Family, hp: Hostport, j: nat)
    requires j < |ops|
  {
    ops[j].RemoveOp? && RemovePorts(PortsAfter(ops[..j], fam), ops[j].req, ops[j].env, fam).1 && AsksToClose(ops[j].req, hp, fam)
  }

  /** The socket was opened at `j` and not closed since. */
  ghost predicate OpenSince(ops: seq<Op>, fam: Family, hp: Hostport, j: nat) {
    j < |ops| && OpensAt(ops, fam, hp, j) && forall k :: j < k < |ops| ==> !ClosesAt(ops, fam, hp, k)
  }

  lemma HeldStep(ops: seq<Op>, fam: Family, hp: Hostport)
    requires ops != []
    ensures var n := |ops| - 1;
      hp in PortsAfter(ops, fam).hostPortMap <==>
      OpensAt(ops, fam, hp, n) || (hp in PortsAfter(ops[..n], fam).hostPortMap && !ClosesAt(ops, fam, hp, n))
  {
    var n := |ops| - 1;
    var w, op := PortsAfter(ops[..n], fam), ops[n];
    RunsStayExact(ops[..n], fam);
    if op.AddOp? { AddHolds(w, op.req, op.env, fam, hp); } else { RemoveReleases(w, op.req, op.env, fam, hp); }
  }

  lemma OpenSinceStep(ops: seq<Op>, fam: Family, hp: Hostport, j: nat)
    requires j < |ops| - 1
    ensures var n := |ops| - 1; OpenSince(ops, fam, hp, j) <==> OpenSince(ops[..n], fam, hp, j) && !ClosesAt(ops, fam, hp, n)
  {
    var n := |ops| - 1;
    assert ops[..n][..j] == ops[..j];
    forall k | j < k < n ensures ClosesAt(ops, fam, hp, k) == ClosesAt(ops[..n], fam, hp, k) {
      assert ops[..n][..k] == ops[..k];
    }
  }

  /** Over every run of Add and Remove with arbitrary failures: a socket is held exactly if some Add that asked for
      it succeeded and no Remove that asks to close it has succeeded since. */
  lemma {:induction false} HeldIff(ops: seq<Op>, fam: Family, hp: Hostport)
    ensures hp in PortsAfter(ops, fam).hostPortMap <==> exists j: nat :: OpenSince(ops, fam, hp, j)
    decreases |ops|
  {
    if ops != [] {
      var n := |ops| - 1;
      HeldIff(ops[..n], fam, hp);
      HeldStep(ops, fam, hp);
      if OpensAt(ops, fam, hp, n) {
        assert OpenSince(ops, fam, hp, n);
      } else if hp in PortsAfter(ops[..n], fam).hostPortMap && !ClosesAt(ops, fam, hp, n) {
        var j: nat :| OpenSince(ops[..n], fam, hp, j);
        OpenSinceStep(ops, fam, hp, j);
      } else if j: nat :| OpenSince(ops, fam, hp, j) {
        OpenSinceStep(ops, fam, hp, j);
      }
    }
  }

  // ---- the loops ---------------------------------------------------------------------------------------------------

  class HostportManager {
    var hostPortMap: map<Hostport, SocketId>
    var held: map<SocketId, Hostport>
    var next: SocketId
    const fam: Family

    ghost function View(): Ports
      reads this
    {
      Ports(hostPortMap, held, next)
    }

    constructor (fam: Family)
      ensures View() == Ports(map[], map[], 0) && this.fam == fam
    {
      hostPortMap, held, next, this.fam := map[], map[], 0, fam;
    }

    method GatherMappings(pms: seq<PortMapping>, v6: bool) returns (mappings: seq<PortMapping>)
      ensures mappings == Gather(pms, v6, fam.isV6)
    {
      mappings := [];
      for i := 0 to |pms|
        invariant mappings == Gather(pms[..i], v6, fam.isV6)
      {
        GatherAppend(pms[..i], pms[i], v6, fam.isV6);
        assert pms[..i + 1] == pms[..i] + [pms[i]];
        if pms[i].hostPort <= 0 { continue; }
        if pms[i].hostIP != "" && fam.isV6(pms[i].hostIP) != v6 { continue; }
        mappings := mappings + [pms[i]];
      }
      assert pms[..|pms|] == pms;
    }

    /** Tries the opener; on success the socket is held. */
    method OpenLocalPort(hp: Hostport, refused: bool) returns (socket: Option<SocketId>)
      modifies this`held, this`next
      ensures socket == if Opens(old(held), hp, refused) then Some(old(next)) else None
      ensures held == (if socket.Some? then old(held)[old(next) := hp] else old(held))
      ensures next == (if socket.Some? then old(next) + 1 else old(next))
    {
      if (hp.protocol == "tcp" || hp.protocol == "udp") && !refused && hp !in held.Values {
        socket := Some(next);
        held := held[next := hp];
        next := next + 1;
      } else {
        socket := None;
      }
    }

    method OpenAll(pms: seq<PortMapping>, refused: set<nat>) returns (ports: map<Hostport, SocketId>, ok: bool)
      modifies this`held, this`next
      ensures Opening(held, next, ports, ok) == OpenHostports(old(View()), pms, refused, fam)
    {
      ports, ok := map[], true;
      ghost var whole := OpenFrom(Opening(held, next, map[], true), pms, 0, refused, fam);
      for i := 0 to |pms|
        invariant ok && OpenFrom(Opening(held, next, ports, true), pms, i, refused, fam) == whole
      {
        if pms[i].hostPort <= 0 { continue; }
        if pms[i].protocol == PROTOCOL_SCTP { continue; }
        if pms[i].hostIP != "" && fam.isV6(pms[i].hostIP) != fam.v6 { continue; }
        var hp := Key(pms[i], fam.v6);
        var socket := OpenLocalPort(hp, i in refused);
        if socket.None? {
          ok := false;
          break;
        }
        ports := ports[hp := socket.value];
      }
      if !ok {
        held := held - (set hp | hp in ports :: ports[hp]);
        ports := map[];
      }
    }

    method CloseAll(pms: seq<PortMapping>)
      modifies this`hostPortMap, this`held
      ensures View() == CloseHostports(old(View()), pms, fam.v6)
    {
      for i := 0 to |pms|
        invariant next == old(next)
        invariant CloseHostports(View(), pms[i..], fam.v6) == CloseHostports(old(View()), pms, fam.v6)
      {
        assert pms[i..][1..] == pms[i + 1..];
        var hp := Key(pms[i], fam.v6);
        if hp in hostPortMap {
          held := held - {hostPortMap[hp]};
          hostPortMap := hostPortMap - {hp};
        }
      }
    }

    method Add(req: Option<PodPortMapping>, env: Env) returns (ok: bool)
      modifies this
      ensures (View(), ok) == AddPorts(old(View()), req, env, fam)
    {
      if req.None? || req.value.hostNetwork { return true; }
      if req.value.ip.None? { return false; }
      var ip := req.value.ip.value;
      var mappings := GatherMappings(req.value.portMappings, ip.isV6);
      if |mappings| == 0 { return true; }
      if ip.isV6 != fam.v6 { return false; }
      if !env.ensureOk { return false; }
      var ports;
      ports, ok := OpenAll(req.value.portMappings, env.refused);
      if !ok { return false; }
      hostPortMap := hostPortMap + ports;
      if !env.saveOk || !env.restoreOk {
        CloseAll(mappings);
        return false;
      }
    }

    method Remove(req: Option<PodPortMapping>, env: Env) returns (ok: bool)
      modifies this
      ensures (View(), ok) == RemovePorts(old(View()), req, env, fam)
    {
      if req.None? || req.value.hostNetwork { return true; }
      var mappings := GatherMappings(req.value.portMappings, fam.v6);
      if |mappings| == 0 { return true; }
      if !env.saveOk { return false; }
      if !env.nothingToRemove && !env.restoreOk { return false; }
      CloseAll(mappings);
      ok := true;
    }
  }
}
