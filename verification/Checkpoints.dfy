/** Sandbox checkpoints: how a sandbox configuration becomes a stored document and is read back,
    core/checkpoint.go, core/sandbox_helpers.go, store/checkpointmanager.go and core/sandbox_port_forward.go.

    Documents are JSON values; the text form of JSON and the checksum's hash function are left abstract. */
module Checkpoints {
  import opened Text
  import opened StoreKeys

  type Int32 = n: int | -0x8000_0000 <= n < 0x8000_0000
  type Checksum = n: nat | n < 0x1_0000_0000_0000_0000

  // ---- documents --------------------------------------------------------------------------------------------

  /** The members of the stored objects, by the tags of the source's struct fields. */
  datatype Tag =
    | TVersion | TName | TNamespace | TData | TChecksum
    | TPortMappings | THostNetwork
    | TProtocol | TContainerPort | THostPort | THostIP

  datatype Json = Null | Str(s: string) | Num(n: int) | Bool(b: bool) | Arr(items: seq<Json>) | Obj(fields: map<Tag, Json>)

  /** A None here stands for a nil pointer or a nil slice. */
  datatype Mapping = Mapping(protocol: Option<string>, containerPort: Option<Int32>, hostPort: Option<Int32>, hostIP: string)
  datatype Data = Data(portMappings: Option<seq<Option<Mapping>>>, hostNetwork: bool)
  datatype Checkpoint = Checkpoint(version: string, name: string, namespace: string, data: Option<Data>, checksum: Checksum)

  const SCHEMA_VERSION := "v1"

  function NewPodSandboxCheckpoint(namespace: string, name: string, data: Data): Checkpoint {
    Checkpoint(SCHEMA_VERSION, name, namespace, Some(data), 0)
  }

  /** The receiver of every read. */
  const BLANK := NewPodSandboxCheckpoint("", "", Data(None, false))

  // ---- encoding: empty members are omitted ---------------------------------------------------------------------

  function Member(tag: Tag, value: Option<Json>): map<Tag, Json> {
    if value.Some? then map[tag := value.value] else map[]
  }

  function EncodeMapping(m: Mapping): Json {
    Obj(Member(TProtocol, if m.protocol.Some? then Some(Str(m.protocol.value)) else None) +
        Member(TContainerPort, if m.containerPort.Some? then Some(Num(m.containerPort.value)) else None) +
        Member(THostPort, if m.hostPort.Some? then Some(Num(m.hostPort.value)) else None) +
        Member(THostIP, if m.hostIP != "" then Some(Str(m.hostIP)) else None))
  }

  function EncodeMappings(ms: seq<Option<Mapping>>): seq<Json> {
    if ms == [] then []
    else [if ms[0].Some? then EncodeMapping(ms[0].value) else Null] + EncodeMappings(ms[1..])
  }

  function EncodeData(d: Data): Json {
    Obj(Member(TPortMappings, if d.portMappings.Some? && d.portMappings.value != []
                              then Some(Arr(EncodeMappings(d.portMappings.value))) else None) +
        Member(THostNetwork, if d.hostNetwork then Some(Bool(true)) else None))
  }

  function Encode(c: Checkpoint): Json {
    Obj(map[TVersion := Str(c.version), TName := Str(c.name), TNamespace := Str(c.namespace), TChecksum := Num(c.checksum)] +
        Member(TData, if c.data.Some? then Some(EncodeData(c.data.value)) else None))
  }

  // ---- decoding: missing members keep what the receiver has; null clears pointers and slices -------------------

  predicate Given(o: map<Tag, Json>, tag: Tag) { tag in o && !o[tag].Null? }

  function StrOr(o: map<Tag, Json>, tag: Tag, was: string): Option<string> {
    if !Given(o, tag) then Some(was) else if o[tag].Str? then Some(o[tag].s) else None
  }

  function DecodeMapping(j: Json): Option<Mapping> {
    if !j.Obj? then None
    else if Given(j.fields, TProtocol) && !j.fields[TProtocol].Str? then None
    else if Given(j.fields, TContainerPort) && !IsInt32(j.fields[TContainerPort]) then None
    else if Given(j.fields, THostPort) && !IsInt32(j.fields[THostPort]) then None
    else if Given(j.fields, THostIP) && !j.fields[THostIP].Str? then None
    else
      Some(Mapping(if Given(j.fields, TProtocol) then Some(j.fields[TProtocol].s) else None,
                   if Given(j.fields, TContainerPort) then Some(j.fields[TContainerPort].n) else None,
                   if Given(j.fields, THostPort) then Some(j.fields[THostPort].n) else None,
                   if Given(j.fields, THostIP) then j.fields[THostIP].s else ""))
  }

  predicate IsInt32(j: Json) { j.Num? && -0x8000_0000 <= j.n < 0x8000_0000 }

  function DecodeMappings(js: seq<Json>): Option<seq<Option<Mapping>>> {
    if js == [] then Some([])
    else if js[0].Null? then
      match DecodeMappings(js[1..])
      case Some(ms) => Some([None] + ms)
      case None => None
    else
      match (DecodeMapping(js[0]), DecodeMappings(js[1..]))
      case (Some(m), Some(ms)) => Some([Some(m)] + ms)
      case _ => None
  }

  function DecodePorts(o: map<Tag, Json>, was: Option<seq<Option<Mapping>>>): Option<Option<seq<Option<Mapping>>>> {
    if TPortMappings !in o then Some(was)
    else if o[TPortMappings].Null? then Some(None)
    else if !o[TPortMappings].Arr? then None
    else
      match DecodeMappings(o[TPortMappings].items)
      case None => None
      case Some(ms) => Some(Some(ms))
  }

  function DecodeData(j: Json, was: Data): Option<Data> {
    if !j.Obj? then None
    else if Given(j.fields, THostNetwork) && !j.fields[THostNetwork].Bool? then None
    else
      match DecodePorts(j.fields, was.portMappings)
      case None => None
      case Some(ports) => Some(Data(ports, if Given(j.fields, THostNetwork) then j.fields[THostNetwork].b else was.hostNetwork))
  }

  /** The data pointer: null sets it to nil, and a nil one is given a blank target. */
  function DecodePointer(o: map<Tag, Json>, was: Option<Data>): Option<Option<Data>> {
    if TData !in o then Some(was)
    else if o[TData].Null? then Some(None)
    else
      match DecodeData(o[TData], if was.Some? then was.value else Data(None, false))
      case None => None
      case Some(d) => Some(Some(d))
  }

  function DecodeChecksum(o: map<Tag, Json>, was: Checksum): Option<Checksum> {
    if !Given(o, TChecksum) then Some(was)
    else if o[TChecksum].Num? && 0 <= o[TChecksum].n < 0x1_0000_0000_0000_0000 then Some(o[TChecksum].n as Checksum)
    else None
  }

  function Decode(j: Json, was: Checkpoint): Option<Checkpoint> {
    if j.Null? then Some(was)
    else if !j.Obj? then None
    else
      var o := j.fields;
      match (StrOr(o, TVersion, was.version), StrOr(o, TName, was.name), StrOr(o, TNamespace, was.namespace),
             DecodePointer(o, was.data), DecodeChecksum(o, was.checksum))
      case (Some(version), Some(name), Some(namespace), Some(data), Some(checksum)) =>
        Some(Checkpoint(version, name, namespace, data, checksum))
      case _ => None
  }

  // ---- which documents are read ----------------------------------------------------------------------------------

  /** The value is missing or null, or of its member's type. */
  ghost predicate Textual(o: map<Tag, Json>, tag: Tag) { tag in o ==> o[tag].Null? || o[tag].Str? }
  ghost predicate Port(o: map<Tag, Json>, tag: Tag) {
    tag in o ==> o[tag].Null? || (o[tag].Num? && -0x8000_0000 <= o[tag].n <= 0x7fff_ffff)
  }

  ghost predicate MappingTyped(j: Json) {
    j.Obj? && Textual(j.fields, TProtocol) && Textual(j.fields, THostIP) && Port(j.fields, TContainerPort) && Port(j.fields, THostPort)
  }

  ghost predicate DataTyped(j: Json) {
    && j.Obj? && (THostNetwork in j.fields ==> j.fields[THostNetwork].Null? || j.fields[THostNetwork].Bool?)
    && (TPortMappings in j.fields ==>
          || j.fields[TPortMappings].Null?
          || (j.fields[TPortMappings].Arr? && forall m :: m in j.fields[TPortMappings].items ==> m.Null? || MappingTyped(m)))
  }

  ghost predicate Typed(j: Json) {
    || j.Null?
    || (&& j.Obj? && Textual(j.fields, TVersion) && Textual(j.fields, TName) && Textual(j.fields, TNamespace)
        && (TData in j.fields ==> j.fields[TData].Null? || DataTyped(j.fields[TData]))
        && (TChecksum in j.fields ==>
              j.fields[TChecksum].Null? || (j.fields[TChecksum].Num? && 0 <= j.fields[TChecksum].n <= 0xffff_ffff_ffff_ffff)))
  }

  lemma MappingTypedIff(j: Json)
    ensures DecodeMapping(j).Some? <==> MappingTyped(j)
  {
  }

  lemma {:induction false} MappingsTypedIff(js: seq<Json>)
    ensures DecodeMappings(js).Some? <==> forall m :: m in js ==> m.Null? || MappingTyped(m)
  {
    if js != [] {
      MappingTypedIff(js[0]);
      MappingsTypedIff(js[1..]);
      assert forall m :: m in js <==> m == js[0] || m in js[1..];
    }
  }

  lemma DataTypedIff(j: Json, was: Data)
    ensures DecodeData(j, was).Some? <==> DataTyped(j)
  {
    if j.Obj? && TPortMappings in j.fields && j.fields[TPortMappings].Arr? {
      MappingsTypedIff(j.fields[TPortMappings].items);
    }
  }

  /** A document is read exactly if each of its members has its type or is null; a bad one is an error. */
  lemma DecodesIff(j: Json, was: Checkpoint)
    ensures Decode(j, was).Some? <==> Typed(j)
  {
    if j.Obj? && TData in j.fields {
      DataTypedIff(j.fields[TData], if was.data.Some? then was.data.value else Data(None, false));
    }
  }

  // ---- round trip ------------------------------------------------------------------------------------------------

  /** Each member is omitted exactly where the decoder's default says the same. */
  lemma MappingRoundTrip(m: Mapping)
    ensures DecodeMapping(EncodeMapping(m)) == Some(m)
  {
  }

  /** Nil elements survive as well. */
  lemma {:induction false} MappingsRoundTrip(ms: seq<Option<Mapping>>)
    ensures DecodeMappings(EncodeMappings(ms)) == Some(ms)
  {
    if ms != [] {
      if ms[0].Some? {
        MappingRoundTrip(ms[0].value);
      }
      MappingsRoundTrip(ms[1..]);
      var js := EncodeMappings(ms);
      assert js[1..] == EncodeMappings(ms[1..]);
      assert [ms[0]] + ms[1..] == ms;
    }
  }

  /** An empty list that is not nil is omitted, and comes back as nil. */
  function Settled(d: Data): Data { if d.portMappings == Some([]) then d.(portMappings := None) else d }

  lemma DataRoundTrip(d: Data)
    ensures DecodeData(EncodeData(d), Data(None, false)) == Some(Settled(d))
  {
    var o := EncodeData(d).fields;
    assert TPortMappings in o <==> d.portMappings.Some? && d.portMappings.value != [];
    assert THostNetwork in o <==> d.hostNetwork;
    if TPortMappings in o {
      assert o[TPortMappings] == Arr(EncodeMappings(d.portMappings.value));
      MappingsRoundTrip(d.portMappings.value);
    }
  }

  /** Marshalling sets the checksum; it panics on a nil data pointer. */
  function Marshalled(c: Checkpoint, hash: Data -> Checksum): Checkpoint
    requires c.data.Some?
  {
    c.(checksum := hash(c.data.value))
  }

  predicate Verifies(c: Checkpoint, hash: Data -> Checksum)
    requires c.data.Some?
  {
    c.checksum == hash(c.data.value)
  }

  lemma DecodeEncode(c: Checkpoint)
    ensures Decode(Encode(c), BLANK) == Some(c.(data := Some(if c.data.Some? then Settled(c.data.value) else Data(None, false))))
  {
    var o := Encode(c).fields;
    assert TData in o <==> c.data.Some?;
    if c.data.Some? {
      assert o[TData] == EncodeData(c.data.value);
      DataRoundTrip(c.data.value);
    }
  }

  /** What is stored is read back exactly if the data pointer is set and the list of port mappings is not an
      empty, non-nil one. */
  lemma RoundTripIff(c: Checkpoint)
    ensures Decode(Encode(c), BLANK) == Some(c) <==> c.data.Some? && c.data.value.portMappings != Some([])
  {
    DecodeEncode(c);
  }

  /** The checksum is then verified; for the empty, non-nil list that is left to a collision of the hash. */
  lemma ChecksumVerifiesIff(c: Checkpoint, hash: Data -> Checksum)
    requires c.data.Some?
    ensures var back := Decode(Encode(Marshalled(c, hash)), BLANK);
      back.Some? && back.value.data.Some? &&
      (Verifies(back.value, hash) <==>
         c.data.value.portMappings != Some([]) || hash(c.data.value) == hash(c.data.value.(portMappings := None)))
  {
    DecodeEncode(Marshalled(c, hash));
  }

  // ---- what Run stores ---------------------------------------------------------------------------------------------

  /** The protocol numbers of the CRI; others can arrive on the wire. */
  datatype Protocol = TCP | UDP | SCTP | Unknown(number: int)

  datatype PortMapping = PortMapping(protocol: Protocol, containerPort: Int32, hostPort: Int32, hostIP: string)

  datatype SandboxConfig = SandboxConfig(name: string, namespace: string, hostNetwork: bool, portMappings: seq<PortMapping>)

  function ToCheckpointProtocol(p: Protocol): string {
    match p case TCP => "tcp" case UDP => "udp" case SCTP => "sctp" case Unknown(_) => "tcp"
  }

  function ToMapping(pm: PortMapping): Mapping {
    Mapping(Some(ToCheckpointProtocol(pm.protocol)), Some(pm.containerPort), Some(pm.hostPort), pm.hostIP)
  }

  function ToMappings(pms: seq<PortMapping>): seq<Option<Mapping>> {
    seq(|pms|, i requires 0 <= i < |pms| => Some(ToMapping(pms[i])))
  }

  /** The checkpoint of a configuration; its list of mappings is nil where there are none. */
  function CheckpointOf(config: SandboxConfig): Checkpoint {
    var ms := ToMappings(config.portMappings);
    NewPodSandboxCheckpoint(config.namespace, config.name, Data(if ms == [] then None else Some(ms), config.hostNetwork))
  }

  method ConstructPodSandboxCheckpoint(config: SandboxConfig) returns (c: Checkpoint)
    ensures c == CheckpointOf(config)
    ensures c.data.Some? && c.data.value.portMappings != Some([]) && c.namespace == config.namespace && c.name == config.name
  {
    var data := Data(None, false);
    for i := 0 to |config.portMappings|
      invariant data == Data(if i == 0 then None else Some(ToMappings(config.portMappings[..i])), false)
    {
      assert ToMappings(config.portMappings[..i + 1]) == ToMappings(config.portMappings[..i]) + [Some(ToMapping(config.portMappings[i]))];
      var before := if data.portMappings.Some? then data.portMappings.value else [];
      data := data.(portMappings := Some(before + [Some(ToMapping(config.portMappings[i]))]));
    }
    assert config.portMappings[..|config.portMappings|] == config.portMappings;
    if config.hostNetwork {
      data := data.(hostNetwork := true);
    }
    c := NewPodSandboxCheckpoint(config.namespace, config.name, data);
  }

  /** The mapping the host-port manager is given. */
  datatype HostMapping = HostMapping(hostPort: Int32, containerPort: Int32, protocol: string, hostIP: string)

  function ToHostMapping(pm: PortMapping): HostMapping {
    HostMapping(pm.hostPort, pm.containerPort, ToCheckpointProtocol(pm.protocol), pm.hostIP)
  }

  function HostMappings(pms: seq<PortMapping>): seq<HostMapping> {
    seq(|pms|, i requires 0 <= i < |pms| => ToHostMapping(pms[i]))
  }

  /** No pointer is nil, so the loop of GetPodPortMappings can follow them. */
  predicate Complete(m: Option<Mapping>) {
    m.Some? && m.value.protocol.Some? && m.value.containerPort.Some? && m.value.hostPort.Some?
  }

  /** Every sandbox configuration survives: its stored checkpoint is read back, passes its checksum under
      any hash, and carries the same name, namespace, host-network flag and port mappings, in order. */
  lemma ConfigSurvives(config: SandboxConfig, hash: Data -> Checksum)
    ensures var back := Decode(Encode(Marshalled(CheckpointOf(config), hash)), BLANK);
      && back.Some? && back.value.data.Some? && Verifies(back.value, hash)
      && back.value.name == config.name && back.value.namespace == config.namespace
      && back.value.data.value.hostNetwork == config.hostNetwork
      && (if config.portMappings == [] then back.value.data.value.portMappings == None
          else back.value.data.value.portMappings == Some(ToMappings(config.portMappings)))
  {
    ChecksumVerifiesIff(CheckpointOf(config), hash);
    DecodeEncode(Marshalled(CheckpointOf(config), hash));
  }

  // ---- the manager ---------------------------------------------------------------------------------------------------

  function MappingsOf(c: Checkpoint): seq<Option<Mapping>> {
    if c.data.Some? && c.data.value.portMappings.Some? then c.data.value.portMappings.value else []
  }

  function Followed(m: Option<Mapping>): HostMapping
    requires Complete(m)
  {
    HostMapping(m.value.hostPort.value, m.value.containerPort.value, m.value.protocol.value, m.value.hostIP)
  }

  datatype PortsResult = Ports(ports: seq<HostMapping>) | PortsFailed | Panics

  datatype CreateResult = Created | CreateFailed | CreatePanics

  datatype GetResult = Got(c: Checkpoint) | NotFound | Failed | GetPanics

  class CheckpointManager {
    const hash: Data -> Checksum
    var store: map<string, Json>

    constructor (hash: Data -> Checksum)
      ensures this.hash == hash && store == map[]
    {
      this.hash, store := hash, map[];
    }

    /** GetCheckpoint's answer when the store can be read. */
    ghost function Lookup(key: string): GetResult
      reads this
    {
      if !ValidKey(key) then Failed
      else if key !in store then NotFound
      else
        match Decode(store[key], BLANK)
        case Some(c) => if c.data.None? then GetPanics else if Verifies(c, hash) then Got(c) else Failed
        case None => Failed
    }

    method CreateCheckpoint(key: string, c: Checkpoint, writeFails: bool) returns (r: CreateResult)
      modifies this`store
      ensures r == if c.data.None? then CreatePanics else if ValidKey(key) && !writeFails then Created else CreateFailed
      ensures store == if r == Created then old(store)[key := Encode(Marshalled(c, hash))] else old(store)
      ensures r == Created && c.data.value.portMappings != Some([]) ==> Lookup(key) == Got(Marshalled(c, hash))
    {
      if c.data.None? { return CreatePanics; }
      RoundTripIff(Marshalled(c, hash));
      if !ValidKey(key) || writeFails { return CreateFailed; }
      store := store[key := Encode(Marshalled(c, hash))];
      r := Created;
    }

    method GetCheckpoint(key: string, readFails: bool) returns (r: GetResult)
      ensures r == if readFails then Failed else Lookup(key)
      ensures r == NotFound <==> ValidKey(key) && !readFails && key !in store
      ensures var back := if ValidKey(key) && !readFails && key in store then Decode(store[key], BLANK) else None;
        && (r == GetPanics <==> back.Some? && back.value.data.None?)
        && (r.Got? <==> back.Some? && back.value.data.Some? && back.value.checksum == hash(back.value.data.value))
        && (r.Got? ==> r.c == back.value)
    {
      if !ValidKey(key) { return Failed; }
      if readFails { return Failed; }
      if key !in store { return NotFound; }
      var c := Decode(store[key], BLANK);
      if c.None? { return Failed; }
      if c.value.data.None? { return GetPanics; }
      if !Verifies(c.value, hash) { return Failed; }
      return Got(c.value);
    }

    method RemoveCheckpoint(key: string, removeFails: bool) returns (ok: bool)
      modifies this`store
      ensures ok <==> ValidKey(key) && !removeFails
      ensures store == if ok then old(store) - {key} else old(store)
    {
      if !ValidKey(key) { return false; }
      if removeFails { return false; }
      store := store - {key};
      ok := true;
    }

    /** The port mappings of a sandbox: none if there is no checkpoint.  An error also deletes the
        checkpoint; following a nil pointer panics, and no checkpoint made of a configuration holds one. */
    method GetPodPortMappings(key: string, readFails: bool, removeFails: bool) returns (r: PortsResult)
      modifies this`store
      ensures !readFails && old(Lookup(key)) == NotFound ==> r == Ports([]) && store == old(store)
      ensures readFails ==> r == PortsFailed
      ensures !readFails && old(Lookup(key)).Got? ==>
        store == old(store) && (r == Panics <==> exists m :: m in MappingsOf(old(Lookup(key)).c) && !Complete(m))
      ensures !readFails ==> forall config: SandboxConfig :: old(Lookup(key)) == Got(Marshalled(CheckpointOf(config), hash)) ==>
        r == Ports(HostMappings(config.portMappings))
      ensures !readFails && old(Lookup(key)) == GetPanics ==> r == Panics
      ensures r == PortsFailed <==> readFails || old(Lookup(key)) == Failed
      ensures store == if r == PortsFailed && ValidKey(key) && !removeFails then old(store) - {key} else old(store)
    {
      var got := GetCheckpoint(key, readFails);
      if got.NotFound? { return Ports([]); }
      if got.GetPanics? { return Panics; }
      if got.Failed? {
        var _ := RemoveCheckpoint(key, removeFails);
        return PortsFailed;
      }
      r := CopyMappings(MappingsOf(got.c));
      forall config: SandboxConfig | old(Lookup(key)) == Got(Marshalled(CheckpointOf(config), hash))
        ensures r == Ports(HostMappings(config.portMappings))
      {
        assert MappingsOf(got.c) == ToMappings(config.portMappings);
        assert r.Ports? && r.ports == HostMappings(config.portMappings);
      }
    }

    method CopyMappings(ms: seq<Option<Mapping>>) returns (r: PortsResult)
      ensures r == Panics <==> exists m :: m in ms && !Complete(m)
      ensures r != Panics ==> r.Ports? && |r.ports| == |ms| && forall j :: 0 <= j < |ms| ==> Complete(ms[j]) && r.ports[j] == Followed(ms[j])
    {
      var out: seq<HostMapping> := [];
      for i := 0 to |ms|
        invariant |out| == i
        invariant forall j :: 0 <= j < i ==> Complete(ms[j]) && out[j] == Followed(ms[j])
      {
        if !Complete(ms[i]) { return Panics; }
        out := out + [Followed(ms[i])];
      }
      r := Ports(out);
    }
  }
}
