/** The fingerprints the source processors build, one per raw system. */
module Processors {
  import opened OrderedDict
  import opened Fingerprints
  import opened MergeLaws
  import opened Dedup

  datatype Kind = NETWORK | SATELLITE | VCENTER | OPENSHIFT | ANSIBLE | RHACS

  datatype Detection = Detection(presence: Presence, versions: seq<string>, evidence: string)

  /** One raw system. `text` holds the identity facts as stripped strings, `values` the
      other facts as their formatters return them; a missing entry is a null fact. `cluster`
      marks the facts about a cluster that an OpenShift scan adds. */
  datatype RawSystem = RawSystem(
    source: Source,
    sudo: bool,
    text: map<string, string>,
    values: map<string, Value>,
    rawKeys: map<string, string>,
    entitlements: seq<Entitlement>,
    eap: Detection, fuse: Detection, jws: Detection,
    cluster: bool)

  const SUBSCRIPTION_MANAGER_ID := "subscription_manager_id"
  const BIOS_UUID := "bios_uuid"
  const VM_UUID := "vm_uuid"
  const MAC_ADDRESSES := "mac_addresses"

  const PRODUCT_NAMES := ["JBoss EAP", "JBoss Fuse", "JBoss Web Server"]

  function FactList(kind: Kind): seq<string> {
    match kind
    case NETWORK =>
      [ "name", "architecture", "redhat_package_count", "redhat_certs", "is_redhat", "etc_machine_id", "os_name",
        "os_version", "os_release", "installed_products", "ip_addresses", "cpu_count", BIOS_UUID,
        SUBSCRIPTION_MANAGER_ID, "cpu_socket_count", "cpu_core_count", "cpu_core_per_socket", "cpu_hyperthreading",
        "date_machine_id", "date_anaconda_log", "date_filesystem_create", "insights_client_id", "cloud_provider",
        "system_user_count", "system_purpose", "system_role", "system_addons", "system_service_level_agreement",
        "system_usage_type", "virtualized_type", "system_memory_bytes", MAC_ADDRESSES,
        "system_last_checkin_date", "infrastructure_type" ]
    case SATELLITE =>
      [ "name", "os_name", "is_redhat", "os_release", "os_version", MAC_ADDRESSES, "ip_addresses", "cpu_count",
        "architecture", SUBSCRIPTION_MANAGER_ID, "virtualized_type", "virtual_host_name", "virtual_host_uuid",
        "infrastructure_type", "cpu_core_count", "cpu_socket_count", "registration_time", "system_last_checkin_date" ]
    case VCENTER =>
      [ "name", "os_release", "is_redhat", "infrastructure_type", MAC_ADDRESSES, "ip_addresses", "cpu_count",
        "architecture", "vm_state", VM_UUID, "system_last_checkin_date", "vm_dns_name", "virtual_host_name",
        "virtual_host_uuid", "vm_host_socket_count", "vm_host_core_count", "vm_datacenter", "vm_cluster",
        "system_memory_bytes" ]
    case OPENSHIFT =>
      [ "name", "cpu_count", "architecture", "etc_machine_id", "ip_addresses", "system_creation_date", "vm_cluster",
        "system_role" ]
    case ANSIBLE => ["name", "os_version"]
    case RHACS => ["name"]
  }

  /** Network and satellite systems are examined for products; the others carry none. */
  function NamesOf(kind: Kind): seq<string> {
    if kind.NETWORK? || kind.SATELLITE? then PRODUCT_NAMES else []
  }

  predicate IsIdentity(name: string) {
    name == SUBSCRIPTION_MANAGER_ID || name == BIOS_UUID || name == VM_UUID
  }

  /** Identity facts are strings or null; an empty string is null. */
  function FactValue(raw: RawSystem, name: string): Value {
    if IsIdentity(name) then
      if name in raw.text && raw.text[name] != "" then One(Text(raw.text[name])) else Null
    else if name in raw.values then raw.values[name]
    else Null
  }

  function MetaFor(raw: RawSystem, name: string): Meta {
    Meta(raw.source.serverId, raw.source.sourceName, raw.source.sourceType,
         if name in raw.rawKeys then raw.rawKeys[name] else name, raw.sudo)
  }

  function AddFact(fp: Fingerprint, raw: RawSystem, name: string): Fingerprint {
    fp.(facts := fp.facts[name := FactValue(raw, name)], meta := fp.meta[name := MetaFor(raw, name)])
  }

  function AddFacts(fp: Fingerprint, raw: RawSystem, names: seq<string>): Fingerprint {
    if names == [] then fp else AddFact(AddFacts(fp, raw, names[..|names| - 1]), raw, names[|names| - 1])
  }

  function Detected(name: string, d: Detection): Product {
    Product(name, d.presence, d.versions, d.evidence)
  }

  function Blank(kind: Kind, raw: RawSystem): Fingerprint {
    Fingerprint(
      map[], map[],
      map[raw.source.serverId + "+" + raw.source.sourceName := raw.source],
      Some(if kind.NETWORK? || kind.SATELLITE? then raw.entitlements else []),
      Some(if kind.NETWORK? || kind.SATELLITE?
           then [Detected(PRODUCT_NAMES[0], raw.eap), Detected(PRODUCT_NAMES[1], raw.fuse),
                 Detected(PRODUCT_NAMES[2], raw.jws)]
           else []),
      None)
  }

  function Process(kind: Kind, raw: RawSystem): Fingerprint {
    AddFacts(Blank(kind, raw), raw, FactList(kind))
  }

  method ProcessFact(kind: Kind, raw: RawSystem) returns (fp: Fingerprint)
    ensures fp == Process(kind, raw)
  {
    fp := Blank(kind, raw);
    var names := FactList(kind);
    for i := 0 to |names|
      invariant fp == AddFacts(Blank(kind, raw), raw, names[..i])
    {
      TakeSnoc(names, i);
      fp := AddFact(fp, raw, names[i]);
    }
    assert names[..|names|] == names;
  }

  lemma {:induction false} AddFactsShape(fp: Fingerprint, raw: RawSystem, names: seq<string>)
    requires fp.facts == map[] && fp.meta == map[]
    ensures var r := AddFacts(fp, raw, names);
            && WellFormed(r)
            && r.sources == fp.sources && r.entitlements == fp.entitlements && r.products == fp.products
            && r.gid == fp.gid
            && forall k :: (k in r.facts <==> k in names) && (k in r.facts ==> r.facts[k] == FactValue(raw, k))
  {
    hide FactValue, MetaFor;
    if names != [] {
      AddFactsShape(fp, raw, names[..|names| - 1]);
      assert names == names[..|names| - 1] + [names[|names| - 1]];
    }
  }

  lemma {:induction false} AddFactsMeta(fp: Fingerprint, raw: RawSystem, names: seq<string>)
    requires fp.meta == map[]
    ensures forall k :: k in AddFacts(fp, raw, names).meta ==> AddFacts(fp, raw, names).meta[k] == MetaFor(raw, k)
  {
    hide FactValue, MetaFor;
    if names != [] {
      AddFactsMeta(fp, raw, names[..|names| - 1]);
    }
  }

  /** Every fact of the kind: an identity fact is the text found under its name, unless empty, any
      other fact is the value found under its name, and what is not found is null. Its metadata
      name the source, the raw fact it was taken from, and whether sudo was used. */
  lemma ProcessedFact(kind: Kind, raw: RawSystem, k: string)
    ensures k in Process(kind, raw).facts <==> k in FactList(kind)
    ensures k in Process(kind, raw).meta <==> k in FactList(kind)
    ensures k in FactList(kind) && k in {"subscription_manager_id", "bios_uuid", "vm_uuid"} ==>
              Process(kind, raw).facts[k] == if k in raw.text && raw.text[k] != "" then One(Text(raw.text[k])) else Null
    ensures k in FactList(kind) && k !in {"subscription_manager_id", "bios_uuid", "vm_uuid"} ==>
              Process(kind, raw).facts[k] == if k in raw.values then raw.values[k] else Null
    ensures k in FactList(kind) ==>
              var m := Process(kind, raw).meta[k];
              && m.serverId == raw.source.serverId && m.sourceName == raw.source.sourceName
              && m.sourceType == raw.source.sourceType && m.hasSudo == raw.sudo
              && m.rawFactKey == if k in raw.rawKeys then raw.rawKeys[k] else k
  {
    hide FactList;
    AddFactsShape(Blank(kind, raw), raw, FactList(kind));
    AddFactsMeta(Blank(kind, raw), raw, FactList(kind));
  }

  /** Besides its facts a processed system has one source. Network and satellite systems have their
      entitlements and the findings for three products, in this order; the others have none. */
  lemma ProcessedContents(kind: Kind, raw: RawSystem)
    ensures Process(kind, raw).sources == map[raw.source.serverId + "+" + raw.source.sourceName := raw.source]
    ensures Process(kind, raw).gid == None
    ensures kind in {NETWORK, SATELLITE} ==>
              && Process(kind, raw).entitlements == Some(raw.entitlements)
              && Process(kind, raw).products ==
                 Some([Product("JBoss EAP", raw.eap.presence, raw.eap.versions, raw.eap.evidence),
                       Product("JBoss Fuse", raw.fuse.presence, raw.fuse.versions, raw.fuse.evidence),
                       Product("JBoss Web Server", raw.jws.presence, raw.jws.versions, raw.jws.evidence)])
    ensures kind !in {NETWORK, SATELLITE} ==>
              Process(kind, raw).entitlements == Some([]) && Process(kind, raw).products == Some([])
  {
    hide FactList;
    AddFactsShape(Blank(kind, raw), raw, FactList(kind));
  }

  lemma ProductNamesDistinct()
    ensures Distinct(PRODUCT_NAMES)
  {
    assert |PRODUCT_NAMES[0]| == 9 && |PRODUCT_NAMES[1]| == 10 && |PRODUCT_NAMES[2]| == 16;
  }

  /** Every processed fingerprint has the shape the merges rely on: metadata for exactly its
      facts, its kind's facts and product names, and scalar identity facts. */
  lemma ProcessedShape(kind: Kind, raw: RawSystem)
    ensures Fits(Process(kind, raw), Shape(NamesOf(kind), false))
    ensures forall k :: k in Process(kind, raw).facts <==> k in FactList(kind)
    ensures forall k :: IsIdentity(k) ==> !Get(Process(kind, raw), Fact(k)).Many?
  {
    hide FactList;
    AddFactsShape(Blank(kind, raw), raw, FactList(kind));
    ProductNamesDistinct();
  }

  lemma OnlyNetworkHasBiosUuid(kind: Kind)
    requires !kind.NETWORK?
    ensures BIOS_UUID !in FactList(kind)
  {
    assert |BIOS_UUID| == 9;
    var names := FactList(kind);
    forall i | 0 <= i < |names| ensures names[i] != BIOS_UUID {
      assert |names[i]| != 9 || names[i][0] != 'b';
    }
  }
}
