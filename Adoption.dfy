/**
  The device adoption document (`_apiAdopt` and its builders,
  src/OXRS_32.cpp:63-159): firmware identity, system counters, network
  identity, and the firmware's config and command schemas wrapped in JSON
  Schema envelopes. The command envelope always carries the library's own
  `restart` command.
*/
module Adoption {
  import opened Json
  import opened JsonMerge
  import opened Identity

  /** The firmware's build-time identity (`FW_NAME`, `FW_SHORT_NAME`,
      `FW_MAKER`, `FW_VERSION`, and `FW_GITHUB_URL` when it is defined). */
  datatype Firmware = Firmware(
    name: string,
    shortName: string,
    maker: string,
    version: string,
    githubUrl: Option<string>)

  /** The schema the library contributes for its built-in restart command. */
  const RestartSchema: Json :=
    Object([Member("title", Str("Restart")), Member("type", Str("boolean"))])

  /** The `firmware` section: name, short name, maker and version, then the
      GitHub URL when the firmware defines one. */
  function FirmwareJson(fw: Firmware): (r: Json)
    ensures r.Object? && UniqueKeys(r.members)
    ensures |r.members| == if fw.githubUrl.Some? then 5 else 4
    ensures Lookup(r, "name") == Some(Str(fw.name))
    ensures Lookup(r, "shortName") == Some(Str(fw.shortName))
    ensures Lookup(r, "maker") == Some(Str(fw.maker))
    ensures Lookup(r, "version") == Some(Str(fw.version))
    ensures Lookup(r, "githubUrl") == if fw.githubUrl.Some? then Some(Str(fw.githubUrl.value)) else None
  {
    var base := [Member("name", Str(fw.name)), Member("shortName", Str(fw.shortName)),
                 Member("maker", Str(fw.maker)), Member("version", Str(fw.version))];
    var ms := if fw.githubUrl.Some? then base + [Member("githubUrl", Str(fw.githubUrl.value))] else base;
    assert forall i :: 0 <= i < 4 ==> ms[i] == base[i];
    GetAt(ms, 0); GetAt(ms, 1); GetAt(ms, 2); GetAt(ms, 3);
    if fw.githubUrl.Some? then GetAt(ms, 4); Object(ms)
    else GetAbsent(ms, "githubUrl"); Object(ms)
  }

  /** The `network` section: the link mode, the IP address as text and the
      MAC address display form. */
  function NetworkJson(mac: seq<byte>, ip: string): (r: Json)
    requires |mac| == 6
    ensures r.Object? && UniqueKeys(r.members) && |r.members| == 3
    ensures Lookup(r, "mode") == Some(Str("wifi"))
    ensures Lookup(r, "ip") == Some(Str(ip))
    ensures Lookup(r, "mac") == Some(Str(MacDisplay(mac)))
  {
    var display := MacDisplay(mac);
    var ms := [Member("mode", Str("wifi")), Member("ip", Str(ip)), Member("mac", Str(display))];
    GetAt(ms, 0); GetAt(ms, 1); GetAt(ms, 2);
    Object(ms)
  }

  /** The `properties` object of an envelope before any built-in entries: an
      empty object into which a stored schema that is not null is merged. A
      stored object comes out as itself; any other stored value overwrites
      the empty object. */
  function SchemaProperties(stored: Json): (r: Json)
    ensures stored.Null? ==> r == Object([])
    ensures stored.Object? && UniqueKeys(stored.members) ==> r == stored
    ensures !(stored.Null? || stored.Object?) ==> r == stored
  {
    if stored.Null? then Object([])
    else if stored.Object? && UniqueKeys(stored.members) then
      MergeIntoEmptyObject(stored); Merge(Object([]), stored)
    else Merge(Object([]), stored)
  }

  /** A JSON Schema envelope: `$schema`, `title`, `type: "object"` and the
      `properties` object, written in that order into a new object. */
  function Envelope(schemaVersion: string, title: string, properties: Json): (r: Json)
    ensures r.Object? && UniqueKeys(r.members) && |r.members| == 4
    ensures Lookup(r, "$schema") == Some(Str(schemaVersion))
    ensures Lookup(r, "title") == Some(Str(title))
    ensures Lookup(r, "type") == Some(Str("object"))
    ensures Lookup(r, "properties") == Some(properties)
  {
    var ms := [Member("$schema", Str(schemaVersion)), Member("title", Str(title)),
               Member("type", Str("object")), Member("properties", properties)];
    GetAt(ms, 0); GetAt(ms, 1); GetAt(ms, 2); GetAt(ms, 3);
    Object(ms)
  }

  /** `_getConfigSchemaJson`: the config schema envelope. */
  function ConfigSchemaJson(schemaVersion: string, fw: Firmware, fwConfigSchema: Json): (r: Json)
    ensures r.Object?
    ensures Lookup(r, "$schema") == Some(Str(schemaVersion))
    ensures Lookup(r, "title") == Some(Str(fw.shortName))
    ensures Lookup(r, "type") == Some(Str("object"))
    ensures Lookup(r, "properties") ==
      Some(if fwConfigSchema.Null? then Object([]) else Merge(Object([]), fwConfigSchema))
  {
    Envelope(schemaVersion, fw.shortName, SchemaProperties(fwConfigSchema))
  }

  /** `_getCommandSchemaJson`: the command schema envelope, whose properties
      always end up holding the built-in `restart` entry, replacing any
      firmware entry of that name, while every other firmware entry is kept. */
  function CommandSchemaJson(schemaVersion: string, fw: Firmware, fwCommandSchema: Json): (r: Json)
    ensures r.Object?
    ensures Lookup(r, "$schema") == Some(Str(schemaVersion))
    ensures Lookup(r, "title") == Some(Str(fw.shortName))
    ensures Lookup(r, "type") == Some(Str("object"))
    ensures Lookup(r, "properties").Some?
    ensures fwCommandSchema.Null? || fwCommandSchema.Object? ==>
      var props := Lookup(r, "properties").value;
      && props.Object?
      && Lookup(props, "restart") == Some(RestartSchema)
      && forall k :: k != "restart" ==> Lookup(props, k) == Lookup(SchemaProperties(fwCommandSchema), k)
  {
    var props := SchemaProperties(fwCommandSchema);
    var withRestart := SetMember(props, "restart", RestartSchema);
    SetMemberKeepsOthers(props, "restart", RestartSchema);
    Envelope(schemaVersion, fw.shortName, withRestart)
  }

  /** `_apiAdopt`: the five sections, in the order they are built. */
  function AdoptJson(schemaVersion: string, fw: Firmware, system: Json, mac: seq<byte>, ip: string,
                     fwConfigSchema: Json, fwCommandSchema: Json): (r: Json)
    requires |mac| == 6
    ensures r.Object? && UniqueKeys(r.members) && |r.members| == 5
    ensures Lookup(r, "firmware") == Some(FirmwareJson(fw))
    ensures Lookup(r, "system") == Some(system)
    ensures Lookup(r, "network") == Some(NetworkJson(mac, ip))
    ensures Lookup(r, "configSchema") == Some(ConfigSchemaJson(schemaVersion, fw, fwConfigSchema))
    ensures Lookup(r, "commandSchema") == Some(CommandSchemaJson(schemaVersion, fw, fwCommandSchema))
  {
    var ms := [
      Member("firmware", FirmwareJson(fw)),
      Member("system", system),
      Member("network", NetworkJson(mac, ip)),
      Member("configSchema", ConfigSchemaJson(schemaVersion, fw, fwConfigSchema)),
      Member("commandSchema", CommandSchemaJson(schemaVersion, fw, fwCommandSchema))];
    GetAt(ms, 0); GetAt(ms, 1); GetAt(ms, 2); GetAt(ms, 3); GetAt(ms, 4);
    Object(ms)
  }

  /** A schema set from an object fragment `f` is stored as the merge of `f`
      into a cleared document, and its envelope properties come out as
      exactly `f`. */
  lemma StoredFragment(f: Json)
    requires f.Object? && UniqueKeys(f.members)
    ensures SchemaProperties(Merge(Null, f)) == f
  {
    MergeIntoNull(f);
    if f.members != [] {
      MergeIntoEmptyObject(f);
    }
  }

  /** A config schema set from an object fragment `f` is advertised as
      exactly `f`. */
  lemma AdvertisedConfigSchema(schemaVersion: string, fw: Firmware, f: Json)
    requires f.Object? && UniqueKeys(f.members)
    ensures Lookup(ConfigSchemaJson(schemaVersion, fw, Merge(Null, f)), "properties") == Some(f)
  {
    StoredFragment(f);
  }

  /** The command envelope's properties are the stored schema's properties
      with the built-in `restart` entry written in. */
  lemma CommandProperties(schemaVersion: string, fw: Firmware, stored: Json)
    ensures Lookup(CommandSchemaJson(schemaVersion, fw, stored), "properties") ==
      Some(SetMember(SchemaProperties(stored), "restart", RestartSchema))
  {
  }

  /** A command schema set from an object fragment `f` is advertised as `f`
      with the built-in `restart` entry written into it: a firmware `restart`
      entry is replaced where it stands, otherwise the entry is appended. */
  lemma AdvertisedCommandSchema(schemaVersion: string, fw: Firmware, f: Json)
    requires f.Object? && UniqueKeys(f.members)
    ensures Lookup(CommandSchemaJson(schemaVersion, fw, Merge(Null, f)), "properties") ==
      Some(Object(Put(f.members, "restart", RestartSchema)))
  {
    StoredFragment(f);
    CommandProperties(schemaVersion, fw, Merge(Null, f));
  }
}
