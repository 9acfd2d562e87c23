/**
  The library object the firmware talks to (`OXRS_32`, src/OXRS_32.cpp) and
  the module-level state it owns: the two stored firmware schemas, the two
  firmware callbacks, the MQTT session settings, and the effects it has on
  the outside world.

  Collaborators that are not part of this model appear as inputs: the state
  of the WiFi link, the MAC address the WiFi stack reports, the outcome of a
  publish on the MQTT client, and the REST API's loading of stored MQTT
  settings.
*/
module Device {
  import opened Json
  import opened JsonMerge
  import opened Identity
  import opened Adoption

  /** A firmware callback registered with `begin`, known only by identity. */
  datatype Handler = Handler(id: nat)

  /** An unsigned 16-bit value, as taken by `setMqttBroker`. */
  newtype uint16 = x: int | 0 <= x < 65536

  /** The MQTT session settings kept by the MQTT layer. */
  datatype MqttSettings = MqttSettings(
    broker: string,
    port: uint16,
    clientId: string,
    username: string,
    password: string,
    topicPrefix: string,
    topicSuffix: string)

  datatype PublishKind = Status | Telemetry

  /** What the library does to the world outside it, in order. */
  datatype Effect =
    | Restart                                          // ESP.restart()
    | ConfigDelivered(handler: Handler, payload: Json)  // firmware config callback invoked
    | CommandDelivered(handler: Handler, payload: Json) // firmware command callback invoked
    | PublishAttempt(kind: PublishKind, payload: Json)  // handed to the MQTT layer to publish
    | MqttServiced                                     // one pass of the MQTT loop
    | ApiServiced                                      // one pass of the REST API loop

  /** `json.containsKey("restart") && json["restart"].as<bool>()`: only an
      object has keys, and the value is converted with the library's truthiness. */
  predicate IsRestartCommand(json: Json): (r: bool)
    ensures r <==> (json.Object? &&
                    exists i :: FirstAt(json.members, "restart", i) && Truthy(json.members[i].value))
  {
    if json.Object? then
      GetFirstIff(json.members, "restart");
      Lookup(json, "restart").Some? && Truthy(Lookup(json, "restart").value)
    else false
  }

  /** A well-formed command asks for a restart exactly when one of its members
      is `restart` with a truthy value; for a boolean value, exactly when it
      is `true`. */
  lemma RestartCommandIff(json: Json)
    requires json.Object? && UniqueKeys(json.members)
    ensures IsRestartCommand(json) <==>
      exists i :: 0 <= i < |json.members| && json.members[i].key == "restart" && Truthy(json.members[i].value)
    ensures forall b :: Lookup(json, "restart") == Some(Bool(b)) ==> (IsRestartCommand(json) <==> b)
  {
    var ms := json.members;
    if exists i :: 0 <= i < |ms| && ms[i].key == "restart" && Truthy(ms[i].value) {
      var i :| 0 <= i < |ms| && ms[i].key == "restart" && Truthy(ms[i].value);
      GetAt(ms, i);
    }
    if IsRestartCommand(json) {
      var v := Lookup(json, "restart").value;
      GetIff(ms, "restart", v);
    }
  }

  /** `_mqttCommand`: the effects of one command payload. */
  function CommandEffects(json: Json, onCommand: Option<Handler>): (effects: seq<Effect>)
    ensures Restart in effects <==> IsRestartCommand(json)
    ensures Restart in effects ==> effects[0] == Restart
    ensures onCommand.Some? ==> |effects| > 0 && effects[|effects| - 1] == CommandDelivered(onCommand.value, json)
    ensures forall e :: e in effects ==> e == Restart || (onCommand.Some? && e == CommandDelivered(onCommand.value, json))
    ensures |effects| == (if IsRestartCommand(json) then 1 else 0) + (if onCommand.Some? then 1 else 0)
  {
    (if IsRestartCommand(json) then [Restart] else [])
      + (if onCommand.Some? then [CommandDelivered(onCommand.value, json)] else [])
  }

  /** `_mqttConfig`: the payload goes, unchanged, to the config callback if
      there is one, and nothing else happens. */
  function ConfigEffects(json: Json, onConfig: Option<Handler>): (effects: seq<Effect>)
    ensures onConfig.None? ==> effects == []
    ensures onConfig.Some? ==> effects == [ConfigDelivered(onConfig.value, json)]
  {
    if onConfig.Some? then [ConfigDelivered(onConfig.value, json)] else []
  }

  /** `{"restart": true}` restarts the device and is still handed to the
      firmware callback, after the restart. */
  lemma RestartTrueExample(h: Handler)
    ensures var p := Object([Member("restart", Bool(true))]);
      CommandEffects(p, Some(h)) == [Restart, CommandDelivered(h, p)]
  {
  }

  /** `{"restart": false, "dim": 50}` does not restart the device and reaches
      the firmware callback whole, `restart` member included. */
  lemma RestartFalseExample(h: Handler)
    ensures var p := Object([Member("restart", Bool(false)), Member("dim", Number(50))]);
      CommandEffects(p, Some(h)) == [CommandDelivered(h, p)]
  {
  }

  class Device {
    /** The firmware's build-time identity. */
    const firmware: Firmware
    /** `JSON_SCHEMA_VERSION`. */
    const schemaVersion: string

    /** `_fwConfigSchema` and `_fwCommandSchema`. */
    var fwConfigSchema: Json
    var fwCommandSchema: Json
    /** `_onConfig` and `_onCommand`; `None` for a null callback. */
    var onConfig: Option<Handler>
    var onCommand: Option<Handler>
    /** The settings the MQTT layer will connect with. */
    var mqtt: MqttSettings
    /** Everything done to the outside world so far, in order. */
    var effects: seq<Effect>

    /** A library object before `begin`: no schemas, no callbacks. */
    constructor (firmware: Firmware, schemaVersion: string, mqtt: MqttSettings)
      ensures this.firmware == firmware && this.schemaVersion == schemaVersion
      ensures fwConfigSchema == Null && fwCommandSchema == Null
      ensures onConfig == None && onCommand == None
      ensures this.mqtt == mqtt && effects == []
    {
      this.firmware := firmware;
      this.schemaVersion := schemaVersion;
      fwConfigSchema := Null;
      fwCommandSchema := Null;
      onConfig := None;
      onCommand := None;
      this.mqtt := mqtt;
      effects := [];
    }

    method SetMqttBroker(broker: string, port: uint16)
      modifies this
      ensures mqtt == old(mqtt).(broker := broker, port := port)
      ensures fwConfigSchema == old(fwConfigSchema) && fwCommandSchema == old(fwCommandSchema)
      ensures onConfig == old(onConfig) && onCommand == old(onCommand) && effects == old(effects)
    {
      mqtt := mqtt.(broker := broker, port := port);
    }

    method SetMqttClientId(clientId: string)
      modifies this
      ensures mqtt == old(mqtt).(clientId := clientId)
      ensures fwConfigSchema == old(fwConfigSchema) && fwCommandSchema == old(fwCommandSchema)
      ensures onConfig == old(onConfig) && onCommand == old(onCommand) && effects == old(effects)
    {
      mqtt := mqtt.(clientId := clientId);
    }

    method SetMqttAuth(username: string, password: string)
      modifies this
      ensures mqtt == old(mqtt).(username := username, password := password)
      ensures fwConfigSchema == old(fwConfigSchema) && fwCommandSchema == old(fwCommandSchema)
      ensures onConfig == old(onConfig) && onCommand == old(onCommand) && effects == old(effects)
    {
      mqtt := mqtt.(username := username, password := password);
    }

    method SetMqttTopicPrefix(prefix: string)
      modifies this
      ensures mqtt == old(mqtt).(topicPrefix := prefix)
      ensures fwConfigSchema == old(fwConfigSchema) && fwCommandSchema == old(fwCommandSchema)
      ensures onConfig == old(onConfig) && onCommand == old(onCommand) && effects == old(effects)
    {
      mqtt := mqtt.(topicPrefix := prefix);
    }

    method SetMqttTopicSuffix(suffix: string)
      modifies this
      ensures mqtt == old(mqtt).(topicSuffix := suffix)
      ensures fwConfigSchema == old(fwConfigSchema) && fwCommandSchema == old(fwCommandSchema)
      ensures onConfig == old(onConfig) && onCommand == old(onCommand) && effects == old(effects)
    {
      mqtt := mqtt.(topicSuffix := suffix);
    }

    /** `begin`: record the callbacks, read the MAC address, set the default
        client id from it, then start the REST API, whose loading of stored
        MQTT settings (`loadStored`) therefore takes precedence over the
        default. */
    method Begin(config: Option<Handler>, command: Option<Handler>, mac: seq<byte>,
                 loadStored: MqttSettings -> MqttSettings)
      requires |mac| == 6
      modifies this
      ensures onConfig == config && onCommand == command
      ensures mqtt == loadStored(old(mqtt).(clientId := DefaultClientId(mac)))
      ensures fwConfigSchema == old(fwConfigSchema) && fwCommandSchema == old(fwCommandSchema)
      ensures effects == old(effects)
    {
      onConfig := config;
      onCommand := command;
      InitialiseMqtt(mac);
      InitialiseRestApi(loadStored);
    }

    /** `_initialiseMqtt`: the default client id is the last three MAC bytes. */
    method InitialiseMqtt(mac: seq<byte>)
      requires |mac| == 6
      modifies this
      ensures mqtt == old(mqtt).(clientId := DefaultClientId(mac))
      ensures fwConfigSchema == old(fwConfigSchema) && fwCommandSchema == old(fwCommandSchema)
      ensures onConfig == old(onConfig) && onCommand == old(onCommand) && effects == old(effects)
    {
      mqtt := mqtt.(clientId := DefaultClientId(mac));
    }

    /** `_initialiseRestApi`: the REST API loads the stored MQTT settings over
        whatever is set. */
    method InitialiseRestApi(loadStored: MqttSettings -> MqttSettings)
      modifies this
      ensures mqtt == loadStored(old(mqtt))
      ensures fwConfigSchema == old(fwConfigSchema) && fwCommandSchema == old(fwCommandSchema)
      ensures onConfig == old(onConfig) && onCommand == old(onCommand) && effects == old(effects)
    {
      mqtt := loadStored(mqtt);
    }

    /** `loop`: with the link up, service the MQTT client and then the REST
        API once each; with the link down, do nothing. */
    method Loop(linkUp: bool)
      modifies this
      ensures effects == old(effects) + if linkUp then [MqttServiced, ApiServiced] else []
      ensures mqtt == old(mqtt) && fwConfigSchema == old(fwConfigSchema) && fwCommandSchema == old(fwCommandSchema)
      ensures onConfig == old(onConfig) && onCommand == old(onCommand)
    {
      if linkUp {
        effects := effects + [MqttServiced];
        effects := effects + [ApiServiced];
      }
    }

    /** `setConfigSchema`: clear the stored config schema, then merge the
        fragment into it. Whatever was stored before is gone. */
    method SetConfigSchema(json: Json)
      modifies this
      ensures fwConfigSchema == Merge(Null, json)
      ensures fwCommandSchema == old(fwCommandSchema)
      ensures mqtt == old(mqtt) && onConfig == old(onConfig) && onCommand == old(onCommand)
      ensures effects == old(effects)
    {
      fwConfigSchema := Null;
      fwConfigSchema := MergeJson(fwConfigSchema, json);
    }

    /** `setCommandSchema`: clear the stored command schema, then merge the
        fragment into it. */
    method SetCommandSchema(json: Json)
      modifies this
      ensures fwCommandSchema == Merge(Null, json)
      ensures fwConfigSchema == old(fwConfigSchema)
      ensures mqtt == old(mqtt) && onConfig == old(onConfig) && onCommand == old(onCommand)
      ensures effects == old(effects)
    {
      fwCommandSchema := Null;
      fwCommandSchema := MergeJson(fwCommandSchema, json);
    }

    /** `publishStatus`: fails without publishing when the link is down,
        otherwise reports what the MQTT layer's publish (`sent`) reports. */
    method PublishStatus(json: Json, linkUp: bool, sent: bool) returns (ok: bool)
      modifies this
      ensures !linkUp ==> !ok && effects == old(effects)
      ensures linkUp ==> ok == sent && effects == old(effects) + [PublishAttempt(Status, json)]
      ensures mqtt == old(mqtt) && fwConfigSchema == old(fwConfigSchema) && fwCommandSchema == old(fwCommandSchema)
      ensures onConfig == old(onConfig) && onCommand == old(onCommand)
    {
      if !linkUp {
        return false;
      }
      effects := effects + [PublishAttempt(Status, json)];
      ok := sent;
    }

    /** `publishTelemetry`: as `publishStatus`, on the telemetry topic. */
    method PublishTelemetry(json: Json, linkUp: bool, sent: bool) returns (ok: bool)
      modifies this
      ensures !linkUp ==> !ok && effects == old(effects)
      ensures linkUp ==> ok == sent && effects == old(effects) + [PublishAttempt(Telemetry, json)]
      ensures mqtt == old(mqtt) && fwConfigSchema == old(fwConfigSchema) && fwCommandSchema == old(fwCommandSchema)
      ensures onConfig == old(onConfig) && onCommand == old(onCommand)
    {
      if !linkUp {
        return false;
      }
      effects := effects + [PublishAttempt(Telemetry, json)];
      ok := sent;
    }

    /** `_mqttConfig`: forward the payload to the config callback, if any. */
    method MqttConfig(json: Json)
      modifies this
      ensures effects == old(effects) + ConfigEffects(json, onConfig)
      ensures mqtt == old(mqtt) && fwConfigSchema == old(fwConfigSchema) && fwCommandSchema == old(fwCommandSchema)
      ensures onConfig == old(onConfig) && onCommand == old(onCommand)
    {
      if onConfig.Some? {
        effects := effects + [ConfigDelivered(onConfig.value, json)];
      }
    }

    /** `_mqttCommand`: restart when asked to, then forward the whole payload
        to the command callback, if any. */
    method MqttCommand(json: Json)
      modifies this
      ensures effects == old(effects) + CommandEffects(json, onCommand)
      ensures mqtt == old(mqtt) && fwConfigSchema == old(fwConfigSchema) && fwCommandSchema == old(fwCommandSchema)
      ensures onConfig == old(onConfig) && onCommand == old(onCommand)
    {
      if IsRestartCommand(json) {
        effects := effects + [Restart];
      }
      if onCommand.Some? {
        effects := effects + [CommandDelivered(onCommand.value, json)];
      }
    }

    /** `_apiAdopt`: the adoption document for the current stored schemas. */
    method ApiAdopt(system: Json, mac: seq<byte>, ip: string) returns (doc: Json)
      requires |mac| == 6
      ensures doc == AdoptJson(schemaVersion, firmware, system, mac, ip, fwConfigSchema, fwCommandSchema)
    {
      doc := AdoptJson(schemaVersion, firmware, system, mac, ip, fwConfigSchema, fwCommandSchema);
    }
  }

  /** Replace, not accumulate: after setting a config schema from `f1` and
      then from `f2`, the stored and advertised config schema is `f2`'s alone,
      while the command schema is untouched. */
  method SchemaReplaceScenario(d: Device, f1: Json, f2: Json)
    requires f2.Object? && UniqueKeys(f2.members)
    modifies d
    ensures d.fwConfigSchema == Merge(Null, f2)
    ensures Lookup(ConfigSchemaJson(d.schemaVersion, d.firmware, d.fwConfigSchema), "properties") == Some(f2)
    ensures d.fwCommandSchema == old(d.fwCommandSchema)
  {
    d.SetConfigSchema(f1);
    d.SetConfigSchema(f2);
    AdvertisedConfigSchema(d.schemaVersion, d.firmware, f2);
  }
}
