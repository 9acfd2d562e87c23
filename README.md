# OXRS_32 library core, modelled in Dafny

This project models the core of the OXRS_32 firmware library
(`src/OXRS_32.cpp`). That library sits between an ESP32 firmware and the
MQTT broker and REST API the firmware talks to. The model covers:

- **The JSON deep merge** (`_mergeJson`). It is modelled twice. `Merge` is a
  recursive specification function. `MergeJson` is the loop-and-recursion
  procedure the library runs, proved equal to `Merge`. JSON values follow the
  JSON library's variant semantics:
  - objects are ordered member lists;
  - a read finds the first member with the key;
  - a write replaces that member in place, or appends a new one;
  - writing a key into `null` turns it into an object;
  - writing a key into any other non-object value is ignored.
- **Stored firmware schemas.** `setConfigSchema` and `setCommandSchema` clear
  the stored document and merge the new fragment into it.
- **The adoption document** (`_apiAdopt`). It has five sections: firmware
  identity, system counters, network identity, and the config and command
  schema envelopes. The command envelope always carries the library's
  built-in `restart` entry.
- **Device identity strings.** The MAC address display form is
  `%02X:%02X:…`. The default MQTT client id is `%02x%02x%02x` of the last
  three MAC bytes. Each comes with a parser, and the two are proved inverse.
- **The library object** (`Device.Device`). It holds the stored schemas, the
  two firmware callbacks, the MQTT session settings and an ordered trace of
  effects on the outside world. The methods cover:
  - dispatch of config and command payloads, including the built-in
    `restart` command;
  - the network guard on `publishStatus` and `publishTelemetry`;
  - `loop`;
  - the start-up order in `begin`, which lets stored MQTT settings take
    precedence over the default client id.

Collaborators outside this file become inputs:

- the WiFi link state (`linkUp`);
- the MAC address the WiFi stack reports (`mac`);
- the local IP address, as text;
- the system counters, as an opaque JSON value;
- the outcome of an MQTT publish (`sent`);
- the REST API's loading of stored MQTT settings (`loadStored`).

Behaviour that follows the JSON library's conversions rather than what the
names suggest:

- A command restarts the device whenever its `restart` member converts to
  `true` under the JSON library's truthiness. That includes `true`, but also
  any non-zero number, any string, array or object. It excludes `false`,
  `0` and `null`.
- The merge recurses whenever the destination's current value at a key is
  truthy, not only when the key is present. An object merged onto a truthy
  scalar therefore leaves the scalar in place. An object merged onto a
  falsy value (`null`, `false`, `0`) replaces it.
- Setting a schema from an empty object leaves the stored schema `null`,
  because no member is ever written.

## Model

| member | source | states |
|---|---|---|
| `Json.Truthy` | src/OXRS_32.cpp:47 | the library's conversion of a value to bool: `null`, `false` and `0` are falsy, and every other value (any string, array or object, any non-zero number, `true`) is truthy |
| `Json.Get` | src/OXRS_32.cpp:47 | a key read finds nothing exactly when no member names the key |
| `Json.Put` | src/OXRS_32.cpp:53 | a key write leaves the key set as the old keys plus the written key; it grows the list only when the key is new |
| `Json.Lookup` | src/OXRS_32.cpp:47 | reading a key finds a value exactly when the value is an object that names the key |
| `Json.SetMember` | src/OXRS_32.cpp:53 | writing a key into null or an object makes it an object that reads back the written value; any other value is left unchanged |
| `Json.PutGet` | src/OXRS_32.cpp:53 | after a write, the written key reads the new value and every other key reads as before |
| `Json.GetFirstIff` | src/OXRS_32.cpp:47 | a read finds the value of the first member naming the key, and finds something only when such a member exists |
| `Json.PutExisting` | src/OXRS_32.cpp:53 | writing back the value a key already holds changes nothing |
| `Json.PutUnique` | src/OXRS_32.cpp:53 | a write never creates a duplicate key |
| `Json.PutAbsent` | src/OXRS_32.cpp:53 | writing a key that is absent appends the member at the end |
| `Json.PutPresent` | src/OXRS_32.cpp:145 | writing a key that is present replaces its first member where it stands; every member before and after it is kept in order |
| `Json.SetMemberLookup` | src/OXRS_32.cpp:53 | writing one key into null or an object: that key reads the new value, every other key reads as before |
| `Json.SetMemberKeepsOthers` | src/OXRS_32.cpp:145-147 | writing the built-in `restart` entry leaves every other entry of the properties object as it was |
| `Json.GetAt` | src/OXRS_32.cpp:47 | with unique keys, the member at any position is the one a read of its key finds |
| `Json.GetIff` | src/OXRS_32.cpp:222 | with unique keys, a read finds `v` at `k` exactly when the object holds the member `k: v` |
| `JsonMerge.MergedValue` | src/OXRS_32.cpp:47-54 | one merge step at a key: over an absent or falsy value the source value is assigned; a non-object source value always wins; an object onto a truthy non-object leaves that value; an object onto an object stays an object |
| `JsonMerge.Merge` | src/OXRS_32.cpp:41-61 | a non-object source replaces the destination; an object source keeps an object destination an object; an object source leaves a non-null scalar destination unchanged |
| `JsonMerge.MergeMembers` | src/OXRS_32.cpp:45-55 | the member loop keeps an object an object; it makes null an object exactly when there is a member; it leaves other values unchanged |
| `JsonMerge.MergeJson` | src/OXRS_32.cpp:41-61 | the loop that writes each source member into the destination, recursing for truthy current values, computes exactly `Merge` |
| `JsonMerge.MergeMembersLookup` | src/OXRS_32.cpp:45-55 | after the member loop, a key the source lacks reads as before; a key it names reads as one merge step over the old value |
| `JsonMerge.MergeLookup` | src/OXRS_32.cpp:41-61 | the key-by-key meaning of merging an object source into null or an object |
| `JsonMerge.MergeKeepsAndAdds` | src/OXRS_32.cpp:45-55 | destination keys the source does not name keep their values; every source key is present afterwards |
| `JsonMerge.MergeOverwritesScalar` | src/OXRS_32.cpp:57-60 | a source member that is not an object wins at its key, whatever was there |
| `JsonMerge.MergeAssignsOverFalsy` | src/OXRS_32.cpp:51-54 | where the destination key is absent or falsy, the source value is assigned as it is |
| `JsonMerge.MergeKeepsTruthyScalar` | src/OXRS_32.cpp:47-50 | an object merged onto a truthy non-object value leaves that value unchanged |
| `JsonMerge.MergeKeysUnion` | src/OXRS_32.cpp:43-56 | merging two objects gives an object whose keys are the union of both key sets |
| `JsonMerge.MergeNestedObjects` | src/OXRS_32.cpp:47-50 | where both sides hold objects at a key, the result there is their recursive merge, with the union of their keys |
| `JsonMerge.MergeSelf` | src/OXRS_32.cpp:41-61 | merging a well-formed value into itself changes nothing |
| `JsonMerge.MergeMembersNoop` | src/OXRS_32.cpp:45-55 | a member loop whose every step writes back the value already present leaves the object unchanged |
| `JsonMerge.MergeIdempotent` | src/OXRS_32.cpp:41-61 | merging the same source twice gives the same result as merging it once, for any destination |
| `JsonMerge.MergedValueIdempotent` | src/OXRS_32.cpp:47-54 | repeating one merge step at a key gives the same value |
| `JsonMerge.MergeMembersAppend` | src/OXRS_32.cpp:45-55 | merging new, unique keys into an object appends them in source order |
| `JsonMerge.MergeIntoEmptyObject` | src/OXRS_32.cpp:118-124 | merging a unique-keyed object into a new empty object reproduces the object exactly, member order included |
| `JsonMerge.MergeIntoNull` | src/OXRS_32.cpp:325-335 | merging an object into a cleared document gives the object, except that an empty object leaves the document null |
| `Identity.HexDigit` | src/OXRS_32.cpp:105 | a value below 16 is written as one digit of the requested case, which reads back as the value |
| `Identity.Hex2` | src/OXRS_32.cpp:105 | `%02X`/`%02x` of a byte is exactly two digits of the requested case, which read back as the byte |
| `Identity.Hex2OfParse` | src/OXRS_32.cpp:402 | two digits of one case are what `%02x`/`%02X` writes for the byte they encode |
| `Identity.HexJoin` | src/OXRS_32.cpp:105 | `n` bytes joined by `:` take `3n - 1` characters |
| `Identity.HexJoinAt` | src/OXRS_32.cpp:105 | every third character of the join is `:`; the others are the digits of byte `i / 3` |
| `Identity.MacDisplay` | src/OXRS_32.cpp:104-105 | the MAC display is 17 characters; `:` appears exactly at positions 2, 5, 8, 11 and 14; every other position is an uppercase digit of byte `i / 3` |
| `Identity.MacDisplayByte` | src/OXRS_32.cpp:104-105 | the two display digits of byte `j` read back as that byte |
| `Identity.MacDisplayRoundTrip` | src/OXRS_32.cpp:377-378 | parsing the display gives the address back |
| `Identity.MacParsedIsDisplay` | src/OXRS_32.cpp:377-378 | the only string that parses to an address is its display |
| `Identity.DefaultClientId` | src/OXRS_32.cpp:401-402 | the default client id is six lowercase digits; digits `2j` and `2j+1` encode MAC byte `3 + j` |
| `Identity.DefaultClientIdRoundTrip` | src/OXRS_32.cpp:401-402 | the client id is non-empty and parses back to exactly the last three MAC bytes |
| `Identity.ClientIdParsedIsDefault` | src/OXRS_32.cpp:401-402 | the only string that parses to the last three MAC bytes is the default client id |
| `Adoption.FirmwareJson` | src/OXRS_32.cpp:64-76 | the firmware section holds name, short name, maker and version; it holds the GitHub URL exactly when one is defined |
| `Adoption.NetworkJson` | src/OXRS_32.cpp:94-107 | the network section holds mode `wifi`, the IP address and the MAC display form, and nothing else |
| `Adoption.SchemaProperties` | src/OXRS_32.cpp:118-124 | the envelope's properties before built-in entries: `{}` when nothing is stored, exactly the stored object when one is stored, and the stored value itself when it is any other value, which overwrites the empty object |
| `Adoption.Envelope` | src/OXRS_32.cpp:111-118 | a schema envelope holds exactly `$schema`, `title`, `type: "object"` and the given properties |
| `Adoption.ConfigSchemaJson` | src/OXRS_32.cpp:109-125 | the config envelope carries the schema version, the firmware short name and type `object`; its properties are the stored schema merged into an empty object, or empty when nothing is stored |
| `Adoption.CommandSchemaJson` | src/OXRS_32.cpp:127-148 | the command envelope carries the same metadata; with a null or object stored schema, its properties hold the built-in `restart` entry and every other stored entry unchanged |
| `Adoption.AdoptJson` | src/OXRS_32.cpp:151-159 | the adoption document has exactly the five sections firmware, system, network, configSchema and commandSchema, each the output of its builder |
| `Adoption.StoredFragment` | src/OXRS_32.cpp:118-124 | a schema stored from an object fragment comes out of the envelope's merge as exactly that fragment |
| `Adoption.AdvertisedConfigSchema` | src/OXRS_32.cpp:325-329 | a config schema set from an object fragment is advertised as exactly that fragment |
| `Adoption.CommandProperties` | src/OXRS_32.cpp:136-147 | the command envelope's properties are the stored properties with the `restart` entry written in |
| `Adoption.AdvertisedCommandSchema` | src/OXRS_32.cpp:331-335 | a command schema set from an object fragment is advertised as that fragment with `restart` written in: a firmware `restart` entry is replaced in place, otherwise the entry is appended (`Json.PutPresent` and `Json.PutAbsent` give the two cases) |
| `Device.IsRestartCommand` | src/OXRS_32.cpp:222 | a payload asks for a restart exactly when it is an object whose first `restart` member has a truthy value |
| `Device.RestartCommandIff` | src/OXRS_32.cpp:222 | a command asks for a restart exactly when it has a truthy `restart` member; for a boolean, exactly when that boolean is `true` |
| `Device.CommandEffects` | src/OXRS_32.cpp:219-229 | a command restarts exactly when it asks to, and the restart comes first; with a callback, the whole payload is delivered last; there is exactly one effect per restart asked for and one per callback present, so nothing else happens |
| `Device.ConfigEffects` | src/OXRS_32.cpp:213-217 | a config payload reaches the config callback unchanged when there is one; otherwise nothing happens |
| `Device.RestartTrueExample` | src/OXRS_32.cpp:219-229 | `{"restart": true}` restarts the device and is also delivered to the firmware |
| `Device.RestartFalseExample` | src/OXRS_32.cpp:219-229 | `{"restart": false, …}` does not restart the device and is delivered whole |
| `Device.Device.constructor` | src/OXRS_32.cpp:31-37 | a new library object has no stored schemas, no callbacks and no effects |
| `Device.Device.SetMqttBroker` | src/OXRS_32.cpp:257-260 | sets the broker and port and changes nothing else |
| `Device.Device.SetMqttClientId` | src/OXRS_32.cpp:262-265 | sets the client id and changes nothing else |
| `Device.Device.SetMqttAuth` | src/OXRS_32.cpp:267-270 | sets username and password and changes nothing else |
| `Device.Device.SetMqttTopicPrefix` | src/OXRS_32.cpp:272-275 | sets the topic prefix and changes nothing else |
| `Device.Device.SetMqttTopicSuffix` | src/OXRS_32.cpp:277-280 | sets the topic suffix and changes nothing else |
| `Device.Device.Begin` | src/OXRS_32.cpp:282-306 | records both callbacks; the final MQTT settings are the stored settings loaded over the MAC-derived default client id, so stored settings win |
| `Device.Device.InitialiseMqtt` | src/OXRS_32.cpp:395-413 | sets the default client id from the MAC address and nothing else |
| `Device.Device.InitialiseRestApi` | src/OXRS_32.cpp:415-429 | loads the stored MQTT settings over the current ones |
| `Device.Device.Loop` | src/OXRS_32.cpp:308-323 | with the link up, services MQTT and then the REST API once each; with the link down, does nothing |
| `Device.Device.SetConfigSchema` | src/OXRS_32.cpp:325-329 | the stored config schema becomes the merge of the fragment into a cleared document, whatever was stored before; the command schema is untouched |
| `Device.Device.SetCommandSchema` | src/OXRS_32.cpp:331-335 | the stored command schema becomes the merge of the fragment into a cleared document; the config schema is untouched |
| `Device.Device.PublishStatus` | src/OXRS_32.cpp:347-354 | with the link down, fails and publishes nothing; otherwise one status publish is attempted, and its outcome is the result |
| `Device.Device.PublishTelemetry` | src/OXRS_32.cpp:356-363 | the same guard and outcome, on the telemetry topic |
| `Device.Device.MqttConfig` | src/OXRS_32.cpp:213-217 | appends exactly the config effects of the payload to the trace |
| `Device.Device.MqttCommand` | src/OXRS_32.cpp:219-229 | appends exactly the command effects of the payload to the trace, restart before delivery |
| `Device.Device.ApiAdopt` | src/OXRS_32.cpp:151-159 | the adoption document is built from the current stored schemas |
| `Device.SchemaReplaceScenario` | src/OXRS_32.cpp:325-329 | setting the config schema twice replaces rather than accumulates: the stored and advertised schema is the second fragment alone; the command schema is untouched |

## Left out

- WiFi set-up (`_initialiseNetwork`, WiFiManager's captive portal, `WiFi.mode`) is not modelled. The MAC address and the link state are inputs.
- The MQTT transport is not modelled: PubSubClient, `OXRS_MQTT`'s topic handling and payload parsing, `_mqttCallback` and its classification of received messages, and the publish itself, whose outcome is the input `sent`.
- `_mqttConnected` and `_mqttDisconnected` are not modelled. They only log and publish the adoption document, whose contents `ApiAdopt` models.
- The REST API (`OXRS_API`, its routes, `apiGet`/`apiPost`) and the LittleFS settings file are not modelled. Loading stored MQTT settings is the opaque function `loadStored`.
- The system section (`_getSystemJson`) reads heap, flash and file-system counters from the hardware. It is an opaque JSON input.
- `write` and all logging (including the firmware details printed by `begin`) are left out: they are output only.
- Floating-point JSON numbers are not modelled. Numbers are integers.
- The JSON documents' fixed capacities (`JSON_CONFIG_MAX_SIZE`, `JSON_COMMAND_MAX_SIZE`, `JSON_ADOPT_MAX_SIZE`) and the silent truncation when they overflow are not modelled.
- Device.Device.MqttCommand: `ESP.restart()` does not return on the hardware, so the delivery that follows a restart in the code never happens there. The model records both effects in code order.
- Adoption.CommandSchemaJson: the `restart` guarantee is stated only for a stored schema that is null or an object. For any other stored value, the library's object handle for the properties refers to a slot the merge has overwritten with a non-object. The model then leaves the properties as that value.
- Adoption.NetworkJson: the IP address is taken as text; its formatting is not modelled.
- Device.Device.SetMqttBroker: the MQTT layer's setters are taken to store their arguments as given. `OXRS_MQTT` is not part of this model.
- The merge lemmas assume that the source fragment is well-formed (no key named twice in any object). The JSON library's parser and key assignment keep documents that way.
