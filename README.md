# FastyBird miniserver gateway — a Dafny model

This project models the core of the FastyBird miniserver gateway, a Python service. The gateway connects devices on an FB bus (a PJON-based serial bus) to a database of devices, channels and properties. It keeps property values in Redis and publishes changes to exchanges, such as a WAMP server for browser clients.

The model covers:

- **The FB bus connector.** This includes:
  - the packet codes and their enum tables (`FbBusTypes`, `PacketsHelper`);
  - the byte and text helpers and the data-type conversions (`FbBusHelpers`);
  - the device, register and setting entities (`FbBusDevice`, `FbBusRegister`, `FbBusSetting`);
  - the in-memory registry with address allocation and identifier parsing (`FbBusConnector`, `FbBusIdentifiers`);
  - the receive dispatch (`FbBusDispatch`).
- **The pairing state machine and its packets.** These are `FbBusPairingRequests`, `FbBusPairingSteps`, `FbBusPairingHelper`, `FbBusPairingStructure` and `FbBusPairingConfigure`. They cover the steps from the address assignment through the register and setting structures, and the reconciliation of the stored register and setting tables with what the device reports.
- **The reading, writing, reporting and checking handlers.** These are `FbBusReadingHandler`, `FbBusWritingHandler`, `FbBusReportingHandler` and `FbBusCheckingHandler`. They cover the register windows, the packets built for them, the replies and how the reading pointer moves, plus the lost, ping and state checks of a device.
- **The entity key hash (`EntityKeyHash`).** This is a base-52 encoding offset by 52^5. Decoding inverts encoding.
- **The Redis storage of property values (`RedisStorage`).** The store keeps a value, an expected value and a "pending" flag per property, behind a local cache. Redis and the cache are maps.
- **The property cache and format parsing (`PropertyCache`).** This includes the queue-item records of the connectors (`ConnectorQueue`), and the connectors container with its allow-listed entity updates and expected-value forwarding (`Connectors`).
- **The exchanges.** This covers:
  - routing keys (`ExchangeRouting`);
  - the acceptance rule for inbound messages and the fan-out of published records (`Exchanges`);
  - the WAMP subscriber map and call replies (`WampExchange`).
- **The WebSocket client of the WAMP server.** This covers the frame encoder, the byte-at-a-time frame parser and the frame handling of section 5 of RFC 6455 (`WebSocketFrames`), and the client object whose methods run them on its fields (`WebSocketClient`).

The shape of the model follows the source:

- Code that computes values becomes datatypes, functions and lemmas.
- Objects whose fields the source updates become classes whose methods are proved against those functions.
- Where the source calls into code that is not part of this model, the call becomes a parameter, a returned value or a recorded call. The database, JSON decoding, value normalisation, `time` and the transport become parameters. The event dispatcher's event is returned. The `publish` calls of the containers, and the FB bus connector's calls into the connectors container (values sent to storage, deleted properties and configurations, device and state propagation), are recorded in logs. "## Left out" lists what is not recorded.

## Model

| member | source | states |
|---|---|---|
| Common.Word | miniserver_gateway/connectors/fb_bus/handlers/reporting_handler.py:84 | a big-endian word read from two bytes is below 65536 |
| Common.WordRoundTrip | miniserver_gateway/connectors/fb_bus/handlers/reading_handler.py:205-206 | a 16-bit address or length written as `x >> 8`, `x & 0xFF` reads back as `(hi << 8) \| lo` unchanged |
| GatewayTypes.DeviceStateValue | miniserver_gateway/db/types.py:30-50 | every device state's enum value looks the state up again (`DeviceStates(v)`) |
| GatewayTypes.DataTypeValue | miniserver_gateway/db/types.py:62-73 | every gateway data type's enum value looks the type up again (`DataType(v)`) |
| GatewayTypes.ValuesUnique | miniserver_gateway/db/types.py:30-73 | both `@unique` enums give distinct members distinct values |
| FbBusTypes.PacketCode | miniserver_gateway/connectors/fb_bus/types/types.py:30-59 | `Packets(code)` gives the packet back for every packet code |
| FbBusTypes.PacketsHasValueExactly | miniserver_gateway/connectors/fb_bus/types/types.py:30-63 | `Packets.has_value(v)` holds exactly for the packet codes, all odd, and the lookup recovers the code |
| FbBusTypes.PacketCodesUnique | miniserver_gateway/connectors/fb_bus/types/types.py:29-59 | `@unique`: distinct packets have distinct codes |
| FbBusTypes.CommandCode | miniserver_gateway/connectors/fb_bus/types/types.py:105-123 | `PairingCommands(code)` gives the command back |
| FbBusTypes.ResponseCode | miniserver_gateway/connectors/fb_bus/types/types.py:134-152 | `PairingResponses(code)` gives the response back |
| FbBusTypes.ResponseCodeIsCommandPlus50 | miniserver_gateway/connectors/fb_bus/types/types.py:106-148 | each pairing response's code is its command's code plus 0x50, in both directions |
| FbBusTypes.DataTypeCode | miniserver_gateway/connectors/fb_bus/types/types.py:184-197 | `DataTypes(code)` gives the data type back |
| FbBusTypes.DataTypesHasValue | miniserver_gateway/connectors/fb_bus/types/types.py:184-201 | `DataTypes.has_value(v)` iff v is 0x01..0x0B or 0xFF |
| FbBusTypes.RegisterTypeCode | miniserver_gateway/connectors/fb_bus/types/types.py:213-217 | `RegistersTypes(code)` gives the register type back |
| FbBusTypes.RegisterTypeFromCode | miniserver_gateway/connectors/fb_bus/types/types.py:213-221 | a register type code is valid iff it is 1..4 |
| FbBusTypes.SettingTypeCode | miniserver_gateway/connectors/fb_bus/types/types.py:233-235 | `SettingsTypes(code)` gives the setting kind back |
| FbBusTypes.SettingTypeFromCode | miniserver_gateway/connectors/fb_bus/types/types.py:233-239 | a setting kind code is valid iff it is 1 or 2 |
| PacketsHelper.PacketNames | miniserver_gateway/connectors/fb_bus/utilities/packets_helper.py:26-46 | a name in `PACKET_NAMES` belongs to exactly the packet it is listed under |
| PacketsHelper.GetPacketName | miniserver_gateway/connectors/fb_bus/utilities/packets_helper.py:49-54 | the table's name, and "UNKNOWN" exactly for the one packet the table leaves out (CONTROL_DEVICE) |
| PacketsHelper.PacketNamesDistinct | miniserver_gateway/connectors/fb_bus/utilities/packets_helper.py:26-46 | no two packets share a name |
| FbBusHelpers.TextEnd | miniserver_gateway/connectors/fb_bus/utilities/helpers.py:47-53 | the scan stops at the first space or terminator at or after `start`, or at the end |
| FbBusHelpers.TextField | miniserver_gateway/connectors/fb_bus/utilities/helpers.py:42-57 | a text as a device sends it: one byte per character and the terminator |
| FbBusHelpers.TextFieldRoundTrip | miniserver_gateway/connectors/fb_bus/utilities/helpers.py:42-57 | a text field embedded anywhere in a payload is extracted back as the same text |
| FbBusHelpers.ExtractTextFromPayload | miniserver_gateway/connectors/fb_bus/utilities/helpers.py:42-57 | the characters from `start` up to the first space or terminator; empty past the end; never holds a stop byte |
| FbBusHelpers.TextEndIsFirstStop | miniserver_gateway/connectors/fb_bus/utilities/helpers.py:47-53 | any index with no stop before it that is a stop or the end is where the scan ends |
| FbBusHelpers.SpaceFrom | miniserver_gateway/connectors/fb_bus/utilities/helpers.py:62-70 | -1 or the first index at or after `start` that holds the data space |
| FbBusHelpers.FindSpaceInPayload | miniserver_gateway/connectors/fb_bus/utilities/helpers.py:62-70 | -1 exactly when no byte from `start` is 0x20, otherwise the least such index |
| FbBusHelpers.TransformStateForGateway | miniserver_gateway/connectors/fb_bus/utilities/helpers.py:75-95 | RUNNING iff the byte is 0x01, STOPPED iff 0x02, UNKNOWN otherwise |
| FbBusHelpers.TransformForGateway | miniserver_gateway/connectors/fb_bus/utilities/helpers.py:109-136 | None exactly for unknown, time, date and datetime |
| FbBusHelpers.TransformForDevice | miniserver_gateway/connectors/fb_bus/utilities/helpers.py:141-171 | None (the raise) exactly for a missing type, string, enum and color |
| FbBusHelpers.DataTypeTransformsInverse | miniserver_gateway/connectors/fb_bus/utilities/helpers.py:109-171 | the two data type mappings are inverse to each other on the eight supported pairs |
| FbBusHelpers.UInt32FromLE | miniserver_gateway/connectors/fb_bus/utilities/helpers.py:194-201 | `struct.unpack("<I")` of four bytes lies in 0..2^32-1 |
| FbBusHelpers.Int32FromLE | miniserver_gateway/connectors/fb_bus/utilities/helpers.py:203-210 | `struct.unpack("<i")` lies in -2^31..2^31-1 and is negative iff the top byte's high bit is set |
| FbBusHelpers.UInt32ToLE | miniserver_gateway/connectors/fb_bus/utilities/helpers.py:224-229 | `struct.pack("<I")` gives four bytes |
| FbBusHelpers.Int32ToLE | miniserver_gateway/connectors/fb_bus/utilities/helpers.py:231-236 | `struct.pack("<i")` gives four bytes |
| FbBusHelpers.UInt32RoundTrip | miniserver_gateway/connectors/fb_bus/utilities/helpers.py:194-229 | unpacking a packed unsigned 32-bit value gives it back |
| FbBusHelpers.UInt32BytesRoundTrip | miniserver_gateway/connectors/fb_bus/utilities/helpers.py:194-229 | packing an unpacked four-byte word gives the bytes back |
| FbBusHelpers.IntegerOf | miniserver_gateway/connectors/fb_bus/utilities/helpers.py:224-236 | `struct.pack` takes ints and bools only |
| FbBusHelpers.TransformValueFromBytes | miniserver_gateway/connectors/fb_bus/utilities/helpers.py:185-212 | None exactly for non-numeric types; a raise exactly when a numeric type gets other than four bytes |
| FbBusHelpers.TransformValueToBytes | miniserver_gateway/connectors/fb_bus/utilities/helpers.py:217-238 | float goes to the float packer, non-numeric types give None, an integer type raises exactly on a non-integer or out-of-range value, otherwise four bytes |
| FbBusHelpers.IntegerRoundTrip | miniserver_gateway/connectors/fb_bus/utilities/helpers.py:185-238 | every integer type reads back the integer it packed, over the whole range `struct` accepts |
| FbBusHelpers.BytesRoundTrip | miniserver_gateway/connectors/fb_bus/utilities/helpers.py:185-238 | every four-byte word of an integer register packs back to the same bytes |
| EntityKeyHash.IndexOf | miniserver_gateway/db/utils.py:73 | `str.index`: the first position of the character, or None where it raises |
| EntityKeyHash.DigitsAt | miniserver_gateway/db/utils.py:49-50 | digit i of the key's digit string is `int(n / 52^i) % 52`, the digit the encode loop extracts |
| EntityKeyHash.FloorLogBounds | miniserver_gateway/db/utils.py:46 | the digit count `int(math.log(n, 52))` as an exact floor-log: 52^t <= n < 52^(t+1) |
| EntityKeyHash.RankOfAlphabet | miniserver_gateway/db/utils.py:30-32 | the alphabet has BASE = 52 characters, and each sits at its own rank |
| EntityKeyHash.AlphabetDistinct | miniserver_gateway/db/utils.py:30-32 | the 52 alphabet characters are pairwise distinct, so `ALPHABET.index` is well defined |
| EntityKeyHash.IndexOfDigit | miniserver_gateway/db/utils.py:73 | `ALPHABET.index` of the character for digit d is d |
| EntityKeyHash.Encode | miniserver_gateway/db/utils.py:39-58 | the loop yields the base-52 digits of n + 52^5, least significant first; None where `math.log` raises |
| EntityKeyHash.EncodeStep | miniserver_gateway/db/utils.py:48-53 | one turn of the encode loop extracts digit t and leaves the rest below 52^t |
| EntityKeyHash.Decode | miniserver_gateway/db/utils.py:63-81 | the loop weights each character by its power of 52 and subtracts 52^5; None where `index` raises |
| EntityKeyHash.PositionsStep | miniserver_gateway/db/utils.py:71-76 | one turn of the decode loop adds the next character's weighted digit |
| EntityKeyHash.PositionsMissing | miniserver_gateway/db/utils.py:73 | a character outside the alphabet makes decode raise |
| EntityKeyHash.EncodeDecodeRoundTrip | miniserver_gateway/db/utils.py:38-81 | decode(encode(n)) == n for every n encode accepts |
| EntityKeyHash.EncodeInjective | miniserver_gateway/db/utils.py:38-58 | distinct timestamps give distinct keys |
| EntityKeyHash.EncodedKeyInAlphabet | miniserver_gateway/db/utils.py:49-51 | every character of a key is in the alphabet |
| EntityKeyHash.EncodedKeyLength | miniserver_gateway/db/utils.py:42-46 | a key of n >= 0 has at least MAX_LEN = 6 characters, exactly 6 while n < 52^6 - 52^5 |
| EntityKeyHash.EncodedKeyFirstDigit | miniserver_gateway/db/utils.py:48-58 | the key's first character is `ALPHABET[(n + 52^5) % 52]` |
| FbBusDevice.InitialView | miniserver_gateway/connectors/fb_bus/entities/device.py:41-97 | a new device: state UNKNOWN, no attempts, nothing awaited, no reading pointers, and the constructor's arguments |
| FbBusDevice.ResetCommunication | miniserver_gateway/connectors/fb_bus/entities/device.py:239-241 | the awaited packet and the attempts are cleared and nothing else changes |
| FbBusDevice.WithStateEffects | miniserver_gateway/connectors/fb_bus/entities/device.py:111-125 | set_state sets the state; LOST stamps the loss and clears the communication and the last-packet time; READY zeroes both reading times; nothing else changes |
| FbBusDevice.Alive | miniserver_gateway/connectors/fb_bus/entities/device.py:245-250 | back to UNKNOWN with no attempts, nothing awaited and no lost time; nothing else changes |
| FbBusDevice.LostThenAlive | miniserver_gateway/connectors/fb_bus/entities/device.py:111-250 | a device lost and then seen alive keeps everything but the bookkeeping of the loss |
| FbBusDevice.Device.constructor | miniserver_gateway/connectors/fb_bus/entities/device.py:79-97 | the new device's state is `InitialView` of the arguments |
| FbBusDevice.Device.IsReady | miniserver_gateway/connectors/fb_bus/entities/device.py:129-130 | `is_ready` holds only for RUNNING: a READY or LOST device is not ready |
| FbBusDevice.Device.IsLost | miniserver_gateway/connectors/fb_bus/entities/device.py:134-135 | a LOST device is never RUNNING |
| FbBusDevice.Device.SetState | miniserver_gateway/connectors/fb_bus/entities/device.py:111-125 | the new state is `WithState` of the old one |
| FbBusDevice.Device.MarkLost | miniserver_gateway/connectors/fb_bus/entities/device.py:111-120 | `set_state(LOST)`: lost now, communication and last-packet time cleared |
| FbBusDevice.Device.MarkReady | miniserver_gateway/connectors/fb_bus/entities/device.py:111-125 | `set_state(READY)`: both reading times zeroed |
| FbBusDevice.Device.ResetCommunicationState | miniserver_gateway/connectors/fb_bus/entities/device.py:239-241 | the new state is `ResetCommunication` of the old one |
| FbBusDevice.Device.IncrementAttempts | miniserver_gateway/connectors/fb_bus/entities/device.py:224-225 | attempts grow by one, nothing else changes |
| FbBusDevice.Device.SetAlive | miniserver_gateway/connectors/fb_bus/entities/device.py:245-250 | the new state is `Alive` of the old one |
| FbBusDevice.Device.SetWaitingForPacket | miniserver_gateway/connectors/fb_bus/entities/device.py:209-215 | only the awaited packet changes |
| FbBusDevice.Device.SetLastPacketTimestamp | miniserver_gateway/connectors/fb_bus/entities/device.py:199-200 | only the last-packet time changes |
| FbBusDevice.Device.GetSettingsSupport | miniserver_gateway/connectors/fb_bus/entities/device.py:179-180 | despite its name a setter: only the settings support changes |
| FbBusDevice.Device.SetReadingRegister | miniserver_gateway/connectors/fb_bus/entities/device.py:269-271 | only the register reading pointer changes |
| FbBusDevice.Device.ResetReadingRegister | miniserver_gateway/connectors/fb_bus/entities/device.py:280-288 | the register pointer is cleared and the reading time set (now, or the given reset time) |
| FbBusDevice.Device.SetReadingSetting | miniserver_gateway/connectors/fb_bus/entities/device.py:292-294 | only the setting reading pointer changes |
| FbBusDevice.Device.ResetReadingSetting | miniserver_gateway/connectors/fb_bus/entities/device.py:303-311 | the setting pointer is cleared and the reading time set |
| FbBusDevice.Device.SetAddress | miniserver_gateway/connectors/fb_bus/entities/device.py:149-150 | only the address changes |
| FbBusDevice.Device.SetMaxPacketLength | miniserver_gateway/connectors/fb_bus/entities/device.py:159-160 | only the maximum packet length changes |
| FbBusDevice.Device.SetDescriptionSupport | miniserver_gateway/connectors/fb_bus/entities/device.py:169-170 | only the description support changes |
| FbBusDevice.Device.SetPubSubSupport | miniserver_gateway/connectors/fb_bus/entities/device.py:189-190 | only the pub/sub support changes |
| FbBusDevice.Device.SetPairingCmd | miniserver_gateway/connectors/fb_bus/entities/device.py:229-230 | only the pairing command changes |
| FbBusDevice.Device.SetHwModel | miniserver_gateway/connectors/fb_bus/entities/device.py:330-331 | only the hardware model changes |
| FbBusDevice.Device.SetHwManufacturer | miniserver_gateway/connectors/fb_bus/entities/device.py:320-321 | only the hardware manufacturer changes |
| FbBusDevice.Device.SetHwVersion | miniserver_gateway/connectors/fb_bus/entities/device.py:340-341 | only the hardware version changes |
| FbBusDevice.Device.SetFwManufacturer | miniserver_gateway/connectors/fb_bus/entities/device.py:350-351 | only the firmware manufacturer changes |
| FbBusDevice.Device.SetFwVersion | miniserver_gateway/connectors/fb_bus/entities/device.py:360-361 | only the firmware version changes |
| FbBusRegister.SizeAfter | miniserver_gateway/connectors/fb_bus/entities/register.py:109-135 | 1 byte for 8-bit and bool types, 2 for 16-bit, 4 for 32-bit and float, 0 for unknown, unchanged for time and date types |
| FbBusRegister.SizeAfterIdempotent | miniserver_gateway/connectors/fb_bus/entities/register.py:109-135 | setting the same type again changes nothing; after a type with a byte layout the size does not depend on history |
| FbBusRegister.Register.constructor | miniserver_gateway/connectors/fb_bus/entities/register.py:45-62 | the arguments, size from `set_data_type` starting at 0, value None |
| FbBusRegister.Register.IsWritable | miniserver_gateway/connectors/fb_bus/entities/register.py:96-100 | the input registers (DI, AI) are exactly the ones that are not writable |
| FbBusRegister.Register.SetDataType | miniserver_gateway/connectors/fb_bus/entities/register.py:109-135 | the type is set and the size follows `SizeAfter` |
| FbBusRegister.Register.SetValue | miniserver_gateway/connectors/fb_bus/entities/register.py:144-145 | the value is set |
| FbBusSetting.Setting.constructor | miniserver_gateway/connectors/fb_bus/entities/setting.py:44-49 | no name, no value, type UNKNOWN and size 0, no register link |
| FbBusSetting.Setting.SetName | miniserver_gateway/connectors/fb_bus/entities/setting.py:68-69 | the name is set |
| FbBusSetting.Setting.SetDataType | miniserver_gateway/connectors/fb_bus/entities/setting.py:83-103 | the type is set and the size follows `SizeAfter` |
| FbBusSetting.Setting.SetValue | miniserver_gateway/connectors/fb_bus/entities/setting.py:112-113 | the value is set |
| FbBusSetting.Setting.SetRegister | miniserver_gateway/connectors/fb_bus/entities/setting.py:142-144 | the register address and type are set |
| FbBusIdentifiers.Decimal | miniserver_gateway/connectors/fb_bus/fb_bus_connector.py:328 | `str(n)` of a natural number: digits only, no leading zero |
| FbBusIdentifiers.ZeroPad2 | miniserver_gateway/connectors/fb_bus/fb_bus_connector.py:290 | the format spec `{:0>2d}` pads to at least two characters |
| FbBusIdentifiers.Split | miniserver_gateway/connectors/fb_bus/fb_bus_connector.py:643-646 | `str.split("-")` yields at least one part |
| FbBusIdentifiers.ParseIdentifier | miniserver_gateway/connectors/fb_bus/fb_bus_connector.py:641-660 | an identifier the loader accepts gives a prefix without "-" and an address >= 0 (the number minus one) |
| FbBusIdentifiers.RegisterTypeOnLoad | miniserver_gateway/connectors/fb_bus/fb_bus_connector.py:662-674 | a loaded property is an output (DO, AO) iff settable, and digital (DI, DO) iff boolean |
| FbBusIdentifiers.DecimalRoundTrip | miniserver_gateway/connectors/fb_bus/fb_bus_connector.py:328 | `int(str(n)) == n` |
| FbBusIdentifiers.ParseNumbered | miniserver_gateway/connectors/fb_bus/fb_bus_connector.py:641-682 | "prefix-digits" with a positive number loads back as the prefix and the number minus one |
| FbBusIdentifiers.PaddedNumeral | miniserver_gateway/connectors/fb_bus/fb_bus_connector.py:290-311 | the `{:0>2d}` numeral is all digits and has the number's value |
| FbBusIdentifiers.PropertyIdentifierRoundTrip | miniserver_gateway/connectors/fb_bus/fb_bus_connector.py:288-318 | a register's property identifier "register-NN" loads back as the prefix "register" and the register's address |
| FbBusIdentifiers.SettingIdentifierRoundTrip | miniserver_gateway/connectors/fb_bus/fb_bus_connector.py:322-353 | a setting's configuration identifier loads back as its name and address, for a name without "-" |
| FbBusIdentifiers.RegisterTypeRoundTrip | miniserver_gateway/connectors/fb_bus/fb_bus_connector.py:662-674 | a propagated register loads back with its own type exactly when its data type matches its kind (boolean for DI/DO) |
| FbBusConnector.DeviceWithId | miniserver_gateway/connectors/fb_bus/fb_bus_connector.py:368-372 | the device with that id, or None exactly when no device has it |
| FbBusConnector.DeviceAt | miniserver_gateway/connectors/fb_bus/fb_bus_connector.py:376-381 | the first device in registry order with the address, None exactly when none has it |
| FbBusConnector.DeviceWithSerial | miniserver_gateway/connectors/fb_bus/fb_bus_connector.py:385-390 | a device with the serial number, None exactly when none has it |
| FbBusConnector.RegisterAt | miniserver_gateway/connectors/fb_bus/fb_bus_connector.py:438-449 | a register of the device with that type and address, None exactly when none matches |
| FbBusConnector.SettingAt | miniserver_gateway/connectors/fb_bus/fb_bus_connector.py:526-539 | a setting of the device with that address, None exactly when none matches |
| FbBusConnector.ReplaceDevice | miniserver_gateway/connectors/fb_bus/fb_bus_connector.py:421-423 | the entry with the same id holds the new device, every other entry and every id are kept |
| FbBusConnector.ReplaceRegister | miniserver_gateway/connectors/fb_bus/fb_bus_connector.py:476-478 | the entry with the same id holds the new register, the rest is kept |
| FbBusConnector.ReplaceSetting | miniserver_gateway/connectors/fb_bus/fb_bus_connector.py:568-579 | the entry with the same id holds the new setting, the rest is kept |
| FbBusConnector.WithoutRegister | miniserver_gateway/connectors/fb_bus/fb_bus_connector.py:482-487 | exactly the registers whose id differs remain |
| FbBusConnector.WithoutSetting | miniserver_gateway/connectors/fb_bus/fb_bus_connector.py:583-600 | exactly the settings whose id differs remain |
| FbBusConnector.RegistersOfMembers | miniserver_gateway/connectors/fb_bus/fb_bus_connector.py:427-434 | `get_registers_by_type` gives exactly the registers of that device and type |
| FbBusConnector.SettingsOfMembers | miniserver_gateway/connectors/fb_bus/fb_bus_connector.py:507-522 | `get_settings_by_type` gives exactly the settings of that device |
| FbBusConnector.ReplaceNeverInserts | miniserver_gateway/connectors/fb_bus/fb_bus_connector.py:421-423 | updating an unknown id changes nothing, ids stay distinct, and the device is stored iff its id was |
| FbBusConnector.WithoutRegisterDistinct | miniserver_gateway/connectors/fb_bus/fb_bus_connector.py:482-487 | deleting keeps the ids distinct and deleting an unknown id changes nothing |
| FbBusConnector.WithoutSettingDistinct | miniserver_gateway/connectors/fb_bus/fb_bus_connector.py:583-600 | deleting keeps the ids distinct and deleting an unknown id changes nothing |
| FbBusConnector.RegisterAtIsInRegistersOf | miniserver_gateway/connectors/fb_bus/fb_bus_connector.py:427-449 | the register found by address is one of the device's registers of that type, and none is found iff none of those has the address |
| FbBusConnector.Connector.constructor | miniserver_gateway/connectors/fb_bus/fb_bus_connector.py:98-118 | all registries start empty |
| FbBusConnector.Connector.GetDeviceById | miniserver_gateway/connectors/fb_bus/fb_bus_connector.py:368-372 | the device with that id, None iff none has it |
| FbBusConnector.Connector.GetDeviceByAddress | miniserver_gateway/connectors/fb_bus/fb_bus_connector.py:376-381 | the scan returns `DeviceAt`: the first device with the address |
| FbBusConnector.Connector.GetDeviceBySerialNumber | miniserver_gateway/connectors/fb_bus/fb_bus_connector.py:385-390 | the scan returns `DeviceWithSerial` |
| FbBusConnector.Connector.CreateDevice | miniserver_gateway/connectors/fb_bus/fb_bus_connector.py:394-417 | a new device at the lowest free address of 1..252, appended to the registry; the exception exactly when every address is taken |
| FbBusConnector.Connector.UpdateDevice | miniserver_gateway/connectors/fb_bus/fb_bus_connector.py:421-423 | the registry becomes `ReplaceDevice`; the other registries are unchanged |
| FbBusConnector.Connector.GetRegistersByType | miniserver_gateway/connectors/fb_bus/fb_bus_connector.py:427-434 | the loop collects `RegistersOf` the device and type |
| FbBusConnector.Connector.GetRegisterByAddress | miniserver_gateway/connectors/fb_bus/fb_bus_connector.py:438-449 | the loop finds `RegisterAt` |
| FbBusConnector.Connector.CreateRegister | miniserver_gateway/connectors/fb_bus/fb_bus_connector.py:453-472 | a new register with the given ids, data type and size, no value, and the entity key of the time; appended to the registry |
| FbBusConnector.Connector.UpdateRegister | miniserver_gateway/connectors/fb_bus/fb_bus_connector.py:476-478 | the registry becomes `ReplaceRegister` |
| FbBusConnector.Connector.DeleteRegister | miniserver_gateway/connectors/fb_bus/fb_bus_connector.py:482-487 | the registry becomes `WithoutRegister`, and the deletion of the channel property is recorded as a container call |
| FbBusConnector.Connector.UpdateRegisterValue | miniserver_gateway/connectors/fb_bus/fb_bus_connector.py:491-503 | the register takes the value; exactly when the register is in the registry, the new and the previous value are forwarded to storage as a recorded container call |
| FbBusConnector.Connector.GetSettingsByType | miniserver_gateway/connectors/fb_bus/fb_bus_connector.py:507-522 | the loop collects `SettingsOf` the device in the registry of the kind |
| FbBusConnector.Connector.GetSettingByAddress | miniserver_gateway/connectors/fb_bus/fb_bus_connector.py:526-539 | the loop finds `SettingAt` in the registry of the kind |
| FbBusConnector.Connector.CreateSetting | miniserver_gateway/connectors/fb_bus/fb_bus_connector.py:543-564 | a new empty setting of the kind, appended to the registry of that kind only |
| FbBusConnector.Connector.UpdateSetting | miniserver_gateway/connectors/fb_bus/fb_bus_connector.py:568-579 | the registry of the setting's kind becomes `ReplaceSetting`, the other kind's is unchanged |
| FbBusConnector.Connector.DeleteSetting | miniserver_gateway/connectors/fb_bus/fb_bus_connector.py:583-600 | the registry of the setting's kind becomes `WithoutSetting`, the other kind's is unchanged; the device or channel configuration deletion is recorded exactly when the setting was registered |
| FbBusConnector.Connector.PropagateDeviceState | miniserver_gateway/connectors/fb_bus/fb_bus_connector.py:357-366 | records one state propagation of the device with its current state; the registries are unchanged |
| FbBusConnector.Connector.PropagateDevice | miniserver_gateway/connectors/fb_bus/fb_bus_connector.py:251-286 | records one propagation of the device with its current state; the registries are unchanged |
| FbBusDispatch.Handlers | miniserver_gateway/connectors/fb_bus/fb_bus_connector.py:222-226 | each register handler raises exactly on a reply too short for what it reads (then no value, device or call changes); the other handlers never raise; register values change only for the register packets, devices only for the state and register packets; recorded calls are only appended |
| FbBusDispatch.RegisterHandlers | miniserver_gateway/connectors/fb_bus/fb_bus_connector.py:224-226 | a READ_MULTIPLE, REPORT_SINGLE or WRITE_SINGLE packet raises exactly as its receiver does on a short payload; a report never changes a device |
| FbBusDispatch.Receive | miniserver_gateway/connectors/fb_bus/fb_bus_connector.py:191-227 | an unknown packet id raises and changes nothing; a packet from an unknown assigned address outside pairing is dropped; otherwise pairing first, then the handlers only while pairing is off; a handled packet raises exactly when its register handler finds the payload too short |
| FbBusDispatch.ReceivePacket | miniserver_gateway/connectors/fb_bus/fb_bus_connector.py:212-227 | the pairing helper's receive, then the handlers exactly when pairing is off, with the same raise cases as `Receive` |
| FbBusDispatch.HandleUnlessPairing | miniserver_gateway/connectors/fb_bus/fb_bus_connector.py:221-227 | the handlers run exactly when pairing is off, and otherwise nothing changes |
| FbBusDispatch.RegisterWithId | miniserver_gateway/connectors/fb_bus/fb_bus_connector.py:182-183 | the register with that id, None iff none has it |
| FbBusDispatch.Publish | miniserver_gateway/connectors/fb_bus/fb_bus_connector.py:181-187 | the write packet for the register with that id ("toggle" on a DO negates its value), sent only to a running device; it raises exactly when the value written to an AO register of a running device does not pack (struct.error); nothing else changes |
| FbBusDispatch.ToggleWritesOpposite | miniserver_gateway/connectors/fb_bus/fb_bus_connector.py:184-185 | "toggle" on a digital output sends the value word opposite to the one the register holds |
| FbBusPairingRequests.RoundHalfEven | miniserver_gateway/connectors/fb_bus/utilities/pairing_helper.py:576-580 | Python's `round(n / d)`: within half of d of the quotient, ties going to the even integer |
| FbBusPairingRequests.BroadcastRequest | miniserver_gateway/connectors/fb_bus/utilities/pairing_helper.py:408-418 | three bytes that decode as PAIR_DEVICE and PROVIDE_ADDRESS |
| FbBusPairingRequests.CommandRequest | miniserver_gateway/connectors/fb_bus/utilities/pairing_helper.py:446-460 | three bytes that decode as PAIR_DEVICE and the given pairing command |
| FbBusPairingRequests.SetAddressRequest | miniserver_gateway/connectors/fb_bus/utilities/pairing_helper.py:422-442 | decodes as PAIR_DEVICE and SET_ADDRESS, carries the address at byte 2 and the serial number as a text field from byte 3 |
| FbBusPairingRequests.StructureRequest | miniserver_gateway/connectors/fb_bus/utilities/pairing_helper.py:470-527 | eight bytes that decode as PAIR_DEVICE and the command, with the type code, and the start and length as big-endian words when they fit 16 bits |
| FbBusPairingRequests.RegistersStructureRequest | miniserver_gateway/connectors/fb_bus/utilities/pairing_helper.py:464-529 | a request exists exactly for an AI or AO reading pointer, and its type byte decodes back as the pointer's type |
| FbBusPairingRequests.SettingsStructureRequest | miniserver_gateway/connectors/fb_bus/utilities/pairing_helper.py:533-606 | a request exists exactly when there is a reading pointer, and its kind byte decodes back as the pointer's kind |
| FbBusPairingRequests.AfterPairingPacket | miniserver_gateway/connectors/fb_bus/utilities/pairing_helper.py:379-403 | the time is stamped and the state and address kept; a good send counts an attempt and waits for PAIR_DEVICE, a failed one clears both |
| FbBusPairingRequests.StructureLength | miniserver_gateway/connectors/fb_bus/utilities/pairing_helper.py:509-525 | the length a structure request asks for: the rest of the entries when they fit, else the count that fits |
| FbBusPairingRequests.StructureLengthBounds | miniserver_gateway/connectors/fb_bus/utilities/pairing_helper.py:501-525 | a request never asks past the end nor for more than fits, and asks for the rest exactly when it fits |
| FbBusPairingRequests.RequestsToRead | miniserver_gateway/connectors/fb_bus/utilities/pairing_helper.py:1008-1021 | reading window after window ends: the number of requests is at most the entries left and zero only when none are left |
| FbBusPairingRequests.StructureRequestDecode | miniserver_gateway/connectors/fb_bus/utilities/pairing_helper.py:470-527 | the structure request is eight bytes whose big-endian words at 3-4 and 5-6 are the start and the length |
| FbBusPairingRequests.RegistersStructureRequestShape | miniserver_gateway/connectors/fb_bus/utilities/pairing_helper.py:464-529 | the registers-structure request exists exactly for an AI or AO pointer (any other type raises) and asks for what fits |
| FbBusPairingRequests.SetAddressCarriesSerial | miniserver_gateway/connectors/fb_bus/utilities/pairing_helper.py:422-442 | SET_ADDRESS carries the address at byte 2 and the serial number, which the text helper reads back from byte 3 |
| FbBusPairingRequests.AfterPairingPacketEffect | miniserver_gateway/connectors/fb_bus/utilities/pairing_helper.py:379-403 | a good send counts an attempt and waits for PAIR_DEVICE; a failed one clears both; the time is stamped either way |
| FbBusPairingSteps.DeviceStep | miniserver_gateway/connectors/fb_bus/utilities/pairing_helper.py:195-266 | whatever `handle` sends to the pairing device is addressed to that device |
| FbBusPairingSteps.SearchStep | miniserver_gateway/connectors/fb_bus/utilities/pairing_helper.py:172-191 | after five broadcasts the search turns pairing off with the counter reset; a due broadcast counts and stamps the time; nothing else changes the counters; the pairing device is kept |
| FbBusPairingSteps.HandleStep | miniserver_gateway/connectors/fb_bus/utilities/pairing_helper.py:164-266 | `handle` never turns pairing on; a broadcast goes out only while searching and when due; a unicast goes only to the pairing device's address |
| FbBusPairingSteps.DisabledIsIdle | miniserver_gateway/connectors/fb_bus/utilities/pairing_helper.py:164-170 | with pairing off, `handle` changes nothing and sends nothing |
| FbBusPairingSteps.BroadcastsAreSpaced | miniserver_gateway/connectors/fb_bus/utilities/pairing_helper.py:172-191 | a broadcast goes out only while searching with fewer than five broadcasts, and only first or 6 s after the last |
| FbBusPairingSteps.AtMostFiveBroadcasts | miniserver_gateway/connectors/fb_bus/utilities/pairing_helper.py:172-191 | over any sequence of `handle` calls a search sends at most five broadcasts |
| FbBusPairingSteps.LostAfterFiveAttempts | miniserver_gateway/connectors/fb_bus/utilities/pairing_helper.py:204-219 | after five unanswered packets the device is LOST at that time, pairing is off with no pairing device, and nothing is sent |
| FbBusPairingSteps.SendsTheDueCommand | miniserver_gateway/connectors/fb_bus/utilities/pairing_helper.py:245-266 | what is sent is the request for the device's pairing command, unicast to its address |
| FbBusPairingSteps.WrongStateDropsDevice | miniserver_gateway/connectors/fb_bus/utilities/pairing_helper.py:221-243 | SET_ADDRESS needs a CONNECTED device (else pairing ends), every later command an INIT one (else the search restarts) |
| FbBusPairingSteps.ReceiversResetCommunication | miniserver_gateway/connectors/fb_bus/utilities/pairing_helper.py:680-1083 | every receiver leaves the device waiting for nothing with no attempts |
| FbBusPairingSteps.AddressedViewNext | miniserver_gateway/connectors/fb_bus/utilities/pairing_helper.py:662-680 | a device with no address gets SET_ADDRESS next and CONNECTED, any other the about info and INIT |
| FbBusPairingSteps.AboutInfoDecodes | miniserver_gateway/connectors/fb_bus/utilities/pairing_helper.py:742-778 | the maximum packet length is the word at bytes 2-3, each support flag is on iff its word is 0xFF00 |
| FbBusPairingSteps.DescriptionChain | miniserver_gateway/connectors/fb_bus/utilities/pairing_helper.py:788-871 | five description replies fill hardware model, manufacturer and version and firmware manufacturer and version in that order, then ask for the register sizes |
| FbBusPairingSteps.RegistersSizedNext | miniserver_gateway/connectors/fb_bus/utilities/pairing_helper.py:916-942 | after the register sizes: the structure of AI from 0, else of AO from 0, else the settings sizes or finished |
| FbBusPairingSteps.SettingsSizedNext | miniserver_gateway/connectors/fb_bus/utilities/pairing_helper.py:1062-1083 | after the setting sizes: the structure of the device settings from 0, else of the register settings, else finished |
| FbBusPairingSteps.FinishedState | miniserver_gateway/connectors/fb_bus/utilities/pairing_helper.py:1237-1262 | RUNNING iff the device reported 1, STOPPED iff 2, UNKNOWN otherwise, and no pairing command |
| FbBusPairingHelper.BuildSetAddressRequest | miniserver_gateway/connectors/fb_bus/utilities/pairing_helper.py:422-442 | the loop builds exactly the SET_ADDRESS request: header, serial characters, terminator |
| FbBusPairingHelper.PairingHelper.constructor | miniserver_gateway/connectors/fb_bus/utilities/pairing_helper.py:61-65 | pairing off, no pairing device, no attempts, no broadcast |
| FbBusPairingHelper.PairingHelper.EnablePairing | miniserver_gateway/connectors/fb_bus/utilities/pairing_helper.py:270-275 | only the enabled flag is set |
| FbBusPairingHelper.PairingHelper.DisablePairing | miniserver_gateway/connectors/fb_bus/utilities/pairing_helper.py:279-284 | only the enabled flag is cleared |
| FbBusPairingHelper.PairingHelper.IsPairingEnabled | miniserver_gateway/connectors/fb_bus/utilities/pairing_helper.py:288-291 | true iff pairing is on |
| FbBusPairingHelper.PairingHelper.Target | miniserver_gateway/connectors/fb_bus/utilities/pairing_helper.py:195-202 | the pairing device loaded from the registry is a registered device |
| FbBusPairingHelper.PairingHelper.Handle | miniserver_gateway/connectors/fb_bus/utilities/pairing_helper.py:164-266 | the new helper state, the packet sent, the raise and the device are those of `HandleStep` |
| FbBusPairingHelper.PairingHelper.Search | miniserver_gateway/connectors/fb_bus/utilities/pairing_helper.py:172-191 | the state becomes `SearchStep`; the broadcast is sent exactly when due |
| FbBusPairingHelper.PairingHelper.HandleDevice | miniserver_gateway/connectors/fb_bus/utilities/pairing_helper.py:195-266 | the state, device, packet and raise are those of `DeviceStep` |
| FbBusPairingHelper.PairingHelper.SendToDevice | miniserver_gateway/connectors/fb_bus/utilities/pairing_helper.py:379-403 | the device becomes `AfterPairingPacket` and the packet goes to its address |
| FbBusPairingHelper.PairingHelper.SendRegistersStructure | miniserver_gateway/connectors/fb_bus/utilities/pairing_helper.py:464-529 | the request of `RegistersStructureRequest` is sent; none and a raise, with the device unchanged, when there is none |
| FbBusPairingHelper.PairingHelper.SendSettingsStructure | miniserver_gateway/connectors/fb_bus/utilities/pairing_helper.py:533-606 | the request of `SettingsStructureRequest` is sent; none and a raise when there is none |
| FbBusPairingHelper.PairingHelper.DeviceAddressReceiver | miniserver_gateway/connectors/fb_bus/utilities/pairing_helper.py:617-688 | a reply from another address than it reports is dropped; the device is found by serial number or created, or pairing raises when no address is free |
| FbBusPairingHelper.PairingHelper.Adopt | miniserver_gateway/connectors/fb_bus/utilities/pairing_helper.py:662-688 | the device becomes `AddressedView` and the pairing device, with the search counters reset |
| FbBusPairingHelper.PairingHelper.AddressAcceptedReceiver | miniserver_gateway/connectors/fb_bus/utilities/pairing_helper.py:698-725 | the device moves on to the about info exactly when it confirmed its own serial number |
| FbBusPairingHelper.PairingHelper.AboutInfoReceiver | miniserver_gateway/connectors/fb_bus/utilities/pairing_helper.py:742-778 | raises, changing nothing, exactly on a reply shorter than ten bytes; else the device becomes `AboutInfoView` |
| FbBusPairingHelper.PairingHelper.DescriptionReceiver | miniserver_gateway/connectors/fb_bus/utilities/pairing_helper.py:788-871 | the device becomes `DescribedView` of the response and the text at byte 2 |
| FbBusPairingHelper.PairingHelper.ConfigureSized | miniserver_gateway/connectors/fb_bus/utilities/pairing_helper.py:895-905 | one register type configured to the size its payload byte reports; raises, changing nothing, when the byte is missing |
| FbBusPairingHelper.PairingHelper.RegistersSizeReceiver | miniserver_gateway/connectors/fb_bus/utilities/pairing_helper.py:884-944 | the four register types are configured to the reported sizes, then the device moves on as `RegistersSizedView` says |
| FbBusPairingHelper.PairingHelper.NextAfterRegistersSize | miniserver_gateway/connectors/fb_bus/utilities/pairing_helper.py:916-942 | the device becomes `RegistersSizedView` of its AI and AO counts |
| FbBusPairingHelper.PairingHelper.SettingsSizeReceiver | miniserver_gateway/connectors/fb_bus/utilities/pairing_helper.py:1038-1085 | both setting kinds are configured to the reported sizes, then the device moves on as `SettingsSizedView` says |
| FbBusPairingHelper.PairingHelper.NextAfterSettingsSize | miniserver_gateway/connectors/fb_bus/utilities/pairing_helper.py:1062-1083 | the device becomes `SettingsSizedView` of its setting counts |
| FbBusPairingHelper.PairingHelper.FinishedReceiver | miniserver_gateway/connectors/fb_bus/utilities/pairing_helper.py:1237-1262 | pairing ends first; raises exactly on a reply shorter than three bytes; else the device becomes `FinishedView` and its propagation is recorded |
| FbBusPairingHelper.PairingHelper.Receive | miniserver_gateway/connectors/fb_bus/utilities/pairing_helper.py:69-160 | a PAIR_DEVICE packet goes to the receiver its response names; other packets are ignored; a reply naming no response raises |
| FbBusPairingHelper.PairingHelper.ReceiveFrom | miniserver_gateway/connectors/fb_bus/utilities/pairing_helper.py:100-160 | each response reaches its own receiver for the device at the sender's address |
| FbBusPairingHelper.PairingHelper.StructureReceiver | miniserver_gateway/connectors/fb_bus/utilities/pairing_helper.py:959-1227 | the registers-structure reply touches no setting and the settings-structure reply no register; each raises, stores data types, sizes and settings and moves the device on exactly as `RegistersReply` (the window-bounded loop) and `SettingsReply` state |
| FbBusPairingStructure.AddressesOf | miniserver_gateway/connectors/fb_bus/utilities/pairing_helper.py:988-992 | the addresses at which the register lookup of the loop finds a register |
| FbBusPairingStructure.StepTypes | miniserver_gateway/connectors/fb_bus/utilities/pairing_helper.py:988-1003 | one address of the loop stores at most one data type, at that address, on an existing register, and nothing when it raises |
| FbBusPairingStructure.ScanTypesWrites | miniserver_gateway/connectors/fb_bus/utilities/pairing_helper.py:988-1003 | the loop stores only on existing registers of the window, each address once, in increasing order |
| FbBusPairingStructure.StoreTypeAt | miniserver_gateway/connectors/fb_bus/utilities/pairing_helper.py:990-1003 | one iteration stores on each register what `StepTypes` says |
| FbBusPairingStructure.StoreRegisterTypes | miniserver_gateway/connectors/fb_bus/utilities/pairing_helper.py:986-1003 | the loop raises exactly as `ScanTypes` says, and every register holds the type and size the scan's writes give it |
| FbBusPairingStructure.AdvanceRegisters | miniserver_gateway/connectors/fb_bus/utilities/pairing_helper.py:1006-1027 | the device becomes `RegistersStructuredView` of the window read |
| FbBusPairingStructure.TypedRegistersReply | miniserver_gateway/connectors/fb_bus/utilities/pairing_helper.py:980-1027 | nothing happens without registers of the type; else the scan's writes are stored and, unless it raised, the reading pointer moves on |
| FbBusPairingStructure.RegistersReplyAsWritten | miniserver_gateway/connectors/fb_bus/utilities/pairing_helper.py:959-1027 | the receiver with the loop bound as written (the payload length): a short header raises, an unknown type or a device without registers of the type changes nothing; otherwise it raises exactly when the scan to the payload length does, stores that scan's data types and sizes, and moves the reading pointer unless it raised |
| FbBusPairingStructure.RegistersReply | miniserver_gateway/connectors/fb_bus/utilities/pairing_helper.py:959-1027 | the receiver with the loop bounded by the announced window; same header cases |
| FbBusPairingStructure.WindowScanNeverRaises | miniserver_gateway/connectors/fb_bus/utilities/pairing_helper.py:986-1003 | a reply with one byte per address of the window never raises |
| FbBusPairingStructure.WindowScanStoresEachByte | miniserver_gateway/connectors/fb_bus/utilities/pairing_helper.py:986-1003 | bounded by the window, each register of the window takes the data type its byte names |
| FbBusPairingStructure.AsWrittenRaisesOnFirstWindow | miniserver_gateway/connectors/fb_bus/utilities/pairing_helper.py:988 | a complete ten-byte reply for the first window of four AI registers makes the loop as written raise, while the bounded loop stores both types |
| FbBusPairingStructure.RegistersStructuredNext | miniserver_gateway/connectors/fb_bus/utilities/pairing_helper.py:1006-1025 | registers left: the reading pointer moves past the window; after the last AI window the AO registers from 0; after all, the settings sizes |
| FbBusPairingStructure.EntryTableReads | miniserver_gateway/connectors/fb_bus/utilities/pairing_helper.py:1133-1197 | the entry table holds what the loop reads at each byte, and raises past the end |
| FbBusPairingStructure.EntryWrites | miniserver_gateway/connectors/fb_bus/utilities/pairing_helper.py:1142-1186 | an entry stores at most once, at its own address |
| FbBusPairingStructure.SettingAddresses | miniserver_gateway/connectors/fb_bus/utilities/pairing_helper.py:1136-1164 | the addresses at which the setting lookup of the loop finds a setting |
| FbBusPairingStructure.StoreEntry | miniserver_gateway/connectors/fb_bus/utilities/pairing_helper.py:1142-1186 | an entry read whole is stored on the setting (data type, name, and the register link for register settings); otherwise nothing changes |
| FbBusPairingStructure.StoreSettingAt | miniserver_gateway/connectors/fb_bus/utilities/pairing_helper.py:1134-1197 | one iteration looks the setting up and stores the entry of `StepEntry` |
| FbBusPairingStructure.ScanStep | miniserver_gateway/connectors/fb_bus/utilities/pairing_helper.py:1133-1203 | one iteration with its account: the entry is stored, the counter and byte pointer move on |
| FbBusPairingStructure.StoreSettings | miniserver_gateway/connectors/fb_bus/utilities/pairing_helper.py:1129-1203 | the counter, the raise and the stored settings are those of `ScanSettings` |
| FbBusPairingStructure.AdvanceSettings | miniserver_gateway/connectors/fb_bus/utilities/pairing_helper.py:1206-1227 | the device becomes `SettingsStructuredView` of the entries counted |
| FbBusPairingStructure.SettingsReply | miniserver_gateway/connectors/fb_bus/utilities/pairing_helper.py:1100-1227 | a short header raises, an unknown kind or a device without settings of it changes nothing, otherwise the scan is stored and the reading pointer advances |
| FbBusPairingStructure.SettingsStructuredNext | miniserver_gateway/connectors/fb_bus/utilities/pairing_helper.py:1206-1225 | settings left: the reading pointer moves past the entries counted; after the device settings the register settings from 0; after all, finished |
| FbBusPairingConfigure.ConfiguredSize | miniserver_gateway/connectors/fb_bus/utilities/pairing_helper.py:301-331 | a configured register's size is that of BOOL (DI, DO) or UNKNOWN (AI, AO), whatever it was |
| FbBusPairingConfigure.ConfigureFound | miniserver_gateway/connectors/fb_bus/utilities/pairing_helper.py:316-323 | a register found at the address takes the starting data type |
| FbBusPairingConfigure.ConfigureMissing | miniserver_gateway/connectors/fb_bus/utilities/pairing_helper.py:325-331 | a register is created at an address where none is found |
| FbBusPairingConfigure.ConfigureAddresses | miniserver_gateway/connectors/fb_bus/utilities/pairing_helper.py:309-331 | every address below the size has a register of the type with the starting data type, found or created |
| FbBusPairingConfigure.DeleteRegistersFrom | miniserver_gateway/connectors/fb_bus/utilities/pairing_helper.py:333-342 | the register found at each address of the range is deleted; with unique addresses none is left there |
| FbBusPairingConfigure.ConfigureRegisters | miniserver_gateway/connectors/fb_bus/utilities/pairing_helper.py:295-342 | every address below the size holds a configured register; other devices' and types' registers are kept; new ones sit below the size; unique addresses stay unique; numbered registers end below the size |
| FbBusPairingConfigure.ConfigureSettingAddresses | miniserver_gateway/connectors/fb_bus/utilities/pairing_helper.py:352-364 | every address below the size has a setting, found or created |
| FbBusPairingConfigure.DeleteSettingsFrom | miniserver_gateway/connectors/fb_bus/utilities/pairing_helper.py:366-375 | the setting found at each address of the range is deleted |
| FbBusPairingConfigure.ConfigureSettings | miniserver_gateway/connectors/fb_bus/utilities/pairing_helper.py:346-375 | every address below the size holds a setting in the registry of the kind; the other registry and other devices' settings are kept; numbered settings end below the size |
| FbBusReadingHandler.NextReadingType | miniserver_gateway/connectors/fb_bus/handlers/reading_handler.py:97-155 | the reading pointer moves to the next type in DI, DO, AI, AO order that has registers, skipping empty ones; None exactly when none is left |
| FbBusReadingHandler.ReadLength | miniserver_gateway/connectors/fb_bus/handlers/reading_handler.py:234-247 | the read length is the rest of the registers or the capacity, whichever is smaller |
| FbBusReadingHandler.ReadTypeChoice | miniserver_gateway/connectors/fb_bus/handlers/reading_handler.py:282-322 | the type read has registers and is the reading pointer's type, or without a reading pointer the first type that has registers; None exactly when no matching type has registers |
| FbBusReadingHandler.RequestBytes | miniserver_gateway/connectors/fb_bus/handlers/reading_handler.py:202-256 | the READ_MULTIPLE request is seven bytes: packet, register type, start, length, terminator |
| FbBusReadingHandler.RequestBytesDecode | miniserver_gateway/connectors/fb_bus/handlers/reading_handler.py:202-256 | the request's words at 2-3 and 4-5 read back as the start and the length |
| FbBusReadingHandler.RequestWithinRegisters | miniserver_gateway/connectors/fb_bus/handlers/reading_handler.py:192-251 | a request reads a non-empty window inside the registers and within the packet's capacity |
| FbBusReadingHandler.ReadingPointerProgress | miniserver_gateway/connectors/fb_bus/handlers/reading_handler.py:258-272 | after a sent request the reading pointer is past the window read, or on the next type when the window reached the end |
| FbBusReadingHandler.RequestOnlyWhenDue | miniserver_gateway/connectors/fb_bus/handlers/reading_handler.py:74-93 | a request goes out only to a running device whose sampling time passed, counts an attempt and waits for READ_MULTIPLE |
| FbBusReadingHandler.BitsTaken | miniserver_gateway/connectors/fb_bus/handlers/reading_handler.py:377-392 | one data byte gives between one and eight registers their bit |
| FbBusReadingHandler.DigitalAddressesIncrease | miniserver_gateway/connectors/fb_bus/handlers/reading_handler.py:365-394 | the digital loop writes strictly increasing addresses from the start |
| FbBusReadingHandler.AnalogAddressesIncrease | miniserver_gateway/connectors/fb_bus/handlers/reading_handler.py:400-428 | the analog loop writes increasing addresses, each from four bytes that lie before the terminator |
| FbBusReadingHandler.DigitalWriteOfAddress | miniserver_gateway/connectors/fb_bus/handlers/reading_handler.py:371-394 | every address of the reply below the register count gets bit `(a - start) % 8` of its byte |
| FbBusReadingHandler.ValueAfterOtherRegister | miniserver_gateway/connectors/fb_bus/handlers/reading_handler.py:378-387 | a reply for one device and type leaves every other register's value alone |
| FbBusReadingHandler.DigitalReplySetsBit | miniserver_gateway/connectors/fb_bus/handlers/reading_handler.py:371-394 | a digital register in the reply ends with the boolean of its bit |
| FbBusReadingHandler.AnalogReplySetsWord | miniserver_gateway/connectors/fb_bus/handlers/reading_handler.py:404-428 | an analog register in the reply ends with the value its four bytes decode to, or keeps its value when they do not decode |
| FbBusReadingHandler.Handle | miniserver_gateway/connectors/fb_bus/handlers/reading_handler.py:74-93 | the device becomes `HandleView` and the packet sent is that of `HandleRequest` |
| FbBusReadingHandler.ReadHandler | miniserver_gateway/connectors/fb_bus/handlers/reading_handler.py:282-322 | with no type to read nothing changes; else the planned request of the chosen type is sent |
| FbBusReadingHandler.ReadMultiple | miniserver_gateway/connectors/fb_bus/handlers/reading_handler.py:159-278 | the packet is that of `PlannedRequest`; the device becomes `AfterRequest` when there is one and is unchanged otherwise |
| FbBusReadingHandler.RequestSent | miniserver_gateway/connectors/fb_bus/handlers/reading_handler.py:260-272 | a successful send: waiting for the reply, an attempt counted, the reading pointer moved on |
| FbBusReadingHandler.UpdateReadingPointer | miniserver_gateway/connectors/fb_bus/handlers/reading_handler.py:97-155 | the device becomes `AdvancedPointer`: the next type with registers from 0, or the reading pointer reset |
| FbBusReadingHandler.ReceiveReadMultiple | miniserver_gateway/connectors/fb_bus/handlers/reading_handler.py:335-433 | only the device at the sender's address changes; it raises exactly for a known sender and a reply too short for its header, and an unknown sender or invalid type changes nothing; else each value of the reply is stored through `update_register_value`, the storage calls are recorded in order, and the communication is reset |
| FbBusReadingHandler.StoreReply | miniserver_gateway/connectors/fb_bus/handlers/reading_handler.py:356-433 | every register holds what the reply's writes give it, the storage calls of those writes are recorded in order, and the device's communication is reset |
| FbBusReadingHandler.StoreWrite | miniserver_gateway/connectors/fb_bus/handlers/reading_handler.py:378-387 | one write is stored through `update_register_value` on the register the lookup finds at its address, with its storage call recorded |
| FbBusReadingHandler.ReadDigital | miniserver_gateway/connectors/fb_bus/handlers/reading_handler.py:365-394 | the outer digital loop stores `DigitalWrites` and records their storage calls |
| FbBusReadingHandler.ReadByte | miniserver_gateway/connectors/fb_bus/handlers/reading_handler.py:373-392 | the inner loop stores the byte's bits on as many registers as `BitsTaken`, records their storage calls and moves the address on by that many |
| FbBusReadingHandler.ReadAnalog | miniserver_gateway/connectors/fb_bus/handlers/reading_handler.py:400-428 | the analog loop stores `AnalogWrites` and records their storage calls |
| FbBusReadingHandler.StoreNext | miniserver_gateway/connectors/fb_bus/handlers/reading_handler.py:378-387 | one more write above the ones done extends both the stored values and the recorded storage calls to the longer sequence of writes |
| FbBusWritingHandler.DigitalEchoRoundTrip | miniserver_gateway/connectors/fb_bus/handlers/writing_handler.py:101-195 | the device's echo of a DO write reads back as the truthiness of the value written |
| FbBusWritingHandler.AnalogEchoRoundTrip | miniserver_gateway/connectors/fb_bus/handlers/writing_handler.py:111-208 | the echo of an integer AO write reads back as the integer written |
| FbBusWritingHandler.WriteRequestOnlyForOutputs | miniserver_gateway/connectors/fb_bus/handlers/writing_handler.py:94-129 | a write request exists exactly for DO, and for AO when the value packs to four bytes; the write raises exactly for an AO integer type with a non-integer or out-of-range value, and then no request exists |
| FbBusWritingHandler.WriteValueToRegister | miniserver_gateway/connectors/fb_bus/handlers/writing_handler.py:77-150 | the request goes only to a running device; it counts an attempt and waits for the reply, or clears the communication when the send failed; a value `struct.pack` refuses raises before any change |
| FbBusWritingHandler.ReceiveWriteSingle | miniserver_gateway/connectors/fb_bus/handlers/writing_handler.py:162-213 | raises exactly for a known sender and an echo too short for what it reads, changing nothing; else the register at the echoed address takes the echoed value through `update_register_value`, its storage call is recorded, and the device's communication is reset |
| FbBusWritingHandler.StoreEcho | miniserver_gateway/connectors/fb_bus/handlers/writing_handler.py:181-213 | raises exactly when a register is found and the echo is shorter than its type needs; otherwise the echoed value is stored and forwarded, and the communication is reset |
| FbBusReportingHandler.ReportedValue | miniserver_gateway/connectors/fb_bus/handlers/reporting_handler.py:74-105 | only DI and AI reports carry a value; a DI value is on iff the word is 0xFF00 |
| FbBusReportingHandler.ReportTarget | miniserver_gateway/connectors/fb_bus/handlers/reporting_handler.py:74-86 | the register reported is the device's register of the reported type at the reported address |
| FbBusReportingHandler.ReportsOnlyInputs | miniserver_gateway/connectors/fb_bus/handlers/reporting_handler.py:88-105 | a report for an output register stores nothing |
| FbBusReportingHandler.AnalogReportRoundTrip | miniserver_gateway/connectors/fb_bus/handlers/reporting_handler.py:95-105 | an AI report of a packed integer decodes to that integer |
| FbBusReportingHandler.ReceiveReport | miniserver_gateway/connectors/fb_bus/handlers/reporting_handler.py:50-105 | raises exactly for a known sender and a report too short for what it reads, changing nothing; else only the reported register takes the reported value through `update_register_value`, with its storage call recorded; every other register keeps its value |
| FbBusCheckingHandler.MaxAttemptsMarksLost | miniserver_gateway/connectors/fb_bus/handlers/checking_handler.py:83-96 | five unanswered packets make the device LOST at that time, and no probe is sent |
| FbBusCheckingHandler.FewAttemptsKeepState | miniserver_gateway/connectors/fb_bus/handlers/checking_handler.py:99-108 | below five attempts the state is kept; a ping goes out iff lost for the ping delay since loss and since the last packet; a state request iff UNKNOWN |
| FbBusCheckingHandler.PingAtMostOncePerDelay | miniserver_gateway/connectors/fb_bus/handlers/checking_handler.py:99-144 | after a ping, no other ping within the ping delay |
| FbBusCheckingHandler.PongThenStateRequest | miniserver_gateway/connectors/fb_bus/handlers/checking_handler.py:186-201 | a device that answered the ping is asked its state next |
| FbBusCheckingHandler.ProbesMatchState | miniserver_gateway/connectors/fb_bus/handlers/checking_handler.py:99-108 | pings go only to LOST devices, state requests only to UNKNOWN ones |
| FbBusCheckingHandler.ProbeFor | miniserver_gateway/connectors/fb_bus/handlers/checking_handler.py:83-108 | a ping goes only to a device that is or becomes LOST and has been silent for the ping delay; a state request exactly to an UNKNOWN device below five attempts |
| FbBusCheckingHandler.CheckView | miniserver_gateway/connectors/fb_bus/handlers/checking_handler.py:83-108 | the state changes only by the lost check, at most one attempt is added, and a sent probe stamps the time |
| FbBusCheckingHandler.Handle | miniserver_gateway/connectors/fb_bus/handlers/checking_handler.py:78-108 | the device becomes `CheckView` and the packet sent is the probe of `ProbeFor`; a device marked LOST has its state propagation recorded |
| FbBusCheckingHandler.SendPing | miniserver_gateway/connectors/fb_bus/handlers/checking_handler.py:112-144 | PING is sent; the device waits for PONG only if the send succeeded, and the time and the attempt count either way |
| FbBusCheckingHandler.SendGetState | miniserver_gateway/connectors/fb_bus/handlers/checking_handler.py:148-178 | GET_STATE is sent after the attempt, the awaited reply and the time are recorded; a failed send clears the communication state |
| FbBusCheckingHandler.Receive | miniserver_gateway/connectors/fb_bus/handlers/checking_handler.py:53-290 | only the device at the sender's address changes, as `ReceivedView` says, and a state change is recorded as a state propagation |
| FbBusCheckingHandler.ReceiveFrom | miniserver_gateway/connectors/fb_bus/handlers/checking_handler.py:186-290 | the device becomes `ReceivedView` of the packet, and the state propagation is recorded exactly when the packet changes the state |
| FbBusCheckingHandler.StateReplyStates | miniserver_gateway/connectors/fb_bus/handlers/checking_handler.py:210-290 | a state reply gives RUNNING iff it reports running, STOPPED iff stopped, UNKNOWN otherwise |
| PropertyCache.StripIdempotent | miniserver_gateway/db/cache.py:139 | `str.strip()` applied to its own result changes nothing |
| PropertyCache.JoinSplit | miniserver_gateway/db/cache.py:127 | joining the pieces of `str.split(sep)` with `sep` gives back the original format string |
| PropertyCache.SplitJoin | miniserver_gateway/db/cache.py:139 | splitting a join of separator-free pieces gives back exactly those pieces |
| PropertyCache.ParseIntText | miniserver_gateway/db/cache.py:129-130 | `int()` reads an integer's decimal text back as the same integer |
| PropertyCache.NoFormat | miniserver_gateway/db/cache.py:121-141 | a property with no format string, or whose type is not INT, FLOAT or ENUM, has format None |
| PropertyCache.IntFormat | miniserver_gateway/db/cache.py:126-130 | the integer branch never yields float bounds, and a range it yields has min <= max |
| PropertyCache.EnumFormat | miniserver_gateway/db/cache.py:138-139 | every stripped ','-piece of the format is an item, so there is always at least one |
| PropertyCache.GetFormat | miniserver_gateway/db/cache.py:121-141 | float bounds only for FLOAT, a raise only for INT, an integer range only for INT and ordered, enum items only for ENUM |
| PropertyCache.IntFormatRange | miniserver_gateway/db/cache.py:126-130 | an INT property formatted "min:max" gets the range (min, max) when min <= max, and None otherwise; anything after a second colon is ignored |
| PropertyCache.IntFormatSingle | miniserver_gateway/db/cache.py:126-130 | an INT format without a colon gives format None |
| PropertyCache.IntFormatRaises | miniserver_gateway/db/cache.py:126-129 | an INT format whose lower bound is not an integer makes `int` raise ValueError |
| PropertyCache.EnumFormatItems | miniserver_gateway/db/cache.py:138-139 | an ENUM format "a,b,c" gives the set of the stripped names |
| PropertyCache.ToArray | miniserver_gateway/db/cache.py:145-164 | the dictionary has exactly the item's fields under the source's key names; data_type is None exactly when the item has no type, and otherwise it is the enum value of that type |
| PropertyCache.ItemWithId | miniserver_gateway/db/cache.py:214-225 | returns an item that has the id, or None exactly when no item has it |
| PropertyCache.ItemWithIdIsTheItem | miniserver_gateway/db/cache.py:214-225 | when ids are distinct, looking up an item's id returns that item |
| PropertyCache.ItemWithKey | miniserver_gateway/db/cache.py:229-241 | returns an item whose key matches, or None exactly when no item's key matches |
| PropertyCache.ItemWithKeyIsFirst | miniserver_gateway/db/cache.py:229-241 | when several items match the key, the first in load order is returned |
| PropertyCache.FindByKey | miniserver_gateway/db/cache.py:234-236 | the loop over the cached items returns what the key lookup specifies |
| PropertyCache.PropertiesRepository.constructor | miniserver_gateway/db/cache.py:209-252 | a new repository has rows with distinct ids and an empty cache |
| PropertyCache.PropertiesRepository.Initialize | miniserver_gateway/db/cache.py:257-295 | `initialize` loads every row of the table into the cache |
| PropertyCache.PropertiesRepository.GetPropertyById | miniserver_gateway/db/cache.py:214-225 | loads the cache when it is empty, then returns the id lookup on the loaded items |
| PropertyCache.PropertiesRepository.GetPropertyByKey | miniserver_gateway/db/cache.py:229-241 | loads the cache when it is empty, then returns the key lookup on the loaded items |
| PropertyCache.PropertiesRepository.ClearCache | miniserver_gateway/db/cache.py:245-246 | empties the cache; the next lookup reloads the table |
| RedisStorage.Read | miniserver_gateway/storages/redis.py:218-267 | a cached record is returned as it is; a missing key gives None; a stored object with the three fields is returned normalised and cached; an object missing one of them is deleted and gives None; an array or string that passes the field tests raises without a delete, one that fails them is deleted; any other entry is deleted and then raises; a record is never returned together with a raise |
| RedisStorage.ValueWriteSkipped | miniserver_gateway/storages/redis.py:111-158 | a value write is skipped exactly when the stored value is set, equals the new value and is not pending |
| RedisStorage.ValueRecord | miniserver_gateway/storages/redis.py:120-141 | a written value record holds the new value; it is pending only with the stored expected value, which the new value does not meet; otherwise nothing is expected |
| RedisStorage.ValueWriteContents | miniserver_gateway/storages/redis.py:111-158 | a written value record keeps a differing expected value and marks it pending; otherwise it clears the expected value and the pending flag |
| RedisStorage.ValueWriteIdempotent | miniserver_gateway/storages/redis.py:111-158 | writing the same non-null value a second time is skipped or rewrites the same record |
| RedisStorage.ExpectedThenValue | miniserver_gateway/storages/redis.py:111-190 | after an expected value is written, a value equal to it clears the pending state, and a different value keeps it pending |
| RedisStorage.ExpectedWriteSkipped | miniserver_gateway/storages/redis.py:162-190 | an expected write is skipped exactly when the stored value is set and already equals it |
| RedisStorage.ExpectedRecord | miniserver_gateway/storages/redis.py:171-177 | a written expected record holds the new expected value, pending, and keeps the stored value; nothing is written only when a value is stored |
| RedisStorage.ExpectedWriteContents | miniserver_gateway/storages/redis.py:162-190 | a written expected record keeps the stored value, sets the expected value and marks it pending |
| RedisStorage.WrittenRecordReadsBack | miniserver_gateway/storages/redis.py:111-267 | a record written to Redis reads back, with an empty cache, as the same record normalised, without raising |
| RedisStorage.RedisStorage.constructor | miniserver_gateway/storages/redis.py:92-97 | a new storage has the given Redis contents and an empty cache |
| RedisStorage.RedisStorage.ClearCache | miniserver_gateway/storages/redis.py:106-107 | empties the local cache |
| RedisStorage.RedisStorage.ReadPropertyData | miniserver_gateway/storages/redis.py:218-267 | the read and its effect on Redis and on the cache are those of `Read` |
| RedisStorage.RedisStorage.ReadPropertyValue | miniserver_gateway/storages/redis.py:194-202 | returns the read record's value, or None when nothing was read |
| RedisStorage.RedisStorage.ReadPropertyExpected | miniserver_gateway/storages/redis.py:206-214 | returns the read record's expected value, or None when nothing was read |
| RedisStorage.RedisStorage.WritePropertyValue | miniserver_gateway/storages/redis.py:111-158 | stores and caches the value record exactly when the read did not raise, the write is not skipped and Redis accepted the `set` |
| RedisStorage.RedisStorage.WritePropertyExpected | miniserver_gateway/storages/redis.py:162-190 | stores and caches the expected record exactly when the read did not raise, the write is not skipped and Redis accepted the `set` |
| ConnectorQueue.Attributes | miniserver_gateway/connectors/queue.py:41-93 | a device item's attributes are its keyword arguments with "state" overridden by its state; any other item's attributes are its arguments as given |
| ConnectorQueue.Key | miniserver_gateway/connectors/queue.py:140-144 | a property item's key is the "key" argument when one was given; otherwise it is an entity key that decodes to the current time in microseconds |
| Connectors.ClassByType | miniserver_gateway/connectors/connectors.py:86-91 | a class is found only when a configured connector has the requested type |
| Connectors.ClassByTypeFirst | miniserver_gateway/connectors/connectors.py:86-91 | the first connector of the type decides: its "class" entry, or None when it has none |
| Connectors.ClassByTypeMissing | miniserver_gateway/connectors/connectors.py:86-91 | no connector of the type gives None |
| Connectors.Entity.constructor | miniserver_gateway/connectors/connectors.py:755-771 | an entity holds the given attributes |
| Connectors.ChangesAgree | miniserver_gateway/connectors/connectors.py:755-771 | after the update, attributes outside the allow-list are unchanged, every allowed argument's value equals what was passed, and an update without changes leaves the entity as it was |
| Connectors.ChangesIdempotent | miniserver_gateway/connectors/connectors.py:755-771 | repeating the same update finds nothing to change |
| Connectors.UpdateEntity | miniserver_gateway/connectors/connectors.py:755-771 | the entity gets exactly the allowed, differing arguments, and True is returned exactly when there were any |
| Connectors.UpdateDeviceEntity | miniserver_gateway/connectors/connectors.py:696-707 | the update with the device allow-list |
| Connectors.UpdateChannelPropertyEntity | miniserver_gateway/connectors/connectors.py:711-722 | the update with the channel-property allow-list |
| Connectors.UpdateConfigurationEntity | miniserver_gateway/connectors/connectors.py:726-750 | the update with the configuration allow-list, which both configuration updates share |
| Connectors.DeviceUpdateKeepsIdentity | miniserver_gateway/connectors/connectors.py:696-707 | a device update never changes the device's identifier or key |
| Connectors.ForwardedExpected | miniserver_gateway/connectors/connectors.py:619-635 | "toggle" for a boolean property is forwarded as it is, and every other expected value is normalised |
| Connectors.CallsTo | miniserver_gateway/connectors/connectors.py:630-635 | one publish call per loaded connector, in order, each with the property id and the value |
| Connectors.CallsReachEachConnector | miniserver_gateway/connectors/connectors.py:630-635 | each loaded connector gets the expected value exactly once |
| Connectors.ConnectorsContainer.constructor | miniserver_gateway/connectors/connectors.py:114-134 | a new container has the loaded connectors, an empty queue and no calls |
| Connectors.ConnectorsContainer.AddOrEditDevice | miniserver_gateway/connectors/connectors.py:218-240 | queues one device create-or-update item with the given arguments |
| Connectors.ConnectorsContainer.AddOrEditDeviceConfiguration | miniserver_gateway/connectors/connectors.py:244-266 | queues one device-configuration create-or-update item |
| Connectors.ConnectorsContainer.DeleteDeviceConfigurationItem | miniserver_gateway/connectors/connectors.py:270-279 | queues one device-configuration delete item |
| Connectors.ConnectorsContainer.AddOrEditChannelProperty | miniserver_gateway/connectors/connectors.py:283-307 | queues one channel-property create-or-update item |
| Connectors.ConnectorsContainer.DeleteChannelPropertyItem | miniserver_gateway/connectors/connectors.py:311-318 | queues one channel-property delete item |
| Connectors.ConnectorsContainer.AddOrEditChannelConfiguration | miniserver_gateway/connectors/connectors.py:322-346 | queues one channel-configuration create-or-update item |
| Connectors.ConnectorsContainer.DeleteChannelConfigurationItem | miniserver_gateway/connectors/connectors.py:350-359 | queues one channel-configuration delete item |
| Connectors.ConnectorsContainer.PublishStorageValueEvent | miniserver_gateway/connectors/connectors.py:417-422 | queues an expected-value item only when the stored expected value is not None |
| Connectors.ConnectorsContainer.PublishTriggerValueEvent | miniserver_gateway/connectors/connectors.py:426-427 | queues one expected-value item |
| Connectors.ConnectorsContainer.PublishValueEvent | miniserver_gateway/connectors/connectors.py:431-442 | queues one expected-value item |
| Connectors.ConnectorsContainer.ProcessPropertyExpectedRecord | miniserver_gateway/connectors/connectors.py:619-635 | every loaded connector is called, in order, with the forwarded expected value |
| Connectors.SendPropertyToStorage | miniserver_gateway/connectors/connectors.py:364-413 | a known property gives an event with both values normalised, and an unknown property gives no event |
| ExchangeRouting.EntityKey | miniserver_gateway/exchanges/types.py:30-95 | every entity key is "fb.bus.entity.", then the action, a dot and the entity |
| ExchangeRouting.KindNameInjective | miniserver_gateway/exchanges/types.py:30-95 | distinct entities have distinct key segments |
| ExchangeRouting.ActionNameInjective | miniserver_gateway/exchanges/types.py:30-95 | distinct actions have distinct key segments |
| ExchangeRouting.EntityKeysDistinct | miniserver_gateway/exchanges/types.py:30-95 | no two (action, entity) pairs share a routing key |
| ExchangeRouting.DataKeysAreNotEntityKeys | miniserver_gateway/exchanges/types.py:49-82 | the two property-data keys differ from each other and from every entity key |
| ExchangeRouting.InTableOrder | miniserver_gateway/exchanges/utils.py:44-74 | each of the six entity classes has a table entry |
| ExchangeRouting.FirstBase | miniserver_gateway/exchanges/utils.py:77-93 | the class found is one the class derives from; when none is found, it derives from no entry |
| ExchangeRouting.EntityRoutingKey | miniserver_gateway/exchanges/utils.py:77-93 | a key found is the requested action's key of a class the entity derives from; none is found only when it derives from no table entry |
| ExchangeRouting.TabledClassKey | miniserver_gateway/exchanges/utils.py:44-93 | each of the six classes gets its own key for every action |
| ExchangeRouting.UntabledClassKey | miniserver_gateway/exchanges/utils.py:77-93 | a class outside the tables has no key |
| ExchangeRouting.FirstBaseWins | miniserver_gateway/exchanges/utils.py:77-93 | a class that derives from several entries gets the key of the earliest entry in table order |
| ExchangeRouting.RoutingKeyOfBase | miniserver_gateway/exchanges/utils.py:77-93 | a key is found exactly when the class derives from a table entry, and the key belongs to the requested action and to such an entry |
| Exchanges.OwnOriginRefused | miniserver_gateway/exchanges/exchanges.py:247-304 | a message with the gateway's own origin is refused |
| Exchanges.WellFormed | miniserver_gateway/exchanges/exchanges.py:179-188 | a well-formed message has all three fields |
| Exchanges.ProcessMessage | miniserver_gateway/exchanges/exchanges.py:247-304 | raises exactly on data from elsewhere on a data key that is present but not an object; an event is dispatched exactly when accepted, and only from elsewhere on a data key with object data |
| Exchanges.ProcessReceived | miniserver_gateway/exchanges/exchanges.py:170-199 | undecodable text never raises; an accepted message is a well-formed object and dispatches an event |
| Exchanges.OnlyDataKeysAccepted | miniserver_gateway/exchanges/exchanges.py:170-304 | an accepted message is a well-formed object, carries one of the two data keys and has a foreign origin |
| Exchanges.AcceptedIffFound | miniserver_gateway/exchanges/exchanges.py:247-304 | a data message from elsewhere is accepted exactly when its "property" names a cached property; exactly then an event is dispatched |
| Exchanges.RefusedOrRaised | miniserver_gateway/exchanges/exchanges.py:170-199 | an undecodable message, or an object without the three string fields, is refused; valid JSON that is not an object raises |
| Exchanges.CallsTo | miniserver_gateway/exchanges/exchanges.py:308-341 | one publish call per loaded exchange, in order, with the same key and content |
| Exchanges.CallsReachEachExchange | miniserver_gateway/exchanges/exchanges.py:308-341 | each loaded exchange is called exactly once |
| Exchanges.PropertyUpdatedKeysDiffer | miniserver_gateway/exchanges/exchanges.py:308-330 | a device property and a channel property are published under the two distinct "updated" keys of their entity classes |
| Exchanges.PropertyValueContent | miniserver_gateway/exchanges/exchanges.py:308-330 | the published content is the item's dictionary plus "value", "expected" and "pending" |
| Exchanges.ExchangesContainer.constructor | miniserver_gateway/exchanges/exchanges.py:90-111 | a new container has the loaded exchanges, an empty queue and no calls |
| Exchanges.ExchangesContainer.PublishStoredValue | miniserver_gateway/exchanges/exchanges.py:203-222 | queues one property-value item |
| Exchanges.ExchangesContainer.PublishChangedEntity | miniserver_gateway/exchanges/exchanges.py:226-242 | queues an entity item only when the entity's class has a routing key |
| Exchanges.ExchangesContainer.ProcessPropertyValueRecord | miniserver_gateway/exchanges/exchanges.py:308-330 | every exchange gets the property's content under its "updated" key |
| Exchanges.ExchangesContainer.ProcessEntityRecord | miniserver_gateway/exchanges/exchanges.py:334-341 | every exchange gets the entity's content under its key |
| Exchanges.ExchangesContainer.PublishToAll | miniserver_gateway/exchanges/exchanges.py:308-341 | the loop calls every exchange in order |
| Exchanges.ExchangesContainer.ProcessReceivedMessage | miniserver_gateway/exchanges/exchanges.py:170-304 | the outcome is the acceptance rule over the loaded property caches; the cache contents are unchanged |
| WampExchange.Subscribed | miniserver_gateway/exchanges/wamp.py:159-167 | the client becomes a subscriber, nobody else is added or removed, and the subscribers stay distinct |
| WampExchange.Unsubscribed | miniserver_gateway/exchanges/wamp.py:171-179 | the client is removed and every other subscriber stays; removing an absent client changes nothing |
| WampExchange.UnsubscribedDistinct | miniserver_gateway/exchanges/wamp.py:171-179 | the subscribers stay distinct |
| WampExchange.SubscribeIdempotent | miniserver_gateway/exchanges/wamp.py:159-167 | subscribing twice is the same as subscribing once |
| WampExchange.SubscribeThenUnsubscribe | miniserver_gateway/exchanges/wamp.py:159-179 | unsubscribing a client that has just subscribed restores the previous subscribers |
| WampExchange.EventsFor | miniserver_gateway/exchanges/wamp.py:88-110 | one event per subscriber, in subscription order |
| WampExchange.EachSubscriberOnce | miniserver_gateway/exchanges/wamp.py:88-110 | every subscriber gets exactly one event and non-subscribers get none |
| WampExchange.EchoRefused | miniserver_gateway/exchanges/wamp.py:88-155 | an event the gateway published, when a client sends it back, is refused as the gateway's own |
| WampExchange.Reply | miniserver_gateway/exchanges/wamp.py:114-155 | the reply is a call result exactly when the message was accepted, otherwise a call error, and it echoes the call id |
| WampExchange.WampExchanger.constructor | miniserver_gateway/exchanges/wamp.py:55-67 | a new exchange has no subscribers and has sent nothing |
| WampExchange.WampExchanger.Subscribe | miniserver_gateway/exchanges/wamp.py:159-167 | the subscribers become `Subscribed` of the old ones |
| WampExchange.WampExchanger.Unsubscribe | miniserver_gateway/exchanges/wamp.py:171-179 | the subscribers become `Unsubscribed` of the old ones |
| WampExchange.WampExchanger.Publish | miniserver_gateway/exchanges/wamp.py:88-110 | the loop sends one event with the gateway's origin to each subscriber |
| WampExchange.WampExchanger.Receive | miniserver_gateway/exchanges/wamp.py:114-155 | processes the message and sends the caller exactly one reply that matches the outcome |
| WebSocketFrames.BigEndianRoundTrip | miniserver_gateway/exchanges/websockets/client.py:425-430 | an extended length written big-endian in 2 or 8 bytes reads back unchanged |
| WebSocketFrames.LengthField | miniserver_gateway/exchanges/websockets/client.py:418-430 | the 7-bit length is the length itself up to 125, 126 up to 65535 and 127 beyond |
| WebSocketFrames.Frame | miniserver_gateway/exchanges/websockets/client.py:401-435 | the FIN bit set with zero reserved bits and the opcode, the mask bit clear, and the payload unmasked at the end |
| WebSocketFrames.XorTwice | miniserver_gateway/exchanges/websockets/client.py:581 | unmasking a masked byte with the same mask byte restores it |
| WebSocketFrames.Masked | miniserver_gateway/exchanges/websockets/client.py:579-601 | masking keeps the payload's length |
| WebSocketFrames.FrameIsPeerFrame | miniserver_gateway/exchanges/websockets/client.py:401-435 | the frame the gateway sends is an unmasked final frame of the opcode and payload, as a peer would send it |
| WebSocketFrames.CloseReplyIsValid | miniserver_gateway/exchanges/websockets/client.py:629-654 | the status the gateway replies with is always a valid close code; a well-formed close body is echoed unchanged |
| WebSocketFrames.CloseReplyTo | miniserver_gateway/exchanges/websockets/client.py:629-654 | the reply's status is always a valid close code, and its reason is the received one (none for a body under two bytes) |
| WebSocketFrames.FeedAppend | miniserver_gateway/exchanges/websockets/client.py:439-601 | feeding bytes in two chunks is the same as feeding them at once |
| WebSocketFrames.AssembleFrame | miniserver_gateway/exchanges/websockets/client.py:439-601 | the byte-at-a-time parser reads a whole frame back as its fin bit, opcode and unmasked payload |
| WebSocketFrames.FeedFrame | miniserver_gateway/exchanges/websockets/client.py:439-601 | feeding a frame's bytes parses the frame, handles it, and then goes on with the rest of the bytes |
| WebSocketFrames.PayloadByte | miniserver_gateway/exchanges/websockets/client.py:579-601 | each payload byte is unmasked and appended; the last one completes the frame |
| WebSocketFrames.Parse | miniserver_gateway/exchanges/websockets/client.py:439-601 | one byte only moves the parser forward through header, length, mask and payload; a frame completes only after its first byte, in the phase it was in |
| WebSocketFrames.Step | miniserver_gateway/exchanges/websockets/client.py:439-601 | a parse failure raises; a byte that does not complete a frame delivers nothing; a completed frame leaves the parser waiting for a new header; messages and queue only grow and a closed client stays closed |
| WebSocketFrames.Feed | miniserver_gateway/exchanges/websockets/client.py:313-320 | over any bytes the delivered messages and the send queue only grow, and a closed client stays closed |
| WebSocketFrames.HandlePacket | miniserver_gateway/exchanges/websockets/client.py:605-736 | an unknown opcode raises and changes nothing; handling keeps the frame, adds at most one message and one queued frame, delivers nothing when it raises, and keeps a closed client closed |
| WebSocketFrames.DataFrameDelivered | miniserver_gateway/exchanges/websockets/client.py:732-736 | an unfragmented text or binary frame is delivered as one message and nothing is queued |
| WebSocketFrames.PingAnswered | miniserver_gateway/exchanges/websockets/client.py:724-727 | a ping is answered with a pong carrying the same payload |
| WebSocketFrames.CloseAnswered | miniserver_gateway/exchanges/websockets/client.py:629-654 | a close frame closes the connection, and the gateway replies with a close frame of its own only if it had not already sent one |
| WebSocketFrames.CloseHandled | miniserver_gateway/exchanges/websockets/client.py:629-654 | handling a completed close frame marks the connection closed and queues the reply close frame unless one was already sent |
| WebSocketFrames.FragmentStarted | miniserver_gateway/exchanges/websockets/client.py:656-680 | a non-final text or binary frame starts a fragmented message holding its payload |
| WebSocketFrames.FragmentFinished | miniserver_gateway/exchanges/websockets/client.py:697-722 | a final continuation frame delivers the buffered payload followed by its own |
| WebSocketFrames.FragmentedMessageDelivered | miniserver_gateway/exchanges/websockets/client.py:656-722 | a message in two fragments is delivered as their concatenation |
| WebSocketFrames.FragmentedTextAsWritten | miniserver_gateway/exchanges/websockets/client.py:668-710 | as written, a text fragment raises where the corrected handler buffers it |
| WebSocketFrames.HandlePacketAsWritten | miniserver_gateway/exchanges/websockets/client.py:664-712 | text fragments deliver and queue nothing; a first text fragment raises exactly when the decoder yields text, a final text continuation always raises; every other frame is handled as `HandlePacket` handles it |
| WebSocketFrames.HandlePacketKeepsCloseSentOnce | miniserver_gateway/exchanges/websockets/client.py:629-654 | handling a frame never queues a second close frame |
| WebSocketFrames.FeedKeepsCloseSentOnce | miniserver_gateway/exchanges/websockets/client.py:324-345 | at most one close frame is ever queued, whatever bytes arrive |
| WebSocketClient.WampClient.constructor | miniserver_gateway/exchanges/websockets/client.py:126-138 | a new client has an empty parser, no fragments, nothing queued and is not closed |
| WebSocketClient.WampClient.SendFrame | miniserver_gateway/exchanges/websockets/client.py:401-435 | queues the encoded frame |
| WebSocketClient.WampClient.SendMessage | miniserver_gateway/exchanges/websockets/client.py:349-360 | queues a text or a binary frame |
| WebSocketClient.WampClient.SendClose | miniserver_gateway/exchanges/websockets/client.py:324-345 | queues a close frame only once; raises on an invalid status or reason |
| WebSocketClient.WampClient.HandleMessage | miniserver_gateway/exchanges/websockets/client.py:152-237 | records the delivered message |
| WebSocketClient.WampClient.HandlePacket | miniserver_gateway/exchanges/websockets/client.py:605-736 | the new state is the one the frame-handling function specifies |
| WebSocketClient.WampClient.CompleteFrame | miniserver_gateway/exchanges/websockets/client.py:439-601 | handles a completed frame and resets the parser |
| WebSocketClient.WampClient.ReadHeaderB1 | miniserver_gateway/exchanges/websockets/client.py:441-455 | the first header byte sets the fin bit and opcode, and reserved bits raise |
| WebSocketClient.WampClient.ReadHeaderB2 | miniserver_gateway/exchanges/websockets/client.py:456-496 | the second header byte sets the mask flag and the length, or selects an extended length |
| WebSocketClient.WampClient.ReadLength | miniserver_gateway/exchanges/websockets/client.py:497-555 | extended length bytes accumulate, then the length is decoded |
| WebSocketClient.WampClient.ReadMask | miniserver_gateway/exchanges/websockets/client.py:556-578 | four mask bytes are collected before the payload |
| WebSocketClient.WampClient.ReadPayload | miniserver_gateway/exchanges/websockets/client.py:579-601 | each payload byte is unmasked and stored |
| WebSocketClient.WampClient.AfterLength | miniserver_gateway/exchanges/websockets/client.py:439-601 | after the length come the mask, the payload, or the end of the frame |
| WebSocketClient.WampClient.ParseByte | miniserver_gateway/exchanges/websockets/client.py:439-601 | one byte advances the parser as the step function specifies |
| WebSocketClient.WampClient.ReceiveBytes | miniserver_gateway/exchanges/websockets/client.py:313-320 | no data raises and changes nothing; otherwise the bytes are fed in order |

## Left out

- JSON encoding and decoding are not modelled. A received message arrives already decoded, as an object, a non-object or undecodable text. A Redis entry arrives as what `json.loads` makes of it: undecodable text, a number, boolean or null, a string, an array or an object. The store holds decoded text, so the UnicodeDecodeError that `stored_data.decode("utf-8")` raises outside the `try` on bytes that are not UTF-8 (miniserver_gateway/storages/redis.py:230) is not modelled: such an entry would raise without being deleted.
- `normalize_value` is a function parameter. Its conversions of numbers, booleans and text are not part of this model.
- Floating point is not modelled:
  - a FLOAT32 register value is its 4 bytes, and packing a float is an outcome without bytes;
  - the FLOAT branch of `get_format` returns the two texts it would compare;
  - Python's `==` between a float and an integer (`1.0 == 1`) is not modelled. `PyEq` compares floats by their bytes and equates only booleans with 0 and 1.
- `int()` accepts underscores and non-ASCII digits. `ParseInt` models only ASCII digits with an optional sign and surrounding whitespace.
- The field tests on a Redis entry that decodes to a JSON array compare the field names with the array's items only when those items are strings; Python's equality between a string and other values is false, which the model follows.
- UTF-8 validation follows RFC 3629 on byte sequences. The error positions of Python's incremental decoder are not modelled.
- The connector queue is an unbounded sequence. Blocking `put`, `queue.Full` and the worker threads that drain the queues are not modelled.
- Class-level mutable defaults (miniserver_gateway/exchanges/websockets/client.py:69-73, miniserver_gateway/exchanges/wamp.py:45, miniserver_gateway/connectors/fb_bus/fb_bus_connector.py:78) are shared between instances in the source. The model gives each object its own.
- The database queries of `initialize` and the ORM record processing (`__process_*_record`) are not modelled. The repositories start from a table of rows.
- `APP_ORIGIN` is a parameter, and the WAMP message codes and server topic are symbolic constructors.
- The dispatch of events to the application dispatcher is modelled as the returned event. Calls to `publish` on connectors and exchanges are recorded in a log.
- The base `PropertyItem` class is modelled only through the device and channel items, which share its fields.
- Threads, sockets, the PJON transport, `time.time()` and the WebSocket opening handshake (`receive_data`, miniserver_gateway/exchanges/websockets/client.py:269-311) are not modelled. Time is a parameter.
- `send_buffer` is not modelled. The model stops at the queue of frames to send.
- Exchanges that receive string data raise in the source. The model covers only data that is a dictionary.
- PropagateDevice: records one call naming the device and its state. The keyword arguments of `add_or_edit_device` and the per-register and per-setting `propagate_register`/`propagate_setting` calls that follow it (miniserver_gateway/connectors/fb_bus/fb_bus_connector.py:253-284) are not recorded, because the identifiers they build are modelled separately in `FbBusIdentifiers`.
- Log messages (`log.warn`, `log.debug`, `log.exception`) are not modelled.
- StructureReceiver: the pairing path from `PairingHelper.Receive` runs the registers-structure receiver with its address loop bounded by the announced window (`RegistersReply`), the corrected loop of the first "## Findings" row. The loop as written, up to the payload's length (miniserver_gateway/connectors/fb_bus/utilities/pairing_helper.py:988), is `RegistersReplyAsWritten`, which the stateful path does not call.
- WebSocketFrames.HandlePacket: `Step`, `Feed`, `WampClient.HandlePacket`, `WampClient.ParseByte` and `WampClient.ReceiveBytes` use the corrected frame handler, which collects text fragments as bytes. The source raises TypeError there (`bytearray.append` of a `str`, miniserver_gateway/exchanges/websockets/client.py:676, :692 and :707), as the second "## Findings" row states; the handler as written is `HandlePacketAsWritten`.
- ConnectorsContainer.ProcessPropertyExpectedRecord: calls every loaded connector. In the source an exception from one connector's `publish` (the FB bus connector raises struct.error through `FbBusDispatch.Publish`) leaves the loop at miniserver_gateway/connectors/connectors.py:633-635, and the connectors after it are not called; the container's log does not model connector failures.
- EntityKeyHash: the digit count `int(math.log(n, 52))` and each digit `int(n / bcp)` (miniserver_gateway/db/utils.py:46 and :50) are floating-point operations in the source. The model computes them exactly, with an integer floor-log and integer division. Float rounding can make `math.log` fall just below an exact power of 52, which drops the leading digit, and `n / bcp` loses precision once it exceeds 2^53. So `EncodeDecodeRoundTrip` is proved for the exact arithmetic; the program may differ at exact powers of 52 and for very large timestamps.
- ParseIdentifier: accepts ASCII digits only. The source tests `str.isnumeric()` (miniserver_gateway/connectors/fb_bus/fb_bus_connector.py:655 and :704), which also accepts other Unicode numerals; `int()` would then fail or read them differently.
- The FB bus handlers take the payload's length as `|payload|`. The source also receives a separate `payload_length` argument; the model assumes it equals the payload's length.
- Attributes: a device item stores the state's enum value under "state", where the source stores the `DeviceStates` member itself.
- The source keeps the loaded exchanges and connectors in sets, so its fan-out has no fixed order. The model fixes one order, the order of the loaded sequence; the lemmas about each exchange or connector being called exactly once do not depend on it.

## Findings

| source | as written | input that shows it | evidently intended | confidence | as-written member | corrected member |
|---|---|---|---|---|---|---|
| miniserver_gateway/connectors/fb_bus/utilities/pairing_helper.py:988 | the register-structure loop runs `for i in range(start_address, payload_length)`, so it reads one type byte per address up to the packet's length | a device with four analog registers answering the first window (address 0, length 2) with a complete 10-byte reply: the loop reads the terminator as a data type, then reads past the end of the payload and raises | the loop covers the announced window, `range(start_address, start_address + registers_length)` | high; not executed | FbBusPairingStructure.AsWrittenRaisesOnFirstWindow | FbBusPairingStructure.WindowScanStoresEachByte |
| miniserver_gateway/exchanges/websockets/client.py:676 | decoded text fragments are added with `bytearray.append(str)` (also at lines 692 and 707) | a non-final text frame whose payload is the single byte 0x61: the decoder yields "a", and appending it raises TypeError | text fragments are collected and the whole message is delivered when it is well-formed UTF-8 | high; not executed | WebSocketFrames.FragmentedTextAsWritten | WebSocketFrames.FragmentedMessageDelivered |
