# homenet core, modelled in Dafny

homenet is a mesh VPN built on Nebula. Every device runs a node that keeps
encrypted tunnels to its peers. A lighthouse gives out tunnel addresses in
`172.16.128.0/24` and relays traffic between clients that cannot reach each
other directly. On top of the tunnels the node runs a small reliable
messaging layer. A home router also keeps a registry of its LAN clients and
raises events to the app.

This project models the bookkeeping of that node and proves what it
promises. Each module corresponds to one source file.

- `Handshake`, `HostMaps` and `HandshakeManagement` (class `HandshakeManager`)
  model `handshake.go` and `handshake_manager.go`.
  - Host records live in an arena of `HostInfo` values.
  - The pending and main host maps index those records by network id and
    address, by local index and by remote index.
  - The timer wheel is the list of `(vpnIp, networkID, delay)` entries it has
    been given.
  - The outbound retry machine is a function of the record and its
    collaborators' answers: retry, send directly, escalate to a relay,
    switch relay, or give up.
  - Completion settles the race between the two maps in the source's order of
    precedence.
  - Index allocation makes at most 32 draws.
- `Inside` (class `Interface`), `Relay` and `Control` (class `Control`) model
  `inside.go`, `relay.go` and `control.go`.
  - A send through `sendNoMetrics` consumes one message counter value.
  - A session that is not ready causes a drop on the TUN path and caching on
    the API path.
  - The relay is the lighthouse with the smallest handshake duration, with a
    hysteresis of 50.
  - Relayed inner packets are dispatched by header type.
  - `Control` snapshots host records, lists the host maps and closes tunnels.
- `Messaging` (classes `Header` and `Messaging`) and `Messages` (class
  `EventRing`) model `messaging.go` and `messages/messages.go`.
  - A 16-byte big-endian header.
  - A ten-slot sequence window.
  - At most three transmissions of a message, and one of an acknowledgement.
  - A checksum gate on receipt.
  - An event ring that hands out each event once.
- `NhUtil`, `Route`, `Config`, `MessagesCommon`, `PlatformLinux`,
  `PlatformDarwin`, `RouterAsus` and `NhCert` model the pure helpers:
  - address and checksum arithmetic and byte-unit text;
  - route and unsafe-route validation and DNS lists;
  - dotted-key configuration lookup with typed defaults;
  - the `key=value` settings format;
  - the route-table text parsers;
  - signal-quality thresholds;
  - the certificate request throttle.
- `MainConfig` models how `main.go` derives its settings:
  - routines;
  - the lighthouse CIDR and name;
  - preferred ranges;
  - lighthouse and static hosts;
  - cipher endianness.
- `MainActivity` (class `MainActivity`) models the app-side rules of
  `cmd/nebula/main_activity.go`:
  - route de-duplication;
  - router-IP choice;
  - command gating;
  - link status;
  - the retry loop.
- `RouterTelemetry` (class `Telemetry`) models the router's client registry and
  its 8-slot event ring (`router/router_telemetry.go`, and the flag setters of
  `router/router_server.go`).

Other modules stand in for the parts of Go's standard library that the core
relies on:

- `Wrappers` and `GoTypes` define fixed-width integers with explicit
  wrap-around, plus `Option` and `Result`.
- `GoStrings` covers `strings.Split`, `Fields`, `Trim` and `Replace`.
- `Strconv` covers `Atoi`, `Itoa`, `ParseBool`, `ParseInt` and hexadecimal
  parsing.
- `NetAddr` covers IPv4 `ParseIP`, `ParseCIDR` and `IPNet.Contains`.

Where a source operation updates an object in place, the model is a class.
Its methods state the new state through a specification function over a
value snapshot (`State()`), and lemmas about that function carry the
properties.

## Model

| member | source | states |
|---|---|---|
| Handshake.HandleIncomingHandshake | handshake.go:9-35 | A handshake refused by the remote allow list, or of another subtype than IX PSK0, is ignored; message 1 goes to stage 1 with the relay and relay address given; message 2 goes to stage 2 under the header's network when a lighthouse and the own network otherwise, with the pending record found by remote index, deleted exactly when stage 2 asks for teardown and a record was found |
| Handshake.PendingAfter | handshake.go:28-31 | After a teardown of a found record its address is gone from the pending map and no record is added; otherwise the pending map is unchanged |
| Handshake.TeardownApplies | handshake.go:27-31 | The record torn down is always a known record, whenever the pending map names only known records |
| HostMaps.NewHostInfo | handshake_manager.go:260-262 | A record created for an address knows only that address and network: no handshake progress, no session, no remotes, no cached packets |
| HostMaps.QueryVpnIp | handshake_manager.go:109 | A lookup by address finds a record exactly when the map holds that address under the network, and the record is one the map names |
| HostMaps.QueryIndex | handshake_manager.go:451-453 | A lookup by local index finds a record exactly when the map holds that index under the network, and the record is one the map names |
| HostMaps.Unlink | handshake_manager.go:351 | Removing a record from a map drops its address, local index and remote index under the network and keeps every other entry |
| HostMaps.DeleteHostInfo | handshake_manager.go:446-449 | After deletion neither the record's address nor its local index is found, and the map names no new record |
| HostMaps.AddHostInfo | handshake_manager.go:407 | After adding, the record is found by its address, its local index and its remote index; every other address and index is kept, and no other record is added |
| HostMaps.AddThenDelete | handshake_manager.go:407-408 | Adding a record to a map and then deleting it is the same as removing its keys from the original map |
| NhCert.ShallSendSignRequest | nh_cert.go:71-81 | A sign request is due when none was sent for the network (or its time is 0), otherwise exactly when more than 5 seconds have passed since the last one |
| NhCert.SignRequestThrottle | nh_cert.go:71-81 | With a real earlier request time, a request is sent exactly when more than 5 seconds have passed; never within 5 seconds |
| NhCert.ParseSignResponse | nh_cert.go:44-60 | A reply that decodes as a sign message is returned as is; one that does not but decodes as an error message gives the partly decoded message with the error's status and text; the reply fails only when both decodings fail, with the second error |
| Relay.SubtypeOf | relay.go:41 | The inner header's subtype is the IX PSK0 handshake exactly when its byte is 0 |
| Relay.InnerActionOf | relay.go:39-104 | For a client, a data, close or non-tunnel message is rejected exactly when its session is missing or fails the replay window; data goes to the tun device with the found record and its counter; close closes the found record; a non-tunnel message is dropped when it does not decrypt and otherwise goes to messaging from the record's address; a handshake is handled with relay 1 through the sender's relay only when this host is connected to that relay; every other type is unexpected |
| Relay.HandleRelay | relay.go:25-105 | On a lighthouse the packet is forwarded exactly when the main map has a record for the destination in the outer header's network: the inner bytes go out through that record as a RelayPacket carrying the outer header's addresses and ports, with the record's next message counter, or fail with SendRelay's errors; nothing is written when there is no record, and the main map does not change. On a client the outcome is the inner action, nothing is written on the wire, only a delivered data packet adds the packet length to the record's inbound byte count (64-bit wrap-around), only an accepted CloseTunnel changes the main map, by closeTunnel on that record under our own network, and only a relayed handshake changes the pending map, by the deletion a stage-2 teardown of a found pending record makes (handshake.go:27-31). A lighthouse leaves the pending map as it was |
| Relay.Forward | relay.go:31-38 | A lighthouse forwards exactly when the main map has a record for the destination in the outer header's network; the inner bytes then go out through it as a RelayPacket with the outer header's addresses and ports and the record's next message counter, or fail with SendRelay's errors; nothing is written otherwise; main and pending maps unchanged |
| Relay.ActOnInner | relay.go:39-103 | The client's action is InnerActionOf for the record the main map has under the inner header's remote index and network, and its effect on arena, main and pending maps is exactly what ApplyInner states |
| Relay.ApplyInner | relay.go:57-75 | A delivered data packet adds the packet length to the record's inbound bytes (64-bit wrap-around); a CloseTunnel unlinks the record from the main map under our own network; a relayed stage-2 teardown deletes the found pending record from the pending map; every other table is left as it was |
| PlatformDarwin.LineInterface | platform/platform_darwin.go:24-27 | A line names the interface exactly when it has at least two fields and the first is "interface:"; the name is the second field, never empty |
| PlatformDarwin.ParseDarwinRouteGet | platform/platform_darwin.go:16-31 | The only failure is "No interface" |
| PlatformDarwin.FirstInterfaceFound | platform/platform_darwin.go:22-28 | The interface returned is the one on the first line that names one; every earlier line names none |
| PlatformDarwin.NoInterfaceIff | platform/platform_darwin.go:22-30 | No interface is found exactly when no line names one |
| PlatformDarwin.SurroundingSpaceIrrelevant | platform/platform_darwin.go:24 | White space around a line does not change what it names, since the line is split into fields |
| PlatformLinux.RowDestinationIsDefault | platform/platform_linux.go:86-106 | A row is refused only for having fewer than 11 tab-separated fields or a destination that is not hexadecimal |
| PlatformLinux.RouteOfRow | platform/platform_linux.go:100-112 | The route taken from a row has its first field as interface and its second as destination |
| PlatformLinux.ParseToLinuxRouteStruct | platform/platform_linux.go:70-73 | Output without even a header line, and only that, is an invalid route file |
| PlatformLinux.ParseLinuxGatewayIP | platform/platform_linux.go:41-48 | The gateway answer is the interface of the default route, or the route file's error |
| PlatformLinux.FirstDefaultRowNeverInvalid | platform/platform_linux.go:75-113 | The scan of the rows after the header never reports an invalid route file |
| PlatformLinux.FirstDefaultRowFound | platform/platform_linux.go:75-112 | A route found is the one of the first row whose destination is 0, and every row before it was well formed with another destination |
| PlatformLinux.FirstDefaultRowRefused | platform/platform_linux.go:77-95 | A refusal comes from the first malformed row, every row before it being well formed and not default; a short-row refusal names a row with fewer than 11 fields |
| PlatformLinux.NoDefaultRouteIff | platform/platform_linux.go:75-113 | "Default destination not found" is returned exactly when every row is well formed and none has destination 0 |
| PlatformLinux.HeaderIgnored | platform/platform_linux.go:70-75 | The first line is skipped whatever it holds; the rows after it decide the answer |
| RouterAsus.GetFileName | router/router_asus.go:29-32 | A client's file name is the clients directory followed by the MAC with every ':' replaced by '_' |
| RouterAsus.FileNamesDistinct | router/router_asus.go:29-32 | Two MACs without '_' share a file name exactly when they are equal |
| RouterAsus.PauseFlag | router/router_asus.go:35-40 | The pause flag is "1" exactly when pausing and "0" exactly when resuming |
| RouterAsus.PauseClientArgs | router/router_asus.go:34-44 | The script is given the MAC, the IP, the pause flag and the name, in that order |
| RouterAsus.PauseAllArgs | router/router_asus.go:46-56 | The script is given the pause flag alone |
| RouterAsus.GetSignalQuality | router/router_asus.go:58-66 | Excellent exactly above -40, good exactly in (-75, -40], average exactly at -75 or below |
| RouterAsus.SignalQualityMonotone | router/router_asus.go:58-66 | A stronger RSSI never gets a worse band |
| Config.Step | config/config.go:241-249 | One step of a key path gives a value only out of a map that holds that part of the path |
| Config.LookupOfNil | config/config.go:240-244 | A non-empty key path looked up in nothing finds nothing |
| Config.LookupStopsAtNonMap | config/config.go:240-244 | Once a prefix of the path leads to a value that is not a map, the whole path finds nothing |
| Config.LookupConcat | config/config.go:236-252 | Looking up a path in two halves is looking up the second half in what the first half finds; a first half that finds nothing stops the lookup |
| Config.LowerLiterals | config/config.go:203-211 | Lower-casing leaves "true" and "false" alone and turns "Yes" and "NO" into "yes" and "no" |
| Config.C.constructor | config/config.go:29-34 | A new configuration holds no settings and no previous settings |
| Config.C.GetPath | config/config.go:236-252 | Walking a dotted key part by part is the lookup of the key's '.'-separated parts |
| Config.C.GetString | config/config.go:146-153 | An unset key gives the default; a set key gives its value printed as fmt's %v prints it |
| Config.C.GetIntCases | config/config.go:191-199 | An unset key gives the default, an integer value is returned as is, a string holding a decimal integer is parsed, and a value that does not print as an integer gives the default |
| Config.C.GetBool | config/config.go:202-216 | The lower-cased string of the key (the default printed when unset) is parsed as a Go boolean; otherwise "y" or "yes" give true, "n" or "no" give false, and anything else gives the default |
| Config.C.GetBoolCases | config/config.go:202-216 | An unset key gives the default; true and false values give themselves; "Yes" gives true and "NO" gives false |
| Config.C.GetStringSlice | config/config.go:156-173 | A list gives its items each printed with %v, in order; anything else gives the default |
| Config.C.GetMap | config/config.go:176-188 | A map value is returned; anything else gives the default |
| Config.C.HasChanged | config/config.go:79-108 | Nothing has changed before a reload; the empty key compares all settings and any other key compares what the key finds in the new and the old settings |
| Config.C.LoadString | config/config.go:59-64 | An empty text is refused with "Empty configuration"; a parse failure is returned; otherwise the parsed settings replace the current ones; the previous settings are not touched |
| Messages.Dispatch | messages/messages.go:273-328 | A message that decodes neither as a message nor as a pause message is answered with the error status; otherwise the type picks the handler: pause_client falls through to pause_all, start and stop onboarding pass 1 and 0, set_blocklist and router_event answer a second decode failure with the error status, and an unknown type gets the empty answer |
| Messages.HandlerDeterminesType | messages/messages.go:287-323 | Whenever a handler is called the message decoded, and the handler called is the one of its type (pause_client sharing pause_all's) |
| Messages.EventRing.constructor | messaging.go:97 | A new ring has all eight elements empty |
| Messages.EventRing.NewEvent | messages/messages.go:246-259 | The event is stored, active, in the element the holder points at; the rest of the ring is unchanged |
| Messages.StoreEvent | messages/messages.go:257-258 | Storing an event changes only the held element, which then holds the active event |
| Messages.EventsOverwriteOneSlot | messages/messages.go:257-258 | However many events arrive, only the held element changes and it holds the last one |
| Messages.StoreEventsAdvancing | router/router_telemetry.go:235-245 | The ring written by a newEvent that moves the holder's pointer on, as the router's Telemetry does |
| Messages.AdvancingKeepsEvents | router/router_telemetry.go:243-244 | With the pointer moved on, the k-th of up to eight events is in the element k steps on |
| Messages.AdvancingKeepsRest | router/router_telemetry.go:243-244 | With the pointer moved on, the elements after the new events are untouched |
| Messages.HandleRouterEvent | messages/messages.go:261-271 | A body that does not decode is answered with the error status and the ring is untouched; otherwise the event is stored and the answer is empty |
| Messages.ProcessMessage | messages/messages.go:273-328 | The action is the dispatch above, and only a router event changes the ring |
| MessagesCommon.ParseSettings | messages/messages_common.go:25-48 | The settings map is built line by line from the '\n'-separated text, each line read as key=value |
| MessagesCommon.SettingsKeys | messages/messages_common.go:31-46 | A key is in the settings exactly when some line has it before its first '=' |
| MessagesCommon.SettingsLastWins | messages/messages_common.go:45 | When a key appears on several lines, the last of them gives its value |
| MessagesCommon.EntryKeyValue | messages/messages_common.go:32-44 | A line k=v gives key k and value v |
| MessagesCommon.EntryExtraEquals | messages/messages_common.go:32-44 | A line with a second '=' keeps only the text between the first and the second as value |
| MessagesCommon.EntryWithoutEquals | messages/messages_common.go:39-41 | A line without '=' is a key with the empty value |
| MessagesCommon.GetWireless | messages/messages_common.go:15-23 | A failed script gives the error status; otherwise its output without one trailing newline, empty exactly when the output was empty or a lone newline |
| MessagesCommon.GetWirelessMessage | messages/messages_common.go:50-96 | Empty settings are refused with "Error while getting wireless settings"; otherwise every wireless field is filled from the settings key of its name (empty when missing) |
| MessagesCommon.FailedWirelessScriptIsOneLine | messages/messages_common.go:18-20 | The error status of a failed script is a single line, so it is read as one settings entry |
| MessagesCommon.GetBlocklist | messages/messages_common.go:134-187 | Empty output is answered with the error status; otherwise the sixteen categories, in their fixed order, each with the value of its "block" key |
| MessagesCommon.EntriesOfArgs | messages/messages_common.go:194-197 | The script arguments, read back in pairs, give one entry per pair |
| MessagesCommon.SetBlocklistArgs | messages/messages_common.go:189-200 | Each category gives two arguments, its name then its blocked value, in order; reading them back in pairs gives the categories |
| MessagesCommon.PairsRead | messages/messages_common.go:194-197 | Arguments laid out as name, value pairs read back to the same categories |
| NhUtil.PutBE32 | nh_util/nh_util.go:37-41 | The big-endian form of a 32-bit value has four bytes |
| NhUtil.BE32OfPut | nh_util/nh_util.go:37-41 | Reading back the four big-endian bytes of a value gives the value |
| NhUtil.PutOfBE32 | nh_util/nh_util.go:23-28 | Writing out the value of four bytes gives the bytes back |
| NhUtil.Ip2int | nh_util/nh_util.go:23-28 | A 16-byte address is read from its last four bytes, any other from its first four |
| NhUtil.Int2ip | nh_util/nh_util.go:37-41 | A fresh four-byte address holding the value big-endian |
| NhUtil.Ip2intInt2ip | nh_util/nh_util.go:23-41 | An address made from a value reads back as that value, also in its IPv4-in-IPv6 form |
| NhUtil.NHChecksum | nh_util/nh_util.go:43-63 | The loop computes the sum of the big-endian 16-bit words, a last odd byte counting as a high byte, taken modulo 2^32 |
| NhUtil.ChecksumWordStep | nh_util/nh_util.go:51-54 | Adding one word's two bytes to the running 32-bit sum gives the sum of one more word |
| NhUtil.ChecksumTailStep | nh_util/nh_util.go:56-58 | Adding a last odd byte as a high byte completes the checksum |
| NhUtil.WordsSumPrefix | nh_util/nh_util.go:50-55 | Bytes after the words summed do not change the sum |
| NhUtil.ChecksumPadding | nh_util/nh_util.go:56-58 | Empty data sums to 0, and a zero byte appended to odd data does not change its checksum |
| NhUtil.WordsSumChangeOne | nh_util/nh_util.go:50-55 | Changing one byte changes the sum by the difference times 256 for a high byte and times 1 for a low byte |
| NhUtil.ChecksumDetectsOneByteChange | nh_util/nh_util.go:43-63 | Changing any single byte changes the checksum |
| NhUtil.IsProperSubnet | nh_util/nh_util.go:96-103 | Only text holding a '/' can be a proper subnet |
| NhUtil.ProperSubnetOfFormat | nh_util/nh_util.go:96-103 | Every IPv4 network written in CIDR form is a proper subnet |
| NhUtil.IsProperIp | nh_util/nh_util.go:105-111 | Only text of four '.'-separated parts can be a proper address |
| NhUtil.ProperIpOfFormat | nh_util/nh_util.go:105-111 | Every IPv4 address written in dotted form is a proper address |
| NhUtil.IsProperInteger | nh_util/nh_util.go:113-122 | Accepted exactly when the text parses as a decimal integer lying in [min, max] |
| NhUtil.IsProperIntegerOfItoa | nh_util/nh_util.go:113-122 | The decimal form of a 64-bit value is accepted exactly when the value is in range |
| NhUtil.LeadingDigits | nh_util/nh_util.go:143-147 | The first two characters of the remainder's digits, or all of them when there is only one |
| NhUtil.ConvertIntoXBShape | nh_util/nh_util.go:124-150 | The text is the quotient, ".", the first two digits of the remainder, a space and the unit; GB exactly above 1 GiB, MB exactly above 1 MiB up to 1 GiB, KB exactly above 1 KiB up to 1 MiB, and no unit at 1 KiB or below |
| NhUtil.ConvertIntoXBMisprintsFraction | nh_util/nh_util.go:134-147 | 1536 bytes, one and a half KiB, print as "1.51 KB" |
| NhUtil.ConvertIntoXBOverstates | nh_util/nh_util.go:134-147 | The printed 1.51 KB is more than the 1536 bytes it stands for |
| NhUtil.TwoDigits | nh_util/nh_util.go:143-147 | A number below 100 as exactly two decimal digits |
| NhUtil.HundredthsBounds | nh_util/nh_util.go:124-150 | The corrected fraction is the number of whole hundredths of the unit |
| NhUtil.RenderHundredthsReads | nh_util/nh_util.go:143-147 | The corrected text reads back as the whole units, two digits of hundredths and the unit, and its value is the amount truncated to hundredths |
| NhUtil.ConvertIntoXBHundredthsIsTruncation | nh_util/nh_util.go:124-150 | The corrected conversion prints the amount truncated to hundredths of its unit, never more |
| NhUtil.ConvertIntoXbpsShape | nh_util/nh_util.go:153-182 | The byte count is turned into bits with 64-bit wrap-around and divided by the period; the text is quotient, ".", two leading digits of the remainder and Gbps above 1 Gi, Mbps above 1 Mi, Kbps otherwise |
| NhUtil.IsMulticastMac | nh_util/nh_util.go:184-195 | The first two characters must be hexadecimal, or the result is an error; the address is multicast exactly when the low bit of the first byte is set |
| NhUtil.JsonEscape | nh_util/nh_util.go:226-237 | A character is written as at least one character and never as a raw newline |
| NhUtil.JsonEscapeAll | nh_util/nh_util.go:226-237 | An escaped string holds no raw newline |
| NhUtil.JsonEscapeAllPlain | nh_util/nh_util.go:226-237 | A string of plain characters is written unchanged |
| NhUtil.ErrorStatusString | nh_util/nh_util.go:226-237 | The error status is a one-line JSON object |
| NhUtil.ErrorStatusOfPlain | nh_util/nh_util.go:226-237 | For a plain error text the status is {"error":"<text>","status":"fail"}, keys in sorted order |
| Route.LowHighInside | overlay/route.go:320-344 | An IPv4 network contains both its lowest address (ip & mask) and its highest address (ip \| ^mask) |
| Route.WithinIffEveryAddress | overlay/route.go:320-344 | The two-endpoint test ipWithin(o, i) holds exactly when i is IPv4 and every address of i lies in o |
| Route.IpWithin | overlay/route.go:320-344 | Returns true iff o contains i's lowest and highest address, false for a non-IPv4 i, and that is the same as every address of i lying in o |
| Route.SetHostBits | overlay/route.go:330-337 | Each byte of the last address is the address byte with the inverted mask byte or-ed in |
| Route.RouteEntry | overlay/route.go:62-103 | An accepted tun.routes entry has mtu >= 500, metric 0, no via and a route inside the network; a non-map entry or a missing mtu or route is refused; every error names the 1-based entry number |
| Route.RoutesOk | overlay/route.go:44-111 | A missing key or empty list gives []; otherwise the result has one route per entry, each the accepted form of that entry |
| Route.RoutesErr | overlay/route.go:44-111 | Parsing fails with "not an array" exactly when the value is not a list; otherwise the error is that of the first refused entry, all earlier entries being accepted |
| Route.ParseRoutes | overlay/route.go:44-111 | parseRoutes on tun.routes computes RoutesOf of the configured value |
| Route.ParseRoutesFrom | overlay/route.go:47-61 | The nil, non-list and empty-list cases, then the entry loop, compute RoutesOf |
| Route.ParseRouteList | overlay/route.go:61-110 | The entry loop stops at the first refused entry and otherwise collects every accepted entry in order |
| Route.UnsafeRouteEntry | overlay/route.go:133-221 | An accepted unsafe route has a via and a route, mtu 0 or >= 500, metric in [0, MaxInt32], and a route not inside the tunnel network; a non-map entry or a missing via or route is refused; errors name the 1-based entry number |
| Route.UnsafeRoutesOk | overlay/route.go:113-227 | A missing key or empty list gives []; otherwise one accepted unsafe route per entry, in order |
| Route.UnsafeRoutesErr | overlay/route.go:113-227 | Fails with "not an array" exactly when the value is not a list; otherwise with the first refused entry's error |
| Route.UnsafeRouteMetric | overlay/route.go:152-167 | A string metric is validated but stored as 0, an integer metric is kept, a missing metric is 0 |
| Route.UnsafeRouteName | overlay/route.go:169-178 | The name is the configured string, or "" when it is absent or not a string |
| Route.ParseUnsafeRoutes | overlay/route.go:229-231 | ParseUnsafeRoutes on tun.unsafe_routes computes UnsafeRoutesOf of the configured value |
| Route.ParseUnsafeRoutesFrom | overlay/route.go:116-132 | The nil, non-list and empty-list cases, then the entry loop, compute UnsafeRoutesOf |
| Route.ParseUnsafeRouteList | overlay/route.go:130-226 | The entry loop stops at the first refused entry and otherwise collects every accepted entry in order |
| Route.VpnIpOf | overlay/route.go:200 | The 32-bit vpn address has the four address bytes as its big-endian encoding |
| Route.ViaEntriesExact | overlay/route.go:30-42 | The route tree holds exactly the (cidr, via) pairs of the routes that have a via |
| Route.MakeRouteTree | overlay/route.go:30-42 | makeRouteTree inserts, in order, every route with a non-nil via and no other |
| Route.GetDNSServers | overlay/route.go:284-303 | getDNSServers of the tun.dns setting computes DNSServersOf |
| Route.DNSServersFrom | overlay/route.go:287-298 | "" gives nil; otherwise one parsed address per comma-separated piece |
| Route.ParsePieces | overlay/route.go:294-297 | Each piece is trimmed of spaces and parsed as an address, in order |
| Route.DNSServersRoundTrip | overlay/route.go:284-299 | Formatting a non-empty address list with ", " and reading it back gives the same addresses |
| Route.CreateRouteEntry | overlay/route.go:233-254 | An unparseable gateway or destination is an error; otherwise the route has MTU 1100, metric 0, no via and the given gateway, interface, index and local address |
| Control.CopyHostInfo | control.go:237-265 | The copy keeps vpn ip and both indexes, counts the cached packets, gives message counter 0 without a session and the session's counter otherwise, keeps the current remote (nil iff nil) and has no remote addresses when the remote list is nil |
| Control.OrderCount | control.go:267-279 | A duplicate-free listing order of the network's hosts has exactly as many entries as the network has addresses |
| Control.ListHostMap | control.go:267-279 | listHostMap returns one copied entry per host of the node's network, in the map's iteration order, and no other |
| Control.ListingCovers | control.go:267-279 | Every host of the node's network appears in the listing |
| Control.ClosableMembers | control.go:212-235 | A record is in Closable's list iff some visited key holds it with a ready session and it is not an excluded lighthouse (both directions) |
| Control.StopClosesLighthousesLast | control.go:69-73 | For a map of our own network, with each pass visiting every key of the map it finds once: the first pass closes only non-lighthouses, the second only lighthouses, every record with a ready session is closed by one of them, and the map keeps exactly the keys whose record had no ready session |
| Control.ClosePass | control.go:212-235 | One pass of CloseAllTunnels over the visited keys: it closes at most one record per key, never adds a key, keeps the record at every key that stays, and keeps every address naming a record that carries it |
| Control.ClosePassExact | control.go:212-235 | For a map of our own network and distinct keys, the pass closes exactly the records Closable lists and removes exactly the visited keys whose record has a ready session (lighthouses excepted when excluded) |
| Control.ClosePassSessions | control.go:212-235 | A pass depends on the arena only through addresses, indexes and sessions: two arenas that agree on those give the same pass |
| Control.Control.constructor | control.go:22-30 | A new control wraps the interface and messaging with no tunnel closed and no rebind done |
| Control.Control.GetName | control.go:281-287 | A lighthouse is named "server"; any other node has its configured name |
| Control.Control.GetMyVPNIP | control.go:289-295 | "" exactly on a lighthouse, the node's vpn address otherwise |
| Control.Control.GetRelayHostIP | control.go:297-303 | "" exactly when there is no relay host, otherwise the relay host's vpn address |
| Control.Control.GetHostInfoByVpnIp | control.go:140-173 | Looks the address up in the pending or main map of the node's network; nil iff absent, otherwise the copy of the found host |
| Control.Control.ListHostmap | control.go:104-110 | Lists the pending or main map restricted to the node's network, one entry per host |
| Control.Control.RebindUDPServer | control.go:93-101 | Increments the rebind counter by exactly one and sends one update, changing nothing else |
| Control.Control.SetRemoteForTunnel | control.go:175-185 | For a known host, sets its remote to addr and returns its copy; nil and no change for an unknown host |
| Control.Control.CloseTunnel | control.go:187-208 | False with no change when our network's main map has no record for the address; otherwise true, the record joins the closed list, closeTunnel takes its address and indexes out of the main map under our network (the address key exactly), and unless localOnly it is first sent a CloseTunnel message exactly as sendNoMetrics sends; localOnly sends nothing |
| Control.Control.CloseIfReady | control.go:217-232 | One step of CloseAllTunnels: the record at the key is closed iff it exists, has a ready session and is not an excluded lighthouse; a closed record is sent a CloseTunnel message as sendNoMetrics sends and unlinked from the main map; otherwise nothing changes |
| Control.Control.CloseAllTunnels | control.go:212-235 | Given each key of the main map once, closes the records ClosePass gives, appends them to the closed list in order and returns their number; for a map of our own network these are exactly the Closable records and exactly their keys leave the map |
| Control.Control.CloseEach | control.go:214-232 | The loop of CloseAllTunnels: the main map and the records closed are exactly ClosePass over the visited keys |
| Control.Control.CloseBothPasses | control.go:70-71 | Stop's two CloseAllTunnels calls: the closed list grows by the first pass (lighthouses excluded) and then by the second pass over the map the first left, which is the final map |
| Control.Control.Stop | control.go:69-79 | The two passes as CloseBothPasses states them; for a map of our own network the first pass closes no lighthouse, the second only lighthouses, every ready record is closed once and exactly the keys of records without a ready session stay; then the interface is closed and the context cancelled |
| Control.Control.SendNonTunMessage | control.go:131-133 | Unreachable and not-ready hosts give their errors; a ready host succeeds iff an acknowledgement arrives, and then the reply is that acknowledgement's payload |
| HandshakeManagement.HsTimeout | handshake_manager.go:484-486 | The retry wheel's span, (tries+1) intervals, is non-negative and covers one and two intervals once there is at least one retry |
| HandshakeManagement.OutboundStep | handshake_manager.go:108-258 | One retry step: a completed handshake only leaves pending; a not-ready one is retried after an interval; past the retries a non-lighthouse peer with no remotes leaves pending, otherwise a relay send of the stage-0 packet (a better relay at 2 x retries), counted and abandoned at 3 x retries, retried after two intervals; otherwise leaving pending at the retry limit, a lighthouse-triggered repeat sends nothing, and a direct attempt goes to every remote, queries the lighthouse for a list of at most one, and is retried after one interval |
| HandshakeManagement.OutboundKeepsIdentity | handshake_manager.go:108-258 | A retry step keeps the peer's address and indexes and raises the attempt counter by at most one |
| HandshakeManagement.OutboundDelayFitsWheel | handshake_manager.go:59-67 | Every delay a retry step schedules fits in the wheel built with hsTimeout |
| HandshakeManagement.RelayAttemptsBounded | handshake_manager.go:175-185 | Each successful relay attempt brings the counter strictly closer to 3 x retries, where the peer leaves pending |
| HandshakeManagement.CheckAndCompleteOf | handshake_manager.go:295-373 | The four errors, in order of precedence and each exactly when its condition holds: already seen, existing newer host info, local index collision, existing handshake without overwrite; on an error the tables are unchanged; otherwise the record is promoted; either way the tables stay consistent, so no two records share a (network, local index) key across pending and main |
| HandshakeManagement.Promote | handshake_manager.go:346-372 | The promoted record takes the network and a pending rival's cached packets, the rival leaves pending, the record is found in main by address and local index, and the tables stay consistent: every map entry names an arena record, every main address names a record that carries that address, and a local index taken in both pending and main names the same record in each; it is reached only when the local index collides with no other record |
| HandshakeManagement.PromoteFrame | handshake_manager.go:346-372 | Promotion keeps every other address's record and every index key other than the promoted and the replaced record's local index, and the main map's addresses become exactly the old ones plus the promoted address |
| HandshakeManagement.PromoteDropsOldKeys | handshake_manager.go:358-363 | The replaced main record's local and remote index keys are gone from main unless the new record shares them |
| HandshakeManagement.CompleteOf | handshake_manager.go:378-412 | The record takes the requested network on a lighthouse and the node's own network otherwise, is found in main and not in pending, the replaced record's keys are gone, and the tables stay consistent, local indexes included |
| HandshakeManagement.NextDraw | handshake_manager.go:462-482 | generateIndex skips zero draws and stops at the first error or non-zero value |
| HandshakeManagement.GenerateIndex | handshake_manager.go:462-482 | The generated index is the first decisive draw and is never zero |
| HandshakeManagement.ChooseIndex | handshake_manager.go:414-440 | A chosen index is non-zero and free in both maps; an error is a draw error or the give-up message |
| HandshakeManagement.ChooseIndexGivesUp | handshake_manager.go:420-439 | When every draw collides the allocator gives up with "failed to generate unique localIndexId" after 32 tries |
| HandshakeManagement.HandshakeManager.constructor | handshake_manager.go:58-74 | A new manager has empty maps, an empty wheel of span hsTimeout(retries, tryInterval) and an empty trigger buffer |
| HandshakeManagement.HandshakeManager.HandleOutbound | handshake_manager.go:108-258 | An address not pending is ignored; otherwise the record becomes the step's record, leaves pending when the step says so, and the step's delay is scheduled |
| HandshakeManagement.HandshakeManager.AddVpnIp | handshake_manager.go:260-274 | An address already pending returns its record unchanged; a new one gets a fresh record in pending and is scheduled after one interval |
| HandshakeManagement.HandshakeManager.Trigger | handshake_manager.go:54-55 | A trigger is queued iff the buffer has room |
| HandshakeManagement.HandshakeManager.CheckAndComplete | handshake_manager.go:295-373 | Computes CheckAndCompleteOf over the manager's tables |
| HandshakeManagement.HandshakeManager.Complete | handshake_manager.go:378-412 | Computes CompleteOf over the manager's tables |
| HandshakeManagement.HandshakeManager.DeletePending | handshake_manager.go:446-449 | Removes the record from pending only |
| HandshakeManagement.HandshakeManager.RegisterIndex | handshake_manager.go:428-435 | Sets the record's local index and registers it in pending under that index; the index being free in both maps, no two records share a local index across pending and main afterwards |
| HandshakeManagement.HandshakeManager.AddIndexHostInfo | handshake_manager.go:414-440 | On a chosen free index, the record takes it and pending registers it; on an error nothing changes |
| Inside.IsMulticast | inside.go:461-468 | An address is class-D multicast exactly when it lies in 224.0.0.0 to 239.255.255.255 |
| Inside.SealStep | inside.go:255-314 | Without a session or key nothing happens; otherwise the session counter advances by one (wrapping at 2^64), the lighthouse is queried iff the message is not CloseTunnel and the rebind count moved, the packet is sealed under a header carrying the new counter iff encryption succeeds, and only then the outgoing byte count grows by the payload length |
| Inside.SealKeepsSessions | inside.go:255-314 | Sealing a message changes no record's address, readiness or key |
| Inside.SuccessiveSealsDiffer | inside.go:266 | Two successive sends on one session carry strictly increasing message counters |
| Inside.EarlyDrop | inside.go:25-38 | A packet is dropped, in this order, as a local broadcast (when enabled), as sent to ourselves, or as multicast (when enabled), and passes exactly when none applies |
| Inside.BestRelayIsFirstMinimum | inside.go:382-420 | No relay is found exactly when no lighthouse address has a ready record in main; otherwise the relay is the first ready record with the smallest handshake duration |
| Inside.ReplaceRelay | inside.go:408-419 | The relay host changes only to the best candidate, and only when there was none or the current one is slower by more than 50 |
| Inside.FirstOtherRelay | inside.go:433-459 | The better relay is the first address in the shuffled order with a ready record other than the current relay host, and none exactly when there is no such address |
| Inside.Interface.Resolve | inside.go:80-98 | A lighthouse with network 0 resolves nothing; an address in the tunnel network resolves to itself with mode 1; otherwise it goes through the unsafe-route table, mode 2, and 0 means no route |
| Inside.Interface.LookupIn | inside.go:98 | The lookup finds the main record of the resolved address, and nothing when it does not resolve |
| Inside.Interface.Lookup | inside.go:98-103 | Returns LookupIn and sets the found record's vpn mode unless it is already 2, changing nothing else |
| Inside.Interface.PendingRecord | inside.go:110-121 | Reuses the pending record for the address, or creates and schedules a new one |
| Inside.Interface.PrepareHandshake | inside.go:122-163 | A ready session is returned untouched; otherwise the mode is set, a missing stage-0 packet is created, and a static host is triggered when the buffer has room |
| Inside.Interface.GetOrHandshake | inside.go:79-165 | An unresolvable address gives nil and changes nothing; without initHandshake only the main lookup happens; with it, a main record is returned if present, otherwise the pending record for the resolved address |
| Inside.Interface.AmIConnectedWithThisIP | inside.go:422-431 | True exactly when the main map has a record for the address in the node's network |
| Inside.Interface.UpdateRelayHostInfo | inside.go:382-420 | Nothing on a lighthouse or without lighthouse addresses; otherwise the relay host becomes ReplaceRelay of the current one and the best candidate |
| Inside.Interface.GetABetterRelayServer | inside.go:433-459 | None on a lighthouse or without lighthouse addresses; otherwise the first ready lighthouse, in the shuffled order, that is not the current relay host |
| Inside.Interface.LookupFirstHop | inside.go:323-336 | The first hop tried is the requested relay, else the destination's preferred relay, looked up without a handshake |
| Inside.Interface.ChooseRelay | inside.go:318-343 | A lighthouse relays straight to the destination; another node uses the first hop when it has a remote and a session, else the current relay host, computing the best one when there is none |
| Inside.Interface.EmitRelay | inside.go:344-380 | No relay gives "Relayhostinfo is nil", a relay without remote gives "remotes from Relayhostinfo is nil", otherwise one relay packet goes out and the writer's error is returned; the relay record consumes one counter value exactly when it has a remote and a session, and no other record changes |
| Inside.Interface.EmitOn | inside.go:356-379 | The relay record's counter advances by exactly one and one packet with the relay header and the payload unencrypted goes to its remote; nothing else of the arena changes |
| Inside.Interface.SendRelay | inside.go:317-380 | The relay is chosen as ChooseRelay says and the packet is emitted through it with EmitRelay's errors; the returned relay record consumes one counter value when it has a remote and a session, and otherwise only VPN modes change |
| Inside.Interface.SendNoMetrics | inside.go:255-315 | Sealing follows SealStep; a keyless record or a send that may not encrypt sends nothing; the sealed packet goes to the remote directly, or through the relay as a RelayPacket from the certificate's address when relay is 1 and a certificate exists; on the relayed path the returned relay record (the destination's own record on a lighthouse) consumes one more counter value and carries the packet as SendRelay emits it, while the sent record keeps its sealed counter and out_bytes; the lighthouse is queried when the rebind count moved; no record's session presence or indexes change |
| Inside.Interface.SendDirect | inside.go:302-309 | The record is updated and the datagram, if any, is appended to the wire |
| Inside.Interface.RelaySealed | inside.go:293-313 | The record takes its sealed state, the sealed packet goes through SendRelay as a RelayPacket from our certificate address to the returned relay record's remote (or nowhere), that record consumes one more counter value, and out_bytes is counted on the record afterwards |
| Inside.Interface.SealRelayed | inside.go:255-301 | For a keyed relayed record whose packet encrypts: the counter advances once before encryption, the lighthouse query follows the rebind rule, and the packet goes out through the relay as NoMetricsSentVia states |
| Inside.Interface.SealDirect | inside.go:255-313 | In every other case: nothing without a key; otherwise the counter advances once even when encryption fails, and an encrypted packet of a direct record goes to its remote, as NoMetricsSentVia states |
| Inside.Interface.SendMessageToVpnIp | inside.go:214-244 | Dropped iff the address is multicast, 0 or unresolvable, with nothing sent. Otherwise getOrHandshake leaves every existing record's session and packet store as they were, and on the record it returns: the message is cached at the end of its store, nothing else changing, iff its session exists and is not ready; otherwise it is sent exactly as sendNoMetrics sends |
| Inside.Interface.ConsumeInsidePacket | inside.go:18-77 | A malformed packet, the three early drops and an unresolvable address each end the packet with no record and no change. Otherwise getOrHandshake leaves every existing record's session and packet store as they were, and on the record it returns: NilSession iff it has no session, NotReady iff its session is not ready (both changing nothing more, the packet not cached), and Sent iff the session is ready, the packet then sent as a Message exactly as sendNoMetrics sends |
| Inside.Interface.SendIfReady | inside.go:49-63 | On the record getOrHandshake gave: NilSession iff it has no session and NotReady iff its session is not ready, both leaving arena, wire and queries as they were; Sent iff the session is ready, the packet then sent as a Message exactly as sendNoMetrics sends |
| Inside.Interface.CloseTunnel | control.go:206 | closeTunnel as its callers use it: the record's address, local index and remote index leave the main map under the given network; the arena, the pending map and the timers do not change |
| Inside.ModesOnlyTrans | inside.go:98-103 | Updates that change only vpn modes compose |
| Inside.BestRelayModes | inside.go:382-420 | The best relay does not depend on vpn modes |
| Messaging.HeaderBytes | messaging.go:70-77 | The encoded messaging header is exactly 16 bytes |
| Messaging.DecodeHeader | messaging.go:79-89 | Version and flags are bytes 0 and 1 |
| Messaging.HeaderRoundTrip | messaging.go:70-89 | Parsing an encoded header, whatever follows it, gives back the same header |
| Messaging.HeaderBytesOfDecode | messaging.go:70-89 | Re-encoding a parsed 16-byte header, keeping its reserved bytes, gives the same bytes |
| Messaging.PutUint32 | messaging.go:73-75 | Writes the big-endian encoding into four bytes and leaves the rest of the buffer alone |
| Messaging.MHEncode | messaging.go:70-77 | The first 16 bytes become the encoded header (reserved bytes untouched) and the payload area is unchanged |
| Messaging.Header.constructor | messaging.go:66-68 | A new header is all zero |
| Messaging.Header.MHParse | messaging.go:79-89 | Fewer than 16 bytes gives "MH header is too short" and leaves the header alone; otherwise the header holds the decoded fields |
| Messaging.NewManager | messaging.go:57-64 | A new message manager has ten slots, sequence number 0, nothing pending and no reply received |
| Messaging.Attempts | messaging.go:152-161 | A message is sent at least once and at most three times, again only while no acknowledgement arrived |
| Messaging.AckPayload | messaging.go:162-172 | The reply of an acknowledged message is the payload of the ACK that ended the waits, the first to arrive within three tries |
| Messaging.Frame | messaging.go:118-136 | A frame is the 16-byte header followed by the packet itself |
| Messaging.FrameChecks | messaging.go:132-136 | A frame built with the packet's checksum parses back to its header, and the checksum matches the payload |
| Messaging.RecvAsWritten | messaging.go:184-210 | Taken as written, recvMessage slices msg[16:] before checking the parse error, so a message shorter than 16 bytes panics |
| Messaging.ShortFramePanics | messaging.go:184-188 | A three-byte message makes recvMessage panic |
| Messaging.Recv | messaging.go:184-210 | A short message is dropped with "MH header is too short" and otherwise behaves as written: an acknowledgement is recorded only for a known peer, an acknum below 10, the ack flag and a matching checksum; a message is delivered only with a matching checksum, an acknum below 10 and no ack flag |
| Messaging.SentFrameAccepted | messaging.go:114-210 | A frame sendMessage builds is accepted by recvMessage: a message is delivered with its payload, an acknowledgement recorded with its payload |
| Messaging.FirstActiveFrom | messaging.go:212-220 | The first active event from a position, or none when none is active |
| Messaging.DeactivateCount | messaging.go:218-219 | Deactivating an active event lowers the number of active events by one |
| Messaging.TakenOnce | messaging.go:212-231 | Taking the next event deactivates it, so the next call returns a later event or none |
| Messaging.Messaging.constructor | messaging.go:92-99 | A new messaging layer has no message managers and a ring of 8 empty slots |
| Messaging.Messaging.SendMessage | messaging.go:114-182 | A sequence number of 10 or more, an unreachable host and a host not ready give their errors and send nothing; an acknowledgement is sent once and reported as unsure; a message goes out up to three times, and on acknowledgement returns the payload of the first ACK to arrive, which is stored as its slot's reply, and advances the sequence number modulo 10; otherwise it fails with "Message not sent. Try again" and stays pending |
| Messaging.Messaging.SendReady | messaging.go:152-181 | With the host ready: the frame goes out once for an acknowledgement (reported as unsure, the slot left pending) and up to three times for a message; an acknowledged message returns the first ACK's payload, stored as the slot's reply, with the slot released and the sequence number advanced modulo 10 |
| Messaging.Messaging.Complete | messaging.go:167-181 | Clears the pending flag, returns the received reply and advances the sequence number modulo 10 |
| Messaging.Messaging.RecvMessage | messaging.go:184-210 | The outcome is Recv of the message. A recorded acknowledgement stores its payload under its acknum and touches nothing else. A delivered message, and only that, is run through ProcessMessage: the action is Dispatch of the decodes, and the event ring changes only for a router event, which is stored in it. Every other outcome leaves managers and ring as they were |
| Messaging.Messaging.GetNextEvent | messaging.go:212-232 | Returns the first active event in ring order, deactivated in the ring, and none with no change when none is active |
| Messaging.Transmit | messaging.go:151-166 | Every transmission is the same frame; an ACK goes out once and waits for nothing; a message goes out Attempts times, and an ACK is returned exactly when one arrives within three tries, the first to arrive |
| Messaging.BuildFrame | messaging.go:115-137 | Builds the frame of header and packet |
| Messaging.NextSeqnum | messaging.go:174-180 | With the current slot free, the next sequence number is the current one plus one modulo 10 |
| MainConfig.RelayIndexOf | main.go:106 | The relay index is the configured integer truncated to its low eight bits, the value itself when it fits |
| MainConfig.LighthouseCidr | main.go:107 | A lighthouse's tunnel network is 172.16.128.<relay index>/24 |
| MainConfig.LighthouseCidrMembers | main.go:107 | Whatever the relay index, the lighthouse network holds exactly 172.16.128.0 to 172.16.128.255 |
| MainConfig.LighthouseNameAsWritten | main.go:108 | As written, the name is "Server" followed by the single character whose code is the relay index |
| MainConfig.LighthouseNameAsWrittenIsNotDecimal | main.go:108 | Relay index 1 gives a name other than "Server1", whose last character is not a digit |
| MainConfig.LighthouseName | main.go:108 | The corrected name is "Server" followed by decimal digits |
| MainConfig.LighthouseNameNamesIndex | main.go:108 | The corrected name's digits read back as the relay index, so distinct indexes give distinct names |
| MainConfig.RoutinesOf | main.go:131-156 | A non-zero routines setting is used, raised to 1 when below; otherwise the larger of tun.routines and listen.routines |
| MainConfig.ConntrackCacheTimeout | main.go:158-162 | With more than one routine and the key unset the timeout is one second, otherwise the configured value |
| MainConfig.RangeEntry | main.go:211-217 | A preferred range is accepted exactly when it parses as a CIDR, and is that network |
| MainConfig.MergeLocalProperties | main.go:221-243 | Merging local_range keeps the preferred ranges as a prefix, adds at most one entry, always ends up with the local range's form, and merging twice changes nothing more |
| MainConfig.MergeLocalKeepsDistinct | main.go:233-242 | Ranges with distinct string forms stay distinct after the merge |
| MainConfig.PreferredRangesCases | main.go:208-243 | Fails exactly when a preferred range or a non-empty local_range does not parse; otherwise keeps every preferred range in order and contains the local range's form |
| MainConfig.ParseRanges | main.go:211-218 | Parses the preferred ranges in order, stopping at the first that fails |
| MainConfig.FindForm | main.go:233-239 | True exactly when some range has the same string form as the local range |
| MainConfig.PreferredRanges | main.go:208-243 | Computes PreferredRangesOf of the two settings |
| MainConfig.LighthouseEntry | main.go:279-287 | A lighthouse host that does not parse is refused with its 1-based entry number, one outside the tunnel network is refused, otherwise it is its vpn address |
| MainConfig.LighthouseHostsInSubnet | main.go:277-288 | Accepted lighthouse hosts are one per entry, each the parsed address and inside the tunnel network |
| MainConfig.CheckLighthouseHost | main.go:279-287 | Checks one lighthouse host as LighthouseEntry says |
| MainConfig.LighthouseHosts | main.go:277-288 | Checks every lighthouse host in order, stopping at the first refused one |
| MainConfig.AddrEntry | main.go:325-330 | A static address is accepted exactly when it parses, and is refused naming the key |
| MainConfig.StaticKey | main.go:318-323 | A static_host_map key is usable only as an address inside the tunnel network |
| MainConfig.StaticHostsInSubnet | main.go:317-341 | Every accepted static remote is inside the tunnel network, and a relay server is one of them |
| MainConfig.StaticErrSticks | main.go:317-341 | Once a static_host_map entry is refused, later entries do not change the error |
| MainConfig.ParseEntryAddrs | main.go:324-340 | Parses a list value address by address, or a single value as one address |
| MainConfig.StaticHostMap | main.go:317-341 | Walks static_host_map in the given order and computes StaticHostMapOf |
| MainConfig.NoiseBigEndian | main.go:417-424 | "aes" selects big-endian, "chachapoly" little-endian, anything else is an unknown-cipher error |
| MainConfig.DeriveOk | main.go:72-424 | A successful derivation has network 0 and the relay-index network on a lighthouse (with a listen port), the certificate's network and id otherwise, lighthouse hosts and static remotes inside the tunnel network, big-endian iff aes, DNS served only by a lighthouse, and at least one routine when routines is set |
| MainConfig.DeriveRefuses | main.go:87-92 | A non-lighthouse without a certificate fails with the certificate's error; a lighthouse without a listen port fails; an unknown cipher fails |
| MainConfig.ReadStringSlice | main.go:209 | Reads a string list setting |
| MainConfig.ReadSettings | main.go:72-401 | Reads every setting Main consults |
| MainConfig.Derive | main.go:72-424 | The step-by-step derivation gives exactly DeriveOf of the settings read from the configuration, whose successes and refusals DeriveOk and DeriveRefuses describe; a lighthouse gets the corrected decimal name (see Left out) |
| MainConfig.DeriveSteps | main.go:131-424 | Derives the settings after the identity, step by step, as DeriveRest |
| MainActivity.FirstIndex | cmd/nebula/main_activity.go:280-287 | The first entry with a given subnet |
| MainActivity.BuildUnsafeRoutes | cmd/nebula/main_activity.go:274-301 | The custom-mode loop keeps the first entry of each subnet and converts it, failing at the first kept entry whose MTU is not an integer |
| MainActivity.StepSkip | cmd/nebula/main_activity.go:281-287 | An entry whose subnet already has a route adds nothing |
| MainActivity.StepKeep | cmd/nebula/main_activity.go:288-297 | A new subnet with an integer MTU is kept and converted at the end |
| MainActivity.ScanRoutes | cmd/nebula/main_activity.go:281-287 | The inner scan finds a route to the subnet exactly when one of the first n routes has it |
| MainActivity.KeptStops | cmd/nebula/main_activity.go:293-296 | A kept entry with a non-integer MTU makes the whole save fail with that MTU |
| MainActivity.KeptTaken | cmd/nebula/main_activity.go:274-301 | Every subnet of the input has a kept route, and no other subnet does |
| MainActivity.KeptIsFirst | cmd/nebula/main_activity.go:274-301 | Each kept entry is the first input entry for its subnet |
| MainActivity.KeptInOrder | cmd/nebula/main_activity.go:274-301 | Kept entries appear in the order of their first occurrence |
| MainActivity.KeptDistinct | cmd/nebula/main_activity.go:274-301 | No two kept entries share a subnet |
| MainActivity.SaveSettingsModes | cmd/nebula/main_activity.go:270-332 | Fullvpn is set exactly in full mode; DNS is copied; full mode gives the single route 0.0.0.0/0 via the first entry with MTU 1300; other modes give no route; custom mode gives the converted first-per-subnet routes, all distinct |
| MainActivity.ToRoutesConverted | cmd/nebula/main_activity.go:288-297 | A successful conversion converts each kept entry in order |
| MainActivity.ToRoutesRefusesBadMtu | cmd/nebula/main_activity.go:293-296 | A kept entry with a non-integer MTU makes the conversion fail |
| MainActivity.RouterIPChoice | cmd/nebula/main_activity.go:503-514 | A single entry gives its device IP |
| MainActivity.FirstPrimaryIsFirst | cmd/nebula/main_activity.go:506-513 | With several entries, the first with a non-zero primary flag gives the IP, and "" when there is none |
| MainActivity.LinkStatusNeverInProgress | cmd/nebula/main_activity.go:661-690 | As written, with non-nil listings the status is never IN_PROGRESS, and a started link with only pending hosts reads DISCONNECTED |
| MainActivity.LinkStatusOf | cmd/nebula/main_activity.go:661-690 | NOT_STARTED iff no controller, CONNECTED iff established hosts exist, IN_PROGRESS iff only pending hosts exist, DISCONNECTED iff neither |
| MainActivity.LinkStatusOfAgrees | cmd/nebula/main_activity.go:661-690 | The corrected status differs from the written one only where the written one says DISCONNECTED with pending hosts |
| MainActivity.CommandOf | cmd/nebula/main_activity.go:544-620 | Command codes above 8 are unknown |
| MainActivity.DispatchGate | cmd/nebula/main_activity.go:544-558 | Disconnect is ignored unless connected, Connect is ignored when connected, and other commands act whatever the status |
| MainActivity.FirstSuccessIsFirst | cmd/nebula/main_activity.go:431-437 | The retry loop stops at the first attempt that succeeds |
| MainActivity.SendNonTunMessage | cmd/nebula/main_activity.go:426-440 | As written, the counter rises twice per iteration, so at most three calls are made; the result is the last call's, a success exactly when one of the first three calls succeeds |
| MainActivity.SendNonTunMessageFiveTries | cmd/nebula/main_activity.go:426-440 | With the five tries its comment promises, the result is a success exactly when one of the first five calls succeeds |
| MainActivity.FourthCallLost | cmd/nebula/main_activity.go:431-437 | A peer answering only the fourth call: the written loop gives up after three failures, five tries would succeed on the fourth |
| MainActivity.Entry | cmd/nebula/main_activity.go:638-659 | A host's entry copies address and counters; rate differences are computed only for addresses in the previous snapshot |
| MainActivity.ListedKeys | cmd/nebula/main_activity.go:638-659 | Adding hosts adds exactly their addresses to the table |
| MainActivity.ListedLast | cmd/nebula/main_activity.go:638-659 | An address listed several times keeps its last entry |
| MainActivity.ListedUntouched | cmd/nebula/main_activity.go:638-659 | Addresses not listed keep their entries |
| MainActivity.RefreshedHolds | cmd/nebula/main_activity.go:671-686 | A connected refresh holds exactly the listed and pending addresses, an established host marked connected |
| MainActivity.MainActivity.constructor | cmd/nebula/main_activity.go:114-129 | A new activity has no hosts, no snapshot and no router IP |
| MainActivity.MainActivity.AddHostsEntry | cmd/nebula/main_activity.go:638-659 | Adds one entry per listed host |
| MainActivity.MainActivity.GetLinkStatus | cmd/nebula/main_activity.go:661-690 | The status is LinkStatusOf; only when connected the old table becomes the snapshot and the table is rebuilt |
| MainActivity.MainActivity.ProcessCommands | cmd/nebula/main_activity.go:544-620 | Dispatches the command against the current link status |
| MainActivity.MainActivity.GetRouterIP | cmd/nebula/main_activity.go:490-516 | A failed fetch returns its error and keeps the router IP; otherwise the router IP becomes RouterIPChoice of the reply |
| RouterTelemetry.NewEventState | router/router_telemetry.go:235-245 | newEvent writes an active event with the next serial into the current slot, leaves the other seven slots alone, advances the position modulo 8, and changes no client or repeater |
| RouterTelemetry.NewEventsPos | router/router_telemetry.go:243-244 | After n events the position has advanced n slots and the serial n |
| RouterTelemetry.NewEventsWritten | router/router_telemetry.go:235-245 | Of up to 8 successive events, the j-th sits j slots after the starting position |
| RouterTelemetry.NewEventsKept | router/router_telemetry.go:235-245 | Slots not reached by up to 8 successive events keep their old contents |
| RouterTelemetry.SlotNext | router/router_common.go:27 | The ring wraps after 8 slots |
| RouterTelemetry.OffsetsDiffer | router/router_common.go:27 | Fewer than 8 successive events land in distinct slots |
| RouterTelemetry.FirstActiveIsOldest | router/router_telemetry.go:247-263 | The event found is the first active one walking the ring from the current position, and none earlier is active |
| RouterTelemetry.SlotOffset | router/router_telemetry.go:254 | The walk from the current position visits every slot |
| RouterTelemetry.NoActiveEvent | router/router_telemetry.go:247-263 | When the walk finds nothing, no slot holds an active event |
| RouterTelemetry.Marked | router/router_server.go:215-217 | Marking sets the active flag of the event in its slot only while that slot still holds the same serial; every other slot, and a slot since overwritten, is unchanged |
| RouterTelemetry.MarkedTold | router/router_server.go:211-217 | After the found event is marked inactive, the next walk finds none or a later event |
| RouterTelemetry.AdmissionRules | router/router_telemetry.go:191-204 | A new client is admitted exactly when its MAC starts with two hex digits whose second is even (not multicast), and its IP is neither "0.0.0.0" nor "" |
| RouterTelemetry.ClientName | router/router_telemetry.go:200-204 | A new client's name has every '-' replaced by '_' and is cut to at most 32 characters |
| RouterTelemetry.CreateClientRefused | router/router_telemetry.go:192-203 | Only an unknown, inadmissible client is refused, and then nothing changes |
| RouterTelemetry.CreateClientNew | router/router_telemetry.go:192-212 | A new admissible client gets a fresh record built from its details, marked dirty, and a NEWCLIENTEVENT carrying its IP is written to the current slot |
| RouterTelemetry.CreateClientNewOthers | router/router_telemetry.go:192-212 | Creating a client changes no existing record and no other MAC's mapping except the alias |
| RouterTelemetry.CreateClientKnown | router/router_telemetry.go:213-219 | For a known client only Fwver changes (and IsRepeater when aliased); no event is raised and no other record changes |
| RouterTelemetry.CreateClientAlias | router/router_telemetry.go:216-219 | extramac names the same record as mac, whose IsRepeater is set |
| RouterTelemetry.FirstBlockedIsFirst | router/router_telemetry.go:226-233 | The blocked IP reported is the first remote IP in the blocklist, and none when no remote IP is listed |
| RouterTelemetry.ProcessDeviceEvents | router/router_telemetry.go:268-275 | A known client with a blocklisted remote IP raises BLOCKEDIPEVENT for the first such IP; an unknown client raises at most a NEWCLIENTEVENT; otherwise no event |
| RouterTelemetry.ProcessDeviceSeen | router/router_telemetry.go:276-283 | After a device report the client is known iff it was known or is admissible; a known client's Lastseen and IPAddress are updated and its Fwver cleared |
| RouterTelemetry.UpdateWirelessOnly | router/router_telemetry.go:288-298 | An unknown MAC changes nothing; a known one becomes wireless with the given channel and RSSI, dirty and seen now, nothing else changing |
| RouterTelemetry.RegisterRepeaterLimit | router/router_telemetry.go:360-400 | With 5 repeaters registration fails even for a known MAC; otherwise the repeater is stored, and NewRepeater is set only for an unseen MAC |
| RouterTelemetry.CleanedClean | router/router_telemetry.go:137-157 | After dumping, every record reached under its own MAC is clean and nothing else about any record changes |
| RouterTelemetry.ShownExactly | router/router_telemetry.go:433-465 | The dump lists exactly the records reached under their own MAC and seen within 24 hours |
| RouterTelemetry.ShownPrefix | router/router_telemetry.go:440-460 | The dump grows monotonically along the map walk |
| RouterTelemetry.Telemetry.constructor | router/router_telemetry.go:79-97 | A new telemetry has no clients, no repeaters, an empty 8-slot ring at position 0 and no pending log upload |
| RouterTelemetry.Telemetry.NewEvent | router/router_telemetry.go:235-245 | Updates the state as NewEventState |
| RouterTelemetry.Telemetry.GetNextEvent | router/router_telemetry.go:247-263 | Returns the slot and event of the first active event from the current position, without deactivating it, and none exactly when the walk finds none |
| RouterTelemetry.Telemetry.MarkRouterEvent | router/router_server.go:215-217 | Sets the active flag of the given event |
| RouterTelemetry.Telemetry.CreateClient | router/router_telemetry.go:191-224 | Updates the state and reports the error as CreateClientResult |
| RouterTelemetry.Telemetry.AddNewClient | router/router_telemetry.go:205-208 | Records the new client under the next id and raises its NEWCLIENTEVENT |
| RouterTelemetry.Telemetry.AddAlias | router/router_telemetry.go:216-219 | Maps extramac to mac's record and sets IsRepeater |
| RouterTelemetry.Telemetry.ProcessDevice | router/router_telemetry.go:267-283 | Handles one device report as ProcessDeviceState |
| RouterTelemetry.Telemetry.Refresh | router/router_telemetry.go:280-283 | Updates Lastseen and IPAddress of a known device |
| RouterTelemetry.Telemetry.ProcessTelemetry | router/router_telemetry.go:265-286 | Handles the device reports in order as ProcessDevicesState |
| RouterTelemetry.Telemetry.UpdateWireless | router/router_telemetry.go:288-298 | Updates the state as UpdateWirelessState |
| RouterTelemetry.Telemetry.DumpRouterClients | router/router_telemetry.go:137-157 | Updates the state as Cleaned |
| RouterTelemetry.Telemetry.RegisterRepeater | router/router_telemetry.go:360-400 | Updates the state and reports the error as RegisterRepeaterResult |
| RouterTelemetry.FillClientInfos | router/router_telemetry.go:437-458 | The array holds, slot by slot, the info of each client the walk shows, while at most 128 are shown; a 129th is an error |
| RouterTelemetry.Telemetry.DumpClientsJson | router/router_telemetry.go:433-465 | Returns one info per shown client, in walk order, while at most 128 are shown; more is an error |
| RouterTelemetry.Telemetry.RequestUploadLogs | router/router_server.go:193-195 | Sets the upload flag |
| RouterTelemetry.Telemetry.ShallUploadLogs | router/router_server.go:197-204 | Returns the upload flag and clears it |

## Left out

- Cryptography is an uninterpreted outcome.
  - Noise handshakes (`handshake_ix.go`), `EncryptDanger` and `decrypt` are
    booleans or values passed in, such as `encryptOk` and the stage-1 answer.
  - Certificates are not part of this model (`cert.go`).
- Concurrency is sequential.
  - Goroutines, channels, ticker loops, locks and atomics are each taken as one
    sequential step.
  - `Start`, `ShutdownBlock`, `RegisterAppCallBack` and `SendMessageToMobile`,
    which only start goroutines or register callbacks, are not modelled.
  - The 8-second wait for an acknowledgement is a sequence of booleans
    (`acks`): whether an acknowledgement arrived in each attempt.
- Time is a parameter.
  - Wall-clock time is passed as `now`.
  - Sleeps between retries are not modelled.
- `hostmap.go`, the timer wheel, `header.go`, `udp` and `iputil` are not part
  of this model.
  - A host map is three maps keyed by network id.
  - The timer wheel is the list of entries added to it.
  - `udp.ParseIPAndPort`, `RouteFor` and the `cidr.Tree4` are parameters or
    abstract maps.
  - The construction of an `Interface` (`interface.go`) is not part of this
    model.
- The order of Go map iteration is a parameter (`order`) wherever the
  result depends on it.
- IPv6 literals are treated as unparseable: the model handles only IPv4
  dotted quads.
- Configuration file discovery, YAML and JSON (un)marshalling and `mergo` are
  not modelled.
  - `HasChanged` compares the looked-up values themselves; the YAML text it
    compares them through is not modelled, so two values that marshal alike
    but differ as values count as changed here.
  - `GetDuration` is not modelled.
  - The YAML and file writes of `saveConfig` are not modelled.
- In `Main`, the certificate, firewall, TUN device, UDP listener, allow lists,
  SSH and DNS server set-up are not modelled. Only the settings it derives
  are.
- `getRelayServerRoutes` and `AddRoutes` in `main_activity.go` are not
  modelled: they depend on `udp.ParseIPAndPort` and on the device.
- Telemetry I/O is not modelled:
  - the file dumps and reads (`dumpClientStats`, `readClientDetails`,
    `readRepeaterInfo`, `RepeatersJson`);
  - the HTTP fetch of `getBlockListIPs`, for which the blocklist is a
    parameter;
  - DNS entries;
  - the nested walk of `processWirelessTelemetry`, of which only
    `updateWireless` per station is modelled;
  - `pauseClient`, `pauseAll`, `setClientDetails` and `updateClientsList` in
    `router_telemetry.go`, which only call out to the router.
- Messaging: an acknowledgement that arrives for a peer with no message
  manager makes the source dereference nil. `RecvAsWritten` reports this
  as a panic, and `Recv` drops it.
- RouterTelemetry.ClientName: a cut to 32 counts characters, not bytes.
  The two agree on ASCII names.
- RouterTelemetry.Admission: a MAC shorter than two characters makes the
  source panic on the slice. The model refuses it as a bad MAC.
- RouterTelemetry.Telemetry.DumpClientsJson: a 129th shown client overruns
  the 128-slot array and panics in the source. The model returns an error.
- RouterTelemetry.ProcessDeviceSeen: `processTelemetry` calls `createClient`
  with an empty firmware version. A known client's `Fwver` is therefore
  cleared, and the model states exactly that.
- MainActivity.BuildUnsafeRoutes: FullVPN with no entries reads the first
  entry unchecked and panics in the source. The model reports
  `NoRouteEntries`.
- Inside.Interface.SendRelay: a nil relay host or remote is modelled as an
  error result, as the source returns it. A nil session panics in the source
  and is an error here.
- Inside.Interface.ConsumeInsidePacket: a nil session on an established
  record panics in the source and is the `NilSession` outcome here.
- Inside.Interface.SendMessageToVpnIp: the packet cache of a session that is
  not ready is unbounded, as in the source.
- Inside.Interface.CloseTunnel: the body of `closeTunnel` (`interface.go`) is
  not part of this model. Its callers' effect is modelled: the record's
  address, local index and remote index leave the main map under the network
  argument. The connection manager's and the lighthouse's own clean-up, and
  the removal of the record from the pending map, are not modelled, and the
  record stays in the arena.
- Control.Control.CloseAllTunnels: `order` lists every key of the main map
  once, standing for the Go map walk. The lemmas that say exactly which keys
  leave the map (`ClosePassExact`, `StopClosesLighthousesLast` and the
  corresponding ensures of `CloseAllTunnels` and `Stop`) hold for a main map
  whose keys all lie in our own network, because `closeTunnel` removes keys
  under that network while the walk visits every network.
- Control.Control.Stop: its two passes are stated as two runs of the loop of
  `CloseAllTunnels` (`CloseBothPasses`), whose counts `Stop` discards, as the
  source does.
- Control.Closes: a record without a `ConnectionState` is skipped. The
  source reads `h.ConnectionState.ready` at `control.go:223` and dereferences
  nil there.
- HandshakeManagement.HandshakeManager.Valid: the invariant that every
  address names a record carrying that address covers the main map only, not
  the pending map. The uniqueness of a (network, local index) key across
  pending and main is part of it and is kept by every operation.
- Messaging.Messaging.SendMessage: `reach` stands for the outcome of
  `getOrHandshake(vpnIp, networkID, true)` at `messaging.go:142`. The
  handshake that call may start is not modelled. A record whose
  `ConnectionState` is nil, which the source dereferences at
  `messaging.go:146-148`, has no `Reach` value. The frames it sends are
  recorded in `sent`: they consume no message counter of the session and are
  not written to the interface's wire.
- Messaging.Messaging.SendReady: the reply is the ACK's payload, stored in
  the slot before the slot is read. In the source, recvMessage signals the
  ACK on the slot's channel before it stores the payload
  (`messaging.go:203-204`), in another goroutine, so sendMessage may read
  the slot first; that race is not modelled.
- Messaging.Messaging.RecvMessage: the answer ProcessMessage returns goes back
  as an ACK through `go m.sendMessage` (`messaging.go:208`); the action is
  returned instead, and the handlers other than the router event's are not
  part of this model.
- MainConfig.Derive: the lighthouse name is the corrected decimal one
  (`LighthouseName`, "Server1"). `main.go:108` builds `"Server" +
  string(relayIndex)` ("Server\u0001"), which `LighthouseNameAsWritten`
  models; see Findings. `MainConfig.Identity` uses the same corrected name.
- MainActivity.MainActivity.GetLinkStatus: the status is the corrected
  `LinkStatusOf`, which reports IN_PROGRESS when only pending hosts exist. The
  source as written never does (`LinkStatusAsWritten`); see Findings.
- Route.RouteEntry: an `mtu` that is neither an integer nor a string fails
  the unchecked `.(string)` assertion at `overlay/route.go:74` and panics.
  The model returns the `PanicNotString` error instead.
- Route.UnsafeRouteEntry: the same holds for `mtu` and `metric` at
  `overlay/route.go:141` and `overlay/route.go:159`.
- NhUtil.ConvertIntoXbps: requires a factor above zero. A zero factor
  divides by zero at `nh_util/nh_util.go:159` and panics.
- NhUtil.Ip2int: requires at least four bytes. A shorter slice panics in
  the source.
- Control.Control.GetHostInfoByVpnIp: `GetRouterPublicIP` and the control
  `SendMessage` are identical in the source to `GetHostInfoByVpnIp` and
  `SendNonTunMessage`, and are not modelled twice.
- MainActivity.MainActivity.GetLinkStatus: the whole-map copies of `hosts`
  into `prevhosts` are stated as map assignments.
- Logging and metrics are not modelled.
- The GUI, the HTTP handlers and the SQL signing path are not modelled.

## Findings

| source | as written | input that shows it | evidently intended | confidence | as-written member | corrected member |
|---|---|---|---|---|---|---|
| nh_util/nh_util.go:124-151 | The fraction printed is the first two decimal digits of the raw remainder in bytes | 1536 bytes print as "1.51 KB" | The amount in units cut to two decimals, "1.50 KB" | not executed | NhUtil.ConvertIntoXBMisprintsFraction | NhUtil.ConvertIntoXBHundredthsIsTruncation |
| cmd/nebula/main_activity.go:426-440 | The loop counter rises twice per iteration, so `ctrl.SendNonTunMessage` is called at most 3 times | Three failed calls, then a call that would succeed: the written loop stops after the third and returns its failure | 5 tries, as its comment says | not executed | MainActivity.FourthCallLost | MainActivity.SendNonTunMessageFiveTries |
| cmd/nebula/main_activity.go:661-690 | IN_PROGRESS needs `hosts == nil`, but `ListHostmap` always returns a non-nil slice | A started link with no established host and one pending host reads DISCONNECTED | IN_PROGRESS when only pending hosts exist | not executed | MainActivity.LinkStatusNeverInProgress | MainActivity.LinkStatusOfAgrees |
| messaging.go:184-188 | `msg[16:]` is taken before the header parse error is checked | A 3-byte message: the slice panics | Drop a message shorter than the header | not executed | Messaging.ShortFramePanics | Messaging.Recv |
| main.go:108 | The lighthouse name is "Server" plus `string(byte)`, the character whose code is the relay index | Relay index 1 gives "Server\u0001", not "Server1" | "Server" followed by the decimal index | not executed | MainConfig.LighthouseNameAsWrittenIsNotDecimal | MainConfig.LighthouseNameNamesIndex |
| messages/messages.go:257-258 | `Events = Events.Next()` only moves the local copy of the ring pointer | Two router events: the second overwrites the first | Advance the caller's ring, as `router_telemetry.go:243-244` does | not executed | Messages.EventsOverwriteOneSlot | Messages.AdvancingKeepsEvents |
