# stunner STUN/TURN codec and command logic in Dafny

This project models the core of `stunner`, a tool that tests STUN and TURN
servers. Its `internal` package holds a STUN/TURN codec, and its
`internal/cmd` package holds the commands built on that codec.

The codec covers:

- the message type packing;
- the attribute layout with its 4-byte padding;
- header and attribute parsing;
- serialization with MESSAGE-INTEGRITY;
- the XOR address encodings;
- the request builders for Binding, Allocate, Send, CreatePermission, ChannelBind, Refresh, Connect and ConnectionBind;
- the name tables, ERROR-CODE parsing and ChannelData extraction.

For each command the project models:

- its option check;
- the packets it builds;
- how it classifies server answers;
- the order in which it probes and when it stops.

Each model is stated over values: bytes are integers 0..255, and Go's
`uint16` conversions are written out modulo 65536. Randomness, the network
and the HMAC-SHA1 message integrity are parameters. A Go panic (slicing a
value that is too short) becomes a precondition.

One module per Go file:

| file | module |
|---|---|
| `internal/types_stun.go` | `TypesStun` |
| `internal/types_turn.go` | `TypesTurn` |
| `internal/types_turntcp.go` | `TypesTurnTcp` |
| `internal/helpers_stun.go` | `HelpersStun` |
| `internal/helpers_turn.go` | `HelpersTurn` |
| `internal/helpers_string.go` | `HelpersString` |
| `internal/parsers_stun.go` | `ParsersStun` |
| `internal/parsers_turn.go` | `ParsersTurn` |
| `internal/stun.go` | `StunCodec` |
| `internal/requests_stun.go` | `RequestsStun` |
| `internal/requests_turn.go` | `RequestsTurn` |
| `internal/requests_turntcp.go` | `RequestsTurnTcp` |
| `internal/helper/helper.go` | `Helper` |
| `internal/cmd/<name>.go` | `Cmd<Name>` |

Some modules are shared:

- `CmdCommon` holds what the command files share.
- `Bytes` holds the byte-level arithmetic and the Go standard-library functions the code calls.
- `Text` holds Go's `strings` functions.
- `Results` holds `Option` and `Result`.

## Model

| member | source | states |
|---|---|---|
| Bytes.ToU16 | internal/stun.go:87 | a `uint16(...)` conversion keeps every length below 65536 unchanged |
| Bytes.PutU32LE | internal/requests_turn.go:11-12 | the little-endian REQUESTED-TRANSPORT encoding is 4 bytes whose reversal reads back as the value |
| Bytes.XorInvolution | internal/helpers_turn.go:14-25 | XOR with the same key byte twice gives the byte back |
| Helper.PutUint16 | internal/helper/helper.go:64-68 | 2 big-endian bytes that read back as the value |
| Helper.PutUint32 | internal/helper/helper.go:71-75 | 4 big-endian bytes that read back as the value |
| Helper.PutReadU16 | internal/helper/helper.go:64-68 | encoding what was read from 2 bytes gives those bytes (the inverse direction) |
| Helper.PutReadU32 | internal/helper/helper.go:71-75 | the same for 4 bytes |
| Helper.RandomString | internal/helper/helper.go:26-33 | the string has the requested length, and each character is the letter picked for its position |
| Helper.ChannelNumberOf | internal/helper/helper.go:49-61 | a returned channel number lies in 0x4000..0x7FFF |
| Helper.ChannelNumberFirstStop | internal/helper/helper.go:49-61 | the result is decided by the first draw that is either a read error or in range |
| Helper.RandomChannelNumber | internal/helper/helper.go:49-61 | the redraw loop returns exactly ChannelNumberOf of the draws |
| HelpersStun.Align | internal/helpers_stun.go:18-20 | the next multiple of 4 at or above n; the uint16 arithmetic wraps to 0 above 0xfffc |
| HelpersStun.AlignIsLeast | internal/helpers_stun.go:18-20 | Align gives the least multiple of 4 at or above n |
| HelpersStun.Padding | internal/helpers_stun.go:23-26 | the input followed by 0 to 3 zero bytes, ending on a multiple of 4 |
| HelpersStun.PadLengthShift | internal/helpers_stun.go:23-26 | the padding of a length and of that length plus 4 agree |
| HelpersStun.PaddingIdempotent | internal/helpers_stun.go:23-26 | padding an already padded buffer changes nothing |
| HelpersStun.PaddingVectors | internal/helpers_stun_test.go:16-20 | padded lengths of the test vectors |
| TypesStun.ToUint16 | internal/types_stun.go:87-91 | class bits land at 0x10 and 0x100; method bits are masked but not shifted; small methods pack as RFC 5389 section 6 lays out |
| TypesStun.SerializeType | internal/types_stun.go:82-85 | two big-endian bytes of toUint16 |
| TypesStun.BindingTypeVectors | internal/types_stun.go:82-91 | Binding request is 0x0001 and Binding success is 0x0101 |
| TypesStun.EffectiveLength | internal/types_stun.go:222-226 | an attribute length of 0 is replaced by the value's length |
| TypesStun.SerializeAttribute | internal/types_stun.go:222-234 | type, length, value, zero padding to a multiple of 4 |
| TypesStun.SerializeAttributes | internal/stun.go:61-69 | the attributes laid out back to back, a multiple of 4 long and empty only without attributes |
| TypesStun.SerializeAttributesAppend | internal/stun.go:61-69 | serializing one more attribute appends its bytes |
| TypesStun.FallbackErrorText | internal/types_stun.go:308-318 | the STUN name, else the TURN name, else the TURN-TCP name, else "Invalid Error" |
| TypesStun.ParseError | internal/types_stun.go:303-321 | code = class*100 + number; the text is the reason phrase unless that is blank, and the table name otherwise |
| TypesStun.ParseEncodeError | internal/types_stun.go:303-321 | parsing an ERROR-CODE value laid out as in section 15.6 of RFC 5389 gives back its code and its non-blank reason |
| TypesStun.ParseErrorCodeVsRfc | internal/types_stun.go:303-321 | the code agrees with the RFC's 3-bit class exactly when the reserved bits of byte 2 are zero |
| TypesStun.ParseErrorTextNotBlank | internal/types_stun.go:303-321 | ParseError never returns a blank text |
| TypesStun.ErrorTablesDisjoint | internal/types_stun.go:387-396 | the STUN, TURN and TURN-TCP error tables share no code |
| TypesTurn.TurnMethodsAreSmall | internal/types_turn.go:55-62 | every TURN method fits in the 4 low method bits |
| TypesTurn.TurnAttrTable | internal/types_turn.go:87-99 | the codes of the TURN attribute table |
| ParsersStun.ParseMessageType | internal/parsers_stun.go:38-57 | class 0..3 and method below 0x1000 for any two bytes |
| ParsersStun.RfcPack | internal/parsers_stun.go:38-57 | the 14-bit type field of section 6 of RFC 5389 (method bits 0-3, 5-7, 9-13; class bits 4 and 8), defined independently of the decoder |
| ParsersStun.ParseRfcPack | internal/parsers_stun.go:45-52 | for every class 0..3 and method below 0x1000, the RFC packing parses back to that class and method |
| ParsersStun.RfcPackOfParse | internal/parsers_stun.go:45-52 | conversely, every two bytes, with bits 14 and 15 dropped, are the RFC packing of what they parse to |
| ParsersStun.ParseIgnoresTopBits | internal/parsers_stun.go:45-52 | two type fields that differ only in bits 14 and 15 parse the same |
| ParsersStun.ParseMessageTypeExample | internal/parsers_stun_test.go:50-53 | 0x0113 parses to class 3, method 3 |
| ParsersStun.TypeRoundTrip | internal/parsers_stun.go:38-57 | parsing a serialized type gives it back exactly when the method is below 0x10 |
| ParsersStun.LargeMethodExample | internal/types_stun.go:87-91 | method 0x10 serializes and parses back as method 0 |
| ParsersStun.ParseHeader | internal/parsers_stun.go:29-36 | the type is parseSTUNMessageType of bytes 0..2, the length is bytes 2..4 and the transaction ID is bytes 8..20 |
| ParsersStun.ParseHeaderIgnoresCookie | internal/parsers_stun.go:29-36 | the magic cookie bytes do not affect the parsed header |
| ParsersStun.NextPos | internal/parsers_stun.go:76-84 | the cursor advances by at least 4 and stays 4-aligned |
| ParsersStun.AttributeAt | internal/parsers_stun.go:66-75 | the value is as long as the length field, and the padding is what makes it 4-aligned |
| ParsersStun.ParseFrom | internal/parsers_stun.go:59-86 | the attributes from a cursor, empty exactly at the end |
| ParsersStun.ParseAttributes | internal/parsers_stun.go:59-86 | the parse loop returns ParseFrom of the buffer (corrected: int cursor) |
| ParsersStun.ReadAttribute | internal/parsers_stun.go:68-79 | one pass of the loop reads the attribute AttributeAt describes and leaves the cursor at NextPos |
| ParsersStun.ParseSerialized | internal/parsers_stun.go:59-86 | parsing serialized well-formed attributes gives them back (normalized) |
| ParsersStun.ParseCons | internal/parsers_stun.go:59-86 | parsing one serialized attribute followed by a framed block gives that attribute, then the block's attributes |
| ParsersStun.ParseEmpty | internal/parsers_stun.go:59-86 | nothing is parsed exactly from an empty block |
| ParsersStun.FromBytes | internal/parsers_stun.go:9-27 | too short or a length field that disagrees with the size is an error; otherwise header plus parsed attributes |
| ParsersStun.FromBytesFrame | internal/parsers_stun.go:9-27 | a header whose length field matches its block parses to that header and block |
| ParsersStun.FromBytesRejects | internal/parsers_stun_test.go:50-53 | the four failing vectors: 82 bytes with length field 0xaaaa, one byte, no bytes, and 82 bytes with length field 0x0aaa, each with its error |
| ParsersStun.AllocateErrorFramed | internal/parsers_stun_test.go:17 | the attribute block of the Allocate Error Response vector is framed: the cursor visits 0, 20, 40, 56 and ends at 64 |
| ParsersStun.AllocateErrorAttributes | internal/parsers_stun_test.go:17 | that block parses to ERROR-CODE, NONCE, REALM (length 9, padding 3) and 0x8022, with their lengths |
| ParsersStun.FromBytesAllocateError | internal/parsers_stun_test.go:17 | the whole vector parses: class 3, method 3, length 64, its transaction ID and those attributes |
| ParsersStun.NextPosU16 | internal/parsers_stun.go:76-84 | the uint16 cursor as written wraps to 0 past 65535 |
| ParsersStun.CursorWrapsToStart | internal/parsers_stun.go:76-84 | a 65535-byte block whose first attribute fills it sends the uint16 cursor back to 0 |
| ParsersStun.CursorAgreesBelowWrap | internal/parsers_stun.go:76-84 | up to 0xfffc bytes the uint16 cursor and the int cursor agree |
| ParsersTurn.ExtractChannelData | internal/parsers_turn.go:9-19 | fewer than 4 bytes is an error; Ok exactly when the length field equals the rest; channel + length + data is the input |
| StunCodec.PlaceholderFacts | internal/stun.go:71-77 | the placeholder is 20 non-zero bytes starting with '_' |
| StunCodec.NewStun | internal/stun.go:13-19 | a 12-letter transaction ID from the picks, type 0/0, nothing else set |
| StunCodec.FindAttribute | internal/stun.go:117-124 | the index of the first attribute of the type, or none when there is none |
| StunCodec.GetAttribute | internal/stun.go:117-124 | the attribute of the type at the lowest index, or the empty attribute when none has it |
| StunCodec.GetErrorStringShape | internal/stun.go:22-42 | "" exactly without ERROR-CODE, otherwise "Error <code>: <text>" from ParseError |
| StunCodec.ReplaceAllNoMatch | internal/stun.go:105 | replacing a pattern that does not occur changes nothing |
| StunCodec.ReplaceAllAppend | internal/stun.go:105 | replacement distributes over a concatenation with no match across the seam |
| StunCodec.IntegrityStub | internal/stun.go:71-77 | the MESSAGE-INTEGRITY stub is 24 bytes |
| StunCodec.Serialize | internal/stun.go:59-114 | the serialization loop returns SerializeSpec (as written, with ReplaceAll) |
| StunCodec.SerializeAttributeList | internal/stun.go:61-69 | the attribute loop yields the serialized attributes, and flags a USERNAME exactly when one is present |
| StunCodec.SerializeStep | internal/stun.go:61-69 | one loop step appends one attribute and notes a USERNAME |
| StunCodec.SerializeFailsIff | internal/stun.go:90-92 | serialization fails exactly without a transaction ID, with "missing transaction ID" |
| StunCodec.HeaderLayout | internal/stun.go:84-93 | type, length of the attribute block mod 65536, cookie, transaction ID |
| StunCodec.ReplaceStub | internal/stun.go:71-105 | the stub with its placeholder replaced is the MESSAGE-INTEGRITY attribute |
| StunCodec.IntegrityBytes | internal/stun.go:72-77 | header 0x0008/20 followed by the MAC |
| StunCodec.IntegrityBytesAttribute | internal/stun.go:72-77 | with a 20-byte MAC, the bytes are a serialized MESSAGE-INTEGRITY attribute |
| StunCodec.ReplaceTail | internal/stun.go:97-105 | without a placeholder in front, only the stub is replaced |
| StunCodec.SerializeIntended | internal/stun.go:59-114 | fails exactly without a transaction ID (corrected: MAC written into the stub only) |
| StunCodec.SerializeLayout | internal/stun.go:59-114 | as written and corrected agree when the placeholder does not occur before the stub |
| StunCodec.UnauthenticatedLayout | internal/stun.go:59-114 | without USERNAME both serializations agree |
| StunCodec.HeaderRoundTrip | internal/stun.go:84-93 | the serialized header parses back to type, length and ID |
| StunCodec.SentAttributes | internal/stun.go:71-77 | the attributes sent: the given ones, then MESSAGE-INTEGRITY when authenticated |
| StunCodec.SentBytes | internal/stun.go:59-114 | the corrected serialization is the header plus the serialized sent attributes |
| StunCodec.SerializeRoundTrip | internal/stun.go:59-114 | parsing the corrected serialization gives the header and the sent attributes back |
| StunCodec.SpecAuthenticated | internal/stun.go:97-106 | as written, the MAC over header and attributes replaces every placeholder in the buffer |
| StunCodec.TrailingPlaceholderOverwritten | internal/stun.go:105 | an attribute block ending in the placeholder gets the MAC written into it as well |
| StunCodec.UsernameOverwritten | internal/stun.go:105 | a USERNAME equal to the placeholder is overwritten by the MAC |
| HelpersTurn.Xored | internal/helpers_turn.go:14-25 | XOR with the key repeated, as long as the content |
| HelpersTurn.XorBuffer | internal/helpers_turn.go:14-25 | the XOR loop returns Xored |
| HelpersTurn.XoredInvolution | internal/helpers_turn.go:14-25 | XOR with the same key twice gives the content back |
| HelpersTurn.XorU16Involution | internal/helpers_turn.go:64-65 | XOR of a port with the same 16-bit key twice gives it back |
| HelpersTurn.XorAddr | internal/helpers_turn.go:38-73 | fails exactly for an address that is neither IPv4 nor IPv6; family 1 or 2, port XOR 0x2112, and the address XORed with the cookie (IPv4) or cookie and transaction ID (IPv6) |
| HelpersTurn.AddrKey | internal/helpers_turn.go:92-96 | the key starts with the magic cookie |
| HelpersTurn.ConvertXorAddr | internal/helpers_turn.go:75-103 | short input and unknown families or sizes are refused; otherwise the port and address un-XORed |
| HelpersTurn.XorAddrRoundTrip | internal/helpers_turn.go:38-103 | ConvertXORAddr undoes xorAddr for every IPv4 and IPv6 address |
| HelpersTurn.XorEncodeBytes | internal/helpers_turn_test.go:12-20 | the byte XORs behind the encoding test vector |
| HelpersTurn.XorDecodeBytes | internal/helpers_turn_test.go:32 | the cookie bytes XORed with themselves are zero |
| HelpersTurn.XoredExample | internal/helpers_turn_test.go:12-20 | 127.0.0.1 XORed with the cookie is 5e12a443 |
| HelpersTurn.XorPort22 | internal/helpers_turn_test.go:12-20 | port 22 XOR 0x2112 is 0x2104 |
| HelpersTurn.XorPort2142 | internal/helpers_turn_test.go:32 | 0x2142 XOR 0x2112 is 80 |
| HelpersTurn.XorAddrIpv4 | internal/helpers_turn.go:38-73 | the IPv4 encoding is family 1, port XOR 0x2112, address XOR cookie |
| HelpersTurn.XorAddrExample | internal/helpers_turn_test.go:12-20 | 127.0.0.1:22 encodes to 0001 2104 5e12a443 |
| HelpersTurn.ConvertXorAddrExample | internal/helpers_turn_test.go:32 | 0001 2142 2112a442 decodes to 0.0.0.0:80 |
| HelpersString.MethodTablesDisjoint | internal/helpers_string.go:3-17 | the three method tables are disjoint, cover 10 codes and name them all |
| HelpersString.StunAttrTable | internal/types_stun.go:271-295 | the codes of the STUN attribute table, all named |
| HelpersString.TurnAttrNamesNonEmpty | internal/types_turn.go:87-99 | every TURN attribute name is non-empty |
| HelpersString.AttrTablesDisjoint | internal/helpers_string.go:27-41 | the three attribute tables share no code |
| HelpersString.AllAttrNamesNonEmpty | internal/helpers_string.go:27-41 | every name in the union is non-empty |
| HelpersString.MessageTypeMethodString | internal/helpers_string.go:3-17 | the name from the union of the method tables; "" exactly for an unknown method |
| HelpersString.MessageTypeClassString | internal/helpers_string.go:19-25 | the four class names; "" above 3 |
| HelpersString.AttributeTypeString | internal/helpers_string.go:27-41 | the name from the union of the attribute tables; "" exactly for an unknown code |
| HelpersString.RequestedTransportString | internal/helpers_string.go:43-49 | "TCP" for 6, "UDP" for 17, "" otherwise |
| HelpersString.RequestedAddressFamilyString | internal/helpers_string.go:51-57 | "None", "IPv4", "IPv6" for 0..2, "" otherwise |
| HelpersString.RequestMethodsNamed | internal/helpers_string.go:3-17 | Binding, Allocate and Connect are named; 0x0d is not |
| RequestsStun.TypesOf | internal/requests_stun.go:4-12 | the attribute types in order |
| RequestsStun.Attr | internal/requests_turn.go:21-24 | an attribute literal with unset length and padding |
| RequestsStun.Fresh | internal/stun.go:13-19 | a request with the given transaction ID and nothing else set |
| RequestsStun.BindingRequest | internal/requests_stun.go:4-12 | a Binding request without attributes or credentials |
| RequestsStun.BindingRequestSerialized | internal/requests_stun.go:4-12 | serializes to 0x0001 0x0000, cookie, transaction ID |
| RequestsStun.BindingRequestRoundTrip | internal/requests_stun.go:4-12 | the serialized Binding request parses back to its header and no attributes |
| RequestsTurn.Credentials | internal/requests_turn.go:45-63 | USERNAME, REALM, NONCE carrying the given values |
| RequestsTurn.TransportAttribute | internal/requests_turn.go:11-12 | REQUESTED-TRANSPORT whose 4 bytes encode the protocol little-endian |
| RequestsTurn.FamilyAttributes | internal/requests_turn.go:26-31 | no attribute for "ignore", otherwise REQUESTED-ADDRESS-FAMILY [family,0,0,0,0] |
| RequestsTurn.Request | internal/requests_turn.go:14-19 | a request of the method with the given attributes and credentials |
| RequestsTurn.AllocateRequest | internal/requests_turn.go:10-34 | unauthenticated Allocate: REQUESTED-TRANSPORT, then the optional family |
| RequestsTurn.AllocateRequestAuth | internal/requests_turn.go:37-72 | Allocate with transport, USERNAME, REALM, NONCE, optional family, and credentials set |
| RequestsTurn.SendRequest | internal/requests_turn.go:75-97 | a Send message of class Request (not Indication) with XOR-PEER-ADDRESS and DATA; fails exactly when xorAddr does |
| RequestsTurn.CreatePermissionRequest | internal/requests_turn.go:100-130 | CreatePermission with XOR-PEER-ADDRESS and credentials; fails exactly when xorAddr does |
| RequestsTurn.ChannelBindRequest | internal/requests_turn.go:133-170 | an address error first, then a channel number that is not 2 bytes, else CHANNEL-NUMBER, XOR-PEER-ADDRESS and credentials |
| RequestsTurn.RefreshRequest | internal/requests_turn.go:173-195 | Refresh with the credentials only |
| RequestsTurn.PeerAddressDecodes | internal/requests_turn.go:75-97 | the peer address a request carries decodes back to the target |
| RequestsTurn.AllocateUdpTransport | internal/requests_turn.go:10-34 | a UDP Allocate carries exactly REQUESTED-TRANSPORT 11 00 00 00 |
| RequestsTurn.TurnRequestTypesRoundTrip | internal/types_turn.go:55-62 | every TURN request type survives serialize and parse |
| RequestsTurn.AllocateRequestRoundTrip | internal/requests_turn.go:10-34 | a serialized Allocate parses back to its type, ID and attribute types |
| RequestsTurnTcp.ConnectRequest | internal/requests_turntcp.go:8-28 | Connect with XOR-PEER-ADDRESS, unauthenticated; fails exactly when xorAddr does |
| RequestsTurnTcp.ConnectRequestAuth | internal/requests_turntcp.go:31-61 | Connect with XOR-PEER-ADDRESS and credentials; fails exactly when xorAddr does |
| RequestsTurnTcp.ConnectionBindRequest | internal/requests_turntcp.go:64-90 | ConnectionBind with CONNECTION-ID and credentials |
| RequestsTurnTcp.TurnTcpRequestTypesRoundTrip | internal/types_turntcp.go:3-10 | both TURN-TCP request types survive serialize and parse |
| RequestsTurnTcp.ConnectAuthExtendsConnect | internal/requests_turntcp.go:8-61 | the authenticated Connect is the plain one plus the credentials |
| Text.TrimSpace | internal/cmd/tcpscanner.go:77 | strings.TrimSpace: a slice of the input with no space at either end, empty exactly for a blank input |
| Text.Split | internal/cmd/brute.go:56 | strings.Split: at least one piece, no separator in any piece, and joining gives the input |
| Text.SplitJoin | internal/cmd/udpscanner.go:220 | splitting what was joined from separator-free pieces gives the pieces |
| Text.DecimalValue | internal/stun.go:22-42 | the decimal digits written for a code read back as that code |
| CmdCommon.ServerCheck | internal/cmd/info.go:23-32 | each of the three server messages exactly when its check is the first to fail |
| CmdCommon.CommonCheck | internal/cmd/udpscanner.go:30-49 | the six shared checks in order, one message each |
| CmdCommon.ScanInput | internal/cmd/udpscanner.go:65-68 | the ranges given, or the private ranges when none are |
| CmdCommon.IgnoreTimeout | internal/cmd/udpscanner.go:91-95 | a timeout is no error; any other error is kept |
| CmdCommon.ErrorReason | internal/cmd/bruteforce.go:101 | the ERROR-CODE value from offset 4; where not blank it is ParseError's text |
| CmdCommon.ErrorReasonOfEncoded | internal/cmd/bruteforce.go:101-102 | an RFC-encoded reason phrase is read back verbatim |
| CmdCommon.AnswerChallenge | internal/cmd/brutetransports.go:64-67 | the authenticated Allocate carries the challenge's realm and nonce |
| CmdUdpScanner.Validate | internal/cmd/udpscanner.go:30-58 | the common checks, then community string, then domain name |
| CmdUdpScanner.ChannelDataFrame | internal/cmd/udpscanner.go:146-149 | channel, payload length mod 65536, payload |
| CmdUdpScanner.ChannelDataRoundTrip | internal/cmd/udpscanner.go:165-168 | ExtractChannelData recovers channel and payload exactly when the payload is below 64 KiB |
| CmdUdpScanner.SnmpInner | internal/cmd/udpscanner.go:118-136 | the SNMP body around the community and request ID |
| CmdUdpScanner.SnmpPacket | internal/cmd/udpscanner.go:138-142 | SEQUENCE tag and a 1-byte length around the body |
| CmdUdpScanner.SnmpCommunity | internal/cmd/udpscanner.go:118-142 | a community read back is the bytes its length byte announces |
| CmdUdpScanner.SnmpCommunityRoundTrip | internal/cmd/udpscanner.go:118-142 | the community reads back exactly when the 1-byte lengths do not wrap (at most 223 bytes) |
| CmdUdpScanner.DnsHeader | internal/cmd/udpscanner.go:205-218 | ID, standard query flags, one question, no other records |
| CmdUdpScanner.EncodeLabels | internal/cmd/udpscanner.go:220-226 | each label as a length byte followed by the label |
| CmdUdpScanner.EncodeLabelsSnoc | internal/cmd/udpscanner.go:220-226 | encoding one more label appends its length and bytes |
| CmdUdpScanner.DnsQuestion | internal/cmd/udpscanner.go:220-234 | the name ends with the root label, type A and class IN |
| CmdUdpScanner.DnsQuery | internal/cmd/udpscanner.go:205-234 | the label loop builds header plus question |
| CmdUdpScanner.DecodeLabels | internal/cmd/udpscanner.go:220-226 | a decoder of length-prefixed labels that never reads past its input |
| CmdUdpScanner.LabelsRoundTrip | internal/cmd/udpscanner.go:220-226 | labels of 1..63 bytes decode back |
| CmdUdpScanner.DnsNameRoundTrip | internal/cmd/udpscanner.go:205-234 | the query carries the domain name and type A/class IN |
| CmdUdpScanner.LongLabelWraps | internal/cmd/udpscanner.go:223 | a 256-byte label has its length byte wrap to 0 |
| CmdTcpScanner.Validate | internal/cmd/tcpscanner.go:32-57 | the common checks, then at least one port |
| CmdTcpScanner.UseTls | internal/cmd/tcpscanner.go:100-103 | TLS exactly for 443, 8443, 7443 and 8843 |
| CmdTcpScanner.DecimalText | internal/cmd/tcpscanner.go:77-78 | decimal text is all digits |
| CmdTcpScanner.DecimalTextValue | internal/cmd/tcpscanner.go:77-78 | decimal text reads back as its number |
| CmdTcpScanner.TrimDecimalText | internal/cmd/tcpscanner.go:77 | trimming decimal text changes nothing |
| CmdTcpScanner.ParseUint16 | internal/cmd/tcpscanner.go:78 | digits only, value below 65536 (corrected parse) |
| CmdTcpScanner.ParseInt16 | internal/cmd/tcpscanner.go:78 | strconv.ParseInt(s, 10, 16): a value in -32768..32767 |
| CmdTcpScanner.ParseInt16Decimal | internal/cmd/tcpscanner.go:78 | decimal text parses exactly below 32768 |
| CmdTcpScanner.ParseInt16Negative | internal/cmd/tcpscanner.go:78 | a minus sign is accepted down to -32768 |
| CmdTcpScanner.PortAsWritten | internal/cmd/tcpscanner.go:77-83 | as written: ParseInt with 16 bits, then uint16 |
| CmdTcpScanner.Port | internal/cmd/tcpscanner.go:77-83 | corrected: the trimmed text as an unsigned 16-bit port |
| CmdTcpScanner.PortRoundTrip | internal/cmd/tcpscanner.go:77-83 | every port's decimal text parses back to it |
| CmdTcpScanner.PortAsWrittenRejectsHighPorts | internal/cmd/tcpscanner.go:77-83 | as written, ports from 32768 up are rejected and the rest agree with Port |
| CmdTcpScanner.PortAsWrittenNegative | internal/cmd/tcpscanner.go:77-83 | as written, "-1" becomes port 65535 |
| CmdTcpScanner.FirstBadPort | internal/cmd/tcpscanner.go:76-81 | the first port that `ParseInt(port, 10, 16)` refuses (PortAsWritten), every earlier one accepted |
| CmdTcpScanner.Parsed | internal/cmd/tcpscanner.go:76-81 | the ports as PortAsWritten converts them (ParseInt, then uint16), in order |
| CmdTcpScanner.PortRow | internal/cmd/tcpscanner.go:76-86 | the inner loop probes the ports in order, as ParseInt and uint16 read them, up to the first one ParseInt refuses, which it reports |
| CmdTcpScanner.ScanProbes | internal/cmd/tcpscanner.go:71-86 | every address with every port as written, or the first address's probes before the first port ParseInt refuses, and that port |
| CmdTcpScanner.ScanStopsAtHighPort | internal/cmd/tcpscanner.go:77-81 | a port from 32768 up stops the scan at or before its position |
| CmdTcpScanner.ScanNegativePort | internal/cmd/tcpscanner.go:77-83 | the port list ["-1"] is accepted and scanned as port 65535 |
| CmdTcpScanner.ScanAcceptsAll | internal/cmd/tcpscanner.go:76-81 | no port aborts the scan exactly when ParseInt(port, 10, 16) accepts every trimmed port |
| CmdTcpScanner.CrossMembers | internal/cmd/tcpscanner.go:71-86 | every probe pairs a given address with a given port |
| CmdMemoryLeak.Validate | internal/cmd/memoryleak.go:28-58 | the common checks, then target host, target port and size |
| CmdMemoryLeak.LeakPayload | internal/cmd/memoryleak.go:90-94 | channel, Size, "xxx", zero padding |
| CmdMemoryLeak.LeakPayloadDeclaresSize | internal/cmd/memoryleak.go:90-94 | an 8-byte frame whose length field says Size; it is consistent only for Size 4 |
| CmdMemoryLeak.FirstFailedWrite | internal/cmd/memoryleak.go:89-101 | the first failing write |
| CmdMemoryLeak.SendFrames | internal/cmd/memoryleak.go:85-101 | an Error ChannelBind sends nothing; otherwise the same frame up to 1000 times until a write fails |
| CmdBruteTransports.Validate | internal/cmd/brutetransports.go:23-44 | exactly the six common checks |
| CmdBruteTransports.KindOf | internal/cmd/brutetransports.go:79-86 | 6 is TCP, 17 is UDP, anything else is non-standard |
| CmdBruteTransports.Classify | internal/cmd/brutetransports.go:72-88 | success means accepted; otherwise the reason, flagged when the class is not Error either |
| CmdBruteTransports.FirstBroken | internal/cmd/brutetransports.go:51-71 | the first transport whose exchanges break |
| CmdBruteTransports.Reports | internal/cmd/brutetransports.go:72-88 | the reports of the attempts before the first broken one, one per transport in order |
| CmdBruteTransports.RunsToEnd | internal/cmd/brutetransports.go:51-92 | all 256 transports are reported exactly when none breaks |
| CmdBruteTransports.BrokenMessage | internal/cmd/brutetransports.go:52-71 | the message of the first exchange that broke |
| CmdBruteTransports.BruteTransports | internal/cmd/brutetransports.go:51-92 | transports 0..255 in order, one report each, until an exchange breaks |
| CmdBruteTransports.AttemptRequest | internal/cmd/brutetransports.go:57-67 | attempt i asks for transport i with the challenge's credentials |
| CmdBruteforce.Validate | internal/cmd/bruteforce.go:26-46 | server checks, username, password file, logger |
| CmdBruteforce.ScanLinesOfFile | internal/cmd/bruteforce.go:59-64 | the line scanner gives back the lines of a file, with or without a final newline |
| CmdBruteforce.TestPassword | internal/cmd/bruteforce.go:72-107 | error before a challenged answer; valid on Success; rejected on "Unauthorized"; unknown otherwise |
| CmdBruteforce.Verdicts | internal/cmd/bruteforce.go:59-69 | the verdicts on the passwords before the first failing trial, none of them a failure |
| CmdBruteforce.FirstFailure | internal/cmd/bruteforce.go:60-64 | the first password whose test fails |
| CmdBruteforce.BruteForce | internal/cmd/bruteforce.go:59-69 | every line in order; a valid password does not stop the scan; the first error does |
| CmdBrute.Validate | internal/cmd/brute.go:25-45 | the six checks with the password file in the password's place |
| CmdBrute.Passwords | internal/cmd/brute.go:56 | pieces between newlines that join back to the file |
| CmdBrute.PasswordsOfFile | internal/cmd/brute.go:56 | a newline-terminated file yields one more (empty) password than the line scanner |
| CmdBrute.TryOutcome | internal/cmd/brute.go:58-87 | connect and first-send failures abort; auth-send failures continue; Success is found; otherwise incorrect or unknown |
| CmdBrute.FirstStop | internal/cmd/brute.go:57-89 | the first password that ends the run |
| CmdBrute.BruteForce | internal/cmd/brute.go:57-89 | passwords in order until the first that is found or aborts |
| CmdBrute.GuessRequest | internal/cmd/brute.go:62-71 | the guesses ask for IP protocol 1, neither TCP nor UDP |
| CmdInfo.Validate | internal/cmd/info.go:23-38 | server checks, then logger |
| CmdInfo.TestStun | internal/cmd/info.go:72-89 | attributes unless the Binding fails or is answered with Error |
| CmdInfo.TestTurn | internal/cmd/info.go:91-108 | attributes only when the Allocate is challenged with Error |
| CmdInfo.AttributeLine | internal/cmd/info.go:129-149 | an undecodable RFC 5780 address is an error line; otherwise named, or non-standard when unnamed |
| CmdInfo.AttributeLines | internal/cmd/info.go:117-121 | one line per attribute that is not hidden, none for hidden ones |
| CmdInfo.PrintAttributes | internal/cmd/info.go:110-151 | the header once before the first listed attribute, then the lines |
| CmdInfo.BannerOnce | internal/cmd/info.go:123-127 | the header appears exactly once, first, when anything is listed |
| CmdInfo.MappedNonStandard | internal/cmd/info.go:131-149 | RESPONSE-ORIGIN and OTHER-ADDRESS always print as non-standard |
| CmdInfo.UnnamedAttribute | internal/helpers_string.go:27-41 | neither RFC 5780 code is in the attribute tables |
| CmdRangeScan.Validate | internal/cmd/rangescan.go:25-46 | exactly the six common checks |
| CmdRangeScan.RangesValid | internal/cmd/rangescan.go:53-99 | 31 targets, all valid addresses, exactly two IPv6 |
| CmdRangeScan.Family | internal/cmd/rangescan.go:142-145 | IPv6 family exactly for IPv6 targets |
| CmdRangeScan.ScanTcp | internal/cmd/rangescan.go:135-185 | success exactly after a challenged and accepted Allocate, with a Connect that times out or is not refused |
| CmdRangeScan.UdpProbe | internal/cmd/rangescan.go:187-195 | success exactly when the relay is set up |
| CmdRangeScan.TcpProbe | internal/cmd/rangescan.go:124-130 | one logged TCP probe |
| CmdRangeScan.UdpProbes | internal/cmd/rangescan.go:101-115 | one UDP probe per target, in list order |
| CmdRangeScan.TcpProbes | internal/cmd/rangescan.go:117-131 | one TCP probe per target, in list order |
| CmdRangeScan.ScanUdpTargets | internal/cmd/rangescan.go:101-115 | the UDP loop probes every target and never meets an invalid one |
| CmdRangeScan.ScanTcpTargets | internal/cmd/rangescan.go:117-131 | the TCP loop probes every target and never meets an invalid one |
| CmdRangeScan.RangeScan | internal/cmd/rangescan.go:101-132 | all targets over UDP, then over TCP; never stops early |
| CmdRangeScan.TcpProbeAllocate | internal/cmd/rangescan.go:142-159 | the TCP Allocate asks for an IPv6 relay exactly for IPv6 targets |
| CmdSocks.Validate | internal/cmd/socks.go:26-53 | the common checks, then a listen address with a port |
| CmdSocks.Socks | internal/cmd/socks.go:55-74 | a valid configuration builds a proxy on the listen address whose handler has the options |

## Left out

- Networking is not modelled. This covers connecting, `SendAndReceive`,
  reading and writing and TLS. Their outcomes are parameters of the command
  models, as `Exchange`, `Trial`, `Try` and similar datatypes.
- `SetupTurnConnection`, `SetupTurnTCPConnection` and the SOCKS handlers in
  `internal/socksimplementations` are not part of this model. The
  connection helpers are also not part of this model.
- HMAC-SHA1, CRC32 and MD5 are not modelled. MESSAGE-INTEGRITY is a
  function parameter `mac`, and fingerprint generation is left out. The
  error path of `calculateMessageIntegrity` is not modelled.
- Randomness is a parameter: transaction IDs, channel-number draws, SNMP
  and DNS IDs, and the letter picks of `RandomString`.
- Logging and the wording of error messages are not modelled. Where Go
  wraps an error with `fmt.Errorf`, the model keeps the step and the
  underlying message. Log lines are values, not text.
- The `String()` methods of `Stun` and `Attribute` are not modelled, nor is
  `helper.IsPrintable`. The choice between the printable form and the hex
  form in info.go is not modelled either.
- `helper.IsPrivateIP`, `IPIterator` and `GenerateSinglePrivateIPs` are
  left out, along with `netip` parsing of CIDR ranges and host names. The
  scanners take the addresses as given. RangeScan's targets are given as
  the octets `netip.ParseAddr` returns for them.
- `ParseMappedAdress` is defined outside the modelled files and is not
  modelled; `CmdInfo.AttributeLine` takes it as an `AddressParser` parameter. The RFC 5780 codes
  0x802b and 0x802c are taken from section 7 of RFC 5780.
- Attribute.Serialize writes `Length` back through its pointer receiver.
  That write is not modelled. `TypesStun.EffectiveLength` gives the length
  that is sent.
- A Go panic becomes a precondition. This covers slicing an attribute past
  its end, `ParseError` on fewer than 4 bytes, and `Value[4:]` on a missing
  or short ERROR-CODE.
- The `bufio.Scanner` 64 KiB token limit and its error are not modelled.
  Neither is a failure to read the password file.
- The `Info` driver only logs the outcomes of its three tests in a fixed
  order. It is not modelled beyond `TestStun`, `TestTurn` and
  `PrintAttributes`.
- The closing of connections is not modelled. This includes the close
  error that ends brutetransports.go (lines 89-91).
- The udpscanner and tcpscanner drivers, and their network steps, are not
  modelled beyond the probe order and packets above.
- Go's `context` cancellation is not modelled, and neither are concurrency
  or timeouts other than `helper.ErrTimeout` as a value.

## Findings

| source | as written | input that shows it | evidently intended | confidence | as-written member | corrected member |
|---|---|---|---|---|---|---|
| internal/parsers_stun.go:76-84 | the attribute cursor `bufPos` is a `uint16`, so it wraps around past 65535 | a 65535-byte attribute block whose first attribute has length 0xfffb: the cursor goes back to 0 and the loop never ends | an integer cursor that moves past the end of the block | not executed | ParsersStun.CursorWrapsToStart | ParsersStun.ParseSerialized |
| internal/stun.go:101-105 | `bytes.ReplaceAll` writes the MAC over every copy of the placeholder in the whole buffer | a Binding request whose USERNAME is the 20-byte placeholder gets its username replaced by the MAC | the MAC written only into the MESSAGE-INTEGRITY stub | not executed | StunCodec.UsernameOverwritten | StunCodec.SerializeRoundTrip |
| internal/cmd/tcpscanner.go:77-83 | ports are parsed with `strconv.ParseInt(port, 10, 16)`, which is signed 16-bit | port "8443" works, but "32768" and above are rejected, which aborts the scan; "-1" is accepted as port 65535 | an unsigned 16-bit parse (`ParseUint(port, 10, 16)`) | not executed | CmdTcpScanner.PortAsWrittenRejectsHighPorts | CmdTcpScanner.PortRoundTrip |
