# Heijden.Dns core in Dafny

This project models two parts of the Heijden.Dns client library:

- **The wire reader**, class `RecordReader`: a byte cursor over a received DNS message.
  - It has big-endian integer reads and character-string reads (section 3.3 of RFC 1035).
  - It decodes domain names with compression pointers (section 4.1.4 of RFC 1035).
  - It picks the record decoder for a type code.
- **The deterministic logic of class `Resolver`**:
  - its settings;
  - its response cache, keyed by class, type and name, with a lazy time-to-live check;
  - the 16-bit query id counter;
  - the UDP and TCP retry loops, including zone-transfer (AXFR, RFC 5936) reassembly over the TCP framing of section 4.2.2 of RFC 1035;
  - the reverse-lookup name builders: `in-addr.arpa` (section 3.5 of RFC 1035), `ip6.arpa` (section 2.5 of RFC 3596) and `e164.arpa` (section 2.4 of RFC 6116);
  - the host-entry builder.

Modules:

- `Basics`: option type, byte, decimal and hex rendering, digit filter.
- `Wire`: class `RecordReader` and the functions specifying its reads.
- `NameProperties`: lemmas about the name decoder.
- `RecordTypes`: the `ReadRecord` dispatch.
- `Messages`: responses, the cache key, and the cache lookup/insert specification.
- `Transport`: the scripted network and the TCP stream reader.
- `HostEntries`: the host-entry builder.
- `ReverseNames`: the reverse-lookup name builders.
- `Resolving`: class `Resolver`.

Modelling choices:

- **The network is a script.**
  - Each UDP try is `Answered(message)` or `Lost`.
  - Each TCP try is `Refused(reason)`, `NotConnected` or `Connected(frames, readError)`.
  - A frame is a length prefix read from the stream plus the message decoded after it.
  - Tries past the end of a script fail.
  - Every imperative loop is proved equal to a specification function over the script (`UdpExchange`, `TcpExchange`, `Stream`). The retry order, the first-answer-wins rule and the zone-transfer results are lemmas about those functions.
- **Name decoding takes a ghost pointer budget `hops`.** The source sets no bound on pointer chains, and a looping chain never ends there. The decoder is specified by `Labels`/`DomainName`, which need at most `hops` pointers. A larger budget never changes the result (`NameBudget`). Names without pointers need no budget at all (`PlainNamesTerminate`).
- **Quirks of the code are kept:**
  - A read past the end yields 0 and does not move the position.
  - Only the two top bits mark a pointer, so length bytes 0x40–0xBF are ordinary labels.
  - A label prefix followed by a pointer to the root decodes to `"www.."`.
  - The query id counter and the zone-transfer header counts wrap at 16 bits.
  - In a TCP exchange, a socket or timeout error, including a non-positive length prefix, ends the exchange with an error response and does not try the next server. A client that is not connected moves on to the next server.
  - A first question or first answer that is missing from a TCP reply raises an exception that nothing catches. It is modelled as `Fault`/`Escaped`.
  - A completed zone transfer is not cached. Any other successful TCP reply is.
- Bit masks and shifts on bytes (`& 0xC0`, `& 0x3F`, `>> 4`, `& 0xF`) are written as division and remainder by powers of two.
- The cache key renders the class and type as decimal codes. The enumeration names the library prints are not part of this model. Distinct questions still get distinct keys (`CacheKeyInjective`).

## Model

| member | source | states |
|---|---|---|
| Wire.RecordReader.constructor | src/Heijden.Dns.Portable/RecordReader.cs:11-15 | A new reader is over the given message at position 0. |
| Wire.RecordReader.At | src/Heijden.Dns.Portable/RecordReader.cs:29-33 | A reader made at a position starts there. |
| Wire.RecordReader.SetPosition | src/Heijden.Dns.Portable/RecordReader.cs:17-27 | Setting the position moves the cursor there and nowhere else. |
| Wire.RecordReader.ReadByte | src/Heijden.Dns.Portable/RecordReader.cs:36-41 | Past the end: 0, with the position unchanged. Otherwise: the byte at the position, with the position moved by exactly one. |
| Wire.RecordReader.ReadChar | src/Heijden.Dns.Portable/RecordReader.cs:43-46 | The character whose code is the byte ReadByte would give, with the same move. |
| Wire.RecordReader.ReadUInt16 | src/Heijden.Dns.Portable/RecordReader.cs:48-51 | 256 times the first byte plus the second (big-endian), below 2^16. The position moves by two reads. |
| Wire.RecordReader.ReadUInt16At | src/Heijden.Dns.Portable/RecordReader.cs:53-57 | Equal to ReadUInt16 after first adding the offset to the position. |
| Wire.RecordReader.ReadUInt32 | src/Heijden.Dns.Portable/RecordReader.cs:59-62 | 65536 times the first 16-bit value plus the second, below 2^32. The position moves by four reads. |
| Wire.RecordReader.ReadString | src/Heijden.Dns.Portable/RecordReader.cs:96-104 | The result is as long as the leading length byte and holds the characters after it. The position moves by one plus that length (clamped at the end of the message). |
| Wire.RecordReader.ReadChars | src/Heijden.Dns.Portable/RecordReader.cs:83-87 | The loop copying n characters returns exactly the n characters from the position, one byte each. |
| Wire.RecordReader.ReadBytes | src/Heijden.Dns.Portable/RecordReader.cs:106-112 | When 0 <= n and position + n <= length: a fresh array equal to the message slice from the position, and the position moves by exactly n. |
| Wire.RecordReader.ReadDomainName | src/Heijden.Dns.Portable/RecordReader.cs:64-94 | The returned text and end position are what `DomainName` decodes from the old position. That is: labels each followed by '.'; a pointer ends the name with the name at its target; "." for no labels. |
| Wire.RecordReader.ReadPointedName | src/Heijden.Dns.Portable/RecordReader.cs:73-80 | A second reader at the 14-bit target decodes the rest of the name. This reader ends just after the two pointer bytes. |
| Wire.IsPointer | src/Heijden.Dns.Portable/RecordReader.cs:73 | A length byte starts a pointer exactly when it is at least 0xC0 (both top bits set). |
| Wire.PointerTarget | src/Heijden.Dns.Portable/RecordReader.cs:76 | The offset is (first byte - 0xC0) * 256 + second byte, below 0x4000. |
| Wire.DomainName | src/Heijden.Dns.Portable/RecordReader.cs:90-93 | A decoded name is never empty. It succeeds exactly when its labels do and ends where they end. |
| NameProperties.RootName | src/Heijden.Dns.Portable/RecordReader.cs:64-94 | A lone zero byte decodes to "." and advances the position by one. |
| NameProperties.NameRoundTrip | src/Heijden.Dns.Portable/RecordReader.cs:64-94 | Decoding the uncompressed wire form of labels, anywhere in a message, gives their dotted text. The position ends just past the zero byte. |
| NameProperties.LabelsInFront | src/Heijden.Dns.Portable/RecordReader.cs:83-88 | Encoded plain labels decode to their dotted text followed by whatever follows them. |
| NameProperties.PointerSplice | src/Heijden.Dns.Portable/RecordReader.cs:73-80 | Labels then a pointer decode to the labels' text followed by the text `DomainName` gives at the target ("." for the root, so a pointer to the root is not the same as writing the root in place). The position ends after the two pointer bytes. |
| NameProperties.PrefixThenRootPointer | src/Heijden.Dns.Portable/RecordReader.cs:73-91 | "www" followed by a pointer to a zero byte decodes to "www..". |
| NameProperties.PlainNamesTerminate | src/Heijden.Dns.Portable/RecordReader.cs:83-88 | Without pointer bytes a name always decodes, even with no pointer budget. |
| NameProperties.NameBudget | src/Heijden.Dns.Portable/RecordReader.cs:64-94 | A larger pointer budget never changes a decoded name. |
| RecordTypes.ReadRecord | src/Heijden.Dns.Portable/RecordReader.cs:114-238 | The chosen decoder handles exactly the code it was given (unless it is the default). Only TXT gets the RDATA length, unchanged. |
| RecordTypes.KindHasCode | src/Heijden.Dns.Portable/RecordReader.cs:116-236 | A kind chosen for a code has that code. |
| RecordTypes.DispatchRoundTrip | src/Heijden.Dns.Portable/RecordReader.cs:116-234 | Every listed kind is chosen for its own type code. |
| RecordTypes.UnknownExactlyWhenUnlisted | src/Heijden.Dns.Portable/RecordReader.cs:235-236 | The default decoder is chosen exactly when no listed kind has the code, so no code fails. |
| RecordTypes.TypeCodeInjective | src/Heijden.Dns.Portable/RecordReader.cs:116-234 | No two cases of the switch share a type code. |
| Basics.DecimalRoundTrip | src/Heijden.Dns.Portable/Resolver.cs:224 | Parsing the decimal rendering of a number gives the number back. |
| Basics.DecimalInjective | src/Heijden.Dns.Portable/Resolver.cs:224 | Two numbers with the same decimal rendering are equal. |
| Basics.Digits | src/Heijden.Dns.Portable/Resolver.cs:523 | The digit filter keeps only digits, never lengthens, and leaves an all-digit string as it is. |
| Basics.DigitsOfOne | src/Heijden.Dns.Portable/Resolver.cs:523 | A single character is kept exactly when it is a digit. |
| Basics.DigitsAppend | src/Heijden.Dns.Portable/Resolver.cs:523 | Filtering a concatenation filters each part and keeps their order. |
| Basics.DigitsKeepOrder | src/Heijden.Dns.Portable/Resolver.cs:523 | Adding a character at the end adds it to the filtered string exactly when it is a digit, so every digit of the input survives, in order. |
| Messages.RemainingTtl | src/Heijden.Dns.Portable/Resolver.cs:238-241 | The remaining time to live is never negative. It is zero exactly when the record has lived its TTL, and otherwise TTL minus time lived. |
| Messages.CacheKeyInjective | src/Heijden.Dns.Portable/Resolver.cs:224 | Two questions with the same cache key are the same question. |
| Messages.Lookup | src/Heijden.Dns.Portable/Resolver.cs:219-245 | A hit exactly when caching is on, the key is filed and every record outlives the elapsed time. A hit is the filed response with every record's lived time set. |
| Messages.Added | src/Heijden.Dns.Portable/Resolver.cs:247-271 | Unchanged when caching is off, there is no question or RCODE is not NoError. Otherwise the key of the first question maps to the response and every other key is unchanged. |
| Messages.AddThenLookup | src/Heijden.Dns.Portable/Resolver.cs:219-271 | Looking up the question of a response just filed finds it, stamped, while all its records live. After that it finds nothing. |
| Messages.AddKeepsOthers | src/Heijden.Dns.Portable/Resolver.cs:219-271 | Filing a response leaves the result of looking up any other question unchanged. |
| Messages.FreshShrinks | src/Heijden.Dns.Portable/Resolver.cs:237-243 | A response usable after some time is usable after any shorter time. |
| Resolving.Resolver.constructor | src/Heijden.Dns.Portable/Resolver.cs:136-146 | Retries start at 3; caching and recursion are on; transport is UDP; the cache is empty. The id counter is the seed truncated to 16 bits. The invariant holds. |
| Resolving.Resolver.DnsServer | src/Heijden.Dns.Portable/Resolver.cs:62 | The address of the first server, exactly when there is one. |
| Resolving.Resolver.SetRetries | src/Heijden.Dns.Portable/Resolver.cs:79-90 | Values below one are ignored, so retries stay at least one. |
| Resolving.Resolver.SetDnsServers | src/Heijden.Dns.Portable/Resolver.cs:95-107 | The list is replaced by another list given. It is left empty when none is given, and also when the resolver's own list is given, since clearing has emptied it before it is appended. |
| Resolving.Resolver.SetUseCache | src/Heijden.Dns.Portable/Resolver.cs:109-121 | The flag takes the value. Turning caching off empties the cache; turning it on keeps the cache. |
| Resolving.Resolver.ClearCache | src/Heijden.Dns.Portable/Resolver.cs:211-217 | The cache is empty afterwards. |
| Resolving.Resolver.SearchInCache | src/Heijden.Dns.Portable/Resolver.cs:219-245 | The TTL loop returns what `Messages.Lookup` specifies. |
| Resolving.Resolver.AddToCache | src/Heijden.Dns.Portable/Resolver.cs:247-271 | The three guards then the replace leave the cache as `Messages.Added` specifies. |
| Resolving.Resolver.UdpRequest | src/Heijden.Dns.Portable/Resolver.cs:273-309 | The result and the new cache are those of `UdpExchange`. The id counter grows by the number of tries made, modulo 2^16. |
| Resolving.Resolver.UdpAttempt | src/Heijden.Dns.Portable/Resolver.cs:280-305 | One attempt over the servers either settles the exchange as `UdpExchange` says, or leaves every try of the attempt lost with one id per try. |
| Resolving.Resolver.AcceptReply | src/Heijden.Dns.Portable/Resolver.cs:288-302 | The reply of the first answered try is stamped with its server, offered to the cache and returned. |
| Resolving.Resolver.TcpRequest | src/Heijden.Dns.Portable/Resolver.cs:311-409 | The outcome and the new cache are those of `TcpExchange`. The id counter grows by the number of tries made, modulo 2^16. |
| Resolving.Resolver.TcpAttempt | src/Heijden.Dns.Portable/Resolver.cs:318-405 | One attempt over the servers either settles the exchange as `TcpExchange` says, or finds no server connected with one id per try. |
| Resolving.Resolver.SettleExchange | src/Heijden.Dns.Portable/Resolver.cs:325-404 | The first try past connecting settles the exchange and bumps the id once. |
| Resolving.Resolver.SettleTry | src/Heijden.Dns.Portable/Resolver.cs:327-400 | A connect error gives its message. Otherwise the stream's end is returned, and offered to the cache when the stream says so. |
| Resolving.Resolver.GetResponse | src/Heijden.Dns.Portable/Resolver.cs:431-443 | UDP or TCP exchange by the transport setting; any other transport gives "Unknown TransportType". |
| Resolving.Resolver.Query | src/Heijden.Dns.Portable/Resolver.cs:418-428 | A usable cached response is returned without any try. Otherwise the network exchange decides. |
| Resolving.Resolver.MakeEntry | src/Heijden.Dns.Portable/Resolver.cs:462-488 | The entry holds the A answers' addresses in order and the CNAME answers' owners in order. Its name is the last A answer's owner, or the asked name. |
| Resolving.UdpExchange | src/Heijden.Dns.Portable/Resolver.cs:278-308 | Never makes more than retries x servers tries, and never faults on replies that decode. |
| Resolving.TcpExchange | src/Heijden.Dns.Portable/Resolver.cs:316-408 | Never makes more than retries x servers tries. |
| Resolving.QueryExchange | src/Heijden.Dns.Portable/Resolver.cs:418-428 | A cache hit makes no try and leaves the cache as it is. |
| Resolving.TryIndex | src/Heijden.Dns.Portable/Resolver.cs:278-280 | Each (attempt, server) pair has its own try number, below the total, from which both can be read back. |
| Resolving.EarlierTry | src/Heijden.Dns.Portable/Resolver.cs:278-280 | A try numbered before a pair's try belongs to an earlier attempt, or to the same attempt and an earlier server. |
| Resolving.UdpFirstAnswerWins | src/Heijden.Dns.Portable/Resolver.cs:278-302 | The first answered pair in attempt-major order settles UDP. Its reply is stamped with that server, offered to the cache and returned, after exactly that many tries. |
| Resolving.UdpAllLost | src/Heijden.Dns.Portable/Resolver.cs:278-308 | When all retries x servers tries are lost: "Timeout Error" after all of them, with the cache untouched. |
| Resolving.TcpSettledAt | src/Heijden.Dns.Portable/Resolver.cs:316-404 | The first try past connecting settles TCP. |
| Resolving.TcpRefusalStops | src/Heijden.Dns.Portable/Resolver.cs:316-400 | A connect error after only unconnected tries returns that error, and no later server is tried. |
| Resolving.TcpNoneConnected | src/Heijden.Dns.Portable/Resolver.cs:316-408 | When no try connects: "Timeout Error" after all tries, with the cache untouched. |
| Transport.FirstAnswered | src/Heijden.Dns.Portable/Resolver.cs:278-294 | The index of the first answered try: every try before it is lost. |
| Transport.FirstConnected | src/Heijden.Dns.Portable/Resolver.cs:316-333 | The index of the first try that gets past connecting: every try before it is not connected. |
| Transport.Assemble | src/Heijden.Dns.Portable/Resolver.cs:386-394 | The transfer response holds the gathered lists. Its four header counts are their lengths (16-bit) and its size is the prefix sum. |
| Transport.ReadStream | src/Heijden.Dns.Portable/Resolver.cs:343-395 | The read loop ends exactly as `Stream` specifies. |
| Transport.AbsorbAllGathers | src/Heijden.Dns.Portable/Resolver.cs:358-384 | Gathering appends each message's answers, authorities and additionals in order. It counts SOA-led messages, sums the prefixes and keeps the first question list. |
| Transport.StreamResumes | src/Heijden.Dns.Portable/Resolver.cs:349-395 | While fewer than two SOA-led messages have come, reading continues from the aggregate so far. |
| Transport.TransferCompletes | src/Heijden.Dns.Portable/Resolver.cs:375-394 | The transfer ends exactly at the second SOA-led message, whatever follows. The result has the first message's questions and every message's lists concatenated. Its QD, AN, NS and AR counts are the lengths of those four lists (16-bit), and its size is the sum of the prefixes. It is not cached. |
| Transport.TransferCutShort | src/Heijden.Dns.Portable/Resolver.cs:351-356 | A stream that runs dry before the second SOA-led message fails the try with the read error. |
| Transport.TransferInterrupted | src/Heijden.Dns.Portable/Resolver.cs:366-367 | An error reply mid-transfer is returned alone, uncached, and what was gathered is dropped. |
| HostEntries.AddressesFromA | src/Heijden.Dns.Portable/Resolver.cs:472-477 | An address is listed exactly when some A answer carries it. |
| HostEntries.AliasesFromCname | src/Heijden.Dns.Portable/Resolver.cs:478-482 | An alias is listed exactly when some CNAME answer is owned by it. |
| HostEntries.LastOwnerIsLastA | src/Heijden.Dns.Portable/Resolver.cs:476 | The host name is the owner of the last A answer. |
| HostEntries.LastOwnerWithoutA | src/Heijden.Dns.Portable/Resolver.cs:464-476 | Without A answers the host name is the one asked for. |
| HostEntries.AddressesAppend | src/Heijden.Dns.Portable/Resolver.cs:470-486 | Filtering the addresses of a concatenation filters each part, in order. |
| HostEntries.Collect | src/Heijden.Dns.Portable/Resolver.cs:464-487 | The loop builds the entry that `Addresses`, `Aliases` and `LastOwner` specify. |
| ReverseNames.GetArpaFromIp | src/Heijden.Dns.Portable/Resolver.cs:495-519 | The name is `ArpaName`: IPv4 bytes in decimal last first under in-addr.arpa.; IPv6 nibbles last first under ip6.arpa.; "?" otherwise. |
| ReverseNames.PrependDecimal | src/Heijden.Dns.Portable/Resolver.cs:497-506 | The insert-at-front loop builds the bytes in decimal, last first, then "in-addr.arpa.". |
| ReverseNames.PrependNibbles | src/Heijden.Dns.Portable/Resolver.cs:507-517 | The insert-at-front loop builds each byte's low then high nibble, last byte first, then "ip6.arpa.". |
| ReverseNames.Nibble | src/Heijden.Dns.Portable/Resolver.cs:513-514 | A shift of 4 gives the high nibble; a shift of 0 gives the low one. |
| ReverseNames.V4Name | src/Heijden.Dns.Portable/Resolver.cs:497-506 | a.b.c.d becomes "d.c.b.a.in-addr.arpa.". |
| ReverseNames.V4Example | src/Heijden.Dns.Portable/Resolver.cs:497-506 | 192.0.2.1 becomes "1.2.0.192.in-addr.arpa.". |
| ReverseNames.V6Nibbles | src/Heijden.Dns.Portable/Resolver.cs:507-517 | The k-th four-character group is the low nibble, '.', the high nibble and '.' of the k-th byte from the back. |
| ReverseNames.V6Layout | src/Heijden.Dns.Portable/Resolver.cs:507-517 | An IPv6 name is four characters per byte followed by "ip6.arpa.". |
| ReverseNames.GetArpaFromEnum | src/Heijden.Dns.Portable/Resolver.cs:521-528 | The name is `EnumName`: the number's digits, last first, each followed by '.', then "e164.arpa.". |
| ReverseNames.EnumLayout | src/Heijden.Dns.Portable/Resolver.cs:521-528 | Character 2k is the k-th digit from the back and is a digit. Character 2k+1 is '.'. The suffix comes last. |
| ReverseNames.EnumExample | src/Heijden.Dns.Portable/Resolver.cs:521-528 | Separators are dropped: "+1-2" becomes "2.1.e164.arpa.". |
| ReverseNames.EnumOfDigits | src/Heijden.Dns.Portable/Resolver.cs:523 | A number of digits only keeps all of them. |

## Left out

- Sockets, `UdpClient`/`TcpClient`, streams, `async`/`await` and `TimeOut`: the network is a script of per-try outcomes.
- TCP frames are given already split. A partial `Read` and an `IOException` during reading are not modelled.
- The `lock` regions around the cache: the model is single-threaded.
- `DateTime.Now`: the age of a cached response is the `elapsed` parameter.
- `GetDnsServers` (host interfaces), `Version` (reflection), `SetDnsServer` (a live query), and the `OnVerbose` event: none has logic to verify.
- `GetHostEntry` (both overloads): they only call `MakeEntry` or the reverse query, after `IPAddress.TryParse`.
- The request bytes (id, recursion flag, question encoding): the id is modelled only as the counter value.
- The record classes and `Response`/`Request`/`Question` are not part of this model.
  - A response is a record of the fields the resolver uses.
  - The records of a response are taken as answers, then authorities, then additionals.
- `RecordTypes.ReadRecord`: a tag dispatch only. The bytes each record decoder consumes are not modelled. The switch is written as a choice of range followed by a smaller switch.
- `Messages.CacheKey`: renders class and type codes in decimal rather than by their enumeration names.
- `IPAddress.Parse` of an A record's text: an address is kept as that text.
- `Messages.Lookup`: returns a stamped copy. The source stamps the cached records in place, which changes what a later lookup would find only through `TimeLived`, and that is overwritten on every lookup.
- `Wire.RecordReader.SetPosition`: takes a non-negative position. A negative one makes the next read throw in the source.
- Wire.RecordReader.ReadUInt16At: requires the position plus the offset to be non-negative. A negative result makes the next read throw in the source.
- Wire.RecordReader.At: takes a non-negative position. A negative one makes the first read throw in the source; the reader's own pointer targets are never negative.
- Resolving.UdpExchange and Resolving.TcpExchange: a reply is assumed to decode. In the source an exception while decoding a reply is not caught by the retry loops and escapes.
- `Wire.RecordReader.ReadDomainName`: needs a pointer budget. A pointer chain that loops, which overflows the stack in the source, is outside the model.
- Integer overflow of `int` positions, lengths and message sizes: integers are unbounded here. 16-bit wrap-around is modelled where the source stores into `ushort`.
