# Signature matching, end to end

A Dafny model of a traffic classifier and of the tools around it, with proofs.

* A Python compiler (`tools/sigc.py`) gathers applications, domain names, address prefixes
  and four-byte payload patterns, and serializes them into a binary database.
* A C engine (`src/`) opens the database, loads it into three indexes, decodes captured
  packets, tracks flows, and gives each flow verdicts that are revised as evidence arrives.
* A Python packet printer (`tools/mkpcap.py`) writes the synthetic ClientHellos that the
  parsers must be able to read.
* A crawler (`src/utils/`, `src/core/`) collects pages under a rate limit, robots.txt and a
  concurrency limit.

The central results, each for all inputs or all runs:

* **The indexes refine linear scans.** The domain trie, the prefix table and the payload
  matcher are classes over arrays, with the growing hash tables the source has. Their
  lookups equal a scan over the rules in order of insertion (`TrieSpec`, `Lpm`,
  `PayloadSpec`), and the scans are in turn characterised without recursion: exact beats
  suffix, the deepest suffix wins, the longest prefix wins, the tightest mask wins, the most
  confident claim wins and the earliest on ties. The answer is unique and is a miss exactly
  when nothing applies. Unbounded probe loops end because the tables are never full.
* **The flow table is a demultiplexer.** Over every capture, each live record is the fold of
  the per-flow step over all packets of its 5-tuple, in either direction, from the frame on
  that created it, and over no others (`Conversations.Demultiplexed`); no conversation is ever
  tracked twice. While nothing is evicted the table is the capture grouped by conversation
  (`Conversations.GroupsByConversation`).
* **Verdicts.** Evidence only gets better and a final verdict is frozen. A flow goes final
  at the first packet inside the budget whose server name matches, with that name's claim,
  for all conversations if and only if every name that can be matched is tier A or B and
  beats every address owner that can be; the rules of the source loaders meet that, and then
  final verdicts do not depend on the prefix and payload rules at all.
* **Evidence.** The protocol is that of the first payload match; application, tier, confidence
  and license are those of the best claim that the first owner and the names put forward
  (`Evidence`). From a feed's or a pattern's list on, what is listed gives packets an owner or
  a protocol (`Corroboration`).
* **Printers and parsers are inverse**, with every free field of a ClientHello, VLAN tags, IPv4
  and TCP options, IPv6 extension headers and the database format; what parses is of the printed
  form; a longer capture never changes a server name that was found.
* **From a source's name list to a verdict.** A name that a loader adds and the license
  gates let through is met again on the wire: a packet with a host name the rule is for, that
  is the name itself or for suffix rules everything below it, is a hit, and settles every
  conversation in which it is the first match (`Replay.CompileSources`). And every hit comes
  from a rule that covers the name. Which texts are names, and of which kind, is proved exactly
  (`SigcText.NormalizeIff`).
* **`make check`.** Loading the sources, compiling them, printing a ClientHello for every name
  in the database and classifying that capture is one method, `Replay.CheckRoundTrip`: for
  names of at most 255 bytes and 40 labels, and no more of them than there are source ports
  for, every name is matched, none is unmatched, and every flow is settled.
* **The two license gates** (when compiling, when loading) agree at every level if and only
  if no rule is licensed more permissively than its app; the loaders establish that.
* **The crawler's gates** hold under every interleaving of tasks at their await points.

Modules follow the source files. For code that works in place there is a class or a method
with loops, proved equal to a specification function; the results above are lemmas about
those functions. Indexes of the source that mean "none" (`EMPTY`, `NIL`) are `Option` values,
and bytes are numbers below 256.

Where code and documentation disagree, the model follows the code:

* `include/ngfw/trie.h` says a trailing dot is tolerated; the code strips all of them
  (`Labels.SplitOfJoin`).
* `docs/engine.md` says the matchers never see more than the first 12 packets of a flow. The
  packet counter has 16 bits, and the bound holds exactly for conversations of fewer than
  65536 packets and for those that are final by then (`FlowHistory.TwelveAtMostIff`), so it
  fails for 65536 packets without a matched name (`Documented.TwelveFails`); where
  names decide, that is those with a match in the first twelve
  (`FlowHistory.TwelveByNamesIff`).
* `docs/engine.md` says a matched name corrects the address's owner. It does exactly if it
  beats it (`FlowHistory.NameDecidesIff`); a prefix rule of tier A or B that is not beaten
  makes the address's owner final (`FlowHistory.StrongPrefixWins`), as with one exact name
  rule and one prefix rule of tier B (`Documented.CorrectionFails`). The loaders add no such
  rule (`FlowHistory.TieredNamesDecide`).
* `docs/engine.md` says `netflix.com.evil.tld` does not match `netflix.com`. No hit comes from
  a rule that does not cover the server name that is read (`EndToEnd.WireHitIsCovered`), but
  what is read is the host's name exactly if that has between 1 and 255 bytes and no NUL
  (`TlsHello.SniRoundTrip`): a host of 243 bytes, then `.netflix.com`, then `.evil.tld`, is
  clipped to a name below `netflix.com` (`EndToEnd.ClippedHostIsMisread`).
* App id 0xFFFFFFFF stands for "no app" in the indexes, but files may carry it. An index
  answers as described exactly if the rule that ought to answer is not for that id
  (`TrieSpec.ScanIsAnswerIff`, `Lpm.OwnerAnswersIff`).
* The comment on the framing guard in `tools/sigc.py` says that pinning a TLS record header
  is refused. It is, but masks other than 0x00 and 0xFF can evade it; which masks do is
  proved exactly (`Framing.GuardSoundIff`).
* A payload bucket works with the mask of its first rule, so a rule with another mask of the
  same shape is not matched as written (`PayloadSpec.OwnMaskIffBucketMask`); with the masks
  that `include/ngfw/sigdb.h` describes this never happens (`PayloadSpec.ByteMasksAreOwn`).
* `Builder.app` says its callers must not attach rules to a dropped identity;
  `Builder.domain`, unlike its siblings, does not refuse such rules, and it is `serialize`
  that keeps them out of the database (`DbRoundTrip.RulesHaveApps`).
* The rate limiter limits only with a positive rate and a burst of at least one
  (`RateLimits.LimitsIff`).

## Model

| member | source | states |
|---|---|---|
| Labels.SplitLabels | src/match/domain_trie.c:123-142 | The scanning loop yields the labels of the name without its trailing dots, or none on an empty label or too many labels |
| Labels.SplitIffJoin | src/match/domain_trie.c:123-142 | A name splits into a label list exactly when the labels are non-empty, dot-free, at most `max`, and spell the name when joined by dots |
| Labels.SplitOfJoin | src/match/domain_trie.c:126-127 | Any number of trailing dots is ignored: splitting inverts joining |
| Hashing.ComputeLabelHash | src/match/domain_trie.c:33-41 | The case-folding FNV-1a loop computes the label hash used by the model, and never returns 0 |
| Hashing.OneLetterApart | src/match/domain_trie.c:33-41 | Labels that differ in a single letter never have the same FNV value: no round loses anything of the state or of the byte |
| Hashing.Mix64Injective | src/engine/flow.c:24-30 | The 64-bit finalizer is one-to-one |
| Hashing.EndpointsApart | src/engine/flow.c:33-47 | Endpoints that differ in the port only, or in one byte of the address only, never hash alike |
| Hashing.PayloadMixInjective | src/match/payload.c:44-51 | The 32-bit mixer is one-to-one: patterns never share a hash |
| Probing.HoleExists | src/match/domain_trie.c:89-92 | A table that is not full has an empty slot, so an unbounded probe ends |
| Probing.ProbeMiss | src/match/domain_trie.c:71-80 | A probe that meets an empty slot has passed every slot its key could be in |
| Probing.StoreKeepsTable | src/match/domain_trie.c:94-99 | Storing where the probe ended keeps every key reachable from its home slot and stored once |
| HashSlots.MovedAll | src/match/domain_trie.c:112-117 | When rehashing is through, the bigger table holds exactly the old map |
| EdgeTables.EdgeTable.EdgeSlot | src/match/domain_trie.c:71-80 | The unbounded probe ends, at the key's slot if it is stored and else at the empty slot where it may be stored |
| EdgeTables.EdgeTable.EdgeFind | src/match/domain_trie.c:82-87 | Finds exactly the child that the edge map has for the parent and hash |
| EdgeTables.EdgeTable.EdgesGrow | src/match/domain_trie.c:103-120 | Doubles the table and loses, adds and redirects no edge |
| EdgeTables.EdgeTable.EdgeInsert | src/match/domain_trie.c:89-101 | Adds the edge, or returns the child it already has; load stays below 70% |
| DomainTrie.Trie.constructor | src/match/domain_trie.c:144-159 | A new trie has only the root and no rules |
| DomainTrie.Trie.NodeNew | src/match/domain_trie.c:50-65 | Appends an unclaimed node and keeps all others, also when the array is reallocated |
| DomainTrie.Trie.Descend | src/match/domain_trie.c:180-187 | Reaches the child for one more label hash and creates it only if it is missing |
| DomainTrie.Trie.FileClaim | src/match/domain_trie.c:190-202 | Higher confidence wins: afterwards every node carries the verdict of all rules including the new one |
| DomainTrie.Trie.Insert | src/match/domain_trie.c:169-204 | Files the rule under the hashes of its labels; fails, changing nothing, exactly for unusable names |
| DomainTrie.Trie.Walk | src/match/domain_trie.c:214-251 | The walk from the top-level domain inward answers as the linear scan over all rules |
| DomainTrie.Trie.Lookup | src/match/domain_trie.c:206-251 | After any inserts, lookup refines the linear scan; unusable names miss |
| DomainTrie.Trie.NodeCount | src/match/domain_trie.c:253 | The node count is one more than the number of distinct non-empty suffixes filed |
| DomainTrie.NothingDeeper | src/match/domain_trie.c:221 | Stopping at a missing edge loses nothing: there is no rule at or below it |
| Claims.SettleIsStrongestIff | src/match/domain_trie.c:191-202 | What competing claims leave on a node is the most confident one, the earliest on ties, if and only if that one is not for the reserved id, whatever the weaker ones are |
| Claims.ReservedIdErases | src/match/domain_trie.c:193-196 | A claim for app 0xFFFFFFFF wipes out a good one exactly if it is more confident |
| TrieSpec.VerdictIsBest | src/match/domain_trie.c:190-202 | What is stored for a path and kind is nothing without a rule for it, and else the best rule's claim, exactly if that is not for the reserved id |
| TrieSpec.ScanIsAnswer | src/match/domain_trie.c:206-251 | The answer is the best exact rule for the whole name, else the best rule at the deepest suffix with a rule, else a miss when no rule applies |
| TrieSpec.ScanIsAnswerIff | src/match/domain_trie.c:206-251 | That is so if and only if the one rule that ought to answer is not for the reserved id |
| TrieSpec.AnswerIsUnique | src/match/domain_trie.c:206-251 | Only one answer has that property |
| TrieSpec.FullDepth | src/match/domain_trie.c:227-241 | A rule for exactly the name makes the answer full depth, exact if the rule is, and no less confident than a rule of the answer's kind |
| TrieSpec.SuffixReaches | src/match/domain_trie.c:218-249 | A suffix rule for the name or one it lies below makes the answer at least that deep, and no less confident than a suffix rule of the same depth |
| TrieSpec.ScanFromRules | src/match/domain_trie.c:228-250 | For all rules: every answer is the claim of a rule for the reported number of labels and of the reported kind, never the reserved id |
| NameRules.HashesAreTransparent | src/match/domain_trie.c:180-188 | If the hash tells apart the case-folded labels in play, the trie answers as a scan that compares labels |
| NameRules.PathPrefixIsAtOrBelow | src/match/domain_trie.c:218-241 | Suffix matching is label-aligned and ignores case: a name is covered exactly when it is the rule's name or ends in a dot and that name |
| NameRules.SamePathSameName | src/match/domain_trie.c:179-188 | Two names share a node's path exactly when they are equal up to case and trailing dots |
| NameRules.CaseDoesNotMatter | src/match/domain_trie.c:33-41 | Names that differ in case, or in the dots behind them, are looked up alike; folding makes exactly case variants equal |
| NameRules.HitIsCovered | src/match/domain_trie.c:206-251 | If the hash tells apart the labels in play, every hit is the claim of a rule for the name itself or, for suffix rules, for a name it lies below |
| AddressBits.SharedPrefixIsNumeric | src/match/lpm.c:36-39 | Reading addresses bit by bit is right: two addresses share k bits exactly when they agree as numbers above the rest |
| Lpm.PrefixTable.Descend | src/match/lpm.c:72-84 | Reaches the node one more bit down and creates it only if it is missing |
| Lpm.PrefixTable.Insert | src/match/lpm.c:66-94 | Files the prefix; refuses, changing nothing, exactly a length beyond the table's |
| Lpm.PrefixTable.Lookup | src/match/lpm.c:96-120 | After any inserts, lookup refines the longest-prefix scan |
| Lpm.PrefixTable.NodeCount | src/match/lpm.c:122 | The node count is one more than the number of distinct non-empty bit prefixes inserted |
| Lpm.LongestPrefixIsLongest | src/match/lpm.c:96-120 | The answer is the longest inserted prefix that covers the address, with its most confident owner and its own length; a miss exactly when none covers it |
| Lpm.OwnerAnswersIff | src/match/lpm.c:96-120 | The owner of the longest covering prefix is the answer if and only if it is not the reserved id |
| PayloadSpec.PayScanIsTightest | src/match/payload.c:135-169 | The answer has the fewest wildcards of all matching rules, the lowest bucket on ties, and the most confident claim per pattern; a miss exactly when no rule matches |
| PayloadSpec.TightestIsUnique | src/match/payload.c:135-169 | Only one rule has that property |
| PayloadSpec.OwnMaskIffBucketMask | src/match/payload.c:90-95 | A rule is matched under its own mask for all words if and only if that is the mask of its bucket's first rule |
| PayloadSpec.ByteMasksAreOwn | include/ngfw/sigdb.h:74 | With masks of 0x00 and 0xFF bytes every rule is matched under its own mask |
| PayloadSpec.ByteMaskScan | src/match/payload.c:135-169 | For such rules the answer is a rule with `word & mask == value & mask`, the fewest wildcards of all that match, and the highest confidence for its mask, the earliest on ties; a miss exactly when none matches |
| PayloadSpec.OwnMatchByBytes | src/match/payload.c:135-169 | Such a rule matches exactly the payloads with its bytes where it pins them |
| PayloadSpec.WildcardsByIndex | src/match/payload.c:36-42 | The bucket index determines the number of wildcards, and 15 is the refused mask |
| Payload.Bucket.FindSlot | src/match/payload.c:114-127 | The probe ends at the key's slot, or at an empty slot when the key is not stored |
| Payload.Bucket.Grow | src/match/payload.c:97-111 | Doubling a bucket loses no pattern |
| Payload.Bucket.Store | src/match/payload.c:97-132 | A pattern claimed again keeps the surer claim; a new one is added and counted |
| Payload.Bucket.Find | src/match/payload.c:152-166 | The bounded probe finds exactly what is stored and never needs its bound |
| Payload.PayloadSet.Insert | src/match/payload.c:78-133 | Files the rule in its bucket and leaves the others alone; refuses exactly the all-wildcard mask |
| Payload.PayloadSet.Lookup | src/match/payload.c:135-169 | After any inserts, lookup refines the scan |
| Payload.PayloadSet.Count | src/match/payload.c:171 | The count is that of distinct patterns |
| Flows.SameFlowIsSameTuple | src/engine/flow.c:49-61 | Comparing fields is equality of 5-tuples up to direction |
| Flows.SameTupleEquivalence | src/engine/flow.c:49-61 | That relation is an equivalence |
| Flows.SameConversationIff | src/engine/flow.c:49-61 | Packets are one conversation exactly if version and protocol agree and hosts and ports do, crosswise or not, over four address bytes for IPv4 and sixteen for IPv6 |
| Hashing.FlowHash | src/engine/flow.c:33-47 | The loop over both addresses computes the hash of the packet's tuple |
| Hashing.TupleHashIsDirectionBlind | src/engine/flow.c:32-47 | Both directions of every conversation share a home slot |
| Flows.LiveIsInWindow | src/engine/flow.c:87-107 | A tracked conversation is within 16 slots of its hash home, with all slots before it in use |
| Flows.NewIffUntracked | src/engine/flow.c:82-125 | A lookup reports "new" exactly when the conversation is not tracked |
| Flows.NewFlowGoesTo | src/engine/flow.c:87-124 | A new flow takes the nearest free of the sixteen slots from its hash home on, and if there is none the home slot itself |
| Flows.EnterKeepsTable | src/engine/flow.c:82-125 | Insertion, eviction and a hit all keep the table in order: no conversation twice, every live flow in its window, as many slots in use as counted; only the packet's slot changes |
| Flows.AnnotateKeepsTable | src/engine/main.c:224-294 | Writing a flow's verdict and packet count through the returned pointer keeps it so |
| Flows.FlowTable.Probe | src/engine/flow.c:87-107 | The bounded probe ends at the first free slot or the packet's flow, or finds the window crowded |
| Flows.FlowTable.Lookup | src/engine/flow.c:82-125 | The method does what the table function says, and the table stays in order |
| Flows.FlowTable.Annotate | src/engine/main.c:225-294 | Changes one live record's verdict and count and nothing else |
| Tls.NgfwTlsSni | src/engine/tls.c:22-100 | All reads are in bounds, both loops end, no 16-bit cast loses anything; on success the buffer holds the first host name as a C string, clipped to its size |
| Tls.SkipToExtensions | src/engine/tls.c:41-62 | Walks exactly past the fixed fields and the three vectors, or fails where one is cut short |
| Tls.ScanExtensions | src/engine/tls.c:66-98 | The first server_name extension decides |
| Tls.ScanList | src/engine/tls.c:73-95 | The first host-name entry decides |
| Tls.CopyHost | src/engine/tls.c:86-91 | Copies and terminates the name; succeeds exactly if it is non-empty and has no NUL |
| TlsHello.HelloRoundTrip | src/engine/tls.c:41-98 | The host name of every well-formed hello is found, for any session id, ciphers, compressions, other extensions, and bytes after the record |
| TlsHello.SniRoundTrip | src/engine/tls.c:22-100 | What is reported is the host name clipped to the buffer, and nothing if that is empty or has a NUL; it is the host name if and only if that fits and has no NUL |
| TlsHello.HostIffShown | src/engine/tls.c:29-98 | A host name is found exactly if the capture, however it is cut off, shows a ClientHello in a handshake record up to the end of its first server_name extension, with that name as its first host name and all lengths nested |
| Evidence.NamesComeFromHellos | src/engine/main.c:275-279 | A server name is only read from the payload of a TCP packet that shows such a hello, and is at most the first 255 bytes of the host name |
| TlsHello.CaptureMonotone | src/engine/tls.c:29-39 | A name found in a truncated capture is found, unchanged, in every longer one |
| Mkpcap.HelloForFits | tools/mkpcap.py:33-55 | The printed ClientHello is an instance of the general form |
| Mkpcap.ClientHelloRoundTrip | tools/mkpcap.py:33-55 | Every printed hello with a NUL-free name that fits the buffer gives the name back |
| Checksum.ComputeIpChecksum | tools/mkpcap.py:22-30 | The loops compute the one's-complement checksum |
| Checksum.Fold | tools/mkpcap.py:28-29 | Folding the carries ends, with a 16-bit value |
| Checksum.FoldModulo | tools/mkpcap.py:28-29 | Folding preserves the sum modulo 65535 |
| Checksum.ChecksumVerifies | tools/mkpcap.py:22-30 | Checksumming data with its checksum filled in gives 0 |
| Checksum.WrongChecksumDetected | tools/mkpcap.py:22-30 | Any other value in the field is detected, except for the other zero of one's complement |
| Mkpcap.IpHeaderVerifies | tools/mkpcap.py:71-74 | The finished IP header checksums to 0 |
| Mkpcap.TcpPacketRoundTrip | tools/mkpcap.py:58-77 | Decoding a printed packet gives back its addresses, ports and payload |
| Mkpcap.PrintedHeaders | tools/mkpcap.py:58-77 | The IP length, time to live, sequence and acknowledgement numbers, flags and window are as printed |
| Mkpcap.PrintCapture | tools/mkpcap.py:135-140 | The loop prints one frame for each entry, in order, or fails exactly if one cannot be packed |
| Mkpcap.PrintedDecodes | tools/mkpcap.py:136-138 | Frame k decodes to a packet from the k-th source address and port, with its entry's hello |
| Decode.PacketBuffer.FillL4 | src/engine/decode.c:17-40 | Fills ports and payload as the decoding function does, and fails exactly where it does |
| Frames.TcpPayload | src/engine/decode.c:19-29 | The payload of a TCP segment begins behind its options, however long they are; the ports are the first four bytes |
| Frames.UdpPayload | src/engine/decode.c:30-37 | That of a UDP datagram begins behind its eight bytes |
| Frames.TransportIff | src/engine/decode.c:17-40 | Exactly whole headers decode; other protocols have no ports and no payload |
| Decode.PacketBuffer.FillIp | src/engine/decode.c:42-93 | Decodes IPv4 and IPv6, later fragments without a payload |
| Frames.Ipv4RoundTrip | src/engine/decode.c:47-62 | An IPv4 packet is decoded by the transport header behind its options; a later fragment has no ports and no payload |
| Frames.Ipv4Iff | src/engine/decode.c:47-62 | No packet of version 4 without a whole header decodes |
| Frames.Ipv6Iff | src/engine/decode.c:64-91 | What decodes as IPv6 is forty fixed bytes, a chain of at most eight well-formed extension headers, and the transport header that decides |
| Decode.PacketBuffer.NgfwDecode | src/engine/decode.c:95-125 | Succeeds exactly on the frames of the four link types that the decoding function accepts, with its fields |
| Frames.LinkHeaders | src/engine/decode.c:100-124 | The link headers are four, none, sixteen and fourteen bytes, by link type |
| Frames.NoLinkHeader | src/engine/decode.c:100-124 | Shorter frames and other link types do not decode |
| EndToEnd.HelloOnTheWire | src/engine/decode.c:17-113 | The server name of a hello is found whatever VLAN tags, IPv4 options and TCP options come before it, with the addresses and ports of its frame |
| Decode.FindTransport | src/engine/decode.c:70-89 | The extension header loop ends inside the packet and computes the bounded walk |
| Frames.TagsAreTransparent | src/engine/decode.c:101-113 | Up to two VLAN tags change nothing; a third makes the frame undecodable |
| Frames.WalkPassesChain | src/engine/decode.c:73-87 | Behind a well-formed chain of at most n extension headers the walk finds the transport header, behind more it does not |
| Frames.Ipv6RoundTrip | src/engine/decode.c:64-91 | An IPv6 packet is decoded by its transport header exactly when at most eight extension headers come first |
| FlowHistory.CounterAndTuple | src/engine/main.c:224-225 | The packet counter counts the flow's packets modulo 65536 and the record keeps its tuple |
| FlowHistory.VerdictsImprove | src/engine/main.c:116-122 | Over a flow's packets (tier, confidence) never gets worse, the app is never forgotten, the protocol is set once, and a final verdict is frozen |
| FlowHistory.VerdictsAreSourced | src/engine/main.c:229-297 | The app comes only from a prefix or name rule, the protocol only from a payload rule, and final implies a matched server name and tier A or B |
| FlowHistory.InspectedIff | src/engine/main.c:225-227 | The matchers look at packet k of a conversation exactly if k + 1 modulo 65536 is at most 12 and the flow is not final yet |
| FlowHistory.TwelveAtMostIff | src/engine/main.c:225-227 | No packet but the first twelve is looked at, if and only if there are fewer than 65536 packets or the flow is final by then |
| FlowHistory.TwelveByNamesIff | src/engine/main.c:225-294 | Where names decide: if and only if there are fewer than 65536 packets or one of the first twelve has a matched name |
| Documented.LongUnnamedFlow | src/engine/main.c:225-227 | In every conversation of 65536 packets or more without a matched name, a packet beyond the twelfth is looked at |
| Documented.TwelveFails | src/engine/main.c:225-227 | A failing input for every rule set: 65536 empty datagrams |
| FlowHistory.FirstSettlingIsFirst | src/engine/main.c:275-297 | The settling packet is the first one in budget whose server name matches |
| FlowHistory.FinalAtFirstMatch | src/engine/main.c:254-297 | If matched names are tier A or B and beat all address owners, or agree, a flow is final exactly from that packet on, with the matched rule's claim |
| FlowHistory.NameDecidesIff | src/engine/main.c:116-122 | Names decide every conversation so if and only if they meet that condition |
| FlowHistory.TieredNamesDecide | tools/sigc.py:159-186 | Name rules of tier A or B and weaker prefix rules meet it |
| FlowHistory.FinalsIgnoreOtherEvidence | src/engine/main.c:229-297 | Final verdicts of a conversation are the same under any payload rules and any prefix rules that names beat |
| FlowHistory.StrongPrefixWins | src/engine/main.c:264-294 | On a packet with both, the address owner decides a final verdict if and only if it is tier A or B and the name does not beat it |
| Documented.OwnerOverridesName | src/engine/main.c:264-294 | Whatever the claims, if the owner's is tier A or B and not beaten: with one exact rule for the name and one prefix rule for all addresses, the final verdict is the owner's |
| Documented.CorrectionFails | src/engine/main.c:264-294 | A failing input for every usable server name: a name rule of confidence 50 and a prefix rule of confidence 90, both tier B |
| EngineRuns.RunKeepsTrace | src/engine/main.c:212-318 | Over every capture the flow table stays in order, and every live record is the fold over the packets that were charged to it since it was created, all of its own conversation |
| Conversations.StepFromSlot | src/engine/flow.c:82-125 | A decoded packet goes to the slot of its own conversation and to no other; a slot whose flow is new starts over with it |
| Conversations.HistoriesAreConversations | src/engine/main.c:212-318 | What was charged to a live record is exactly what the capture has of its conversation, in order, from the frame on that started the record last |
| Conversations.Demultiplexed | src/engine/main.c:212-318 | So every live record is the fold over all packets of its 5-tuple, in either direction, since that frame, and over no others |
| Conversations.GroupsByConversation | src/engine/flow.c:82-125 | While nothing is evicted every packet's conversation has a record, and every record is the fold of its whole conversation in the capture |
| EngineRuns.RunsTrackAlike | src/engine/main.c:224 | Which packets belong to which flow does not depend on the rules |
| EngineRuns.FinalsIgnoreAddresses | src/engine/main.c:212-318 | Two engines with the same name rules, which beat the address owners of both, settle the same flows of a capture with the same verdicts |
| EngineRuns.NoEvictionIff | src/engine/flow.c:113-124 | The eviction counter stands still over a run if and only if no frame takes a slot from a live flow |
| EngineRuns.RunWithoutEviction | src/engine/flow.c:109-124 | A live slot that no frame takes goes on with its flow's history, whatever happens to others |
| EngineRuns.VerdictsImproveOverRuns | src/engine/main.c:212-318 | A flow whose slot no frame takes keeps its slot and 5-tuple, and its verdict only improves, whatever is evicted elsewhere |
| EngineRuns.RunKeepsBalance | src/engine/main.c:213-299 | The counters' balance is an invariant of every run |
| EngineRuns.RunCountsProtocols | src/engine/main.c:213-222 | Decoded, undecodable, TCP and UDP are the numbers of such frames |
| EngineRuns.RunCountsFlows | src/engine/flow.c:109-124 | Flow count and eviction counter together grow by one for every frame that starts a flow, and the eviction counter by one for every live flow that is overwritten |
| EngineRuns.SummaryAddsUp | src/engine/main.c:322-335 | Packets are decoded or not, names matched or not, flows equal live slots, flows plus evictions are the frames that started a flow, and finals, address matches and payload matches are each at most those |
| Conversations.ReplayMatchesAll | tests/run_e2e.sh:117-135 | Of a capture of matched names, each in a conversation of its own, every frame starts a flow and is counted as matched, none as unmatched, with evictions or without; where names decide, every frame settles its flow |
| Classifier.Indexes.UsePayload | src/engine/main.c:229-252 | The payload stage over the real matcher equals the stage over the rule list, counters included |
| Evidence.ProtocolIsFirst | src/engine/main.c:229-252 | Over every conversation: the protocol, its tier and confidence are those of the first payload match among the packets looked at, and each kind of evidence is marked exactly if some packet looked at had it |
| Classifier.Indexes.UseAddress | src/engine/main.c:254-273 | The address stage over the real tables equals the stage over the rule lists, counters included |
| Evidence.AddressHitIsOwner | src/engine/main.c:256-262 | IPv6 packets ask the IPv6 prefixes with 128 bits, others the IPv4 prefixes with 32: the hit is the owner of the destination by longest prefix, else that of the source, and a miss exactly if no prefix covers either |
| Evidence.AddressHitAsks | src/engine/main.c:256-262 | With the reserved id among the rules too, the table of the version is asked for the destination, then the source |
| Evidence.AddressAnswersFirst | src/engine/main.c:263-272 | Without a server name the first packet has a provisional verdict: its owner's claim |
| Evidence.OwnerStays | src/engine/main.c:254-273 | Until a name matches, the owner found first keeps its word over every conversation |
| Evidence.VerdictIsBestClaim | src/engine/main.c:116-122 | Over every conversation application, tier, confidence and license are those of the best claim put forward by the owner found first and the names, the earliest of equals, and unknown exactly without any |
| Evidence.FinalIff | src/engine/main.c:275-297 | A conversation is final exactly if after some packet looked at with a matched name the best claim was of tier A or B |
| Evidence.CountsByHits | src/engine/main.c:229-316 | Each counter of the stages, by the record before the packet and its three hits |
| Classifier.Indexes.UseSni | src/engine/main.c:275-317 | So does the server name stage |
| Classifier.Classifier.Process | src/engine/main.c:212-318 | One iteration of the loop equals one step of the model |
| Classifier.ClassifyCapture | src/engine/main.c:212-318 | The whole loop equals the model's run over the frames |
| Slugs.SlugIsSlugged | tools/sigc.py:40-49 | A slug is non-empty lower-case words with single hyphens between them |
| Slugs.SlugIsWords | tools/sigc.py:48-49 | A slug is the name's runs of letters and digits, lower-cased, with one hyphen between each two, or "unknown" if there are none |
| Slugs.SlugTwice | tools/sigc.py:40-49 | Normalizing again changes nothing |
| Slugs.SlugKeepsIdentity | tools/sigc.py:139 | The identity key of a slug is the name's letters and digits, lower-cased; names without any become "unknown" |
| Slugs.SameIdentityIff | tools/sigc.py:133-139 | Two names are one app exactly when their letters and digits agree, ignoring case; names without any are one app with "Unknown" |
| SigcText.NormalizedIsClean | tools/sigc.py:162-174 | An accepted name is lower-case, has a dot, and has no empty label |
| SigcText.NormalizeSpelled | tools/sigc.py:160-178 | A name in any case, with blanks around it and dots before or after it, is accepted as the lower-cased name; it is exact if that was asked for and no dot comes before it, and else a suffix |
| SigcText.NormalizeIff | tools/sigc.py:160-178 | A text is refused exactly if it is no name so spelled |
| SigcText.PlainNames | tools/sigc.py:160-178 | A clean name is kept as it is and of the kind asked for; with a dot before it, as a suffix |
| SigcText.EmptyFieldIff | tools/sigc.py:172-174 | Refusing double dots, with dots stripped from both ends, is refusing empty labels |
| SigcText.CleanNameSplits | tools/sigc.py:159-183 | The trie can file every accepted name of at most 40 labels, and no longer one |
| Sigc.Builder.App | tools/sigc.py:121-157 | Drops, aliases and identities: same key, same id; new keys get the next id; an app seen again keeps its category and the smaller license, and its name unless only the other is hyphenated; nothing else changes |
| Sigc.Builder.Register | tools/sigc.py:139-157 | The same for a key; ids stay dense and one per key, and licenses minimal |
| Sigc.HyphenIsKept | tools/sigc.py:144-149 | The name shown is one that was seen, and hyphenated exactly if one that was seen is |
| Sigc.Builder.Domain | tools/sigc.py:159-183 | Accepts exactly the texts that have a normal form not yet present for the app and kind, and stores that form |
| Sigc.Builder.Cidr | tools/sigc.py:185-213 | Accepts exactly parsed networks of real apps not yet present, padded to 16 bytes |
| Sigc.Builder.Payload | tools/sigc.py:215-234 | Accepts exactly patterns with some pinned byte that do not pin a TLS header, not yet present; counts those it refuses for that |
| Framing.GuardSoundIff | tools/sigc.py:86-96 | The guard keeps TLS record starts unmatched if and only if the mask pins the upper six bits of the first byte and all of the second |
| Framing.AcceptedIff | tools/sigc.py:215-229 | A pattern is refused exactly if it is not four bytes with a mask of four, pins nothing, or pins a TLS content type and version; pinned bytes are kept and others cleared |
| Framing.PinnedRuleMisses | tools/sigc.py:78-96 | A compiled rule whose mask pins the header matches no TLS record start, not even under another such mask |
| Framing.TlsMatchLeavesWildcard | tools/sigc.py:78-96 | A compiled rule that matches a TLS record start under its own mask leaves a bit of the content type's upper six or of the version open |
| Framing.TlsRecordsMiss | tools/sigc.py:225-227 | If all masks pin those bits the payload lookup misses on every TLS record, whatever masks its buckets work with |
| Compiler.StringPool.InternText | tools/sigc.py:250-254 | Interning stores each text once and returns an offset where it can be read; what was stored stays where it was |
| Compiler.PackApps | tools/sigc.py:256-259 | The loop over the apps interns and packs row by row; it fails exactly if a field does not fit |
| Compiler.PackDomains | tools/sigc.py:260-263 | So does the loop over the domains, with the same pool |
| Compiler.PackCidrs | tools/sigc.py:265-268 | So does the loop over the prefixes |
| Compiler.PackPayloads | tools/sigc.py:270-273 | So does the loop over the patterns |
| Compiler.PackFile | tools/sigc.py:275-286 | The header is computed from the sizes of what was packed, and fails exactly if one does not fit |
| Compiler.SerializeCorpus | tools/sigc.py:236-286 | Filtering, then packing table by table, writes the file the model specifies, or fails where a field does not fit |
| Serialize.InternAllOk | tools/sigc.py:247-254 | Every interned name, terminated, lies at the offset it was given |
| Serialize.FilterTwice | tools/sigc.py:239-245 | Filtering by license and then by surviving app is filtering by both |
| Serialize.SectionsAt | tools/sigc.py:275-286 | The sections lie back to back where the header says |
| Serialize.FileIsSound | tools/sigc.py:275-286 | The file meets every condition the loader puts on it |
| Serialize.NameReadsBack | tools/sigc.py:250-254 | Every offset reads back as its own string |
| DbFormat.HeaderReadsBack | tools/sigc.py:33 | The packed header is what the C struct reads |
| DbFormat.HeaderLayout | include/ngfw/sigdb.h:28-42 | The header's fields are at their offsets, little-endian |
| DbFormat.AppLayout | include/ngfw/sigdb.h:44-50 | So are those of an app row |
| DbFormat.DomainLayout | include/ngfw/sigdb.h:82-89 | And of a domain row |
| DbFormat.CidrLayout | include/ngfw/sigdb.h:54-63 | And of a prefix row |
| DbFormat.PayloadLayout | include/ngfw/sigdb.h:72-80 | And of a pattern row |
| DbFormat.MagicLetters | include/ngfw/sigdb.h:28-31 | Every file begins with the letters NGWD and version 3 |
| SigdbLoad.SpanOkIff | src/sigdb/sigdb_load.c:13-19 | The overflow-safe comparison holds exactly when the span lies inside the file |
| SigdbLoad.Open | src/sigdb/sigdb_load.c:21-79 | Accepts exactly the files whose sections lie inside and whose pool is terminated, so that later accesses are safe |
| SigdbLoad.LookupAppName | src/sigdb/sigdb_load.c:95-105 | The name of the first row with the id, and no other |
| SigdbLoad.CStrReads | src/sigdb/sigdb_load.c:78 | A stored NUL-free text is the C string at its offset |
| DbRoundTrip.DatabaseRoundTrip | tools/sigc.py:236-286 | Every file the compiler writes is accepted, and its views are exactly the kept records, in order, with their own names |
| DbRoundTrip.RulesHaveApps | tools/sigc.py:242-245 | Every rule's app is in the app table, so no rule of a dropped identity is left |
| Loading.BuildTrie | src/engine/main.c:44-64 | The trie holds exactly the rows within the license limit, in order |
| Loading.BuildLpm | src/engine/main.c:68-90 | So do the two prefix tables, one per address family |
| Loading.BuildPayload | src/engine/main.c:92-107 | So does the payload matcher |
| LoadedCorpus.LoadedIsCorpus | tools/sigc.py:236-286 | Compiling, opening and loading a corpus gives exactly the rules that pass both gates, in order |
| Program.Assemble | src/engine/main.c:182-205 | The four indexes over a sound database hold exactly its rules within the license limit, and the flow table is empty |
| Program.ClassifyFile | src/engine/main.c:162-318 | The whole program: on a sound database it computes the model's run over the rules in the file, from an empty flow table; it gives up exactly on others |
| Program.ProgramAddsUp | src/engine/main.c:322-335 | The printed summary adds up, with the flows started in the run as the bound, for every database and every capture |
| Program.ProgramFinalsIgnoreAddresses | src/engine/main.c:212-318 | Databases with the same name rules, where names decide, settle the same flows of a capture in the same way |
| Program.CorporaSettleAlike | tools/sigc.py:185-234 | So do the databases compiled from loaded corpora of which the same domain rules are kept, whatever apps, prefixes and patterns they have besides |
| Gates.KeptByLicense | tools/sigc.py:236-245 | Which domain rules a build of a loaded builder keeps depends on these rules and the level alone: those of real apps within it |
| Loaders.NamelessSources | tools/sigc.py:533-797 | Sources without names, loaded after the others, leave the domain rules as they are |
| Program.FeedsSettleNothing | tools/sigc.py:533-797 | So the database compiled with address feeds and payload corpora settles the same flows of every capture in the same way as the one without |
| Program.LicenseLevelsClassifyAlike | src/engine/main.c:50-103 | Both ways of applying a license level classify every capture alike |
| Gates.GatesAgreeIff | tools/sigc.py:239-245 | For one kind of rule the two gates agree at every level if and only if every surviving rule's license is at least its app's |
| Gates.CorpusGatesAgreeIff | tools/sigc.py:236-245 | The same for a whole corpus |
| Gates.AttachedRespect | tools/sigc.py:121-157 | That holds when each rule is attached under a license its app was registered with |
| Loaders.AddedIsThere | tools/sigc.py:159-183 | Whatever is loaded before and after: a usable name added for a resolved app is in the corpus, under that app and of its kind |
| LoadHistory.RulesAreListed | tools/sigc.py:159-234 | Over every load: a rule is in the corpus exactly if some action lists it, with the app resolved for it, its own confidence, the license of its source and the tier of its kind, and no action before lists one with its key |
| LoadHistory.SameAppIff | tools/sigc.py:121-157 | Over every load: a slug stands for no app exactly if curation drops it, and two slugs for one app exactly if their letters and digits agree after curation's renaming |
| LoadHistory.FirstCategoryStays | tools/sigc.py:139-157 | Over every load: an app has the category it was first resolved with, and no stricter license than any source of it |
| Loaders.Perform | tools/sigc.py:305-331 | Each action of a loader changes the builder as the model says, and keeps rules under licenses their apps were registered with, at their tiers |
| Loaders.LoadSources | tools/sigc.py:291-375 | Any loading leaves the given aliases and drops and exactly what its actions amount to; every rule is attached under a license its app was registered with, names at tier B and prefixes at tier C |
| LoadedCorpus.LicenseGatesAgree | src/engine/main.c:50-103 | Building at a level and loading everything gives the engine the same rules as building everything and loading at the level |
| EndToEnd.AttachedIsKept | tools/sigc.py:236-245 | A rule attached under its app's license is in every database from its own level on |
| EndToEnd.CompiledRuleHits | src/match/domain_trie.c:206-251 | Every name a kept rule is for, its own or for suffix rules one below it, is a hit on at least the rule's labels, whatever the label hash |
| EndToEnd.RowReaches | src/match/domain_trie.c:206-251 | A kept suffix rule is for everything that ends in a dot and its name, in any case |
| EndToEnd.SpelledReaches | tools/sigc.py:159-183 | So is the rule of a listed text that is no exact one, or has a dot before the name |
| EndToEnd.WireRoundTrip | tools/mkpcap.py:33-77 | The name put into a printed packet is the server name found in it |
| EndToEnd.CorpusRoundTrip | tools/sigc.py:236-286 | For a row that the database of a builder's corpus keeps and any host name it is for: compiled, opened, loaded and met on the wire, the host name is a hit on at least the row's labels |
| EndToEnd.CorpusIsTiered | tools/sigc.py:319-328 | What the loaders add reaches the engine with names strong enough to settle a flow and prefixes too weak |
| EndToEnd.HelloSettlesFlow | src/engine/main.c:275-297 | A printed packet with a host name such a rule is for settles, with its claim, every conversation in which it is the first match inside the budget |
| EndToEnd.SettlesInTime | src/engine/main.c:225-297 | That is so for any of the first twelve packets without a matched name before it |
| EndToEnd.BuilderToVerdict | tools/sigc.py:159-183 | Every domain rule in a loaded builder, of a real app and within the license limits, is met again on the wire in every host name it is for, and settles every conversation in which that is the first match |
| EndToEnd.ListedNameSettles | tools/sigc.py:159-183 | The same from a source's list on: the usable name a loader adds is in the builder, and within the license limits every host name it is for settles every conversation in which it is the first match |
| Replay.CompileSources | tools/sigc.py:798-828 | The compiler's main: loads and serializes; within the license limits the file that is written makes the engine settle conversations by every host name a listed text is for |
| Corroboration.CompiledPrefixHits | src/match/lpm.c:96-120 | A kept prefix of either family gives every packet of its version with an address inside an owner, for a destination inside by a prefix at least as long, and as sure if it is as long |
| Corroboration.NetIsRow | tools/sigc.py:185-213 | Inside the stored row are exactly the addresses that agree with the network, as numbers, above its host part |
| Corroboration.ListedPrefixOwns | tools/sigc.py:719-727 | From a feed's list to a provisional verdict: every packet with an address in a listed network has an owner, and without a server name that is its conversation's verdict |
| Corroboration.CompiledPatternHits | src/match/payload.c:135-169 | With byte masks, a kept pattern is hit by every payload that begins with its bytes, with no more wildcards |
| Corroboration.ListedPatternNames | tools/sigc.py:215-234 | From a pattern's list to a protocol: a payload that begins with an accepted pattern's bytes has one, and a conversation that begins with it keeps it |
| EndToEnd.WireHitIsCovered | src/engine/main.c:275-294 | Under the same hypothesis, a packet is only ever matched by a rule of the database that covers the server name read from it |
| Replay.DomainsOf | tools/corpus_pcap.py:19-32 | The second reader of the file finds exactly the names of its domain rows, and fails exactly if one lies outside the pool |
| Replay.PrintedApart | tools/mkpcap.py:135-138 | No two printed frames belong to one conversation |
| Replay.EveryNameMatches | tests/run_e2e.sh:117-135 | For every corpus and any names its database keeps: printed, decoded and classified, all are matched and none is unmatched, each on a flow of its own; loaded corpora settle all of them |
| Replay.ReplayFile | tools/corpus_pcap.py:35-48 | Reads the names, prints a capture with each of them once, and classifies it; fails only for a file the loader refuses, a name outside the pool or one that cannot be printed |
| Replay.CheckRoundTrip | Makefile:57-75 | Load, compile, replay and classify in one: the outcome is the classified capture of the names in the file, and if all names can be replayed every one is matched and settles its flow |
| EndToEnd.ClippedHostIsMisread | src/engine/tls.c:86-91 | A host of 256 bytes or more is read as whatever its first 255 bytes spell, also a name of somebody else |
| EndToEnd.CompiledTlsMiss | tools/sigc.py:215-234 | In any database compiled from a builder, whatever the masks: a rule that matches a TLS record under its own mask leaves some of its header open; without such rules TLS records have no payload match |
| RateLimits.DomainBucket.Refill | src/utils/rate_limiter.py:20-24 | Tokens grow with time, never shrink, and stop at the burst |
| RateLimits.DomainBucket.Begin | src/utils/rate_limiter.py:28-35 | Under the lock: a token is taken at once, or a sleep for the missing part begins |
| RateLimits.DomainBucket.Resume | src/utils/rate_limiter.py:35-38 | After the sleep the acquire is granted |
| RateLimits.DomainBucket.Abandon | src/utils/rate_limiter.py:28-35 | A sleeper that is cancelled frees the lock and takes no token |
| RateLimits.RunKeepsBucket | src/utils/rate_limiter.py:20-38 | The bucket's invariant, that all grants are paid for by burst and time, holds over every run |
| RateLimits.WindowIsBounded | src/utils/rate_limiter.py:26-38 | No window of time sees more grants than the burst plus rate times its length |
| RateLimits.WaitIsLeast | src/utils/rate_limiter.py:33-34 | The wait is the least time after which a token is there |
| RateLimits.WakeKeepsSurplus | src/utils/rate_limiter.py:35-38 | What comes in while a sleeper oversleeps is left for the next, up to the burst |
| RateLimits.LimitsIff | src/utils/rate_limiter.py:32-38 | That is so for all runs if and only if the rate is positive and the burst at least one |
| RateLimits.RateLimiter.BucketFor | src/utils/rate_limiter.py:58-65 | Domains never share a bucket; a new one is full and has the domain's own rate |
| RateLimits.RateLimiter.SetDomainRps | src/utils/rate_limiter.py:50-52 | An override forgets that domain's bucket and touches no other |
| RobotsTxt.RobotsTxtChecker.GetParser | src/utils/robotstxt.py:64-78 | Answers only with a parser younger than the time to live, else queues or loads |
| RobotsTxt.RobotsTxtChecker.Recheck | src/utils/robotstxt.py:70-75 | Looks again under the lock, and loads only if there is still nothing fresh |
| RobotsTxt.RobotsTxtChecker.Granted | src/utils/robotstxt.py:70-75 | A queued task that gets the lock answers or loads as the recheck says |
| RobotsTxt.RobotsTxtChecker.Cancelled | src/utils/robotstxt.py:70-75 | A cancelled task leaves the queue, or frees the lock without storing anything |
| RobotsTxt.RobotsTxtChecker.Loaded | src/utils/robotstxt.py:75-77 | Stores what was loaded and frees the lock |
| RobotsTxt.StepKeeps | src/utils/robotstxt.py:58-77 | Every event keeps: one load in flight per origin, the lock held by its task, the cache newest, no early reload |
| RobotsTxt.RunKeepsRobots | src/utils/robotstxt.py:58-77 | Over every interleaving an origin never has two loads in flight and is not loaded again within the time to live of a stored load |
| RobotsTxt.CacheIsLastLoad | src/utils/robotstxt.py:64-78 | Over every interleaving the cache holds for each origin exactly the parser that was loaded last for it, and when |
| RobotsTxt.NoOvertaking | src/utils/robotstxt.py:64-78 | A caller begins to load only without a fresh parser and if nobody holds the lock or queues for it |
| Pipelines.Pipeline.Discovered | src/core/pipeline.py:110-114 | All URLs are counted, and the first ones each get a task |
| Pipelines.Pipeline.RobotsAnswered | src/core/pipeline.py:134-137 | A disallowed URL is counted and over, an allowed one goes on to the semaphore |
| Pipelines.Pipeline.AcquirePermit | src/core/pipeline.py:139-141 | A permit is taken, and only if there is one |
| Pipelines.Pipeline.PassGate | src/core/pipeline.py:127-132 | A URL passes exactly if its canonical form has not passed before, and the state is that of the model's step |
| CrawlHistory.RobotsAreAsked | src/core/pipeline.py:134-137 | Over every run that respects robots.txt no task waits for a permit, fetches or has fetched without an answer that allowed its URL; without, none is asked for |
| CrawlHistory.NothingSkippedUnasked | src/core/pipeline.py:134-137 | Where robots.txt is not respected no URL is counted as skipped for it |
| CrawlHistory.AskedOnce | src/core/pipeline.py:134-137 | No task is answered twice |
| Pipelines.Pipeline.FetchDone | src/core/pipeline.py:139-153 | The permit goes back and the result is counted once |
| Pipelines.Pipeline.TaskCrashed | src/core/pipeline.py:139-141 | A task that ends with an exception gives its permit back |
| Pipelines.StepKeepsCounts | src/core/pipeline.py:120-173 | Every step keeps the counters true and the permits complete |
| Pipelines.StepKeepsGate | src/core/pipeline.py:126-132 | Every step keeps the dedup set made of exactly the keys that passed, each by one task |
| Pipelines.ConcurrencyIsBounded | src/core/pipeline.py:139-141 | Fetches in flight never exceed the configured concurrency |
| Pipelines.EachKeyOnce | src/core/pipeline.py:126-132 | No two URLs with one canonical form ever pass the gate, whatever becomes of their tasks; only those that passed get beyond it; a URL is dropped as a duplicate only of one that passed |
| Pipelines.SummaryAddsUp | src/core/pipeline.py:24-48 | When all tasks are over the counters account for every URL taken on; the unfetchable, the unmodified and the crashed are what they do not show |
| CrawlHistory.CountersCountEvents | src/core/pipeline.py:120-173 | Over every run the counters are numbers of events: pages, failures, refusals, extractions of each grade, and tasks stopped at the dedup gate |
| CrawlHistory.TasksAreTaken | src/core/pipeline.py:110-125 | Over every run the tasks are those of the first URLs of each discovery, in order, and are over at once exactly if unfetchable; all URLs are counted |

## Left out

- Files, memory mapping, pcap reading, printing and option parsing: input and output; frames and databases are byte sequences.
- Allocation failure: every allocation is taken to succeed, so the -1 results that only report it do not occur.
- 32-bit wrap-around of table capacities, node indexes and statistics counters: they are unbounded here; the 16-bit packet counter does wrap.
- Hash quality: the indexes and the flow table take their hash functions as parameters; `Hashing` proves what the source's never confuse, but nothing of how they spread over slots; `Program` puts them in.
- NameRules.HashesAreTransparent: the absence of collisions among the labels in play is a hypothesis, because 64-bit hashes cannot exclude them; everything about label hashes themselves needs no hypothesis.
- EngineRuns.VerdictsImproveOverRuns: is about flows whose slot is not taken; an evicted conversation starts over with a new record.
- Replay.CheckRoundTrip: whether the table evicts depends on how the hashes spread and is not bounded. The names are printed in some order, each once; writing them to a hosts file and reading that back (which drops comment lines and splits at `@`) is not modelled.
- The evidence mask: three booleans stand for the three bits that are ever set. The per-flow protocol slot is only ever filled by the payload stage.
- `ngfw_quic_sni`: a stub that always fails.
- Text beyond ASCII, UTF-8 encoding and replacement: names and slugs are ASCII bytes.
- Sigc.Builder.Cidr: takes a parsed network; the parsing by Python's `ipaddress` is not part of this model.
- Sigc.Builder.App: does not model `app_sources`, which only feeds the report.
- Compiler.SerializeCorpus: takes the build time as a parameter.
- Loaders.Perform: stands for the loaders' calls on the builder; scanning vendored source trees with regular expressions and the selection of payload patterns are not modelled.
- RateLimits.LimitsIff: time and tokens are reals, not floats, and a sleep lasts at least as long as asked. Extracting the domain from a URL is left out.
- RobotsTxt.RunKeepsRobots: parsers are opaque values, the clock never goes back, and the lock's queue is served in any order.
- Pipelines.EachKeyOnce: canonicalization, fetchability and extraction are parameters; discovery order, output and the rate limiter's waiting inside the semaphore do not affect it.
- Sources, extractors, sinks, quality scores, configuration and the command line of the crawler: library behaviour and simple arithmetic.
