# ChaosVPN client: a verified model

ChaosVPN distributes one signed peer list to all nodes. A client downloads it, parses it, writes tinc configuration and
route scripts from it, and supervises `tincd` through a privileged worker. This project models that chain in Dafny and
proves what each part promises and how the parts fit together. `dafny verify dfyconfig.toml` checks everything.

Code that changes things step by step is modelled by methods on arrays, linked nodes, growable buffers and object
fields; each such method is tied to a specification function, and the properties are lemmas about those functions.

| file | models | main results |
|---|---|---|
| `Prefix.dfy`, `Subnets.dfy`, `SubnetText.dfy`, `AddrMask.dfy` | `addrmask.c`, the list building of `config.c` | masking is floor division of big-endian values; a match is inclusion of address sets; the notation and what it denotes |
| `FirstHit.dfy` | the search rule of `addrmask_match` | the exact condition on a list under which first-hit search finds every match |
| `NaturalOrder.dfy`, `CharOrder.dfy` | `strnatcmp.c` | the character loop computes a total order on token sequences; version order and feature gates |
| `ListHead.dfy` | `list.h`, list literals of `cvconf.y` | the circular list refines sequences |
| `Buffers.dfy` | `string/` | growth, append, printf and NUL termination |
| `Archive.dfy` | `ar.c`, `ar.h` | bounded cursor walk, archive round trip |
| `Keywords.dfy`, `PeerConfig.dfy`, `ParserLines.dfy` | `parser.c` | keyword dispatch, the line state machine, homomorphism at section headers |
| `Printer.dfy`, `RoundTrip.dfy`, `SortedKeys.dfy` | `build_text_config` of the backend script | printing and parsing undo each other |
| `Routes.dfy`, `RouteWriter.dfy` | `tinc_write_updown` of `tinc.c` | merging preserves routing; tinc-down undoes tinc-up |
| `UpdateCycle.dfy` | the update cycle of `main.c` | when a RESTART happens, lost updates, left-over peers |
| `Supervisor.dfy`, `WorkerTrace.dfy`, `WorkerRuns.dfy`, `WorkerPhases.dfy`, `WorkerSignals.dfy`, `WorkerLog.dfy`, `Daemon.dfy` | the worker protocol of `main.c`, `daemon.c` | safety over all interleavings |
| `Hosts.dfy` | | what is assumed of address text can be met |
| `EndToEnd.dfy` | the chain | published networks reach the route scripts |
| `Options.dfy`, `CStr.dfy` | C strings, decimal numbers | |

## What the code does differently from what one may expect

These are facts about the code that the model keeps and that a lemma states.

- `mask_shift` is an `unsigned char` assigned before the comparison with the bit count, so `a/256` is accepted and means
  `a/0`. The length read is the length written exactly when it is below 256 (`ShiftReadIsShiftWritten`,
  `OverlongLengthAccepted`). `atoi` is taken to clamp to `LONG_MAX` and truncate, as glibc does.
- `addrmask_match` gives up at the first entry that holds the query's network address if that entry is narrower than the
  query. A list is searched completely exactly when no entry hides a later one (`CompleteIffNoneHidden`).
- Between reading STOP and ignoring SIGCHLD the worker can still start a tincd. It then starts one for each restarting
  reap and never otherwise, and that tincd is stopped too (`StartsAfterStop`, `StartAfterStopHappens`,
  `NothingLeftRunning`).
- fork and storing the pid are two steps here. A SIGTERM between them ends the worker and leaves that tincd running, and
  a tincd that dies between them is never restarted (`TincdCanBeOrphaned`, `TincdCanBeMissed`). `NothingLeftRunning`
  and `IdleHasTincd` give the exact conditions.
- The last accepted data is remembered before the files are written. If writing them fails, the same data is later
  reported as unchanged and never applied (`StaleIff`, `UpdateLost`), and its peers are still in the list when the next
  config is parsed (`PeersLeftOver`).
- `my_peer` is never reset, so a config without this node is accepted once any config was (`UnlistedAccepted`).
- Before the first accepted config a RESTART can follow from the saved file alone (`RestartFromFile`).
- A network with a `#` weight cannot pass the parser, so cutting the weight off in the generator has no effect
  (`ParsedHasNoWeight`).
- `ar_extract` reports success with an empty result for a missing member, and a name field with a NUL byte counts as
  equal. For an empty name field `ar_compare_name` reads the byte before its buffer; the model compares an empty name.
- The default port of the client is 665, that of the backend script 655. A record without a port is read as 665.
- `string_ensurez` reads the byte before the content of an allocated empty buffer; it is modelled for buffers that are
  unallocated or not empty. `string_equals` distinguishes an unallocated buffer from an allocated empty one.

## Parameters

- `Host` stands for `getaddrinfo` with a numeric host and for `inet_ntop`. `Sized` says that addresses read have the size
  of their family; `Inverse`, assumed where text is read back, that printing and reading are inverse and that printed
  addresses contain no delimiter; `NoWeights` that no text with a `#` is an address. `HostExists` shows that all three can
  hold together.
- `Effect` says what a route command does to the route table; `CommandsWork` that the configured add commands add and the
  delete commands delete. Other lines of the scripts do not touch the table.
- `Mode` of `NaturalOrder` says whether case is folded and whether `char` is signed. The C locale is fixed.
- Fetching, verifying and decrypting are one step with three outcomes (`Fetch`); whether a file can be read or written and
  whether the tinc files could be generated are inputs of a round. Removing a file that could not be written succeeds.
- Processes have pids that are never used again; a signal may arrive between any two steps of the worker, also nested and
  without cause; sleeping is a place where other steps happen. Allocation succeeds and sizes do not wrap.

## Model

| member | source | states |
|---|---|---|
| Prefix.MaskCompose | addrmask.c:27-42 | masking to j bits and then to k bits is masking to the smaller of the two; in particular it is idempotent |
| Prefix.MaskWhole | addrmask.c:31-32 | a prefix at least as long as the address masks nothing |
| Prefix.MaskValue | addrmask.c:27-42 | masking n bytes to k bits clears the low 8n-k bits of their big-endian value |
| Prefix.ClearLowIsFloor | addrmask.c:34-41 | clearing the low m bits of v is floor(v / 2^m) * 2^m |
| Prefix.ValueInjective | addrmask.c:116-125 | byte strings of one length with equal big-endian values are equal |
| AddrMask.MaskAddr | addrmask.c:27-42 | the in-place loop leaves exactly the masked bytes, and the bytes behind the address as they were |
| AddrMask.AddrInfo.Parse | addrmask.c:55-183 | fills the entry with exactly the subnet the text denotes, mask bytes included, or fails on exactly the other texts |
| AddrMask.AddrInfo.SetMask | addrmask.c:127-133 | the mask bytes are all ones masked to the prefix length, also for length 0 |
| AddrMask.AddrInfo.ClearHostBits | addrmask.c:135-146 | after the sanity loop the address is the one read, masked to its prefix length |
| AddrMask.Init | addrmask.c:185-200 | a new entry for a text that parses, null for any other |
| AddrMask.AllHitIsMasked | addrmask.c:219-227 | the bytewise test with mask bytes is equality of the masked query address with the entry |
| AddrMask.EqualMasked | addrmask.c:220-226 | the loop decides the bytewise test with mask bytes |
| AddrMask.EqualBytes | addrmask.c:231-237 | the loop without mask bytes decides equality |
| AddrMask.Covers | addrmask.c:217-239 | the fast path for an all-ones mask and the masked path answer the same question: does the entry hold the query's network address |
| AddrMask.FindEntry | addrmask.c:216-250 | the walk along the next pointers returns the first entry that holds the address, or null if that one is narrower than the query |
| AddrMask.Match | addrmask.c:202-251 | null for an empty list or a text that does not parse, else the entry of the first-hit rule |
| Subnets.ParseCanonical | addrmask.c:127-146 | after a successful parse no host bit is set and the prefix length is at most the bit count |
| Subnets.ShiftReadIsShiftWritten | addrmask.c:110-111 | the prefix length stored is the one written exactly when it is below 256 |
| Subnets.OverlongLengthAccepted | addrmask.c:110-111 | length 256 is accepted and stored as 0 |
| Subnets.TextRoundTrip | addrmask.c:84-125 | the printed form of a canonical subnet, also as [addr/len] and [addr]/len, reads back as that subnet |
| SubnetText.SplitIff | addrmask.c:84-104 | the splitting finds an address and a length exactly in addr, addr/len, [addr], [addr/len] and [addr]/len |
| SubnetText.ParseDenotes | addrmask.c:55-183 | a text parses as a subnet exactly if it is written in one of these forms with an address that resolves, and the subnet is the one of that length, without host bits, that holds the address; without a length all bits count |
| SubnetText.BareAddress | addrmask.c:147-171 | a bare address, also in brackets, is the canonical subnet whose only address it is |
| SubnetText.AddressWithLength | addrmask.c:127-146 | an address with host bits and a length is the canonical subnet of that length which holds it |
| SubnetText.ValidExactly | addrmask.c:305-329 | the verification accepts exactly the non-empty texts that denote a subnet of the family |
| Hosts.HostExists | addrmask.c:64-68 | some numeric reader and printer satisfy everything the theorems assume of them |
| Subnets.HitIsMembership | addrmask.c:219-238 | masking an address gives the entry's network exactly when its big-endian value lies in the entry's range |
| Subnets.MatchIsInclusion | addrmask.c:202-251 | for canonical subnets the byte test and the length check together succeed exactly when every address of the query lies in the entry, over 32- and 128-bit integers |
| Subnets.InclusionHolds | addrmask.c:244-250 | a hit by an entry that is not narrower implies inclusion |
| Subnets.InclusionNeedsLength | addrmask.c:247-248 | inclusion implies the hit and the length check |
| Subnets.SplitAt | string/string.h:109-117 | the text around the first delimiter, none exactly when there is no delimiter |
| FirstHit.HitIndex | addrmask.c:216-242 | the first entry that holds the query's network address, the list's length if none does |
| FirstHit.MatchSound | addrmask.c:244-250 | an entry returned includes the query |
| FirstHit.HiddenIsMissed | addrmask.c:244-250 | an entry that hides a later one makes the search miss a concrete query the later one includes |
| FirstHit.MissedIsHidden | addrmask.c:244-250 | every missed query is due to an entry that hides the one including it |
| FirstHit.CompleteIffNoneHidden | addrmask.c:216-250 | the search finds a match for every query some entry includes exactly when no entry hides a later one |
| FirstHit.OrderedListsComplete | addrmask.c:216-250 | lists of disjoint entries, or with wider entries before narrower ones in them, are searched completely |
| AddrMask.LinkLast | config.c:190-196 | linking behind the previous entry appends the new subnet and changes no other entry |
| AddrMask.AppendText | config.c:184-196 | one round appends the subnet of a valid text and leaves out an invalid one |
| AddrMask.ParseRawSubnetList | config.c:162-202 | the chain holds the valid text entries in written order and nothing else; null exactly when there are none |
| AddrMask.ListedTake | config.c:177-197 | what the first k+1 entries contribute is what the first k do, followed by the last one's contribution |
| AddrMask.ListedConcat | config.c:177-197 | two settings lists behind one another stand for their subnets behind one another |
| AddrMask.ListedSingle | config.c:177-188 | a number contributes nothing, a text the subnet it stands for if there is one |
| AddrMask.ListedCanonical | config.c:162-202 | every subnet of a configured list is canonical |
| NaturalOrder.CompareRight | strnatcmp.c:65-92 | longer digit run first, then lexicographic order of the runs |
| NaturalOrder.CompareLeft | strnatcmp.c:95-114 | lexicographic order of the two digit runs |
| NaturalOrder.StrNatCmp0 | strnatcmp.c:117-166 | the character loop returns the lexicographic order of the token sequences (maximal digit runs, other characters, end mark; spaces dropped) |
| NaturalOrder.Round | strnatcmp.c:125-165 | one round of the loop decides the order or moves on to an equal comparison of the rests, even inside a digit run |
| NaturalOrder.NaturalOrderLaws | strnatcmp.c:117-166 | reflexive, antisymmetric in sign, transitive also for strict steps, and 0 exactly on equal token sequences |
| NaturalOrder.RunsTransitive | strnatcmp.c:136-146 | the mixed rule for digit runs with and without leading zeros is transitive |
| NaturalOrder.RunsNumeric | strnatcmp.c:65-92 | numbers without leading zeros compare by value, of any size |
| NaturalOrder.VersionOrder | strnatcmp.c:117-172 | dotted versions compare as their lists of integers |
| NaturalOrder.GateMonotone | tinc.c:172-190 | a feature gate passed by a version is passed by every later one |
| NaturalOrder.GatesNested | tinc.c:66-66 | above 1.1 implies above 1.0.16 implies above 1.0.12 |
| CharOrder.TokensConcat | strnatcmp.c:125-165 | the tokens of two strings that do not meet inside a digit run are the tokens of both, without the first end mark |
| CharOrder.CharactersDecide | strnatcmp.c:154-162 | where two strings first differ, the smaller character code decides, of capital letters when case is folded, unless digit runs meet there |
| CharOrder.LongerIsLater | strnatcmp.c:148-162 | a string followed by another ASCII character comes after the string itself |
| CharOrder.HighCharacter | strnatcmp.c:159-162 | a character beyond ASCII sorts below the end of a string where char is signed, else above all of ASCII |
| CharOrder.SuffixedVersionAbove | tinc.c:66-66 | a version with a suffix is above that version |
| CharOrder.PreReleaseAbove | tinc.c:66-66 | 1.1pre17 passes the gate "above 1.1" |
| CharOrder.FoldedEqual | strnatcmp.c:154-157 | with case folded, strings that differ in case only compare as equal |
| CharOrder.BlankIgnored | strnatcmp.c:128-133 | a blank that does not part two digits changes nothing |
| CharOrder.FractionsDecide | strnatcmp.c:137-141 | if one of two digit runs starts with a zero the first difference decides, a proper prefix being smaller |
| CharOrder.NumbersDecide | strnatcmp.c:142-145 | otherwise digit runs of different value compare as numbers |
| ListHead.Insert | list.h:49-57 | a node is inserted at a position of the ring |
| ListHead.Add | list.h:67-70 | prepend |
| ListHead.AddTail | list.h:81-84 | append |
| ListHead.Unlink | list.h:94-98 | the ring without the k-th node |
| ListHead.Del | list.h:106-111 | removal, the removed node's pointers cleared |
| ListHead.Replace | list.h:120-127 | a node takes another's place |
| ListHead.Move | list.h:151-155 | a node leaves one ring and becomes the first of another |
| ListHead.Splice | list.h:224-236 | the nodes of one ring come in front of those of the other |
| ListHead.SpliceInit | list.h:256-263 | the same, the source ring is empty afterwards, also for an empty source |
| ListHead.Joined | list.h:224-236 | two chains linked at both ends form one ring |
| ListHead.Empty | list.h:184-187 | true exactly for the empty ring |
| ListHead.Count | list.h:193-203 | terminates with the number of nodes |
| ListHead.DeleteAll | list.h:322-324 | a safe loop that deletes every entry visits each once in order and leaves the head empty |
| ListHead.ListLiteral | cvconf.y:71-74 | right recursion with head insertion keeps the written order |
| Buffers.StringBuf.Concatb | string/string_concatb.c:8-30 | appends; a full buffer grows by the least sufficient positive multiple of growby; fails exactly when it must grow and growby is 0 |
| Buffers.StringBuf.LeastExtra | string/string_concatb.c:15-20 | the growth loop finds the least positive multiple of growby that makes room |
| Buffers.StringBuf.Putc | string/string_putc.c:7-24 | appends one byte, growing by growby only when full |
| Buffers.StringBuf.Concat | string/string_concat.c:7-13 | appends a C string and leaves its NUL in bounds just past the content |
| Buffers.StringBuf.EnsureZ | string/string.h:56-65 | keeps the content and leaves a NUL in bounds behind it, or the content already ends in one |
| Buffers.StringBuf.Clear | string/string_clear.c:3-7 | empties the content and keeps the allocation |
| Buffers.StringBuf.Free | string/string_free.c:5-14 | unallocated and empty |
| Buffers.StringBuf.Move | string/string_move.c:11-18 | the target takes over content and allocation, the source is left unallocated |
| Buffers.StringBuf.Equals | string/string_equals.c:11-24 | equal content, and both or neither allocated |
| Buffers.StringBuf.ScanOne | string/string_concat_sprintf.c:38-86 | one round of the scanner appends exactly the piece by which the rendering of format and arguments goes on |
| Buffers.StringBuf.Sprintf | string/string_concat_sprintf.c:21-95 | appends the recursive rendering of the format, arguments left to right, and leaves a NUL just past it |
| Buffers.RenderConcat | string/string_concat_sprintf.c:38-86 | a format made of two parts renders each with the arguments it consumes, left to right |
| Buffers.RenderSingle | string/string_concat_sprintf.c:45-84 | what %s, %S, %d, %% and a literal character append |
| Buffers.PrintIntIs | string/string_putint.c:11-16 | a number is written in decimal without leading zeros, with a minus sign exactly below zero |
| Archive.ReadHeader | ar.c:110-132 | the checks on one header accept exactly the members the walk steps over or stops at, inside the buffer |
| Archive.ExtractFrom | ar.c:109-155 | the cursor loop delivers what the walk finds; position plus rest is the archive's length, the rest falls, and the negative-rest branch is dead |
| Archive.Extract | ar.c:84-156 | delivers what looking up the name in the archive gives; a missing member gives an empty result and success |
| Archive.LengthReadBack | ar.c:15-43 | a padded decimal size field is read back as its number |
| Archive.NameReadBack | ar.c:45-66 | a padded name field, with or without a slash, equals exactly its own name |
| Archive.WalkMember | ar.c:109-155 | the walk stops at a laid-out member of the name or goes on right behind it, padding included |
| Archive.ArchiveRoundTrip | ar.h:27-44 | looking a name up in any archive of well-formed members gives the body of the first member of that name, or reports none |
| Archive.CorruptTail | ar.c:109-132 | a member that is too short, lacks its end mark, has a bad length or is cut off makes the lookup fail for every name that does not stand in front of it |
| Archive.NotAnArchive | ar.c:94-105 | a buffer without the archive mark is refused |
| Archive.LengthRefused | ar.c:22-41 | a size field with a NUL byte, a negative number or junk behind the digits is refused |
| Archive.NameFieldMeans | ar.c:45-66 | a name field with a NUL byte passes for every name, any other for its text up to the first blank, less one slash |
| Keywords.OneKeyword | parser.c:208-271 | no line starts with two different keywords, in any case |
| Keywords.DispatchFinds | parser.c:13-23 | a line that starts with a keyword is dispatched to it |
| Keywords.OrderIrrelevant | parser.c:208-271 | testing the keywords in any other order dispatches every line alike |
| PeerConfig.NextToken | parser.c:294-302 | the tokens are the non-empty lines, in order |
| PeerConfig.Parser.ParseLine | parser.c:168-280 | one line changes the peer list, the open peer and the key mode as the state machine says |
| PeerConfig.Parser.ParseConfig | parser.c:282-309 | the list afterwards is the old one extended by the run of the state machine over the lines |
| PeerConfig.StepKeepsValid | parser.c:214-237 | a line keeps every stored subnet valid for the family of its list |
| PeerConfig.StoredSubnetsValid | parser.c:214-237 | after parsing any text every stored subnet is valid for the family of its list |
| PeerConfig.HeaderRestarts | parser.c:176-202 | a section header makes the run independent of the peers before it |
| PeerConfig.RunOnto | parser.c:168-280 | with a section open, earlier peers play no role |
| PeerConfig.LinesAppend | parser.c:293-302 | a line break between two texts keeps their lines apart |
| PeerConfig.ParseSections | parser.c:168-309 | parsing is a homomorphism at section headers: the peers of both texts are concatenated |
| ParserLines.GatewayHostLine | parser.c:208-209 | sets the gateway host to what follows the keyword and nothing else |
| ParserLines.OwnerLine | parser.c:210-211 | sets the owner and nothing else |
| ParserLines.CipherLine | parser.c:251-252 | sets the cipher and nothing else |
| ParserLines.CompressionLine | parser.c:253-254 | sets the compression and nothing else |
| ParserLines.DigestLine | parser.c:255-256 | sets the digest and nothing else |
| ParserLines.Ed25519Line | parser.c:259-260 | sets the Ed25519 key and nothing else |
| ParserLines.UseTcpOnlyLine | parser.c:212-213 | sets its flag for 1 or yes in any case and clears it for anything else |
| ParserLines.HiddenLine | parser.c:238-239 | the same for hidden |
| ParserLines.SilentLine | parser.c:240-241 | the same for silent |
| ParserLines.IndirectDataLine | parser.c:249-250 | the same for indirectdata |
| ParserLines.PrimaryLine | parser.c:257-258 | the same for primary |
| ParserLines.NetworkLine | parser.c:214-219 | appends a valid IPv4 subnet to the networks, changes nothing for any other text |
| ParserLines.Network6Line | parser.c:220-225 | the same for IPv6 networks |
| ParserLines.RouteNetworkLine | parser.c:226-231 | the same for IPv4 route networks |
| ParserLines.RouteNetwork6Line | parser.c:232-237 | the same for IPv6 route networks |
| ParserLines.PortLine | parser.c:242-248 | sets the port to the number cut to 16 bits, unless it is the largest unsigned long |
| ParserLines.StrtoulExamples | parser.c:243-243 | decimal, hexadecimal and octal numbers, signs, and where reading stops |
| ParserLines.BeginKeyLine | parser.c:263-268 | starts the key anew with this line and enters the key block |
| ParserLines.EndKeyLine | parser.c:269-271 | appends this line to the key and leaves the key block |
| ParserLines.PingTestLine | parser.c:261-262 | is accepted and changes nothing |
| ParserLines.UnknownLine | parser.c:272-278 | extends the key inside a key block and changes nothing elsewhere |
| ParserLines.HeaderLine | parser.c:51-79 | opens a section for a peer with its name, port 665 and every other field empty or off |
| ParserLines.OutsideSections | parser.c:203-207 | comments, and lines in front of the first header, change nothing |
| ParserLines.SpacesIgnored | parser.c:174-174 | white space around a line changes nothing |
| Printer.PrintPeer | chaosvpn-backend-encrypt-and-sign.pl:257-311 | appends exactly the section of one peer |
| Printer.PutEach | chaosvpn-backend-encrypt-and-sign.pl:286-295 | appends one line per network, in order |
| Printer.BuildTextConfig | chaosvpn-backend-encrypt-and-sign.pl:247-314 | the preamble and one section per peer in sorted order |
| Printer.FullSection | chaosvpn-backend-encrypt-and-sign.pl:262-310 | the lines of a section with everything set |
| Printer.BareSection | chaosvpn-backend-encrypt-and-sign.pl:262-310 | the lines of a hidden peer with everything else off, where 0 and the empty string are false |
| RoundTrip.LinesOfUnlines | parser.c:294-302 | written lines are read back as those lines |
| RoundTrip.PortReadBack | parser.c:242-248 | a decimal port below 65536 without leading zero is read back as its number |
| RoundTrip.FlagReadBack | string/string.h:95-107 | a printed flag is read back as its truth value |
| RoundTrip.FoldNetworks | parser.c:214-219 | the printed network lines are read back as the network list |
| RoundTrip.FoldKeyLines | parser.c:263-275 | the printed key block is read back as the key with its line breaks |
| RoundTrip.PeerAdds | parser.c:168-280 | a printed section adds exactly the expected peer, from any state of the parser |
| RoundTrip.CommentsIgnored | parser.c:296-297 | the printed comments change nothing |
| RoundTrip.PrintedConfigReadsBack | chaosvpn-backend-encrypt-and-sign.pl:247-314 | parsing what was printed gives every peer back in sorted order: keys, flags, ports, both network lists; owner dropped, hidden gateways as localhost, an absent port as the default |
| SortedKeys.KeysUnique | chaosvpn-backend-encrypt-and-sign.pl:257-257 | there is one way to list a finite set of names in order |
| SortedKeys.KeysExist | chaosvpn-backend-encrypt-and-sign.pl:257-257 | and always one |
| SortedKeys.SortedRoundTrip | chaosvpn-backend-encrypt-and-sign.pl:247-314 | for any finite set of well-formed peers, printed in the order of their names, parsing gives exactly the expected peers, each once, in that order |
| RoundTrip.PlainBodyLine | parser.c:168-280 | a line that contains no = and does not start with - is no keyword line, so it can stand inside a key block |
| Routes.ScriptRoutes | tinc.c:254-450 | the route lines are exactly those of the supernets and of the networks of peers that are neither this node nor excluded |
| Routes.ParsedHasNoWeight | tinc.c:356-359 | a network the parser accepted has no weight, so cutting one off changes nothing |
| Routes.UpCommands | tinc.c:299-317 | every route line of tinc-up carries the add command of its family, and that family has an address; supernets and networks of peers alike |
| Routes.DownCommands | tinc.c:299-317 | every route line of tinc-down carries the delete command of its family |
| Routes.ScriptsRun | tinc.c:254-450 | running the lines by what their own commands do, tinc-up adds and tinc-down removes exactly the subnets of the active lines |
| Routes.RoutingPreserved | tinc.c:328-409 | after tinc-up has run on any table, every address of a network that the lists do not drop is routed, by its own line or that of the supernet it was merged into |
| Routes.MergedCovered | tinc.c:291-326 | the supernet a network is merged into is of its family, is printed as an active line, reads back as itself, and holds all its addresses |
| Routes.ActiveLinesJustified | tinc.c:291-409 | an active line is a configured supernet or an unmerged, undropped network of a relevant peer |
| Routes.UpAndDownAgree | tinc.c:254-450 | tinc-up and tinc-down hold the same sequence of active and commented-out subnets |
| Routes.ExecuteAdds | tinc.c:254-450 | running lines whose commands add adds exactly the subnets of the active ones |
| Routes.ExecuteDeletes | tinc.c:254-450 | running lines whose commands delete removes exactly the subnets of the active ones |
| Routes.DownUndoesUp | tinc.c:254-450 | tinc-up and then tinc-down restores a route table exactly when it held none of the routes before |
| Routes.ExcludedIgnoresCase | tinc.c:21-43 | a peer is excluded by a text that equals its name but for case, never by a number |
| Routes.CutWeightIs | tinc.c:356-359 | the weight cut off is what stands behind the first # |
| Routes.InterfaceLines | tinc.c:279-289 | tinc-up configures the interface for exactly the families with a command and an address |
| Routes.SmallScripts | tinc.c:254-450 | the complete line lists of tinc-up and tinc-down for one other peer with one network |
| RouteWriter.AddrToString | addrmask.c:253-303 | appends address, slash and prefix length |
| RouteWriter.CheckIfExcluded | tinc.c:21-43 | true exactly when some text entry equals the name but for case |
| RouteWriter.Writer.MarkFor | tinc.c:361-371 | the three list searches and their order decide the mark as the specification says |
| RouteWriter.InactiveIsComment | tinc.c:365-374 | a merged, ignored or not whitelisted route is a comment up to its line end; an active one is exactly the rendered command |
| RouteWriter.Writer.WriteRoute | tinc.c:365-374 | appends the mark, the rendered command and a line break |
| RouteWriter.Writer.WriteNetworks | tinc.c:354-376 | appends the route lines of one network list |
| RouteWriter.Writer.WritePeer | tinc.c:335-408 | appends the lines of one peer: none for this node, a comment for an excluded one |
| RouteWriter.Writer.WriteSupernets | tinc.c:298-323 | appends the lines of the linked supernets in order |
| RouteWriter.Writer.WriteUpDown | tinc.c:254-428 | the buffer holds exactly the text of the script the theorems are about |
| RouteWriter.RenderLine | string/string_concat_sprintf.c:38-86 | a literal, a string and a line break render as their concatenation |
| Daemon.DaemonInfo.constructor | daemon.c:102-155 | the argument cells hold the arguments and one NULL |
| Daemon.DaemonInfo.AddParam | daemon.c:157-174 | the new argument comes last, a NULL behind it |
| Daemon.ArgvIs | daemon.c:226-226 | what execvp reads up to the first NULL are the arguments |
| Daemon.Prepare | main.c:762-772 | tincd is run in the foreground exactly in non-oneshot runs, with the user option if one is set |
| Daemon.CommandLineIs | main.c:762-772 | -D stands in the command line exactly in runs that are not oneshot, --user exactly if a user is set |
| Supervisor.StepKeeps | main.c:786-850 | the invariant of the protocol survives every step of parent, worker, tincd and signals |
| WorkerTrace.StepTraced | main.c:956-998 | every step logs in an order and number that fits the state |
| WorkerRuns.PipeHistory | main.c:150-193 | in every run the commands sent are a prefix of SIGNAL_OLD, START, RESTART*, STOP, and the worker reads them in order |
| WorkerRuns.OneTincd | daemon.c:200-263 | in every run at most one tincd started by the worker is alive |
| WorkerRuns.StartsCounted | main.c:963-984 | in every run the starts are one for START plus the restarting reaps, less one that is still to be forked |
| WorkerRuns.NoStartAfter | main.c:991-998 | no tincd is started after SIGCHLD is ignored for STOP or sigterm, after an exit with status 1 is reaped, or by a worker that is gone |
| WorkerRuns.OldKilledFirst | main.c:822-824 | while an old tincd is killed the worker has started none and has no child |
| WorkerRuns.NothingLeftRunning | main.c:817-821 | a worker that stopped, could not fork or gave up leaves no tincd; one ended by a signal leaves exactly the one whose pid was not stored yet and that has not died |
| WorkerRuns.OneshotEnds | main.c:156-193 | in a oneshot run nothing is sent after START, and the worker never goes back to its loop after it |
| WorkerRuns.IdleHasTincd | main.c:797-826 | when the worker is idle after START its tincd is alive or waits to be reaped, exactly unless it was reaped unrecognised |
| WorkerRuns.MissedOnlyInWindow | main.c:963-987 | a child is reaped unrecognised only by a handler that interrupts the daemon_start that forked it |
| WorkerRuns.RestartReplaces | main.c:813-816 | once the worker is done with a RESTART the tincd that was current at its start is dead, whatever happens between |
| WorkerLog.RestartTakesEffect | main.c:813-816 | in every run, after RESTART was read the worker neither returns to its loop nor reads on before the tincd it had is dead and some tincd was sent SIGTERM and then SIGKILL |
| WorkerPhases.OldGoneBeforeStart | main.c:279-299 | in every run an old tincd is asked to end, then killed, and only then START is read |
| WorkerPhases.StopIsFinal | main.c:817-821 | in every run the worker never returns to its loop after reading STOP, and ends as stopped only then |
| WorkerSignals.AskedBeforeForced | daemon.c:240-263 | in every run SIGKILL follows a SIGTERM to the same process, and SIGCHLD is ignored before the worker ends by STOP or a signal |
| WorkerSignals.KnownExactlyIfStored | main.c:963-987 | in every run a child is recognised when reaped exactly if its pid was stored by then |
| WorkerLog.TerminatedHasReason | main.c:804-804 | in every run the worker ends as terminated only after a signal or when its parent is gone |
| WorkerLog.TermEnds | main.c:991-998 | wherever it interrupts the worker, sigterm ends it within five steps |
| WorkerLog.ParentGoneEnds | main.c:803-804 | an idle worker whose parent is gone ends by itself |
| WorkerLog.StopEnds | main.c:817-821 | a STOP that is read ends the worker |
| WorkerLog.RestartReturns | main.c:813-816 | left alone, the worker is back in its loop after a RESTART |
| WorkerLog.DeathIsAnswered | main.c:963-984 | a tincd that dies is replaced by a new one with its pid stored; one that exits with status 1 ends the worker |
| WorkerRuns.StartsAfterStop | main.c:817-821 | after STOP was read, tincd is started exactly once for each tincd reaped for a restart since, less a pending one |
| WorkerRuns.StartAfterStopHappens | main.c:817-818 | a run with a start after STOP was read |
| WorkerRuns.TincdCanBeOrphaned | daemon.c:220-234 | a run in which a SIGTERM between fork and storing the pid leaves a tincd running |
| WorkerRuns.TincdCanBeMissed | daemon.c:220-234 | a run in which a tincd dies there and is not restarted |
| UpdateCycle.Updater.Request | main.c:225-237 | the response holds the fetched data, or the saved file's when nothing was fetched; fails exactly without either |
| UpdateCycle.Updater.ParseConfig | main.c:581-605 | the parsed peers are added to those left over; accepts exactly when this node is listed or was found before |
| UpdateCycle.Updater.FetchAndApply | main.c:209-277 | one round on the real buffers has the result and the effect of the model's round |
| UpdateCycle.RunSettled | main.c:613-631 | in every run, once a config was accepted, the saved file, if present, holds the last accepted data |
| UpdateCycle.NoSpuriousRestart | main.c:225-242 | from then on a round without a successful fetch changes nothing and causes no RESTART |
| UpdateCycle.RestartMeansNew | main.c:174-187 | from then on a RESTART follows only a successful fetch of data other than the last accepted, which is then accepted, saved if possible and applied |
| UpdateCycle.AcceptedIsSaved | main.c:613-631 | an accepted round leaves exactly its data in the file if it can be written, else no file |
| UpdateCycle.RejectedIsKept | main.c:225-248 | a round that accepts nothing changes neither the file, the data compared with, nor the tinc files |
| UpdateCycle.ResultsMean | main.c:209-277 | 0 means the last accepted data again, 1 means new data accepted and written out |
| UpdateCycle.RestartFromFile | main.c:633-651 | before that a RESTART can follow from the saved file without any fetch |
| UpdateCycle.StaleIff | main.c:250-272 | the tinc files do not show the last accepted data exactly when writing them failed in the last round that accepted its data |
| UpdateCycle.UpdateLost | main.c:239-242 | as long as no other data is fetched nothing changes and no RESTART happens, so such an update is lost |
| UpdateCycle.ParseAppends | parser.c:282-309 | parsing puts the peers of a text behind those already in the list |
| UpdateCycle.GeneratedExactly | main.c:244-274 | the files are written from the peers of the data alone exactly when none were left over |
| UpdateCycle.PeersAfter | main.c:244-274 | a round leaves no peers after success, all parsed so far after a failure, else those from before |
| UpdateCycle.PeersLeftOver | main.c:267-274 | after a failed generation the next config is written together with the peers of the failed one |
| UpdateCycle.SmoothRun | main.c:274-276 | no peers are left over if every round that got to parsing succeeded |
| UpdateCycle.UnlistedAccepted | main.c:591-602 | a fetched config that does not list this node is accepted exactly when some config was accepted before |
| UpdateCycle.SentIsHistory | main.c:144-193 | the commands of every run of the update loop are a history the worker protocol covers |
| EndToEnd.PublishedNetworksRouted | tinc.c:328-409 | after the generated tinc-up has run, every address of a network in a published record is routed, unless the record is this node, excluded, or its network dropped |
| EndToEnd.ConfiguredListComplete | config.c:162-202 | a configured list is searched completely exactly when no entry hides a later one |
| EndToEnd.PeersStayValid | main.c:244-274 | in every run the peers the tinc files are written from have valid subnets only |
| EndToEnd.GeneratedNetworksRouted | tinc.c:328-409 | so the scripts of every run route what they should |

## Left out

- OpenSSL, zlib, sockets and HTTP: one step with three outcomes stands for them.
- `getaddrinfo`, `inet_ntop`: the parameter pair `Host`.
- Real processes, time, pid reuse, `popen` and `system` children, and the order of `tinc_invoke_ifdown`.
- Liveness: that a restart happens eventually.
- Supervisor: modelled as a state machine over steps rather than in classes, because its subject is the interleaving.
- WorkerRuns.TincdCanBeMissed: only shows the possibility; that a signal arrives at that moment is up to the kernel.
- Copying and emptying directories, pid files, tun devices, logging, hexdump, Windows service code, packaging.
- The flex lexer and scalar settings of `cvconf.y`; only the order of list literals is modelled.
- `tinc_write_config`, `tinc_write_hosts`, `tinc_generate_peer_config`: only their version gates are modelled, the rest is text assembly.
- `tinc_write_subnetupdown`: the dynamic-route shell text.
- `parse_config` of the backend script: only the shape of its peers is used.
- malloc and realloc failure, and wrap-around of sizes.
- Buffers.StringBuf.Sprintf: covers literals, %s, %S, %d and %%; other conversions go to vsnprintf.
- Buffers.StringBuf.EnsureZ: not for an allocated empty buffer, where the code reads the byte before the content.
- ListHead.Move: between two lists; moving within one list is a removal and an insertion.
- PeerConfig.Parser.ParseLine: keeps the peers as values in a sequence; the ring they are linked in is modelled in `ListHead`, and the warnings about unknown lines are not.
- RouteWriter.Writer.WriteUpDown: ends before the buffer is written to a file.
- The obsolete `chaosvpn-client.pl` and the contributed scripts.
