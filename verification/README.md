# Verification of the Trustee attestation stack

Trustee lets a confidential workload prove what it runs and hands out secrets in return. A key broker (KBS) runs the
Request-Challenge-Attestation-Response handshake, an attestation service (AS) verifies the evidence and issues a
token, and a reference value provider (RVPS) stores the values that evidence is compared with. This project models
the parts of that stack with the most state, branching and arithmetic, and proves what they are for:

- **CC event log** (`Tcg`, `EventLog`, `EventLogCodec`, `Replay`, `BootServices`). The length-driven parser as the
  code runs it, related to an independent encoder: a log is returned if and only if its encoding stands in the
  input. Replay through the per-register index equals a fold over the log. Two parsed logs that pass the same
  references hold the same digests of each referenced register, or give an explicit hash collision or a preimage of
  the all-zero start value; where the entries match their digests, the same holds of the events.
- **SPDM measurements** (`OpaqueData`, `Spdm`, `SpdmReport`). Through all layers, with their blocks and items, exactly the
  encodings of well-formed responses decode, and to what they encode; the signed region is the request and everything of the response before the signature, and
  nothing that is reported lies outside it. A report is accepted if and only if it is such an encoding, signed, for the
  expected nonce and with a firmware id that the certificate chain vouches for.
- **Claims and tokens** (`Flatten`, `Ear`, `Evidence`, `AttestationService`, `TeeKey`, `KeyPath`). Flattening loses
  nothing exactly when no object has two fields that clash; EAR submodules are one per claim exactly when no number
  wraps and no class names clash; and from the attestation message to the broker's search of the token, the key that
  is found is the attester's own.
- **Key broker sessions** (`Kbs`, `KbsBackend`, `KbsSafety`, `KbsRuns`, `KbsCounters`, `KbsCalls`, `KbsPurge`,
  `KbsHistory`, `KbsMetrics`, `KbsKeys`). Every interleaving of authentication, the two sections of attestation, the purger, the clock and
  plugin calls, as a step machine with the history of every id. Invariants over all reachable states, a simulation
  that hides the purger, every request and every metric read off the schedule, and the whole way from a session's evidence to the key that
  seals a reply.
- **Reference values** (`Rvps`). A list in a file and a key-value store refine one map over every sequence of
  registrations, also ones that fail part way.

`Bytes` holds little-endian integers and the result types, `Text` decimal and hexadecimal text, `Json` JSON values.
Code that mutates (the parsers, the replay, flattening, the store, the broker's handlers) is imperative Dafny proved
against specification functions; the properties are lemmas about those functions. Slices out of bounds, `unwrap` on
a missing value, the wrong session accessor and checked overflow end in an `Abort` outcome. Integer overflow panics
or wraps depending on the build, so results that depend on it take an `OverflowMode`. Hashes, signatures, verifiers,
the policy engine and other library code are function parameters about which nothing is assumed but, for hashes
where stated, the output length.

Three promises turn out to hold only under a condition, which is stated exactly: an event log entry for register 0
with type EV_PREBOOT_CERT reads as a stop flag (`EventLogCodec.RoundTripIff`, `EventLogCodec.PrebootCertIsLost`);
dotted claim keys can collide when flattened (`Flatten.OneEntryPerLeafIff`, `Flatten.DottedKeyCollides`) or be split
wrongly (`Flatten.RebuildsIff`); EAR
submodule names can repeat when one class name is another one with digits appended (`Ear.DistinctNamesIff`,
`Ear.ElevenCpusClash`). A commit that finds its session already attested panics (`KbsRuns.PanicIffRaced`).

The comment on the configured key paths in kbs/src/token/mod.rs names two built-in paths; the code has five, tried
in the order modelled here.

Check the project with `dafny verify dfyconfig.toml`.

## Model

| member | source | states |
|---|---|---|
| Tcg.AlgorithmCodes | deps/eventlog/src/ccel/tcg_enum.rs:39-69 | reading an algorithm code and writing it are inverse: a code reads as an algorithm if and only if it is that algorithm's code, and codes fit 16 bits |
| Tcg.EventTypeCodes | deps/eventlog/src/ccel/tcg_enum.rs:184-228 | the same for event types, whose codes never are the all-ones half of a stop flag |
| EventLog.ParseDigestSizes | deps/eventlog/src/lib.rs:308-334 | the loop over the algorithm table refines the table specification, with its errors and panics |
| EventLog.ParseInitialEntry | deps/eventlog/src/lib.rs:210-246 | the first record gives the size table and the offset of the second, or the error of the first check that fails |
| EventLog.ParseDigests | deps/eventlog/src/lib.rs:336-369 | the digest loop reads the declared number of digests, each cut by the table |
| EventLog.CompareDigests | deps/eventlog/src/ccel/mod.rs:36-55 | the early-returning loop decides as its specification does |
| EventLog.ParseEventlogEntry | deps/eventlog/src/lib.rs:248-306 | one record: stop flag, cut, event body and digest comparison in order |
| EventLog.EntrySpec | deps/eventlog/src/lib.rs:248-306 | every record that is read advances the index by at least 16 bytes and stays in the input; a stop flag gives no record |
| EventLog.TryFrom | deps/eventlog/src/lib.rs:186-204 | the whole parsing loop, which terminates, refines the log specification |
| EventLogCodec.DigestsIff | deps/eventlog/src/lib.rs:336-369 | a digest list is read if and only if its encoding stands there and every digest has the table's size |
| EventLogCodec.FromLEConcat | deps/eventlog/src/lib.rs:271-275 | integers are read with the lowest byte first |
| EventLogCodec.CutIff | deps/eventlog/src/lib.rs:262-290 | a record is cut out if and only if it is well formed and its encoding stands there |
| EventLogCodec.StopFlagBytes | deps/eventlog/src/lib.rs:253-259 | a stop flag is eight bytes that are all ones or all zero |
| EventLogCodec.StopFlagIff | deps/eventlog/src/lib.rs:251-260 | the bytes of a well-formed record show a stop flag if and only if it is an EV_PREBOOT_CERT of register 0 |
| EventLogCodec.ReportsIff | deps/eventlog/src/lib.rs:287-305 | an entry is its record, the event parsed by its type, and a flag that says yes if all digests match and no if the first that does not could be computed |
| EventLogCodec.EntryIff | deps/eventlog/src/lib.rs:248-306 | an entry is reported if and only if its record's encoding stands there, its event parses and compares, and it does not read as a stop flag |
| EventLogCodec.EntriesIff | deps/eventlog/src/lib.rs:186-204 | the entries are exactly those whose encodings follow each other up to the end or a stop flag |
| EventLogCodec.HeaderDecode | deps/eventlog/src/lib.rs:210-246 | every well-formed first record is read back: its table and its length |
| EventLogCodec.HeaderSound | deps/eventlog/src/lib.rs:210-246 | whatever first record is accepted is the encoding of a well-formed one of at least 32 bytes |
| EventLogCodec.RoundTrip | deps/eventlog/src/lib.rs:186-369 | decoding the encoding of a well-formed log, with or without a stop flag and arbitrary padding after it, returns its entries in order |
| EventLogCodec.RoundTripIff | deps/eventlog/src/lib.rs:186-369 | in general the entries before the first one that reads as a stop flag come back; all of them if and only if there is none |
| EventLogCodec.PrebootCertIsLost | deps/eventlog/src/lib.rs:251-260 | a concrete entry after which a whole log is lost |
| EventLogCodec.ParsedRecordsTile | deps/eventlog/src/lib.rs:186-306 | header and records of a parsed log tile the input without gap or overlap up to its end or a stop flag, so there are at most (length - 32) / 16 entries |
| Replay.CollectDigestsByIndex | deps/eventlog/src/lib.rs:134-145 | the mutable index holds for each register that occurs exactly that register's digests in log order |
| Replay.ReplayIndex | deps/eventlog/src/lib.rs:147-181 | replaying through any such index equals extending the zero register over the log filtered by register and algorithm |
| Replay.RegisterDigestsSplit | deps/eventlog/src/lib.rs:134-145 | the digests of a register are those of its entries one after the other |
| Replay.OfAlgorithmConcat | deps/eventlog/src/lib.rs:154-158 | the digests of an algorithm are those among them, in their order |
| Replay.RegisterValues | deps/eventlog/src/lib.rs:147-181 | a register starts with 32, 48 or 64 zero bytes by its algorithm, each digest of that algorithm is hashed behind the value before it, and the last value is the replayed one |
| Replay.RegisterOthers | deps/eventlog/src/lib.rs:147-174 | RSA and TDES have no registers; SHA-1 registers are 20 zero bytes until something is extended into them, then an error |
| Replay.ReplayAndMatch | deps/eventlog/src/lib.rs:116-131 | the loop over the references returns the verdict on the log |
| Replay.VerdictIff | deps/eventlog/src/lib.rs:116-131 | the log passes if and only if it reproduces every reference value |
| Replay.VerdictFirst | deps/eventlog/src/lib.rs:116-131 | otherwise the first reference that is not reproduced decides which error it is |
| Replay.ReorderingKeepsVerdict | deps/eventlog/src/lib.rs:116-162 | any reordering that keeps the order within each register leaves every verdict unchanged |
| Replay.FindBreak | deps/eventlog/src/lib.rs:147-181 | from two different digest sequences that extend to one value it computes a collision of the hash or a preimage of zeros |
| Replay.RegisterExtendsByEvents | deps/eventlog/src/lib.rs:134-181 | a register whose entries match their digests is extended by the hashes of its events |
| Replay.TamperEvidence | deps/eventlog/src/lib.rs:116-181 | two logs with the same register value and different events of that register give such a break |
| Replay.ParsedLogsTamperEvidence | deps/eventlog/src/lib.rs:116-306 | from two raw inputs that parse and pass the same references: if the digests of a referenced register and algorithm differ, a collision or a preimage of zeros can be computed, whether or not the entries match their digests |
| Replay.ParsedEventsTamperEvidence | deps/eventlog/src/lib.rs:116-306 | its corollary on events: the same if the events of the register differ, where every entry of it was found to match its one digest of the algorithm |
| EventLogCodec.CompareDigestsIff | deps/eventlog/src/ccel/mod.rs:36-55 | the comparison says yes if and only if every digest is the hash of the event |
| EventLogCodec.CompareDigestsFirst | deps/eventlog/src/ccel/mod.rs:36-55 | otherwise the first digest that does not match decides between no and an error |
| Replay.ParsedAreCompared | deps/eventlog/src/lib.rs:283-305 | the match flag of every parsed entry is the comparison of its digests with its event |
| BootServices.NodesDecode | deps/eventlog/src/ccel/boot_services_app.rs:63-86 | for every non-empty list of device path nodes the recursion terminates with one printed path per node in order |
| BootServices.NodesSound | deps/eventlog/src/ccel/boot_services_app.rs:63-86 | whatever the recursion accepts is such a list |
| BootServices.ParseIff | deps/eventlog/src/ccel/boot_services_app.rs:25-59 | an event yields paths if and only if its device path is a non-empty list of those nodes; the end node is counted in the declared length but never looked at, so it may hold anything or be missing |
| OpaqueData.TypeCodes | deps/verifier/src/nvidia/spdm_response.rs:473-504 | reading and writing an opaque data type code are inverse |
| OpaqueData.KeysDistinct | deps/verifier/src/nvidia/spdm_response.rs:507-541 | different types have different claim keys |
| OpaqueData.DecodeMeasurementCount | deps/verifier/src/nvidia/spdm_response.rs:302-318 | the counting loop refines its specification, with the 8-bit counter's panic or wrap |
| OpaqueData.CountsIff | deps/verifier/src/nvidia/spdm_response.rs:302-318 | the counts are returned unless the counter panics at the 255th; every count stands under its own number if and only if there are at most 254 of them, or 255 where the counter wraps, and none is lost there up to 256 |
| OpaqueData.CountsMapMeans | deps/verifier/src/nvidia/spdm_response.rs:302-318 | for any number of counts, exactly the last 256 stand each under its number in eight bits |
| OpaqueData.Decode | deps/verifier/src/nvidia/spdm_response.rs:187-263 | the item loop refines its specification, with errors and panics |
| OpaqueData.DecodeIff | deps/verifier/src/nvidia/spdm_response.rs:187-263 | claims are returned if and only if the data is a list of items of pairwise distinct known types that fit, decode and include both versions, followed by at most an item header |
| OpaqueData.ItemValueMeans | deps/verifier/src/nvidia/spdm_response.rs:219-241 | an item decodes exactly when its data may be of its type, and then to what they mean by positions: the hexadecimal digits of the bytes, the reversed VBIOS version, one text per eight bytes, the counts, or text without the NULs at its end |
| OpaqueData.ClaimsMean | deps/verifier/src/nvidia/spdm_response.rs:187-263 | the claims hold under each item's own key what its data mean, and nothing else |
| OpaqueData.DecodeEncoded | deps/verifier/src/nvidia/spdm_response.rs:187-263 | decoding an encoded list gives the claims of its items, except that a last item without data is not read |
| Spdm.DecodeRecord | deps/verifier/src/nvidia/spdm_response.rs:374-416 | the block loop refines the record specification |
| Spdm.BlocksDecode | deps/verifier/src/nvidia/spdm_response.rs:340-416 | decoding a record inverts encoding and ignores what follows the last block |
| Spdm.BlocksSound | deps/verifier/src/nvidia/spdm_response.rs:340-416 | whatever record decodes is such an encoding |
| Spdm.DecodeResponse | deps/verifier/src/nvidia/spdm_response.rs:93-162 | the offset arithmetic of the response decoder refines its specification |
| Spdm.MessageDecode | deps/verifier/src/nvidia/spdm_response.rs:93-162 | for every encodable response with its blocks and items, followed by a signature and anything else, decoding gives its blocks and claims and consumes 42 + L1 + L2 bytes and the signature |
| Spdm.MessageSound | deps/verifier/src/nvidia/spdm_response.rs:93-162 | whatever response decodes is the encoding of such a response, with the blocks and items that its result stands for |
| Spdm.SignedRegion | deps/verifier/src/nvidia/report.rs:34-68 | the signed bytes are the request and everything of the response before the signature, and the signature stands right after them |
| Spdm.SignedDataDetermines | deps/verifier/src/nvidia/report.rs:34-101 | another input with the same signed bytes decodes to the same report up to the signature |
| Spdm.AcceptedReportIsSigned | deps/verifier/src/nvidia/report.rs:34-130 | an accepted report had its whole signed region checked against its signature and carries the expected nonce in the signed request |
| SpdmReport.AcceptedIff | deps/verifier/src/nvidia/report.rs:34-130 | a report is accepted if and only if it is the encoding of a request and a response in all layers, signed up to the signature, for the expected nonce, with a firmware id whose digits the chain vouches for |
| Rvps.SetRefines | rvps/src/storage/local_json/mod.rs:61-76 | a write under the value's own name keeps names distinct and updates the map, in both backends |
| Rvps.JsonSetDistinctIff | rvps/src/storage/local_json/mod.rs:61-76 | a write to the list keeps its names distinct if and only if the value's name is the key or not in the list |
| Rvps.Service.Set | rvps/src/storage/local_json/mod.rs:61-76 | the replace-or-append loop, and the insert of the database, with input or output failing before or after |
| Rvps.Service.VerifyAndExtract | rvps/src/lib.rs:69-90 | a registration writes its values in order up to the first failure |
| Rvps.EffectOfIs | rvps/src/lib.rs:69-90 | which writes take effect: none for another version or provenance that does not verify, else all up to the first that fails, and that one too if it failed afterwards |
| Rvps.SeenIff | rvps/src/storage/local_fs/mod.rs:82-90 | a read sees the whole store if and only if nothing of it fails |
| Rvps.Service.GetValues | rvps/src/storage/local_fs/mod.rs:82-90 | every value that can be read once, in either backend; an unreadable file or an entry that does not parse is an error, an entry the database fails on is passed over |
| Rvps.Service.GetDigests | rvps/src/lib.rs:92-105 | of what the read sees, exactly the values that expire no earlier than now, by name; or its error |
| Rvps.RunRefines | rvps/src/lib.rs:69-90 | over every sequence of registrations each backend holds the last effective write of each name |
| Rvps.BackendsAgree | rvps/src/lib.rs:69-105 | both backends hold the same values, and what they hand out is for each name the last value written under it, if that expires no earlier than now, and no other name |
| Rvps.SameDigests | rvps/src/lib.rs:92-105 | so reads in which nothing fails give the same digests in both |
| Flatten.FlattenHelper | attestation-service/src/token/simple.rs:403-427 | the recursion adds to the parent exactly one value per dotted leaf key, and keeps the rest |
| Flatten.FlattenClaims | attestation-service/src/token/simple.rs:371-400 | an object is flattened with its two reserved fields; anything else is an error |
| Flatten.FlatKeys | attestation-service/src/token/simple.rs:371-427 | the keys are those of the leaves and the two reserved ones, and these never coincide |
| Flatten.JoinsApartIff | attestation-service/src/token/simple.rs:403-427 | no two leaf paths join to one key if and only if no object, at any depth, has fields `k` and `k.rest` and leaves below them that go on alike |
| Flatten.OneEntryPerLeafIff | attestation-service/src/token/simple.rs:371-427 | there is one entry per leaf if and only if no object of the claims has two fields that clash so |
| Flatten.DottedKeyCollides | attestation-service/src/token/simple.rs:420-424 | a dotted key beside a nested one loses an entry, however the object is visited |
| Flatten.SplitOfSuffix | attestation-service/src/token/simple.rs:420-424 | splitting at dots inverts joining when no segment holds a dot |
| Flatten.RebuildsIff | attestation-service/src/token/simple.rs:371-427 | splitting the flat keys rebuilds the claims with empty objects pruned if and only if no leaf lies under a key that holds a dot |
| Flatten.FlattenLosesNothing | attestation-service/src/token/simple.rs:371-427 | without dots in keys there is one entry per leaf and the claims are rebuilt |
| Flatten.FlattenAll | attestation-service/src/token/simple.rs:216-219 | the claims of all TEEs flattened and merged in order |
| Flatten.MergeKeys | attestation-service/src/token/simple.rs:216-219 | the merged map has the keys of all maps |
| Flatten.LastWriterWins | attestation-service/src/token/simple.rs:216-219 | the last claims that have a key give its value |
| Flatten.ReservedComeFromLast | attestation-service/src/token/simple.rs:216-219 | the reserved fields of the merged map are those of the last TEE |
| Evidence.CollectEvidence | kbs/src/attestation/backend.rs:310-354 | nonce check, primary evidence, then each piece of additional evidence once, in some order |
| Evidence.EvidenceBound | kbs/src/attestation/backend.rs:316-354 | in whatever order, the first piece carries the session's TEE and all of them the nonce and one public key |
| Evidence.EvidencePieces | kbs/src/attestation/backend.rs:316-354 | every piece in full: the primary evidence and init data as sent, bound to nonce, key and additional text; each device's evidence bound to nonce and key alone |
| Ear.TransformClaims | attestation-service/src/token/ear_broker.rs:429-472 | the moves between the two maps refine the rearranged claim map; a reserved field that is not a string panics |
| Ear.TransformLosesNothing | attestation-service/src/token/ear_broker.rs:429-472 | the verifier's claims can be read back from the rearranged map |
| Ear.DataShownIff | attestation-service/src/token/ear_broker.rs:445-466 | runtime and init data are shown if and only if the verifier vouched for them |
| Ear.TransformedIff | attestation-service/src/token/ear_broker.rs:429-472 | the exact claim map, key by key, and that it exists if and only if the moved fields are strings |
| Ear.SubmodMeans | attestation-service/src/token/ear_broker.rs:237-300 | every submodule is the last claim of its name, rearranged, and with the verdict that the policy of its class gave on that very claim map |
| Ear.Issue | attestation-service/src/token/ear_broker.rs:217-301 | the issuing loop with its 8-bit counters per class refines naming each claim by its class and its number within the class |
| Ear.IssuedIff | attestation-service/src/token/ear_broker.rs:234-301 | submodules are issued if and only if every claim is appraised and no number overflows; each holds the appraisal of the last claim of its name; there is one per claim if and only if names are distinct |
| Ear.DistinctNamesIff | attestation-service/src/token/ear_broker.rs:288-300 | names are distinct if and only if no class has more than 256 claims and no class name is another one with digits which, followed by a zero, are a number that the other one reaches |
| Ear.OneSubmodPerClaimIff | attestation-service/src/token/ear_broker.rs:234-301 | an issued token has one submodule per claim exactly under that condition |
| Ear.NoDigitNoClash | attestation-service/src/token/ear_broker.rs:288-300 | class names that do not end in a digit never clash |
| Ear.ElevenCpusClash | attestation-service/src/token/ear_broker.rs:288-300 | eleven claims of class `cpu` and one of class `cpu1`, which the issuing loop accepts, share a name |
| AttestationService.EvaluateRequest | attestation-service/src/lib.rs:193-234 | one request: its verifier, its runtime and init data, and a labelled claim for each result |
| AttestationService.Evaluate | attestation-service/src/lib.rs:179-248 | the accumulating loop over the requests and the token that follows |
| AttestationService.Verify | kbs/src/attestation/coco/builtin.rs:31-58 | every piece of evidence becomes a request with structured runtime data; init data must be TOML |
| AttestationService.ClaimsCarry | attestation-service/src/lib.rs:193-234 | every claim carries the nonce and key of the evidence and the TEE of some piece of it |
| AttestationService.EvaluatedChecks | attestation-service/src/lib.rs:193-234 | whatever is accepted was checked piece by piece: the piece's verifier was given its evidence and the digests of its own runtime and init data, and each claim is one of its answers with its class and those data |
| AttestationService.VerifyIff | kbs/src/attestation/coco/builtin.rs:31-58 | a token is issued if and only if there is evidence, every piece was so checked, reference values were there and the claims of all pieces in order were issued |
| TeeKey.PointerFollowsPath | kbs/src/token/mod.rs:97-106 | the JSON pointer text of a path, with RFC 6901 escapes, leads where the path leads, whatever the keys contain; a text that is neither empty nor starts with a slash leads nowhere |
| TeeKey.ExtractTeePublicKey | kbs/src/token/mod.rs:75-106 | configured paths, then the five built-in ones; the first that leads anywhere decides |
| TeeKey.IndexIff | kbs/src/token/mod.rs:97-106 | a path segment is an array index if and only if it is the decimal text of that index |
| TeeKey.BuiltInSearch | kbs/src/token/mod.rs:15-20 | what is found when no configured path leads anywhere: the first of five places, each named by its fields |
| TeeKey.EarPathDecides | kbs/src/token/mod.rs:15-20 | when no path before it leads anywhere the EAR path decides if it leads anywhere, and else the bare key |
| KeyPath.Cpu0IsFirst | attestation-service/src/token/ear_broker.rs:288-300 | unless numbers wrap, submodule `cpu0` is the first claim of class `cpu` |
| KeyPath.AttesterKeyEndToEnd | kbs/src/token/mod.rs:97-106 | from the attestation message to the extracted key: every piece of evidence was checked against the digest of runtime data with the attester's key; when no earlier path leads anywhere the extracted key is that key exactly when the `cpu0` claim reports its data, and else the token's bare key, if it has one, in whatever order additional evidence is visited |
| KbsBackend.Backend.constructor | kbs/src/attestation/session.rs:106-111 | a new object represents the start of a run |
| KbsBackend.Backend.AuthBegin | kbs/src/attestation/backend.rs:208-209 | counting the request is the machine's first authentication step |
| KbsBackend.Backend.AuthFinish | kbs/src/attestation/backend.rs:211-244 | opening a session, or counting the error, is its second |
| KbsBackend.Backend.Arrive | kbs/src/attestation/backend.rs:257-268 | cookie and message checks with their metrics are the machine's arrival step |
| KbsBackend.Backend.ReadSection | kbs/src/attestation/backend.rs:269-354 | the read section and the evidence after it are the machine's read step |
| KbsBackend.Backend.CommitStart | kbs/src/attestation/backend.rs:356-369 | taking the entry, an error when the session is gone and a panic when it is attested already: the machine's commit step |
| KbsBackend.Backend.CommitFinish | kbs/src/attestation/backend.rs:371-393 | the token recorded or the failure counted, and the entry released, as in the machine |
| KbsBackend.Backend.Purge | kbs/src/attestation/backend.rs:171-182 | a pass drops the expired entries that nobody holds, returns the held ones to wait for, and is a run of the machine's purge steps |
| KbsBackend.PurgedForGood | kbs/src/attestation/backend.rs:171-182 | at any point of any run, an expired entry that the purger comes to with nobody holding it is gone for good |
| KbsBackend.Backend.SessionTokenOf | kbs/src/attestation/backend.rs:401-429 | a token if and only if the session is there, unexpired and attested, and then its own |
| KbsBackend.Backend.FindToken | kbs/src/api_server.rs:50-67 | the session's token, else the bearer token: the machine's lookup step |
| KbsBackend.Backend.PolicyStart | kbs/src/api_server.rs:289 | counting an evaluation is the machine's step |
| KbsBackend.Backend.PolicyFinish | kbs/src/api_server.rs:291-300 | its verdict and metrics are the machine's next one |
| KbsSafety.Reachable | kbs/src/attestation/backend.rs:208-429 | the invariant of every reachable state: sessions as opened, held entries unattested with one holder, evidence bound to its session, tokens recorded from their own verify call, each id attested at most once |
| KbsRuns.SessionLifeCycle | kbs/src/attestation/session.rs:51-99 | from any point of any run to any later one: at most one attestation, id and timeout stay, the token stays once set, a session that is gone does not return |
| KbsRuns.TokenProvenance | kbs/src/attestation/backend.rs:269-393 | a stored token was returned by a verify call on evidence read for that session: its TEE first, its nonce and one key throughout, in this order of events |
| KbsHistory.OpeningHistory | kbs/src/attestation/session.rs:51-62 | every session was opened by the end of an authentication in flight, for the configured time from then |
| KbsHistory.AttestHistory | kbs/src/attestation/backend.rs:252-399 | over every run, the steps that brought an attestation to its stage, and what the read and commit sections found for every way it can end |
| KbsHistory.TokenHistory | kbs/src/attestation/backend.rs:252-399 | a session's token comes from a message with its nonce, read before its timeout while it was not attested, committed while it still was not, and from the verify call on that message's evidence |
| KbsRuns.PanicIffRaced | kbs/src/attestation/backend.rs:356-369 | a commit section that starts panics if and only if another request attested the session after this one read it, and then nothing else changes |
| KbsRuns.SecondCommitPanics | kbs/src/attestation/session.rs:40-48 | of two requests ready for one session the second to commit panics, and the first one's token stays |
| KbsRuns.RaceHappens | kbs/src/attestation/session.rs:40-48 | such a run exists |
| KbsCounters.CountersConserve | kbs/src/attestation/backend.rs:208-399 | over every run: authentication, attestation and policy metrics account for every request, the uncounted ones being those in flight and those that ended with an old token, an expired session, a wrong nonce or a panic |
| KbsMetrics.MetricsCount | kbs/src/attestation/backend.rs:208-399 | over every run each of the eleven metrics is the number of steps of its own kind, each kind said in terms of the step and the state it is taken in |
| KbsMetrics.ClockRuns | kbs/src/attestation/session.rs:82-84 | the clock shows the time passed since the start |
| KbsCalls.PluginCallProvenance | kbs/src/api_server.rs:256-321 | a plugin called outside the admin path was called after its token was found, verified and approved for that endpoint; a session's token came from a verify call in that session and was looked up before its timeout; an encrypted reply uses the key of those claims |
| KbsHistory.CallHistory | kbs/src/api_server.rs:273-318 | over every run, the steps of the schedule that brought a call to its stage: which token was found and why, its check, the question to the policy and its verdict, the plugin's answer and when it is encrypted, and why a call was refused |
| KbsHistory.InvokedWasApproved | kbs/src/api_server.rs:287-306 | every plugin invocation follows an approving verdict in the schedule, taken while the policy decided on that call, endpoint and claims |
| KbsHistory.DeniedIsNeverInvoked | kbs/src/api_server.rs:291-300 | after a verdict that denies or fails no continuation calls the plugin for that call |
| KbsPurge.PurgeUnobservable | kbs/src/attestation/backend.rs:401-429 | every schedule and the same schedule without its purge steps give the same successful token lookups and the same calls that have a session token |
| KbsKeys.SealedToAttester | kbs/src/api_server.rs:303-317 | over every run with the built-in service and its EAR tokens, each verify call with its own policies, reference values and token fields, a reply encrypted for a session token is encrypted to the key of the attester whose evidence was verified in that session exactly when that call's `cpu0` claim reports its data, else to the token's bare key |

## Left out

- Hash functions, signatures, JWE, X.509 chains, canonical JSON, TOML, base64 and Rego are function parameters.
- Per-event string parsers of the event log and the device path printers are one abstract parse that succeeds or fails.
- The serialisation of EAR tokens is abstract: the annotated evidence of a submodule stands under its name; how the trust vector is filled from the policy's rules is part of the abstract policy verdict.
- The policy loop of the simple token broker and the fields of the token header: a loop over independent calls and constants.
- usize is taken as 64 bits wide; offsets and lengths of inputs are not bounded by it.
- HTTP, gRPC and REST servers and clients, configuration loading, the admin path of plugin calls, and the metrics' TEE labels.
- Serialisation of tokens, TEE names and attestation messages to JSON text is taken to succeed.
- File system and sled internals; the RVPS backends are a list and a map whose input and output may fail.
- The version check and message parsing of RVPS registrations are folded into a registration that may fail before writing.
- Session ids are taken to be fresh and the clock never to go backwards; a step that is not enabled changes nothing, so no liveness is stated.
- KbsKeys.SealedToAttester: takes the results of verify calls and token checks in the run to be those of the modelled service, no path before the EAR path to lead anywhere in the token, and TEE variant names to differ from the four keys of moved claims.
- KeyPath.AttesterKeyEndToEnd: takes no path before the EAR path to lead anywhere in the token, and TEE variant names to differ from the four keys of moved claims.
- Fixed-offset layouts of SGX, TDX and SNP evidence, certificate fetching, PKCS#11, Nebula and in-toto.
