# Protocol Buffers codec of the Bitway messages

The `*.pulsar.go` files of Bitway give every message a `size` function, a `marshal` that fills an
exactly sized buffer from its end, and an `unmarshal` loop that parses a buffer forwards. This project
models that codec and proves what it is for.

- `Varints`, `Records`: base-128 varints, tags, length prefixes, `runtime.Skip`, and `Cut`, which takes
  the next record off a byte string.
- `Schemas`, `Codec`: messages described by schemas, `Encode`, `Decode`, well-formed messages.
- `Streams`: concatenation, prefixes, one independent fold per field, field order.
- `RoundTrips`, `Prefixes`, `Normalisation`, `Evolution`, `NestedEvolution`, `Discarding`, `Bounds`,
  `Aliases`, `Reflection`: the main results.
- `Buffers`: the writes into an array and the reads with wrapping 64-bit indices that the generated code
  is made of. `Template`: the code all messages share, reading the schema. `DlcEvents`,
  `DlcAttestations`, `DlcParams`, `DlcGenesis`, `DlcViews`: message objects with their own fields.
- `DlcSchemas`, `BridgeSchemas`: the messages of the two packages. `WireForms`, `DlcWire`, `BridgeWire`:
  the same in bytes, message by message and field by field: tag constants, Go types, sizes of unknown
  fields, errors.

`dafny verify dfyconfig.toml` checks the whole project.

## Assumptions

- `runtime.Sov`, `runtime.EncodeVarint` and `runtime.Skip` are not part of the repository. They follow
  the Protocol Buffers Encoding guide, sections "Base 128 Varints" and "Message Structure"; `Skip` passes
  groups as a whole and, outside groups, may return a length beyond the buffer, which the caller tests.
- Timestamp, Duration and Coin, and in the bridge genesis the UTXO, DKG, signing and withdrawal records,
  have codecs outside this model. A value of such a type stands for its canonical encoding, and the
  option `ext` decodes payloads; like every other decoder it is told whether to discard unknown fields.
  Two laws are asked of it: what it decodes, decodes again to itself (`LawfulExt`), and, for
  `ForgetDecode` only, discarding while decoding is decoding and then stripping (`LawfulStrip`, which is
  what `ForgetDecode` proves of described messages). Encoding such a value does not fail.
- Whether a second occurrence of a singular sub-message merges into the first or replaces it depends on
  library options; `merge` is a parameter, and the results hold for both.
- Strings are byte strings: the code checks no encoding. A Go `int` has 64 bits and wraps; slices are
  shorter than 2^63 bytes. Lists hold no nil elements, and nil and empty lists are one value.

## What turned out otherwise

- Concatenation of errors. When a first buffer is accepted, the second is accepted behind it exactly when
  it is accepted on its own, with the same message. The error *value* can differ: a length prefix whose
  end fits below 2^63 on its own may wrap behind the first buffer, which turns `ErrUnexpectedEOF` into
  `ErrInvalidLength`. `ConcatenationErrors` says exactly which second buffers do that (`Carried`, for
  messages without sub-messages a condition on the framing of the bytes alone: `CarriedFlat`), and
  `SeamChangesError` gives one.
- Discarding unknown fields is visible in the known fields of a message that has sub-messages, since
  their unknown bytes are part of them. `DiscardInvisible` says exactly which messages are free of that,
  foreign parts included, and `DiscardReachesTimestamps` gives an event whose publication time differs.
- Schema evolution below the top level. An older reader that replaces repeated sub-messages can drop an
  occurrence that the newer reader would have refused (`DroppedOccurrence`). `DeepEvolution` gives the
  exact condition: the newer reader accepts the original if and only if it accepts the copy and
  sub-messages merge or every dropped occurrence is acceptable to it (`Sound`, a test of the original
  bytes; it holds wherever no singular sub-message is repeated: `UnrepeatedSound`).
- A field number is the tag shifted right by three and truncated to 32 bits, so over-long tags alias
  small field numbers: `SameHeader` says when, `AliasDecodesAlike` what follows, `AliasedLimit` gives a
  buffer in which field 2^32 + 1 is absorbed as field 1.

## Model

| member | source | states |
|---|---|---|
| Varints.SovIsLength | api/bitway/dlc/dlc.pulsar.go:2606-2650 | the bit-length formula of the size pass is the length of the written varint |
| Varints.VarintRoundTrip | api/bitway/dlc/dlc.pulsar.go:2810-2824 | the varint loop inverts the writer, consumes exactly its bytes, and ignores what follows |
| Varints.VarintAtMostTen | api/bitway/dlc/dlc.pulsar.go:2810-2824 | every 64-bit value is written in at most ten bytes |
| Varints.ReadVarintRejects | api/bitway/dlc/dlc.pulsar.go:2992-3010 | a varint is refused if and only if ten continuation bytes follow each other (overflow) or the buffer ends inside such a run (truncation) |
| Varints.ReadVarintLocal | api/bitway/dlc/dlc.pulsar.go:4357-4375 | the number read depends only on the bytes consumed |
| Varints.ShortestForm | api/bitway/dlc/dlc.pulsar.go:4357-4375 | no byte string read as a number is shorter than the written form of that number |
| Varints.AccumulateStep | api/bitway/dlc/dlc.pulsar.go:3004-3006 | or-ing a shifted seven-bit group into a machine word of any width truncates the exact base-128 sum |
| Records.SkipLocal | api/bitway/dlc/dlc.pulsar.go:3083-3099 | skipping an unknown field reads nothing beyond the length it returns |
| RoundTrips.SkipGroup | api/bitway/dlc/dlc.pulsar.go:3083-3099 | an unknown group is passed as a whole: start tag, every field in it, end tag |
| WireForms.SkipFixed | api/bitway/dlc/dlc.pulsar.go:3083-3099 | an unknown field of wire type 5 is its tag and four bytes, one of wire type 1 its tag and eight |
| WireForms.SkipNumber | api/bitway/dlc/dlc.pulsar.go:3083-3099 | an unknown varint field is as long as it was written |
| WireForms.SkipChunk | api/bitway/dlc/dlc.pulsar.go:3083-3099 | an unknown length-delimited field is as long as it was written |
| WireForms.SkipRefuses | api/bitway/dlc/dlc.pulsar.go:3083-3099 | wire types 6 and 7 are illegal, and an end marker outside a group is unexpected |
| WireForms.SkipUnclosed | api/bitway/dlc/dlc.pulsar.go:3083-3099 | a group that is not closed is an unexpected end |
| WireForms.SkipGroupCut | api/bitway/dlc/dlc.pulsar.go:3083-3099 | so is a group whose last field runs past the buffer |
| WireForms.UnknownFixed | api/bitway/dlc/dlc.pulsar.go:3083-3099 | an unknown fixed-width record is kept whole, and one with too few bytes is an unexpected end |
| WireForms.TagRefused | api/bitway/dlc/dlc.pulsar.go:2797-2804 | end markers, and field numbers that are zero or negative as 32-bit integers, are refused with their errors |
| WireForms.WireTypeRefused | api/bitway/dlc/dlc.pulsar.go:2807-2809 | a known field under another wire type is refused with that wire type |
| WireForms.NegativeLength | api/bitway/dlc/dlc.pulsar.go:2863-2866 | a length of 2^63 or more is an invalid length, for known and unknown fields alike |
| WireForms.LengthBeyond | api/bitway/dlc/dlc.pulsar.go:2867-2873 | a length past the end of the buffer is an unexpected end, or an invalid length if the end it declares does not fit 64 bits |
| WireForms.NumberRead | api/bitway/dlc/dlc.pulsar.go:2810-2824 | one varint record sets one field to the truncation of its number |
| WireForms.BoolRead | api/bitway/dlc/dlc.pulsar.go:2972-2991 | a bool is true for every number but zero |
| WireForms.TextRead | api/bitway/dlc/dlc.pulsar.go:2844-2875 | one string record sets one field to its payload |
| WireForms.Spelled | api/bitway/dlc/dlc.pulsar.go:2664-2756 | an encoding is the records of its fields in order and the unknown bytes |
| Records.CutLocal | api/bitway/dlc/dlc.pulsar.go:2780-3100 | a record, known or unknown, is recognised from its own bytes alone |
| Streams.Concatenation | api/bitway/dlc/dlc.pulsar.go:2767-3106 | after an accepted buffer, decoding goes on as from the message it produced; declared ends shift by its length |
| Streams.ConcatenationErrors | api/bitway/dlc/dlc.pulsar.go:2863-2873 | acceptance and results agree at a seam; the error value differs if and only if some record of the second buffer, behind accepted ones, declares an end below 2^63 that the length of the first buffer carries past it, and then unexpected-EOF becomes invalid-length |
| Streams.OverrunLocated | api/bitway/dlc/dlc.pulsar.go:2863-2873 | a decode stops at an overrun with a given end if and only if a record behind accepted ones declares that end |
| Streams.CarriedFlat | api/bitway/dlc/dlc.pulsar.go:4247-4399 | without sub-messages that condition is one on the framing of the second buffer alone, whatever the options and the message |
| BridgeSchemas.SeamChangesError | api/bitway/btcbridge/params.pulsar.go:2125-2155 | a concrete vault buffer that is unexpected-EOF alone and invalid-length behind two harmless bytes |
| Streams.PrefixAcceptance | api/bitway/btcbridge/params.pulsar.go:1109-1669 | a prefix of an accepted buffer is accepted if and only if the cut falls on a record boundary |
| Streams.PrefixResumes | api/bitway/btcbridge/params.pulsar.go:1109-1669 | at a boundary, decoding the remaining bytes from the prefix's message completes the original result |
| Prefixes.PrefixIsRestriction | api/bitway/btcbridge/params.pulsar.go:896-1669 | a cut through an encoding is a record boundary if and only if it leaves the encoding of the message restricted at some point: behind a field, an element of a list, or an unknown record |
| Prefixes.AcceptedPrefix | api/bitway/btcbridge/params.pulsar.go:896-1669 | a prefix of an encoding is accepted if and only if it is such an encoding, and it decodes to the restricted message |
| Prefixes.RestrictDecodes | api/bitway/dlc/dlc.pulsar.go:2654-3106 | in front of any point of the message, the encoding is that of the restricted message and decodes to it |
| Streams.DecodeIsFieldWise | api/bitway/dlc/params.pulsar.go:580-805 | a buffer is accepted with result y if and only if all records can be cut and each slot of y is the fold of that slot's own records, the unknown bytes being the unknown records in order |
| Streams.FieldOrder | api/bitway/dlc/params.pulsar.go:580-805 | buffers that agree field by field decode alike, however the fields interleave |
| Streams.SwapNeighbours | api/bitway/btcbridge/params.pulsar.go:2085-2249 | two neighbouring records of different fields, one of them known, may be swapped |
| Streams.LastOneWins | api/bitway/btcbridge/params.pulsar.go:2085-2249 | a number or string field, and without merging a singular sub-message, takes the value of its last record alone, whatever came before |
| RoundTrips.MergeIsConcatenation | api/bitway/dlc/genesis.pulsar.go:588-623 | with merging, two occurrences of a sub-message act as one with concatenated payload |
| RoundTrips.MergedOccurrences | api/bitway/dlc/genesis.pulsar.go:588-623 | with merging, a singular sub-message of an accepted buffer ends up as a single occurrence with all its payloads in a row would leave it; without an occurrence it stays |
| RoundTrips.NumberRecord | api/bitway/dlc/dlc.pulsar.go:2747-2756 | a written varint field is cut off with its field's slot and its sign-extended number |
| RoundTrips.ChunkRecord | api/bitway/dlc/dlc.pulsar.go:2740-2746 | a written length-delimited field is cut off with its slot and payload |
| RoundTrips.FieldRoundTrip | api/bitway/dlc/dlc.pulsar.go:2654-3106 | a field's records, decoded onto its default, restore it and touch no other field |
| RoundTrips.EltsRoundTrip | api/bitway/dlc/genesis.pulsar.go:495-527 | a list written element by element is decoded in the same order behind the elements already there |
| RoundTrips.UnknownRoundTrip | api/bitway/dlc/dlc.pulsar.go:3083-3099 | unknown records are kept byte for byte and in order |
| RoundTrips.RoundTrip | api/bitway/dlc/dlc.pulsar.go:2593-3106 | for every schema and every well-formed message, decoding the encoding gives the message back, at every depth of nesting |
| RoundTrips.EncodeInjective | api/bitway/dlc/dlc.pulsar.go:2654-2766 | two well-formed messages with the same encoding are equal |
| DlcEvents.EventRoundTrip | api/bitway/dlc/dlc.pulsar.go:2593-3106 | every event object with complete unknown fields and proper timestamps round-trips, negative index and type included |
| DlcEvents.DLCEvent.EventWellFormed | api/bitway/dlc/dlc.pulsar.go:4882-4897 | the Go field types make an event well-formed up to its timestamps and unknown bytes |
| Normalisation.DecodeWellFormed | api/bitway/dlc/dlc.pulsar.go:2767-3106 | from a well-formed message the parser reaches only well-formed messages |
| Normalisation.Normalise | api/bitway/dlc/dlc.pulsar.go:2654-3106 | for every accepted buffer, encoding and decoding again gives the same message with the unknown records in order |
| Normalisation.NormalFormDecides | api/bitway/dlc/dlc.pulsar.go:2654-3106 | two accepted buffers decode to the same message if and only if their re-encodings are equal |
| Evolution.CutTransfer | api/bitway/dlc/dlc.pulsar.go:737-753 | a record one schema can cut has the same extent, slot and payload under any schema that covers it, unless only that one knows the field and finds the wrong wire type |
| Evolution.SchemaEvolution | api/bitway/dlc/dlc.pulsar.go:455-753 | decode with fewer fields, encode, decode with all: the outcome, errors included, is that of decoding the original with all fields |
| NestedEvolution.DeepEvolution | api/bitway/dlc/genesis.pulsar.go:549-715 | the same when fields are missing at any depth: what the full reader accepts of the original it accepts of the copy with the same message; it accepts the original if and only if it accepts the copy and sub-messages merge or all dropped occurrences are acceptable |
| NestedEvolution.Forward | api/bitway/dlc/genesis.pulsar.go:549-715 | readers with fewer and with all fields, run on the same bytes, stay related: known fields alike at every depth, the others as the unknown records give them |
| NestedEvolution.Backward | api/bitway/dlc/genesis.pulsar.go:549-715 | what the result of the smaller reader stands for is what the larger reader reads, if whatever was dropped is acceptable |
| NestedEvolution.AcceptedSound | api/bitway/dlc/genesis.pulsar.go:588-623 | without merging, a buffer that the full reader accepts has no unacceptable dropped occurrence, at any depth |
| NestedEvolution.UnrepeatedSound | api/bitway/dlc/genesis.pulsar.go:588-623 | where no singular sub-message is repeated, nothing is dropped |
| NestedEvolution.UnrepeatedEncoding | api/bitway/dlc/genesis.pulsar.go:473-538 | the writer never writes a singular sub-message twice, at any depth |
| NestedEvolution.DroppedOccurrence | api/bitway/dlc/genesis.pulsar.go:588-623 | a genesis that the full reader refuses and whose copy through an older, replacing reader it accepts |
| Discarding.ForgetDecode | api/bitway/dlc/genesis.pulsar.go:549-715 | discarding unknown fields while decoding is decoding and then forgetting them, at every level and in foreign messages, for results and errors |
| Discarding.DiscardBlind | api/bitway/dlc/dlc.pulsar.go:4247-4399 | if no field shows the option, both settings accept the same buffers and agree on everything but the added unknown bytes |
| Discarding.DiscardInvisible | api/bitway/dlc/dlc.pulsar.go:2767-3106 | the two settings agree on the known fields for all inputs if and only if there is no described sub-message and every foreign one is decoded alike with both |
| Discarding.DiscardReachesTimestamps | api/bitway/dlc/dlc.pulsar.go:3041-3046 | an event buffer with an unknown field inside its timestamp: the two settings give different publication times |
| Discarding.LivenessDiscard | api/bitway/dlc/dlc.pulsar.go:4247-4399 | the same for the liveness record, with the added bytes named |
| Discarding.DiscardKeepsOld | api/bitway/dlc/dlc.pulsar.go:3095-3097 | a discarding reader leaves the unknown bytes it was given |
| Bounds.WireNoLonger | api/bitway/btcbridge/params.pulsar.go:2188-2206 | truncation to the field type never lengthens a number, except a negative 32-bit value, by at most five bytes |
| Bounds.DecodeShrinks | api/bitway/btcbridge/params.pulsar.go:1994-2249 | the encoded cost of a message grows by no more than the bytes read, merged sub-messages included |
| Bounds.ReencodingBound | api/bitway/btcbridge/params.pulsar.go:1994-2249 | the re-encoding is no longer than the buffer plus five bytes for each 32-bit signed field |
| Bounds.DecodeDoubles | api/bitway/dlc/genesis.pulsar.go:549-715 | decoding lengthens the encoding of a message of any schema by at most twice the bytes read, merging included |
| Bounds.ReencodingDoubles | api/bitway/btcbridge/params.pulsar.go:1109-1669 | for every schema, 32-bit signed fields at any depth included, the re-encoding is at most twice as long as the buffer, if foreign codecs at most double |
| BridgeSchemas.BridgeReencoding | api/bitway/btcbridge/params.pulsar.go:3053-3249 | limits, withdrawal parameters and fees never grow; a vault grows by at most five bytes |
| BridgeSchemas.VaultBoundAttained | api/bitway/btcbridge/params.pulsar.go:1994-2249 | a six-byte vault that is written back in eleven |
| BridgeSchemas.PutTwoByteTag | api/bitway/btcbridge/params.pulsar.go:927-947 | the two byte writes of fields 16 and 17, with the constants of the generated code, leave the tag of the field and nothing else changed |
| BridgeSchemas.BridgeParamsValid | api/bitway/btcbridge/params.pulsar.go:805-1669 | the 17 fields and all nested descriptions form a valid schema |
| BridgeSchemas.BridgeParamsRoundTrip | api/bitway/btcbridge/params.pulsar.go:805-1669 | bridge parameters round-trip with everything nested in them |
| BridgeSchemas.BridgeGenesisRoundTrip | api/bitway/btcbridge/genesis.pulsar.go:839-1391 | the bridge genesis round-trips, its parameters included |
| BridgeWire.VaultBytes | api/bitway/btcbridge/params.pulsar.go:2031-2084 | the encoding, spelt with the tag constants of the generated code, for all values |
| BridgeWire.VaultReads | api/bitway/btcbridge/params.pulsar.go:2085-2249 | each tag, followed by any number or payload, sets the field of that tag, with the truncation of its Go type |
| BridgeWire.WithdrawParamsBytes | api/bitway/btcbridge/params.pulsar.go:2585-2629 | the encoding, spelt with the tag constants of the generated code, for all values |
| BridgeWire.WithdrawParamsReads | api/bitway/btcbridge/params.pulsar.go:2630-2749 | each tag, followed by any number or payload, sets the field of that tag, with the truncation of its Go type |
| BridgeWire.ProtocolLimitsBytes | api/bitway/btcbridge/params.pulsar.go:3085-3129 | the encoding, spelt with the tag constants of the generated code, for all values |
| BridgeWire.ProtocolLimitsReads | api/bitway/btcbridge/params.pulsar.go:3130-3249 | each tag, followed by any number or payload, sets the field of that tag, with the truncation of its Go type |
| BridgeWire.ProtocolFeesBytes | api/bitway/btcbridge/params.pulsar.go:3586-3632 | the encoding, spelt with the tag constants of the generated code, for all values |
| BridgeWire.ProtocolFeesReads | api/bitway/btcbridge/params.pulsar.go:3633-3765 | each tag, followed by any number or payload, sets the field of that tag, with the truncation of its Go type |
| BridgeWire.TssParamsBytes | api/bitway/btcbridge/params.pulsar.go:4087-4144 | the encoding, spelt with the tag constants of the generated code, for all values |
| BridgeWire.TssParamsReads | api/bitway/btcbridge/params.pulsar.go:4145-4279 | each tag, followed by any payload, adds to or replaces the field of that tag, read as the message of that field |
| BridgeWire.RateLimitBytes | api/bitway/btcbridge/params.pulsar.go:4601-4658 | the encoding, spelt with the tag constants of the generated code, for all values |
| BridgeWire.RateLimitReads | api/bitway/btcbridge/params.pulsar.go:4659-4793 | each tag, followed by any payload, adds to or replaces the field of that tag, read as the message of that field |
| BridgeWire.GlobalRateLimitBytes | api/bitway/btcbridge/params.pulsar.go:5110-5158 | the encoding, spelt with the tag constants of the generated code, for all values |
| BridgeWire.GlobalRateLimitReads | api/bitway/btcbridge/params.pulsar.go:5159-5276 | each tag, followed by any number or payload, sets the field of that tag, with the truncation of its Go type |
| BridgeWire.AddressRateLimitBytes | api/bitway/btcbridge/params.pulsar.go:5593-5641 | the encoding, spelt with the tag constants of the generated code, for all values |
| BridgeWire.AddressRateLimitReads | api/bitway/btcbridge/params.pulsar.go:5642-5759 | each tag, followed by any number or payload, sets the field of that tag, with the truncation of its Go type |
| BridgeWire.IbcParamsBytes | api/bitway/btcbridge/params.pulsar.go:6076-6124 | the encoding, spelt with the tag constants of the generated code, for all values |
| BridgeWire.IbcParamsReads | api/bitway/btcbridge/params.pulsar.go:6125-6242 | each tag, followed by any number or payload, sets the field of that tag, with the truncation of its Go type |
| BridgeWire.FeeSponsorshipBytes | api/bitway/btcbridge/params.pulsar.go:6594-6639 | the encoding, spelt with the tag constants of the generated code, for all values |
| BridgeWire.FeeSponsorshipReads | api/bitway/btcbridge/params.pulsar.go:6640-6736 | each tag, followed by any payload, adds to or replaces the field of that tag, read as the message of that field |
| BridgeWire.BridgeParamsBytes | api/bitway/btcbridge/params.pulsar.go:896-1108 | the encoding, spelt with the tag constants of the generated code, for all values, all seventeen fields and their nested messages |
| BridgeWire.SettingsReads | api/bitway/btcbridge/params.pulsar.go:1109-1669 | each tag, followed by any number or payload, sets the field of that tag, with the truncation of its Go type (fields 1 to 9) |
| BridgeWire.GroupsReads | api/bitway/btcbridge/params.pulsar.go:1109-1669 | each tag, followed by any payload, adds to or replaces the field of that tag, read as the message of that field (fields 10 to 17) |
| BridgeWire.BridgeGenesisBytes | api/bitway/btcbridge/genesis.pulsar.go:908-1056 | the encoding, spelt with the tag constants of the generated code, for all values |
| BridgeWire.BridgeGenesisReads | api/bitway/btcbridge/genesis.pulsar.go:1057-1391 | each tag, followed by any payload, adds to or replaces the field of that tag, read as the message of that field |
| Aliases.SameHeader | api/bitway/dlc/dlc.pulsar.go:2797-2798 | two tag words are given the same field number and wire type if and only if they agree modulo 8 and their field numbers modulo 2^32 |
| Aliases.AliasDecodesAlike | api/bitway/dlc/dlc.pulsar.go:2781-2804 | replacing the tag word of a known field by an alias changes neither acceptance nor message, wherever it stands |
| Aliases.AliasedLimit | api/bitway/btcbridge/params.pulsar.go:3130-3188 | a limits buffer in which field number 2^32 + 1 is absorbed as field 1 |
| Reflection.FieldRecords | api/bitway/dlc/dlc.pulsar.go:2654-2766 | a field is written as records of its own slot only, and as none if and only if Has is false |
| Reflection.ClearCommutes | api/bitway/dlc/dlc.pulsar.go:2339-2367 | encoding after Clear is the encoding before it minus exactly that field's records; a record exists if and only if Has |
| Reflection.RangeVisitsPopulated | api/bitway/dlc/dlc.pulsar.go:2229-2290 | the visited slots are exactly those where Has holds, each once, ascending, with their values |
| Reflection.CopyRange | api/bitway/dlc/dlc.pulsar.go:2229-2290 | storing what Range visits onto defaults restores every field |
| Reflection.ClonesAgree | api/bitway/dlc/dlc.pulsar.go:2428-2458 | the clone through Range and Set has the fields of the clone through marshal and unmarshal |
| Reflection.Visit | api/bitway/dlc/dlc.pulsar.go:2230-2235 | one guarded call of the Range callback, stopping after the first false |
| Buffers.EncodeVarint | api/bitway/dlc/dlc.pulsar.go:2753-2755 | the write ends at the offset, fills exactly the varint's bytes, and leaves the rest of the buffer alone |
| Buffers.PutNumber | api/bitway/dlc/dlc.pulsar.go:2752-2756 | varint and tag are written in front of what was there, and nothing in front of them changes |
| Buffers.PutChunk | api/bitway/dlc/dlc.pulsar.go:2740-2746 | payload, length and tag are written in front of what was there, and nothing in front of them changes |
| Buffers.PutStrings | api/bitway/dlc/dlc.pulsar.go:2717-2725 | the backward loop leaves the list in forward order and writes exactly the bytes between the two indices |
| Buffers.PutTextSlot | api/bitway/dlc/dlc.pulsar.go:2740-2746 | the step of one slot extends the filled part of the buffer by that slot and leaves everything in front of it alone; with PutUnknown and its siblings each byte is written once |
| Template.PutField | api/bitway/btcbridge/params.pulsar.go:916-1098 | the same for a field of any kind, tags of any length and nested messages included |
| Buffers.SizeStrings | api/bitway/dlc/dlc.pulsar.go:2625-2630 | the size loop counts the bytes of the list's records |
| Buffers.ReadUint | api/bitway/dlc/dlc.pulsar.go:2996-3010 | the shift-and-or loop stays inside the buffer, ends after at most ten turns, computes the sum modulo 2^32 or 2^64, and fails exactly as the specification does |
| Buffers.ReadExtent | api/bitway/dlc/dlc.pulsar.go:2848-2875 | with wrapping addition, an accepted length gives index <= end <= buffer length, and each refusal has the error that NegativeLength and LengthBeyond name |
| Buffers.ReadHeader | api/bitway/dlc/dlc.pulsar.go:2781-2804 | tag, field number and wire type, with the end-group and illegal-tag errors |
| Buffers.ReadUnknown | api/bitway/dlc/dlc.pulsar.go:3083-3099 | the default case keeps exactly the skipped record and advances past it |
| Buffers.Turn | api/bitway/dlc/dlc.pulsar.go:2780-3100 | each turn of the loop extends the accepted part of the buffer, or stops with the specified error and message |
| Buffers.AllFilled | api/bitway/dlc/dlc.pulsar.go:2654-2766 | when all slots are written the falling index is 0 and the buffer is the encoding |
| Template.Size | api/bitway/btcbridge/params.pulsar.go:806-894 | the size pass of any message, through all nesting levels and tag widths, counts exactly the bytes of its encoding |
| Template.Marshal | api/bitway/btcbridge/params.pulsar.go:906-1108 | backward writing of any message never leaves the buffer, ends at index 0 and yields the encoding, appended to the buffer passed in |
| Template.Unmarshal | api/bitway/btcbridge/params.pulsar.go:1109-1669 | the parse loop of any message terminates, stays inside the buffer, and agrees with the specification in result and error; on an error the records in front of the refused one are absorbed and at most its field differs |
| DlcWire.EventBytes | api/bitway/dlc/dlc.pulsar.go:2654-2766 | the encoding, spelt with the tag constants of the generated code, for all values |
| DlcWire.EventReads | api/bitway/dlc/dlc.pulsar.go:2767-3106 | each tag, followed by any number or payload, sets the field of that tag, with the truncation of its Go type |
| DlcWire.AttestationBytes | api/bitway/dlc/dlc.pulsar.go:3522-3596 | the encoding, spelt with the tag constants of the generated code, for all values |
| DlcWire.AttestationReads | api/bitway/dlc/dlc.pulsar.go:3597-3829 | each tag, followed by any number or payload, sets the field of that tag, with the truncation of its Go type |
| DlcWire.ParamsBytes | api/bitway/dlc/params.pulsar.go:502-579 | the encoding, spelt with the tag constants of the generated code, for all values |
| DlcWire.ParamsReads | api/bitway/dlc/params.pulsar.go:580-805 | each tag, followed by any number or payload, sets the field of that tag, with the truncation of its Go type |
| DlcWire.GenesisBytes | api/bitway/dlc/genesis.pulsar.go:473-548 | the encoding, spelt with the tag constants of the generated code, for all values |
| DlcWire.GenesisReads | api/bitway/dlc/genesis.pulsar.go:549-715 | each tag, followed by any payload, adds to or replaces the field of that tag, read as the message of that field |
| DlcWire.LivenessBytes | api/bitway/dlc/dlc.pulsar.go:4190-4246 | the encoding, spelt with the tag constants of the generated code, for all values |
| DlcWire.LivenessReads | api/bitway/dlc/dlc.pulsar.go:4247-4399 | each tag, followed by any number or payload, sets the field of that tag, with the truncation of its Go type |
| DlcEvents.DLCEvent.Size | api/bitway/dlc/dlc.pulsar.go:2594-2652 | the size of an event object is the length of its encoding |
| DlcEvents.DLCEvent.Marshal | api/bitway/dlc/dlc.pulsar.go:2664-2766 | the buffer passed in, followed by exactly the encoding: the records of the named fields, each under its own tag byte |
| DlcEvents.DLCEvent.SetNumber | api/bitway/dlc/dlc.pulsar.go:2806-3010 | a varint record sets the named field of its number, to its Go type, and leaves every other field |
| DlcEvents.DLCEvent.SetText | api/bitway/dlc/dlc.pulsar.go:2844-2939 | a string record sets nonce, public key or description and leaves every other field |
| DlcEvents.DLCEvent.SetChunk | api/bitway/dlc/dlc.pulsar.go:2940-3081 | an outcome is appended, a timestamp is decoded into its own field, and every other field stays |
| DlcEvents.DLCEvent.UnmarshalField | api/bitway/dlc/dlc.pulsar.go:2780-3100 | one turn of the loop changes exactly the field of the record, or fails with the specified error and changes no other field |
| DlcEvents.DLCEvent.Unmarshal | api/bitway/dlc/dlc.pulsar.go:2767-3106 | the object ends up as the decoded message, or the error is the specified one, with the records in front of the refused one absorbed and every field but its own as they left it |
| DlcEvents.DLCEvent.HasField | api/bitway/dlc/dlc.pulsar.go:2303-2331 | the field-by-field tests are Has of the slot |
| DlcEvents.DLCEvent.Get | api/bitway/dlc/dlc.pulsar.go:2375-2417 | the value of the slot |
| DlcEvents.DLCEvent.ClearField | api/bitway/dlc/dlc.pulsar.go:2339-2367 | the field takes its default and every other field stays |
| DlcEvents.DLCEvent.SetField | api/bitway/dlc/dlc.pulsar.go:2428-2458 | the field takes the value and every other field stays |
| DlcEvents.DLCEvent.Range | api/bitway/dlc/dlc.pulsar.go:2229-2290 | the callback sees the populated fields in ascending order up to its first false |
| DlcEvents.DLCEvent.CloneByRange | api/bitway/dlc/dlc.pulsar.go:2229-2458 | copying what Range visits with Set gives all known fields and no unknown bytes |
| DlcAttestations.DLCAttestation.Size | api/bitway/dlc/dlc.pulsar.go:3478-3520 | the size of an attestation object is the length of its encoding |
| DlcAttestations.DLCAttestation.Marshal | api/bitway/dlc/dlc.pulsar.go:3532-3596 | the buffer passed in, followed by exactly the encoding: the records of the named fields, each under its own tag byte |
| DlcAttestations.DLCAttestation.SetNumber | api/bitway/dlc/dlc.pulsar.go:3636-3673 | a varint record sets id or event id and leaves every other field |
| DlcAttestations.DLCAttestation.SetChunk | api/bitway/dlc/dlc.pulsar.go:3674-3805 | outcome, public key, signature and time are set by their own field numbers, and every other field stays |
| DlcAttestations.DLCAttestation.Unmarshal | api/bitway/dlc/dlc.pulsar.go:3597-3829 | the object ends up as the decoded message, or the error is the specified one, with the records in front of the refused one absorbed and every field but its own as they left it |
| DlcParams.Params.Size | api/bitway/dlc/params.pulsar.go:455-500 | the size of a parameters object is the length of its encoding |
| DlcParams.Params.Marshal | api/bitway/dlc/params.pulsar.go:512-579 | the buffer passed in, followed by exactly the encoding: the records of the named fields, each under its own tag byte |
| DlcParams.Params.SetNumber | api/bitway/dlc/params.pulsar.go:619-804 | a varint record sets the named field of its number and leaves every other field |
| DlcParams.Params.SetChunk | api/bitway/dlc/params.pulsar.go:619-804 | the timeout is decoded, a participant is appended, and every other field stays |
| DlcParams.Params.Unmarshal | api/bitway/dlc/params.pulsar.go:580-805 | the object ends up as the decoded message, or the error is the specified one, with the records in front of the refused one absorbed and every field but its own as they left it |
| DlcGenesis.GenesisState.Size | api/bitway/dlc/genesis.pulsar.go:435-471 | the size of a genesis object, through its nested objects, is the length of its encoding |
| DlcGenesis.GenesisState.Marshal | api/bitway/dlc/genesis.pulsar.go:483-548 | the buffer passed in, followed by exactly the encoding: the records of the named fields, each under its own tag byte, nested objects included |
| DlcGenesis.GenesisState.SetChunk | api/bitway/dlc/genesis.pulsar.go:587-698 | field 1 goes to the parameters, 2 to the events, 3 to the attestations, and the other lists stay |
| DlcGenesis.GenesisState.Unmarshal | api/bitway/dlc/genesis.pulsar.go:549-715 | appends fresh objects, reuses or resets the parameters object, and ends up as the decoded message, or with the specified error and no more than the field of the refused record touched by it |
| DlcGenesis.Reload | api/bitway/dlc/genesis.pulsar.go:434-726 | marshal and unmarshal into a fresh object reproduce all fields, lists in order and unknown bytes at every level |
| DlcViews.EventsView.Append | api/bitway/dlc/genesis.pulsar.go:39-43 | appending to the view appends to the message |
| DlcViews.EventsView.AppendMutable | api/bitway/dlc/genesis.pulsar.go:45-49 | the returned fresh element is the one in the message |
| DlcViews.EventsView.Set | api/bitway/dlc/genesis.pulsar.go:33-37 | replaces one element of the message's list |
| DlcViews.EventsView.Truncate | api/bitway/dlc/genesis.pulsar.go:51-56 | cuts the message's list |
| DlcViews.EventsView.Perform | api/bitway/dlc/genesis.pulsar.go:18-63 | any legal run of view operations and of changes to the events behind it does to the message what it does to a list of shared values, and nothing else to the message |
| DlcViews.EditAfterAppend | api/bitway/dlc/genesis.pulsar.go:45-49 | an element from AppendMutable, edited through the returned handle, is edited in the list |

## Left out

- Template.Marshal: works on message values; update in place and aliasing are shown on the dlc objects only.
- Template.Unmarshal: after an error, the one field whose record was refused is unspecified; the generated code leaves a partly read number or a partly filled sub-message there.
- DlcEvents.DLCEvent.Unmarshal: the same.
- DlcEvents.DLCEvent.UnmarshalField: the same.
- DlcAttestations.DLCAttestation.Unmarshal: the same.
- DlcParams.Params.Unmarshal: the same.
- DlcGenesis.GenesisState.Unmarshal: the same.
- DlcViews.EventsView.Truncate: does not model the nil writes behind the new end of the shared backing array.
- BridgeSchemas.BridgeGenesisRoundTrip: UTXO, DKG, signing and withdrawal records (btcbridge.pulsar.go) enter as foreign codecs taken to round-trip.
- Evolution.SchemaEvolution: the smaller schema lacks fields of the message itself, and error values agree as well; NestedEvolution.DeepEvolution is the version for every depth, where the order of two errors may change.
- Nil receivers of the three functions, which return without doing anything.
- Mutable and NewField for sub-messages, WhichOneof, extension fields and the panics for foreign descriptors.
- DLCOracle, DCM and DLCNonce objects: the same code as the modelled messages with other fields.
- Keepers, gRPC stubs, application wiring, key algorithms and export loops.
