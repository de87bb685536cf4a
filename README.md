# ezusbcc GPIF wave-table assembler, modelled in Dafny

`ezusbcc` assembles a small source language into one GPIF wave table for the
Cypress EZ-USB controller: eight states of four bytes each (branch/count,
opcode, output, logic function), written out as a 32-byte C array. This
project models the assembler's core after tokenising:

- the constant tables: directive names (`pseudotab`), flag-select operands
  (`flgsel`), logic functions (`functab`), output pins keyed by TRICTL
  (`oetab`) and the operand table keyed by GPIFREADYCFG.5, EPxGPIFFLGSEL and
  GPIFREADYCFG.7 (`opertab`) — module `Tables`;
- the four bit-field unions `u_opcode`, `u_logfunc`, `u_branch` and
  `u_output`, as shift/mask functions on `bv8` with fields allocated from
  the least significant bit — module `Fields`;
- `strtoul(s, &end, 10)` on plain decimal digits — module `Decimal`;
- directive processing: one operand, range checks, and the update of the
  environment (`environ`) — module `Directives`;
- the per-instruction encoder: the mnemonic scan, the decision-point branch
  (A, func, B, `$n` targets, output pins) and the non-decision-point branch
  (count, output pins), with the last error written kept on the
  instruction — module `Encoder`;
- table assembly: the reading loop, the in-place encoding loop, the state
  counter that ends the run, `resize(8)` and the four output planes —
  module `Assembler`.

Each stage is given as a specification function (a left fold where the
source loops) and, where the source works step by step, as a method whose
loop updates the same fields in place and is proved equal to it. The
`Assembler` class carries the run's mutable state (`environ`, `instrs`);
`Run` drives it from the statements to the output and is proved equal to
`Assemble`.

Behaviour of the code worth noting, which the model keeps:
the eighth instruction (not a ninth) ends the run, since the counter is
tested after it is incremented; padding records are all-zero, not a 1-count
no-op; a count of `0` is accepted; errors attached to instructions do not
stop the array from being written; `.EPXGPIFFLGSEL` stores `!!index`, so
`FF` selects the same operand table as `EF` (and the operand `FF` is then
rejected); `.EP 0` is accepted; a bare `$` is target 0. The directives are
all applied while reading, before any instruction is encoded, so a
directive placed after an instruction still governs it. No decompiler is
part of this model.

## Model

| member | source | states |
|---|---|---|
| `Decimal.ParseUnsigned` | ezusbcc.cpp:406 | the value read is that of the leading run of digits and the end pointer is just past that run |
| `Decimal.DigitRun` | ezusbcc.cpp:406 | the run `strtoul` consumes: its length is within the text, every character before it is a digit and the character at its end, if any, is not |
| `Decimal.ParseUnsignedWhole` | ezusbcc.cpp:416 | nothing is left after the number exactly when the whole text is digits, and then the value is the whole text's |
| `Fields.SetBit` | ezusbcc.cpp:569 | OR-ing `1 << k` into the byte raises bit k and leaves the seven other bits unchanged |
| `Fields.SetBitIdempotent` | ezusbcc.cpp:613 | OR-ing the same pin bit twice gives the byte OR-ing it once gives |
| `Fields.SetBitCommutes` | ezusbcc.cpp:613 | the order in which two pin bits are raised does not matter |
| `Fields.WithBranch0` | ezusbcc.cpp:280 | assigning branch0 sets bits 0-2 and keeps branch1, bit 6 and the re-execute bit |
| `Fields.WithBranch1` | ezusbcc.cpp:281 | assigning branch1 sets bits 3-5 and keeps branch0, bit 6 and the re-execute bit |
| `Fields.BranchFieldsRoundTrip` | ezusbcc.cpp:277-285 | writing back the branch0 or branch1 field just read leaves the byte as it was |
| `Fields.BranchByte` | ezusbcc.cpp:277-285 | packing branch0, branch1 and re-execute gives a byte from which each field reads back, bit 6 clear |
| `Fields.BranchByteOfFields` | ezusbcc.cpp:277-285 | every branch byte with bit 6 clear is the packing of its own three fields |
| `Fields.WithTermA` | ezusbcc.cpp:272 | assigning terma sets bits 3-5 and keeps termb and lfunc |
| `Fields.WithTermB` | ezusbcc.cpp:271 | assigning termb sets bits 0-2 and keeps terma and lfunc |
| `Fields.WithLFunc` | ezusbcc.cpp:273 | assigning lfunc sets bits 6-7 and keeps terma and termb |
| `Fields.LogicByte` | ezusbcc.cpp:262-275 | `lfunc << 6` OR `terma << 3` OR `termb` reads back as those three fields |
| `Fields.LogicByteOfFields` | ezusbcc.cpp:262-275 | every logic byte is the packing of its own three fields |
| `Fields.FieldwiseLogicByte` | ezusbcc.cpp:494-520 | setting terma, termb and lfunc one after another on any byte gives the packed logic byte |
| `Tables.DirectiveNames` | ezusbcc.cpp:69-76 | `pseudotab` holds exactly `.TRICTL`, `.GPIFREADYCFG5`, `.GPIFREADYCFG7`, `.EPXGPIFFLGSEL`, `.EP` and `.WAVEFORM`, each naming its own directive |
| `Tables.FlagSelectNames` | ezusbcc.cpp:78-82 | `flgsel` holds exactly PF 0, EF 1 and FF 2 |
| `Tables.FunctionNames` | ezusbcc.cpp:107-112 | `functab` holds exactly AND 0, OR 1, XOR 2 and /AND 3: distinct codes that fit the two-bit lfunc field |
| `Tables.OeTab` | ezusbcc.cpp:84-105 | every pin maps to a bit of the output byte |
| `Tables.OutputPinNames` | ezusbcc.cpp:84-105 | CTL0..CTL3 are bits 0..3 under both TRICTL values; CTL4/CTL5 (bits 4, 5) exist only with TRICTL=0 and OE0..OE3 (bits 4..7) only with TRICTL=1; no other names |
| `Tables.OutputPinsDistinct` | ezusbcc.cpp:84-105 | within one TRICTL value no two pin names share a bit |
| `Tables.OperTab` | ezusbcc.cpp:114-247 | every operand name maps to a 3-bit code |
| `Tables.OperandReadyCodes` | ezusbcc.cpp:119-247 | in every configuration RDY0..RDY4 are 0..4, and code 5 is RDY5 when GPIFREADYCFG.5=0 and TC when it is 1 |
| `Tables.OperandFlagCodes` | ezusbcc.cpp:119-247 | the selected flag is code 6 and the two other flags are absent; INTRDY (code 7) exists exactly when the flag index is EF/FF and GPIFREADYCFG.7=1 |
| `Tables.OperandTableNames` | ezusbcc.cpp:119-247 | the table holds exactly the names of those rules and no others |
| `Tables.OperandCodesDistinct` | ezusbcc.cpp:119-247 | within one configuration no two names share a code |
| `Directives.StoredFlagSel` | ezusbcc.cpp:426 | `!!index`: PF stores 0, EF and FF both store 1 |
| `Directives.Store` | ezusbcc.cpp:428 | `environ[op] = value`: the entry of that directive reads back as the value and every other entry is unchanged |
| `Directives.ApplyDirective` | ezusbcc.cpp:395-429 | a directive succeeds exactly when it has one operand that its rule accepts (0/1 for TRICTL and the two GPIFREADYCFG bits, an even value up to 8 for EP, any digits for WAVEFORM, PF/EF/FF for EPXGPIFFLGSEL), then stores that value and nothing else; otherwise it fails with the operand-count, invalid-operand or flag-select error; the environment's ranges are kept |
| `Directives.EpZeroAccepted` | ezusbcc.cpp:410-413 | `.EP 0` is accepted and stores 0 |
| `Directives.TrailingTextRejected` | ezusbcc.cpp:416-419 | digits followed by a non-digit make a numeric directive fail |
| `Directives.FlagSelectFFUsesEFTable` | ezusbcc.cpp:421-426 | after `.EPXGPIFFLGSEL FF` the operand table in use accepts EF and rejects FF |
| `Encoder.ScanChar` | ezusbcc.cpp:439-471 | one character of the mnemonic either keeps the error or writes `Unknown opcode` naming that character |
| `Encoder.ScanMnemonic` | ezusbcc.cpp:438-472 | the scan of the whole mnemonic, from a cleared record, reports only unknown-opcode errors, each naming a character of the mnemonic; its bytes and error are characterised by `ScanOpcodeBits`, `ScanBranch` and `ScanError` |
| `Encoder.ScanCharOpcode` | ezusbcc.cpp:438-471 | one mnemonic character (`ScanChar`) raises at most its own opcode bit |
| `Encoder.ScanOpcodeBits` | ezusbcc.cpp:438-457 | opcode bit k (dp, data, next, incad, gint, sgl) is set exactly when its letter J, D, N, +, G, S occurs in the mnemonic; bits 6, 7 stay clear |
| `Encoder.ScanBranch` | ezusbcc.cpp:458-462 | the scan sets only the re-execute bit of the branch byte, exactly when a `*` follows a `J` |
| `Encoder.ScanError` | ezusbcc.cpp:458-470 | the scan's error names the last character that is neither an opcode letter nor a `*` after `J`, and there is none otherwise |
| `Encoder.LastBad` | ezusbcc.cpp:464-470 | the position found is the last reported character of the mnemonic, and none is reported when it finds none |
| `Encoder.ScanOrderIndependent` | ezusbcc.cpp:438-471 | without `*`, order and repetition of mnemonic characters change neither the opcode byte nor whether an error is reported |
| `Encoder.StarNeedsJFirst` | ezusbcc.cpp:458-463 | `J*` re-executes without error; `*J` reports `*` and does not re-execute |
| `Encoder.ScanOpcode` | ezusbcc.cpp:438-472 | the mnemonic loop computes `ScanMnemonic` |
| `Encoder.TargetOf` | ezusbcc.cpp:530-539 | `$n` is accepted exactly when the text after `$` is all digits, n ≤ 7, and n = 7 or n ≤ the instruction count; the target is n |
| `Encoder.TargetBoundaries` | ezusbcc.cpp:532-534 | a bare `$` is target 0, `$7` is legal whatever the count, `$8` and `$1x` never are, `$3` needs three instructions |
| `Encoder.CountOf` | ezusbcc.cpp:581-597 | a count is accepted exactly when it is all digits with value ≤ 256, and is stored modulo 256; otherwise it is an invalid count (trailing text) or an invalid count value |
| `Encoder.CountBoundaries` | ezusbcc.cpp:590-596 | `256` is stored as 0 and `257` is an invalid count value |
| `Encoder.CountZeroAndTrailing` | ezusbcc.cpp:587-596 | `0` is accepted and stored as 0; `3x` is an invalid count |
| `Encoder.TargetWalkStopped` | ezusbcc.cpp:538-566 | once the target/pin loop has broken out, later operands change nothing |
| `Encoder.CountWalkStopped` | ezusbcc.cpp:610 | once the count/pin loop has broken out, later operands change nothing |
| `Encoder.TargetWalk` | ezusbcc.cpp:526-571 | the target/pin fold (each operand a `TargetStep`, pins a `PinStep`): a loop that has broken out stays as it was, and no operand changes bit 6 or the re-execute bit of the branch byte; its meaning is given by `TargetWalkClean`, `TargetWalkFields`, `TargetWalkBadPin`, `BadOperandBreaks` and `ThirdTargetRejected` |
| `Encoder.WalkTargets` | ezusbcc.cpp:526-571 | the target/pin loop computes `TargetWalk`, breaking where the source breaks |
| `Encoder.TargetOperand` | ezusbcc.cpp:526-569 | one pass of the target/pin loop's body computes `TargetStep`: a `$n` fills the next branch field or breaks as invalid or too many, a pin ORs its bit or breaks as illegal |
| `Encoder.CountWalk` | ezusbcc.cpp:580-615 | the count/pin fold (each operand a `CountStep`, pins a `PinStep`): a loop that has broken out stays as it was and an error once written is never cleared; its meaning is given by `CountWalkMeaning` and `CountWalkBadPin` |
| `Encoder.WalkCounts` | ezusbcc.cpp:580-615 | the count/pin loop computes `CountWalk`, breaking on a bad pin only |
| `Encoder.EncodeDp` | ezusbcc.cpp:475-575 | the decision-point operands never change the opcode byte, never clear a mnemonic error, and leave the instruction error-free only when there are three operands and A, B and func all resolve; characterised by the `EncodeDp*` lemmas |
| `Encoder.EncodeDpOperands` | ezusbcc.cpp:475-575 | the decision-point branch computes `EncodeDp`, keeping the fields set before an error |
| `Encoder.Encode` | ezusbcc.cpp:436-617 | the encoding of one instruction keeps its statement, leaves the logic byte zero in a non-decision point and is never error-free when a mnemonic character is reported; characterised by `EncodeOpcode`, `EncodeDpMissingOperands`, `EncodeDpBadOperands`, `EncodeDpResolved`, `EncodeDpTargets` and `EncodeNdp` |
| `Encoder.EncodeInstr` | ezusbcc.cpp:436-617 | the encoding of one instruction in place computes `Encode` |
| `Encoder.PinMaskBits` | ezusbcc.cpp:558-569 | output bit k is raised exactly when some operand names the pin on bit k |
| `Encoder.PinMaskOfSameNames` | ezusbcc.cpp:600-613 | the output byte depends only on which pin names occur, not on their order or repetition |
| `Encoder.TargetWalkErrorSticky` | ezusbcc.cpp:555-556 | an error already recorded is never cleared by the target/pin loop |
| `Encoder.TargetStepClean` | ezusbcc.cpp:530-570 | one error-free `TargetStep` is error-free exactly when the operand is a legal target within the first two or a legal pin, and then fills the next branch field or ORs the pin's bit |
| `Encoder.TargetWalkClean` | ezusbcc.cpp:526-571 | the target/pin loop ends error-free exactly when every operand is legal and at most two are targets; an error breaks it; the targets are counted |
| `Encoder.TargetWalkFields` | ezusbcc.cpp:523-571 | an error-free loop puts the first target in branch0 and the second in branch1 (keeping the defaults otherwise), the pins' bits in the output byte, and keeps bits 6, 7 |
| `Encoder.TargetWalkBadPin` | ezusbcc.cpp:557-567 | after legal operands with at most two targets, an operand that is neither a target nor a legal pin is reported with the legal pin names and the loop breaks there: the walk is the prefix's, whose output byte holds the earlier pins' bits, with the error and the break set |
| `Encoder.ThirdTargetRejected` | ezusbcc.cpp:541-556 | a third legal target is reported as too many and the loop ends there: branch and output bytes are the prefix's, the target counter is 3 |
| `Encoder.BadOperandBreaks` | ezusbcc.cpp:529-567 | from any running walk, whatever error it already carries, a `$n` that is not a valid target state or an unknown pin name records its error and breaks the loop, leaving branch, output and the target counter as the operands before it set them |
| `Encoder.ErrorBreaksAfterFirstTarget` | ezusbcc.cpp:529-569 | with a mnemonic error already recorded, legal pin names before the first legal `$n` raise their bits, the target fills branch0 and the loop breaks right after it, so branch1 keeps its default and later operands change nothing |
| `Encoder.CountStepClean` | ezusbcc.cpp:580-614 | one `CountStep` on a count or a legal pin overwrites the branch byte with a valid count, records a bad count's error, or ORs the pin's bit |
| `Encoder.CountWalkMeaning` | ezusbcc.cpp:578-597 | over counts and legal pins the branch byte is the last valid count (the default otherwise), the error the last bad count's, the output the pins' bits |
| `Encoder.CountWalkBadPin` | ezusbcc.cpp:600-611 | the first operand that is neither a count nor a legal pin is reported with the legal names and ends the loop |
| `Encoder.EncodeOpcode` | ezusbcc.cpp:438-457 | in both families opcode bit k is set exactly when its letter occurs in the mnemonic |
| `Encoder.EncodeDpMissingOperands` | ezusbcc.cpp:477-480 | fewer than three operands report `missing operand A func B` and leave the logic and output bytes zero, the branch byte only re-execute |
| `Encoder.EncodeDpBadOperands` | ezusbcc.cpp:486-521 | A, then B (with the legal names), then func are checked; the first failing one is reported, the terms resolved before it stay in the logic byte, branch and output keep only the mnemonic's bits |
| `Encoder.EncodeDpUnfold` | ezusbcc.cpp:494-575 | unfolding step for the lemmas below: with A, func and B resolved, `Encode` is the target/pin loop's branch and output bytes with `LogicByte` for the three field stores, and the not-specified rule applied to the loop's error |
| `Encoder.EncodeDpResolved` | ezusbcc.cpp:494-575 | with A, func and B resolved the logic byte is `lfunc << 6` OR `terma << 3` OR `termb`, and the instruction is error-free exactly when the mnemonic is clean, every later operand is legal and exactly two targets are given |
| `Encoder.EncodeDpTargets` | ezusbcc.cpp:523-575 | both targets default to 7, the first and second given fill branch0 and branch1, fewer than two is reported as not specified, the branch byte is `BranchByte` of those two fields and the re-execute bit (`J...*`), pins make the output byte |
| `Encoder.EncodeDpBadPin` | ezusbcc.cpp:557-567 | in a decision point with a clean mnemonic, the first illegal pin after legal operands is reported with the legal pin names of the TRICTL in effect |
| `Encoder.EncodeDpBadTarget` | ezusbcc.cpp:532-539 | in a decision point with a clean mnemonic, the first `$n` after legal operands that is not a valid target state is reported as an invalid target |
| `Encoder.EncodeNdp` | ezusbcc.cpp:576-616 | a non-decision point has branch byte = last valid count or 1, output = pins' bits, logic byte 0, error = last bad count's else the mnemonic's |
| `Encoder.EncodeNdpBadPin` | ezusbcc.cpp:598-611 | in a non-decision point the first illegal pin is reported with the legal names |
| `Encoder.SingleStateExample` | ezusbcc.cpp:576-613 | `S 3 CTL0` encodes to branch 0x03, opcode 0x20, logic 0x00, output 0x01, without error |
| `Encoder.DecisionPointExample` | ezusbcc.cpp:475-575 | `J RDY0 AND RDY1 $2 $5` in a five-instruction program encodes to branch 0x2A, opcode 0x01, logic 0x01, output 0x00, without error |
| `Assembler.Collect` | ezusbcc.cpp:394-433 | the reading loop's environment stays within the ranges the table lookups need |
| `Assembler.CollectSeparates` | ezusbcc.cpp:394-433 | the reading loop yields the directives applied in order wherever they stand, and the other statements in order; the first bad directive ends it |
| `Assembler.CollectStopsAtFatal` | ezusbcc.cpp:401-424 | once a directive has failed, later statements change nothing |
| `Assembler.Configure` | ezusbcc.cpp:395-429 | the directives applied in order keep the environment within the lookup ranges, and with no directive the environment is the one given; `CollectSeparates` ties it to the reading loop |
| `Assembler.EncodeProgram` | ezusbcc.cpp:436 | every pushed instruction is encoded under the final environment, one record per statement, in order |
| `Assembler.Padded` | ezusbcc.cpp:687 | `resize(8)` gives eight records, the listing first and then all-zero records without error |
| `Assembler.Planes` | ezusbcc.cpp:689-722 | the array has four bytes per record: all branch bytes, then all opcode bytes, then all output bytes, then all logic-function bytes, each in record order |
| `Assembler.PlanesLayout` | ezusbcc.cpp:689-722 | the array of eight records has 32 bytes, byte k from field k / 8 (branch, opcode, output, logic) of record k % 8 |
| `Assembler.PlanesKeepRecords` | ezusbcc.cpp:689-722 | two eight-record tables with the same array have the same records |
| `Assembler.PaddedPlanes` | ezusbcc.cpp:687-722 | after `resize(8)` the states past the listing are zero bytes in every plane |
| `Assembler.Assemble` | ezusbcc.cpp:654-722 | a run that writes the array has at most seven instructions and 32 bytes; a run that fails has a bad directive or too many states; `AssembleOutput` states the rest |
| `Assembler.AssembleOutput` | ezusbcc.cpp:654-722 | a run writes the array exactly when its directives are valid and it has at most seven instructions, whatever errors they carry; with eight or more it ends with the state-count error; the array holds each instruction's encoding under the final environment in the four planes and zero for the padding |
| `Assembler.SingleStateProgram` | ezusbcc.cpp:687-722 | `.EP 2` then `S 3 CTL0` gives waveform 0 and the array 03 00… 20 00… 01 00… 00 00… |
| `Assembler.Assembler.constructor` | ezusbcc.cpp:375-383 | the environment starts with EP 2 and every other entry 0, the instruction list empty |
| `Assembler.Assembler.Read` | ezusbcc.cpp:394-433 | a directive updates the environment or returns its error, any other statement is pushed with cleared fields |
| `Assembler.Assembler.EncodeAll` | ezusbcc.cpp:436-617 | every pushed record (cleared, without error) is encoded in place by `Encode` under the environment |
| `Assembler.Assembler.CountStates` | ezusbcc.cpp:654-685 | the state counter lets the run go on exactly when there are fewer than eight instructions |
| `Assembler.Assembler.Resize` | ezusbcc.cpp:687 | the list is padded to eight records with all-zero records |
| `Assembler.Assembler.Emit` | ezusbcc.cpp:689-722 | the four output loops write the planes of the table |
| `Assembler.Run` | ezusbcc.cpp:373-725 | the whole run computes `Assemble` |

## Left out

- `parse()` (reading tokens from a stream, skipping comment lines) is not
  modelled: a program is given as tokenised statements (mnemonic, operands,
  comment).
- The text written to stderr (environment dump, listing lines, error
  wording) and the hex/width/fill formatting of the array on stdout are not
  modelled: the model yields the waveform number, the encoded instructions
  with their errors as data, and the 32 bytes. The state-limit message
  speaks of 6 states although the check lets seven instructions through;
  the model follows the check.
- `exit(1)` is a `Failure` result carrying the fatal error.
- Strings, mnemonics included, are sequences of Unicode characters, not
  bytes: a non-ASCII mnemonic character is reported once, by that
  character, where the scan over a `std::string` reports each of its bytes
  and names the last one.
- `revlookup` and its `assert` only serve the environment dump.
- `Decimal.ParseUnsigned`: signs, leading white space and saturation at
  `ULONG_MAX` are not modelled; only decimal digits are read.
- `Directives.ApplyDirective`: the value is not truncated to 32-bit
  `unsigned` before the range check, so a numeral of 2^32 or more is taken
  at its full value (and rejected where a range applies).
- `Encoder.CountOf`: likewise the count is not truncated to 32-bit
  `unsigned`; a numeral of 2^32 or more is rejected as out of range.
- No decoder or decompiler is part of this model: the source shown has
  none. Round trips are stated for the bit-field packing only.
