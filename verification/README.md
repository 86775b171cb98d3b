# Verified models of openNetVM network functions and style tools

openNetVM runs network functions that pass packets to each other. This project models the parts of the repository that
compute something hard, and proves what they are for. `dafny verify dfyconfig.toml` checks all of it.

- **CRC-32** (`Crc32`): the slice-by-8 table form of `ethernet_crc32` equals the serial register of IEEE 802.3 on every
  byte string. `accum_t` is 8 bytes, little-endian.
- **AES** (`AesTables`, `AesTableValues`, `AesField`, `Aes`, `AesKeySchedule`, `AesWords`, `AesVectors`, `AesModes`, `AesCcm`,
  `AesCcmFormat`): the table lookups are arithmetic in GF(2^8), decryption and encryption undo each other, the key schedule
  is that of FIPS 197 and its three examples come out, CBC, CTR and CCM invert, and the CCM formatting loses nothing.
- **OpenFlow switch agent** (`OpenFlow`, `Actions`, `Msgbuf`, `SdnPktList`, `SwitchAgent`, `SwitchAgentRuns`,
  `SwitchAgentLog`, `SwitchAgentMemory`, `SwitchAgentAnswers`, `SecureChannel`): a step system over ring, lists, buffers,
  flow directory and configuration, its invariant over every run, its messages byte by byte, and the class `Datapath`,
  over two byte buffers and the linked packet lists, whose methods take exactly these steps.
- **Fair queue** (`FairQueueRing`, `FairQueue`, `FairQueueThreads`, `FairQueueRuns`, `FairQueueServe`, `FairQueueDrop`):
  two threads whose single memory accesses interleave freely, FIFO refinement, order per flow, and the fairness bound of
  the round-robin scan.
- **Lint engine** (`Brackets`, `LintMatcher`, `LintPartners`, `LintAngles`, `LintArguments`, `LintNesting`, `LintMerge`):
  the bracket matchers find exactly the balanced partner, the preprocessor stack amounts to skipping branches, and the
  merge of lint entries with changed lines is exact.
- **Load balancer and exact-match forwarding** (`FlowTable`, `LoadBalancer`, `LoadBalancerRuns`, `L3fwd`): affinity,
  eviction, balance, and the arithmetic of generated keys.

Where the code departs from what one would expect, the model follows the code and a lemma says exactly when it matters:

- A configuration reply carries the length field of the latest SET_CONFIG, and before any SET_CONFIG its own length in host
  order (examples/flow_table/sdn.c:79). So the byte stream divides into the messages pushed if and only if at every request
  for the configuration there had been a SET_CONFIG and the latest had 12 bytes
  (`SwitchAgentLog.OutputDividesIntoMessages`, `SwitchAgentLog.FirstConfigReplyIsNotFramed`).
- The drop path of `fairqueue_enqueue` returns with the lock held (examples/fair_queue/fair_queue_helper.h:192-195), so a
  queue that drops a packet is frozen (`FairQueueRuns.DropFreezes`), and some run drops one (`FairQueueDrop.DropHappens`).
- `num_stored` wraps to 0 when the table takes its 65536th flow, after which `clear_entries` is never called again
  (`LoadBalancerRuns.FullForEver`). That happens if and only if a new flow is let in while none of 65535 has expired
  (`LoadBalancerRuns.FillsUp`), and some run comes to it (`LoadBalancerRuns.TableFills`).
- An empty payload encrypts under CCM but does not decrypt (`AesCcm.OpenInvertsSeal`).
- The width of the CCM counter is 15 less the tag length, so with a tag of 16 bytes, and with no shorter one that is
  accepted, the counter of the payload is not incremented (`AesCcm.CountersDiffer`, `AesCcm.SharedKeystream`).
- The set-up of the forwarding table writes through a data pointer that is still null at the first key the table refuses,
  before it looks at the result (examples/l3fwd/l3fwd_em.c:103-107). With the entries the code has that happens if and only
  if there are more flows than entries (`L3fwd.SetupHash`; for any capacity `L3fwd.PopulateManyFlows`).
- The lint merge loses an entry if and only if one inside a range is followed by one before that range
  (`LintMerge.MergeFile`, `LintMerge.LosesEntry`).
- The matchers pass over the second `<` of a shift, the `<` of an operator name, and a `>` that is part of an operator.
  They then return the partner of the next opener (or backward, closer) of the line if that comes before any other mark
  and has a partner. That is the only way in which a match from an angle bracket is not an angle bracket
  (`LintAngles.CloseFindsAngle`, `LintAngles.ReverseFindsAngle`, with the inputs `<<()`, `operator<()` and `f()->`).

Functions that are only computed with (`Crc32.Run`, `SwitchAgent.Handle`, `FairQueueThreads.Produce`, `LoadBalancer.Handle`
and the like) have no row of their own: the rows below state what holds of them.

## Model

| member | source | states |
|---|---|---|
| `Crc32.Tables.EthernetCrc32` | examples/ndpi_stats/ndpi_util.c:958-963 | for every byte string the result is the CRC-32 of section 3.2.9 of IEEE 802.3, computed by a serial register one bit at a time |
| `Crc32.Tables.Crc32` | examples/ndpi_stats/ndpi_util.c:942-956 | from any register value, word loop and byte tail together are one byte step after another over the whole input |
| `Crc32.Tables.InitTables` | examples/ndpi_stats/ndpi_util.c:929-940 | afterwards both tables hold their specified entries |
| `Crc32.Crc32ForByte` | examples/ndpi_stats/ndpi_util.c:916-922 | the loop computes the specified table entry |
| `Crc32.RunIsReference` | examples/ndpi_stats/ndpi_util.c:942-963 | the byte steps from 0 give the reference CRC: the code's register is the complement of the serial one |
| `Crc32.ByteStepIsReference` | examples/ndpi_stats/ndpi_util.c:916-922 | one affine byte step is eight shifts of the reference register, between complements |
| `Crc32.AbsorbAffine` | examples/ndpi_stats/ndpi_util.c:916-922 | a table step is affine: XOR of two registers differs from the sum of their steps by the constant |
| `Crc32.AdvanceLinear` | examples/ndpi_stats/ndpi_util.c:929-940 | advancing a register over zero bytes is XOR-linear for every number of bytes |
| `Crc32.WordEntryClosedForm` | examples/ndpi_stats/ndpi_util.c:929-940 | entry i of slice k is i advanced over 8-k bytes, and the constant part is in slice 0 alone |
| `Crc32.WordSumIsRun` | examples/ndpi_stats/ndpi_util.c:948-953 | XORing eight slice entries is eight affine byte steps |
| `Crc32.WordStep` | examples/ndpi_stats/ndpi_util.c:949-953 | one turn of the word loop, from any register, is eight byte steps over the loaded bytes |
| `Crc32.RunFolded` | examples/ndpi_stats/ndpi_util.c:949-951 | XORing the register into the first bytes of the data is the same as starting from it |
| `Crc32.RunAppend` | examples/ndpi_stats/ndpi_util.c:942-956 | running over a concatenation is running over its parts in turn |
| `Crc32.TrailerResidue` | examples/ndpi_stats/ndpi_util.c:958-963 | a message followed by its own CRC has the CRC 0x2144DF1C, whatever the message |
| `AesField.TableIsTimes` | examples/aes_encrypt/aes.c:151-237 | every column of gf_mul is multiplication by its constant in GF(2^8), section 4.2 of FIPS 197 |
| `AesField.Gf14Linear` | examples/aes_encrypt/aes.c:151-237 | the column for 14 is XOR-linear |
| `AesField.MatrixDiagonal` | examples/aes_encrypt/aes.c:779-957 | a diagonal entry of the product of the two column matrices is the identity |
| `AesField.MatrixSecond` | examples/aes_encrypt/aes.c:779-957 | an entry of that product off the diagonal is zero |
| `AesField.MatrixThird` | examples/aes_encrypt/aes.c:779-957 | likewise for the third entry |
| `AesField.MatrixFourth` | examples/aes_encrypt/aes.c:779-957 | likewise for the fourth entry |
| `AesField.InvSboxInverts` | examples/aes_encrypt/aes.c:109-144 | aes_invsbox undoes aes_sbox on every byte |
| `AesField.SboxIsAffineInverse` | examples/aes_encrypt/aes.c:109-125 | aes_sbox is the affine map of the multiplicative inverse, section 5.1.1 of FIPS 197 |
| `Aes.AddRoundKey` | examples/aes_encrypt/aes.c:626-667 | adds four key words to the state in place, column by column |
| `Aes.SubBytes` | examples/aes_encrypt/aes.c:675-693 | substitutes every byte of the state in place |
| `Aes.InvSubBytes` | examples/aes_encrypt/aes.c:695-713 | applies the inverse substitution in place |
| `Aes.ShiftRows` | examples/aes_encrypt/aes.c:720-743 | rotates the rows in place as specified |
| `Aes.InvShiftRows` | examples/aes_encrypt/aes.c:746-769 | rotates the rows back in place |
| `Aes.ShiftRotatesLeft` | examples/aes_encrypt/aes.c:720-743 | row r of the state rotates left by r places, section 5.1.2 of FIPS 197 |
| `Aes.InvShiftRotatesRight` | examples/aes_encrypt/aes.c:746-769 | row r rotates right by r places, section 5.3.1 |
| `Aes.MixColumns` | examples/aes_encrypt/aes.c:779-867 | replaces every column by its product with the matrix |
| `Aes.InvMixColumns` | examples/aes_encrypt/aes.c:869-957 | replaces every column by its product with the inverse matrix |
| `Aes.MixByteInverts` | examples/aes_encrypt/aes.c:779-957 | InvMixColumns after MixColumns is the identity on every column, byte by byte |
| `Aes.InvRoundsInvert` | examples/aes_encrypt/aes.c:963-1185 | undoing rounds one by one, for any number of rounds and any schedule |
| `Aes.InvCipherInverts` | examples/aes_encrypt/aes.c:963-1185 | the inverse cipher undoes the cipher for every state, schedule and number of rounds, sections 5.1 and 5.3 of FIPS 197 |
| `Aes.InvMixByteInverts` | examples/aes_encrypt/aes.c:779-957 | MixColumns after InvMixColumns is the identity too: the entries of the matrices commute |
| `Aes.CipherInverts` | examples/aes_encrypt/aes.c:963-1185 | the cipher undoes the inverse cipher for every state, schedule and number of rounds |
| `Aes.DecryptUndoesEncrypt` | examples/aes_encrypt/aes.c:963-1185 | on 16-byte blocks decryption undoes encryption for every schedule and every key size 128, 192, 256 |
| `Aes.EncryptUndoesDecrypt` | examples/aes_encrypt/aes.c:963-1185 | and encryption undoes decryption, so the block cipher is a bijection for every schedule |
| `Aes.RoundCountsAgree` | examples/aes_encrypt/aes.c:963-1185 | the two directions take the same number of rounds exactly for key sizes 128 and from 192 on |
| `Aes.Encrypt` | examples/aes_encrypt/aes.c:963-1077 | the in-place rounds compute the cipher of the block |
| `Aes.Decrypt` | examples/aes_encrypt/aes.c:1079-1185 | the in-place rounds compute the inverse cipher of the block |
| `AesKeySchedule.KeySetup` | examples/aes_encrypt/aes.c:579-616 | for 128, 192 and 256 bits the words are the expansion of section 5.2 of FIPS 197; for other sizes nothing is written |
| `AesKeySchedule.SubWordIsSubColumn` | examples/aes_encrypt/aes.c:565-574 | the shifts and sums of SubWord substitute each of the four bytes |
| `AesKeySchedule.RconIsRoundConstant` | examples/aes_encrypt/aes.c:582-584 | the listed constants are the powers of x in GF(2^8) |
| `AesKeySchedule.ScheduledIsSchedule` | examples/aes_encrypt/aes.c:579-616 | the expansion determines the schedule |
| `AesVectors.Vector128` | examples/aes_encrypt/aes.c:579-1077 | with the schedule of the 128-bit key of the example in appendix C.1 of FIPS 197 its plaintext encrypts to its ciphertext, round by round |
| `AesVectors.Vector192` | examples/aes_encrypt/aes.c:579-1077 | likewise for the 192-bit key of appendix C.2 |
| `AesVectors.Vector256` | examples/aes_encrypt/aes.c:579-1077 | likewise for the 256-bit key of appendix C.3 |
| `AesModes.XorBuf` | examples/aes_encrypt/aes.c:241-247 | adds one buffer to a part of another and leaves the rest |
| `AesModes.EncryptCbc` | examples/aes_encrypt/aes.c:252-273 | fails exactly when the length is no multiple of 16, and otherwise writes the CBC ciphertext |
| `AesModes.DecryptCbc` | examples/aes_encrypt/aes.c:300-321 | likewise for the CBC plaintext |
| `AesModes.EncryptCbcMac` | examples/aes_encrypt/aes.c:275-298 | the last CBC block, or the zero block for empty input |
| `AesModes.CbcInverts` | examples/aes_encrypt/aes.c:252-321 | CBC decryption of a CBC encryption is the plaintext, for every number of blocks, section 6.2 of SP 800-38A |
| `AesModes.CbcMacIsLastBlock` | examples/aes_encrypt/aes.c:275-298 | the CBC-MAC is the last block of the CBC ciphertext |
| `AesModes.CbcChains` | examples/aes_encrypt/aes.c:252-273 | each CBC ciphertext block is the cipher of the plaintext block plus the ciphertext block before it, or the iv, section 6.2 of SP 800-38A |
| `AesModes.CbcUnchains` | examples/aes_encrypt/aes.c:300-321 | each CBC plaintext block is the inverse cipher of the ciphertext block, plus the one before it |
| `AesModes.MacSeesOneBlock` | examples/aes_encrypt/aes.c:275-298 | texts that differ in exactly one block have different CBC-MACs, for every key schedule |
| `AesModes.IncrementIv` | examples/aes_encrypt/aes.c:326-336 | the loop with its early exit increments the last size bytes |
| `AesModes.IncrementAddsOne` | examples/aes_encrypt/aes.c:326-336 | an increment adds one to the big-endian number modulo a power of 256 |
| `AesModes.IncrementTailCounts` | examples/aes_encrypt/aes.c:326-336 | the counting bytes go up by one modulo 256^size, the other bytes stay |
| `AesModes.CounterNext` | examples/aes_encrypt/aes.c:340-361 | incrementing the j-th counter block gives the next one |
| `AesModes.LastByteCounts` | examples/aes_encrypt/aes.c:326-336 | below 255 the last byte alone goes up by one |
| `AesModes.EncryptCtr` | examples/aes_encrypt/aes.c:340-367 | byte n of the output, across whole blocks and the partial tail, is the input byte plus byte n mod 16 of the cipher of iv + n/16 modulo 2^128, section 6.5 of SP 800-38A |
| `AesModes.CtrInverts` | examples/aes_encrypt/aes.c:340-367 | CTR is its own inverse |
| `AesCcm.EncryptCcm` | examples/aes_encrypt/aes.c:373-436 | accepts exactly the listed tag lengths, nonces of 7 to 13 bytes and associated data up to 32768 bytes, and writes ciphertext and tag |
| `AesCcm.DecryptCcm` | examples/aes_encrypt/aes.c:440-506 | rejects what is not longer than the tag; otherwise the first bytes of the buffer are the plaintext and authenticity is as specified, with zeros on a mismatch, and the rest of the buffer is untouched |
| `AesCcm.OpenInvertsSeal` | examples/aes_encrypt/aes.c:373-506 | what was encrypted decrypts to the payload, authenticated, exactly when the payload is not empty |
| `AesCcm.OnlySealedIsAuthentic` | examples/aes_encrypt/aes.c:440-506 | a plaintext is authenticated if and only if it encrypts to that very ciphertext |
| `AesCcm.TamperedOpensToZeros` | examples/aes_encrypt/aes.c:440-506 | what no payload encrypts to comes out as zeros, not authenticated |
| `AesCcm.CountersDiffer` | examples/aes_encrypt/aes.c:421-430 | of the tag lengths accepted, payload and tag start from different counters if and only if the tag has fewer than 16 bytes |
| `AesCcm.SharedKeystream` | examples/aes_encrypt/aes.c:421-430 | with a tag of 16 bytes, a ciphertext byte plus the tag byte at its place is the plaintext byte plus the MAC byte |
| `AesCcm.ComputeMac` | examples/aes_encrypt/aes.c:400-416 | the formatted blocks and their CBC-MAC |
| `AesCcmFormat.FormattedInjective` | examples/aes_encrypt/aes.c:516-555 | payload, associated data, nonce and tag length can all be read back from the formatted bytes, for payloads of any length |
| `AesCcmFormat.CountersTellNonce` | examples/aes_encrypt/aes.c:421-430 | under different nonces neither tag nor payload begin with the same counter; under one nonce only a 16-byte tag makes the two the same |
| `AesCcmFormat.PayloadCounterIs` | examples/aes_encrypt/aes.c:507-513 | the counter of the payload is that of the tag with 1 as its last byte, or the same for a 16-byte tag |
| `AesCcmFormat.MacSeesAssoc` | examples/aes_encrypt/aes.c:400-416 | another byte anywhere in the associated data is another MAC |
| `AesCcmFormat.MacSeesPayload` | examples/aes_encrypt/aes.c:400-416 | another byte anywhere in the payload is another MAC |
| `AesCcmFormat.OtherAssocIsRejected` | examples/aes_encrypt/aes.c:440-506 | with a tag of 16 bytes a ciphertext is refused, and opens to zeros, under associated data with another byte anywhere |
| `Msgbuf.Buffer.constructor` | examples/flow_table/msgbuf.c:55-66 | an empty queue with the given room |
| `Msgbuf.Buffer.Grow` | examples/flow_table/msgbuf.c:128-137 | twice the room, the same contents |
| `Msgbuf.Buffer.Read` | examples/flow_table/msgbuf.c:68-76 | the bytes read join the end of the queue, and there is room for the next read |
| `Msgbuf.Buffer.Write` | examples/flow_table/msgbuf.c:92-107 | the bytes accepted leave the front of the queue; a limit beyond the contents fails |
| `Msgbuf.Buffer.Peek` | examples/flow_table/msgbuf.c:139-144 | the first queued byte, or none |
| `Msgbuf.Buffer.Pull` | examples/flow_table/msgbuf.c:146-157 | at most count bytes leave the front, and the array still holds them |
| `Msgbuf.Buffer.Push` | examples/flow_table/msgbuf.c:159-165 | the bytes join the end of the queue, whatever growth it takes |
| `OpenFlow.FramesPartition` | examples/flow_table/sdn.c:147-151 | messages and rest together are the stream |
| `OpenFlow.FramesAreFramed` | examples/flow_table/sdn.c:147-151 | each message is as long as its header says, and the rest holds no whole message |
| `OpenFlow.FramesAppend` | examples/flow_table/sdn.c:147-151 | dividing what is left over together with what comes next is dividing the whole stream |
| `OpenFlow.FlattenFrames` | examples/flow_table/sdn.c:147-151 | a stream of messages divides into those messages if and only if each is as long as its header says |
| `Actions.FlowActionExtract` | examples/flow_table/sdn.c:461-490 | the loop over the action list yields the specified service chain, and ends |
| `Actions.ExtractOfEncoded` | examples/flow_table/sdn.c:461-490 | encoding a list of actions and extracting it gives its OUTPUT and ENQUEUE actions in order, queue numbers modulo 2^16, and DROP exactly for the empty list, section 5.2.4 of OpenFlow 1.0.0 |
| `Actions.ActionBytes` | examples/flow_table/sdn.c:461-490 | an OUTPUT and an ENQUEUE action byte by byte, as openflow.h lays them out |
| `SecureChannel.Datapath.constructor` | examples/flow_table/sdn.c:92-110 | the state after datapath_init: the greeting is queued and nothing else |
| `SecureChannel.Datapath.FlowTableMiss` | examples/flow_table/flow_table.c:191-205 | the packet joins the ring, or is refused when the ring is full |
| `SecureChannel.Datapath.HandleRead` | examples/flow_table/sdn.c:126-253 | reading a chunk dispatches exactly the messages completed by it, in order, and terminates |
| `SecureChannel.Datapath.NextMessage` | examples/flow_table/sdn.c:147-151 | one turn of the loop takes off one whole message or finds none |
| `SecureChannel.Datapath.Dispatch` | examples/flow_table/sdn.c:152-252 | a message changes the state as specified for its type |
| `SecureChannel.Datapath.Answer` | examples/flow_table/sdn.c:153-206 | every reply is pushed as specified, and no other message is |
| `SecureChannel.Datapath.FlowMod` | examples/flow_table/sdn.c:207-239 | the chain is installed and the buffer named is flushed, unless the message names none |
| `SecureChannel.Datapath.HandleWrite` | examples/flow_table/sdn.c:255-301 | a packet is taken from the ring once the switch is ready, and the bytes accepted are sent |
| `SecureChannel.Datapath.TakeFromRing` | examples/flow_table/sdn.c:263-291 | the packet joins its list, and a list without flag is announced and flagged |
| `SecureChannel.Datapath.FlushList` | examples/flow_table/sdn.c:237-238 | the packets of the list named go back in order and the list is emptied |
| `SwitchAgentLog.StepKeepsInvariant` | examples/flow_table/sdn.c:126-301 | every step of packet handler, read and write keeps the whole invariant of the agent |
| `SwitchAgentLog.RunsKeepInvariant` | examples/flow_table/sdn.c:92-301 | every state of every run meets the invariant |
| `SwitchAgentLog.EachPacketOnce` | examples/flow_table/sdn.c:147-301 | each accepted packet is, as often as it was accepted, in exactly one place: returned, on the list of its flow, or on the ring |
| `SwitchAgentLog.ReturnedInOrder` | examples/flow_table/sdn.c:207-239 | the packets of a flow come back in the order of their arrival |
| `SwitchAgentLog.FlagsTellWaiting` | examples/flow_table/sdn_pkt_list.h:61-121 | a flag is set exactly when packets wait, and exactly when the list was announced since it was last flushed |
| `SwitchAgentLog.AnnouncementsInOrder` | examples/flow_table/sdn.c:263-291 | between two PACKET_IN messages for one buffer it was flushed |
| `SwitchAgentLog.AnnouncedAfterHandshake` | examples/flow_table/sdn.c:255-291 | no PACKET_IN before HELLO or FEATURES_REQUEST |
| `SwitchAgentLog.DispatchDependsOnStreamOnly` | examples/flow_table/sdn.c:126-253 | two runs that received the same bytes dispatched the same messages, however the bytes were cut into reads |
| `SwitchAgentLog.RepliesMatchRequests` | examples/flow_table/sdn.c:152-206 | what is sent is a prefix of what is pushed; what is pushed answers the requests one by one, in order, each with its xid |
| `SwitchAgentLog.OutputDividesIntoMessages` | examples/flow_table/sdn.c:78-110 | the bytes for the controller divide into exactly the messages pushed if and only if at every request for the configuration there had been a SET_CONFIG and the latest had 12 bytes |
| `SwitchAgentLog.FirstConfigReplyIsNotFramed` | examples/flow_table/sdn.c:78-80 | the run that reads one request for the configuration and nothing else: its reply says length 3072 and has 12 bytes, and the output does not divide into the messages |
| `SwitchAgentLog.ReadDispatches` | examples/flow_table/sdn.c:126-253 | in every run a read adds its bytes to the stream and dispatches all messages that are complete then |
| `SwitchAgentLog.WriteSends` | examples/flow_table/sdn.c:298-300 | in every run a write sends the next bytes of the messages pushed, as many as are accepted |
| `SwitchAgentMemory.DirectoryFollowsFlowMods` | examples/flow_table/sdn.c:207-239 | in every run the directory has a chain for a flow if and only if a FLOW_MOD with a buffer was dispatched whose match bytes are the five fields of the flow, and the chain is that of the latest such message |
| `SwitchAgentMemory.ConfigFollowsSetConfigs` | examples/flow_table/sdn.c:309-328 | in every run a request for the configuration is answered with the version, length field, flags and miss length of the latest SET_CONFIG, byte by byte, or with the initial ones |
| `SwitchAgentMemory.AnnouncementsAreNumbered` | examples/flow_table/sdn.c:287-290 | in every run the PACKET_IN messages have the xids 1, 2, 3 and so on |
| `SwitchAgentAnswers.AnswersInBytes` | examples/flow_table/sdn.c:152-206 | what each message is answered with, byte by byte; no other message is answered, and HELLO and FEATURES_REQUEST alone make the switch ready |
| `SwitchAgentAnswers.FeaturesBytes` | examples/flow_table/sdn.c:330-358 | the features reply is the listed bytes with the xid and the eight bytes of the id |
| `SwitchAgentAnswers.DescriptionBytes` | examples/flow_table/sdn.c:360-381 | the five texts of the description at their offsets |
| `SwitchAgentAnswers.PacketInBytes` | examples/flow_table/sdn.c:414-442 | a PACKET_IN byte by byte: xid, buffer, port, reason and the first 128 bytes of the packet |
| `SwitchAgentAnswers.FlowModSetsUp` | examples/flow_table/sdn.c:207-239 | a FLOW_MOD with the bytes of a flow, a buffer and an encoded action list enters the chain of the list, or one that drops, sends the packets of the buffer back in order, and leaves all else as it was |
| `SwitchAgentAnswers.NewFlowIsSetUp` | examples/flow_table/sdn.c:207-291 | three steps of a run: a packet of a new flow misses; it waits in a free buffer and is announced once; the FLOW_MOD for the buffer brings it back, enters its chain and frees the buffer |
| `SdnPktList.List.constructor` | examples/flow_table/sdn_pkt_list.h:61-68 | an empty list without flag |
| `SdnPktList.List.Add` | examples/flow_table/sdn_pkt_list.h:70-85 | the linked list grows by one packet at its end |
| `SdnPktList.List.SetFlag` | examples/flow_table/sdn_pkt_list.h:87-90 | only the flag changes |
| `SdnPktList.List.Flush` | examples/flow_table/sdn_pkt_list.h:97-121 | all packets are returned in list order, and the list is empty again |
| `SdnPktList.PacketBuffers.constructor` | examples/flow_table/sdn.c:92-110 | as many empty lists as the table has entries |
| `SdnPktList.PacketBuffers.Add` | examples/flow_table/sdn_pkt_list.h:70-85 | one list grows at its end, and no other list changes |
| `SdnPktList.PacketBuffers.SetFlag` | examples/flow_table/sdn_pkt_list.h:87-90 | one list is flagged, and no other list changes |
| `SdnPktList.PacketBuffers.Flush` | examples/flow_table/sdn_pkt_list.h:97-121 | one list is handed back in order and emptied, and no other list changes |
| `FairQueueRing.EnqueueQid` | examples/fair_queue/fair_queue_helper.h:153-175 | a queue below num_queues, or -1 exactly for a packet without 5-tuple; which queue, the next two rows say |
| `FairQueueRing.QueueIsHash` | examples/fair_queue/fair_queue_helper.h:166-174 | the queue is the hash of protocol, source address, destination address, source port and destination port, in this order, modulo num_queues |
| `FairQueueRing.FlowsSpread` | examples/fair_queue/fair_queue_helper.h:166-174 | for any two different 5-tuples and any number of queues above one there is a hash that puts them into different queues: no field is left out |
| `FairQueueRing.HeadSlot` | examples/fair_queue/fair_queue_helper.h:221-224 | a NULL head slot means empty and nothing else does; otherwise the head slot is the first packet |
| `FairQueueRing.FullTest` | examples/fair_queue/fair_queue_helper.h:192-195 | equal indices with an occupied head mean full and nothing else does |
| `FairQueueRing.StoreHolds` | examples/fair_queue/fair_queue_helper.h:196-197 | storing appends to the queue |
| `FairQueueRing.ClearHolds` | examples/fair_queue/fair_queue_helper.h:253-255 | clearing the head slot removes the first packet |
| `FairQueueRing.HoldsOnce` | examples/fair_queue/fair_queue_helper.h:51-59 | array and indices determine the contents |
| `FairQueue.Ring.constructor` | examples/fair_queue/fair_queue_helper.h:100-112 | an empty queue |
| `FairQueue.Ring.Store` | examples/fair_queue/fair_queue_helper.h:191-200 | stores unless full; a refusal counts a drop and leaves the lock held |
| `FairQueue.Ring.TakeFirst` | examples/fair_queue/fair_queue_helper.h:251-258 | takes the first packet |
| `FairQueue.Scheduler.Enqueue` | examples/fair_queue/fair_queue_helper.h:180-203 | the packet joins the queue of its 5-tuple exactly when it has one and that queue is not full; no other queue changes |
| `FairQueue.Scheduler.GetDequeueQid` | examples/fair_queue/fair_queue_helper.h:211-232 | -1 exactly when all queues are empty; otherwise the first non-empty queue from qid on, and qid moves behind it |
| `FairQueue.Scheduler.Dequeue` | examples/fair_queue/fair_queue_helper.h:237-261 | the first packet of that queue, provided its lock is free; no other queue and no lock changes |
| `FairQueueThreads.StoreKeepsQueue` | examples/fair_queue/fair_queue_helper.h:180-203 | every step of the producer keeps mutual exclusion, the ring, the choice of the consumer and the counters of its queue |
| `FairQueueThreads.TakeKeepsQueue` | examples/fair_queue/fair_queue_helper.h:237-261 | so does every step of the consumer |
| `FairQueueRuns.ScannedSlot` | examples/fair_queue/fair_queue_helper.h:211-232 | what the scan reads without the lock is true of the queue |
| `FairQueueRuns.StepKeepsInvariant` | examples/fair_queue/fair_queue_helper.h:180-261 | every step of either thread keeps the whole invariant |
| `FairQueueRuns.RunsKeepInvariant` | examples/fair_queue/fair_queue_helper.h:180-261 | every state of every interleaving meets the invariant |
| `FairQueueRuns.StepRefinesFifo` | examples/fair_queue/fair_queue_helper.h:180-261 | the queue changes at two steps only: the slot write appends to a queue that has room, and the slot clear removes the first packet of one that is not empty; a packet is dropped exactly where the test meets a full queue |
| `FairQueueRuns.AtRest` | examples/fair_queue/fair_queue_helper.h:200-258 | between calls rx = tx + occupancy, and a queue holds what was stored less what was returned |
| `FairQueueRuns.FlowLeavesInOrder` | examples/fair_queue/fair_queue.c:263-278 | in every interleaving the packets of one 5-tuple leave in arrival order without a gap, and no successful dequeue returns NULL |
| `FairQueueRuns.DropFreezes` | examples/fair_queue/fair_queue_helper.h:192-195 | after a drop the queue stays full, locked and unchanged for ever; a consumer that chooses it returns nothing more, a producer bound for it takes in nothing more |
| `FairQueueDrop.DropHappens` | examples/fair_queue/fair_queue_helper.h:180-203 | a run from the start that comes to this: 16385 packets of one 5-tuple arrive and none is taken |
| `FairQueueRuns.RoundRobinIsFair` | examples/fair_queue/fair_queue_helper.h:211-232 | while a queue stays non-empty no scan fails, and before it is served at most num_queues - 1 queues are, none twice, whatever is enqueued meanwhile |
| `FairQueueServe.ServesNext` | examples/fair_queue/fair_queue_helper.h:211-262 | a call that finds the lock of its queue free runs to its end: it returns the first packet of the first non-empty queue from qid on, and the next scan begins behind that queue |
| `FairQueueServe.NothingToServe` | examples/fair_queue/fair_queue_helper.h:211-246 | when all queues are empty the call returns nothing, and all but the log of scans is as it was |
| `LintMatcher.FindEndOfExpressionInLine` | style/gwclint.py:1386-1461 | the scan of one line forward, angle brackets and operators included |
| `LintMatcher.CloseExpression` | style/gwclint.py:1464-1505 | the scan over lines forward |
| `LintMatcher.FindStartOfExpressionInLine` | style/gwclint.py:1508-1582 | the scan of one line backward, with its skipped characters |
| `LintMatcher.ReverseCloseExpression` | style/gwclint.py:1585-1620 | the scan over lines backward |
| `LintMatcher.OperatorAtEnd` | style/gwclint.py:1412-1414 | the search succeeds exactly when the word operator stands at a word boundary with only white space after it |
| `Brackets.RunIsBalanced` | style/gwclint.py:1386-1461 | the stack comes back to its first bracket exactly on text that is balanced by the grammar |
| `Brackets.PartnerUnique` | style/gwclint.py:1464-1505 | a bracket has at most one partner |
| `LintPartners.ForwardAnswers` | style/gwclint.py:1400-1458 | without its angle brackets the stack of the forward scan moves like a plain bracket stack |
| `LintPartners.BackwardAnswers` | style/gwclint.py:1525-1580 | so does the stack of the backward scan, in the mirror image of the text |
| `LintPartners.CloseFindsPartner` | style/gwclint.py:1464-1505 | from a round, square or curly bracket, in any lines, the match found is the balanced partner, and if none is found there is none |
| `LintPartners.ReverseFindsPartner` | style/gwclint.py:1585-1620 | the same from a closing bracket backward |
| `LintPartners.CloseIsExact` | style/gwclint.py:1464-1505 | a place is returned if and only if it is the partner's |
| `LintPartners.ReverseIsExact` | style/gwclint.py:1585-1620 | likewise backward |
| `LintPartners.ThereAndBack` | style/gwclint.py:1464-1620 | forward leads to a closer if and only if backward leads from it to the opener |
| `LintPartners.CloseThenReverse` | style/gwclint.py:1464-1620 | from the match found the reverse matcher returns to the line and column of the start |
| `LintPartners.OthersFindNothing` | style/gwclint.py:1486-1620 | from a character that is no bracket nothing is found, in either direction |
| `LintAngles.CloseFindsAngle` | style/gwclint.py:1464-1505 | from a < the match, if any, is a > with balanced brackets between, if and only if the < is not passed over with an opener that has a partner as the next mark of its line; in that case the match is that partner |
| `LintAngles.ReverseFindsAngle` | style/gwclint.py:1585-1620 | likewise backward from a >, for those that are part of an operator |
| `LintAngles.ShiftMisleads` | style/gwclint.py:1404-1417 | from the second < of a shift the next bracket pair is taken for a match |
| `LintAngles.OperatorMisleads` | style/gwclint.py:1404-1417 | so it is from the < of operator<() |
| `LintAngles.ArrowMisleads` | style/gwclint.py:1530-1542 | and from the > of f()-> backward |
| `LintArguments.CloseFindsArguments` | style/gwclint.py:1386-1505 | once shifts, arrows and operator names are set aside, in text whose four kinds of brackets are nested and that has no semicolon, the match of a < is the > that closes it, on whatever line |
| `LintArguments.CloseGivesUp` | style/gwclint.py:1386-1505 | it finds nothing if it comes to another closing bracket first, or to a semicolon |
| `LintArguments.ReverseFindsArguments` | style/gwclint.py:1508-1620 | and backward, comparisons between spaces set aside too, the match of that > is the < |
| `LintArguments.ReverseGivesUp` | style/gwclint.py:1508-1620 | and nothing if it comes to another opening bracket first, or to a semicolon |
| `LintNesting.NestingState.constructor` | style/gwclint.py:2198-2222 | both stacks empty |
| `LintNesting.NestingState.UpdatePreprocessor` | style/gwclint.py:2317-2371 | the effect of each directive on both stacks, and none without its #if |
| `LintNesting.NestingState.Update` | style/gwclint.py:2374-2396 | the preprocessor first, then the rest of the line; the previous top is remembered |
| `LintNesting.NestingState.UpdateAll` | style/gwclint.py:5945-5948 | a whole file, line by line: the state the other rows speak of |
| `LintNesting.KindOfDirective` | style/gwclint.py:2338-2357 | a line of white space, a hash sign, white space and a whole word is the directive that word names |
| `LintNesting.DirectiveReads` | style/gwclint.py:2338-2357 | and every line taken for a directive reads like that |
| `LintNesting.DirectivesByWord` | style/gwclint.py:2338-2357 | a line is an #if, an #else or an #endif exactly if it reads as if, ifdef or ifndef, as else or elif, or as endif |
| `LintNesting.ProcessSimulates` | style/gwclint.py:2317-2371 | the stack of the scan that skips branches is the stack itself, or is kept in the outermost entry whose #else was met |
| `LintNesting.WellNestedSkips` | style/gwclint.py:2317-2371 | over well-nested lines, in any state and for any effect of a line, the stack is that of a scan that skips every #else and #elif branch, and pp_stack is as before |
| `LintNesting.WholeFileSkips` | style/gwclint.py:2317-2371 | over any lines of a file, stray directives included, the same holds wherever the scan stands outside the branches |
| `LintNesting.BranchStartsBeforeIf` | style/gwclint.py:2342-2353 | every #else and #elif branch starts from the stack before its #if |
| `LintMerge.MergeFile` | style/run-lint.py:99-129 | always: only entries on changed lines, none twice; with ascending ranges: all of them if and only if no entry in a range is followed by one before it, and then in reverse order; the loop ends |
| `LintMerge.OnChangedLine` | style/run-lint.py:64-76 | an entry is on a changed line exactly if its number is the one word of a line of the diff, or lies between its two words |
| `LintMerge.LaterFilesFirst` | style/run-lint.py:78-88 | the log lists later files before earlier ones |
| `LintMerge.InOrderInStep` | style/run-lint.py:111-129 | non-decreasing line numbers meet that condition |
| `LintMerge.LosesEntry` | style/run-lint.py:113-129 | an input out of step, of which one entry is lost |
| `LintMerge.RunLinter` | style/run-lint.py:90-132 | over all files whose entries are in step with the ranges the log lists exactly those entries, the files last first and each file in order |
| `LintMerge.SelectedExactly` | style/run-lint.py:118-122 | an entry is selected as often as it was reported if it is on a changed line, and not otherwise |
| `LoadBalancer.DirectionsShareKey` | examples/load_balancer/load_balancer.c:506-518 | a packet from a client and an answer from any backend have one key |
| `LoadBalancer.KeyTellsFlow` | onvm/onvm_nflib/onvm_flow_table.h:170-189 | two packets from clients have one key exactly if client and protocol agree and, for TCP and UDP, the two ports up to order |
| `LoadBalancer.Balancer.constructor` | examples/load_balancer/load_balancer.c:596-615 | an empty table |
| `LoadBalancer.Balancer.CallbackHandler` | examples/load_balancer/load_balancer.c:476-485 | the clock moves on, last_cycles follows it once more than the expiry time has passed, and the table stays |
| `LoadBalancer.Balancer.ClearEntry` | examples/load_balancer/load_balancer.c:394-405 | an expired entry is removed and counted down, another is marked active |
| `LoadBalancer.Balancer.ClearEntries` | examples/load_balancer/load_balancer.c:381-409 | in any order of iteration exactly the expired entries are removed |
| `LoadBalancer.Balancer.TableAddEntry` | examples/load_balancer/load_balancer.c:415-443 | room is made, and the flow is refused or given the next backend |
| `LoadBalancer.Balancer.TableLookupEntry` | examples/load_balancer/load_balancer.c:450-474 | a known flow is touched, an unknown one added; the backend is below server_count |
| `LoadBalancer.Balancer.PacketHandler` | examples/load_balancer/load_balancer.c:487-567 | the verdict and the rewritten packet |
| `LoadBalancerRuns.RunsKeepInvariant` | examples/load_balancer/load_balancer.c:364-567 | in every state of every run backends are below server_count, and num_stored is the table size modulo 2^16 |
| `LoadBalancerRuns.StepKeepsFlows` | examples/load_balancer/load_balancer.c:364-474 | a flow that stays keeps backend and client; a flow that goes had expired |
| `LoadBalancerRuns.FlowKeepsBackend` | examples/load_balancer/load_balancer.c:450-531 | as long as a flow is in the table it keeps its backend and its client |
| `LoadBalancerRuns.BusyFlowStays` | examples/load_balancer/load_balancer.c:364-474 | in every run a flow that is seen within the expiry time is never evicted, and keeps its backend and its client |
| `LoadBalancerRuns.PacketsFollowFlow` | examples/load_balancer/load_balancer.c:506-553 | packets of a known flow go to its backend, and back to the client whose packet began it; nothing else of the packet changes, so the masked address is restored or replaced |
| `LoadBalancerRuns.LetThrough` | examples/load_balancer/load_balancer.c:500-526 | a packet is let through if and only if it is IPv4, both addresses are non-zero, and its flow is known or there are fewer than 65536 flows and the table has space |
| `LoadBalancerRuns.IdleFlowsGo` | examples/load_balancer/load_balancer.c:364-443 | the packet of a new flow removes another flow if and only if there are 65535 flows and that one has not been seen for expire_time seconds |
| `LoadBalancerRuns.ConnectionKeepsBackend` | examples/load_balancer/load_balancer.c:450-553 | over a whole run: while a flow is seen within the expiry time, all its packets from the client go to the backend chosen for the first one, and all answers go back to that client |
| `LoadBalancerRuns.BackendsBalanced` | examples/load_balancer/load_balancer.c:423-436 | until the table first fills, the flows of any two backends differ by at most one |
| `LoadBalancerRuns.FullForEver` | examples/load_balancer/load_balancer.c:423-433 | once all 65536 entries are taken no entry is ever cleared again and no flow is added |
| `LoadBalancerRuns.FillsUp` | examples/load_balancer/load_balancer.c:423-437 | the table becomes full if and only if a new flow is let in while none of 65535 has expired |
| `LoadBalancerRuns.TableFills` | examples/load_balancer/load_balancer.c:415-443 | a run from the start that fills the table to any size: as many clients, all at one time |
| `L3fwd.KeysRepeat` | examples/l3fwd/l3fwd_em.c:76-102 | two generated keys are equal if and only if their numbers agree modulo 2^26 |
| `L3fwd.PacketOfFlow` | examples/l3fwd/l3fwd_em.c:76-102 | which packets, field by field, have the key of flow 4 * (a + 256 * b + 65536 * c) + r |
| `L3fwd.PacketOfRoute` | examples/l3fwd/l3fwd_em.c:30-35 | which packets, field by field, have the key of route r |
| `L3fwd.PopulateManyFlows` | examples/l3fwd/l3fwd_em.c:69-112 | for a table of any capacity: it fails if and only if there are more flows and more keys than entries; otherwise the table holds the key of every flow with the port of its route and nothing else |
| `L3fwd.PopulateFewFlows` | examples/l3fwd/l3fwd_em.c:46-65 | the four routes have four keys, each with its own port |
| `L3fwd.SetupHash` | examples/l3fwd/l3fwd_em.c:132-154 | with the entries the code has, set-up succeeds if and only if there are no more flows than entries; then the keys are pairwise distinct and there are as many as flows |
| `L3fwd.EmGetIpv4DstPort` | examples/l3fwd/l3fwd_em.c:115-130 | in either table the key of flow i leads to port i mod 4 and the key of route i to port i, another key to port 1, and a packet that is not IPv4 to its own port |

## Left out

- Sockets, poll, printing, statistics, argument parsing, signal handling and start-up: what a read delivers, how many bytes
  a write accepts, the clock, the slot a hash table picks, and whether a table has space or how much, are parameters.
- rte_ring, rte_hash, onvm_ft and onvm_flow_dir: a FIFO and finite maps; a hash function is any deterministic function.
- L3fwd.PopulateManyFlows: the table refuses a new key exactly when it is full, while rte_hash may refuse one earlier.
- Memory allocation failure, and the size of the CCM scratch buffer: buffers are as large as their contents.
- Integer overflow of lengths and of 64-bit packet counters: both are mathematical integers; 16-bit num_stored and the byte
  cuts of the key generator are modelled with their wrap-around.
- Conformance of CCM to SP 800-38C: the formatting departs from it, so what is proved is round trip, authenticity, and that
  the formatting is injective.
- AES key schedule words past the last round: aes_key_setup leaves them as they are, and the cipher does not read them.
- The second copy of the cipher in examples/aes_decrypt.
- SecureChannel.Datapath.HandleRead: a header length of 0 makes the loop stand still, one of 1 to 7 cuts the stream inside a
  header, and bodies shorter than a message type needs are read beyond their end, so lengths are a precondition; so are a
  buffer id below 1024 and well-formed actions in a FLOW_MOD.
- SecureChannel.Datapath.HandleWrite: the packet buffer table is taken to have a slot.
- Actions.FlowActionExtract: action lengths that are no positive multiple of 8 are a precondition, and the capacity of a
  service chain, which is checked by code outside this model, is unlimited.
- msgbuf_read_all, msgbuf_write_all and msgbuf_clear: nothing in the agent calls them.
- FairQueue.Scheduler.Enqueue: a held lock makes the call spin for ever, so a free lock of the queue chosen is a
  precondition; the same holds for FairQueue.Scheduler.Dequeue. FairQueueThreads models the spinning.
- FairQueue.Ring.constructor: all slots start as NULL, which setup_fairqueue does not ensure.
- Liveness of the spin locks, and memory orders weaker than sequential consistency, in FairQueueThreads.
- Matches from an angle bracket in text that is not nested: there the treatment of < and > is heuristic, and only what a
  match guarantees is proved, not when there is one.
- The other checks of gwclint.py, which are regular expressions, and what a line does to the nesting stack: any function.
- LintNesting.NestingState.UpdatePreprocessor: stacks are values, so the deep copies and their aliasing are not modelled.
- LintMerge.MergeFile: line numbers are already parsed.
- LoadBalancer.Balancer.PacketHandler: checksums and the failure of the MAC address lookup, which ends the program.
- Byte order of packet fields: addresses and ports are the numbers that the code reads from the headers.
- nDPI flow trees and protocol detection, load_generator, flow_tracker and the simple forwarding examples: they depend on
  code that is not part of this model or would add only easy members.
