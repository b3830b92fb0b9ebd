# Pico W BLE-to-USB HID bridge: report queue, USB dispatch and descriptors

This project models the part of the bridge firmware where HID reports pass from the
wireless side to the USB host. It has four parts:

- **The report queue** (`Common.c`, `Common.h`). This is a ring of 32 report records.
  - It keeps one slot free, so it holds at most 31 records.
  - The wireless core pushes records into it and the USB core takes them out.
  - Enqueue, Dequeue, Peek, Advance, Clear and Init are methods of the class
    `Common.HidReportQueue`. The class keeps `head`, `tail` and `max` as fields and the
    storage in an `array`.
  - Each method is proved against a value-level specification: `QueueState`, its
    `Contents` (the records from head to tail, oldest first), and the functions
    `Enqueued`, `Dequeued`, `Front` and `Cleared`.
- **The dispatch step of the USB core** (`send_hid_report` / `hid_task` in `main.c`).
  - Each pass peeks the oldest record into a static buffer.
  - When the bus is suspended, it asks for remote wakeup.
  - Otherwise it hands the record to the endpoint, and drops the record only when the
    stack accepts it.
  - The USB stack's answers are inputs. The calls the firmware makes into the stack are
    recorded in order.
  - The central property is "nothing lost, nothing duplicated". It holds over any
    interleaving of pushes and passes: the records delivered, followed by the records
    still queued, equal the records queued at the start followed by the pushes the queue
    admitted.
- **The reinitialisation block** of the main loop and the GET_REPORT callback.
- **The USB descriptors** (`usb_descriptors.c`).
  - Choice of report descriptor: the one received over BLE, or the built-in one.
  - The configuration descriptor, built field by field into a 34-byte static buffer with
    a back-patched `wTotalLength`. It is proved equal to a concatenation of four
    records, and its `bLength` walk, its little-endian length fields and its endpoint
    are proved.
  - The string descriptor callback, which writes a 33-word static buffer.

Modules:

- `CommonDefs` (`common_defs.dfy`): widths, constants and the report record.
- `Common` (`common.dfy`): the queue.
- `Bridge` (`bridge.dfy`): the USB core's main loop and HID task.
- `UsbDescriptors` (`usb_descriptors.dfy`): the descriptor callbacks.
- `Wrappers` (`wrappers.dfy`): `Option`.

Two details of the firmware that the model keeps as written:

- `send_hid_report` passes report id 0 (main.c:172), not the record's `report_id`.
- The configuration descriptor's `bmAttributes` is the remote-wakeup bit (0x20) alone
  (usb_descriptors.c:174). The macro form in the disabled block (usb_descriptors.c:131)
  also sets bit 7.

## Model

| member | source | states |
|---|---|---|
| CommonDefs.ZeroReport | src_fw/picow_ble_usb_hid_bridge/Common.c:6 | The statically allocated queue storage starts as records whose id, length and every payload byte are zero |
| CommonDefs.KindIndex | src_fw/picow_ble_usb_hid_bridge/Common.h:24-27 | Every queue kind indexes the array of control blocks within its bound `CMN_QUE_KIND_NUM` = 1 |
| Common.WindowLength | src_fw/picow_ble_usb_hid_bridge/Common.c:18-32 | The number of records between head and tail is `(tail - head) mod 32`, always fewer than the 32 slots |
| Common.WindowPush | src_fw/picow_ble_usb_hid_bridge/Common.c:26-32 | Storing at `tail` and advancing `tail` modulo 32 (not onto `head`) appends exactly that record at the newest end, across the wrap as well |
| Common.WindowPop | src_fw/picow_ble_usb_hid_bridge/Common.c:61-67 | The record at `head` is the oldest one; advancing `head` modulo 32 removes exactly it and keeps the order of the rest |
| Common.ContentsBounds | src_fw/picow_ble_usb_hid_bridge/Common.c:18-20 | At most 31 records are resident; the queue is empty iff `head == tail`; once initialised it is full iff 31 records are resident |
| Common.Initialise | src_fw/picow_ble_usb_hid_bridge/Common.c:156-162 | Init sets the capacity to 32 and leaves the indices, the storage and the contents as they were |
| Common.Enqueued | src_fw/picow_ble_usb_hid_bridge/Common.c:10-40 | On a full queue nothing changes (the new record is dropped); otherwise the contents become the old contents followed by the record |
| Common.EnqueueAppends | src_fw/picow_ble_usb_hid_bridge/Common.c:23-32 | The concrete store-then-advance step yields a well-formed queue whose contents are the old ones plus the record |
| Common.Front | src_fw/picow_ble_usb_hid_bridge/Common.c:95 | The record copied out from `head` is the oldest record of the contents |
| Common.Dequeued | src_fw/picow_ble_usb_hid_bridge/Common.c:43-74 | On an empty queue nothing changes; otherwise the oldest record is removed and the rest keep their order; capacity unchanged |
| Common.DequeueDrops | src_fw/picow_ble_usb_hid_bridge/Common.c:67 | The concrete head advance yields a well-formed queue whose contents are the old ones without the first |
| Common.Cleared | src_fw/picow_ble_usb_hid_bridge/Common.c:130-141 | Clearing empties the queue whatever it held, leaving storage and capacity untouched |
| Common.EnqueueAllDropsOnFull | src_fw/picow_ble_usb_hid_bridge/Common.c:18-34 | A burst of pushes admits exactly the first `min(n, free room)` records, in order, and drops the rest |
| Common.AcceptedUpToRoom | src_fw/picow_ble_usb_hid_bridge/Common.c:18-34 | The number of successful pushes in a burst is `min(n, free room)` |
| Common.AppendsUpToRoom | src_fw/picow_ble_usb_hid_bridge/Common.c:18-34 | After a burst the contents are the old contents followed by the admitted prefix of the burst |
| Common.RoomAfterPush | src_fw/picow_ble_usb_hid_bridge/Common.c:32 | A successful push uses up exactly one slot of free room |
| Common.ThirtyTwoPushesIntoEmpty | src_fw/picow_ble_usb_hid_bridge/Common.c:18-34 | Into an empty queue 31 pushes succeed and fill it; the 32nd fails and changes nothing |
| Common.DrainIsPrefix | src_fw/picow_ble_usb_hid_bridge/Common.c:51-68 | n successive dequeues return the first `min(n, size)` records in insertion order |
| Common.FifoRoundTrip | src_fw/picow_ble_usb_hid_bridge/Common.c:10-74 | Pushing up to 31 records into an empty queue and dequeuing as many returns them unchanged and in the same order |
| Common.HidReportQueue.constructor | src_fw/picow_ble_usb_hid_bridge/Common.c:5-6 | The static control block and storage start zeroed: empty, capacity 0, every slot the zero record |
| Common.HidReportQueue.Init | src_fw/picow_ble_usb_hid_bridge/Common.c:156-162 | Sets the capacity to 32, nothing else |
| Common.HidReportQueue.Enqueue | src_fw/picow_ble_usb_hid_bridge/Common.c:10-40 | Returns false iff the queue was full (and then changes nothing); otherwise copies the record into slot `tail`, advances `tail` modulo the capacity, touches no other slot, and appends the record to the contents |
| Common.HidReportQueue.Dequeue | src_fw/picow_ble_usb_hid_bridge/Common.c:43-74 | Returns false iff empty (destination untouched); otherwise yields the oldest record and removes it |
| Common.HidReportQueue.Peek | src_fw/picow_ble_usb_hid_bridge/Common.c:77-107 | Returns false iff empty; otherwise yields the oldest record; modifies nothing, so two peeks in a row yield the same record |
| Common.HidReportQueue.Advance | src_fw/picow_ble_usb_hid_bridge/Common.c:110-127 | Has the same effect on the queue as a successful dequeue; no effect when empty |
| Common.HidReportQueue.Clear | src_fw/picow_ble_usb_hid_bridge/Common.c:130-141 | Sets both indices to 0, keeps the capacity, and leaves the queue empty |
| Bridge.Dispatch | src_fw/picow_ble_usb_hid_bridge/main.c:156-181 | A pass succeeds iff a record is queued, the bus is not suspended, the endpoint is ready and the stack accepts it, and only then is that record removed; remote wakeup is requested iff a record is waiting and the bus is suspended; a pass makes at most one call, and only a remote wakeup or a send; a transmission is attempted iff a record is queued, the bus is awake and the endpoint is ready (even if the stack then rejects it), and it carries the oldest record's payload and length under id 0 |
| Bridge.DispatchLosesNothing | src_fw/picow_ble_usb_hid_bridge/main.c:170-177 | After one pass, the delivered records followed by the queue equal the queue before; the queue changes only with an accepted transmission of exactly its oldest record |
| Bridge.RunLosesNothing | src_fw/picow_ble_usb_hid_bridge/main.c:156-181 | Over any interleaving of pushes and passes, delivered followed by still queued equals initially queued followed by admitted: in order, no loss, no duplication |
| Bridge.SuspendedPassesRetry | src_fw/picow_ble_usb_hid_bridge/main.c:162-168 | While the bus stays suspended every pass peeks the same record, requests one remote wakeup and removes nothing |
| Bridge.Reinit | src_fw/picow_ble_usb_hid_bridge/main.c:103-112 | A set request is cleared and the queue is flushed whatever it held; the calls are disconnect, the 100 ms delay and connect when mounted, and connect alone otherwise; a clear request does nothing |
| Bridge.AfterReinitOnlyNewRecords | src_fw/picow_ble_usb_hid_bridge/main.c:109-111 | After the flush, dequeues find nothing, and everything delivered later was pushed after the flush |
| Bridge.LoopPass | src_fw/picow_ble_usb_hid_bridge/main.c:98-118 | When no push lands between the flush and the HID task, a loop pass that services a reinit request sends nothing and leaves the queue empty |
| Bridge.FlushThenPushesSendsOnlyNew | src_fw/picow_ble_usb_hid_bridge/main.c:103-116 | When the wireless core pushes records between the flush and the HID task's peek, that task sends only the first of those pushes, never a record queued before the flush; with no push it sends nothing |
| Bridge.GetReportCallback | src_fw/picow_ble_usb_hid_bridge/main.c:212-222 | GET_REPORT always answers with length 0 (the stack stalls), whatever is asked |
| Bridge.UsbDevice.constructor | src_fw/picow_ble_usb_hid_bridge/main.c:46 | The reinit request starts clear and the static report buffer zeroed |
| Bridge.UsbDevice.SendHidReport | src_fw/picow_ble_usb_hid_bridge/main.c:156-181 | The queue, static buffer and stack calls change exactly as the dispatch step says, and the result is the step's success |
| Bridge.UsbDevice.HidTask | src_fw/picow_ble_usb_hid_bridge/main.c:187-194 | One HID task is one dispatch step with its result discarded |
| Bridge.UsbDevice.ReinitCheck | src_fw/picow_ble_usb_hid_bridge/main.c:103-112 | Flag, queue and stack calls change exactly as the reinitialisation block says; the report buffer is untouched |
| Bridge.UsbDevice.MainLoopPass | src_fw/picow_ble_usb_hid_bridge/main.c:100-117 | One loop pass is the reinitialisation block followed by the HID task |
| UsbDescriptors.LoHi | src_fw/picow_ble_usb_hid_bridge/usb_descriptors.c:196-200 | Splitting a 16-bit value into its low and high bytes and reading them back little-endian gives the value |
| UsbDescriptors.Le16OfU16 | src_fw/picow_ble_usb_hid_bridge/usb_descriptors.c:196-200 | Writing back a little-endian pair read from memory reproduces the same two bytes |
| UsbDescriptors.ReportDescriptorCallback | src_fw/picow_ble_usb_hid_bridge/usb_descriptors.c:96-109 | The answer is the built-in descriptor, or the BLE one, and the BLE one only when the application is ready; when ready and a BLE descriptor exists, it is that one |
| UsbDescriptors.ReportDescLen | src_fw/picow_ble_usb_hid_bridge/usb_descriptors.c:157-163 | The advertised length is the BLE descriptor's length when ready and non-zero, otherwise the built-in descriptor's size |
| UsbDescriptors.NotReadyIgnoresExternal | src_fw/picow_ble_usb_hid_bridge/usb_descriptors.c:102-107 | Before the application is ready, neither the descriptor served nor the length advertised depends on what BLE holds |
| UsbDescriptors.AdvertisedLengthMatchesReturned | src_fw/picow_ble_usb_hid_bridge/usb_descriptors.c:159-163 | When BLE's length agrees with its data, the length advertised in the configuration equals the length of the report descriptor served |
| UsbDescriptors.SelectionRulesDiffer | src_fw/picow_ble_usb_hid_bridge/usb_descriptors.c:102-107 | The two selections use different tests: a ready application with BLE data whose length reads 0 is served the BLE data but advertises the built-in size |
| UsbDescriptors.ConfigurationHeaderWith | src_fw/picow_ble_usb_hid_bridge/usb_descriptors.c:166-177 | The configuration record is 9 bytes, with bLength equal to its size and the configuration type |
| UsbDescriptors.ConfigurationHeader | src_fw/picow_ble_usb_hid_bridge/usb_descriptors.c:166-177 | The configuration record with a total length is 9 bytes, with bLength equal to its size and the configuration type |
| UsbDescriptors.InterfaceDescriptor | src_fw/picow_ble_usb_hid_bridge/usb_descriptors.c:180-190 | The interface record is 9 bytes, with bLength equal to its size and the interface type |
| UsbDescriptors.HidDescriptor | src_fw/picow_ble_usb_hid_bridge/usb_descriptors.c:194-200 | The HID class record is 9 bytes, with bLength equal to its size and the HID type |
| UsbDescriptors.WithTransferType | src_fw/picow_ble_usb_hid_bridge/usb_descriptors.c:211 | Assigning the 2-bit `xfer` bitfield sets the low two bits of bmAttributes and keeps the upper six |
| UsbDescriptors.TransferTypeField | src_fw/picow_ble_usb_hid_bridge/usb_descriptors.c:211 | On an attributes byte whose upper bits are clear, the assignment yields exactly the transfer type |
| UsbDescriptors.EndpointDescriptorWith | src_fw/picow_ble_usb_hid_bridge/usb_descriptors.c:208-213 | The endpoint record is 7 bytes, with bLength equal to its size and the endpoint type |
| UsbDescriptors.EndpointDescriptor | src_fw/picow_ble_usb_hid_bridge/usb_descriptors.c:208-213 | The interrupt endpoint record is 7 bytes, with bLength equal to its size and the endpoint type |
| UsbDescriptors.ConfigurationDescriptor | src_fw/picow_ble_usb_hid_bridge/usb_descriptors.c:137 | The whole configuration descriptor fills exactly the 34-byte buffer |
| UsbDescriptors.ConfigurationWalk | src_fw/picow_ble_usb_hid_bridge/usb_descriptors.c:165-214 | Following the bLength bytes from offset 0 visits records at 0, 9, 18 and 27 and ends exactly at the end; their types are configuration, interface, HID and endpoint |
| UsbDescriptors.ConfigurationFields | src_fw/picow_ble_usb_hid_bridge/usb_descriptors.c:166-213 | Each record sits in its own slice, and the fixed fields hold their constants (one interface, configuration 1, remote wakeup, 250 x 2 mA, class HID, one report descriptor, interrupt transfer, interval 1) |
| UsbDescriptors.ConfigurationLengths | src_fw/picow_ble_usb_hid_bridge/usb_descriptors.c:194-212 | wTotalLength (little-endian) equals the descriptor's length and the endpoint record's end; bcdHID reads 0x0111; wDescriptorLength reads the report descriptor length; wMaxPacketSize reads the packet size |
| UsbDescriptors.BuilderWritesDescriptor | src_fw/picow_ble_usb_hid_bridge/usb_descriptors.c:165-214 | The builder's five writes, including the back-patch of the total length and the bitfield update, yield the four-record descriptor from any prior buffer contents whose endpoint attribute bits above the transfer type are clear |
| UsbDescriptors.PatchTotalLength | src_fw/picow_ble_usb_hid_bridge/usb_descriptors.c:203-206 | Patching bytes 2-3 of a header written with stale length bytes gives the header carrying length 34 |
| UsbDescriptors.AssignEndpoint | src_fw/picow_ble_usb_hid_bridge/usb_descriptors.c:208-213 | Writing the endpoint record over a zero-upper-bit attributes byte gives the interrupt endpoint record |
| UsbDescriptors.ConfigDescriptorBuffer.constructor | src_fw/picow_ble_usb_hid_bridge/usb_descriptors.c:139 | The static 34-byte buffer starts zeroed |
| UsbDescriptors.ConfigDescriptorBuffer.Write16 | src_fw/picow_ble_usb_hid_bridge/usb_descriptors.c:196 | An unaligned 16-bit write stores the value little-endian in two bytes and touches nothing else |
| UsbDescriptors.ConfigDescriptorBuffer.WriteConfigurationHeader | src_fw/picow_ble_usb_hid_bridge/usb_descriptors.c:166-177 | Writes the configuration record's fields at the given offset, leaving its length bytes as they were and the rest of the buffer untouched |
| UsbDescriptors.ConfigDescriptorBuffer.WriteInterfaceDescriptor | src_fw/picow_ble_usb_hid_bridge/usb_descriptors.c:180-190 | Writes exactly the interface record at the given offset |
| UsbDescriptors.ConfigDescriptorBuffer.WriteHidDescriptor | src_fw/picow_ble_usb_hid_bridge/usb_descriptors.c:194-200 | Writes exactly the HID class record at the given offset, and the cursor ends 9 bytes later |
| UsbDescriptors.ConfigDescriptorBuffer.WriteEndpointDescriptor | src_fw/picow_ble_usb_hid_bridge/usb_descriptors.c:208-213 | Writes the endpoint record, assigning only the transfer-type bits of bmAttributes |
| UsbDescriptors.ConfigDescriptorBuffer.ConfigurationCallback | src_fw/picow_ble_usb_hid_bridge/usb_descriptors.c:146-219 | The bound check always passes, and the buffer afterwards holds exactly the four-record descriptor carrying the selected report length and the packet size |
| UsbDescriptors.AsciiBytes | src_fw/picow_ble_usb_hid_bridge/usb_descriptors.c:238-239 | ASCII text is stored as one byte per character, with the same code |
| UsbDescriptors.StringHeader | src_fw/picow_ble_usb_hid_bridge/usb_descriptors.c:282 | The header word's low byte is the descriptor length in bytes, `2 * count + 2`, and its high byte is the string type |
| UsbDescriptors.CappedCount | src_fw/picow_ble_usb_hid_bridge/usb_descriptors.c:270-272 | The character count is the string's length capped at 32 |
| UsbDescriptors.StringDescriptor | src_fw/picow_ble_usb_hid_bridge/usb_descriptors.c:247-285 | A descriptor exists iff the index is below 4; it is at most 33 words, and its header's length byte counts all of its bytes |
| UsbDescriptors.LanguageIdDescriptor | src_fw/picow_ble_usb_hid_bridge/usb_descriptors.c:252-255 | Index 0 yields one word, the language id 0x0409 (US English), in a 4-byte descriptor |
| UsbDescriptors.TextDescriptorWidensAscii | src_fw/picow_ble_usb_hid_bridge/usb_descriptors.c:261-278 | Manufacturer and product strings are widened character by character to UTF-16 units, capped at 32 |
| UsbDescriptors.UnknownIndexRefused | src_fw/picow_ble_usb_hid_bridge/usb_descriptors.c:265 | Any index of 4 or more yields no descriptor |
| UsbDescriptors.StringDescriptorBuffer.constructor | src_fw/picow_ble_usb_hid_bridge/usb_descriptors.c:243 | The static 33-word buffer starts zeroed |
| UsbDescriptors.StringDescriptorBuffer.StringCallback | src_fw/picow_ble_usb_hid_bridge/usb_descriptors.c:247-285 | Answers iff the index is known. It then writes exactly that descriptor at the start of the buffer and leaves the remaining words as they were. An unknown index leaves the buffer untouched |

## Left out

- Spinlocks and the two cores running at once are not modelled. Each queue operation is
  atomic under the spinlock, so a run of the system is modelled as a sequence of whole
  operations (`Bridge.Event`). A dispatch pass (`Bridge.Event.Pass`) takes the lock
  twice, for the peek (main.c:162) and for the advance (main.c:174). A push from the
  wireless core can land between the two. Treating the pass as one step is still sound,
  because a push writes only slot `tail` and `tail`. It never touches `head` or the
  peeked slot, since a push onto a full queue is refused.
- The TinyUSB stack is not part of this model. `tud_suspended`, `tud_hid_ready`,
  `tud_hid_report`'s result and `tud_mounted` are inputs. `tud_remote_wakeup`,
  `tud_hid_report`, `tud_disconnect`, `board_delay` and `tud_connect` are recorded as
  calls.
- `tud_task`, `led_blinking_task`, the board and stdio bring-up and core 1's launch are
  not modelled. They do not touch the queue. The descriptor callbacks that the stack's
  task invokes are modelled as separate methods.
- The wireless side is not modelled: the BLE producer, how `g_usb_reinit_request` gets
  set, and `is_ble_app_state_ready` / `get_ble_hid_report_descriptor_*`. The flag and the
  BLE descriptor are inputs.
- `board_usb_get_serial` is an input: the serial string, at most 32 UTF-16 units.
- The built-in report descriptor bytes (`desc_hid_report`) are the parameter `builtin`.
- `CFG_TUD_HID_EP_BUFSIZE` is the parameter `maxPacketSize`. Both come from headers that
  are not part of this model.
- The device descriptor callback is not modelled.
- `tud_hid_set_report_cb`, `tud_hid_report_complete_cb` and the mount and suspend
  callbacks are not modelled. Their bodies only discard their arguments.
- The queue-kind argument is not modelled: only the HID report queue exists
  (`CMN_QUE_KIND_NUM` is 1). The `switch` over the kind, with its unreachable default,
  is folded into the one queue.
- `Common.HidReportQueue.Enqueue` requires the queue to be initialised. Before
  `CMN_Init`, `max` is 0 and the C code would take a remainder by zero.
- `Common.Next` uses the constant 32 where the code uses `% max`. The methods compute
  `% max` and prove that `max` is 32 at that point.
- `Common.HidReportQueue.Dequeue`, `Peek` and `Advance` do not require
  initialisation. On an uninitialised queue `head == tail`, so the code takes the empty
  branch before any `% max`.
- `UsbDescriptors.StringDescriptorBuffer.StringCallback` ignores `langid`, as the code
  does.
- `UsbDescriptors.ConfigDescriptorBuffer.ConfigurationCallback` ignores `index`, as the
  code does.
- `UsbDescriptors.ConfigDescriptorBuffer.ConfigurationCallback` does not model the bit
  layout of `bmAttributes`. The `xfer` bitfield store is modelled as replacing the low
  two bits of the byte. The class keeps the invariant that the upper bits, which only
  this store touches, stay clear.
- `UsbDescriptors.ConfigDescriptorBuffer.ConfigurationCallback` does not model the
  `TU_ASSERT` failure path. It is proved never to fire, because the cursor ends exactly
  at the end of the buffer.
- The record's `report_id` is carried through the queue but never sent (see above).
- `Bridge.LoopPass` and `Bridge.UsbDevice.MainLoopPass` run the reinitialisation block
  and the HID task back to back, with no push from the wireless core in between. The
  case with pushes in between is stated separately by
  `Bridge.FlushThenPushesSendsOnlyNew`.
