# Firmware transfer, socket and radio protocols: a verified model

This project models the protocol code of the controller firmware and its host tools, and proves what that
code keeps over whole runs. Each component exists twice. Step functions on values say what one
uninterruptible piece of code does; classes and loops in the code's own form are proved equal to them; and
the theorems are about every run of the step functions, with losses, flash errors, preemption and racing
calls chosen freely.

| files | subject |
|---|---|
| Bytes, BitBytes, Wrappers | bytes, wire integers, options |
| Crc16 | CRC16-CCITT, byte-wise against the bit-serial register |
| FirmwareImage | the host tool's check of an image file |
| UpgradeLock, Flash, UdpFirmware, SdoDownload, SdoReplies, UpgradeSystem | the upgrade lock, slot1, the UDP firmware library, the CANopen download and what its answers mean, and all upgrade channels interleaved |
| UdpHost, UdpTransfer, UdpDelivery, UdpLoss, UdpKeyhash | the go-back-N sender; host, network and device together; deliveries that complete; runs that lose the image; images of a foreign key |
| W5500Fifo, W5500Table, W5500Invariant, W5500Calls, W5500Runs, W5500Close, W5500Datagram, W5500Orphans, W5500Leaks, W5500Connect, W5500Service, W5500Driver | the socket table of the W5500 driver: hardware ownership, backlogs, reference counts, what each call and the worker do, close() racing calls, and runs that go wrong |
| W5500Ring, W5500Tx, W5500Rx | its 2 KiB rings behind free-running 16-bit pointers |
| Xxtea, XxteaVector, RadioCrypt, RadioLink, Rf24 | the radio cipher, counter inference, retransmission |
| Cbor, CborValues | the CBOR encoder and decoder of the SMP tool; what they accept |
| CanDevice, CanTransfer, CanLoss, CanReplies, CanKeyhash | CAN flow control between host tool and device; runs that lose the image; what the device's answers mean under any traffic; the key hash check |
| BootWait | the bootloader's wait on a wrapping millisecond clock |
| FontInstall | erase-then-program installation of the display font |

`dafny verify dfyconfig.toml` checks everything.

## What the proofs found

- A second write of 1 to 0x1F51 after a confirmation releases the upgrade lock, although the comment there says
  that it is held until the reboot; a UDP session can then erase the confirmed image
  (`UpgradeSystem.ConfirmedImageCanBeLost`; exact condition in `UpgradeSystem.ControlWriteAfterConfirmation`).
- FW_END (UDP) and CONFIRM (CAN) do not look at the result of the final flush, and FW_START and START not at that of
  the erase. A host can report success with the image not in the flash: over CAN for every image
  (`CanLoss.SuccessOnAnEmptyFlash`; with a failed erase, where writes do not erase,
  `CanLoss.SuccessOnASpoiledFlash`), over UDP where the CRC agrees by chance, as for every accepted image with
  CRC 0 (`UdpLoss.ImageIsLost`). Such images exist: any accepted one followed by its own CRC
  (`FirmwareImage.AcceptedWithCrcZero`). The exact conditions are `CanTransfer.FlashHoldsTheImageIff` and
  `UdpTransfer.FlashHoldsTheImageIff`.
- Whether two upgrades' bytes can share slot1 hangs on how flash_img is built. The comment at fw_download.c:10 says
  that it erases each sector before it writes to it; no build file sets an option for it. If it does, upgrades
  never mix (`UpgradeSystem.ChannelsNeverMix`). If it does not, they mix exactly where a write reaches what the
  set-up did not clear (`UpgradeSystem.UnmixedIff`): over UDP after a failed or too short erase
  (`UpgradeSystem.UdpMixes`), over SDO on any used slot, because 0x1F51 erases the trailer only
  (`UpgradeSystem.SdoMixes`).
- hw_alloc does not look at listener pools. What it returns is taken already exactly when it is pooled
  (`W5500Invariant.AllocatedTwiceIffPooled`; a run: `W5500Leaks.TwoHoldersFromStart`), which needs a listening
  hardware socket to fall back to SOCK_CLOSED before the worker has seen it. `NoHardwareSocketHeldTwice` names
  that hypothesis (`HonestStep`).
- The pool scan of w5500_service repeats without progress while an established entry cannot be promoted
  (`W5500Calls.ScanStandsStillIff`: backlog or socket table full), for as long as the peer stays connected
  (`W5500Driver.ScanIsHeldUp`; a run: `W5500Leaks.WorkerIsHeldUpFromStart`). The scan runs with the mutex held.
  Apart from such turns it ends (`W5500Driver.ScanEnds`).
- accept() re-arms the listener before it tests the zombie flag. close() returns a listener's hardware for good
  exactly if no accept() is in flight (`W5500Close.CloseIsForGoodIff`; a run: `W5500Leaks.ClosedServerStillListens`).
- accept() also promotes before it tests the zombie flag. A connection promoted onto a closed listener keeps its
  slot and its hardware socket for good (`W5500Orphans.OrphanIsForGood`; a run:
  `W5500Leaks.ConnectionIsOrphaned`); no other step orphans a connection (`W5500Orphans.StepOrphansIff`).
- bind() takes no reference and does not look at the zombie flag. close() returns a datagram socket's hardware for
  good exactly if no call of it is in flight (`W5500Datagram.DatagramCloseIsForGoodIff`; a run:
  `W5500Datagram.ClosedSocketKeepsItsPort`).
- A SEND command that fails leaves its chunk in the ring, where the next SEND picks it up although the caller was
  told that it was not sent (`W5500Tx.TxRing.SendTo`, `W5500Tx.TxRing.SendAgain`).
- recvfrom() does not look at the result of reading a header; a failed read leaves the pointer off the frame
  boundary unless the stale length is right (`W5500Rx.RxRing.RecvFrom`).
- `next_probe` starts at 0, so the bootloader sends no probe while the uptime is 2^31 ms or more, modulo 2^32
  (`BootWait.ProbeLoop`).
- font_end does not look at `failed`; that does no harm. The reboot it owes is lost when the status
  push of the same turn fails (`FontInstall.FinishedInstallIsComplete`).
- Over CAN the key hash is compared only if all five of its frames arrived since the last comparison, and nobody
  answers them: with one lost, the START of a foreign image is taken (`CanKeyhash.MissingChunkSkipsTheCheck`).
  Chunks are kept across uploads, and the next START compares whatever came last (`CanKeyhash.RefusedIff`).
- connect() that times out after its socket was shut down reads the status register of no socket and may report
  success (`W5500Connect.LookIs`).
- The CBOR decoder does not notice a message that was cut short inside a string or a number
  (`CborValues.CutBytesAreAccepted`).

## Model

| member | source | states |
|---|---|---|
| UdpTransfer.TransferIsSafe | libs/udp_fw_upgrade/udp_fw_upgrade.c:344-368 | under loss, duplication, reordering, failing flash writes and the other upgrade channels, what the device accepted is a prefix of the image as long as `fw_received` says; no reply in flight and no confirmed offset of the host is beyond it (for the first session); when a sender is done the whole image was accepted |
| UdpTransfer.SuccessMeansVerified | libs/udp_fw_upgrade/udp_fw_upgrade.c:370-401 | if the host ever reports success, the device accepted a prefix of the image (all of it in a single session), what its flash reads back has the image's CRC, and both stay until the reboot |
| UdpTransfer.FlashHoldsTheImageIff | libs/udp_fw_upgrade/udp_fw_upgrade.c:377-383 | for every run with one session whose host reports success, with the steps of its FW_START erase and its FW_END: the flash holds the image if and only if the ignored final flush reached the image's end and, unless the firmware's writes erase, bytes written over data that was not erased read back right; a successful FW_START erase guarantees the latter |
| UdpTransfer.CrcZeroIsLost | libs/udp_fw_upgrade/udp_fw_upgrade.c:377-383 | in every reachable world with the whole image accepted, FW_END with a flush that writes nothing answers 1 if and only if the CRC of the image is 0, and leaves the flash empty either way |
| UdpLoss.ImageIsLost | libs/udp_fw_upgrade/udp_fw_upgrade.c:370-401 | for every image that parse_image accepts, the device takes and whose CRC is 0, of any size: a run from the start in which all of it arrives, the host reports success and nothing is in the flash |
| UdpLoss.SomeImageIsLost | tools/firmware_upgrade/firmware_upgrade.c:566-570 | there is such an image for every device build: 38 bytes that parse_image accepts without a key hash |
| UdpDelivery.DeliveryCompletes | tools/firmware_upgrade/firmware_upgrade.c:553-690 | on a line that keeps every datagram, with a healthy flash and no foreign key hash, for every accepted image and every interleaving: at most 3 * size + 12 moves; if the host has not succeeded something can still happen; and once it has, the image is verified and is what the flash holds |
| UdpDelivery.DeliveryIsARun | tools/firmware_upgrade/firmware_upgrade.c:434-519 | these deliveries are runs of the host, network and device of the transfer theorems |
| UdpDelivery.MoveKeeps | libs/udp_fw_upgrade/udp_fw_upgrade.c:255-401 | each move keeps the books: which frames of the window are out, taken and acknowledged, and what is on its way in either direction |
| UdpDelivery.WorkGoesDown | tools/firmware_upgrade/firmware_upgrade.c:441-519 | every move uses up work, window after window |
| UdpDelivery.WholeImageArrives | tools/firmware_upgrade/firmware_upgrade.c:582-672 | for every accepted image there is a run at whose end the device has all of it and FW_END arrives |
| FirmwareImage.ParseImage | tools/firmware_upgrade/firmware_upgrade.c:251-346 | the header and TLV checks, loop included, accept exactly the well-formed images (with a key hash entry when one is required) and yield the key hash |
| FirmwareImage.WalkFindsTheFirst | tools/firmware_upgrade/firmware_upgrade.c:314-330 | walking an encoded list of entries, wherever it lies and whatever follows it, yields the first KEYHASH entry of the list, or goes on behind it |
| FirmwareImage.BuiltIsAccepted | tools/firmware_upgrade/firmware_upgrade.c:290-336 | a file put together from header fields, padding, body and entries has the key hash of its first KEYHASH entry, or none if it has no such entry, and is refused exactly when one is required and there is none |
| FirmwareImage.AcceptedIff | tools/firmware_upgrade/firmware_upgrade.c:251-346 | which files are accepted at all: exactly those laid out as magic, sizes, header padding, body and TLV magic, with sound entries up to a 32-byte KEYHASH entry if one is required; that entry is the key hash found |
| FirmwareImage.WellFormedIff | tools/firmware_upgrade/firmware_upgrade.c:267-312 | the header checks accept exactly the files of that layout |
| FirmwareImage.TailIsIgnored | tools/firmware_upgrade/firmware_upgrade.c:303-330 | bytes behind the image change neither the acceptance nor the key hash |
| FirmwareImage.AcceptedWithCrcZero | tools/firmware_upgrade/firmware_upgrade.c:303-312 | every accepted image becomes an accepted one with CRC 0 by its own CRC put at the end of the file |
| Flash.FlashHoldsIff | libs/udp_fw_upgrade/udp_fw_upgrade.c:377 | after a flush the flash holds what was accepted iff the flush reached its end and what was not erased reads back right, which it does where nothing accepted lies on old data |
| Flash.SetUpIsFreshIff | libs/udp_fw_upgrade/udp_fw_upgrade.c:299 | a set-up leaves no old data iff its erase reaches over everything that was in the slot |
| Flash.EraseLenCovers | libs/udp_fw_upgrade/udp_fw_upgrade.c:299 | the 32-bit ROUND_UP covers the announced size iff it does not wrap |
| UdpTransfer.StepKeepsWInv | libs/udp_fw_upgrade/udp_fw_upgrade.c:252-401 | every step of host, network and device keeps the transfer invariant |
| UdpTransfer.DataFrameEffect | libs/udp_fw_upgrade/udp_fw_upgrade.c:344-368 | what each image frame does: ignored before a session, answered with the expected offset when out of place, ends the session on a flash error, else extends the prefix |
| UdpTransfer.FrozenStep | libs/udp_fw_upgrade/udp_fw_upgrade.c:370-401 | after verification no step of the whole system touches slot1 or opens a session |
| UdpHost.UdpFwDataV2Stream | tools/firmware_upgrade/firmware_upgrade.c:434-519 | the go-back-N sender ends against every device, after at most 9 * (size + 1) windows, and what it did is a run of the sender machine that is done exactly when it returns success |
| UdpHost.SendWindow | tools/firmware_upgrade/firmware_upgrade.c:457-466 | one window goes out, eight frames or as many as are left, each frame a step of the machine |
| UdpHost.CollectReplies | tools/firmware_upgrade/firmware_upgrade.c:468-503 | replies only ever raise the confirmed offset, to at most the image size, and progress resets the retry count |
| UdpHost.RunSendsTheImage | tools/firmware_upgrade/firmware_upgrade.c:457-466 | in every run each frame sent is a slice of the image labelled with its own offset |
| UdpHost.ConfirmationsWereReceived | tools/firmware_upgrade/firmware_upgrade.c:495-501 | the sender never believes more than some reply it received told it |
| UdpHost.GivesUpIff | tools/firmware_upgrade/firmware_upgrade.c:495-515 | in every run the sender gives up exactly when nine windows in a row time out without a reply that raises the confirmed offset |
| UdpTransfer.Negotiated | tools/firmware_upgrade/firmware_upgrade.c:599-638 | the host goes on exactly on status 1, in frames of the size the device announced, at most 1400 bytes, or in stop-and-wait with a device that announces less than 512 |
| UdpFirmware.FwVerifyCrc | libs/udp_fw_upgrade/udp_fw_upgrade.c:209-239 | reading back in 64-byte chunks accepts exactly when the partition opens, no chunk read fails and the one-pass CRC of all written bytes is the received one |
| UdpFirmware.UdpLibrary.HandleStart | libs/udp_fw_upgrade/udp_fw_upgrade.c:255-324 | FW_START in the code's form, ignored erase result included: state, lock, flash and reply are those of its three interruptible steps run in a row; what its key hash check refuses is UdpKeyhash.RefusedIff |
| UdpKeyhash.RefusedIff | libs/udp_fw_upgrade/udp_fw_upgrade.c:264-276 | an idle device answers a well-formed FW_START with status 2 if and only if it was built with a key and the frame carries a hash that is not its own; then lock and slot1 are untouched, and otherwise with a free lock the start goes on |
| UdpKeyhash.ForeignImageStaysOut | libs/udp_fw_upgrade/udp_fw_upgrade.c:264-276 | in every run of the transfer world whose image carries the hash of another key: no session ever opens, UDP never changes slot1 or the lock, every FW_START that arrives is answered with status 2, and the host never succeeds |
| UdpFirmware.CommandsAreAnswered | libs/udp_fw_upgrade/udp_fw_upgrade.c:252-436 | every known command is answered with one datagram that begins with it and fits the reply buffer, whatever state the library is in and however the flash answers; anything else changes nothing and is not answered |
| UpgradeSystem.DataCommandEffect | libs/udp_fw_upgrade/udp_fw_upgrade.c:326-342 | one FW_DATA, in any state: refused without a session, failing it on a flash error, else appended, with the reply carrying how much slot1 has accepted |
| UdpFirmware.UdpLibrary.HandleData | libs/udp_fw_upgrade/udp_fw_upgrade.c:326-342 | FW_DATA in the code's form: accepted only in a session, appended and counted, or the session fails and the lock is returned; the reply carries the offset |
| UdpFirmware.UdpLibrary.HandleDataV2 | libs/udp_fw_upgrade/udp_fw_upgrade.c:344-368 | FW_DATA_V2 in the code's form: written only at the expected offset, the reply always carrying the expected one |
| UdpFirmware.UdpLibrary.HandleEnd | libs/udp_fw_upgrade/udp_fw_upgrade.c:370-401 | FW_END in the code's form: the flush whose result is ignored, then 1 exactly when the CRC of what the flash reads back matches and the boot request is accepted; else the session fails |
| UdpFirmware.UdpLibrary.Handle | libs/udp_fw_upgrade/udp_fw_upgrade.c:252-436 | every command byte does what its handler does, version and reboot included, and unknown ones nothing |
| UdpFirmware.UdpLibrary.FwSessionFail | libs/udp_fw_upgrade/udp_fw_upgrade.c:131-137 | a failing session is closed and the lock given back through the fail hook |
| UpgradeLock.UpgradeState.TryLock | applications/canopen-io/src/fw_upgrade_state.c:46-57 | granted exactly when nobody is active, and then the caller holds the lock |
| UpgradeLock.UpgradeState.Unlock | applications/canopen-io/src/fw_upgrade_state.c:59-66 | afterwards the named channel does not hold the lock, and nobody else lost it |
| SdoDownload.FwDownload.FwDataWrite | applications/canopen-io/src/fw_download.c:51-74 | 0x1F50 in the code's form: refused outside READY and STREAMING, appended and counted, or ERROR; complete exactly when the announced length is reached |
| SdoDownload.FwDownload.FwCtrlWrite | applications/canopen-io/src/fw_download.c:89-169 | 0x1F51 in the code's form: state, lock, flash and return code are those of its interruptible steps run in a row; what the codes mean is SdoReplies |
| SdoDownload.FwDownload.EnterDownload | applications/canopen-io/src/fw_download.c:99-135 | the 0x1F51 = 0 branch: lock taken unless already held, slot1 opened, erased and set up, or everything given back |
| SdoDownload.FwDownload.GiveUp | applications/canopen-io/src/fw_download.c:137-144 | the error path: state ERROR, and the lock returned if it was held |
| SdoReplies.StateIsTheDownload | applications/canopen-io/src/fw_download.c:51-168 | in every sequence of writes to 0x1F50 and 0x1F51, with the other channels upgrading in between: a download is READY or STREAMING exactly from a 0 answered OK to the next 0, 1 or failed data write, and counter and slot hold exactly the data answered OK or PARTIAL since |
| SdoReplies.ConfirmedIff | applications/canopen-io/src/fw_download.c:136-163 | a 1 to 0x1F51 is answered OK exactly when a download is open with data, none of it refused, and the final flush and the boot request work; then all of it was programmed; every other answer leaves ERROR and gives the lock back |
| SdoReplies.DataAnswerIs | applications/canopen-io/src/fw_download.c:51-74 | a data write is refused exactly when no download is open; otherwise its code tells what became of it, OK only for the last part of an announced length |
| SdoReplies.OpenedIff | applications/canopen-io/src/fw_download.c:99-135 | a 0 to 0x1F51 is refused exactly while another channel has the lock, and else answered OK exactly when slot1 opens, its trailer can be erased and flash_img starts; on a failure nobody has the lock |
| UpgradeSystem.StepKeepsInv | applications/canopen-io/src/fw_upgrade_state.c:21-66 | owner = UDP iff a session runs, starts, fails or a verified image waits; `sdo_lock_held` iff owner = SDO (but between unlock and its reset); READY, STREAMING, CONFIRMED imply `sdo_lock_held`; only the owner changes slot1; writes that erase never lie on old data; and `fw_received` and `fw_written` count what slot1 accepted |
| UpgradeSystem.RunKeepsInv | applications/canopen-io/src/fw_upgrade_state.c:46-66 | the ownership rules hold in every state of every interleaved run from power-up |
| UpgradeSystem.ChannelsNeverMix | applications/canopen-io/src/fw_download.c:51-168 | in every interleaving each change of slot1 is made by the owner of the lock; and no byte of an upgrade ever shares its place with one of an earlier upgrade, in every run if writes erase, and else in every run whose set-ups leave no old data behind |
| UpgradeSystem.UnmixedIff | applications/canopen-io/src/fw_download.c:99-126 | exactly: in every state of every run some last set-up of slot1 is found, by FW_START, 0x1F51 or the WebSocket, and the bytes written since lie on no older data if and only if writes erase or nothing that this set-up did not clear lies below their end |
| UpgradeSystem.UdpMixes | libs/udp_fw_upgrade/udp_fw_upgrade.c:299 | writes do not erase: for any old data a run from power-up in which the erase of a FW_START fails and one data frame lies on it |
| UpgradeSystem.SdoMixes | applications/canopen-io/src/fw_download.c:99-124 | writes do not erase: for any old data a run from power-up in which nothing fails and one 0x1F50 write lies on it, because 0x1F51 erases the trailer only |
| UpgradeSystem.OwnerAloneWrites | applications/canopen-io/src/fw_upgrade_state.c:46-66 | without any hypothesis: only the owner changes slot1, and all bytes accepted since its set-up come from the upgrade that set it up |
| UpgradeSystem.SessionStartsFreshIff | libs/udp_fw_upgrade/udp_fw_upgrade.c:299 | a set-up leaves no old data behind if and only if, for FW_START, its erase succeeded over all there was or there was nothing, and, for 0x1F51, there was nothing |
| UpgradeSystem.WritingOverOldDataMixes | libs/udp_fw_upgrade/udp_fw_upgrade.c:326-342 | one data frame leaves slot1 unmixed if and only if writes erase or no position up to its end holds old data |
| UpgradeSystem.EndReplyVerifies | libs/udp_fw_upgrade/udp_fw_upgrade.c:370-401 | FW_END answers 1 in exactly the step that leaves a verified image |
| UpgradeSystem.VerifiedImageIsFrozen | libs/udp_fw_upgrade/udp_fw_upgrade.c:258-291 | once FW_END answered 1, no UDP, SDO or WebSocket command changes slot1, and the lock stays with UDP |
| UpgradeSystem.ConfirmedImageIsFrozen | applications/canopen-io/src/fw_download.c:161-166 | a confirmed SDO image stays until 0x1F51 is written with 0 or 1 again |
| UpgradeSystem.ConfirmedImageIsComplete | applications/canopen-io/src/fw_download.c:145-163 | in every interleaved run, in every state with a confirmed SDO download: the step that confirmed it had a working boot request and a flush that reached the end of everything accepted, so the flash holds exactly that but for bytes written over data that was not erased, and all of it where writes erase |
| UpgradeSystem.ControlWriteConfirmsIff | applications/canopen-io/src/fw_download.c:136-163 | a control write of 1 confirms if and only if data was streamed and flush and boot request succeed; otherwise it ends in ERROR on the way to giving the lock back, with the code that says why |
| UpgradeSystem.ControlWriteAfterConfirmation | applications/canopen-io/src/fw_download.c:136-144 | one control write after a confirmation keeps image and lock if and only if it is not a 4-byte 0 or 1 |
| UpgradeSystem.ConfirmedImageCanBeLost | applications/canopen-io/src/fw_download.c:162 | a run in which a second confirmation releases the lock and a UDP session erases the confirmed image: the comment there promises more than the code does |
| Crc16.ByteStepIsFeed | tools/firmware_upgrade/firmware_upgrade.c:173-184 | the byte-wise step equals the bit-serial reflected 0x1021 register fed the eight bits, for every seed and byte |
| Crc16.Crc16Ccitt | tools/firmware_upgrade/firmware_upgrade.c:173-184 | the loop leaves the bit-serial register of all bytes |
| Crc16.RegisterConcat | libs/udp_fw_upgrade/udp_fw_upgrade.c:222-231 | carrying the CRC from chunk to chunk is one pass over the whole |
| Crc16.RegisterInjectiveInSeed | tools/firmware_upgrade/firmware_upgrade.c:173-184 | two registers that differ never meet again on the same bytes |
| Crc16.BurstIsDetected | tools/firmware_upgrade/firmware_upgrade.c:173-184 | images that differ only inside two adjacent bytes never share a CRC |
| Crc16.OwnCrcDrains | tools/firmware_upgrade/firmware_upgrade.c:173-184 | two bytes behind a message bring its CRC to 0 if and only if they are its own CRC in wire order |
| W5500Runs.NoHardwareSocketHeldTwice | drivers/w5500_toe/w5500_toe.c:463-487 | over every run of calls, service passes and closes, no hardware socket is held by two sockets, by a pool and a socket, by two pools or twice in one pool, provided no pooled one reads SOCK_CLOSED during a scan |
| W5500Runs.CallsKeepTheirSocket | drivers/w5500_toe/w5500_toe.c:557-572 | a call between sock_hold and sock_release finds the same socket in its slot, and `users` is the number of such calls |
| W5500Runs.ClosedSlotIsFreedByItsLastCall | drivers/w5500_toe/w5500_toe.c:1482-1522 | in every step a closed socket keeps its slot, which is free afterwards exactly when no call is in flight any more |
| W5500Runs.BacklogsAreDisjoint | drivers/w5500_toe/w5500_toe.c:624-656 | a pending connection is in use, has no descriptor, and waits in one backlog, once |
| W5500Runs.StepKeeps | drivers/w5500_toe/w5500_toe.c:557-656 | every mutex-held segment keeps the table invariant, the call counts and every occupant |
| W5500Runs.ResetListenerGetsASecondHolder | drivers/w5500_toe/w5500_toe.c:470-486 | without the scan hypothesis, in every table: a pooled hardware socket that reads SOCK_CLOSED is given to connect() as well |
| W5500Leaks.TwoHoldersFromStart | drivers/w5500_toe/w5500_toe.c:463-487 | a run from the empty table that gets there: socket, bind, listen, socket, connect |
| W5500Runs.AcceptOnClosedListenerLeavesItArmed | drivers/w5500_toe/w5500_toe.c:1095-1102 | the step behind it: the last accept() waking on a closed listener arms a hardware socket before it sees the zombie flag, and frees the slot with it |
| W5500Close.CloseIsForGoodIff | drivers/w5500_toe/w5500_toe.c:1482-1522 | after close(), with any hardware socket to hand out, some run re-arms the slot's pool before the slot is handed out again if and only if an accept() of it is in flight at the close |
| W5500Close.ClosedForGoodWithoutAccept | drivers/w5500_toe/w5500_toe.c:1482-1522 | without one, in every run until the slot is handed out again: no armed hardware socket, nothing pending, and for a stream no hardware socket at all (for a datagram socket see W5500Datagram.DatagramCloseIsForGoodIff) |
| W5500Close.AcceptCanLeaveItArmed | drivers/w5500_toe/w5500_toe.c:1095-1102 | with one, whatever other calls are in flight: a run that ends with the slot free and a hardware socket listening for nobody, never closed |
| W5500Datagram.DatagramCloseIsForGoodIff | drivers/w5500_toe/w5500_toe.c:850-890 | after close() of a datagram socket, with any hardware socket to hand out, some run gives its occupant hardware again before the slot is handed out if and only if a call of it is in flight at the close |
| W5500Datagram.ClosedForGoodWithoutCalls | drivers/w5500_toe/w5500_toe.c:1482-1522 | a socket of either type closed with no call in flight: in every run until the slot is handed out again the slot is free and has no hardware socket, pooled or its own |
| W5500Datagram.ClosedDatagramSocketIsBound | drivers/w5500_toe/w5500_toe.c:864-886 | the step behind it: bind() on a closed datagram socket with a call in flight takes a hardware socket again |
| W5500Datagram.ClosedSocketKeepsItsPort | drivers/w5500_toe/w5500_toe.c:864-886 | a run from the empty table: socket, bind, recvfrom() asleep, close, bind, recvfrom() returns; the slot is free, and hardware socket 0 was not closed after the second bind() |
| W5500Close.SettledStays | drivers/w5500_toe/w5500_toe.c:557-572 | the step behind it: no step lowers a slot's generation or re-arms a closed socket without accept() in flight |
| W5500Leaks.ClosedServerStillListens | drivers/w5500_toe/w5500_toe.c:1095-1102 | a run from the empty table that leaves hardware socket 0 listening after its server is gone |
| W5500Orphans.StepOrphansIff | drivers/w5500_toe/w5500_toe.c:1088-1105 | while every connection without descriptor waits for an open listener, any step keeps that so if and only if it is not an accept() that promotes a connection onto a listener closed meanwhile |
| W5500Orphans.EveryConnectionIsAwaited | drivers/w5500_toe/w5500_toe.c:624-656 | in every run without such a step each connection without descriptor waits in the backlog of exactly one listener, which is open |
| W5500Orphans.OrphanIsForGood | drivers/w5500_toe/w5500_toe.c:1482-1522 | a connection without descriptor that waits in no backlog keeps its slot and its hardware socket in every run from there |
| W5500Orphans.LastAcceptOrphans | drivers/w5500_toe/w5500_toe.c:1099-1102 | the last accept() of a closed listener that promotes a connection leaves it so, whatever the table |
| W5500Leaks.ConnectionIsOrphaned | drivers/w5500_toe/w5500_toe.c:1088-1102 | a run of seven calls from the empty table that loses slot 1 and hardware socket 0 in this way, for every continuation |
| W5500Invariant.HwAllocIs | drivers/w5500_toe/w5500_toe.c:463-487 | hw_alloc returns the lowest hardware socket no slot has, not black-listed and reading SOCK_CLOSED, or -1 if there is none |
| W5500Invariant.AllocatedTwiceIffPooled | drivers/w5500_toe/w5500_toe.c:463-487 | what hw_alloc returns already has a holder if and only if it lies in a listener's pool |
| W5500Invariant.FillKeeps | drivers/w5500_toe/w5500_toe.c:579-606 | arming a listener keeps exclusive ownership, through failures and black-listing |
| W5500Invariant.FillFrame | drivers/w5500_toe/w5500_toe.c:579-606 | arming changes nothing but that listener's pool |
| W5500Invariant.PromoteFine | drivers/w5500_toe/w5500_toe.c:624-656 | promotion keeps ownership and backlogs while the hardware socket changes hands |
| W5500Invariant.PromotionIs | drivers/w5500_toe/w5500_toe.c:624-656 | what promotion does: exactly that hardware socket leaves the pool for the first free slot, which becomes the last of the backlog, all other slots untouched |
| W5500Invariant.FirstFreeIs | drivers/w5500_toe/w5500_toe.c:445-461 | the slot handed out is the first free one |
| W5500Calls.ScanStandsStillIff | drivers/w5500_toe/w5500_toe.c:684-703 | a turn of the service scan makes no progress if and only if the entry reads SOCK_ESTABLISHED and backlog or table is full |
| W5500Driver.ScanIsHeldUp | drivers/w5500_toe/w5500_toe.c:684-703 | an established entry whose promotion is refused holds the service scan up for as long as it stays established, with the mutex held |
| W5500Driver.ScanEnds | drivers/w5500_toe/w5500_toe.c:684-703 | otherwise the scan ends: any script of readings with 2 * free slots + pool entries turns besides the held-up ones takes it past the last entry, although each promotion refills the pool |
| W5500Leaks.WorkerIsHeldUpFromStart | drivers/w5500_toe/w5500_toe.c:633-641 | a run from the empty table to a full one with an armed listener, where the scan stands still for as long as a client stays connected |
| W5500Calls.ReapIsFifo | drivers/w5500_toe/w5500_toe.c:1073-1086 | accept() returns the oldest live pending connection, frees the dead ones before it and keeps the order of the rest |
| W5500Connect.LookIs | drivers/w5500_toe/w5500_toe.c:952-1002 | one look of connect(): 0 exactly on SOCK_ESTABLISHED, with the socket unchanged; a socket loses its hardware exactly on SOCK_CLOSED; without hardware it gives up, unless its wait is over, when it goes by the register of no socket |
| W5500Connect.ConnectTakesIff | drivers/w5500_toe/w5500_toe.c:925-970 | connect() takes what hw_alloc finds if and only if OPEN and CONNECT work and the first look does not read SOCK_CLOSED; what was opened and refuses CONNECT is closed |
| W5500Connect.ConnectionIsKept | drivers/w5500_toe/w5500_toe.c:892-1007 | in every run: from the step that took it until shutdown(), close() or a reading of SOCK_CLOSED in its own wait, a connected socket keeps its hardware socket |
| W5500Connect.EstablishedIsConnected | drivers/w5500_toe/w5500_toe.c:965-990 | a wait of connect() that ends on SOCK_ESTABLISHED after any such run returns 0, is no longer in flight, and leaves the socket with the hardware socket it took |
| W5500Connect.AcceptReturns | drivers/w5500_toe/w5500_toe.c:1073-1145 | accept() returns the oldest live connection with its hardware socket and a descriptor, if the listener is open and a descriptor is left; without one that connection is closed; it sleeps exactly when nothing waits, the listener is open and it may block |
| W5500Connect.AcceptWakes | drivers/w5500_toe/w5500_toe.c:1110-1128 | a woken accept() is over exactly when a live connection waits, the listener was closed, it may not block, or its time is up with nothing pending and nothing established; a waiting connection is handed over even then |
| W5500Connect.BindIs | drivers/w5500_toe/w5500_toe.c:864-886 | bind() of a datagram socket: nothing on the port it is open on; else what it had is closed, and it has hardware exactly if hw_alloc finds some and OPEN works, on the port asked for or an ephemeral one |
| W5500Connect.SendOpensIs | drivers/w5500_toe/w5500_toe.c:1207-1220 | sendto() opens a datagram socket without hardware in the same way and leaves every other one alone |
| W5500Connect.ListenIs | drivers/w5500_toe/w5500_toe.c:1022-1029 | listen() is refused for a datagram socket and for one with hardware; else the flag is set and the pool only grows |
| W5500Connect.ShutdownIs | drivers/w5500_toe/w5500_toe.c:1536-1540 | shutdown() closes what the socket has, and nothing else |
| W5500Service.FillIs | drivers/w5500_toe/w5500_toe.c:579-606 | listener_fill as a run of attempts, each on what hw_alloc finds then: it stops exactly at two armed hardware sockets, no candidate, or eight attempts; each joins the pool and is forgiven, or counts a failure |
| W5500Service.BlackListedIff | drivers/w5500_toe/w5500_toe.c:579-606 | a hardware socket is black-listed afterwards exactly if it was before or failed three times in a row, counted across calls; what is black-listed is not tried |
| W5500Service.ScanTurnIs | drivers/w5500_toe/w5500_toe.c:684-703 | what the pool scan makes of each reading: entries on their way stay, an established one is promoted, every other is closed and leaves the pool |
| W5500Service.PromotedIff | drivers/w5500_toe/w5500_toe.c:624-641 | an established entry is promoted exactly if the backlog has fewer than eight connections and a slot is free |
| W5500Service.CreateIs | drivers/w5500_toe/w5500_toe.c:775-805 | socket() hands out the first free slot, empty and of the type asked for, or changes nothing |
| W5500Calls.AcceptTurnKeeps | drivers/w5500_toe/w5500_toe.c:1069-1145 | a turn of accept(), delivery included, keeps the table invariant |
| W5500Calls.BindFine | drivers/w5500_toe/w5500_toe.c:850-890 | bind(), re-binding included, takes a hardware socket nobody holds and keeps every occupant, backlog and claim |
| W5500Calls.ConnectFine | drivers/w5500_toe/w5500_toe.c:892-945 | connect() takes a hardware socket nobody holds, or none, and keeps every occupant, backlog and claim |
| W5500Calls.ListenFine | drivers/w5500_toe/w5500_toe.c:1009-1034 | listen() arms hardware sockets nobody holds and keeps every occupant, backlog and claim |
| W5500Calls.CloseIs | drivers/w5500_toe/w5500_toe.c:1482-1522 | close(): zombie, no transport, slot kept exactly while calls are in flight, backlog freed, everyone else untouched, and the CLOSE commands issued, in order |
| W5500Calls.CloseReturnsHardware | drivers/w5500_toe/w5500_toe.c:1482-1522 | after close() nobody holds what the socket or its backlog held |
| W5500Fifo.PushAppends | drivers/w5500_toe/w5500_toe.c:650-655 | the pending ring is a queue: a push appends, across the end of the buffer |
| W5500Fifo.PopTakesOldest | drivers/w5500_toe/w5500_toe.c:1074-1077 | a pop takes the oldest entry |
| W5500Fifo.PoolRemove | drivers/w5500_toe/w5500_toe.c:609-615 | the compaction removes exactly that entry and keeps the order |
| W5500Driver.Driver.SockSlotAlloc | drivers/w5500_toe/w5500_toe.c:445-461 | the loop hands out the first free slot, wiped, and touches no other |
| W5500Driver.Driver.HwAllocate | drivers/w5500_toe/w5500_toe.c:463-487 | the two loops find the lowest hardware socket that is not taken, not black-listed and reads closed |
| W5500Driver.Driver.MarkTaken | drivers/w5500_toe/w5500_toe.c:468-474 | the marking loop marks exactly the hardware sockets of sockets in use |
| W5500Driver.Driver.SockHold | drivers/w5500_toe/w5500_toe.c:557-564 | refused exactly on a free or closed socket, else one user more |
| W5500Driver.Driver.SockRelease | drivers/w5500_toe/w5500_toe.c:566-572 | one user less, and the last one of a closed socket frees the slot |
| W5500Driver.Driver.ListenerFill | drivers/w5500_toe/w5500_toe.c:579-606 | the arming loop: pool, failure counts and black-list after at most eight attempts |
| W5500Driver.Driver.ListenerPoolRemove | drivers/w5500_toe/w5500_toe.c:609-615 | the entry leaves the pool of that listener only |
| W5500Driver.Driver.ListenerPromote | drivers/w5500_toe/w5500_toe.c:624-656 | detach, refill and queue leave the table that promotion specifies, or untouched when refused |
| W5500Driver.Driver.ServiceListener | drivers/w5500_toe/w5500_toe.c:684-703 | scan and refill of one listener, for any script of status readings, and whether the scan ended within it, as it does when the script has enough turns besides the held-up ones |
| W5500Driver.Driver.ReapPending | drivers/w5500_toe/w5500_toe.c:1073-1086 | the reaping loop pops, frees and stops at the first live connection |
| W5500Driver.Driver.FindEstablished | drivers/w5500_toe/w5500_toe.c:1088-1094 | the first pool entry reading SOCK_ESTABLISHED |
| W5500Driver.Driver.AcceptOnce | drivers/w5500_toe/w5500_toe.c:1073-1147 | one turn of accept(): reap, promote, re-arm, the zombie test, delivery with or without a free descriptor |
| W5500Driver.Driver.CreateSocket | drivers/w5500_toe/w5500_toe.c:787-798 | a socket is created if and only if a slot is free |
| W5500Driver.Driver.BindSocket | drivers/w5500_toe/w5500_toe.c:864-886 | stream and datagram binding, re-binding and its failures, on the table in place |
| W5500Driver.Driver.ConnectSocket | drivers/w5500_toe/w5500_toe.c:925-948 | connect() up to its wait: EISCONN, no hardware socket, OPEN or CONNECT failing, or waiting |
| W5500Driver.Driver.LookAtChip | drivers/w5500_toe/w5500_toe.c:952-1002 | what connect() makes of each reading while waiting, and what it returns then, closed and timed-out cases included (LookIs says what that means) |
| W5500Driver.Driver.ListenSocket | drivers/w5500_toe/w5500_toe.c:1022-1029 | only an unconnected stream socket starts to listen, and its pool is armed |
| W5500Driver.Driver.ShutdownSocket | drivers/w5500_toe/w5500_toe.c:1536-1540 | afterwards the socket has no hardware socket |
| W5500Driver.Driver.DrainPending | drivers/w5500_toe/w5500_toe.c:1504-1514 | the drain loop frees every pending connection and closes its hardware socket |
| W5500Driver.Driver.CloseSocket | drivers/w5500_toe/w5500_toe.c:1482-1522 | close(), a second close included, with the CLOSE commands in order |
| W5500Tx.TxRing.SendTo | drivers/w5500_toe/w5500_toe.c:1227-1332 | on success exactly `src` was appended to the stream and handed to the chip; a partial return n handed over exactly its first n bytes; the next chunk is queued behind them if and only if it was written and its SEND refused; a blocking call gives up for lack of room only at a moment that ends its wait, and unhindered it returns all of `src` exactly when a queue that drains like this ring takes it |
| W5500Tx.TxRing.SendAll | drivers/w5500_toe/w5500_toe.c:1227-1316 | the sending loop: what it handed over, why it stopped, and the same two facts about room |
| W5500Tx.ServedByBusyMoments | drivers/w5500_toe/w5500_toe.c:1252-1299 | such a queue takes everything if at least as many moments drain something as there are bytes in the ring and in the call |
| W5500Tx.OnePieceIsServedIff | drivers/w5500_toe/w5500_toe.c:1252-1299 | and takes one piece exactly if the ring has, or comes to have, that much room |
| W5500Tx.TxRing.WaitForSpace | drivers/w5500_toe/w5500_toe.c:1252-1299 | ready only with room for the chunk; it gives up only without blocking or at a moment that ends the wait (closed, or after 30 polls timed out or, over TCP, disconnected), and waits through all others |
| W5500Tx.TxRing.Stage | drivers/w5500_toe/w5500_toe.c:417-441 | a chunk is written into free cells only, through both wraps: everything queued stays readable |
| W5500Tx.TxRing.Publish | drivers/w5500_toe/w5500_toe.c:1311 | moving the 16-bit pointer appends the chunk to the stream |
| W5500Tx.TxRing.SendChunk | drivers/w5500_toe/w5500_toe.c:1306-1316 | a chunk is not written, or written and not sent, or sent, exactly as its transfers and its SEND answer |
| W5500Tx.TxRing.SendPiece | drivers/w5500_toe/w5500_toe.c:1230-1316 | one turn of the sending loop: refused, no room, or the chunk's own outcome |
| W5500Tx.TxRing.SendAgain | drivers/w5500_toe/w5500_toe.c:1312-1331 | two calls in a row: a refused SEND is reported as nothing sent, the caller repeats it, and the chip is handed the bytes twice |
| W5500Tx.TxRing.Drain | drivers/w5500_toe/w5500_toe.c:1311-1315 | what leaves the ring is the stream, in order, up to the last SEND |
| W5500Tx.TxRing.FreeSize | drivers/w5500_toe/w5500_toe.c:312-315 | the free size from wrapping pointers is the true free size |
| W5500Ring.SockBufWrite | drivers/w5500_toe/w5500_toe.c:417-441 | the split write puts byte j at ring position ptr + j and touches no other cell, also when a transfer fails |
| W5500Ring.SockBufRead | drivers/w5500_toe/w5500_toe.c:391-415 | the split read returns the bytes at ring positions ptr, ptr + 1, ... exactly when its transfers succeed, and otherwise leaves old buffer contents in places |
| W5500Ring.PointerWrap | drivers/w5500_toe/w5500_toe.c:421 | the 16-bit wrap of a pointer does not move it in the ring |
| W5500Ring.CellsApart | drivers/w5500_toe/w5500_toe.c:421 | positions less than a ring apart never share a cell |
| W5500Rx.RxRing.RecvFrom | drivers/w5500_toe/w5500_toe.c:1357-1480 | each call whose header could be read returns the next datagram in arrival order, cut at the caller's buffer, and a waiting one at once; with none waiting a blocking call sleeps through every nap in which nothing happens, and the first other one decides: -1 if it ends the wait, else the first datagram that came; an unreadable header goes unnoticed and moves the pointer to the next header only if the stale length happens to be right |
| W5500Rx.RxRing.RecvStream | drivers/w5500_toe/w5500_toe.c:1366-1476 | TCP: data that is there is handed out first, so end of stream and reset are reported only with nothing left unread; a call that must wait goes on until the first nap in which something happens, and that decides what it returns |
| W5500Rx.RxRing.TakeDatagram | drivers/w5500_toe/w5500_toe.c:1372-1406 | address, length and payload are taken through both wraps and the pointer ends on the next header, however short the buffer |
| W5500Rx.RxRing.ReadHeader | drivers/w5500_toe/w5500_toe.c:1380-1384 | the header read is that of the waiting datagram if its transfers succeed |
| W5500Rx.RxRing.Misplaced | drivers/w5500_toe/w5500_toe.c:1387-1389 | moving on by a header and n bytes reaches the next header if and only if n is the datagram's length |
| W5500Rx.RxRing.ArrivePacket | drivers/w5500_toe/w5500_toe.c:1372-1406 | a datagram that fits is queued behind the others, one that does not is dropped |
| W5500Rx.RxRing.ReceiveStream | drivers/w5500_toe/w5500_toe.c:1408-1428 | the TCP branch uses up the next bytes of the stream, as many as there are up to the buffer, and returns exactly them when the transfers succeed |
| W5500Rx.RxRing.DatagramWaits | drivers/w5500_toe/w5500_toe.c:1366-1374 | the ring holds data exactly when a datagram waits, and then a whole frame lies at the read pointer |
| W5500Rx.FrameAt | drivers/w5500_toe/w5500_toe.c:1387-1389 | frames are found one behind the other |
| W5500Rx.HeaderIs | drivers/w5500_toe/w5500_toe.c:1380-1384 | the header fields read are those of the datagram |
| RadioLink.StaysInSync | drivers/nrf24l01p/nrf24_crypt.c:161-201 | first counter below 256, then steps of 1 to 32: the inferred counter is the sender's at every frame, through the 8- and 32-bit wraps, and every plaintext of 2 to 31 bytes comes out |
| RadioLink.InferredExactlyInWindow | drivers/nrf24l01p/nrf24_crypt.c:173-189 | a receiver in use infers a frame's counter if and only if it is 1 to 32 ahead, and rejects iff its low byte is outside the window |
| RadioLink.FirstFrameInferred | drivers/nrf24l01p/nrf24_crypt.c:170-172 | the first frame is right if and only if its counter is below 256 |
| RadioLink.LateFrameIsDropped | drivers/nrf24l01p/nrf24_crypt.c:173-180 | a frame 0 to 223 behind is rejected and the receiver is unchanged |
| RadioLink.RepeatsArePassedOnOnce | applications/angle-handler/src/rf24.c:210-224 | with every frame repeated any number of times, what is passed on is a subsequence of the texts sent, each once |
| RadioLink.OpenSealed | drivers/nrf24l01p/nrf24_crypt.c:191-200 | opening a sealed frame yields its plaintext when the counter was inferred, nothing when it was rejected |
| RadioCrypt.CtrXorTwice | drivers/nrf24l01p/nrf24_crypt.c:94-114 | the cipher undoes itself |
| RadioCrypt.FrameIsEncrypted | drivers/nrf24l01p/nrf24_crypt.c:94-141 | for every frame, key and full block j: text and ciphertext combined and run backwards through the cipher under the key are the counter plus j, modulo 2^32, and its complement |
| RadioCrypt.ByteIsMasked | drivers/nrf24l01p/nrf24_crypt.c:94-114 | every byte, those of a last short block included, is masked with its byte of the encrypted counter of its block |
| RadioCrypt.Crypt.BlockBytes | drivers/nrf24l01p/nrf24_crypt.c:98-105 | one keystream block in the code's form: counter and complement through the in-place cipher, in big-endian bytes |
| RadioCrypt.Crypt.CtrXorInPlace | drivers/nrf24l01p/nrf24_crypt.c:94-114 | the block loop XORs byte i with keystream byte i and nothing else |
| RadioCrypt.Crypt.SealFrame | drivers/nrf24l01p/nrf24_crypt.c:124-141 | the buffer becomes exactly the frame, shifted by one byte, the rest untouched; one counter value is used; bad lengths change nothing |
| RadioCrypt.Crypt.OpenFrame | drivers/nrf24l01p/nrf24_crypt.c:161-201 | the buffer becomes exactly the plaintext and the receiver the inferred counter, or both stay as they were |
| Rf24.Radio.Rf24DataSend | applications/angle-handler/src/rf24.c:167-238 | the text is sealed once, all attempts are the same frame, and it stops at the first acknowledged one |
| Rf24.Radio.Rf24Receive | applications/angle-handler/src/rf24.c:272-288 | CAN id and payload are those of the opened frame; a dropped frame hands on nothing |
| Xxtea.XxteaEncryptBlock | drivers/nrf24l01p/nrf24_crypt.c:26-48 | the in-place round loop computes 32 cycles of the block function |
| Xxtea.RoundsAreInvertible | drivers/nrf24l01p/nrf24_crypt.c:34-47 | running the inverse rounds undoes the cipher, both ways: a bijection for every key |
| XxteaVector.PublishedVector | drivers/nrf24l01p/nrf24_crypt.c:26-48 | the cipher is XXTEA: it turns the 64-bit block of ones under the published key into the published ciphertext |
| Xxtea.KeystreamBlocksDiffer | drivers/nrf24l01p/nrf24_crypt.c:98-105 | distinct counters give distinct 8-byte keystream blocks |
| Cbor.RoundTrip | applications/apollo-v2/tools/smp_udp.py:46-142 | decoding at the prefix length yields the value and the position behind its encoding, for every prefix and suffix and with any lists and maps sent in indefinite-length form |
| Cbor.EncodingsArePrefixFree | applications/apollo-v2/tools/smp_udp.py:56-79 | no encoding is the beginning of another, and different values have different encodings |
| Cbor.DecodeWire | applications/apollo-v2/tools/smp_udp.py:82-144 | wherever an encoding lies in a buffer, decoding there yields its value and the position behind it |
| Cbor.ReadHead | applications/apollo-v2/tools/smp_udp.py:46-53 | every announced length or number is read back from its head |
| Cbor.CborEncode | applications/apollo-v2/tools/smp_udp.py:56-79 | the encoder produces the wire form, and raises exactly on negative numbers, unsupported types, and numbers or lengths of 2^32 or more |
| Cbor.CborDecode | applications/apollo-v2/tools/smp_udp.py:82-144 | the recursive decoder computes the decoding function, error cases included |
| CborValues.EncodableIff | applications/apollo-v2/tools/smp_udp.py:56-79 | a Python value is encoded exactly when no part of it, however deep, is a negative number, of an unsupported type, or a number or length of 2^32 or more |
| CborValues.HeadIsShortest | applications/apollo-v2/tools/smp_udp.py:46-53 | no head from which the decoder reads the same number is shorter |
| CborValues.WideHeadIsRead | applications/apollo-v2/tools/smp_udp.py:89-100 | heads of 1, 2, 4 and 8 bytes are read as their big-endian number, shortest or not |
| CborValues.DecodedIsBuilt | applications/apollo-v2/tools/smp_udp.py:82-144 | whatever is decoded is a value as Python holds it, keys distinct by Python's equality, of the type its first byte announces; all other first bytes are refused |
| CborValues.DecodedComesBack | applications/apollo-v2/tools/smp_udp.py:56-144 | what was decoded is encoded again exactly when its numbers and lengths fit four bytes, and that decodes to the same value |
| CborValues.PutIs | applications/apollo-v2/tools/smp_udp.py:122-136 | out[k] = v: the last value of a key counts, its first spelling and place stay, by Python's equality of keys |
| CborValues.CutShortIsAccepted | applications/apollo-v2/tools/smp_udp.py:94-109 | a message that ends inside a head or a string is not noticed: what is there is taken, except where a one-byte head is missing |
| CborValues.CutBytesAreAccepted | applications/apollo-v2/tools/smp_udp.py:105-109 | so a byte string that announces n bytes and brings fewer is decoded to those, with a position behind the buffer |
| CanTransfer.TransferCompletes | tools/firmware_upgrade/firmware_upgrade.c:1025-1124 | on a reliable bus, for every image length and interleaving: at most 3 * size + 8 steps; the host waits exactly when one reply is unread or owed; nothing is stuck before success; and after it the whole image was accepted and, with a healthy flash, is what the flash holds |
| CanTransfer.SuccessMeansAccepted | tools/firmware_upgrade/firmware_upgrade.c:1098-1124 | whatever errors occur, a host that reports success had the whole image accepted by the device |
| CanTransfer.FlashHoldsTheImageIff | libs/can_fw_upgrade/can_fw_upgrade.c:268-306 | for every run whose host reports success, with the steps of its START, which passed the key hash check and the hook, and of its CONFIRM, whose boot request succeeded: the flash holds the image if and only if the ignored flush of the CONFIRM reached the image's end and, unless the firmware's writes erase, bytes written over data that was not erased read back right; a successful START erase guarantees the latter |
| CanLoss.SuccessAnyway | libs/can_fw_upgrade/can_fw_upgrade.c:232-283 | for every image and every device, whatever the erase of the START and the flush of the CONFIRM come to, there is a run in which the host reports success with the outcome of these two in the flash |
| CanLoss.SuccessOnAnEmptyFlash | libs/can_fw_upgrade/can_fw_upgrade.c:276 | for every image: a run in which the flush writes nothing, the host reports success and the flash is empty |
| CanLoss.SuccessOnASpoiledFlash | libs/can_fw_upgrade/can_fw_upgrade.c:240 | for every image that reaches as far as some old data, when writes do not erase: a run in which the erase fails, the host reports success and the flash reads something else there |
| CanTransfer.RepliesMatchWaits | libs/can_fw_upgrade/can_fw_upgrade.c:400-423 | exactly one reply is unread or owed while the host waits, none otherwise, and the receive queue never overflows |
| CanTransfer.StepKeeps | libs/can_fw_upgrade/can_fw_upgrade.c:268-283 | every step keeps the lock-step, or leads to a state where the host can only fail |
| CanTransfer.WorkGoesDown | tools/firmware_upgrade/firmware_upgrade.c:1034-1095 | every step uses up work |
| CanTransfer.CanSendData | tools/firmware_upgrade/firmware_upgrade.c:1025-1096 | the loops do a run of the host machine and succeed exactly when it may go on to confirm |
| CanTransfer.ChunkHandled | libs/can_fw_upgrade/can_fw_upgrade.c:400-423 | a chunk extends the flash and is answered on every 64th byte and at the end |
| CanDevice.CanFirmware.OnPlatformRx | libs/can_fw_upgrade/can_fw_upgrade.c:181-306 | START and CONFIRM in the code's form: the erase and flush whose results are ignored, set-up errors, the size check, the boot request and each reply |
| CanDevice.CanFirmware.OnFwData | libs/can_fw_upgrade/can_fw_upgrade.c:400-423 | a data frame in the code's form: refused before START, written or a flash error, and the reply that is due |
| CanReplies.StateIsTheUpload | libs/can_fw_upgrade/can_fw_upgrade.c:181-423 | under any traffic, from any host: the device takes an upload to be open exactly when one is, and its counter and slot hold exactly the data written since the START that opened it |
| CanReplies.ConfirmedIff | libs/can_fw_upgrade/can_fw_upgrade.c:268-306 | under any traffic a CONFIRM is answered with the magic number exactly when an upload is open, its data is as long as the size announced last, and the boot request succeeds |
| CanReplies.DataAnswerIs | libs/can_fw_upgrade/can_fw_upgrade.c:400-423 | a data frame is refused exactly when no upload is open or its write fails; else it is answered with success at the announced size, with the count at every 64th byte, and not otherwise |
| CanReplies.RefusedStartChangesNothing | libs/can_fw_upgrade/can_fw_upgrade.c:208-230 | a START is refused for its key hash or by the hook exactly when these say so, and then slot and open upload stay as they are |
| CanKeyhash.RefusedIff | libs/can_fw_upgrade/can_fw_upgrade.c:208-222 | in every history of key hash frames and STARTs: a START is refused exactly when all five chunks came since the last START that compared, and the chunks that came last are not those of the own key |
| CanKeyhash.SentHashIsChecked | libs/can_fw_upgrade/can_fw_upgrade.c:208-222 | after the five frames of the host tool, whatever came before, the START is refused if and only if the hash is a foreign one |
| CanKeyhash.MissingChunkSkipsTheCheck | libs/can_fw_upgrade/can_fw_upgrade.c:212 | as long as one chunk is missing since the last comparison nothing is compared and the START is taken |
| CanKeyhash.StateIsTheHistory | libs/can_fw_upgrade/can_fw_upgrade.c:378-394 | buffer and mask always hold the chunks that came last and which have come since the last comparison |
| CanKeyhash.KeyhashReceiver.OnKeyhashFrame | libs/can_fw_upgrade/can_fw_upgrade.c:378-394 | one frame in the code's form: an invalid number or a short frame is dropped, else its bytes are copied in place and its bit is set |
| CanKeyhash.KeyhashReceiver.StartIsWelcome | libs/can_fw_upgrade/can_fw_upgrade.c:208-220 | the check of START in the code's form: with a full mask the mask is cleared and the buffer compared |
| BootWait.ProbeLoop | libs/can_fw_upgrade/can_fw_boot.c:79-98 | the probe loop ends within its timeout plus one send and one late wake-up, for any uptime; the first probe goes out at the first clock reading below 2^31 ms, none at all if and only if there is no such reading, and later ones at least 200 ms apart |
| BootWait.IdleWait | libs/can_fw_upgrade/can_fw_boot.c:118-139 | after the last firmware frame the wait is left within max(idle, 30000) ms plus two polls, for any uptime and with a stuck busy flag, at the first poll that may |
| BootWait.LeavesIff | libs/can_fw_upgrade/can_fw_boot.c:118-138 | when a poll leaves, in elapsed time: confirmed; idle thread and the idle time over; busy thread and 30 s over; so a thread that is busy at both readings is waited for until then |
| BootWait.RecentActivityKeepsWaiting | libs/can_fw_upgrade/can_fw_boot.c:122-132 | and not before: with recent activity only a confirmation ends it |
| BootWait.DiffIsElapsed | libs/can_fw_upgrade/can_fw_boot.c:84 | the signed difference of two wrapping clock readings is the elapsed time |
| FontInstall.BytesAreProgrammedOncePerErase | applications/apollo-v2/src/ws.c:160-182 | in every run a byte is programmed only while clean: inside the announced length, erased by the same install, not programmed since |
| FontInstall.FinishedInstallIsComplete | applications/apollo-v2/src/ws.c:233-247 | font_end leads to the reboot exactly when at least `total` bytes were accepted and its turn's status push succeeds; whenever they were, flash holds them, cut at `total` |
| FontInstall.LengthsStayOrdered | applications/apollo-v2/src/ws.c:218-232 | off <= total <= erase_len throughout, and what was written is what was accepted, also after a failure |
| FontInstall.WholeInstall | applications/apollo-v2/src/ws.c:210-304 | an install announced, erased turn by turn and sent in any pieces, binary or base64, ends with exactly the sent bytes in flash |
| FontInstall.NextKeeps | applications/apollo-v2/src/ws.c:147-304 | every message, tick and disconnect keeps the invariant |
| FontInstall.StartIsTakenIff | applications/apollo-v2/src/ws.c:210-226 | font_start opens an install exactly when none is open, its size fits and the partition opens; else it changes nothing |
| FontInstall.FailsIff | applications/apollo-v2/src/ws.c:151-260 | in the data phase an install fails exactly on base64 that does not decode and on a write that fails |
| FontInstall.FailureIsForGood | applications/apollo-v2/src/ws.c:151-260 | a failed install that is short of data stays as it is, whatever is sent, while the connection lasts |
| FontInstall.InstallAfterAnything | applications/apollo-v2/src/ws.c:80-89 | after any run and a connection that ended in it, the next install can be done whole, with exactly its bytes in flash |
| FontInstall.EraseEnds | applications/apollo-v2/src/ws.c:287-304 | the erase phase ends after one turn per sector |
| FontInstall.Installer.HandleMessage | applications/apollo-v2/src/ws.c:151-273 | every kind of message does to the thread's variables and the flash what the step says, the skipped turn after a bad base64 message included |
| FontInstall.Installer.StoreData | applications/apollo-v2/src/ws.c:172-182 | the flash cells, offset and flag after a data message, cut at the announced length, with a failing write stopping part-way |
| FontInstall.Installer.EraseTick | applications/apollo-v2/src/ws.c:281-304 | one sector is erased in place and the phase advances, or the install is abandoned |
| FontInstall.Installer.PushStatus | applications/apollo-v2/src/ws.c:306-337 | a failing status push ends the thread and drops the reboot it owed |

## Left out

- UpgradeSystem.ChannelsNeverMix: reading slot1 back for the CRC and every flash write are one atomic step each, because a single thread does them under the lock it already owns.
- UpgradeSystem.StepKeepsInv: the WebSocket channel is an abstract client that writes slot1 between its own lock and unlock; the version of this server that takes no lock is not modelled here.
- UdpFirmware.UdpLibrary.HandleStart: an erase that fails leaves the slot as it was, and an append is taken whole or not at all; the image checks of the bootloader are not modelled.
- UpgradeSystem.UnmixedIff: whether flash_img erases before it writes is a parameter, the same for all channels of a device; positions of a sector behind the bytes written so far count as old data until they are written; a write whose erase fails is a failed write.
- FirmwareImage.ParseImage: reading the file is left out, and offsets do not wrap, as with a 64-bit size_t.
- UdpDelivery.DeliveryCompletes: nothing else goes on at the device, a key hash that is sent is the device's own (a foreign one is UdpKeyhash.ForeignImageStaysOut), and the erase covers the image unless it does not have to (an image of more than 2^32 - 4096 bytes wraps its length).
- W5500Orphans.EveryConnectionIsAwaited: is about runs without a promotion onto a closed listener; whether one happens is up to accept() calls racing close().
- SdoDownload.FwDownload.FwCtrlWrite: `fw_written` does not wrap; the erase of the slot's last 8 KiB is not part of the slot's contents; the delayed reboot is left out.
- UdpFirmware.UdpLibrary.Handle: after a reboot command the device answers nothing more; the reboot itself and its hooks are not modelled.
- UdpTransfer.TransferIsSafe: offsets in replies are compared with `fw_received` only while the device has opened one session; frames of other images on the same network are not modelled.
- UdpTransfer.Negotiated: the stop-and-wait transfer with devices that predate DATA_V2 is not modelled.
- UdpHost.UdpFwDataV2Stream: socket errors that end the transfer at once, and the progress display, are left out; time is the list of replies that arrive before each deadline.
- W5500Runs.NoHardwareSocketHeldTwice: a service pass is cut into scan turns and refills that others may interleave with, which allows more runs than the mutex does.
- W5500Runs.CallsKeepTheirSocket: calls come through the descriptor of a socket in use, so a call on a stale pointer to a recycled slot is not modelled; `users` does not wrap at 256.
- W5500Calls.BindFine: the ephemeral port is a parameter; addresses, socket options, link state and readiness notification are left out.
- W5500Calls.CloseReturnsHardware: is about the moment of the close(); W5500Close.CloseIsForGoodIff and W5500Datagram.DatagramCloseIsForGoodIff say when it stays so.
- W5500Close.AcceptCanLeaveItArmed: needs a hardware socket that nobody has and that is not black-listed; whether one becomes free later is up to the other sockets.
- W5500Tx.TxRing.SendTo: one sender per socket; two threads sending on one socket interleave their chunks. Timeouts and readings come from a finite script, at whose end the call may still sleep; errno values are left out.
- W5500Rx.RxRing.RecvStream: address and errno values are left out; a socket without hardware and one shut down for reading return before the wait.
- W5500Rx.RxRing.RecvFrom: RECV commands succeed, and a datagram appears in the ring whole; what follows once the pointer is off a frame boundary is not modelled.
- RadioLink.RepeatsArePassedOnOnce: every delivery lies within 223 behind and 255 ahead of the newest frame accepted, because further away the low counter byte is ambiguous and the code cannot tell.
- Rf24.Radio.Rf24DataSend: the transmit queue, random backoff, RSSI and the receive thread's dispatch by CAN id are left out.
- Cbor.RoundTrip: text is its UTF-8 bytes, without the codec's replacement of malformed input; Python's recursion limit is not modelled.
- CanTransfer.TransferCompletes: for images of more than 2^32 - 4096 bytes the size of the erase wraps, and the flash's contents are promised only where writes erase; the outcome of the key hash check is a parameter (CanKeyhash says what it is); version and reboot commands and the boot handshake before START are left out.
- CanReplies.DataAnswerIs: `fw_written` does not wrap at 2^32.
- CanKeyhash.RefusedIff: is about builds with a key; without one the frames are ignored and nothing is refused.
- BootWait.IdleWait: how late a sleeping thread may run is bounded by a parameter; trace frames and the discarding of stale frames are left out.
- FontInstall.WholeInstall: JSON and base64 parsing; a message is already what the thread makes of it. Progress frames are left out.
- The font bitmaps and their binary search, display, shells, settings, LEDs and register streaming: constant data, or input and output without state of their own to reason about.
- tools/firmware_upgrade/firmware_upgrade.py has a CRC of its own whose working value is wider than eight bits; nothing here is about it.
- The interrupt thread of the radio driver, MCUboot, flash_img internals and the network stack are outside; they appear as parameters.
