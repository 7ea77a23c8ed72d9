# SoundRemote server: a verified model

SoundRemote captures audio on a Windows machine and sends it over UDP to any number of connected devices, each of
which chooses between raw audio and one of five Opus bit rates. This project models the server's logic in Dafny and
proves how it behaves over all runs. `dafny verify dfyconfig.toml` checks everything.

## How the project is laid out

| file | what it holds |
|---|---|
| `FanOut.dfy` | the server as it is built: `Clients`, `Server`, `CapturePipe`, `Encoder`, `ClientsView` and `App` objects that update their fields, call each other back and fail with exceptions |
| `Machine.dfy` | the same server as one abstract machine without caches, listeners or encoder objects; `App.Run` is proved to refine it for every sequence of events |
| `Registry.dfy` | the client registry as a map, and what each derived view of it has to be |
| `Framing.dfy`, `Chunking.dfy` | what the framing loop computes, in closed form, failing or not, and that the cutting of captures does not matter |
| `Runs.dfy` | whole runs: the invariant, frame numbers, lost devices |
| `Captures.dfy` | when a capture counts (muting, clients, the resampler) and what it then does, up to the first encoder error |
| `Deliveries.dfy`, `Readings.dfy` | which audio reaches which client over every run and what the client reads out of it, what each encoder hears, and where every byte goes |
| `Reissues.dfy`, `ReissueRun.dfy` | when two audio packets share a number, exactly, and a run in which they do |
| `EndToEnd.dfy` | these theorems for the server's own outbox and keyboard |
| `Datagrams.dfy` | every datagram byte by byte: what it does, how it is answered, what the server sends, and the bit rate a client has after any run |
| `Registrations.dfy` | requests written and read back, and how long a client stays registered |
| `Packets.dfy`, `Advertising.dfy` | the datagram format and the advertisement packet |
| `Settings.dfy`, `SettingsFiles.dfy` | reading, repairing and writing the settings file, and what each line of a file means |
| `Versions.dfy`, `VersionTexts.dfy`, `Decimals.dfy` | comparing release versions, and what a version text means |
| `Silence.dfy`, `Keystrokes.dfy` | silence compensation and the emulated key sequence |

Reading guide. A step of the machine is an `Event` (a datagram, the one-second timer tick, a device selection, a
capture, a capture failure, mute, shutdown) together with a `World`: what the outside answers during that step, namely
the time, which encoders cannot be created, what the Opus library returns for a frame given everything that encoder was
fed before, and what the resampler returns. All theorems quantify over every world of every step. What the server sends
is recorded in an outbox and stated address by address (`StreamTo`), because the order in which hash maps are visited is
not determined; loops over hash maps pick their next key arbitrarily. A method that lets an `Audio::Error` escape
returns `thrown`, and `App.Handle` does with it what the event loop does. `SequenceCounter` is the static sequence
number, shared by all pipes.

What the code does differently from its own description, or from what one would expect:

* `Util.h` says that of two equal versions neither is newer. For two versions with the same three numbers and no fourth
  one the code answers 1 (`Versions.NewerExactly`, `Versions.SameTextIsNewer`).
* The advertisement packet leaves out the loopback address but goes on using table indices as slot indices, so it is
  complete and without a gap exactly if the loopback address is absent or only last in the table
  (`Advertising.AdvertisesOthersIff`, `Advertising.LoopbackFirst`).
* A device whose pipe is lost to an error after it was selected stays the current device, so selecting it again does
  nothing (`Runs.SelectGivesPipe`, `Runs.ReselectingDoesNotRecover`).
* A frame on which one encoder fails is not counted although other clients may have received it, so the next frame
  carries the same number: `ReissueRun.SameNumberTwice` is a run from start-up in which a client is sent two different
  frames under number 1. Over every run this happens exactly if a capture fails on a frame that has already gone to
  the client and the first frame begun at a later capture, nothing having been completed in between, goes to it too
  (`Reissues.NumbersDifferIff`, `Reissues.PacketNumbersDistinctIff`).

## Model

| member | source | states |
|---|---|---|
| FanOut.Clients.Add | SoundRemote/Clients.cpp:5-18 | the client is registered with this compression and contact time; listeners are called once each if somebody's compression changed and not at all otherwise |
| FanOut.Clients.SetCompression | SoundRemote/Clients.cpp:20-27 | only the compression of a known client changes, its contact time does not; same notification rule |
| FanOut.Clients.Keep | SoundRemote/Clients.cpp:29-35 | only the contact time of a known client changes and nobody is notified |
| FanOut.Clients.Remove | SoundRemote/Clients.cpp:37-42 | exactly this client is gone; same notification rule |
| FanOut.Clients.Maintain | SoundRemote/Clients.cpp:55-71 | exactly the clients whose last contact is further back than the timeout are gone, with one notification for all of them |
| FanOut.Clients.UpdateInfos | SoundRemote/Clients.cpp:73-78 | the info list holds each registry entry once, in some order |
| FanOut.Clients.NotifyListeners | SoundRemote/Clients.cpp:80-84 | every listener is called once with the current list; it fails exactly if some pipe cannot create an encoder the list calls for |
| FanOut.Clients.AddClientsListener | SoundRemote/Clients.cpp:44-47 | the new listener is registered first and then told the current list, and stays registered if that fails |
| FanOut.Clients.RemoveClientsListener | SoundRemote/Clients.cpp:49-53 | removes all listeners of one kind, keeps the others in order, and counts the removed ones |
| FanOut.BroadcastSeen | SoundRemote/Clients.cpp:80-89 | after a broadcast every listener has last seen exactly the broadcast list |
| FanOut.App.ViewsAreExact | SoundRemote/Clients.cpp:73-89 | in every reachable state the window's list, the server's partition and the pipe's encoder keys agree with the registry: no duplicate, nobody missing, no empty or phantom key |
| Registry.GroupedPartitions | SoundRemote/Server.cpp:42-51 | grouping any list of the registry one client at a time gives a partition of it by compression |
| Registry.GroupedMembers | SoundRemote/Server.cpp:42-51 | an address is filed under a compression exactly if the list says so |
| Registry.WantedIsInUse | SoundRemote/CapturePipe.cpp:69-78 | the compressions of the list are those in use in the registry |
| Registry.ShortcutIsExact | SoundRemote/CapturePipe.cpp:80-82 | the early return is taken exactly if the encoder keys already are the compressions wanted |
| FanOut.CapturePipe.OnClientsUpdate | SoundRemote/CapturePipe.cpp:69-95 | afterwards the keys are exactly the wanted compressions, surviving keys keep their encoder object and its history, new ones start fresh; it fails exactly if a new encoder cannot be created |
| FanOut.CapturePipe.SendFrames | SoundRemote/CapturePipe.cpp:130-154 | the loop drains the buffer as the machine does and sends each client its packets; it fails exactly if an encoder fails on a frame |
| FanOut.CapturePipe.ServeEncoders | SoundRemote/CapturePipe.cpp:131-151 | one frame goes through every encoder once and to every client of each, under one number |
| FanOut.CapturePipe.Process | SoundRemote/CapturePipe.cpp:124-155 | appends the (resampled) capture, then drains |
| FanOut.Encoder.Encode | SoundRemote/EncoderOpus.cpp:27-38 | no packet exactly if the library returns 0 to 2, an error exactly if it returns a negative or oversized value, else as many bytes of its buffer as it says; the frame joins what the encoder has heard |
| FanOut.Server.OnClientsUpdate | SoundRemote/Server.cpp:42-51 | the cache becomes the grouping of the list |
| FanOut.Server.SendAudio | SoundRemote/Server.cpp:53-67 | every address filed under the compression is sent one audio packet, nobody else anything; a missing key is inserted empty |
| FanOut.Server.Keepalive | SoundRemote/Server.cpp:207-215 | every registered client is sent one keep-alive packet |
| FanOut.Server.SendDisconnectBlocking | SoundRemote/Server.cpp:69-79 | every registered client is sent one disconnect packet |
| FanOut.Server.Receive | SoundRemote/Server.cpp:85-130 | any datagram updates the registry, is answered and types keystrokes exactly as the machine says |
| FanOut.Server.ProcessConnect | SoundRemote/Server.cpp:132-142 | a well-formed request registers the sender and is acknowledged once with its id, any other changes nothing |
| FanOut.Server.ProcessSetFormat | SoundRemote/Server.cpp:148-158 | likewise for the compression, acknowledged even for an unknown address |
| FanOut.App.OnePipeListener | SoundRemote/SoundRemoteApp.cpp:219-231 | one capture-pipe listener is registered if a pipe is owned and none otherwise |
| FanOut.App.StopCapture | SoundRemote/SoundRemoteApp.cpp:219-231 | the fatal branch is never taken; afterwards no pipe is owned and none listens |
| FanOut.App.ChangeCaptureDevice | SoundRemote/SoundRemoteApp.cpp:207-217 | never fatal; on success the machine's device change, on an audio error still wired so that recovery finds exactly one listener |
| FanOut.App.OnTick | SoundRemote/Server.cpp:192-205 | greets every client, then drops the late ones, and never fails: dropping clients calls for no new encoder |
| FanOut.App.Handle | SoundRemote/SoundRemoteApp.cpp:326-346 | one turn of the event loop, recovery included, is one step of the machine and keeps the invariant |
| FanOut.App.Run | SoundRemote/SoundRemoteApp.cpp:326-346 | every sequence of events takes the objects through the machine's states, every address is sent what the machine sends it, and the keyboard input is what the received keystrokes call for |
| EndToEnd.ServeEveryone | SoundRemote/SoundRemoteApp.cpp:326-346 | whatever happens after start-up: the audio in the outbox for any address is what the completed frames owed it and the stray packets of failed ones and reads as such, frames are numbered from 1, accepted bytes are completed, lost with a pipe or buffered, and no key is left down |
| EndToEnd.NumberPackets | SoundRemote/CapturePipe.cpp:130-154 | the audio packets in the outbox for an address carry different numbers exactly if no number was reissued to it |
| EndToEnd.ServeUncompressedClient | SoundRemote/CapturePipe.cpp:124-155 | from any reachable state on, the audio packets sent to an uncompressed client that stays are those sent before and then exactly the frames completed since, in order and consecutively numbered, and no accepted byte is lost |
| EndToEnd.ClientAccount | SoundRemote/CapturePipe.cpp:124-155 | the same account for any state and any earlier stream, for a client that stays |
| Deliveries.EveryRunDelivers | SoundRemote/CapturePipe.cpp:124-155 | for every run and every address, through failures, recoveries, device changes, reconnects and changes of compression: the audio sent to the address is, step by step, what the completed frames owe its compression at that step and the stray packet of a failed frame |
| Deliveries.StepDelivers | SoundRemote/CapturePipe.cpp:124-155 | the same for a single event, whatever it is |
| Deliveries.StrayIsOwed | SoundRemote/CapturePipe.cpp:131-153 | the stray packet exists exactly if an encoder fails on a frame after the client's own encoder had its turn; it is what that frame owes the client, the pipe is gone, and the frame's number is the next one again |
| Readings.EveryRunReads | SoundRemote/CapturePipe.cpp:131-151 | for every run and every address, category, number, size and payload of every audio packet sent, from the library's answers on: an uncompressed client reads whole frames under category 0x20, a compressed one, where the library returned 3 to 800, that many bytes of its buffer under 0x21, and nothing where it returned anything else |
| Readings.StepReads | SoundRemote/CapturePipe.cpp:131-151 | the same for a single event |
| Readings.OneOpusFrame | SoundRemote/CapturePipe.cpp:140-150 | of one completed frame a compressed client gets exactly one Opus packet if the library returned 3 or more, and none if it returned 0 to 2 |
| Deliveries.RunDelivers | SoundRemote/CapturePipe.cpp:124-155 | a client of any compression that stays connected to a pipe that stays is sent what one encoder that heard every completed frame in order owes it, and nothing else |
| Deliveries.OwedInRunUncompressed | SoundRemote/CapturePipe.cpp:132-139 | for an uncompressed client these are the completed frames, each once, in order |
| Deliveries.EveryRunConserves | SoundRemote/CapturePipe.cpp:124-155 | over every run the bytes buffered and accepted are, in order, the completed frames, what went down with a pipe, and what is still buffered |
| Deliveries.RunConserves | SoundRemote/CapturePipe.cpp:124-155 | while a client and its pipe stay nothing is lost |
| Deliveries.EveryEncoderHears | SoundRemote/CapturePipe.cpp:84-94 | over every run an encoder has heard every frame completed since it came into use, in order, and nothing else; one that comes into use again starts afresh |
| Deliveries.RunFeedsEncoder | SoundRemote/CapturePipe.cpp:84-94 | the encoder of a client that stays is never replaced or reset by what other clients do |
| Deliveries.OnlyClientsAreSent | SoundRemote/Server.cpp:53-67 | no audio leaves for an unregistered address, which is sent at most the answer to its own request |
| Runs.RunConsistent | SoundRemote/CapturePipe.cpp:69-95 | over every run a live pipe's encoder keys are the compressions in use and less than a frame is buffered |
| Runs.RunNumbers | SoundRemote/CapturePipe.cpp:152-152 | across pipes, devices, mutes, failures and client changes completed frames are numbered consecutively modulo 2^32 |
| Runs.NumbersFromStart | SoundRemote/CapturePipe.cpp:38-38 | from start-up they are 1, 2, 3, ... modulo 2^32, and frames less than 2^32 apart never share a number |
| Captures.CaptureExactly | SoundRemote/CapturePipe.cpp:124-155 | an unmuted pipe with clients takes every byte: frames of 1920 bytes are completed and numbered modulo 2^32 up to the first on which the library reports an error for a compression in use; an error costs the pipe, without one the rest stays buffered |
| Captures.IgnoredCapture | SoundRemote/CapturePipe.cpp:97-111 | without a pipe, muted, or with nobody registered a capture changes nothing and sends nothing |
| Captures.ResamplerFails | SoundRemote/CapturePipe.cpp:125-126 | a failing resampler costs the pipe and nothing is sent |
| Captures.CapturesCount | SoundRemote/CapturePipe.cpp:97-111 | after every run a capture is ignored exactly if there is no pipe, the last mute event on it muted it, or nobody is registered; otherwise its bytes are accepted |
| Captures.MutedByLastEvent | SoundRemote/CapturePipe.cpp:65-67 | over every run a pipe is muted exactly if the last mute event on it said so, and a new pipe is not |
| Captures.MutedIsSilent | SoundRemote/CapturePipe.cpp:97-111 | while a muted pipe stays and is not unmuted nobody is sent audio, and buffer and counter stand still |
| Captures.MuteEvents | SoundRemote/CapturePipe.cpp:65-67 | a mute event sets this flag of the pipe and nothing else |
| Reissues.CopiesAreTheAudio | SoundRemote/CapturePipe.cpp:130-154 | the audio packets sent to an address over a run are its copies of the frames begun, completed or failed, each under its frame's number |
| Reissues.NumbersDifferIff | SoundRemote/CapturePipe.cpp:130-154 | over every run, copies of frames fewer than 2^32 completed frames apart carry different numbers if and only if it never happens that a capture fails on a frame the address already got, and the first frame begun at a later capture, nothing being completed in between, reaches it too |
| Reissues.PacketNumbersDistinctIff | SoundRemote/CapturePipe.cpp:130-154 | the same for the packets: in a run with fewer than 2^32 completed frames all numbers differ if and only if no such reissue happens |
| ReissueRun.SameNumberTwice | SoundRemote/CapturePipe.cpp:142-152 | a run from start-up in which one client is sent two different frames under number 1 |
| ReissueRun.ReissueHappens | SoundRemote/CapturePipe.cpp:142-152 | that run meets the condition of the two theorems above |
| Runs.SelectGivesPipe | SoundRemote/SoundRemoteApp.cpp:207-217 | selecting a working device leaves a pipe exactly if the device was not selected already or still had one |
| Runs.ReselectingDoesNotRecover | SoundRemote/SoundRemoteApp.cpp:208-215 | a run after which selecting the current device again changes nothing although it has no pipe |
| Runs.FailedDeviceIsRetried | SoundRemote/SoundRemoteApp.cpp:207-217 | a device whose pipe cannot be constructed or get its encoders does not become current, so selecting it again tries again, and succeeds once nothing stands in the way |
| Runs.FailedStartIsNotRetried | SoundRemote/SoundRemoteApp.cpp:207-217 | one whose pipe fails on starting does become current, and selecting it again does nothing |
| Runs.OnlySelectingChangesDevice | SoundRemote/SoundRemoteApp.cpp:207-231 | no other event changes the current device, opens a pipe, or changes whether one resamples |
| Runs.FailureKeepsDevice | SoundRemote/SoundRemoteApp.cpp:332-335 | a failing capture costs the pipe and nothing else, and after shutdown nothing happens any more |
| Framing.FramesConserve | SoundRemote/CapturePipe.cpp:130-154 | frames and leftover are together exactly the bytes, frames are whole, the leftover is shorter than a frame |
| Framing.FramesUnique | SoundRemote/CapturePipe.cpp:130-154 | there is only one such way to cut the bytes |
| Framing.DrainClosedForm | SoundRemote/CapturePipe.cpp:130-154 | what the loop leaves, failing or not: whole frames are cut from the front under consecutive numbers, encoders have heard them in order, the rest stays; it stops because less than a frame is left or an encoder fails on the next one |
| Framing.DrainCompletesAll | SoundRemote/CapturePipe.cpp:130-154 | without a failure all frames are completed and the leftover is kept |
| Framing.DrainDelivers | SoundRemote/CapturePipe.cpp:130-154 | failing or not, a client of any compression is sent what it is owed for the completed frames and the stray packet, nothing else |
| Framing.OwedUncompressed | SoundRemote/CapturePipe.cpp:132-139 | an uncompressed client is owed the frames themselves, whatever was sent before |
| Framing.DrainPacketsWellFormed | SoundRemote/CapturePipe.cpp:131-151 | every audio packet sent has its client's category, a frame's number, and a size field that is its true length |
| Chunking.CapturesAtOnce | SoundRemote/CapturePipe.cpp:124-155 | a run of captures leaves the state and sends the packets of one capture of all their bytes, failing or not |
| Chunking.ChunkingIndependence | SoundRemote/CapturePipe.cpp:124-155 | two runs of captures that cut the same accepted bytes differently leave the same state and send every address the same packets |
| Registrations.DatagramEffects | SoundRemote/Server.cpp:94-115 | which datagrams are acknowledged, typed or without any effect, for every byte string, and that only the sender's entry changes |
| Registrations.ConnectRoundTrip | SoundRemote/NetUtil.cpp:223-235 | a Connect written by a client registers it and is acknowledged with its own request id |
| Registrations.SetFormatRoundTrip | SoundRemote/NetUtil.cpp:237-247 | a SetFormat written by a client changes its compression only and is acknowledged, known or not |
| Registrations.KeystrokeRoundTrip | SoundRemote/NetUtil.cpp:212-221 | a keystroke datagram yields the key and modifiers the client wrote |
| Datagrams.RegistryMeaning | SoundRemote/Server.cpp:94-115 | what any byte string does to the registry, by its literal bytes: codes 0 to 5 stand for no compression and 64, 128, 192, 256 and 320 kbit/s, in Connect with a contact and in SetFormat without one; a Disconnect and a keep-alive act on their sender; anything else changes nothing |
| Datagrams.AnswerMeaning | SoundRemote/NetUtil.cpp:184-199 | the bytes of the answer to any byte string, and the key and modifier bytes it types |
| Datagrams.CompressionCodes | SoundRemote/NetUtil.cpp:117-134 | the bit rate of every code, and that there are no others |
| Datagrams.RateIsLastAsked | SoundRemote/Server.cpp:132-158 | over every run a registered client has the bit rate it asked for last; nothing else ever changes it |
| Datagrams.TypedIsKeystruck | SoundRemote/Server.cpp:160-167 | over every run the keystrokes reported are those of the complete keystroke datagrams, in order |
| Datagrams.EndsProgram | SoundRemote/Server.cpp:117-129 | a datagram ends the program exactly if, while a pipe runs, it brings a new compression into use for which the library refuses an encoder |
| Datagrams.SentMeaning | SoundRemote/Server.cpp:192-215 | the bytes sent by every other event: a keep-alive to every client on a tick, a disconnect to every client on shutdown, the answer to the sender of a datagram |
| Datagrams.PacketBytes | SoundRemote/NetUtil.cpp:149-199 | keep-alive, disconnect and acknowledgement packets byte by byte, with their true sizes |
| Datagrams.AudioPacketBytes | SoundRemote/NetUtil.cpp:136-147 | an audio packet byte by byte |
| Registrations.RegistryOfRun | SoundRemote/Clients.cpp:5-71 | over every run the registry depends on datagrams and ticks only |
| Registrations.PunctualStays | SoundRemote/Clients.cpp:29-71 | a client heard from within the timeout before every tick is never dropped, and only Connect and keep-alive count as contact |
| Registrations.StaysIffPunctual | SoundRemote/Clients.cpp:55-71 | without disconnecting or reconnecting a client stays exactly if every tick found it punctual |
| Registrations.RegularContactStays | SoundRemote/Clients.cpp:55-71 | a client in contact at least once per timeout before each tick stays |
| Registrations.SilentIsDropped | SoundRemote/Clients.cpp:55-71 | with ticks at most a period apart a silent client is gone after timeout plus period |
| Registrations.TickBound | SoundRemote/Clients.cpp:55-71 | over every run from start-up that ends in a tick, those remain registered whose last Connect or keep-alive in the run lies within the timeout, and the tick drops nobody else |
| Packets.WriteUInt32B | SoundRemote/NetUtil.cpp:42-48 | writes the four bytes at the offset and leaves all others untouched |
| Packets.WriteUInt16B | SoundRemote/NetUtil.cpp:50-54 | likewise for two bytes, high byte first |
| Packets.WriteUInt16L | SoundRemote/NetUtil.cpp:56-60 | likewise for two bytes, low byte first |
| Packets.WriteHeader | SoundRemote/NetUtil.cpp:67-71 | signature, category and size in place, the rest untouched |
| Packets.CreateAudioPacket | SoundRemote/NetUtil.cpp:136-147 | the buffer is header, number and payload |
| Packets.CreateAckConnectPacket | SoundRemote/NetUtil.cpp:184-191 | the buffer is header, request id, protocol version and zeros |
| Packets.FieldRoundTrip | SoundRemote/NetUtil.cpp:9-60 | reading a field back at any offset gives the value written |
| Packets.FieldDetermined | SoundRemote/NetUtil.cpp:9-35 | a field's bytes are determined by the value read |
| Packets.BigEndian32 | SoundRemote/NetUtil.cpp:42-48 | the four digits of a number are its bytes, the highest first |
| Packets.BigEndian16 | SoundRemote/NetUtil.cpp:50-60 | likewise for two bytes, in both orders |
| Packets.AudioPacketRoundTrip | SoundRemote/NetUtil.cpp:136-147 | category, number and payload come back, and the size field is true exactly while it fits 16 bits |
| Packets.OtherPacketsRoundTrip | SoundRemote/NetUtil.cpp:149-199 | category and request id of the other packets come back |
| Advertising.CreateAdvertisePacket | SoundRemote/NetUtil.cpp:155-176 | slots stay inside the packet exactly if the last loopback entry is missing or last in the table, and then the packet is the rest of the table |
| Advertising.AdvertisesOthersIff | SoundRemote/NetUtil.cpp:161-174 | all other addresses are advertised, in order without a gap, exactly if no entry before the last one is the loopback address |
| Advertising.LoopbackFirst | SoundRemote/NetUtil.cpp:161-174 | a table that fails: with the loopback address first, building the packet fails because the only other address has its slot outside |
| Advertising.SlotsRoundTrip | SoundRemote/NetUtil.cpp:171-174 | reading the slots back gives the addresses |
| Advertising.AdvertisementBytes | SoundRemote/NetUtil.cpp:167-174 | header, category, true length and every slot of the advertisement byte by byte |
| Settings.FindMatchIsMatch | SoundRemote/SettingsImpl.h:23-23 | the scanner finds exactly the match that the property pattern's backtracking order prescribes |
| Settings.StoiRoundTrip | SoundRemote/SettingsImpl.cpp:80-83 | printing and reading undo each other for every 32-bit value |
| Settings.PrintedLineParses | SoundRemote/SettingsImpl.cpp:54-96 | every line written is read back as the same name and value |
| Settings.SettingsImpl.SetFile | SoundRemote/SettingsImpl.cpp:32-52 | what is loaded, when the file is left alone, and what is written otherwise |
| Settings.SettingsImpl.ReadFile | SoundRemote/SettingsImpl.cpp:37-45 | the loop reads line by line up to the first malformed line or until all settings are known |
| Settings.SettingsImpl.WriteToString | SoundRemote/SettingsImpl.cpp:105-122 | one line per setting, in whatever order, with the loaded value if there is one and the default otherwise |
| Settings.WrittenFileReadsBack | SoundRemote/SettingsImpl.cpp:32-123 | a written file is read back as exactly the settings over the defaults |
| Settings.SecondLoadChangesNothing | SoundRemote/SettingsImpl.cpp:32-52 | for any file content a second load changes neither the file nor any value |
| Settings.MalformedLineStops | SoundRemote/SettingsImpl.cpp:39-45 | what was read before a malformed line is kept, what follows is ignored |
| Settings.OnlyLowerCaseIsRead | SoundRemote/SettingsImpl.cpp:70-75 | a name that is not lower case is never read |
| SettingsFiles.LineExactly | SoundRemote/SettingsImpl.cpp:54-96 | a line is skipped exactly if it is empty, begins with a semicolon or is a section in brackets; it sets a value exactly if its first match has a known name in lower case and a number; every other line is refused |
| SettingsFiles.StoiExactly | SoundRemote/SettingsImpl.cpp:79-90 | a text is read as a number exactly if it is blanks, perhaps a sign, and digits that make a 32-bit integer, whatever follows |
| SettingsFiles.PropertyParses | SoundRemote/SettingsImpl.h:23-23 | a property line is read the same however its name and value are padded, its name in lower case, up to its first equals sign |
| SettingsFiles.LoadExactly | SoundRemote/SettingsImpl.cpp:32-45 | every setting has the value of the last line read that sets it, and reading goes on to the first refused line or until all settings are known |
| SettingsFiles.InsertedLineIsNothing | SoundRemote/SettingsImpl.cpp:55-66 | inserting an empty line, a comment or a section anywhere in a file changes nothing that is loaded |
| SettingsFiles.LowerLetters | SoundRemote/SettingsImpl.cpp:9-14 | the 26 capital letters become small ones, other characters stay |
| SettingsFiles.BlanksAreSpaces | SoundRemote/SettingsImpl.h:23-23 | which characters count as blanks |
| SettingsFiles.DotsAreAllBut | SoundRemote/SettingsImpl.h:22-23 | a dot in the patterns stands for any character but a line break |
| SettingsFiles.ProgramNames | SoundRemote/Settings.cpp:4-5 | the names of the program's own settings survive being written and read |
| Settings.SettingsImpl.GetValue | SoundRemote/SettingsImpl.cpp:18-26 | the loaded value if there is one, else the default, else nothing |
| Versions.SearchIsMatch | SoundRemote/Util.cpp:9-9 | the leftmost greedy scan finds exactly the match the version pattern prescribes |
| Versions.IsNewerVersion | SoundRemote/Util.cpp:33-68 | the error codes for texts without a version, and the comparison otherwise |
| Versions.NewerExactly | SoundRemote/Util.cpp:42-67 | when the answer is -3, and that it is 1 exactly if the latest version is greater in the order or both are the same three numbers |
| Versions.LessIsStrictOrder | SoundRemote/Util.h:40-52 | the order is strict and total up to the kind of suffix |
| Versions.NewerIsAsymmetric | SoundRemote/Util.cpp:42-67 | the answer is 1 both ways exactly for readable equal three-part versions |
| Versions.NewerIsTransitive | SoundRemote/Util.cpp:42-67 | newer than newer is newer |
| Versions.SameTextIsNewer | SoundRemote/Util.cpp:44-50 | "1.2.3" counts as newer than itself |
| VersionTexts.FourNumbers | SoundRemote/Util.cpp:9-9 | behind any text without digits, four numbers with dots are read as those four, and what follows is a suffix |
| VersionTexts.ThreeNumbers | SoundRemote/Util.cpp:9-9 | three numbers not followed by a dot are read as those three, and what follows is a suffix |
| VersionTexts.ThreeNumbersAndDot | SoundRemote/Util.cpp:9-9 | a dot behind three numbers belongs to the version even if no number follows |
| VersionTexts.NoVersion | SoundRemote/Util.cpp:33-41 | a text is no version exactly if the pattern matches nowhere in it |
| Decimals.DigitsCount | SoundRemote/Util.cpp:53-54 | every digit counts as its value, the last one least |
| VersionTexts.CompareTexts | SoundRemote/Util.cpp:33-68 | two such texts compare by their numbers in dictionary order, -3 if those that decide do not fit 32 bits; equal four numbers let the suffixes decide, equal three numbers count as newer |
| Silence.Capture | SoundRemote/AudioCapture.cpp:231-255 | which ticks yield a silence buffer and how much time is left uncompensated, in closed form |
| Silence.SilenceAccounting | SoundRemote/AudioCapture.cpp:246-255 | made-up time and uncompensated time are together the silent time, the latter stays below the buffer, and k silent ticks bring max(0, k - ceil(B/period) + 1) buffers |
| Silence.DegenerateDurations | SoundRemote/AudioCapture.cpp:246-255 | below two units the count does not apply: duration 0 yields on every silent tick, duration 1 never |
| Silence.PacketResets | SoundRemote/AudioCapture.cpp:253-255 | a packet makes everything before it irrelevant |
| Keystrokes.Keystroke.Emulate | SoundRemote/Keystroke.cpp:20-52 | for some order of the modifiers the array is the nested script with the key innermost |
| Keystrokes.AllComeUp | SoundRemote/Keystroke.cpp:29-46 | every key that goes down comes up, whatever the order |
| Keystrokes.NothingComesUpFirst | SoundRemote/Keystroke.cpp:29-46 | no key comes up before it went down |
| Keystrokes.ModifiersHeld | SoundRemote/Keystroke.cpp:34-46 | the main key sits in the middle: every modifier is held when it goes down and when it comes up |
| FanOut.Server.ProcessKeystroke | SoundRemote/Server.cpp:160-167 | a complete keystroke datagram puts the script of its key and modifiers into the keyboard input and is reported, any other does nothing |
| Keystrokes.TypingIsBalanced | SoundRemote/Keystroke.cpp:20-52 | whatever keystrokes were received, no key is held in between and none comes up before it went down |
| Keystrokes.BitsAreKeys | SoundRemote/Keystroke.cpp:7-18 | which modifier keys go down and up for the bits of a datagram: 0x5B for 1, 0x11 for 2, 0x10 for 4, 0x12 for 8, and no others |
| Keystrokes.KeystrokesAreTyped | SoundRemote/Keystroke.cpp:20-52 | of every keystroke received the key and its modifiers go down, and no other key is typed |

## Left out

- Windows audio, Media Foundation resampling and the Opus library: they are answers of the `World`, arbitrary at every step.
- Coroutines, sockets, timers and threads: a capture is an event with a byte span, sending appends to the outbox, and the registry's mutex makes each operation one step.
- Send errors and other exceptions that are not `Audio::Error` end the program in the source and are not events here.
- Time is an integer in one unit, in place of floating-point seconds, and comes with each step.
- Registry entries are values in a map rather than separately allocated objects; the source owns each by a unique pointer.
- The server a pipe points to always exists; the source's weak pointer can only expire after the application is gone.
- Muting without a capture pipe is a step without effect; the source's button handler assumes there is one.
- What a resampler has delivered before it fails, since the pipe is dropped then.
- The window's list of keystrokes, and errors of the Windows call that types them; what is handed to that call is modelled.
- Broadcasting the advertisement on every tick; only building the packet is modelled.
- Settings: text mode line-end translation, a file that cannot be opened for writing, and characters outside the C locale.
- Silence: the size of the silence buffer, which is rounded from a floating-point product.
- Window, peak meter, device lists, key names and update download: no invariants beyond library calls.
