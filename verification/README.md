# Verified models of the ECE361 labs

Two programs of the repository are modelled in Dafny and proved correct: the lossy
stop-and-wait file transfer (`File_Transfer_Lab_Part_III`) and the text conference with
its server and clients (`Text_Conferencing_Lab`). `dafny verify dfyconfig.toml` checks
everything.

## How the model is built

A `char` stands for one byte; C strings are sequences without NUL; `unsigned int` is the
subset `0 <= x < 2^32` with casts and `%d` written out. Code that works on buffers and
records in place is modelled by methods over arrays and by classes; each of them is proved
equal to a function of its inputs and old state, and the theorems are about these
functions.

**File transfer.** `CText`, `Buffers`, `Packets` and `Acks` are the printers and parsers;
`Fragments` is the cutting of a file; `RoundTripTime` is the retransmission timer.
`FileTransfer` is a state machine of `deliver`, the server and the two channels between
them, whose datagrams are the real encoded bytes. `TransferProof` has the invariant,
`TransferTheorems` what follows from it in each state, and `TransferOutcomes` what whole
lists of files come to; `TransferReplies` has the bytes in flight and `TransferTimer` what
the timer has measured. `TransferPrograms` has the two main loops as programs, and
`TransferRefinement` shows that in every run of the machine they do what the run says. The
assumptions of the machine are these:

- Replies are not lost and channels keep their order; the server drops packets by a random
  number that is arbitrary here (5 and below drops, server.c lines 59-72).
- A timeout is timely: it fires only when nothing is in flight. `UntimelyTimeout` says what
  happens otherwise.
- A sample is at least the resolution of the sender's clock, which may be zero.
- File names have no colon and at most 228 bytes (the farewell must fit its 256-byte
  buffer), and files have fewer than 2^31 fragments.

**Conference.** `Users` and `Sessions` are the flat table and the handlers as functions;
the two mutexes are flags, so that a return without an unlock shows. `Conference` is the
product of the server with any number of clients: each command is processed to completion
before the next, and a client may die at any time. `ConferenceProof` and
`ConferenceSteps` prove that client flags and server records always agree;
`ConferenceTheorems` and `ConferenceRoles` draw the conclusions, and `GuardExamples`
reaches states in which the guards matter. `SessionLists` is what the two lists show,
`Answers` what each command is answered, word for word, and `Passwords` where a typed
password goes and what it opens. `RoomMoves` and `SessionProof` relate the table
to the abstract sessions, a map from names to members and admins.

`ClientLines` is what a typed line means, and `CommandLines` says it on the text of the
line. `Messages` and `WireFormat` are the bytes on the
sockets. `ConferenceWire` is the product with every request and reply sent as bytes, and
proves that its runs are runs of the product, with the help of `ServerReplies`.
`ConferenceServer` has `user.c` and the handlers as loops over an array,
`ConferencePrograms` the client process, the connection thread and both together, and
`MessageBuffers` the code of `message.c`. `Database` and `Restart` are the account file,
which is read at the start and appended to.

A run starts from a table that was loaded from a file. One receive returns one message. A
client process keeps one socket number over all its connections.

## Where code and documentation differ

The model follows the code.

- `Text_Conferencing_Lab/README.txt` says that accounts are kept permanently. They come
  back after a restart under the condition of `Restart.RestartExactly` only: the client
  admits passwords of up to 19 bytes, the reader's buffer takes 16, and a line appended to
  an empty file starts with a newline that the reader cannot get past.
- It says that a lone remaining user becomes admin when an admin leaves; the code does this
  whoever leaves (user.c lines 260-263). When an admin leaves two or more users behind,
  nobody is admin until one of them is left (`ConferenceRoles`).
- It does not list that kicking or promoting an admin is refused (server.c lines 701-706);
  by `Answers.KickAnswered` the clients never let it come to this.
- After a leave, every admin of every session is told to be one (server.c lines 451-456);
  this is harmless because of the agreement.
- A user name with a colon is accepted by the client, and the server takes the part before
  the colon for the name (`ConferenceWire.WireStepIsStep`).
- The timer updates the estimate before the deviation, the opposite of section 2.3 of RFC
  6298; `RoundTripTime.RelationToRfc` says what difference it makes.
- The comment above `server_side_session_leave` says that it just returns when the user is
  in no session; it returns with the mutex locked (server.c lines 443-445). `AlwaysAgree`
  shows that the clients never let it come to this.

## Model

| member | source | states |
|---|---|---|
| `TransferProof.StepKeeps` | File_Transfer_Lab_Part_III/server/server.c:46-131 | Every step of either program or of the network (send, drop, accept with acknowledgement and write, farewell, reply, timely timeout, new file, shutdown) keeps the invariant that ties both programs, both channels, the directory and the counts together |
| `TransferProof.ReachableInv` | File_Transfer_Lab_Part_III/deliver/deliver.c:118-176 | The invariant holds after every run from the start, for every list of files and every drop pattern |
| `TransferTheorems.StopAndWait` | File_Transfer_Lab_Part_III/deliver/deliver.c:153-176 | While fragment i is awaited, a packet and its acknowledgement are never both in flight, the server has accepted i or i+1 packets, and its file holds exactly that many source fragments |
| `TransferTheorems.ReplyIsTheAck` | File_Transfer_Lab_Part_III/deliver/deliver.c:153-178 | The reply that ends a wait, which deliver never inspects, answers the latest transmission and is numbered i+1: every sample pairs a reply with its own transmission, even after resends |
| `TransferTheorems.ReplyIsTheFarewell` | File_Transfer_Lab_Part_III/deliver/deliver.c:202-219 | What ends the last wait of a file is the text of the farewell with the name of that file, so it is never taken for an acknowledgement |
| `TransferTheorems.CounterMatchesNumber` | File_Transfer_Lab_Part_III/server/server.c:98-119 | The server never reads the fragment number, yet its own counter equals it in every reachable state, and no packet reads as the shutdown command |
| `TransferReplies.DatagramExactly` | File_Transfer_Lab_Part_III/deliver/deliver.c:106-151 | The datagram in flight is, byte for byte, the decimal numbers of fragments, i+1 and size, the name, and the at most 1000 bytes of the file from 1000*i on |
| `TransferReplies.AckExactly` | File_Transfer_Lab_Part_III/server/server.c:59-119 | The acknowledgement that ends a wait is, byte for byte, a total, i+1 and the flag 1; the server answers before it looks at the packet, so for the first fragment of a file the total is that of the file before |
| `TransferTheorems.BetweenFiles` | File_Transfer_Lab_Part_III/deliver/deliver.c:49-69 | At every prompt nothing is in flight, the server is at its outer recvfrom and all earlier files are copied: transfers compose |
| `TransferTheorems.AllCopied` | File_Transfer_Lab_Part_III/server/server.c:46-131 | When deliver has left, the directory is that of the list's files written one over the other in order; datagrams sent are acknowledgements plus drops plus what is still in flight, and there is one acknowledgement per fragment; nothing but the shutdown command is in flight |
| `TransferOutcomes.EveryFileCopied` | File_Transfer_Lab_Part_III/server/server.c:46-131 | When deliver has left, each file of the list that no later one of its name replaces is in the directory and begins with its source; it is the source if and only if neither an old file nor an earlier one of the list under its name was longer |
| `TransferOutcomes.OtherFilesKept` | File_Transfer_Lab_Part_III/server/server.c:79-92 | Files of other names are as they were, and no others appear |
| `TransferOutcomes.LeavesOnlyWithoutEmpty` | File_Transfer_Lab_Part_III/deliver/deliver.c:49-69 | deliver only gets to its end when no file of the list was empty |
| `FileTransfer.CopyExactly` | File_Transfer_Lab_Part_III/server/server.c:81-92 | open() does not truncate: the delivered file begins with the source and equals it if and only if no longer file was there before; other files are untouched |
| `TransferTheorems.StuckExactly` | File_Transfer_Lab_Part_III/deliver/deliver.c:136-176 | A reachable unfinished state has no step if and only if the file is empty (deliver waits for a farewell that never comes) or a packet was lost while an interval under one microsecond had switched the receive timeout off |
| `TransferOutcomes.StickExactly` | File_Transfer_Lab_Part_III/deliver/deliver.c:118-219 | A list of files can get stuck if and only if one of them is empty, or has several fragments and the clock is so fine that the interval can fall under one microsecond within it |
| `TransferOutcomes.EmptyFileStuck` | File_Transfer_Lab_Part_III/deliver/deliver.c:202-219 | The first empty file of any list is reached, and then nothing can happen |
| `TransferOutcomes.TimerOffStuck` | File_Transfer_Lab_Part_III/deliver/deliver.c:136-176 | With the shortest samples all through a file, a drop of its last fragment is reached after which nothing can happen |
| `TransferOutcomes.StuckExamples` | File_Transfer_Lab_Part_III/deliver/deliver.c:118-219 | An empty file gets stuck, and so can a file of 1001 bytes with a clock that reports 0 |
| `TransferTheorems.NeverStuck` | File_Transfer_Lab_Part_III/deliver/deliver.c:118-219 | With non-empty files and samples of at least a microsecond no run stops before the end |
| `TransferTheorems.StepWorks` | File_Transfer_Lab_Part_III/deliver/deliver.c:118-176 | Every step other than a drop strictly decreases the remaining work; a drop, which the five lowest of a hundred random numbers make, adds one round of three steps |
| `TransferTheorems.RunLength` | File_Transfer_Lab_Part_III/deliver/deliver.c:118-176 | Every run is at most as long as the work of its files plus three steps a drop |
| `TransferOutcomes.UntimelyTimeout` | File_Transfer_Lab_Part_III/server/server.c:98-119 | For every list and every reachable state: a timeout while the acknowledgement of a fragment other than the last is on its way makes the server write that fragment twice; the file is right so far if and only if the fragment begins with the next one |
| `TransferOutcomes.UntimelyTimeoutDuplicates` | File_Transfer_Lab_Part_III/server/server.c:98-119 | So the timely-timeout assumption is needed: with two fragments and an empty directory the file comes out wrong unless the fragments are equal |
| `Fragments.FragmentSize` | File_Transfer_Lab_Part_III/deliver/deliver.c:106-133 | Each fragment has 1 to 1000 bytes, all but the last exactly 1000, and the reads before it end where it starts |
| `Fragments.FragmentationInverse` | File_Transfer_Lab_Part_III/deliver/deliver.c:106-151 | Decoding the encoded fragments in order and concatenating their data gives back the file, for every file and every name of up to 255 bytes without a colon |
| `Packets.PacketRoundTripExactly` | File_Transfer_Lab_Part_III/packets/packet.c:16-74 | Encoding and decoding a packet gives it back, whatever bytes follow, if and only if its file name has no colon; payloads may hold colons and NULs and numbers of 2^31 and above are printed negative |
| `Packets.EncodedLength` | File_Transfer_Lab_Part_III/packets/packet.c:16-26 | A datagram is at most 1292 bytes and fits the 2000-byte buffers |
| `Packets.PacketIsNotDone` | File_Transfer_Lab_Part_III/server/server.c:74-77 | No datagram that carries a packet compares equal to the shutdown command |
| `Acks.AckRoundTrip` | File_Transfer_Lab_Part_III/packets/ack.c:10-46 | Every acknowledgement, with any two unsigned fields and any char flag, is decoded to itself whatever follows |
| `Acks.BufferToAck` | File_Transfer_Lab_Part_III/packets/ack.c:15-46 | The parser gives the same result for every initial content of its stack buffer, although it ends fields with a newline and leaves stale digits behind it |
| `CText.FieldRoundTrip` | File_Transfer_Lab_Part_III/packets/packet.c:17-38 | Printing an unsigned field with %d and reading it with atoi and a cast is the identity, whatever non-digit follows |
| `CText.FieldLength` | File_Transfer_Lab_Part_III/packets/packet.c:29-37 | A printed field has at most 11 characters, so that content[12] holds it with its terminator |
| `CText.DigitsAreDecimal` | File_Transfer_Lab_Part_III/packets/packet.c:17-26 | The printed digits are the decimal notation of the number, without leading zeros |
| `CText.AtoiStopsAt` | File_Transfer_Lab_Part_III/packets/ack.c:19-25 | atoi of a field does not depend on what stands in the buffer behind its terminator |
| `RoundTripTime.RelationToRfc` | File_Transfer_Lab_Part_III/deliver/deliver.c:14-22 | For every sample sequence the estimate is the SRTT of section 2 of RFC 6298 and the deviation is 7/8 of its RTTVAR plus (R0/16)(3/4)^n, although the code updates in the opposite order |
| `RoundTripTime.TimeoutAtMostRfc` | File_Transfer_Lab_Part_III/deliver/deliver.c:178-195 | The timeout never exceeds SRTT + 4*RTTVAR of section 2 of RFC 6298 |
| `RoundTripTime.TimerBounds` | File_Transfer_Lab_Part_III/deliver/deliver.c:178-195 | With all samples in [m, M], m >= 0, the estimate stays in [m, M], the deviation in [0, max(R0/2, 7/8(M-m))], and the timeout is at least the estimate |
| `RoundTripTime.SteadyExactly` | File_Transfer_Lab_Part_III/deliver/deliver.c:187-195 | Under constant samples the error of the estimate and the deviation are given in closed form by powers of 7/8 and 3/4 |
| `RoundTripTime.SteadyTimeout` | File_Transfer_Lab_Part_III/deliver/deliver.c:187-195 | Under constant samples the timeout exceeds them by at most 8*e0*(7/8)^n + 4*D0*(3/4)^n and by at least (4*D0 - e0)*(3/4)^n |
| `RoundTripTime.ArmedExactly` | File_Transfer_Lab_Part_III/deliver/deliver.c:140-145 | The timeval is the interval in whole microseconds, rounded down; it is {0,0}, which disables the receive timeout, if and only if the interval is under one microsecond |
| `Packets.PacketStruct.WritePackets` | File_Transfer_Lab_Part_III/packets/packet.c:6-14 | The struct then holds exactly the given numbers, name and bytes |
| `Packets.PacketStruct.ConvertToString` | File_Transfer_Lab_Part_III/packets/packet.c:16-26 | The buffer up to the returned bound is the encoding of the struct |
| `Packets.PacketStruct.BufferToPacket` | File_Transfer_Lab_Part_III/packets/packet.c:28-74 | The struct then holds what the specification decodes from the buffer, for every buffer on which the loops stay in bounds |
| `Acks.AckToBuffer` | File_Transfer_Lab_Part_III/packets/ack.c:10-13 | The buffer as a C string is the encoding of the acknowledgement |
| `TransferPrograms.FileServer.ServeRest` | File_Transfer_Lab_Part_III/server/server.c:98-131 | The inner loop, whose counter steps back on a drop, leaves the state that the datagram-by-datagram specification gives |
| `TransferPrograms.FileServer.Serve` | File_Transfer_Lab_Part_III/server/server.c:46-145 | For every sequence of received datagrams and random numbers the program sends the replies and leaves the directory that the state machine gives |
| `TransferPrograms.Deliver.Measure` | File_Transfer_Lab_Part_III/deliver/deliver.c:178-195 | The estimates and the interval after a reply are those of the timer specification |
| `TransferPrograms.Deliver.SendFile` | File_Transfer_Lab_Part_III/deliver/deliver.c:106-219 | For every file name that fits its buffer and every sequence of replies and timeouts one file is sent as the specification of the sender gives; the number of replies says which fragment is waited for, and estimate, deviation and interval are those that section 2 of RFC 6298 makes of the samples of all fragments so far, in order (with the exact 7/8 relation) |
| `TransferRefinement.ServerRefines` | File_Transfer_Lab_Part_III/server/server.c:46-145 | In every run of the state machine the server program, given the datagrams of the run, is where the run has the server and has sent exactly the replies that the sender took or that are still on their way |
| `TransferRefinement.SenderRefines` | File_Transfer_Lab_Part_III/deliver/deliver.c:106-219 | In every run, within each file, the sender program, given the replies and timeouts of the run, is where the run has the sender and has sent exactly the datagrams that the server took, that are on their way or that are due |
| `TransferTimer.TimerOfSamples` | File_Transfer_Lab_Part_III/deliver/deliver.c:178-195 | In every run, for every list of files: fragment i waits after exactly i measured samples of its file, and the timer is what section 2 of RFC 6298 makes of all of them, in order; nothing of the file before is left in it |
| `ConferenceSteps.StepAgrees` | Text_Conferencing_Lab/client/client.c:266-427 | Each command of each client, or its sudden death, keeps the agreement between client flags, connection threads and server records, and the table invariant |
| `ConferenceSteps.AlwaysAgree` | Text_Conferencing_Lab/client/client.c:102-188 | In every run, every logged-in client has the session flag and role of its record, names are unique, an in-session user is online, an admin is in a session, sessions have at most six members and one admin, a sole member is admin, and no handler faults or keeps a mutex |
| `ConferenceTheorems.GuardsDischarge` | Text_Conferencing_Lab/client/client.c:393-427 | In every reachable state each request satisfies what its handler relies on without checking: create from outside, leave and talk from inside, kick and promote as the admin and not of oneself |
| `ConferenceTheorems.KickNeedsGuard` | Text_Conferencing_Lab/server/server.c:670-720 | Without the client guard a kick breaks the invariant if and only if the sender is a plain member of a session of two |
| `GuardExamples.KickUnguarded` | Text_Conferencing_Lab/server/server.c:670-720 | This occurs: a state is reached in which such a kick would break the invariant |
| `ConferenceTheorems.PromoteNeedsGuard` | Text_Conferencing_Lab/server/server.c:725-776 | Without the client guard a promotion breaks the invariant if and only if the session has an admin other than the sender |
| `GuardExamples.PromoteUnguarded` | Text_Conferencing_Lab/server/server.c:725-776 | This occurs: a state is reached in which such a promotion would break the invariant |
| `ConferenceTheorems.CreateNeedsGuard` | Text_Conferencing_Lab/server/server.c:374-395 | Without the client guard a create from within a session breaks the invariant if and only if exactly one other member is left behind who is not its admin |
| `GuardExamples.CreateUnguarded` | Text_Conferencing_Lab/server/server.c:374-395 | This occurs: a state is reached in which such a create would break the invariant |
| `ConferenceTheorems.StepRefines` | Text_Conferencing_Lab/server/server.c:374-458 | Data refinement: in every reachable state each command does to the map from session names to members and admins exactly what it means, and nothing to other sessions |
| `ConferenceTheorems.RefusalMeans` | Text_Conferencing_Lab/server/server.c:682-706 | The chain of checks in kick and promote refuses if and only if the target is not a plain member of the sender's session |
| `ConferenceTheorems.EveryoneSomewhere` | Text_Conferencing_Lab/server/user.c:213-225 | Conservation: the sizes of all sessions plus the count of users in none add up to the number of users |
| `ConferenceRoles.AdminLost` | Text_Conferencing_Lab/server/user.c:244-265 | A session loses its admin if and only if the admin leaves, logs out or dies and two or more members stay |
| `ConferenceRoles.AdminBack` | Text_Conferencing_Lab/server/user.c:257-263 | A session without an admin gets one only when someone goes and one member is left, who then is the admin |
| `ConferenceRoles.StaysWithout` | Text_Conferencing_Lab/server/user.c:257-263 | Over runs: once without an admin, a session stays so until a single member is left |
| `ConferenceTheorems.BroadcastExact` | Text_Conferencing_Lab/server/server.c:530-544 | A chat message reaches the clients of exactly the members of the sender's session, each once |
| `ConferenceTheorems.NobodyOutside` | Text_Conferencing_Lab/server/server.c:281-287 | The text that all users outside share reaches nobody, although many records hold it |
| `SessionLists.ListExact` | Text_Conferencing_Lab/server/user.c:114-144 | In every reachable state the list of a session is its heading and one row for each member and no other: the name filled to 17 columns, the session to 10, and ADMIN for the admin, USER for the others; at most 324 bytes, so it fits the message data |
| `SessionLists.OnlineListExact` | Text_Conferencing_Lab/server/user.c:160-185 | In every reachable state the list of users online is its heading and one row for each user that some client is logged in as, and no other, with the session this user is in |
| `SessionLists.QueryExact` | Text_Conferencing_Lab/server/server.c:265-279 | A query for a session is answered with its list if and only if the session exists |
| `Answers.KickAnswered` | Text_Conferencing_Lab/server/server.c:670-720 | In every reachable state an admin who kicks is told one thing: that it was done if and only if the user was in the session before and is not after, and otherwise the first reason against it; the client of the user is told from which session, and nobody else hears of it. That the target is an admin is never the reason |
| `Answers.PromoteAnswered` | Text_Conferencing_Lab/server/server.c:725-776 | An admin who promotes is told that it was done if and only if the user has the role afterwards, and otherwise the first reason against it; the client of the user is told, and nobody else |
| `Answers.JoinAnswered` | Text_Conferencing_Lab/server/server.c:402-434 | Who asks to join is told that it was done if and only if they are in the session afterwards, and otherwise whether the session does not exist or has six members |
| `Answers.CreateAnswered` | Text_Conferencing_Lab/server/server.c:374-395 | Who asks to create a session is told that it was done if and only if no session had this name, and is in it afterwards |
| `Answers.LeaveAnswered` | Text_Conferencing_Lab/server/server.c:440-458 | When a user leaves, logs out of a session or dies in it, exactly the clients of those who are admins afterwards, of any session, are told so, once each |
| `Answers.UserListAnswered` | Text_Conferencing_Lab/server/server.c:265-279 | Who asks for the list of a session gets it, and nothing else, if and only if the session exists |
| `Answers.ListAnswered` | Text_Conferencing_Lab/server/server.c:255-263 | Who asks for the list of users online gets it, and nothing else |
| `Passwords.AccountsAfter` | Text_Conferencing_Lab/server/server.c:615-652 | In every reachable state each command leaves all accounts as they are, except that a registration by a client that is not logged in, within the lengths, under a free name and with fewer than 100 users adds exactly the typed name and password, to the table and as a line to the file |
| `Passwords.RegisterAnswered` | Text_Conferencing_Lab/server/server.c:208-233 | Who registers is told that it was done if and only if they are logged in under that name afterwards, and otherwise whether the list is full or the name taken |
| `Passwords.LoginAnswered` | Text_Conferencing_Lab/server/server.c:186-207 | Who logs in is told that it was done if and only if they are logged in under that name afterwards, and otherwise the first of: no such user, another password, logged in elsewhere |
| `Passwords.OnlyThatPassword` | Text_Conferencing_Lab/server/server.c:336-352 | After any run that follows a registration, a login under that name while nobody is logged in under it succeeds if and only if the password is the one registered |
| `Passwords.ComesBack` | Text_Conferencing_Lab/server/server.c:357-372 | A user who registers, logs out and logs in again needs the password typed at first |
| `Passwords.OnlyThatPasswordAfterRestart` | Text_Conferencing_Lab/server/server.c:549-576 | And so it is after a restart, under the condition for the file to be read back |
| `WireFormat.RequestArrives` | Text_Conferencing_Lab/message/message.c:48-107 | Every request that can be sent, chat included, is read by the server as it was sent, except that a colon in the source ends the name there |
| `WireFormat.BytesExactly` | Text_Conferencing_Lab/message/message.c:48-64 | The bytes of every request are type and size in decimal, source and text, with colons between them; the size of chat counts the newline that is not sent |
| `WireFormat.ReplyArrives` | Text_Conferencing_Lab/message/message.c:140-150 | Every reply that fits the format is read by the client as it was sent |
| `ServerReplies.HandleSpeaks` | Text_Conferencing_Lab/server/server.c:180-302 | Whatever a handler does, the table still holds C strings that fit their buffers, and its replies fit the message format |
| `ConferenceWire.WireStepIsStep` | Text_Conferencing_Lab/server/server.c:152-302 | In every reachable state every command that can be typed does over the wire, request and reply bytes included, exactly what it does in the product machine; a name with a colon acts as the part before it with another password of the same length |
| `ConferenceWire.WireRunIsRun` | Text_Conferencing_Lab/server/server.c:152-302 | Every run over the wire, whatever names and texts are typed, is a run of the product machine |
| `ConferenceWire.WireRunAgrees` | Text_Conferencing_Lab/client/client.c:102-188 | So client flags and server records agree in every run over the wire |
| `ConferenceWire.LineReachesMembers` | Text_Conferencing_Lab/server/server.c:281-287 | A line typed in a session is read, without its newline and with its author, by the client of each member, once, and by nobody else |
| `ConferenceWire.OnlineListFits` | Text_Conferencing_Lab/server/user.c:160-185 | The list of all users online fits the message data while at most 25 users are online |
| `ClientLines.MeantIsWellTyped` | Text_Conferencing_Lab/client/client.c:245-272 | Whatever line is typed, the command it names has words without spaces, newlines or NULs, and a line that is no command is chat that the format carries |
| `ClientLines.SplitLine` | Text_Conferencing_Lab/client/client.c:248-261 | The loop over strtok gives the words and the count of the specification: one word only if the line does not start with a slash, and five at most |
| `CommandLines.WordsExactly` | Text_Conferencing_Lab/client/client.c:248-261 | The words of a line are exactly the solid pieces between its spaces and newlines, in order |
| `CommandLines.CommandsOnOne` | Text_Conferencing_Lab/client/client.c:346-427 | A line asks to kick, promote, join, create or list with argument v if and only if it starts with a slash and its words are that command and v |
| `CommandLines.BareCommands` | Text_Conferencing_Lab/client/client.c:275-400 | A line asks to log out, to list or to leave if and only if it starts with a slash and its only word is that command |
| `CommandLines.SigningOn` | Text_Conferencing_Lab/client/client.c:282-327 | A line asks to log in or to register with a name and a password if and only if it starts with a slash and its words are that command, the name, the password and two more |
| `CommandLines.TextLines` | Text_Conferencing_Lab/client/client.c:233-272 | A line is text if and only if it does not start with a newline and its first word, if any, does not start with a slash; the text is the line without its newline |
| `CommandLines.TypedOnOne` | Text_Conferencing_Lab/client/client.c:696-709 | As usually typed: the command, a space and the argument |
| `CommandLines.TypedSigningOn` | Text_Conferencing_Lab/client/client.c:282-327 | As usually typed: the command, the name, the password, the address and the port |
| `Users.CountIsMembers` | Text_Conferencing_Lab/server/user.c:213-225 | The counting loop counts the distinct members of a session |
| `SessionProof.CreateKeeps` | Text_Conferencing_Lab/server/server.c:374-395 | A user outside who creates a session is alone in it, as its admin; an existing session is left alone; the invariant is kept |
| `SessionProof.JoinKeeps` | Text_Conferencing_Lab/server/server.c:402-434 | Joining adds the user to a session that exists and is not full, and otherwise changes nothing |
| `SessionProof.LeaveKeeps` | Text_Conferencing_Lab/server/server.c:440-458 | Leaving removes the user, dissolves an empty session, makes a user left alone its admin, and releases the mutex |
| `SessionProof.UserExitKeeps` | Text_Conferencing_Lab/server/server.c:357-372 | Signing off first takes the user out of the session |
| `SessionProof.KickKeeps` | Text_Conferencing_Lab/server/server.c:670-720 | An admin's kick removes exactly the target from the session, or is refused and changes nothing |
| `SessionProof.PromoteKeeps` | Text_Conferencing_Lab/server/server.c:725-776 | An admin's promotion moves the role to the target, or is refused and changes nothing |
| `SessionProof.LoginExactly` | Text_Conferencing_Lab/server/server.c:336-352 | A login succeeds if and only if an offline user has that name and password; the other answers are exact too |
| `SessionProof.LoginKeeps` | Text_Conferencing_Lab/server/server.c:479-495 | A login changes no session |
| `SessionProof.RegisterKeeps` | Text_Conferencing_Lab/server/server.c:615-640 | A registration keeps names unique and changes no session |
| `RoomMoves.LeftRefines` | Text_Conferencing_Lab/server/user.c:244-265 | user_exit_current_session moves exactly one user out and gives the role to a user left alone |
| `ConferenceServer.UserList.DatabaseSearchUser` | Text_Conferencing_Lab/server/user.c:190-201 | The loop finds the first record of a name, or none |
| `ConferenceServer.UserList.GetUserCountInASession` | Text_Conferencing_Lab/server/user.c:213-225 | The loop computes the count of the specification and releases the mutex |
| `ConferenceServer.UserList.SetTheOnlyUserAdmin` | Text_Conferencing_Lab/server/user.c:146-156 | In place, exactly the members of the session become admins |
| `ConferenceServer.UserList.UserExitCurrentSession` | Text_Conferencing_Lab/server/user.c:244-265 | The array becomes the table of the specification; the early return keeps the mutex |
| `ConferenceServer.UserList.GetActiveUserList` | Text_Conferencing_Lab/server/user.c:114-144 | The text is the title and one line for each member, or the session is reported missing |
| `ConferenceServer.UserList.GetOnlineList` | Text_Conferencing_Lab/server/user.c:160-185 | The text is the title and one line for each user online |
| `ConferenceServer.UserList.AddUser` | Text_Conferencing_Lab/server/user.c:32-57 | A user is appended, or the list is full, or the name is taken |
| `ConferenceServer.UserList.SessionCreate` | Text_Conferencing_Lab/server/server.c:374-395 | Array, mutexes and replies are those of the create specification |
| `ConferenceServer.UserList.SessionJoin` | Text_Conferencing_Lab/server/server.c:402-434 | Array, mutexes and replies are those of the join specification |
| `ConferenceServer.UserList.SessionLeave` | Text_Conferencing_Lab/server/server.c:440-458 | Array, mutexes and replies are those of the leave specification, including the return that keeps the mutex |
| `ConferenceServer.UserList.ExitUser` | Text_Conferencing_Lab/server/server.c:357-372 | Array, mutexes and replies are those of the sign-off specification |
| `ConferenceServer.UserList.KickUser` | Text_Conferencing_Lab/server/server.c:670-720 | Array, mutexes and replies are those of the kick specification |
| `ConferenceServer.UserList.PromoteUser` | Text_Conferencing_Lab/server/server.c:725-776 | Array, mutexes and replies are those of the promote specification |
| `ConferenceServer.UserList.Verify` | Text_Conferencing_Lab/server/server.c:336-352 | The code is that of the login check |
| `ConferenceServer.UserList.LogIn` | Text_Conferencing_Lab/server/server.c:186-207 | The record is signed on at this socket, or the right refusal is sent |
| `ConferenceServer.UserList.RegisterUser` | Text_Conferencing_Lab/server/server.c:615-652 | The user is appended to the array and its line to the file, or the right refusal is sent |
| `ConferenceServer.UserList.SendMessageInASession` | Text_Conferencing_Lab/server/server.c:530-544 | The sockets written to, in table order |
| `ConferencePrograms.ConnectionHandler.HandleRequest` | Text_Conferencing_Lab/server/server.c:180-306 | One message of the receive loop changes the array, the thread's locals and the replies as the dispatch specification says; a message of another type is sent back |
| `ConferencePrograms.RequestsServed` | Text_Conferencing_Lab/server/server.c:235-302 | In every reachable state each request that a command sends finds the mutexes free and, if its handler follows a pointer to a user, finds that user: what the handlers require always holds |
| `ConferencePrograms.RunLine` | Text_Conferencing_Lab/client/client.c:233-427 | A line typed in a reachable state: client and server programs together do one step of the product machine, up to the delivery of the replies |
| `ConferencePrograms.ClientProcess.TypeLine` | Text_Conferencing_Lab/client/client.c:233-282 | A line is cut into words, its command found and its words counted, and then the command does what the specification of the command loop gives |
| `ConferencePrograms.ClientProcess.Execute` | Text_Conferencing_Lab/client/client.c:282-427 | A command whose words were counted changes the client's flags and sends the requests that the specification gives |
| `ConferencePrograms.ClientProcess.OnServerMessage` | Text_Conferencing_Lab/client/client.c:90-201 | One server message changes the client's flags as the specification gives |
| `ConferencePrograms.ClientProcess.Logout` | Text_Conferencing_Lab/client/client.c:557-568 | Leaves the session first if in one, clears the flags and sends EXIT |
| `ConferencePrograms.ClientProcess.Leave` | Text_Conferencing_Lab/client/client.c:583-595 | Clears session and role and sends the request, if in a session |
| `Messages.Arrives` | Text_Conferencing_Lab/message/message.c:48-107 | Sending only the bytes before the first NUL loses nothing: the receiver's cleared struct shows kind, size, source and text, and none of the sender's stale bytes |
| `Messages.CommandArrives` | Text_Conferencing_Lab/message/message.c:140-150 | What the receiver reads of any command, whatever its source: the name up to its first colon, and a text of the same length |
| `Messages.CommandRoundTripExactly` | Text_Conferencing_Lab/message/message.c:140-150 | A command or reply arrives with kind, source and text if and only if its source has no colon |
| `Messages.SaidShowsLine` | Text_Conferencing_Lab/client/client.c:249-261 | The byte that strtok overwrote is restored: the message data is the typed line without its newline |
| `Messages.RefilledIsSame` | Text_Conferencing_Lab/server/server.c:281-287 | The server's second fill_message of a chat message is the identity |
| `Messages.ChatEndToEnd` | Text_Conferencing_Lab/client/client.c:334-345 | From the typed line to each recipient: right type, size and author, and the line without its newline |
| `MessageBuffers.MessageStruct.FillMessage` | Text_Conferencing_Lab/message/message.c:11-39 | The byte loops leave exactly the kind, size, source and data of the specification |
| `MessageBuffers.MessageStruct.MessageToString` | Text_Conferencing_Lab/message/message.c:48-64 | The buffer holds header and data, the count is their length, and as a C string it is what goes on the wire |
| `MessageBuffers.MessageStruct.StringToMessage` | Text_Conferencing_Lab/message/message.c:71-107 | The struct holds what the specification parses; bytes of the data behind the size stay as they were |
| `MessageBuffers.FillAndSendMessage` | Text_Conferencing_Lab/message/message.c:140-150 | The bytes handed to send are the wire form of the command |
| `MessageBuffers.Forward` | Text_Conferencing_Lab/server/server.c:281-287 | The bytes that each recipient gets are the wire form of the message received, filled again |
| `Database.SetUpDatabase` | Text_Conferencing_Lab/server/server.c:549-576 | The loop over the file and the array leaves the table that the specification loads, or stops where the file cannot be read back |
| `Database.ScanQuoted` | Text_Conferencing_Lab/server/server.c:561-561 | One fscanf call reads back exactly the name and password of a line, and skips to the next |
| `Database.AddedExactly` | Text_Conferencing_Lab/server/server.c:561-573 | An account that is read is appended to the table, offline and in no session, unless the name is taken or 100 users are there: the first line of a name counts |
| `Database.LineLoaded` | Text_Conferencing_Lab/server/server.c:643-652 | A line appended to a complete, non-empty file adds exactly that account on the next start and leaves the file complete |
| `Database.LoadIsFresh` | Text_Conferencing_Lab/server/server.c:549-576 | Whatever file loads, the table has unique names, at most 100 users, all offline and in no session |
| `Database.ReloadExactly` | Text_Conferencing_Lab/server/server.c:643-652 | After any registrations a reload shows exactly the same accounts in order if and only if there were none, or the file was not empty and every new name and password has 1 to 16 bytes without quote and bar |
| `Database.ShippedLoads` | Text_Conferencing_Lab/server/server.c:549-576 | The file in the repository is complete and loads to its seven accounts |
| `Restart.RestartExactly` | Text_Conferencing_Lab/server/server.c:615-652 | In every run of the conference from a loaded file, reloading brings back exactly the accounts of the table, all offline, under exactly that condition |
| `Restart.EveryoneReturns` | Text_Conferencing_Lab/server/server.c:336-352 | Under that condition every user in the table can log in with their password after the restart |
| `Restart.LongPasswordOverflows` | Text_Conferencing_Lab/client/client.c:503-506 | A password of 17 to 19 bytes passes the client's check and the registration, and on the next start overflows the reader's buffer of 17 bytes; what C does then is undefined |

## Left out

- Sockets, address lookup, `select`/`accept`, signals, prompts, logging and the release of memory: no content to prove; failing system calls end the C programs.
- Interleavings of the server's threads: each handler is one atomic step, because sign-off tests the session outside the lock and login checks and sets in two steps.
- Several messages in one TCP read: the C code parses only the first one.
- Client flags that change while a command is on its way: a kick that races a leave breaks the agreement, so each command runs to completion.
- Floating-point rounding and what `clock()` measures: the timer is over `real`, the fragment count is an integer ceiling.
- Loss and reordering of replies, and loss of data packets other than by the server's random number.
- The array of 16 slots that `user_database_init` allocates for up to 100 users: the model's array has room for 100.
- Addresses and ports of users, and everything printed.
- ConferenceWire.WireStepIsStep: asks that the list of all users online fit the message data when it is requested, because the code sets it no bound; `OnlineListFits` says when it does.
- Limits of ten threads on both sides, and the server's exit when they are used up.
- `remove_user_by_name_in_database`, which is marked as never called.
- Parts I and II of the file transfer: Part III has their codec and their exchange.
- A read that returns no bytes before the file's size is reached: the file does not change while it is sent.
- Words of 50 bytes and more in a typed line, which do not fit the client's buffers, and lines of more than 1000 bytes.
- TransferPrograms.FileServer.Serve: speaks of datagrams on which the parser stays in bounds; the C code does not check others.
- MessageBuffers.MessageStruct.MessageToString: assumes that the size argument is the message's own size, as every caller does.
- Database.SetUpDatabase: stops at the first fscanf call that leaves a buffer stale, overflows it or meets a NUL byte; what the C code does from there is not modelled.
- ConferencePrograms.ConnectionHandler.HandleRequest: takes the message already parsed; `WireFormat`, `Forward` and `StringToMessage` cover the bytes. A message of an unknown type is sent back as its parsed parts.
- ConferencePrograms.ClientProcess.Execute: takes the connection to the server as made; `getaddrinfo` and `connect` may fail in the C code. A program that quits is a client that logs out and types nothing more.
