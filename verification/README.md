# English-learning client and server: a verified model

The repository is a C++ application for learning English: a server that keeps users, sessions, lessons, feedback and
game items in memory, and clients that talk to it over TCP. One message is one line, `TYPE|LENGTH|SEQUENCE|PAYLOAD`
and a newline. This project models the wire format, the framing loop, the server's state machine (one thread of
control, one step per event), the connection handlers, the in-memory database, the client's request/reply loop and
the payload and configuration parsers, and proves what they keep over every run.

## How the model is built

Every component that the program updates in place is a class (`ByteBuffer`, `Protocol`, `Database`, `ClientHandler`,
`ServerProcess`, `Client`) whose methods have the loops, branches and early returns of the C++ code. Each method is
proved against a function on values (`Extract`, `Handle`, `Step`, `Await` and so on), and the laws are proved about
those functions: `Run` is a sequence of `Step`s, and a lemma about `Run` is about every run of the class.

| file | models |
|---|---|
| CommonUtils.dfy, Decimal.dfy | `Utils::split`, `Utils::trim`, list joining, decimal printing, `std::stoi` |
| MessageStructs.dfy | `Message`, its constructor, `serialize`, `deserialize` |
| Framing.dfy | the line loop of `extractMessages`, for any meaning of a line |
| Protocol.dfy | `extractMessages`, `validateMessage`, which messages survive the wire |
| Parser.dfy, ConfigParser.dfy | payload parsers and builders; the configuration scanner |
| Database.dfy, ClientHandler.dfy, Server.dfy | the tables, one connection's handler, the server and its poll loop |
| RequestOutcomes.dfy | each kind of request: when it is accepted, what it changes, what it replies |
| HandlerEffects.dfy, ReplyDelivery.dfy | what handling any message can change and reply |
| ServerRuns.dfy, Descriptors.dfy, SessionAgreement.dfy | invariants of whole runs |
| Ordering.dfy | the order of messages in a receive and of clients in a poll round |
| Client.dfy, EndToEnd.dfy | the waiting client; client, network and server composed |

Conventions:

- Strings are sequences of characters that stand for bytes. Every theorem holds for all characters, so for all 256
  byte values.
- Message types, payload lengths, roles and levels are 16-bit and 8-bit numbers, sequence numbers 32-bit ones; casts
  are written as `%`. `stoi` gives `None` where it throws: no digits, or a value outside 32-bit `int`.
- What the environment decides is a parameter: the result of `accept` and of switching to non-blocking mode, the
  reports of `poll`, the bytes of each `recv`, whether `send` succeeds, every reading of the clock, and the password
  hash (an arbitrary function, the field `hash`). Walking a map in the sweep and in `stop` is done in any order.
- Four state predicates appear as premises. Each holds initially and is kept by every run: `Consistent`
  (`InitialConsistent`, `RunIdentity`), `DescriptorsOk` (`InitialDescriptors`, `RunDescriptors`), `CleanServer`
  (`InitialClean`, `RunClean`), and `Agree` (`InitialAgree`; kept exactly as `SessionAgreementExactly` says).

## Where the code does not do what one would expect

- TECHNICAL_DOCUMENTATION.md:1103 appends what the server receives to a buffer of the client; src/server/Server.cpp:245
  uses a fresh buffer for every receive. The model follows the code: a stream of requests gets through if and only if
  every receive ends at a line end (`StreamSurvivesExactly`); a request cut at any byte is lost (`SplitRequestLost`).
- The documentation numbers roles and levels 0 to 2 (QUICK_REFERENCE.md:22); the code, and the model, 1 to 3
  (include/common.hpp:53-64).
- Lesson content has several lines, and a line is a message: no reply to a lesson content request ever reaches the
  client (`LessonContentUnreadable`, `LessonContentNeverArrives`).
- Decoding is not injective and re-encoding not always a round trip: a negative sequence field wraps to a number that
  `stoi` refuses, and a payload that ends in CR loses it. `NormalForm` and `RelayNormalForm` say exactly when,
  `NotNormal` gives an input for each.
- A second login on one connection leaves the first session behind: `LeakFromTheStart` is a run that does so,
  `SessionAgreementExactly` the exact condition.
- Of several replies that one call completes the client drops all but the first (`NothingLostExactly`,
  `SecondReplyLost`).
- An entry with a `;`, or an empty first or last entry, spoils a list (`JoinSplitExact`); stored feedback entries are
  never empty, so there only the `;` does (`FeedbackTransportable`).

## Model

| member | source | states |
|---|---|---|
| `CommonUtils.SplitTokens` | include/common.hpp:123-131 | the getline loop collects `Split`: a trailing delimiter opens no token, "" has none |
| `CommonUtils.SplitIntercalate` | include/common.hpp:123-131 | splitting a text joined from delimiter-free entries gives the entries back, but for an empty last one |
| `CommonUtils.Trim` | include/common.hpp:115-120 | no blank is left at either end, no other character is lost, none is made up |
| `CommonUtils.BlankCodes` | include/common.hpp:115-120 | the blanks trimmed are ASCII 32, 9, 10 and 13 |
| `CommonUtils.TrimSurrounded` | include/common.hpp:115-120 | any blanks around a core without blank ends are exactly what is removed |
| `CommonUtils.JoinLoop` | src/server/ClientHandler.cpp:186-190 | the accumulator loop of the list handlers, which writes no separator while the text is empty |
| `CommonUtils.JoinIsIntercalate` | src/server/ClientHandler.cpp:292-296 | leading empty entries vanish, otherwise the loop puts a separator between every two neighbours |
| `CommonUtils.JoinSplitExact` | src/client/Client.cpp:224-233 | server-side joining and client-side splitting return the list if and only if it is empty or has nonempty ends and no `;` in any entry |
| `Decimal.StoiOfToString` | include/message_structs.hpp:120-156 | parsing a printed number with any non-digit junk behind it gives the number exactly if it is a 32-bit `int` |
| `Decimal.StoiOfSpelling` | include/message_structs.hpp:152-156 | every spelling of a number, with blanks, a sign, leading zeros and junk, is read as that number exactly if it is a 32-bit `int` |
| `Decimal.StoiGrammar` | include/message_structs.hpp:152-162 | `stoi` on every text: blanks, at most one sign, as many digits as there are, a rest; without digits it throws, otherwise digits and sign are the number if it is a 32-bit `int` |
| `Decimal.NoNumberRefused` | include/message_structs.hpp:152-162 | a text of blanks and at most one sign that no digit follows is refused |
| `Decimal.SpaceCodes` | include/message_structs.hpp:154-156 | the blanks skipped are ASCII 32 and 9 to 13 |
| `Decimal.DigitsSuffixSmaller` | include/message_structs.hpp:120-127 | a printed number has no leading zero: each proper suffix has a smaller value |
| `MessageStructs.CutLine` | include/message_structs.hpp:130-150 | the three searches with their early returns |
| `MessageStructs.AssignFields` | include/message_structs.hpp:152-162 | fields are assigned one by one and the type becomes UNKNOWN where `stoi` throws |
| `MessageStructs.DeserializeMessage` | include/message_structs.hpp:130-165 | the imperative decoder computes `Deserialize` |
| `MessageStructs.CutFields` | include/message_structs.hpp:133-150 | the first three bars delimit the fields, whatever bars the payload holds |
| `MessageStructs.HeaderDecodes` | include/message_structs.hpp:120-165 | a printed header decodes in front of any payload; a sequence above 2147483647 gives UNKNOWN |
| `MessageStructs.RoundTrip` | include/message_structs.hpp:120-165 | decoding a serialized message without its newline returns it if and only if its sequence is at most 2147483647, for every type, length and payload |
| `MessageStructs.NormalForm` | include/message_structs.hpp:130-165 | for every text: decode, encode, decode equals decode if and only if the decoded sequence is at most 2147483647 |
| `MessageStructs.ManySpellings` | include/message_structs.hpp:152-160 | any spellings of any numbers, also negative ones, that equal the three fields modulo their ranges decode to the same message |
| `MessageStructs.WrappedSequence` | include/message_structs.hpp:156-162 | every sequence above 2147483647 is received from a negative number, and its printed form decodes to UNKNOWN |
| `MessageStructs.SerializeInjective` | include/message_structs.hpp:120-127 | two messages with the same serialized form are equal, also where they cannot be read back |
| `Framing.RefinesLines` | src/protocol/Protocol.cpp:28-75 | lines, newlines and leftover make up the input, no line or leftover holds a newline, and the result is each line decoded on its own in order |
| `Framing.LinesUnique` | src/protocol/Protocol.cpp:28-32 | lines and leftover are the only way to cut the input |
| `Framing.ChunkingInvariance` | src/protocol/Protocol.cpp:28-75 | extracting `b + c` is extracting `b`, then the leftover with `c`, for messages and for the final leftover |
| `Framing.PollingIsFragmentationFree` | src/client/Client.cpp:145-163 | a reader that keeps its leftover sees the same messages and leftover however the stream is cut |
| `Framing.FreshExtractionOfWholeLines` | src/server/Server.cpp:244-253 | a fresh buffer per receive equals whole-stream extraction if every receive ends at a newline |
| `Framing.FreshLinesExactly` | src/server/Server.cpp:244-253 | for any chunks of any stream of lines, fresh buffers show one suffix of every line, and all of every line if and only if each chunk is empty or ends in a newline |
| `Framing.NothingLeftOver` | src/protocol/Protocol.cpp:28-32 | the leftover is empty exactly if the buffer is, or ends in a newline |
| `Framing.MalformedLineIsIsolated` | src/protocol/Protocol.cpp:40-67 | a line that decodes to nothing changes no message of any other line |
| `ProtocolStream.Protocol.ExtractMessages` | src/protocol/Protocol.cpp:15-76 | the erasing loop returns the messages of the buffer and leaves its leftover in it |
| `ProtocolStream.Protocol.EraseLine` | src/protocol/Protocol.cpp:29-31 | taking and erasing the first line splits the extraction into that line and the rest |
| `ProtocolStream.Protocol.DecodeMessageData` | src/protocol/Protocol.cpp:33-67 | one line: a final CR dropped, an empty line skipped, decoded, validated |
| `ProtocolStream.ExtractedMessage` | src/protocol/Protocol.cpp:28-110 | every extracted message is valid, holds no newline and is shorter than the buffer |
| `ProtocolStream.HeaderThrows` | include/message_structs.hpp:152-162 | a line with a header field on which `stoi` throws carries no message, whatever the other fields and the payload |
| `ProtocolStream.UnreadableHeader` | include/message_structs.hpp:152-162 | so a type, length or sequence field without a number makes the line worthless |
| `ProtocolStream.Deliverability` | src/protocol/Protocol.cpp:28-110 | a serialized message is extracted as itself alone with nothing left over if and only if its sequence is a 31-bit number, it is valid and its payload has no newline and no final CR; any other is not among the results |
| `ProtocolStream.ConstructedDeliverability` | include/message_structs.hpp:116-127 | for constructed messages of any payload size: type not UNKNOWN, at most 8192 bytes, no newline, no final CR |
| `ProtocolStream.ConstructedOnOneLine` | src/protocol/Protocol.cpp:28-110 | a constructed message without newline is extracted as itself or not at all, never as another one, and leaves nothing over |
| `ProtocolStream.DeliverableFitsOneReceive` | src/server/Server.cpp:232-233 | a deliverable request fits into one receive of the server |
| `ProtocolStream.SplitRequestLost` | src/server/Server.cpp:244-253 | a deliverable request that two receives cut at any byte is not among what the server extracts |
| `ProtocolStream.StreamSurvivesExactly` | src/server/Server.cpp:244-253 | for every stream of deliverable requests and every way to cut it into receives, the server extracts exactly these requests if and only if each receive is empty or ends in a newline |
| `ProtocolStream.RelayKeepsDeliverable` | src/protocol/Protocol.cpp:7-76 | decoding the encoding of valid one-line messages keeps exactly the deliverable ones, in order |
| `ProtocolStream.RelayNormalForm` | src/protocol/Protocol.cpp:7-76 | for every buffer: decode, encode, decode of its whole stream changes nothing if and only if no message has a wrapped sequence or a final CR |
| `ProtocolStream.WrappedIsNotRelayed` | include/message_structs.hpp:152-162 | every valid message with a sequence above 31 bits is received from a line, and gone when it is sent on |
| `ProtocolStream.DoubleCRIsNotRelayed` | src/protocol/Protocol.cpp:33-36 | every valid payload that ends in CR is received if the line has one CR more, and gone when it is sent on |
| `ProtocolStream.NotNormal` | src/protocol/Protocol.cpp:7-76 | an input for each: a login request with sequence field -1, and one whose payload CR is followed by a second CR |
| `PayloadParser.LoginBuilder` | src/utils/Parser.cpp:58-67 | a built login request is read as meant if and only if the trimmed credentials are valid and the password has no bar |
| `PayloadParser.LoginParsesExactly` | src/utils/Parser.cpp:58-67 | for every payload: read if and only if it has two fields and both are valid after trimming; further fields are ignored |
| `PayloadParser.RegisterParsesExactly` | src/utils/Parser.cpp:69-84 | for every payload: read if and only if it has three fields, a number in the third and valid credentials; a role without a number is refused |
| `PayloadParser.LevelParsesExactly` | src/utils/Parser.cpp:86-95 | for every payload: a number between 1 and 3, with blanks around and anything behind; no number is refused |
| `PayloadParser.ValidCredentials` | src/utils/Parser.cpp:134-148 | 1 to 50 ASCII letters, digits and underscores, and a password of 4 to 100 bytes |
| `PayloadParser.RegisterBuilder` | src/utils/Parser.cpp:69-84 | the same for registration with any role; of bar-free strings none is read as something else |
| `PayloadParser.RegisteredCanLogin` | src/utils/Parser.cpp:108-115 | credentials whose built registration is accepted give a login request with the same user and password |
| `PayloadParser.LevelBuilder` | src/utils/Parser.cpp:86-119 | a built level request is read back for levels 1 to 3 and refused for all others |
| `PayloadParser.ChatBuilder` | src/utils/Parser.cpp:97-123 | a built chat message is read back if and only if the recipient is bar-free and not blank and the text not empty |
| `ConfigParser.ReadRound` | src/utils/Parser.cpp:22-39 | one round of the scanner up to the value, with each of its breaks |
| `ConfigParser.ReadValueAt` | src/utils/Parser.cpp:40-52 | a quoted value up to its quote, or a bare one up to `,`, `}`, newline or the end, trimmed |
| `ConfigParser.ReadFrom` | src/utils/Parser.cpp:22-52 | a round that does not break moves the cursor strictly forward, within the text |
| `ConfigParser.ParseConfigFile` | src/utils/Parser.cpp:5-56 | the loop terminates on every text with the scanned map; the result is whether it is nonempty, false for an unreadable file |
| `ConfigParser.RenderedConfigIsRead` | src/utils/Parser.cpp:21-55 | any pairs with any gaps of spaces and tabs, quoted or bare, each bare value ended by a comma, a brace or a newline, are read back exactly; behind them a last bare value counts, a pair broken off does not |
| `ConfigParser.BrokenOffEnds` | src/utils/Parser.cpp:25-45 | a pair without its closing quote, colon, value or the end of its value ends the scan and leaves what was read |
| `ConfigParser.LastBareIsRead` | src/utils/Parser.cpp:46-52 | a bare value may end with the text |
| `ConfigParser.LaterPairsWin` | src/utils/Parser.cpp:53-53 | the map holds the last value given to each key |
| `ConfigParser.OthersKeep` | src/utils/Parser.cpp:53-53 | keys that no pair names keep what they had |
| `Storage.Database.Initialize` | src/db/Database.cpp:11-42 | three lessons per level, one administrator, one teacher |
| `Storage.Database.CreateUser` | src/db/Database.cpp:44-62 | a free name gets a beginner with score 0; a taken one changes nothing |
| `Storage.Database.AuthenticateUser` | src/db/Database.cpp:64-73 | true exactly for a stored user with this hash |
| `Storage.Database.UpdateUserLevel` | src/db/Database.cpp:87-98 | the level of a stored user and nothing else changes |
| `Storage.Database.UpdateUserScore` | src/db/Database.cpp:100-111 | the score of a stored user grows by the points and nothing else changes |
| `Storage.Database.CreateSession` | src/db/Database.cpp:118-137 | one entry in each session map is overwritten, with the stored role |
| `Storage.Database.RemoveSession` | src/db/Database.cpp:139-153 | the session and the map entry of its socket go, if there is a session |
| `Storage.Database.GetLessonList` | src/db/Database.cpp:189-205 | the stored list of the level's name |
| `Storage.Database.SaveFeedback` | src/db/Database.cpp:217-226 | one formatted entry is appended to the user's list |
| `Storage.Database.AddGameItem` | src/db/Database.cpp:239-245 | one entry is appended to the game's list |
| `Storage.WithoutOneMore` | src/server/ClientHandler.cpp:11-16 | ending sessions one after the other has the effect of ending them as a set |
| `Storage.WithoutUnion` | src/server/Server.cpp:186-192 | so the order in which handlers are destroyed does not matter |
| `Handling.TimedOutExactly` | src/server/ClientHandler.cpp:27-31 | whole-second truncation and `> 300` mean at least 301 seconds |
| `Handling.ClientHandler.constructor` | src/server/ClientHandler.cpp:3-9 | a guest, student, beginner, active now |
| `Handling.ClientHandler.Destroy` | src/server/ClientHandler.cpp:11-16 | the destructor ends the session of a logged-in handler |
| `Handling.ClientHandler.IsTimedOut` | src/server/ClientHandler.cpp:27-31 | for a limit of `n >= 0` seconds: late exactly when `n + 1` full seconds have passed; for a negative limit, where truncation rounds up, right after it |
| `Handling.ClientHandler.ProcessMessage` | src/server/ClientHandler.cpp:33-77 | tables, handler and reply after the dispatch are those of `Handle` |
| `Handling.ClientHandler.HandleRegister` | src/server/ClientHandler.cpp:79-100 | parse, refuse a taken name, store |
| `Handling.ClientHandler.HandleLogin` | src/server/ClientHandler.cpp:102-144 | parse, check the hash, cache role and level, open a session, reply with role, level and score |
| `Handling.ClientHandler.HandleLogout` | src/server/ClientHandler.cpp:146-158 | the session ends and the name is cleared; role and level stay cached |
| `Handling.ClientHandler.HandleSetLevel` | src/server/ClientHandler.cpp:165-176 | the level asked for is stored and cached, or nothing changes |
| `Handling.ClientHandler.HandleSubmitQuiz` | src/server/ClientHandler.cpp:211-224 | at least two fields earn ten points |
| `Handling.ClientHandler.HandleSubmitExercise` | src/server/ClientHandler.cpp:232-243 | at least two fields earn five points |
| `Handling.ClientHandler.HandleSendFeedback` | src/server/ClientHandler.cpp:306-324 | the role is checked before the fields, the entry carries the sender |
| `Handling.ClientHandler.HandleAddGameItem` | src/server/ClientHandler.cpp:361-378 | administrators only |
| `Handling.ClientHandler.HandleReading` | src/server/ClientHandler.cpp:179-299 | the requests that only read: guarded by login, answered from tables and cached level |
| `HandlerEffects.HandleIdentity` | src/server/ClientHandler.cpp:33-383 | no message changes a stored name, hash or role, nor lets a handler or session carry another role than the stored one |
| `HandlerEffects.NotAuthenticatedExactly` | src/server/ClientHandler.cpp:33-383 | NOT_AUTHENTICATED is the reply to exactly the guarded requests of a handler that is not logged in |
| `HandlerEffects.AuthenticationTable` | src/protocol/Protocol.cpp:161-172 | what the table says needs a login gets ERROR_MESSAGE without one and changes only the activity time; every guarded request is in the table |
| `HandlerEffects.RegisterSucceeds` | src/server/ClientHandler.cpp:79-100 | REGISTER_SUCCESS if and only if the request parses and the name is free, and then exactly that user is added |
| `HandlerEffects.LoginSucceeds` | src/server/ClientHandler.cpp:102-144 | any handler logs in a stored user with the right password and replies with the stored role, level and score |
| `RequestOutcomes.LoginExactly` | src/server/ClientHandler.cpp:102-144 | LOGIN_SUCCESS if and only if a stored user has the hash of the password sent; otherwise only the activity time changes, and the reply says which check failed |
| `RequestOutcomes.OnlyLoginLogsIn` | src/server/ClientHandler.cpp:33-77 | no other message logs anybody in or changes whom a connection speaks for |
| `RequestOutcomes.RegisterExactly` | src/server/ClientHandler.cpp:79-100 | the new user stored and acknowledged if and only if the request parses and the name is free; otherwise nothing changes, and the reply says why |
| `RequestOutcomes.RegisterWithoutRole` | src/utils/Parser.cpp:77-81 | a role field without a number registers nobody |
| `RequestOutcomes.LogoutExactly` | src/server/ClientHandler.cpp:146-158 | acknowledged if and only if logged in: session ended, name cleared, role and level kept |
| `RequestOutcomes.DefaultAccounts` | src/db/Database.cpp:34-36 | the two accounts at the start, with their roles |
| `RequestOutcomes.GuestsRefused` | src/server/ClientHandler.cpp:160-379 | without a login every request that reads or changes the tables gets the same refusal and changes nothing |
| `RequestOutcomes.SetLevelExactly` | src/server/ClientHandler.cpp:160-177 | the level asked for is stored for this user and cached for this connection, and nothing else changes; a request that does not parse changes nothing |
| `RequestOutcomes.SubmissionExactly` | src/server/ClientHandler.cpp:206-244 | counted if and only if there are two fields, and the number that the reply starts with is what is credited |
| `RequestOutcomes.SendFeedbackExactly` | src/server/ClientHandler.cpp:301-325 | taken if and only if from a teacher or administrator with three fields, at the end of the target's list |
| `RequestOutcomes.AddGameItemExactly` | src/server/ClientHandler.cpp:356-379 | taken if and only if from an administrator with two fields, at the end of the game's list |
| `RequestOutcomes.ReadingExactly` | src/server/ClientHandler.cpp:262-354 | requests that read change nothing; the fixed replies, and when a chat message is acknowledged |
| `RequestOutcomes.GameStartExactly` | src/server/ClientHandler.cpp:246-260 | the items of the game named follow the session id, and splitting at the semicolons gives them back if and only if none holds one |
| `RequestOutcomes.LessonContentExactly` | src/db/Database.cpp:207-210 | the four lines of a lesson |
| `RequestOutcomes.OtherMessages` | src/server/ClientHandler.cpp:70-76 | heartbeats are answered for anybody, unknown types refused for anybody, and nothing changes |
| `HandlerEffects.HandleScore` | src/server/ClientHandler.cpp:206-244 | a message credits exactly the points its reply announces, to exactly the connection's user |
| `HandlerEffects.HandleContent` | src/server/ClientHandler.cpp:301-379 | content changes only with a success reply: one entry, for the right role, under the connection's user |
| `ReplyDelivery.HandleKeepsClean` | src/server/ClientHandler.cpp:33-383 | newline-free requests keep newlines out of everything that replies are made of |
| `ReplyDelivery.ReplyNewline` | src/server/ClientHandler.cpp:33-383 | a newline gets into a reply if and only if it carries lesson content |
| `ReplyDelivery.ReplyDeliverable` | src/server/ClientHandler.cpp:33-383 | a reply reaches the client if and only if it is no lesson content, has at most 8192 bytes and no final CR |
| `ServerCore.ServerProcess.constructor` | src/server/Server.cpp:11-51 | no clients, only the listen socket open, running |
| `ServerCore.ServerProcess.HandleNewConnection` | src/server/Server.cpp:203-229 | an invalid or blocking descriptor changes nothing; otherwise a new handler, after destroying one at the same descriptor |
| `ServerCore.ServerProcess.HandleClientDisconnect` | src/server/Server.cpp:256-267 | the descriptor is closed, the handler destroyed, its session ended; repeating it changes nothing |
| `ServerCore.ServerProcess.ProcessMessage` | src/server/Server.cpp:269-311 | a known client's message is handled and answered; for an unknown one nothing happens |
| `ServerCore.ServerProcess.HandleClientData` | src/server/Server.cpp:231-254 | one receive is a disconnect or the run of its messages in order |
| `ServerCore.ServerProcess.HandleEntry` | src/server/Server.cpp:140-151 | POLLIN and then POLLHUP or POLLERR, both or either |
| `ServerCore.ServerProcess.SweepTimeouts` | src/server/Server.cpp:157-169 | erasing while walking the map removes exactly the late clients, in any order |
| `ServerCore.ServerProcess.StopServer` | src/server/Server.cpp:178-201 | everything is closed, every session of a logged-in client ended; a second call does nothing |
| `ServerCore.ServerProcess.CloseAllClients` | src/server/Server.cpp:187-190 | every client descriptor is closed |
| `ServerCore.ServerProcess.DestroyAll` | src/server/Server.cpp:191-191 | clearing the map runs all destructors |
| `ServerCore.ServerProcess.BuildPollList` | src/server/Server.cpp:102-122 | the listen socket first, then every client once, in the order of the map |
| `ServerCore.ServerProcess.PollRound` | src/server/Server.cpp:101-172 | one iteration is the run of its entries' events in list order, then the sweep |
| `ServerCore.EvictMore` | src/server/Server.cpp:160-168 | removing clients one after the other is removing them together |
| `ServerRuns.RunIdentity` | src/db/Database.cpp:44-137 | over every run identities are kept and users keep name, hash and role |
| `ServerRuns.IdentityInvariant` | src/server/ClientHandler.cpp:102-158 | in every reachable state, even with double logins, cached roles are stored roles and sessions name existing users with their roles |
| `ServerRuns.RegistrationIsStable` | src/server/ClientHandler.cpp:79-144 | after REGISTER_SUCCESS, in every later state of every run, these credentials log in on any connection and the reply starts with the registered role |
| `ServerRuns.BuiltRegistrationIsStable` | src/utils/Parser.cpp:108-115 | the same for the requests that the client builds from bar-free strings |
| `ServerRuns.ScoreConservation` | src/db/Database.cpp:100-111 | over every run a score grows by exactly what was earned, between 0 and ten per submission |
| `ServerRuns.EarnedByCounting` | src/server/ClientHandler.cpp:206-244 | what was earned is 10 times the accepted quizzes plus 5 times the accepted exercises over all the user's connections |
| `ServerRuns.ScoreFitsInt` | src/db/Database.cpp:100-111 | in every run with at most 214748364 submissions the score is what was earned and fits a 32-bit `int` |
| `ServerRuns.GameItemProvenance` | src/server/ClientHandler.cpp:356-379 | every game item was appended, at its position, by an event of a connection whose user's stored role is administrator |
| `ServerRuns.FeedbackProvenance` | src/server/ClientHandler.cpp:301-325 | every feedback entry was appended by an event of a teacher or administrator and carries that user's name |
| `ServerRuns.FeedbackSaysWhoAndWhat` | src/db/Database.cpp:217-226 | in every reachable state each entry, cut at its bars, names the exercise sent, the user logged in on the sending connection and the text sent, for a request of the run |
| `ServerRuns.EntryReads` | src/db/Database.cpp:221-222 | an entry of bar-free parts is cut at its bars into exercise, sender and text |
| `ServerRuns.ListOnlyGrows` | src/db/Database.cpp:217-245 | both tables are append-only over every run |
| `ServerRuns.StoredLevelIsLastSet` | src/server/ClientHandler.cpp:160-177 | in every run the stored level of a user is the one last set by any of the user's connections |
| `Descriptors.RunDescriptors` | src/server/Server.cpp:203-267 | in every possible run the open descriptors are the listen socket and the clients |
| `Descriptors.FreshConnection` | src/server/Server.cpp:203-229 | an accepted connection is a guest with a student's role and a beginner's level; a handler found at its descriptor loses its session |
| `Descriptors.StopClosesEverything` | src/server/Server.cpp:178-201 | after `stop` no descriptor is open, no client is left, the server is not running, and a second `stop` changes nothing |
| `Descriptors.RoundSurvivors` | src/server/Server.cpp:101-155 | after the entries of one iteration exactly the clients that hung up are gone and the accepted one is there, even if a client is closed twice |
| `Descriptors.RoundRestoresDescriptors` | src/server/Server.cpp:101-172 | a whole iteration restores "listen socket and clients = open descriptors" |
| `Descriptors.ActivityIsLastSeen` | src/server/ClientHandler.cpp:23-34 | a handler's activity time is that of its last processed message, or of its accept |
| `Descriptors.SweepExactly` | src/server/Server.cpp:157-169 | in every run the sweep removes a client if and only if it was last seen at least 301 seconds ago |
| `Descriptors.TalkingClientStays` | src/server/Server.cpp:157-169 | if the clock never runs backwards and each message comes within 300 seconds of the previous one or of the accept, the client is connected at every point of the run up to its last message |
| `SessionAgreement.LoginAgree` | src/server/ClientHandler.cpp:124-131 | a successful login keeps sessions and handlers in agreement if and only if it is from a guest to a user without session, or repeats the connection's own login |
| `SessionAgreement.StepAgree` | src/db/Database.cpp:118-153 | accept, disconnect, sweep, stop and every other message always keep the agreement |
| `SessionAgreement.SessionAgreementExactly` | src/db/Database.cpp:118-153 | over every possible run: sessions are exactly the logged-in handlers, sockets their inverse and levels up to date after every event, if and only if every login is disciplined |
| `SessionAgreement.SecondLoginLeaksSession` | src/server/ClientHandler.cpp:124-131 | a login as somebody else, then a disconnect: the first session stays in the table for a closed connection |
| `SessionAgreement.LeakFromTheStart` | src/server/ClientHandler.cpp:124-131 | a run from the initial server that does so: administrator, then teacher on one connection, then a disconnect |
| `SessionAgreement.StopEndsAllSessions` | src/server/Server.cpp:178-201 | after `stop` in an agreeing state no session is left |
| `Ordering.OneReceiveInOrder` | src/server/Server.cpp:244-253 | whatever bytes one receive brings, their messages are handled one after the other in the order in which they stand there |
| `Ordering.LastRequestIsLast` | src/server/Server.cpp:250-253 | a receive of several deliverable requests is the receive of all but the last, and then the last one |
| `Ordering.PipelinedRequests` | src/server/Server.cpp:250-291 | several requests in one receive: what is sent to the connection are the replies to them in their order |
| `Ordering.AnswersThenCloses` | src/server/Server.cpp:140-151 | what was received is handled and answered before a hang-up reported with it is honoured |
| `Ordering.RoundServesInOrder` | src/server/Server.cpp:129-155 | one round sends to the clients in ascending order of their descriptors, and accepting sends nothing |
| `ClientCore.Client.ReceiveData` | src/client/Client.cpp:150-163 | what arrives is appended; nothing is received when not connected |
| `ClientCore.Client.PollMessages` | src/client/Client.cpp:145-148 | the messages of buffer and arrival, the leftover kept |
| `ClientCore.Client.SendMessageSync` | src/client/Client.cpp:62-118 | the two error replies, else the first message of the attempts or a timeout error, and the buffer afterwards |
| `ClientCore.Client.GetLessonList` | src/client/Client.cpp:224-233 | the request sent, the split payload of a list reply, an empty list for any other reply or failure, and the buffer afterwards |
| `ClientCore.Client.GetFeedback` | src/client/Client.cpp:326-335 | the same for feedback |
| `ClientCore.Client.Login` | src/client/Client.cpp:180-202 | the request sent, then refused, logged in with or without a profile of this username, or an exception from `stoi`, and the buffer afterwards |
| `ClientCore.AwaitFindsFirst` | src/client/Client.cpp:88-106 | for any fragmentation the reply is the first message of the whole stream, and none exactly if there is none |
| `ClientCore.DeliveredReply` | src/client/Client.cpp:88-106 | a deliverable reply in any fragments is returned and leaves the buffer empty |
| `ClientCore.UsedStopsThere` | src/client/Client.cpp:88-106 | a call stops at the first attempt that completes a message, returns the first message of what it received and keeps what is left over |
| `ClientCore.NothingLostExactly` | src/client/Client.cpp:99-106 | for every newline-free buffer and every fragmentation: the next call finds the stream without its first message if and only if the attempts of this call completed exactly one; of those they completed, all but the first are lost |
| `ClientCore.SecondReplyLost` | src/client/Client.cpp:99-106 | of two replies in any fragments the first is returned, and the second is found by the next call if and only if something is left to receive |
| `ClientCore.ClientErrorText` | src/client/Client.cpp:63-113 | the client's own errors carry code 8 |
| `EndToEnd.ReplyAwaited` | src/client/Client.cpp:88-113 | in any fragmentation, a handler's reply to any newline-free request is returned if it is deliverable and the call times out if not; in both cases the buffer is empty |
| `EndToEnd.Correspondence` | src/client/Client.cpp:62-118 | whatever other connections do in between and however replies are cut, the i-th call returns the handler's reply to the i-th deliverable request, or times out exactly where that reply is not deliverable, and the buffer is empty between calls |
| `EndToEnd.SilentRun` | src/server/Server.cpp:269-311 | events of other connections send nothing to this one |
| `EndToEnd.ReceivedEventsClean` | src/server/Server.cpp:244-253 | whatever bytes the server receives, no message it processes holds a newline |
| `EndToEnd.ReachableReplies` | src/server/Server.cpp:269-311 | in every reachable state a reply fails to be deliverable in exactly three ways |
| `EndToEnd.ListTransport` | src/client/Client.cpp:224-233 | a deliverable joined list is returned by the client as stored if and only if it is transportable |
| `EndToEnd.LessonListRequest` | src/client/Client.cpp:224-233 | a deliverable lesson list arrives as stored if and only if it is transportable, in any fragmentation |
| `EndToEnd.FeedbackListRequest` | src/client/Client.cpp:326-335 | the same for the feedback of the logged-in user |
| `EndToEnd.FeedbackTransportable` | src/db/Database.cpp:217-226 | in every reachable state a user's feedback is transportable if and only if no entry has a semicolon |
| `EndToEnd.FeedbackListArrives` | src/client/Client.cpp:326-335 | over every run and in any fragmentation the client gets the stored feedback if and only if no entry has a semicolon and the joined text has at most 8192 bytes and no final CR; the buffer is empty afterwards |
| `EndToEnd.LessonListArrives` | src/server/ClientHandler.cpp:179-193 | in every reachable state a logged-in client's lesson list is exactly the three lessons of its level |
| `EndToEnd.LessonsOfLastLevel` | src/server/ClientHandler.cpp:160-193 | over any run of disciplined logins these are the lessons of the level last set for the user, on whatever connection |
| `EndToEnd.GuestListsEmpty` | src/client/Client.cpp:224-233 | a guest's list requests bring empty lists |
| `EndToEnd.LessonContentUnreadable` | src/db/Database.cpp:207-210 | a serialized lesson contains no message at all, and leaves nothing over |
| `EndToEnd.LessonContentNeverArrives` | src/client/Client.cpp:235-244 | in any fragmentation the client's call ends without a reply |
| `EndToEnd.LoginProfile` | src/client/Client.cpp:180-202 | in any fragmentation the client reads the stored role, level and score from a login reply |
| `EndToEnd.LoginAtClient` | src/client/Client.cpp:180-202 | over any run and in any fragmentation, for any two strings: logged in with the stored profile if and only if what the server reads is a stored user with this password's hash, refused otherwise |
| `EndToEnd.LoginResultExactly` | src/client/Client.cpp:186-201 | refused by exactly the replies that are no LOGIN_SUCCESS; with less than three fields no profile; an exception exactly where a field is no number |
| `EndToEnd.LoginArrives` | src/client/Client.cpp:180-202 | so acceptable credentials of a stored user log in, whatever blanks surround them |
| `EndToEnd.ScoreEndToEnd` | src/client/Client.cpp:315-324 | over any run, the score a client asks for is what its user's connections have earned |

## Left out

- ServerCore.ServerProcess.PollRound: is one iteration after a successful `poll`; the outer `while (running_)`, an interrupted or failed `poll` and signal handling are not modelled, since the run lemmas take events and rounds in any number and order.
- ServerCore.ServerProcess.SendMessage: `send` takes everything or nothing; partial sends are not modelled, nor is the ignored error of a failed one.
- ClientCore.Client.SendMessageSync: the ten-second clock appears as the number of receive attempts that it allows.
- Descriptors.Possible: one connection is accepted per iteration, as `handleNewConnection` does; how the kernel picks descriptors is only that it picks one that is not open.
- Storage.Database.UpdateUserScore: adds without the overflow of the stored `int`; `ScoreFitsInt` gives the number of submissions below which none occurs.
- `parse*` functions write out-parameters even when they return false; the model returns an option, as no caller reads them then.
- Session records' state, activity time and buffers, which are written once and never read; `getSessionByUsername`, `getOnlineUsers` and `clearSessions`, which nothing here calls.
- `getSessionBySocket`, which locks a mutex that its callee locks again and is never called; mutexes in general, since the server is modelled as one thread.
- `getNextSequenceNumber`, which no sender calls (every constructed message has sequence 0), and `getMessageTypeName`.
- The Windows `select` branch of `Server::run`, `initialize` and the system calls of src/protocol/Network.cpp, client `connect` and `disconnect`.
- `hashPassword`: any function; no property needs it to be injective.
- `receiveMessage`, `sendMessageAsync` and the remaining client wrappers, which add no step beyond those modelled.
- Logging and the console output of `extractMessages` and `validateMessage`.
- The Qt and console interfaces, and the UDP, token and file transfer designs of the documentation, for which there is no code.
