# Verification of the telephony client library

The library offers telephony to applications by talking to a radio daemon over D-Bus. This
project models its stateful parts and its hand-written codecs in Dafny and proves what they
keep, over every input, every failure and every interleaving. `dafny verify dfyconfig.toml`
checks the whole project.

The code changes objects, arrays and a heap step by step. Those parts are classes and methods
with loops here, and each method is proved equal to a function on values; the theorems are
lemmas about that function and its runs. The modules whose names end in `Laws` say in plain
values, without those functions' own vocabulary, what the main operations answer.

| part | files | main results |
|---|---|---|
| SIM toolkit agent | `StkAgent`, `StkConservation`, `StkAsWritten`, `StkSignatures`, `StkContext`, `StkLaws` | one fate for every request and conserved message references over all interleavings of all agents; exactly which runs read a freed block, which behave as intended, and which send only declared replies |
| asynchronous requests | `RequestOwnership`, `RequestCalls`, `RequestLaws` | every block freed exactly once and at most one callback, with any number of requests in flight and any failures, in both ownership disciplines |
| proxy table | `ProxyTable`, `ProxyContext`, `ModemStates`, `ProxyLaws` | references equal the non-null entries plus the manager in every state, close leaves none, the backward search inverts the table exactly for distinct modem paths, refreshes are counted by the modems' own traces |
| data calls | `IpSettings`, `DataContexts`, `DataQuery`, `DataLaws` | the callback sees the first ten active contexts, and the exact condition for the heap to be restored under any failures |
| data watchers | `DataWatch`, `Filtering` | a watcher is called on exactly its signals, in order |
| text | `Basics`, `CText`, `Strtok`, `Nitz`, `EmergencyList`, `EmergencyGetter`, `Hex`, `SimOperator`, `RegistrationInfo`, `Roaming`, `CoveredPlmn`, `CallFilter`, `TextLaws` | in-place parsers refine pure splitters; round trips; exact conditions where a decoder fails |

## How the environment is modelled

- `g_dbus_proxy_method_call` is its contract: when it returns false neither the setup nor the
  destroy callback has run; when it returns true the setup callback has run once, then at most
  one reply arrives, then the destroy callback runs exactly once.
- A heap block is a number that is never used again. Which allocations succeed is a parameter,
  so every theorem covers all patterns of failure.
- A D-Bus message is a sequence of values; the client keeps one proxy per (path, interface),
  and creating a proxy always yields one. Which interfaces are supported is fixed in a run,
  and so is the number of modems, which is any positive number.
- The STK request in flight is taken to be null when a context is opened, which `tapi_open`
  does not set. `StkAgent` leaves open which calls of an agent find its context, so its theorems
  hold for every pattern. The code keeps the context in `ar->data` and overwrites it;
  `StkAsWritten` and the object in `StkContext` have that cell and the parameter blocks, and a
  call that would look into a freed block has no meaning there.
- C strings hold no NUL before their end. `atoi` is the mathematical value of its digits.

## Where the code differs from what one expects

- The code has fifteen request handlers and fifteen reply functions, with six different bodies.
- An agent works once: after its first accepted request any call that looks for its context
  reads a freed block (`StkAsWritten.DefinedIffNoneAfterAccepted`), and after a Cancel or
  AgentRelease it is refused or only reported (`StkAsWritten.AsIntendedIff`).
- An answer with a function of another method is sent as it is; it breaks the method table
  exactly if the two methods declare different replies (`StkSignatures.RunConformsIff`).
- An emergency message whose attributes were read once cannot be read again
  (`EmergencyList.ReadableAgainIff`).
- The emergency-number getter copies four characters of an attribute and no terminator. It
  agrees with the signal decoders, whatever the stack holds, if and only if every attribute
  has at most three characters (`EmergencyGetter.GetterAgreesIffShort`).
- A second `Settings` key in one context loses the block of the first
  (`DataContexts.RepeatedKeyLoses`), unless the allocation for the first failed
  (`DataContexts.HeapRestoredIff`).
- The hex decoder keeps its duplicate when it meets a character that is no hex digit
  (`kept` in `Hex.HexStringToByteArray`).
- A time string with more than eight fields is written past its struct
  (`Nitz.StaysInsideIffEightFields`).
- When the reply has no status entry, or says roaming and the SIM operator cannot be read, the
  roaming type depends on what memory happened to hold (`Roaming.TypeIsDefinedIff`).
- Covered operator codes lose where the MCC ends: operators with MCCs of different lengths
  can share one, with equal lengths they cannot (`CoveredPlmn.CollisionIffLengthsDiffer`).

## Model

| member | source | states |
|---|---|---|
| StkConservation.EveryRequestIsSettledOnce | src/tapi_stk.c:321-497 | from the start, over every interleaving and whichever calls find a context, each request has exactly one fate; accepted requests = answered + withdrawn + the pending one; requests = refused + accepted; references taken = dropped + the pending one |
| StkAsWritten.DefinedIffNoneAfterAccepted | src/tapi_stk.c:453-494 | with one `ar->data` cell per agent as in the code, a run reads no freed block if and only if no call looks into the context of an agent after that agent had a request accepted; its state is then that of the run in which a context is there until Cancel or AgentRelease nulls it |
| StkAsWritten.FirstFreedRead | src/tapi_stk.c:453-461 | any other run has a first call that reads a freed block, and behaves like that up to it |
| StkAsWritten.WrittenRequestsSettledOnce | src/tapi_stk.c:321-497 | while it reads no freed block the code as written conserves requests and references, and no parameter block is left |
| StkAsWritten.SecondAcceptanceUndefined | src/tapi_stk.c:482-494 | a run in which an agent has two requests accepted has read a freed block |
| StkAsWritten.AsIntendedIff | src/tapi_stk.c:411-413 | the code does what it would do with a context field of its own per agent if and only if no call looks into the context of an agent after an accepted request, Cancel or AgentRelease of that agent |
| StkAsWritten.SameOrDiverged | src/tapi_stk.c:360-363 | otherwise, after a nulled context, something different was sent or indicated, and stays so |
| StkAsWritten.MissingContextShows | src/tapi_stk.c:453-459 | a call that looks for its context sends or indicates something else without it, in every state |
| StkConservation.RunConserves | src/tapi_stk.c:321-497 | conservation is kept by every run of requests, answers (also from inside callbacks), Cancels and Releases of any agents, from any conserving state |
| StkConservation.RequestKeeps | src/tapi_stk.c:422-497 | a request arriving in any state, with any answers from its callback, keeps conservation and adds exactly one request |
| StkConservation.WithdrawKeeps | src/tapi_stk.c:371-420 | Cancel and Release keep conservation: the pending request, if any, becomes withdrawn |
| StkConservation.ReplyKeeps | src/tapi_stk.c:215-239 | an answer keeps conservation, also when there is nothing to answer or the reply cannot be built |
| StkConservation.AtMostOneWaits | src/tapi_stk.c:457-462 | the waiting requests are exactly the one that the shared slot holds |
| StkConservation.AcceptedAreTaken | src/tapi_stk.c:482-484 | a message reference was taken exactly for each accepted request |
| StkConservation.RefusedOrAccepted | src/tapi_stk.c:453-480 | every request was refused at once or accepted, never both |
| StkSignatures.RunConformsIff | src/tapi_stk.c:97-151 | all replies of a run carry the declared arguments if and only if those sent before do and each answer that is sent uses a function with the reply that the method pending at that moment declares |
| StkSignatures.WrittenRunConformsIff | src/tapi_stk.c:97-151 | the same for the code with its `ar->data` cells |
| StkSignatures.RunConforms | src/tapi_stk.c:97-151 | if each answer uses the function meant for the last accepted indication, every method return on the bus carries exactly the declared arguments |
| StkSignatures.DisciplinedRunFits | src/tapi_stk.c:2196-2507 | such an application always meets that condition |
| StkSignatures.AnswerSignature | src/tapi_stk.c:2196-2507 | each reply function builds the out-arguments that the method table declares for its own method |
| StkSignatures.StepConforms | src/tapi_stk.c:2196-2507 | one event of a disciplined application keeps all replies conforming and the pending method equal to the last accepted indication |
| StkSignatures.AnsweredWithConformsIff | src/tapi_stk.c:2285-2331 | an accepted request answered with any of the functions is answered as declared exactly if both methods declare the same reply, and is disciplined exactly if they are the same |
| StkContext.Context.PendingReply | src/tapi_stk.c:215-239 | without a reply nothing changes; with one it is sent to the pending message, whose reference is dropped and whose slot becomes free |
| StkContext.Context.HandleAgent | src/tapi_stk.c:2196-2507 | the whole new state and the return code of an answer, for all fifteen functions |
| StkContext.Context.HandleRequest | src/tapi_stk.c:422-497 | the whole new state of a request with its parameter block and the cell of its agent: which error in which order of checks, or acceptance with the callback and the answers it makes |
| StkContext.Context.Admit | src/tapi_stk.c:453-486 | from the loaded context to the callback: the error, the parameter block, the pending message, the reference and the overwritten cell |
| StkContext.Context.Finish | src/tapi_stk.c:488-496 | the callback runs with the block still there, which is then freed, and an error is sent last |
| StkContext.Context.HandleWithdraw | src/tapi_stk.c:321-420 | the whole new state of Cancel and Release with the nulled cell, with and without a context, and the reply they return themselves |
| StkContext.Context.Callback | src/tapi_stk.c:489-490 | a callback that answers any number of times leaves the state of those answers in turn |
| StkContext.Context.Serve | src/tapi_stk.c:321-497 | the object serves every run that reads no freed block as specified and ends with requests and references conserved and no parameter block |
| StkLaws.RequestOutcome | src/tapi_stk.c:436-486 | exactly when a request is refused with Failed, InvalidArguments, Busy or NotImplemented, and when it is accepted, in terms of the agent, the message and the slot |
| StkLaws.WrittenRequestOutcome | src/tapi_stk.c:453-486 | the same with the context of the agent in its `ar->data` cell |
| StkLaws.RequestIndicates | src/tapi_stk.c:446-490 | the callback is told the method once, with status OK exactly if the request was accepted, and an accepted request is the pending one |
| StkLaws.WrittenCells | src/tapi_stk.c:468-494 | what each event leaves in the cell of each agent, and which requests allocate a parameter block |
| StkLaws.WithdrawDrops | src/tapi_stk.c:355-366 | with a context Cancel and Release drop the pending message without a reply and tell their own message id with status OK, whatever is answered inside |
| StkLaws.WithdrawWithoutContext | src/tapi_stk.c:347-353 | without one the callback is told an error and the pending message stays; without a callback nothing happens |
| StkLaws.WithdrawReplies | src/tapi_stk.c:371-420 | what Cancel and Release return themselves |
| StkLaws.ConfirmationSends | src/tapi_stk.c:2285-2331 | a yes is sent as true and a no as false; backward sends GoBack and any other code Failed |
| StkLaws.TextSends | src/tapi_stk.c:2240-2283 | keys, digits and input send exactly the text given; negative sends EndSession, backward GoBack, any other code Failed |
| StkLaws.SelectionSends | src/tapi_stk.c:2428-2471 | a selection sends exactly the byte given, with the same errors |
| StkLaws.DisplaySends | src/tapi_stk.c:2196-2232 | displayed texts and tones are answered without arguments, with the same errors |
| StkLaws.AnswerIgnored | src/tapi_stk.c:215-233 | without a connection, a pending message or a reply an answer changes nothing |
| StkLaws.FirstBuiltAnswers | src/tapi_stk.c:235-236 | of the answers in one callback the first that can be built is sent and the others change nothing |
| RequestOwnership.RunKeeps | src/tapi_call.c:1033-1102 | in every state of every run live blocks are those from before plus those of exactly one request in flight each, and every accepted request got at most one callback |
| RequestOwnership.NothingLeftBehind | src/tapi_utils.c:575-586 | when all requests of a run are destroyed the heap is what it was |
| RequestOwnership.NeverLiveAgain | src/tapi_utils.c:575-586 | a freed block is never live again in the run, so no block is freed twice |
| RequestOwnership.SubmitKeeps | src/tapi_sms.c:555-634 | a negative return leaves no block, no request and no callback; OK adds exactly one request; ownership is kept |
| RequestOwnership.DeliverKeeps | src/tapi_sim.c:212-256 | a reply touches no block, calls back at most once, and keeps what the destroy callback will free |
| RequestOwnership.DestroyKeeps | src/tapi_sim.c:126-144 | the destroy callback frees only live blocks, and exactly those of its request |
| RequestOwnership.FinishKeeps | src/tapi_sim.c:914-1000 | whatever allocation or submission failed, ownership is kept and a failed call leaves the live blocks as before |
| RequestOwnership.Grab | src/tapi_sms.c:592-621 | the blocks got are distinct, new, and the only ones added |
| RequestOwnership.GrabNeeded | src/tapi_sms.c:592-621 | without a failure every required block is there |
| RequestCalls.Client.MethodCall | src/tapi_call.c:1094-1099 | the environment contract of the D-Bus call, with the setup callback of each kind |
| RequestCalls.Client.BlockRequest | src/tapi_call.c:959-1102 | dialling, DTMF, opening a logical channel, changing a PIN and raw vendor requests: heap, requests and return code for every allocation failure and submission outcome, in both disciplines |
| RequestCalls.Client.MessageRequest | src/tapi_sms.c:555-718 | the same for text and data messages with their two optional inner strings and differing error codes |
| RequestCalls.Client.FreeRequest | src/tapi_sim.c:1400-1411 | a failed submission frees all three blocks, each once, in the order of its request |
| RequestCalls.Client.NewOemRequest | src/tapi_manager.c:1973-1996 | vendor requests allocate the handler first and the parameter last; a failure frees what was got |
| RequestCalls.Client.NewRequest | src/tapi_call.c:1057-1081 | a failed allocation frees all earlier ones; otherwise exactly three blocks are new |
| RequestCalls.Client.NewMessage | src/tapi_sms.c:592-621 | the same with two strings that may be missing |
| RequestCalls.Client.MessageFree | src/tapi_sms.c:60-76 | frees the message and those of its strings that exist, each once |
| RequestCalls.Client.HandlerFree | src/tapi_utils.c:575-586 | frees the result and the handler |
| RequestCalls.Client.EventDataFree | src/tapi_sim.c:126-144 | frees parameter, result and handler |
| RequestCalls.Client.OnReply | src/tapi_call.c:401-449 | the status each reply callback reports for each kind of reply, and that it calls back once |
| RequestLaws.DeliverTells | src/tapi_sim.c:174-256 | each kind of request reports OK for exactly its good replies, an error for its bad ones and the status as it was for an unexpected body, and its data points into the reply exactly where the code sets it |
| RequestLaws.EveryReply | src/tapi_call.c:451-484 | a bus error is always reported as an error, and only an unexpected body of a dial or message leaves the status unset |
| RequestLaws.RunTells | src/tapi_call.c:401-449 | over any run every callback comes from a reply to its own request and is told the status of that reply for its kind |
| RequestLaws.SubmitReturns | src/tapi_sms.c:592-634 | the return code: the argument checks, then -EINVAL for a text message without its parameter and -ENOMEM for any other missing block, then -EINVAL for a refused submission, else OK |
| RequestLaws.SubmitFlies | src/tapi_sim.c:914-1000 | an accepted request is in flight with its kind and callback and no status, and only a PIN change still owns its parameter |
| RequestCalls.Client.OnDestroy | src/tapi_sim.c:126-144 | the destroy callback of each discipline frees exactly what its request owns |
| RequestCalls.Client.Handle | src/tapi_call.c:959-1102 | whatever the client contract allows next is served as specified and keeps ownership and callbacks sound |
| ProxyTable.LookupInvertsIffDistinct | src/tapi_utils.c:605-618 | searching any non-null entry gives its own row if and only if no two modems share a path |
| ProxyTable.HeldCount | src/tapi_manager.c:142-152 | the references held by a table number its non-null entries |
| ProxyTable.LookupInRange | src/tapi_utils.c:605-618 | the search always gives an existing row |
| ProxyContext.ReferencesCounted | src/tapi_manager.c:88-97 | in an open context the references number one for the manager plus the non-null entries |
| ProxyContext.Context.constructor | src/tapi_manager.c:1238-1250 | opening yields a valid table, references and the initial modem states |
| ProxyLaws.OpenIff | src/tapi_manager.c:129-139 | a table is open exactly if entry (i, 0) is the proxy of modem path i, entry (i, j) for 0 < j < 16 that of interface j on that path if it is supported, and null otherwise |
| ProxyLaws.ValidEntries | src/tapi_manager.c:88-140 | the same of the table of every valid context, with a reference for each entry and the manager |
| ProxyLaws.LookupMisses | src/tapi_utils.c:605-618 | a null proxy, or one in no entry, is taken for modem 0 |
| ProxyContext.Context.GetPersistent | src/tapi_manager.c:88-97 | fills exactly column 0 and takes one reference for each entry and the manager |
| ProxyContext.Context.GetMutable | src/tapi_manager.c:108-140 | fills the other columns exactly for supported interfaces, with one reference each |
| ProxyContext.Context.ReleaseMutable | src/tapi_manager.c:142-152 | clears exactly the other columns and drops exactly their references, also while closing |
| ProxyContext.Context.ReleasePersistent | src/tapi_manager.c:99-106 | drops the manager and column 0 and leaves the stale pointers in place |
| ProxyContext.Context.GetModemIdByProxy | src/tapi_utils.c:605-618 | gives the row of the first entry that is the proxy, 0 for none or null |
| ProxyContext.Context.OnModemPropertyChange | src/tapi_manager.c:1030-1051 | table and references are the same afterwards, and only the state of the modem found changes, which is the signalling one if paths are distinct |
| ProxyContext.Context.Refresh | src/tapi_manager.c:1045-1046 | releasing and refilling gives back the same table and the same references |
| ProxyContext.Context.Close | src/tapi_manager.c:1268-1288 | no reference is left, and none was dropped that was not held |
| ProxyContext.Context.Serve | src/tapi_manager.c:1030-1051 | every run of property changes keeps the context valid and yields the states and the refresh count of the pure run, each change counted for the modem that the search finds |
| ProxyContext.FoundIsOwn | src/tapi_manager.c:1039-1041 | with distinct paths that is the modem which signalled |
| ModemStates.RunCountsWakeUps | src/tapi_manager.c:1041-1050 | over any run each recorded state is the last one its modem reported, and refreshes equal the AWARE-to-ALIVE pairs in the modems' own traces |
| ProxyLaws.StateStep | src/tapi_manager.c:1036-1050 | a modem state is recorded for its modem alone, and the table is refreshed exactly from state 1 to state 2 |
| ProxyLaws.WakeUpsAreOneTwo | src/tapi_manager.c:1044-1047 | the wake-ups of a trace are its adjacent pairs 1, 2 |
| DataContexts.HeapRestoredIff | src/tapi_data.c:708-814 | whichever allocations fail, the heap is restored if and only if no settings key of a visited context meets an address block that is already there |
| DataContexts.HeapRestored | src/tapi_data.c:708-814 | so it is if no visited context repeats a settings key, and without failures only then |
| DataContexts.SeesFirstActive | src/tapi_data.c:748-803 | without failures the callback sees exactly the first ten active contexts in message order, fully decoded; failures only shorten the list or leave out addresses |
| DataLaws.CallbackSees | src/tapi_data.c:748-803 | without failures the callback is told OK and given the first ten entries whose last activity property says true, in order, each described by its own properties: the last text of each key with at most 128 characters, the table value of the last string of each enumerated key, and the last address settings of each kind |
| DataLaws.CallbackSeesAtMost | src/tapi_data.c:748-803 | whatever fails, it is given the first of them, described in the same way but for the addresses |
| DataLaws.DataIsTold | src/tapi_data.c:380-450 | the activity, texts and numbers of a context are those of the last properties of their keys, and what has no property is not set |
| DataLaws.QueryErrors | src/tapi_data.c:733-746 | error replies are told as an error and leave the heap alone |
| DataContexts.HeapAfter | src/tapi_data.c:805-813 | for any message and failures nothing foreign is freed and what remains beyond the heap before is exactly the overwritten blocks |
| DataContexts.RepeatedKeyLoses | src/tapi_data.c:38-40 | a context with the settings key twice leaves a block behind |
| DataContexts.PropKeeps | src/tapi_data.c:380-433 | one property keeps the ownership of all blocks and loses exactly the address block it overwrites |
| DataContexts.PropsLost | src/tapi_data.c:435-450 | the properties of a context lose a block exactly if a settings key meets a block that is already there |
| DataContexts.PropsView | src/tapi_data.c:435-450 | the decoded context is what its properties say, the last settings value of each kind counting |
| DataContexts.DecodeListKeeps | src/tapi_data.c:748-800 | the loop keeps every block owned once, lost or from before, whatever fails |
| DataContexts.FreeListKeeps | src/tapi_data.c:807-813 | the loop after the callback frees all blocks of the list and no other |
| DataQuery.Client.ParseProperties | src/tapi_data.c:31-111 | the address block, its content and the heap, also when its allocation fails |
| DataQuery.Client.UpdateDataContext | src/tapi_data.c:380-433 | the effect of each property on the context and the heap, with the tables for type, protocol and authentication |
| DataQuery.Client.UpdateDataContexts | src/tapi_data.c:435-450 | the effect of a dictionary |
| DataQuery.Client.FreeContext | src/tapi_data.c:791-796 | frees exactly the up to four blocks of a context, all of them live |
| DataQuery.Client.Decode | src/tapi_data.c:748-800 | the result array and the heap after the loop, with its two breaks on failure and its cap |
| DataQuery.Client.FreeContexts | src/tapi_data.c:807-813 | each context of the array is freed once, last to first |
| DataQuery.Client.ListQueryDone | src/tapi_data.c:708-814 | what the callback is given, if it is called at all, and the heap afterwards, for error replies and lists |
| IpSettings.FillDns | src/tapi_data.c:85-101 | the array starts with the first ten servers of at most 128 characters, in order, and no element after the tenth accepted one is visited |
| IpSettings.DnsIsFirstTen | src/tapi_data.c:49-52 | with one name-server list anywhere in the dictionary, entry k of the array is its k-th fitting server, or empty |
| IpSettings.FieldIsLastFitting | src/tapi_data.c:69-83 | each address setting is the last value of its key that is not too long |
| IpSettings.FittingOne | src/tapi_data.c:88-94 | a name server is kept exactly if it is a string of at most 128 characters |
| IpSettings.FittingPieces | src/tapi_data.c:89-102 | name servers are kept one by one, in order |
| IpSettings.FieldStored | src/tapi_data.c:69-107 | the last value of at most 128 characters is stored, and without one the field is not set |
| IpSettings.RepeatedDns | src/tapi_data.c:84-101 | a further name-server list goes over the front of the earlier ones |
| IpSettings.Parse | src/tapi_data.c:113-192 | the parsed settings for any dictionary or none |
| DataWatch.Watcher.Serve | src/tapi_data.c:194-267 | over any signals on the bus the callback runs on those meant for the watcher, with status OK, its message id, slot, user object and the converted value |
| DataWatch.CallsOnFiltered | src/tapi_data.c:229-264 | these calls are the images, in order, of exactly the matching subsequence |
| DataWatch.Watcher.DataPropertyChanged | src/tapi_data.c:194-267 | a signal leads to one callback if its property is the one of the registered message, to none otherwise |
| DataWatch.CallsOnOne | src/tapi_data.c:232-260 | for each of the four messages: the one property and object that lead to a call, and what the call is told |
| DataWatch.CallsOverParts | src/tapi_data.c:194-267 | the calls over a run are those over its parts, one after the other |
| DataWatch.Register | src/tapi_data.c:1724-1802 | the return code in the order of the checks, and a watcher only with a positive id, on the right object and signal |
| DataWatch.RegisteredCodes | src/tapi_data.c:1732-1801 | the return code for every failing check |
| Filtering.FilterKeeps | src/tapi_call.c:1171-1176 | filtering keeps a matching element as often as it occurs and no other |
| Filtering.FilterConcat | src/tapi_call.c:1171-1176 | filtering keeps the order: it distributes over any cut |
| CallFilter.GetCallByState | src/tapi_call.c:1145-1179 | writes exactly the order-preserving filter by state, returns its length, and leaves the rest; also when filtering the list into itself |
| CallFilter.OutputsPermute | src/tapi_call.c:1171-1178 | over distinct states that cover the list the outputs together are a permutation of it and the counts sum to its size |
| Strtok.Tokenizer.Next | src/tapi_network.c:44-58 | one in-place `strtok` call yields the next non-empty field of the text that was left, and leaves the fields after it |
| CText.FieldsOfJoin | src/tapi_network.c:31-61 | splitting undoes joining for non-empty comma-free fields |
| CText.AtoiOfPrint | src/tapi_network.c:52-56 | `atoi` reads back every printed integer |
| Nitz.ParseNitz | src/tapi_network.c:31-61 | terminates; field k becomes `atoi` of token k and every later int is unchanged; null arguments change nothing |
| Nitz.StaysInsideIffEightFields | src/tapi_network.c:50-57 | nothing beyond the eight ints of the struct is changed, whatever lies there, if and only if the text has at most eight fields |
| Nitz.ParseOfPrint | src/tapi_network.c:137-141 | parsing the comma-separated print of any integers gives them back |
| TextLaws.ParsedOfPrint | src/tapi_network.c:46-57 | printed integers come to lie in the struct in their order, and all other memory stays |
| TextLaws.AtoiForms | src/tapi_network.c:53-53 | `atoi` skips white space and a plus sign, stops after the digits, and gives 0 without any |
| EmergencyList.DecodeSignal | src/tapi_call.c:659-681 | the list is the first thirty entries of the message, with zeros where an attribute is missing, and the attributes of those entries are left cut up in the message |
| EmergencyList.SplitAttribute | src/tapi_call.c:667-671 | both numbers of an attribute, and the string that stays behind where it was |
| EmergencyList.AttributeCut | src/tapi_call.c:667-671 | exactly the attributes of the decoded entries are cut up |
| EmergencyList.NumberKept | src/tapi_call.c:662-663 | no number of the message is changed |
| EmergencyList.ReadableAgainIff | src/tapi_call.c:667-671 | a further watcher of the same message can read it if and only if it holds no attribute |
| EmergencyList.CallPropertyChange | src/tapi_call.c:619-691 | the callback gets that list, and the message is cut up, exactly for the emergency key and message |
| EmergencyList.ModemEccListChange | src/tapi_manager.c:658-734 | the same for the modem signal, which sets the message id itself |
| EmergencyGetter.GetEccList | src/tapi_call.c:1382-1455 | the error in the order of the checks, the fall-back to the modem proxy, and the entries in terms of the four-character copy and what the stack holds after it |
| TextLaws.GetterStatus | src/tapi_call.c:1388-1421 | each error of the getter, and that the modem list counts exactly if the call proxy has none |
| EmergencyList.DecodeOfEncode | src/tapi_call.c:653-687 | decoding an encoded list gives its first min(n, 30) entries |
| TextLaws.NumberAtEnd | src/tapi_call.c:659-676 | a number at the end without an attribute is listed with zeros |
| EmergencyGetter.GetterAgreesIffShort | src/tapi_call.c:1431-1444 | the getter agrees with the signal decoders whatever the stack holds if and only if every attribute read has at most three characters |
| EmergencyGetter.StackBreaksLong | src/tapi_call.c:1436-1440 | for every longer attribute some stack content makes it unreadable or read wrongly |
| EmergencyGetter.IsEmergencyNumber | src/tapi_call.c:1457-1476 | the condition of the first match in (slot, position) order if no list on the way is empty, -1 otherwise |
| Hex.HexStringToByteArray | test/telephony_common_test.c:250-293 | succeeds exactly on non-empty, even-length, fitting, all-hex text with the decoded bytes; otherwise what was written and whether the duplicate was kept |
| Hex.ConvertPair | test/telephony_common_test.c:266-288 | folding, masking and shifting give the byte of two hex digits and report any other pair |
| Hex.DecodeEncode | test/telephony_common_test.c:265-289 | decoding the upper- or lower-case printing of any bytes gives them back |
| Hex.FoldedValue | test/telephony_common_test.c:267-278 | the folded and masked character is the digit's value in the Base 16 alphabet |
| Hex.DecodedPair | test/telephony_common_test.c:273-288 | the first character of a pair gives the high and the second the low half of its byte, for the digits 0-9, A-F and a-f |
| Hex.DecodedTexts | test/telephony_common_test.c:259-261 | the texts that are decoded: a positive even number of such digits, at most two for each byte of room |
| SimOperator.GetSimOperator | src/tapi_sim.c:655-730 | the error in the order of the checks with the buffer untouched, or the packed codes |
| SimOperator.SimHasIccCard | src/tapi_sim.c:535-572 | the return code of each check, and the flag, which stays as it was on an error |
| TextLaws.OperatorStatus | src/tapi_sim.c:661-721 | the return code in literals: when the code is packed, and each error |
| TextLaws.PackedAt | src/tapi_sim.c:723-727 | the buffer, character by character |
| SimOperator.PackedIffLengths | src/tapi_sim.c:723-727 | the buffer reads as MCC followed by MNC if and only if the MCC has three and the MNC two or three characters |
| Roaming.DomesticIffSameCountry | src/tapi_network.c:759-782 | when the call succeeds and the state is roaming, the type is domestic for the SIM's own MCC and international otherwise |
| TextLaws.TypeOnFailure | src/tapi_network.c:766-781 | when the operator cannot be read, three characters of old memory are compared |
| TextLaws.RegistrationTold | src/tapi_network.c:712-785 | what is told in each case, OK exactly for a dictionary |
| Roaming.TypeIsDefinedIff | src/tapi_network.c:759-782 | the type depends neither on what the new block nor on what the stack held if and only if there is no context, or the reply has a status entry and, if its last one is roaming, the operator call succeeds |
| Roaming.QueryDone | src/tapi_network.c:685-792 | what the callback is told, if it is called: an error status, or the filled block and its roaming type |
| RegistrationInfo.FillRegistrationInfo | src/tapi_network.c:96-146 | the effect of each dictionary entry, with the length limits, the tables, the integer widths and the time string |
| TextLaws.CodeEntered | src/tapi_network.c:102-107 | a status and a mode entry set the number of their table and nothing else |
| TextLaws.TextEntered | src/tapi_network.c:111-130 | a name, code or station is stored if it has at most 63, 3 or 100 characters, and nothing else changes |
| TextLaws.NumberEntered | src/tapi_network.c:108-144 | technology, cell, area and denial reason, the latter three in their integer widths |
| TextLaws.TimeEntered | src/tapi_network.c:137-141 | the eight ints of the time, -1 where the text has no field; other keys change nothing |
| Roaming.FilledState | src/tapi_network.c:102-104 | the state is that of the last status entry, or what the block held if there is none; the MCC never depends on it |
| CoveredPlmn.GetCoveredPlmn | src/tapi_utils.c:620-631 | the buffer holds the shifted codes and a terminator and is otherwise unchanged |
| TextLaws.CoveredDigits | src/tapi_utils.c:624-629 | digit d becomes the d-th letter from a, at its own place |
| CoveredPlmn.CoveredInjective | src/tapi_utils.c:624-629 | for MCCs of equal length the covered code tells all pairs apart |
| CoveredPlmn.CoveredIff | src/tapi_utils.c:624-629 | two covered codes agree exactly if the digits written one after the other do |
| CoveredPlmn.CollisionIffLengthsDiffer | src/tapi_utils.c:624-629 | operators with MCCs of given lengths and the same covered code exist if and only if the lengths differ |
| CoveredPlmn.CoveredLetters | src/tapi_sms.c:527-530 | it consists of the letters a to j exactly for digit strings and fits the seven-byte buffer |

## Left out

- StkContext.Context.HandleRequest: does not model what is in the parameter block, nor the parsing of selection items, whose loop advances its index three times per item.
- StkContext.Context.HandleWithdraw: does not model that AgentRelease without a context drops the reply it had already built.
- StkAsWritten.DefinedIffNoneAfterAccepted: a call that reads a freed block ends the run, since C promises nothing from there on; an agent that registers again counts as a new agent.
- RequestCalls.Client.HandleSubmit: covers seven request kinds of the two disciplines; the other request functions of the library repeat these paths.
- Nitz.ParseNitz: does not model a failing `strdup` or numbers outside the range of a C int; the memory behind the struct must reach as far as there are fields.
- Hex.HexStringToByteArray: does not model a failing `strdup`.
- EmergencyGetter.GetEccList: takes an array of strings to alternate numbers and attributes to its end, or to be longer than what is read; the elements of a D-Bus array have one type.
- DataContexts.HeapRestoredIff: covers the list of data calls; the access point list runs the same loop without filter and address blocks, and the single-context signal the same parser.
- IpSettings.Parse: the IPv6 parser is a copy of the IPv4 one, so one method stands for both.
- DataWatch.Watcher.Serve: the tables for slots and network types are parameters; values are assumed to have the D-Bus type their property declares.
- Roaming.QueryDone: a time string in the reply must have at most eight fields, since a longer one is written past its struct.
- ProxyContext.Context.Close: does not model the connection, the client and the property watches.
- The companion watch made in `tapi_register` for emergency lists, whose id is lost, and the agent registration that keeps two blocks on failure.
- Connection set-up with retries, logging, data-logging reports and environment reads.
- Phonebook, cell broadcast, supplementary services and IMS modules, and one-property getters and setters: single D-Bus calls or further copies of the paths above.
- Call and message list queries, whose loops have no cap.
- Threads: handlers, replies and callbacks interleave as the runs describe, never inside one another except from a callback.
