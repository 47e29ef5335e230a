# Verified model of the Tuya daemons

Two small daemons connect a device to the Tuya cloud. `tuya_daemon` reports the time every ten seconds, in a
format that the cloud can change; the openwrt daemon reports memory information from ubus and carries out remote
actions on devices. This project models what keeps state in them over unbounded runs and proves what a maintainer
relies on.

- **The supervised run.** `TuyaMachine` and `OpenwrtMachine` are the two programs as machines with one step for
  every guard evaluation, library call, sleep and counter update. The signal handler may run before any step: an
  input says whether it does, and how the call made there ends. `Traces` holds the events that a run leaves behind,
  `Equivalence` compares the two machines. `TuyaDaemon` and `OpenwrtDaemon` are the programs themselves, with their
  loops, gotos, counters and the global flag. They are observed over a script, a finite sequence of happenings of
  any length and content; a run that outlasts its script is `Cut` (`Observation`). `Replay` says what a script
  amounts to, and the programs are proved to make exactly the machine's calls for it.
- **The format and the tree that feeds it.** `Memory` is an explicit heap with blocks at addresses that are never
  used twice, and the cJSON calls on it, with a recursive deletion. Reading and freeing require the block to be
  live, so a verified caller neither reads a freed
  block nor frees one twice. `FormatCell` is the format with its flag, the
  messages that change it and the reports that use it.
- **The report.** `TimeReport` builds it in place in a buffer; `JsonText` decodes it by RFC 8259, sections 2, 4
  and 7; `Formats` reads a format by ISO/IEC 9899:2011, section 7.27.3.5.
- **The openwrt actions.** `SendInfo` holds the three ubus requests with their callbacks and response strings,
  `Actions` the decoding and dispatch of a remote action.

Some properties do not hold without a condition; each condition is proved exact, for all inputs.

- A published report decodes to the text it was made from if and only if the text has no quote, backslash or control
  character, because the text is not escaped (`JsonText.RoundTrip`). The sender of a format can tell beforehand: with
  a strftime that follows the standard it is so if and only if the format has neither `%n` nor `%t` and no such
  character outside its conversions (`Formats.FormatRoundTrip`, for whole runs `Formats.RunDecodesIfPlain`). After a
  PROPERTY_SET for the format that is a single quote the next report is not a JSON object
  (`Formats.QuoteBreaksReport`).
- A remote action switches the pin with exactly the received number if and only if that is a whole number from 0 to
  2^32 - 1 (`Actions.RequestedPin`); a request for pin 3.9 switches pin 3 (`Actions.FractionIsLost`).
- The delay between connection attempts is the power of two that it is meant to be if and only if fewer than 31
  doublings have been made, because it is an `unsigned int` (`Traces.DelayIsExact`); both programs stay below that.
- The length of a text survives its cast to `int` if and only if it is below 2^31 (`TimeReport.CastIsExact`); the
  buffer of the program is far smaller.

The comment at tuya_daemon/connection.c:61-62 says that `get_time_string` returns 0 on success. The code returns
the text length, and the model follows the code.

## Assumptions

- The data string of a PROPERTY_SET parses to a JSON object, as tuya_daemon/connection.c:119-120 relies on: it has a
  root, and its first member, if any, has a name. The openwrt model does not assume that an action parses.
- `cJSON_Parse` allocates a node per item and a copy of each name and string value, `valuestring` is NULL for
  everything that is not a string, `cJSON_Delete` frees an item with all below and after it, `cJSON_GetObjectItem`
  ignores ASCII case, and allocation succeeds.
- `strftime`, where `Formats` speaks of it, copies ordinary characters and replaces each conversion by a text without
  quotes, backslashes or control characters, except that `%n` is a newline and `%t` a tab.
- `strftime` returns the text length if the text fits with its NUL and 0 otherwise, and its text has no NUL.
- A successful `ubus_invoke` runs its callback exactly once, a failing one does not run it.
- The SDK runs callbacks only inside `tuya_mqtt_connect`, `tuya_mqtt_loop` and `tuya_mqtt_disconnect`. It runs none
  when initialisation fails, and `tuya_mqtt_deinit` runs none.
- The handler only clears the flag, so running it inside a library call is the same as running it right after, and
  running it twice the same as once.

## Model

| member | source | states |
|---|---|---|
| TuyaDaemon.RunProgram | tuya_daemon/main.c:54-104 | for every script and all limits: the program returns if and only if the machine does, with its status and exactly its calls, having made exactly the reports due, with the format each used, the message each published and its result; then nothing is left allocated, and before that at most the format is; a request to stop eight steps before the end of the script makes it return |
| TuyaDaemon.ReplayRule | tuya_daemon/main.c:54-104 | what the script of a run amounts to, read off its calls: each step adds at most one call, a lawful one; inside connect, MQTT loop and disconnect all callbacks are run, in order, with the messages and reports that follow; the main-loop send makes one report; no other step delivers or reports anything; the outcomes are those of the script |
| TuyaDaemon.CallbackRule | tuya_daemon/connection.c:85-158 | a delivered message is one message, a connection coming up makes one report with the format as it is then, a connection going down does neither |
| TuyaDaemon.ReportsConcat | tuya_daemon/connection.c:85-158 | callbacks one after the other: later ones see the messages of earlier ones |
| TuyaDaemon.DoneStays | tuya_daemon/main.c:94-103 | a program that has returned makes no further call and no further report |
| TuyaDaemon.Daemon.Execute | tuya_daemon/main.c:54-104 | for every script: the program makes exactly the machine's calls, in the order of the protocol, and returns its status; success only if asked to stop; on every exit path nothing is left allocated; all messages delivered are handled in order, the reports made are exactly those due, with what each publishes, and the format each uses is the last one accepted before it; with a request to stop eight steps before the end of the script it has returned |
| TuyaDaemon.Daemon.Serve | tuya_daemon/main.c:61-92 | connecting and the main loop with their exits to `cleanup` follow the machine to clean-up, with its exit status |
| TuyaDaemon.Daemon.ConnectToTuya | tuya_daemon/main.c:146-175 | the retry loop with its doubling delay and the bounded set-up loop end where the machine does |
| TuyaDaemon.Daemon.InitTuya | tuya_daemon/main.c:139-143 | a failed initialisation ends the run with EXIT_FAILURE and no further call |
| TuyaDaemon.Daemon.RunCallbacks | tuya_daemon/connection.c:85-158 | the callbacks of one call handle every message in order and make exactly the reports due, each with the format as the messages before it left it and the message that this makes it publish |
| TuyaDaemon.ReplayStops | tuya_daemon/main.c:106-111 | the handler runs in the replayed machine exactly where the script runs it |
| TuyaMachine.CallProtocol | tuya_daemon/main.c:54-103 | every run initialises first and once, connects before it loops or sends, disconnects, deinitialises and frees exactly once and last if and only if initialisation succeeded, and does nothing after a failed one |
| TuyaMachine.EveryEventIsLawful | tuya_daemon/main.c:54-175 | in every run each call is one that may follow the trace so far: what must come before it, which values it has (ten seconds, the next delay, the flag as it is), and when the retry loop, the set-up loop and the main loop go on or end, all from the trace and the requests to stop alone |
| TuyaMachine.RunsGoOn | tuya_daemon/main.c:54-103 | a run makes a call within three steps or returns, and has returned exactly after a failed initialisation or the release of the format |
| TuyaMachine.LawOfMain | tuya_daemon/main.c:66-91 | with the constants: five set-up loops, ten retries and ten failed sends in a row, unless a call fails or the handler has run |
| TuyaMachine.CounterRefinesHistory | tuya_daemon/main.c:66-92 | at every loop head the counter is the number of consecutive failed main-loop sends that end the history, below the limit; the loop gives up exactly at the first send that completes that many |
| TuyaMachine.SuccessMeansAskedToStop | tuya_daemon/main.c:61-103 | exit status 0 if and only if the main-loop guard finding the flag down was the last thing before clean-up, which needs the handler; every failure exits with 1, whatever signals arrive |
| TuyaMachine.KeepMirrorsRequests | tuya_daemon/main.c:106-111 | the flag is down exactly when the handler has run: it is monotone over every run |
| TuyaMachine.StopStep | tuya_daemon/main.c:68-92 | with the flag down every step lowers a rank and pays for its event out of an allowance |
| TuyaMachine.StopBound | tuya_daemon/main.c:68-103 | wherever the handler runs, at most one connect or MQTT loop call (never both), one sleep and one main-loop send follow, and the run is over within eight steps |
| TuyaMachine.BackoffClosedForm | tuya_daemon/main.c:148-161 | for any retry limit the k-th delay, counted from 0, is 2^(k+1) for k below 31 and 0 from then on, there is at most one attempt more than retries, and n delays add up to 2^(n+1) - 2 for n up to 31 and to 2^32 - 2 for more |
| TuyaMachine.BackoffOfMain | tuya_daemon/main.c:148-161 | with the constants: at most 11 attempts and 2046 seconds |
| Traces.DelayIsExact | tuya_daemon/main.c:148-155 | the delay is the exact power of two if and only if fewer than 31 doublings were made |
| Traces.DelaysAddUp | tuya_daemon/main.c:148-155 | the total of any number of delays, before and after they wrap to zero |
| Traces.TrailingIsLongestFailingSuffix | tuya_daemon/main.c:80-91 | the history function of the counter is the longest run of failures that ends the main-loop sends |
| Equivalence.SameService | openwrt/tuya_daemon/src/main.c:110-139 | from the loop head, for all outcomes and handler placements, both main loops do the same things in the same order, leave at the same step and agree on success |
| Equivalence.SameAttempts | openwrt/tuya_daemon/src/connection.c:143-158 | for all outcomes and handler placements both retry loops make the same attempts and sleeps, leave at the same step and make none afterwards |
| Equivalence.OpenwrtBackoff | openwrt/tuya_daemon/src/connection.c:145-158 | the closed form of the delays carries over to the openwrt daemon |
| Equivalence.OpenwrtBackoffOfMain | openwrt/tuya_daemon/src/connection.c:145-158 | with the constants: at most 11 attempts and 2046 seconds |
| OpenwrtMachine.ConnectedBeforeServing | openwrt/tuya_daemon/src/connection.c:165-172 | the main loop's body is entered only if the last check of the set-up loop, directly before the first guard, found the connection up, for all handler placements |
| OpenwrtMachine.EveryEventIsLawful | openwrt/tuya_daemon/src/connection.c:143-174 | in every run each call is one that may follow the trace so far, from the trace and the requests to stop alone; as in the other daemon, with the unbounded set-up loop and its checks |
| OpenwrtMachine.RunsGoOn | openwrt/tuya_daemon/src/main.c:85-98 | a run makes a call within three steps or returns, and has returned exactly after the deinitialisation |
| OpenwrtMachine.LawOfMain | openwrt/tuya_daemon/src/main.c:110-139 | with the constants: ten retries and ten failed sends in a row, unless a call fails or the handler has run |
| OpenwrtMachine.SuccessMeansAskedToStop | openwrt/tuya_daemon/src/main.c:85-98 | exit status 0 if and only if the main loop left through its guard, which needs the handler; otherwise a failed connect, MQTT loop or send came last, a failed send only as the one that completes the limit in a row, and the status is -1 if the main loop was never reached and 1 if it was |
| OpenwrtMachine.CounterRefinesHistory | openwrt/tuya_daemon/src/main.c:112-136 | at every loop head the counter is the number of consecutive failed main-loop sends that end the history, below the limit; the loop gives up exactly at the first send that completes that many |
| OpenwrtMachine.KeepMirrorsRequests | openwrt/tuya_daemon/src/signals.c:7-14 | the flag is down exactly when the handler has run, across both functions that read it |
| OpenwrtMachine.StopBound | openwrt/tuya_daemon/src/connection.c:165-172 | although the set-up loop is unbounded, a request to stop ends the run within nine steps, with at most one connect or MQTT loop call, one sleep and one send |
| OpenwrtDaemon.RunProgram | openwrt/tuya_daemon/src/main.c:85-98 | for every script and all limits: the program returns if and only if the machine does, with its status and exactly its calls, and has asked ubus for exactly what was delivered and for the periodic information, in order; it serves only once connected; returned or not, no response string or tree is left allocated, and each response was reported once and freed once |
| OpenwrtDaemon.ReplayRule | openwrt/tuya_daemon/src/main.c:85-98 | what the script of a run amounts to, read off its calls: each step adds at most one call, a lawful one; inside connect, MQTT loop and disconnect all callbacks are run, in order, with the requests that follow; the main-loop send asks for system info; no other step asks ubus for anything; the outcomes are those of the script |
| OpenwrtDaemon.CallbackRule | openwrt/tuya_daemon/src/connection.c:19-102 | an action asks for what it requests, a connection coming up for system info if the service is there, anything else for nothing |
| OpenwrtDaemon.CallbacksConcat | openwrt/tuya_daemon/src/connection.c:19-102 | callbacks one after the other ask one after the other |
| OpenwrtDaemon.Daemon.Execute | openwrt/tuya_daemon/src/main.c:85-98 | for every script: the program makes exactly the machine's calls and returns its status; success only if asked to stop; it serves only once connected; wherever it is observed no response string or tree is live, each response was reported once and freed once, and ubus was asked exactly for what was delivered, in order |
| OpenwrtDaemon.Daemon.ConnectToTuya | openwrt/tuya_daemon/src/connection.c:143-158 | the retry loop and the set-up behind it end where the machine does |
| OpenwrtDaemon.Daemon.SetUp | openwrt/tuya_daemon/src/connection.c:165-172 | the unbounded set-up loop ends with the connection up, the flag down or a failure, as the machine does |
| OpenwrtDaemon.Daemon.MainLoop | openwrt/tuya_daemon/src/main.c:110-139 | the loop returns the machine's verdict |
| OpenwrtDaemon.Daemon.RunCallbacks | openwrt/tuya_daemon/src/connection.c:19-102 | the callbacks of one call ask ubus exactly for what they bring, in order, and leave the heap empty |
| OpenwrtDaemon.ReplayStops | openwrt/tuya_daemon/src/signals.c:9-14 | the handler runs in the replayed machine exactly where the script runs it |
| FormatCell.LastWriteIsMostRecent | tuya_daemon/connection.c:113-147 | the format after a history is the value of the most recent accepted message, or the default if there was none |
| FormatCell.FormatRule | tuya_daemon/connection.c:113-147 | a PROPERTY_SET whose first member is called date_time_format and has a string value replaces the format by it; every other message, so any other property, leaves it; the format starts as `%F %T%z` |
| FormatCell.ReportRule | tuya_daemon/connection.c:32-59 | strftime gets the last accepted format if the clock works; the text between `{"time":"` and `"}` is published exactly if the clock works and it has 1 to 188 characters; which result goes with what |
| FormatCell.UsesStay | tuya_daemon/connection.c:36-38 | what is known about the formats of past reports survives later messages |
| FormatCell.FormatCell.constructor | tuya_daemon/connection.c:12-13 | the cell starts with the default literal, which it does not own |
| FormatCell.FormatCell.SetDateTimeFormat | tuya_daemon/connection.c:16-23 | the string is taken over without a copy, the one it replaces is freed, the flag is up and the literal is never freed |
| FormatCell.FormatCell.FreeDateTimeFormat | tuya_daemon/connection.c:25-30 | at exit the heap is empty |
| FormatCell.FormatCell.OnMessages | tuya_daemon/connection.c:102-158 | a PROPERTY_SET whose first member is called date_time_format and has a string value makes that the format, and any other message leaves format and flag alone; afterwards only the current format is live and the replaced one and the tree are freed |
| FormatCell.FormatCell.HandlePropertySet | tuya_daemon/connection.c:113-147 | the format is replaced exactly by the string value of a first member called date_time_format; on every path the parsed tree is deleted, less the stolen string if there is one |
| FormatCell.FormatCell.Steal | tuya_daemon/connection.c:140-144 | after the hand-over the string is live and owned by the cell alone, also for the log read in between, and the rest of the tree is intact |
| FormatCell.FormatCell.SendCurrentTime | tuya_daemon/connection.c:32-59 | which of 0, -1, -2, -3 is returned, the very text that is published and when there is none, and that strftime gets the last accepted format |
| Formats.FormatRoundTrip | tuya_daemon/connection.c:34-54 | after any messages, with a standard strftime: a published report decodes to its text if and only if the last accepted format has no %n, no %t and no ordinary character that needs escaping |
| Formats.RunDecodesIfPlain | tuya_daemon/connection.c:32-59 | in every run with a standard strftime, every published report decodes if and only if the format it used is plain in that sense |
| Formats.OrdinaryRoundTrip | tuya_daemon/connection.c:34-54 | for a format without conversions the report decodes to the format if and only if the format needs no escaping |
| Formats.QuoteBreaksReport | tuya_daemon/connection.c:48-54 | after any messages and then a PROPERTY_SET for the format that is a single quote, what is published is not a JSON object |
| Formats.AskingIsHeard | tuya_daemon/connection.c:113-147 | every format can be received, after any messages |
| Formats.DefaultFormatIsPlain | tuya_daemon/connection.c:13 | the default format is one whose reports decode |
| Memory.HoldsFrame | tuya_daemon/include/cJSON.h:103-123 | a tree is untouched by changes outside its footprint |
| Memory.DisownChildHolds | tuya_daemon/connection.c:143-144 | clearing the value of the first member takes exactly that string out of the tree |
| Memory.LookupErases | tuya_daemon/include/cJSON.h:169-170 | looking up a member of a tree in memory is looking it up in the JSON it holds |
| Memory.LookupIsFirst | tuya_daemon/include/cJSON.h:169-170 | a lookup yields the first item of that name by position in the chain, or none |
| Memory.CaseRule | tuya_daemon/include/cJSON.h:169-170 | ignoring case, only a letter is taken for another character: its other case |
| Memory.Storage.Parse | tuya_daemon/include/cJSON.h:148 | a parsed tree is new, separate, fully live, and holds the JSON |
| Memory.Storage.Delete | tuya_daemon/include/cJSON.h:162-163 | frees every address of the tree once and nothing else |
| Memory.Storage.GetObjectItem | tuya_daemon/include/cJSON.h:169-170 | the first member of that name, ignoring case, or NULL |
| Memory.Storage.GetStringValue | tuya_daemon/include/cJSON.h:176-177 | the string of a string item, or NULL |
| TimeReport.Strlen | tuya_daemon/connection.c:35 | the length of the C string that starts the buffer |
| TimeReport.GetTimeString | tuya_daemon/connection.c:63-83 | the text length, cast to `int`, on success, with the text and its NUL in place; otherwise which of -1, -2, -3; nothing outside the given part of the buffer changes |
| TimeReport.BuildReport | tuya_daemon/connection.c:34-50 | for any prefix and any buffer size: the buffer holds exactly prefix, text, closing quote, brace and NUL whenever that fits, and an accepted text is refused exactly when it does not; what is built has the whole text if and only if its length is below 2^31 |
| TimeReport.CastIsExact | tuya_daemon/connection.c:75 | a length survives the cast to `int` if and only if it is below 2^31; in general it is taken modulo 2^32 into the range of `int`, and never grows by it |
| TimeReport.BuildTimeReport | tuya_daemon/connection.c:34-54 | with the sizes of the code: texts of 1 to 188 characters are published, 189 and 190 refused with -2, and what is published decodes to the text exactly when it is plain |
| JsonText.RoundTrip | tuya_daemon/connection.c:34-54 | a report decodes to the single member `time` with the text if and only if the text has no quote, backslash or control character |
| JsonText.EscapedRoundTrip | tuya_daemon/connection.c:34-54 | escaped by section 7, every text would decode to itself |
| JsonText.BodyOfReport | tuya_daemon/connection.c:48-50 | a string read up to the closing quote either ends early or loses characters unless the text is plain |
| SendInfo.Sender.Callback | openwrt/tuya_daemon/src/send_info.c:98-131 | the response is successful exactly for an answer with the required fields, and then holds a new string: the memory table for the memory callback, the whole answer for the others |
| SendInfo.AnswerRule | openwrt/tuya_daemon/src/send_info.c:98-225 | which answers are accepted, with the names of the required fields, and what is reported: of the system information only the memory table, otherwise the whole answer |
| SendInfo.InfoRule | openwrt/tuya_daemon/src/send_info.c:133-155 | a memory request is made exactly if the service is found, and it gets through exactly if the call succeeds with all required fields and the report is taken |
| SendInfo.Sender.UbusInvoke | openwrt/tuya_daemon/src/send_info.c:142-143 | the callback runs exactly once on success and not at all on failure |
| SendInfo.Sender.Request | openwrt/tuya_daemon/src/send_info.c:141-155 | an answered request adds answer, report and release of the same string; every other one reports nothing; the heap is as before |
| SendInfo.Sender.SendMemoryInfo | openwrt/tuya_daemon/src/send_info.c:133-155 | asks system for info once if the service is there; reports the memory table of an acceptable answer and frees it; true exactly if that report is taken |
| SendInfo.Sender.SendConnectedDevicesList | openwrt/tuya_daemon/src/send_info.c:179-205 | asks devctl for list_devices once if the service is there; reports and frees an acceptable answer; true exactly if that report is taken |
| SendInfo.Sender.ControlDevicePin | openwrt/tuya_daemon/src/send_info.c:227-262 | asks devctl for the action of the flag with the borrowed device name and the pin; reports and frees an acceptable answer; true exactly if that report is taken |
| SendInfo.ConservedExchange | openwrt/tuya_daemon/src/send_info.c:98-262 | a request keeps the log conserved: over any sequence of requests each response is reported and freed right after its own answer |
| SendInfo.ReportedAndFreedOnce | openwrt/tuya_daemon/src/send_info.c:98-262 | in a conserved log each answer is reported exactly once and freed exactly once, after it |
| SendInfo.ExchangeInvokesOnce | openwrt/tuya_daemon/src/send_info.c:133-262 | a request invokes ubus exactly once |
| Actions.Runner.ExecuteAction | openwrt/tuya_daemon/src/connection.c:37-82 | at most one method is asked of devctl: list_devices exactly for that action if the service is there, the received turn_on_pin or turn_off_pin exactly if device and numeric pin are there and the call gets that far, with the received device and the received number cut to a whole one; the tree is deleted on every path, after the last use of what is borrowed from it |
| Actions.Runner.DispatchPinAction | openwrt/tuya_daemon/src/connection.c:53-80 | devctl is asked exactly for a received turn_on_pin or turn_off_pin with device and numeric pin, under that name and with them; the pin is the received number if and only if that is a whole number below 2^32 |
| Actions.RequestRule | openwrt/tuya_daemon/src/connection.c:43-80 | the same of the request that a message stands for: when there is one, and its name, device and pin |
| Actions.DecodingRule | openwrt/tuya_daemon/src/connection.c:44-60 | each part of a message is read from the first member of its name among the members of the message and of its inputParams, and is there only if that has the right type |
| Actions.PinIsExact | openwrt/tuya_daemon/src/connection.c:67 | the cast keeps exactly the whole numbers from 0 to 2^32 - 1 |
| Actions.RequestedPin | openwrt/tuya_daemon/src/connection.c:67-73 | an action that reaches devctl asks for the received pin if and only if that is a whole number in range |
| Actions.FractionIsLost | openwrt/tuya_daemon/src/connection.c:67 | a message for pin 3.9 asks for pin 3 |
| Actions.Runner.SwitchPin | openwrt/tuya_daemon/src/connection.c:68-79 | the way from name to flag and back to name ends at the received name; unknown names ask nothing |
| Actions.Runner.GetString | openwrt/tuya_daemon/src/connection.c:44-48 | a string member as a pointer borrowed from the live tree, NULL exactly if there is none |

## Left out

- MQTT, TLS, ubus, UCI, syslog, the clock and strftime themselves: foreign code; their outcomes are inputs.
- JSON parsing in general: a message carries what its data string parses to; only the report has a decoder, for
  objects of string members.
- `become_daemon`, command-line and UCI options, `str_to_bool`, `str_to_digit`, log levels: no unbounded state.
- The openwrt start before `init_connections` succeeds, and its clean-up after a failed one.
- OpenwrtDaemon.Daemon.RunCallbacks: does not model the ubus context and its release in `on_disconnect`, because when
  the SDK runs that callback, and whether it connects again afterwards, is not in the repository.
- The blob buffer of `control_device_pin`: only response strings are accounted for.
- NULL results of the SDK's allocations and of `blobmsg_format_json`.
- Log output, except that it reads the stolen string through the tree once more.
- LuCI pages, build files, certificates and error codes.
- SendInfo.Sender.Request: the three requests repeat this ending in the source; the model has it once.
- Actions.PinNumber: the conversion of a pin outside the 32-bit range is undefined in C; any value is allowed for it.
- TuyaMachine.CounterRefinesHistory: for a failure limit of at least 1; with 0 the comparison would never hold.
- OpenwrtMachine.CounterRefinesHistory: for a failure limit of at least 1, as above.
- Formats.FormatRoundTrip: says nothing of a conversion that the standard leaves undefined.
