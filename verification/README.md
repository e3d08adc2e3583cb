# grave-tether: the tethering controllers, modelled in Dafny

grave-tether turns an Android phone plugged in over USB into the network
connection of a Linux desktop. It does this by driving `adb` (to switch the
phone's USB functions to RNDIS and to adjust two global settings,
`tether_dun_required` and `tether_offload_disabled`) and `ip` (to find the
tethering interface on the Linux side and its IPv4 address). The repository
holds three versions of the controller:

- `golxpanic/main.go`, a Bubble Tea program;
- `lxpanic.py`, a Textual program;
- `go/main.go` ("Go Tether"), a second Bubble Tea program.

This project models the sequential core under each user interface and proves
what the core promises. The core has four parts:

- the device-list parser and the serial resolver;
- the interface detector;
- the adb command builder and the enable/disable step chains, each under its
  own failure policy;
- the application state machine: the menu cursor, readiness gating, the
  status fields and the log.

Every external command is an input. A Go command's result is a
`Completed(output, err)` value. A Python subprocess result is a `PyRun` value:
it exited, its executable was missing, or an exception was raised. Python and
Go Tether take a host oracle, a function from command line to result, and the
model records the command lines each operation starts, so "later steps never
run" is a statement about that trace.

Modules:

- `Text`: the few string operations the controllers use (`strings.TrimSpace` /
  `str.strip`, `strings.Split`, `str.splitlines`, substring search, ASCII
  lower-casing).
- `Wrappers`: `Option`.
- `Exec`: the Go command result.
- `Tea`: the key names Bubble Tea's `Update` tells apart.
- `Patterns`: the link regex
  `\d+: (usb\d+|rndis\d+|enp\S+u\d+): <.*BROADCAST,MULTICAST,UP.*>` and the
  address regex `inet (\d{1,3}\.\d{1,3}\.\d{1,3}\.\d{1,3})`, each written as a
  predicate and searched leftmost-first.
- `Devices`: the device-line filter and the resolver shared by
  `golxpanic/main.go` and `lxpanic.py`.
- `Steps`: the two failure policies and what adb command lines write to the
  phone's settings. This module carries the enable/disable round trip.
- `Golx`, `Lxpanic`, `GoTether`: the three controllers. Each has a class whose
  methods update the fields in place (`Golx.Model`, `Lxpanic.App`,
  `GoTether.Model`). The functions those methods are proved against are in the
  same module.

## Model

| member | source | states |
|---|---|---|
| Text.Trim | golxpanic/main.go:327 | the trimmed text is a contiguous slice of the input with only white space before and after it, and it neither starts nor ends with white space |
| Text.Split | golxpanic/main.go:327 | `strings.Split` gives at least one field, no field holds the separator, and joining the fields gives the input back |
| Text.SplitJoin | golxpanic/main.go:327 | splitting joined separator-free fields gives the same fields back |
| Text.SplitLines | lxpanic.py:179 | `str.splitlines` gives lines without breaks, and none at all only for the empty text |
| Text.SplitLinesOne | lxpanic.py:179 | a non-empty text without line breaks is one line |
| Text.SplitLinesCons | lxpanic.py:179 | a line, a break and the rest split into that line followed by the rest's lines; a lone "\r" is a break of its own |
| Text.SplitLinesCrLf | lxpanic.py:179 | "\r\n" is one break, not two |
| Text.SplitLinesJoin | lxpanic.py:179 | lines joined with newlines split back into the same lines |
| Text.Contains | golxpanic/main.go:330 | substring search holds exactly when the pattern occurs at some index |
| Text.FirstField | golxpanic/main.go:331-333 | the first tab field is a prefix of the line, holds no tab, and ends at the first tab or at the line's end |
| Text.FirstFieldBefore | lxpanic.py:179 | what follows the first separator does not change the first field |
| Text.SplitOnce | golxpanic/main.go:456 | `SplitN(s, " ", 2)` gives the text before the first space and the rest, or the text alone when it has no space |
| Text.Lower | golxpanic/main.go:383 | lower-casing keeps the length and maps every character by ASCII lower-casing |
| Devices.SerialsMembership | golxpanic/main.go:329-336 | a serial is parsed exactly when some line containing "device" that is not the header has it as its first tab field; there are at most as many serials as lines |
| Devices.SerialsAppend | golxpanic/main.go:329-336 | serials are parsed line by line in input order: parsing two blocks of lines gives the first block's serials followed by the second's |
| Devices.Resolve | golxpanic/main.go:343-378 | no serial gives Disconnected; more than one with none selected gives Multiple Devices, listing all; a selected serial that is not listed gives Not Found; otherwise the probe runs, on the selected serial or on the only device; each branch holds if and only if its condition does |
| Patterns.TetherInterface | golxpanic/main.go:416-420 | no name exactly when the link pattern matches nowhere; otherwise the name captured by the leftmost match |
| Patterns.IPv4Address | golxpanic/main.go:425-427 | no address exactly when the address pattern matches nowhere; otherwise the dotted quad of the leftmost match, four runs of one to three digits joined by dots |
| Patterns.QuadOctets | golxpanic/main.go:425 | the quad the address pattern captures is `dots + 1` runs of one to three digits separated by dots |
| Patterns.InetLine | golxpanic/main.go:425-427 | a line "inet A.B.C.D" followed by anything that does not extend the last run of digits gives the address A.B.C.D |
| Patterns.LinkLine | golxpanic/main.go:416-420 | a line "N: NAME: <FLAGS" with digits N, a tethering NAME and flags holding "BROADCAST,MULTICAST,UP" before a closing ">" gives NAME |
| Patterns.SampleLinkOutput | golxpanic/main.go:416-420 | the link line "3: rndis0: <BROADCAST,MULTICAST,UP,LOWER_UP> mtu 1500" gives "rndis0" |
| Patterns.SampleAddrOutput | golxpanic/main.go:425-427 | the address line "inet 192.168.42.1/24 scope global rndis0" gives "192.168.42.1" |
| Patterns.Leftmost | lxpanic.py:241 | the position found is the first in the range where the pattern matches, and none is found only when it matches nowhere |
| Steps.Ran | lxpanic.py:284-288 | every step runs under continue-on-failure; under stop-on-failure all steps before the last one run succeed, and a run that stops early stops on a failing step |
| Steps.ApplyFrame | golxpanic/main.go:156-165 | commands leave every setting they do not write unchanged |
| Steps.ApplyOverwrites | golxpanic/main.go:172-180 | commands that all succeed produce the same settings from starting points that differ only in the settings they write |
| Steps.RoundTrip | golxpanic/main.go:156-180 | if disabling writes every setting enabling may write and all disable steps succeed, then enabling (however far it got) followed by disabling leaves the phone as disabling alone would |
| Golx.LogAppend | golxpanic/main.go:304-310 | the log grows by one up to ten lines and then stays at ten, and it is the last lines of the old log followed by the new line |
| Golx.LogAppendFifo | golxpanic/main.go:304-310 | below ten lines nothing is dropped; at ten exactly the oldest line is dropped; the new line is always last |
| Golx.Model.AddLog | golxpanic/main.go:304-310 | the append-and-reslice gives exactly `LogAppend` of the old log |
| Golx.ParseDevices | golxpanic/main.go:327-336 | the device loop over the trimmed, newline-split listing gives the listed serials |
| Golx.DeviceSerials | golxpanic/main.go:329-336 | the loop collects the first tab field of every device line, in order |
| Golx.IsListed | golxpanic/main.go:363-369 | the found-flag search is true exactly when the selected serial is listed |
| Golx.Authorize | golxpanic/main.go:382-399 | Connected exactly when the probe succeeded and its lower-cased output lacks "unauthorized"; Auth Failed otherwise |
| Golx.CheckAdbConnection | golxpanic/main.go:314-402 | the message is that of the check's outcome, and the commands started are the listing and, only when a serial is chosen, the probe on it |
| Golx.StatusMsgFields | golxpanic/main.go:319-399 | a message is ready exactly for Connected; only Auth Failed and Connected carry a serial, and it is the probed one; every outcome logs a line |
| Golx.CheckAdbOutcomes | golxpanic/main.go:314-402 | `CheckAdb`: a failed listing exactly when `adb devices` errs; Disconnected exactly for no serial; Multiple Devices (listing all) exactly for several with none selected; Not Found exactly for a selected serial that is not listed; otherwise the probe on the selected serial or the only device, Connected exactly when it succeeded without "unauthorized" |
| Golx.CheckAdbReadiness | golxpanic/main.go:380-399 | the check reports ready only after a clean, authorized probe, and it reports a serial only when the probe ran, on that serial |
| Golx.ScenarioSingleDevice | golxpanic/main.go:359-361 | a listing with one device and nothing selected auto-selects it, probes it and, after a clean probe, reports it connected |
| Golx.ScenarioTwoDevices | golxpanic/main.go:350-357 | a listing with two devices and nothing selected gives Multiple Devices, listing both in order, and starts no probe |
| Golx.DeviceLineListed | golxpanic/main.go:330 | a serial followed by a tab and "device" is a device line whenever the serial does not itself contain the header |
| Golx.ListingOne | golxpanic/main.go:327-336 | the parser reads back the one serial of a one-device listing, for any serial without tab, newline, leading white space or the header text |
| Golx.ListingTwo | golxpanic/main.go:327-336 | the parser reads back the two serials of a two-device listing, in order, under the same condition on each serial |
| Golx.InterfaceCheck | golxpanic/main.go:404-444 | `ip` failing gives the error outcome; no link match gives Not Detected; otherwise the first matching interface, with an address exactly when the address query succeeded and its pattern matched |
| Golx.DetectorScenario | golxpanic/main.go:404-444 | an RNDIS link line "3: rndis0: <BROADCAST,MULTICAST,UP,LOWER_UP> …" and the address line "inet 192.168.42.1/24 …" give interface rndis0 with address 192.168.42.1 |
| Golx.CommandArgv | golxpanic/main.go:446-464 | no command line without a serial; "shell REST" becomes `adb -s SERIAL shell REST`; any other command becomes `adb -s SERIAL COMMAND` |
| Golx.ShellSplit | golxpanic/main.go:454-456 | splitting "shell REST" once at its first space gives "shell" and REST |
| Golx.RunAdbCommand | golxpanic/main.go:446-470 | the result keeps the description; success holds exactly when there is a serial and the command returned no error; without a serial the output is the fixed error text |
| Golx.DisplayedOutput | golxpanic/main.go:219-222 | the shown output is at most 80 bytes: the trimmed output when it fits, otherwise its first 77 bytes followed by "..." |
| Golx.ResultLogLine | golxpanic/main.go:211-226 | a success line is "SUCCESS: " and the description, never the output; a failure line is "FAILED: " and the description, followed, when there was output, by " (Output: ", the displayed output and ")"; a failure line is bounded in length |
| Golx.RunSequence | golxpanic/main.go:156-165 | `tea.Sequence` delivers one message per task, in order, each task's own, whatever the earlier tasks reported |
| Golx.EnableReportsEveryStep | golxpanic/main.go:156-165 | enabling reports on all four adb steps in order, each step's success being its own command's even after an earlier failure, then announces completion and re-checks the device and the interface |
| Golx.StepArgvs | golxpanic/main.go:158-161 | the command lines of the steps are those `runAdbCommandCmd` builds for each step, in order |
| Golx.ShellCommand | golxpanic/main.go:454-460 | a shell step reaches the device's shell as the same words |
| Golx.EnableTouches | golxpanic/main.go:158-161 | enabling writes exactly tether_dun_required, the USB functions and tether_offload_disabled |
| Golx.DisableTouches | golxpanic/main.go:174-176 | disabling writes exactly the same three settings |
| Golx.RootWritesNothing | golxpanic/main.go:158 | `adb root` writes no setting |
| Golx.EnableDisableRoundTrip | golxpanic/main.go:156-180 | whichever enable steps succeeded, a disable whose steps all succeed leaves the phone's settings as disabling alone would |
| Golx.TransitionKeepsInvariant | golxpanic/main.go:140-147 | `Transition`: every message keeps the cursor on the menu and the log within ten lines |
| Golx.NotReadyRejects | golxpanic/main.go:150-170 | Enable or Disable while not ready appends one error line, changes nothing else and returns no command |
| Golx.RefreshSetsSerial | golxpanic/main.go:194-202 | after a status message the model is ready exactly for Connected, remembers a serial only if the probe ran, and has logged one line |
| Golx.Model.constructor | golxpanic/main.go:113-125 | the initial model: statuses "Unknown", info "N/A", not ready, the configured serial, an empty log, cursor 0 |
| Golx.StartupCheck | golxpanic/main.go:113-130 | `Init` on the initial model starts the device check for the configured serial and the interface check; the device check's message makes the model ready exactly for Connected and is the first log line |
| Golx.PerformDelivers | golxpanic/main.go:156-186 | `Perform`: an adb step reports under its own description the success of its own command; the completion notice reports success; the device check reports ready exactly for Connected; the interface check reports the detector's outcome |
| Golx.KeyCommands | golxpanic/main.go:136-191 | `KeyTransition`: quit on ctrl+c, q or Enter on "Exit"; enable or disable only on Enter over those items while ready; refresh on r or Enter on "Refresh Status"; each targets the remembered serial and logs its line; up/down move the cursor within the menu; other keys change nothing |
| Golx.Model.Update | golxpanic/main.go:133-231 | the fields and the returned command are those of the transition function, and the invariant is kept |
| Golx.Model.HandleKey | golxpanic/main.go:136-191 | the key cases update the fields and return the command as the key transition says |
| Golx.Model.HandleAdbStatus | golxpanic/main.go:194-202 | the status, info, readiness and serial are copied from the message, and its log line appended when not empty |
| Golx.Model.HandleIfaceStatus | golxpanic/main.go:204-209 | the interface status is copied from the message, and its log line appended when not empty |
| Lxpanic.FullCommand | lxpanic.py:130-133 | the command line is `adb` followed by the arguments when no serial is set, and `adb -s SERIAL` followed by the arguments otherwise |
| Lxpanic.RunLinesShape | lxpanic.py:135-163 | a run logs what it executes, then: for return code 0 "SUCCESS" and the output when not empty; for any other code "FAILED", the stdout when not empty, then the stderr when not empty; the missing-adb line exactly when the executable was not found; the exception's text for any other exception |
| Lxpanic.RunAdbEffect | lxpanic.py:128-163 | `RunAdb`: one run starts exactly the command line built from the serial, appends three to five log lines and changes nothing else |
| Lxpanic.App.RunAdbCommand | lxpanic.py:128-163 | success exactly for return code 0; the log lines and the started command are those of `RunAdb`, and the status fields and serial are unchanged |
| Lxpanic.Failure | lxpanic.py:218-227 | a missing `adb` gives the "command not found" outcome and any other exception gives the connection-error outcome |
| Lxpanic.InfoOf | lxpanic.py:183-216 | the detected device shown is a serial exactly for Not Found, Auth Failed and Connected, and it is the outcome's serial; it is "Please specify" exactly for Multiple Devices, with the devices found |
| Lxpanic.CheckLines | lxpanic.py:181-227 | the check logs one line, and none exactly when the device is connected |
| Lxpanic.CheckBranches | lxpanic.py:181-199 | `CheckOutcome`: no device gives Disconnected; several with no serial set give Multiple Devices; a set serial that is absent gives Not Found; an unset serial is set to the only device; the probe starts exactly when a serial is chosen |
| Lxpanic.ProbedSerial | lxpanic.py:202-216 | an authorization verdict names the serial `DEVICE_SERIAL` holds after the check |
| Lxpanic.ReadyOnlyWhenConnected | lxpanic.py:181-227 | `CheckAdbState`: the app is ready exactly when the probe found the device authorized, and then it shows the serial in use and logs nothing |
| Lxpanic.SerialNeverCleared | lxpanic.py:186-199 | a set `DEVICE_SERIAL` is never cleared or replaced; an empty one is set only to the single listed device; with a serial set, Multiple Devices never happens |
| Lxpanic.AuthFailedIff | lxpanic.py:202-216 | `CheckOutcome`: for a probed serial, Auth Failed exactly when the probe's stderr contains "device unauthorized" and Connected otherwise, whatever its return code |
| Lxpanic.App.CheckAdbConnection | lxpanic.py:165-227 | the status fields, `DEVICE_SERIAL`, the log and the started commands become those of the check function |
| Lxpanic.IfaceFailure | lxpanic.py:264-269 | a missing `ip` and any other exception give their own outcomes |
| Lxpanic.IfaceOutcome | lxpanic.py:229-269 | Not Detected exactly when no interface matches in the stripped link output; a found interface is the leftmost match, and it has an address exactly when the stripped address output matches; an error outcome exactly when `ip link` or the address query did not exit, the missing-`ip` one exactly when the executable was not found |
| Lxpanic.App.GetLinuxInterfaceStatus | lxpanic.py:229-269 | the interface status, the one log line and the started commands become those of the interface function |
| Lxpanic.RefreshIssues | lxpanic.py:113-117 | a refresh starts the device check's commands, then the interface check's, and leaves the app ready exactly for Connected |
| Lxpanic.App.RefreshStatus | lxpanic.py:113-117 | the app after a refresh is that of the refresh function |
| Lxpanic.ChainCommands | lxpanic.py:284-300 | the chain's command lines are the steps' full commands, in order |
| Lxpanic.ChainRunsPrefix | lxpanic.py:284-300 | `Chain`: a chain starts its steps in order up to and including the first that fails, and none after it |
| Lxpanic.ChainFrame | lxpanic.py:284-300 | `Chain`: a chain changes only the log and the started commands |
| Lxpanic.ChainOfThree | lxpanic.py:284-288 | the three-step chain is the nested `if success:` statements |
| Lxpanic.App.RunChain | lxpanic.py:284-288 | running three steps with the `success` flag gives the chain function's app |
| Lxpanic.GateRejects | lxpanic.py:275-277 | `Press`: any button, Refresh included, with no serial or not ready only logs one error line |
| Lxpanic.EnableIssues | lxpanic.py:279-291 | `Press`: Enable starts `root` whatever its result, then the chain up to its first failure, then the refresh's commands |
| Lxpanic.DisableIssues | lxpanic.py:293-302 | `Press`: Disable starts the chain up to its first failure, then the refresh's commands |
| Lxpanic.App.OnButtonPressed | lxpanic.py:272-305 | the app after a button press is that of the press function |
| Lxpanic.ShellStepWords | lxpanic.py:284 | a shell step reaches the device's shell as the same words |
| Lxpanic.EnableChainTouches | lxpanic.py:284-288 | the enable chain writes exactly tether_dun_required, the USB functions and tether_offload_disabled |
| Lxpanic.DisableChainTouches | lxpanic.py:296-300 | the disable chain writes exactly the same three settings |
| Lxpanic.RootWritesNothing | lxpanic.py:282 | `adb root` writes no setting |
| Lxpanic.EnableDisableRoundTrip | lxpanic.py:279-302 | however far the enable chain got, a disable chain whose steps all succeed leaves the phone as disabling alone would |
| Lxpanic.App.constructor | lxpanic.py:87-90 | the reactive fields start as "Unknown", "N/A", "Unknown" and not ready; `DEVICE_SERIAL` starts empty |
| GoTether.RunCmd | go/main.go:152-159 | no error exactly when the command succeeded; then the output is trimmed; on failure the output is kept as it is and the error names the command and ends with the output |
| GoTether.IpText | go/main.go:218 | an address's text is never "N/A" |
| GoTether.FirstV4First | go/main.go:208-220 | the address taken is the first with a 4-byte form, and none is taken exactly when no address has one |
| GoTether.ScanFirst | go/main.go:204-227 | `Scan`: the scan reports the first interface named "usb…" or "rndis…" with a 4-byte address, with that address, and nothing exactly when none qualifies |
| GoTether.ScanInterfaces | go/main.go:199-229 | the nested loops with their breaks give the fields of the first qualifying interface, or "Not found" and "N/A" |
| GoTether.CheckStatus | go/main.go:169-232 | the message is the status function's, and the commands started are the status queries in order |
| GoTether.StatusErrors | go/main.go:174-182 | `Status`: the check fails only when adb is not in PATH (with its fixed message and no command) or when the listing fails (with the listing's own error) |
| GoTether.ConnectedIff | go/main.go:183-192 | `Status`: connected exactly when the trimmed listing's second line contains "device"; otherwise "No device found" and no further query |
| GoTether.TetheringIff | go/main.go:194-229 | `Status`: tethering exactly when the USB functions read back as "rndis"; an address is reported exactly when tethering and some interface qualifies; name and address are reported together |
| GoTether.FoundInterface | go/main.go:217-218 | a reported interface has a real address and a name other than "Not found" |
| GoTether.ChainRuns | go/main.go:241-262 | `Chain`: the chain starts its steps in order up to and including the first that fails, and none after it |
| GoTether.ChainErrorIff | go/main.go:241-265 | `Chain`: the chain reports an error exactly when some step fails |
| GoTether.ChainErrorLast | go/main.go:243-261 | `Chain`: a reported error is the own error of the last step started, which is the first failing one |
| GoTether.ToggleStops | go/main.go:234-266 | `Toggle`: enabling and disabling start their steps up to the first failure and succeed exactly when every step succeeds |
| GoTether.ToggleWrites | go/main.go:243-258 | the four commands write tether_dun_required "0", USB functions "rndis", tether_offload_disabled "1" and USB functions "mtp" |
| GoTether.EnableSettings | go/main.go:241-255 | a full enable writes its three settings |
| GoTether.DisableSettings | go/main.go:256-261 | a successful disable writes the USB functions alone |
| GoTether.DisableKeepsSettings | go/main.go:234-266 | after a full enable and a disable, tether_dun_required stays "0" and tether_offload_disabled stays "1"; so when the phone started with tether_dun_required other than "0", disabling does not undo enabling |
| GoTether.Initial | go/main.go:271-291 | the initial model is loading, keeps the cursor on the menu and holds one Info entry |
| GoTether.InitCmds | go/main.go:293-299 | the first commands include the status check |
| GoTether.TransitionKeepsInvariant | go/main.go:319-326 | `Transition`: the cursor never leaves the five menu items |
| GoTether.ToggleOnlyWhenConnected | go/main.go:327-344 | `KeyTransition`: tethering is toggled only by Enter on the first two items while a device is connected: item 0 enables, item 1 disables |
| GoTether.NotConnectedWarns | go/main.go:329-344 | without a device, Enter on Enable or Disable changes nothing and logs one warning |
| GoTether.FlushThenLog | go/main.go:345-349 | "Refresh & Flush Log" empties the log and checks the status; once its entry is delivered, the log holds that entry alone |
| GoTether.LogsOnlyAppend | go/main.go:363-364 | apart from the flush, the log changes only by a log message appending its entry |
| GoTether.StatusUpdateKeeps | go/main.go:366-375 | a failed check keeps the last status and records the error; a successful one replaces the status and keeps an earlier error |
| GoTether.TetheringDoneRefreshes | go/main.go:377-386 | whatever the outcome, loading stops, the error becomes the outcome's and the status is checked again |
| GoTether.Model.constructor | go/main.go:271-291 | the fields start as the initial model |
| GoTether.Model.Update | go/main.go:301-415 | the fields and the returned commands are those of the transition function, and the cursor stays on the menu |
| GoTether.Model.HandleKey | go/main.go:315-357 | the key cases update the fields and return the commands as the key transition says |

## Left out

- Rendering: every `View`, the lipgloss styles, the Textual CSS, `compose`
  and the `watch_*` methods. py/css.py and py/config.py hold only a style
  sheet and constants. The status texts are kept without their colour markup.
- Process spawning, `exec.LookPath` and `net.Interfaces` are inputs: a
  `Completed` or `PyRun` value per command, a `Lookup` value and a list of
  interface records.
- The Python and Go Tether host oracles are functions of the command line. A
  command line started twice during one operation is taken to answer the same
  both times.
- Text decoding: strings stand for byte strings. A `decode()` error is not
  modelled. In lxpanic.py it would be raised after the verdict line was
  written, while the model's `Raised` outcome logs only the error line.
- Text.Trim: removes ASCII white space only. `strings.TrimSpace` and
  `str.strip` also remove other Unicode white space, and `str.strip` also
  removes \x1c-\x1f.
- Patterns: `\d` and `\s` are the ASCII classes Go's RE2 uses. Python's `\d`
  also matches other Unicode digits, and its `\s` also matches \v, \x1c-\x1f
  and other Unicode white space.
- Text.Lower: lower-cases ASCII letters only. `strings.ToLower` also maps
  other capitals, such as U+212A KELVIN SIGN to "k".
- Timestamps (`time.Now`), `time.Sleep` (go/main.go:251), the spinner, the
  viewport, window-size messages and logging to a file are left out.
- Concurrency: `tea.Batch` and the 5-second `set_interval` polling are left
  out. A command is a value (`Golx.Cmd`, `GoTether.Cmd`) and its effect is the
  message it delivers (`Golx.Perform`, `GoTether.Perform`). The two checks of
  a Golx refresh are listed in order, but they may run in either order.
- The guard at golxpanic/main.go:457-459 cannot fire after the "shell "
  prefix test. It is left out, and `Golx.ShellSplit` shows why.
- adb joins the arguments of `adb shell` with spaces before the device's
  shell splits them. The model takes that split at single spaces, which
  covers the commands the controllers send.
- Golx.ScenarioSingleDevice: holds for serials with no tab, newline or
  leading white space that do not contain the header (`PlainSerial`). The
  general parser is covered by `Devices.SerialsMembership` and
  `Golx.ParseDevices`.
- Golx.ScenarioTwoDevices: same condition as above.
- Lxpanic keeps the status fields and log lines as values;
  `Lxpanic.StatusText`, `InfoText`, `IfaceText` and `LineText` give their
  texts. A log line holds the raw output, and the stripped text is what is
  shown.
- `DEVICE_SERIAL` is a module global in lxpanic.py. It is the `deviceSerial`
  field of `Lxpanic.App`, since only that app writes it.
- Lxpanic.ChainOks: its contract states only the length; the values are
  stated through `Lxpanic.ChainRunsPrefix`.
- GoTether: `net.IP` is an address with or without a 4-byte form. An
  IPv4-mapped IPv6 address counts as a 4-byte one, since `To4()` returns
  non-nil for it. IPv6 text is not modelled, because the scan never reports
  it. Go's `error` values are modelled as their text.
- GoTether: the log levels are a datatype rather than strings.
- The malformed import at go/main.go:32 is not modelled: it keeps the file
  from compiling, and the logic is modelled as written.
- Neither Go version ignores key presses while `isLoading` is set, and the
  model follows that code: a second Enable while a toggle runs starts another
  toggle.
