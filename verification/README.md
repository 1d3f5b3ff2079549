# phnctl, modelled and verified in Dafny

phnctl is a small HTTPS server that drives the fans, the thermal profile, the battery settings and
the keyboard of an Acer Predator laptop through files in sysfs. This project models the parts of it
that hold state or that print and parse text, and proves what they promise. `dafny verify
dfyconfig.toml` checks everything.

Code that changes things step by step is a class or a method with a loop here, and each such method
is proved equal to a function of its inputs and of the old state. What the code promises is then
proved about those functions, over all inputs, all runs or all interleavings. A run is a sequence of
steps; where several goroutines meet, each step is what one of them does while it holds a lock, and a
theorem about runs is a theorem about every interleaving.

## How the parts fit together

- **Files and readings** (`Store`, `Sensors`, `SensorCache`, `Numbering`, `Rivals`, `Healing`,
  `Labels`, `Order`). A tree of files stands for sysfs. A write may do anything at all to the tree,
  whether it succeeds or fails; a theorem that needs a better device says so. Resolving the hwmon
  inputs, and the cached paths that heal themselves when a read fails, are compared with resolving
  afresh; `Labels` says what the resolution finds in terms of the files alone.
- **The controller** (`Hardware`, `Controller`, `Degradation`, `ReadBack`, `Offers`, `Runs`, `Caches`,
  `Interlocks`, `Refusals`, `Reports`). `Hardware` says what a snapshot and each setter compute; the
  class in `Controller` updates its fields the way the program does; `Refusals` and `Reports` state
  the policy and the report value by value, without the functions that compute them. Clock readings are arguments: one for the timestamp of
  a snapshot, one for the age check, one for the stamp of a refresh.
- **Codecs** (`Text`, `Codecs`, `Formats`). Decimal numbers, trimming, splitting, words and letter
  case are implemented, so no round trip is assumed.
- **WebSocket** (`Frames`, `Connection`, `Hub`), after RFC 6455, sections 5.2, 5.3 and 5.5.
- **Credentials and tokens** (`Bytes`, `Base64`, `Pbkdf2`, `Auth`), after RFC 4648, sections 4 and 5,
  and RFC 8018, section 5.2. HMAC-SHA256 is any function to 32 bytes.
- **Server state** (`Setup`, `LoginLimiter`, `WriteLimiter`, `Throttle`) and the **log filter**
  (`NoiseFilter`).

## Where the program does less than one might think

Each of these is proved with its exact condition, and some with a concrete case as well.

- The hwmon numbers matter exactly when some directory has a rival: two or more are of one device, and
  at least one of these offers an input that is read from (`Rivals.NumbersMatterExactly`;
  `Numbering.TwinsDependOnNumbers` is a machine where they do). The comments and the project's own
  README promise independence without that condition.
- After a renumbering under a running controller, a read leaves the right paths in the cache exactly
  when one of the pair fails or the directories of both keep their numbers (`Healing.RenumberingHeals`).
  A path that now reads another device is believed. Whatever the sensors show, that never leads to a
  wrong reading exactly when a cached path dangles or both directories keep their numbers
  (`Healing.FansMisleadExactly`, `Healing.TemperaturesMisleadExactly`; `Healing.RenumberingCanMislead`
  is a machine where it does).
- manualAllowed tells whether manual fans would be refused exactly under the condition of
  `Offers.ManualAllowedMeaning`. Without a list of profile choices the thermal profile is not probed,
  and a snapshot announces manual fans that `SetFans` refuses in Silent mode
  (`Offers.UnprobedProfileMisleads`).
- Going Silent leaves the fan speeds in force, manual or full: the fans are automatic afterwards
  exactly when they were before (`Interlocks.SilentKeepsFans`, `Interlocks.SilentFansAllowed`, with a machine in
  `Interlocks.SilentMachineKeepsFans`).
- Setup requests that overlap can leave the credentials file with one password and the server with
  another, although a comment in the code says that they must not race over the stored password. No
  interleaving of a set of requests does so exactly when all of them that can succeed come to the same
  credentials (`Setup.DivergesExactly`; `Setup.OverlapDiverges` is the run that does it otherwise), and
  none does while no two requests overlap (`Setup.SerialSetupAgrees`).
- A refused write that comes back after the announced time is admitted unless the clock had jumped
  back by almost 292 years (`WriteLimiter.RetryIsAdmitted`, with a case in
  `WriteLimiter.RetryCanBeRefused`).
- A frame of 2^32 bytes or more is sent with a length that does not read back (`Frames.DecodeEncode`).
- Pings of up to 4096 bytes are echoed, so the 125 bytes that section 5.5 of RFC 6455 allows a control
  frame are kept exactly when every ping and close that is answered keeps to them
  (`Connection.ControlLimit`, with a case in `Connection.LongPingIsEchoed`).
- A handshake line that the output refuses takes its suppressed count with it; nothing is lost exactly
  when no such line is refused (`NoiseFilter.NothingLostExactly`, with a case in
  `NoiseFilter.LosingRunLoses`).

## Model

| member | source | states |
|---|---|---|
| `Text.FieldsSpread` | internal/sysfs/controller.go:273 | however the words of the choices file are spaced out, exactly those words are read |
| `Text.SplitJoin` | internal/sysfs/codecs.go:54-58 | a comma list splits into the parts it was joined from, when none holds a comma |
| `Text.JoinSplit` | internal/auth/auth.go:48-52 | what a text is split into joins back to it, and no part holds the separator |
| `Text.TrimSpacePadded` | internal/sysfs/controller.go:466-472 | white space around a trimmed attribute text is removed and nothing else |
| `Text.TrimSpaceMeaning` | internal/sysfs/controller.go:466-472 | what trimming takes away is white space at both ends, all of it, and nothing is left exactly of a blank text |
| `Text.SpaceMeaning` | internal/sysfs/controller.go:466-472 | white space is the six ASCII characters |
| `Text.CaseMeaning` | internal/sysfs/codecs.go:121-126 | the letters of the two cases correspond, and nothing else changes |
| `Text.AtoiItoa` | internal/sysfs/codecs.go:157-166 | a printed integer reads back, and only within int64 |
| `Text.AtoiMeaning` | internal/sysfs/codecs.go:157-166 | a text reads as an integer exactly when it is an optional sign and digits, leading zeros included, within int64 |
| `Codecs.ParseListText` | internal/sysfs/codecs.go:54-107 | a printed list of integers parses exactly when each is in its range, and gives them back |
| `Codecs.FanRoundTrip` | internal/sysfs/codecs.go:14-42 | a fan setting parses from its own text exactly when it validates, and is then unchanged |
| `Codecs.FanReparse` | internal/sysfs/codecs.go:14-42 | whatever spelling was accepted, signs, leading zeros and padding included, printing and parsing it again changes nothing |
| `Formats.FanAccepts` | internal/sysfs/codecs.go:14-28 | a text is accepted, and as these speeds, exactly when it is two integers of 0 to 100 with one comma, white space allowed around each |
| `Codecs.ParseEffectSetting` | internal/sysfs/codecs.go:54-83 | the parsing loop reads seven parts in order against their limits and reports the first bad one |
| `Codecs.EffectRoundTrip` | internal/sysfs/codecs.go:54-107 | an effect parses from its own text exactly when it validates or only its direction is 0 |
| `Codecs.EffectReparse` | internal/sysfs/codecs.go:54-107 | a parsed effect validates exactly when its direction is not 0, and survives reprinting |
| `Formats.EffectAccepts` | internal/sysfs/codecs.go:54-83 | the same of the seven numbers of an effect, each in its own bounds, a direction of 0 included |
| `Codecs.IsHexColor` | internal/sysfs/codecs.go:168-178 | the loop decides whether a text is six hexadecimal digits of either case |
| `Codecs.ParseZoneSetting` | internal/sysfs/codecs.go:117-137 | the parsing loop accepts four colours and a brightness, in lower case, and reports the first bad part |
| `Codecs.ZoneRoundTrip` | internal/sysfs/codecs.go:117-155 | a valid zone setting parses from its own text with its colours in lower case |
| `Codecs.ZoneReparse` | internal/sysfs/codecs.go:117-155 | what was parsed is valid, already in lower case, and survives reprinting |
| `Formats.ZoneAccepts` | internal/sysfs/codecs.go:117-137 | the same of four colours of six hexadecimal digits in either case and a brightness, the colours read in lower case |
| `Store.EchoedText` | internal/sysfs/controller.go:466-472 | a device that returns the written bytes with white space around them is read as the written text |
| `Order.SortedUnique` | internal/sysfs/controller.go:641 | a list of names has one sorted arrangement only |
| `Order.SortIgnoresOrder` | internal/sysfs/controller.go:630-643 | sorting forgets the order in which the directories were listed |
| `Order.LeqMeaning` | internal/sysfs/controller.go:641 | names are ordered by the first byte in which they differ, a prefix first |
| `Sensors.HwmonDirectories` | internal/sysfs/controller.go:630-643 | the directories and symbolic links of the class, sorted; none if it cannot be listed |
| `Sensors.FindInputByLabel` | internal/sysfs/controller.go:611-628 | the input beside the first label that reads as the target in any case |
| `Sensors.FirstExisting` | internal/sysfs/controller.go:596-606 | the first candidate that is there and exists |
| `Sensors.ResolveSensors` | internal/sysfs/controller.go:557-594 | the one pass over the directories computes what the last directory of each device offers, with a dedicated sensor before the channel of the embedded controller |
| `Labels.ChannelIsBest` | internal/sysfs/controller.go:596-628 | the input of the channel whose label is the first to read as the target, where it exists, and in every other case the usual input, where that exists |
| `Labels.FansMeaning` | internal/sysfs/controller.go:574-587 | the fans are those labelled "CPU Fan" and "GPU Fan" in any case, of the last directory named acer, and without such labels its first and second |
| `Labels.TemperaturesMeaning` | internal/sysfs/controller.go:557-594 | the temperatures are those of the package from coretemp and of a card from nvidia or amdgpu, and where these have none, the channels labelled "CPU" and "GPU" of acer, or its first and second |
| `SensorCache.ResolveIsStructural` | internal/sysfs/controller.go:557-643 | the resolution depends on directories, names, labels and existence alone |
| `SensorCache.ResolvedPathsExist` | internal/sysfs/controller.go:550-551 | every recorded path exists |
| `SensorCache.FansAgree` | internal/sysfs/controller.go:513-543 | a fan read through the cache equals one through a fresh resolution whenever a cached path fails or the structure is that of the resolution |
| `SensorCache.TemperaturesAgree` | internal/sysfs/controller.go:523-543 | the same of temperatures |
| `Rivals.WinnersDecide` | internal/sysfs/controller.go:557-594 | the resolved paths of a renumbered machine are the renamed ones exactly when each reading comes from the same directory |
| `Rivals.ResolveIsNumberingIndependent` | internal/sysfs/controller.go:533-594 | without rivals every renumbering renames the resolved paths and changes nothing else |
| `Rivals.NumbersMatterExactly` | internal/sysfs/controller.go:533-594 | the numbers make no difference exactly when no directory has a rival for an input that is read from |
| `Rivals.UniqueDevicesHaveNoRival` | internal/sysfs/controller.go:557-594 | one directory of each device at most is enough for that |
| `Rivals.FreshReadingsAreNumberingIndependent` | internal/sysfs/controller.go:513-531 | without rivals a fresh controller reads the same speeds and temperatures under any numbering |
| `Healing.PathsKept` | internal/sysfs/controller.go:533-594 | after a renumbering a fresh resolution finds a cached path again exactly when its directory keeps its number |
| `Healing.RenumberingHeals` | internal/sysfs/controller.go:513-543 | a read of either pair then leaves the right paths in the cache exactly when one of the pair fails or the directories of both keep their numbers |
| `Healing.SnapshotHeals` | internal/sysfs/controller.go:238-239 | a snapshot leaves all four paths right exactly when some one of them fails or all directories keep their numbers |
| `Healing.FansMisleadExactly` | internal/sysfs/controller.go:513-543 | whatever the sensors show, the cached fan paths give the speeds of a fresh resolution exactly when one of them leads to no file or both directories keep their numbers |
| `Healing.TemperaturesMisleadExactly` | internal/sysfs/controller.go:523-543 | the same of temperatures |
| `Healing.RenumberingCanMislead` | internal/sysfs/controller.go:533-543 | two swapped numbers after which the cached path reads another device and nothing heals |
| `Numbering.ResolveIgnoresListingOrder` | internal/sysfs/controller.go:630-643 | the order of the class listing never matters |
| `Numbering.TwinsDependOnNumbers` | internal/sysfs/controller.go:557-594 | a machine with rivals: swapping two numbers makes a fan appear or disappear |
| `Controller.Controller.constructor` | internal/sysfs/controller.go:135-140 | a new controller has resolved and probed, and has read nothing slow |
| `Controller.Controller.RefreshCapabilities` | internal/sysfs/controller.go:142-192 | a probe replaces the capabilities, may heal the sensor paths, and leaves the slow cache |
| `Controller.Controller.SensorsWentStale` | internal/sysfs/controller.go:537-543 | resolves again exactly when a recorded path of the pair failed |
| `Controller.Controller.ReadFanRpm` | internal/sysfs/controller.go:513-521 | both speeds through the healing cache, with at most one new resolution |
| `Controller.Controller.ReadTemperaturePair` | internal/sysfs/controller.go:523-531 | both temperatures, likewise |
| `Controller.Controller.ReadPowerSource` | internal/sysfs/controller.go:489-511 | on mains if some mains supply is online, on battery if there is one but none is, else unknown |
| `Hardware.PowerMeaning` | internal/sysfs/controller.go:489-511 | when the power source is mains, battery and unknown, by the type, the name and the online file of each supply |
| `Controller.Controller.RefreshSlowState` | internal/sysfs/controller.go:265-328 | the slow values field by field equal one read of all of them |
| `Controller.Controller.TakeSnapshot` | internal/sysfs/controller.go:201-261 | the state reported and the caches left behind, both exactly |
| `Controller.Controller.ListAvailable` | internal/sysfs/controller.go:686-709 | the maps and the loop offer the options that are both chosen by the driver and permitted on this power source, in the fixed order |
| `Controller.Controller.Commit` | internal/sysfs/controller.go:350-354 | write, and only after a success invalidate and read back |
| `Controller.Controller.SetProfile` | internal/sysfs/controller.go:330-355 | result, caches, tree and writes of the call, refusals included |
| `Controller.Controller.SetFans` | internal/sysfs/controller.go:357-380 | the same, with both interlocks |
| `Controller.Controller.SetBoolean` | internal/sysfs/controller.go:382-416 | the same for the five switches, with the consent a calibration needs checked before its support |
| `Controller.Controller.SetUsbCharging` | internal/sysfs/controller.go:418-432 | the same for the four levels |
| `Controller.Controller.SetPerZone` | internal/sysfs/controller.go:434-448 | the same for the zones |
| `Controller.Controller.SetEffect` | internal/sysfs/controller.go:450-464 | the same for the effect |
| `Refusals.AllowedProfiles` | internal/sysfs/controller.go:686-709 | value by value, what each power source allows of the driver's choices |
| `Refusals.ProfileRefusals` | internal/sysfs/controller.go:330-355 | why a profile is refused, and that any other is written: by the capability, the choices file and what the power source allows |
| `Refusals.FansRefusals` | internal/sysfs/controller.go:357-380 | the two interlocks in terms of the profile file and the speeds: a conflict exactly for manual fans in Silent mode, a confirmation exactly for speeds below 20 in the two fast modes; otherwise the two speeds are written |
| `Refusals.SwitchRefusals` | internal/sysfs/controller.go:382-416 | which file each of the five names stands for, written as 1 or 0, and when it is refused and why |
| `Refusals.UsbRefusals` | internal/sysfs/controller.go:418-432 | the four levels 0, 10, 20 and 30 are written and nothing else |
| `Refusals.ZoneRefusals` | internal/sysfs/controller.go:434-448 | four colours and a brightness are written in lower case, anything else is refused |
| `Refusals.EffectRefusals` | internal/sysfs/controller.go:450-464 | seven numbers in their bounds are written, with a direction of 1 or 2; anything else is refused |
| `Reports.FlagMeaning` | internal/sysfs/controller.go:474-487 | a flag is on for the text 1, off for 0, and unread for any other |
| `Reports.ReadingMeaning` | internal/sysfs/controller.go:645-658 | a sensor file that holds an integer, with white space around it, is read as that integer |
| `Reports.SnapshotReports` | internal/sysfs/controller.go:201-224 | timestamp, power source, capabilities, and the profile with the name it is shown under |
| `Reports.ModeMeaning` | internal/sysfs/controller.go:218-236 | automatic exactly at 0 and 0, full exactly at 100 and 100, manual otherwise, and no mode without a reading |
| `Reports.RefreshedExactly` | internal/sysfs/controller.go:250-252 | the slow values are read again exactly when they are more than 30 seconds old |
| `Reports.RefreshReports` | internal/sysfs/controller.go:265-328 | the driver version and the words of the choices file |
| `Reports.ProbeMeaning` | internal/sysfs/controller.go:169-192 | which files and which readings make up each capability |
| `Degradation.DegradedMeaning` | internal/sysfs/controller.go:197-261 | when everything is read, a section is in the degraded list exactly when it was probed and its read fails |
| `Degradation.SnapshotIsSound` | internal/sysfs/controller.go:197-328 | every gated attribute is then the parse of its file with its section unlisted, or zero with it listed if it was probed |
| `Degradation.ChangeIsLocal` | internal/sysfs/controller.go:201-328 | changing the content or readability of one attribute changes only the fields it feeds and its own section |
| `ReadBack.WrittenStateIsSound` | internal/sysfs/controller.go:163-167 | what a successful write reads back is sound for the tree after the write, whatever the cache held |
| `ReadBack.ProfileReadBack` | internal/sysfs/controller.go:330-355 | on a device that keeps what is written, a successful call returns the requested profile, not degraded |
| `ReadBack.FansReadBack` | internal/sysfs/controller.go:357-380 | the requested speeds and mode |
| `ReadBack.BooleanReadBack` | internal/sysfs/controller.go:382-416 | the requested switch |
| `ReadBack.UsbReadBack` | internal/sysfs/controller.go:418-432 | the requested level |
| `ReadBack.ZonesReadBack` | internal/sysfs/controller.go:434-448 | the requested zones, in lower case |
| `ReadBack.EffectReadBack` | internal/sysfs/controller.go:450-464 | the requested effect |
| `ReadBack.OfferedAreOptions` | internal/sysfs/controller.go:686-709 | a value is among the offered options exactly when it is an option, the driver's choice and permitted |
| `Offers.AvailableMeaning` | internal/sysfs/controller.go:256-258 | a snapshot offers a value exactly when it is an option that the choices it holds contain and the power source permits |
| `Offers.OfferedIsAccepted` | internal/sysfs/controller.go:330-355 | for every value, what a snapshot offers is what SetProfile lets through, exactly when the choices it used still offer the same options; so after a refresh, and while the choices are unchanged |
| `Offers.AvailableInOrder` | internal/sysfs/controller.go:686-709 | the offers come in the fixed order without duplicates |
| `Offers.ManualAllowedMeaning` | internal/sysfs/controller.go:235 | manualAllowed says that no valid non-auto request meets a conflict, exactly when the speeds were read and the profile was probed or is not quiet, or they were not and it is |
| `Offers.UnprobedProfileMisleads` | internal/sysfs/controller.go:176 | a concrete machine where it announces fans that are refused |
| `Runs.EveryCallIsTransaction` | internal/sysfs/controller.go:330-464 | every call is a snapshot, a refusal that changes nothing, or one write followed on success by a full read-back |
| `Runs.SlowWasRead` | internal/sysfs/controller.go:250-252 | in every run the slow cache is empty or was read as a whole by one call |
| `Runs.SlowIsRecent` | internal/sysfs/controller.go:250-261 | in every run the slow part of every returned state was read by that call, or by one whose stamp is no older than the lifetime of the cache when it is checked |
| `Caches.SlowStaysCurrent` | internal/sysfs/controller.go:163-167 | when only this controller changes the slow attributes, the cached values stay those of a refresh done now |
| `Caches.CacheIsInvisible` | internal/sysfs/controller.go:250-328 | every state any call returns is then the one a controller without the cache would return |
| `Caches.SensorsExisted` | internal/sysfs/controller.go:545-551 | in every run the sensor paths lie under hwmon and each existed when it was stored |
| `Caches.ReadingsAreFresh` | internal/sysfs/controller.go:513-543 | while the sensor structure stays, every returned state has the readings of a fresh resolution |
| `Interlocks.FansWrite` | internal/sysfs/controller.go:357-380 | fans are written exactly when supported, valid, not manual in Silent mode, and confirmed when slow in a fast mode |
| `Interlocks.SwitchWrites` | internal/sysfs/controller.go:382-416 | a switch is written exactly when supported, and the start of a calibration only with consent |
| `Interlocks.ZonesWrite` | internal/sysfs/controller.go:434-448 | zones are written exactly when supported and valid, as a text that parses |
| `Interlocks.WritesExactlyWhenSafe` | internal/sysfs/controller.go:330-464 | whatever is asked in whatever state, the hardware is written exactly when the attribute is supported, the write safe and, for zones, the value itself valid; otherwise the call is refused and nothing changes |
| `Interlocks.SilentKeepsFans` | internal/sysfs/controller.go:350-354 | going Silent leaves speeds and mode as they were, manual and full fans included, and withdraws manualAllowed |
| `Interlocks.SilentFansAllowed` | internal/sysfs/controller.go:357-371 | the speeds then in force are ones SetFans would let through exactly when they were automatic |
| `Interlocks.SilentMachineKeepsFans` | internal/sysfs/controller.go:330-371 | a machine that goes Silent with its fans at half speed, a request it would then refuse |
| `Throttle.WritesWereAdmitted` | internal/server/server.go:421-436 | in every interleaving, each write so far and each request under way was paid for by an admission |
| `Throttle.HardwareWritesBounded` | internal/server/server.go:78-80 | the hardware is written at most once, and once more for every interval between the first and the last admission |
| `WriteLimiter.Limiter.Allow` | internal/server/server.go:633-641 | the verdict and the new instant of the last admission |
| `WriteLimiter.RefusedExactly` | internal/server/server.go:633-641 | a request is refused exactly within the interval of an admission, and only an admission moves the limiter |
| `WriteLimiter.EffectiveInterval` | internal/server/server.go:78-80 | the interval is the configured one if that is positive, else 150 milliseconds |
| `WriteLimiter.AdmissionsSpaced` | internal/server/server.go:633-641 | whatever the clock does, admissions are at least the interval apart |
| `WriteLimiter.AdmissionsBounded` | internal/server/server.go:633-641 | n admissions need n - 1 intervals between the first and the last |
| `WriteLimiter.RetryIsAdmitted` | internal/server/server.go:636-638 | a refused caller that retries after the returned time is admitted, if nobody was meanwhile, exactly when the true wait fits in a duration |
| `WriteLimiter.RetryCanBeRefused` | internal/server/server.go:636-638 | clock readings for which it does not, and the retry is refused |
| `LoginLimiter.Compact` | internal/server/server.go:659-666 | filtering into the slice's own array keeps exactly the recent failures, in order |
| `LoginLimiter.Append` | internal/server/server.go:675 | append puts one failure behind the others, in place or in a larger copy |
| `LoginLimiter.Limiter.Allow` | internal/server/server.go:656-670 | the records afterwards and the answer, with no other address touched |
| `LoginLimiter.Limiter.Failed` | internal/server/server.go:672-678 | one failure more for this address |
| `LoginLimiter.Limiter.Succeeded` | internal/server/server.go:680-684 | the address is forgotten |
| `LoginLimiter.PruningIsHarmless` | internal/server/server.go:656-670 | no failure that can still count is ever pruned |
| `LoginLimiter.AllowsMeaning` | internal/server/server.go:656-670 | an attempt is allowed exactly when fewer than five failures since the last success are younger than 15 minutes |
| `LoginLimiter.FailuresBounded` | internal/server/server.go:250-287 | with at most k attempts in flight no 15 minutes hold more than 4 + k failures since the last success |
| `Setup.NewSecretsGood` | internal/server/server.go:60-90 | a new server has a password or a setup token and never both |
| `Setup.Server.PerformSetup` | internal/server/server.go:163-233 | an undisturbed request succeeds exactly for the right token and an acceptable password on a server without one, from an address that is not limited; memory and file then hold the user it names and its password, a refusal changes neither, and the limiter's records follow each outcome |
| `Setup.PrepareMeaning` | internal/server/server.go:192-213 | for any request: a wrong token, a weak password and failed randomness are each reported in exactly one case, and otherwise the credentials are of the name asked for, trimmed, or of the configured one if that is blank |
| `Setup.Server.RequireAuth` | internal/server/server.go:514-533 | the handler runs exactly for a valid session on a server with a password |
| `Setup.Server.SaveCredentials` | internal/auth/credentials.go:67-107 | only a named user with a valid hash is stored, and a failure leaves the file |
| `Setup.SetupSafety` | internal/server/server.go:183-228 | over all interleavings: a password exactly when no token, no comparison with an empty token, and at most one success, which had the setup token and whose user and password are the ones in force |
| `Setup.NoHandlerBeforeCommit` | internal/server/server.go:514-533 | when a protected handler runs, some setup request has committed and succeeded |
| `Setup.CredentialsAreFinal` | internal/server/server.go:219-227 | once there is a password nothing changes a credential |
| `Setup.LateRequestsNeverSave` | internal/server/server.go:183-188 | a request whose first check follows the commit never writes the file |
| `Setup.SerialSetupAgrees` | internal/server/server.go:183-228 | when no two requests overlap, the file holds exactly the credentials in memory |
| `Setup.OverlapDiverges` | internal/server/server.go:213-228 | any two requests that may both succeed have an interleaving that leaves the one's credentials in memory and the other's in the file |
| `Setup.DivergesExactly` | internal/server/server.go:183-228 | for any set of requests, no interleaving leaves a password in memory that is not in the file, exactly when all that can succeed come to the same credentials |
| `Frames.DecodeEncode` | internal/server/websocket.go:105-125 | a frame reads back from its bytes, whatever follows, exactly when its payload is below 2^32 bytes |
| `Frames.EncodeDecode` | internal/server/websocket.go:105-125 | bytes that read as such a frame in the shortest form are the bytes it is sent as |
| `Frames.DecodeAllStream` | internal/server/websocket.go:105-125 | a stream of frames reads back as exactly those frames |
| `Frames.StreamIsUnique` | internal/server/websocket.go:105-125 | different frames never make the same stream |
| `Connection.WsClient.WriteFrame` | internal/server/websocket.go:105-125 | the header grows in its three forms and goes out before the payload, which a failed header keeps back |
| `Connection.PushFrameWhole` | internal/server/websocket.go:120-124 | a frame reported as written is in the stream whole, right behind what was there |
| `Connection.Unmask` | internal/server/websocket.go:170-172 | the in-place exclusive or with the mask |
| `Connection.MaskedTwice` | internal/server/websocket.go:170-172 | unmasking undoes masking |
| `Connection.WsClient.NextFrame` | internal/server/websocket.go:130-172 | one pass takes one frame or stops with the error the code gives |
| `Connection.WsClient.ReadLoop` | internal/server/websocket.go:127-189 | the bytes sent, the bytes consumed and the reason the loop ends |
| `Connection.ReadFrameOfWire` | internal/server/websocket.go:130-172 | one pass consumes exactly one masked frame in each of the three length forms |
| `Connection.ReadFrameMeaning` | internal/server/websocket.go:130-172 | for any bytes: each of the four errors in exactly one case, and otherwise a final, masked frame of at most 4096 bytes as announced, unmasked |
| `Connection.ServeEnds` | internal/server/websocket.go:127-189 | for any bytes: the loop ends where a frame cannot be read, at a close, or at an opcode other than 1, 2, 9 and 10, and nowhere before |
| `Connection.ServeReplies` | internal/server/websocket.go:127-189 | the replies to any sequence of browser frames are one pong per ping with its payload, in order, up to the first close and its echo |
| `Connection.RepliesReadBack` | internal/server/websocket.go:127-189 | the browser reads those replies back as the frames they are |
| `Connection.ControlLimit` | internal/server/websocket.go:159-181 | the replies keep to the 125 bytes of a control frame exactly when the pings and the close they answer do |
| `Connection.LongPingIsEchoed` | internal/server/websocket.go:159-181 | a ping of 4096 bytes is accepted and echoed in full |
| `Hub.ClientHub.Broadcast` | internal/server/websocket.go:91-103 | every client gets the frame once; those whose write failed leave the map and are closed once |
| `Hub.ClientHub.Remove` | internal/server/websocket.go:82-89 | a client is closed exactly when it leaves the map |
| `Hub.WiresAlwaysGood` | internal/server/websocket.go:57-125 | in every interleaving each wire holds whole frames in lock order |
| `Hub.WireReadsBack` | internal/server/websocket.go:57-125 | it reads back as those frames until a write fails, and the hub closes a connection at most once, when its client leaves the map |
| `Hub.EachSendOnce` | internal/server/websocket.go:91-125 | each writer's frames, those of a broadcast, a first snapshot or a read loop, reach a connection once and in its own order |
| `Hub.RepliesInOrder` | internal/server/websocket.go:173-181 | in every interleaving a read loop's frames on its connection are the first of the replies it owes, in their order |
| `Hub.TurnIsPushFrame` | internal/server/websocket.go:105-125 | a turn of the state machine, from the lock to its end, is one call of writeFrame |
| `Bytes.XorTwice` | internal/server/websocket.go:170-172 | exclusive or with the same byte undoes itself |
| `Bytes.XorMeaning` | internal/server/websocket.go:170-172 | a bit of the exclusive or is set exactly when the two bits differ |
| `Bytes.BigEndianRoundTrip` | internal/server/websocket.go:148-158 | a length survives its big-endian bytes |
| `Base64.DecodeEncode` | internal/auth/auth.go:43-44 | base64 without padding decodes to what was encoded |
| `Base64.EncodeIsBase64` | internal/auth/auth.go:115-118 | its text holds none of the separators around it |
| `Base64.AlphabetMeaning` | internal/auth/auth.go:43-44 | the two alphabets, character by character |
| `Base64.PackMeaning` | internal/auth/auth.go:43-44 | three bytes and the four sextets their characters stand for are the same number, in base 256 and in base 64 |
| `Pbkdf2.XorInto` | internal/auth/auth.go:175-177 | the inner loop is the exclusive or of two blocks |
| `Pbkdf2.DeriveBlock` | internal/auth/auth.go:161-178 | the middle loop is the exclusive or of U_1 to U_c, with a big-endian counter |
| `Pbkdf2.DeriveKey` | internal/auth/auth.go:155-182 | the nested loops compute the key of RFC 8018, section 5.2, below 2^32 blocks |
| `Pbkdf2.DerivedKeyAt` | internal/auth/auth.go:155-182 | byte k is byte k mod 32 of all U of block k / 32 + 1, exclusive-ored |
| `Pbkdf2.DerivedKeyPrefix` | internal/auth/auth.go:181 | cutting a longer key gives the shorter one |
| `Pbkdf2.ShortKey` | internal/auth/auth.go:155-182 | the key of one block, spelled out for one and for two iterations |
| `Auth.VerifyMeaning` | internal/auth/auth.go:48-67 | a password matches a text exactly when the text has the four parts, acceptable values, and the digest derived from it |
| `Auth.ValidateMeaning` | internal/auth/auth.go:69-85 | validation accepts exactly the well-formed texts, whatever HMAC is |
| `Auth.HashRoundTrip` | internal/auth/auth.go:28-85 | exactly the passwords of 12 to 1024 bytes are hashed, to a text that validates and that another attempt matches exactly when it derives the same key |
| `Auth.TokenMeaning` | internal/auth/auth.go:121-147 | of every text at every time: it is accepted exactly when it is a payload with its signature under the secret, and the payload names the user, a second still to come and a nonce of 18 bytes |
| `Auth.SessionRoundTrip` | internal/auth/auth.go:108-147 | a minted token names its user exactly at the times whose second is before the second of the expiry |
| `Auth.NewSessionsMeaning` | internal/auth/auth.go:93-106 | sessions need a secret of 32 bytes, a user name without a bar and a lifetime of a minute |
| `Clock.UnixMeaning` | internal/auth/auth.go:138-139 | the second an instant falls in, counted from 1970 |
| `Auth.TokenIsBoundToUser` | internal/auth/auth.go:121-147 | a token is refused under any other user name, whatever the secrets |
| `NoiseFilter.Filter.Write` | cmd/phnctl/main.go:119-139 | the new state and the returned count of one call |
| `NoiseFilter.Conservation` | cmd/phnctl/main.go:107-139 | every handshake error is a line, in a suppressed count, still pending, or lost with a refused line; none is lost while writes succeed |
| `NoiseFilter.RenderedTells` | cmd/phnctl/main.go:129-136 | a line with a count tells that count, whatever its payload |
| `NoiseFilter.LogTellsAll` | cmd/phnctl/main.go:107-139 | conservation by the texts of the lines: what they tell of is what was logged but for the pending and the lost, and for what an uncounted line claims in its own text |
| `NoiseFilter.TrimNewlinesMeaning` | cmd/phnctl/main.go:129 | the line feeds at the end of a payload go, and nothing else |
| `NoiseFilter.NothingLostExactly` | cmd/phnctl/main.go:129-137 | nothing is lost exactly when no handshake line that was let through is refused by the output |
| `NoiseFilter.LosingRunLoses` | cmd/phnctl/main.go:129-137 | a run in which a refused line takes a suppressed count with it |
| `NoiseFilter.OthersPassThrough` | cmd/phnctl/main.go:119-122 | all other lines pass unchanged and in order |
| `NoiseFilter.LinesApart` | cmd/phnctl/main.go:125-135 | with a clock that does not go back, handshake lines are a window apart |
| `NoiseFilter.LetThroughExactly` | cmd/phnctl/main.go:119-128 | a handshake error is let through exactly when five minutes have passed since the last that was, or none was yet |
| `NoiseFilter.NoiseStaysVisible` | cmd/phnctl/main.go:129-137 | a line let through still names the handshake error |

## Left out

- HTTP routing, methods, headers, cookies, origin checks, JSON decoding, static files, TLS and the
  display of the certificate: plumbing without state of its own.
- The operating-system side of the file interface, and sysfs itself: a snapshot reads one tree; other
  programs change the tree between calls, not during one.
- Paths are kept by their parts (a fixed attribute, or directory and file), not as spelled strings.
- Randomness, constant-time comparison and the strength of HMAC-SHA256: random bytes are arguments,
  comparison is equality, and nothing is claimed about forging a token or about the uniqueness of its
  text, which Go's lenient base64 decoder does not give.
- The upgrade handshake with its SHA-1 accept key: a connection starts after its 101 response.
- Deadlines, sleeps, the scheduler and termination: only safety is proved.
- The thousandths of a degree that the driver reports are not divided into degrees.
- White space and letter case are those of ASCII; the rune count of a password is its byte count,
  which is exact for ASCII.
- The descriptions of the profiles, the texts of errors and log lines, the Retry-After header, and the
  log of degraded sections.
- Loading the configuration and the credentials file at start, the environment, and the shell scripts.
- SaveCredentials is one atomic replace that succeeds or fails; its temporary file is not modelled.
- The login limiter in front of setup and login is proved by itself and in an undisturbed setup
  request; it does not appear in the interleavings of setup, where a limited request never arrives.
- The session cookie that a successful setup or login hands out; the token in it is in `Auth`.
- The polling of telemetry appears in Throttle as a snapshot at any time.
- Throttle.HardwareWritesBounded: no clock reading is the zero time, which is what lets the limiter
  tell a first admission from a later one.
- Runs.SlowIsRecent: the age is the one the clock shows, and every check is more than the cache's
  lifetime after the zero time of the clock; otherwise an invalidated cache would pass for fresh.
- Connection.ServeReplies: the browser's frames have payloads of at most 4096 bytes and arrive with
  successful writes; how the loop ends on anything else is in Connection.WsClient.ReadLoop.
