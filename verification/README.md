# Verified models of flyctl

This project models the parts of flyctl that carry state or transform it, and proves what they are for. It has three
groups of modules.

1. **The fly.toml compiler** (`internal/appconfig`). Old config maps are migrated (`Patches`, `NormalForm`,
   `Repatching`, `Migration`, `ConfigMap`; `PatchedValues`, `PatchedSections` and `PatchedRoot` describe the result
   without computing it), searched for unknown keys (`StrictValidation`, `StrictReport`, `StrictOnPatched`,
   `StrictReach`), validated (`Validation`, `Defects`), projected onto one process group (`ProcessGroups`) and lowered
   to a machine config (`Machines`; `DeployedSections` and `DeployedSettings` follow sections and settings all the
   way). On the way back a machine's command is printed as shell words (`ShellWords`, `CommandRoundTrip`) and the most
   common machine config is chosen (`FreqCounter`).
2. **The agent and its WireGuard tunnel** (`agent`, `agent/server`, `wg`). Two length-prefixed framings (`Streams`,
   `Framing`), commands and the token handshake (`AgentProtocol`), the tunnel table (`TunnelTable`) and the websocket
   reconnect supervisor with its workers (`WsProxy`, `WsWorkers`).
3. **Merge and allocation loops.** `--port` flags (`PortFlags`, `PortsExposed`, `Services`), `--volume` flags
   (`Mounts`), organisation tokens (`OrgTokens`, `MintedTokens`), the Dockerfile rewriter (`Weaving`, `Litestream`,
   `Dockerfiles`; `ScriptStart` and `ScriptMisses` read what a rewritten file starts) and log polling (`LogPolling`).

Every operation that updates things in place is a method, or a method of a class, proved against a function or a
declarative predicate; the lemmas are about those. Map iteration and goroutine interleavings are arbitrary choices, so
what is proved holds for every order. Calls into code outside the repository (splitting of commands, durations, sizes,
macaroons, number formatting) are fields of a `Tools`, `Prims`, `Agent` or `World` value and may be any function.

## Where the code does less than it seems to

Each of these is proved as an exact condition, or with an input that shows it.

- Patching a patched config again changes it exactly when an empty `metrics` section hides experimental metrics, or an
  unusable `kill_timeout` hides a usable experimental one (`Migration.RepatchingSettlesIff`). A third patching never
  changes anything (`Migration.SecondPatchingIsFinal`).
- Strict validation is exact on the map it is given, but it does not search values to which the patches have given a
  type. On a patched map it reports an unknown key exactly when the key is not below `env`, `services`, `vm`, `mounts`
  or `metrics`, processes given as a list, the headers of a check, or the words of an experimental command
  (`StrictOnPatched.PatchedReportIff`; `StrictOnPatched.MissedTypo` is an input). Of all the keys of the user's file,
  one is reported where the user wrote it exactly when it is unknown there and the patches leave it there: not an
  older spelling or a section that is dropped because it is empty, not below a section that they rewrite, in a list of
  checks or of processes, below the headers or durations of a check or the words of an experimental command, nor in a
  build target that its older name replaces (`StrictReach.ReportedIff`).
- `validateMachineConversion` tests the wrong error and never objects, so an accepted config can still fail to
  convert; the remaining causes are exactly a check without a port and a guest that cannot be sized
  (`Validation.AcceptedConfigsConvertIff`).
- Printing a command and splitting it again loses it exactly when some word is empty or holds a single quote
  (`ShellWords.PrintThenSplitIff`).
- The projection leaves the group as the only process name unless a process with an empty name is defined beside it
  (`ProcessGroups.OnlyProcessNameIff`). Process tags of files have no effect on machines
  (`Machines.FileTagsDoNotReachMachines`).
- A command to the agent arrives exactly when it is shorter than 65536 bytes and no word has a space in it
  (`AgentProtocol.MessageArrivesIff`, `AgentProtocol.WordsArriveIff`); a config path with a space is refused
  (`AgentProtocol.TokenAcceptedIff`). A reply that is neither "ok" nor an error makes `do` return nil although the
  work has not been done (`AgentProtocol.NilMeansDoneIff`).
- A client takes any error for a refusal of its tokens: the refusal is set exactly when the agent did not take them or
  its check for a config change failed (`AgentProtocol.NilMeansDone`), and in the second case good tokens are never
  sent again (`AgentProtocol.FailedCheckIsRemembered`).
- A config change whose peers cannot be read is not looked at again by any later config check of that file, that is
  until it is changed once more, only by the periodic prune (`TunnelTable.FailedReadIsNotRetried`), and the tunnels
  that are never closed, nor in the table, are exactly those that a re-establish dropped
  (`TunnelTable.TunnelsAreAccounted`). Entries are pruned together exactly when organisation and network, joined by a
  dash, spell one name, and different keys can (`TunnelTable.SharedPeerEntryIff`).
- Stopping the proxy closes the first connection, which is the current one exactly when no reconnect has succeeded
  (`WsProxy.ReplacedConnectionsAreClosed`). A reconnect closes the connection that the request complained of exactly
  when the request was not stale (`WsProxy.ReconnectClosesWhatFailedIff`), and it is stale exactly when another
  reconnect succeeded between the worker's comparison and its delivery (`WsProxy.StaleIff`); then a connection on
  which nobody failed can be closed (`WsProxy.LateRequestReplacesHealthyConnection`).
- The same `--port` flags applied twice remove more services exactly when a removal uncovers a duplicate
  (`Services.FlagsTwiceIff`). `--volume` flags that add one path twice leave two mounts there
  (`Mounts.UniquePathsIff`). Two flags get one volume exactly when an id is given twice, or is that of a volume which
  the flags draw by its name (`Mounts.SharesIff`; `Mounts.IdThenNameCanShare` is an input). The list that is left
  holds a volume twice exactly when two mounts and flags that nothing overwrites have it, other than two flags that
  drew it by name (`Mounts.MountsHoldTwiceIff`).
- After a page with entries, log polling asks again without a pause and does not pause between retries either
  (`LogPolling.PausesIff`). The pauses grow to twice the maximum and then go back and forth
  (`LogPolling.RequestCarries`).
- A rewritten Dockerfile copies the Litestream script to `/app/bin` and starts a script by its path. The path read
  from the line that was written is that of the copy exactly when the last WORKDIR before it is `/app` and the script
  is not glued to the old command, which happens where a `CMD "` is followed by anything but a space or a quote; or
  when that WORKDIR spells the path of the copy and breaks it off with a space or a quote
  (`ScriptStart.EntrypointFindsScriptIff`; `ScriptMisses.ScriptIsNotFound` and `ScriptMisses.GluedScriptIsNotFound`
  are inputs).

## Model

| member | source | states |
|---|---|---|
| `ProcessGroups.Flatten` | internal/appconfig/processgroups.go:97-190 | fails exactly when the config failed to unmarshal; otherwise the loops over every kind of section compute the projection about which the lemmas below speak |
| `ProcessGroups.KeepOwned` | internal/appconfig/processgroups.go:136-174 | filtering a list section and then renaming groups item by item gives the projection of that list |
| `ProcessGroups.KeepChecks` | internal/appconfig/processgroups.go:119-125 | the same for the check table, in any order of its keys |
| `ProcessGroups.MatchesExactlyClaims` | internal/appconfig/processgroups.go:66-95 | a section matches a group exactly when it names it, or names nothing (or the empty name) and the group is the default |
| `ProcessGroups.ProjectionKeepsExactlyClaims` | internal/appconfig/processgroups.go:84-174 | a list section survives, in order and with its body, exactly when it claims the group |
| `ProcessGroups.FlattenedDefaultName` | internal/appconfig/processgroups.go:45-64 | a projected config has the group as its default process name |
| `ProcessGroups.OnlyProcessNameIff` | internal/appconfig/processgroups.go:16-33 | the group is the only process name if and only if no empty name is defined beside it |
| `ProcessGroups.FlattenTwice` | internal/appconfig/processgroups.go:97-190 | projecting onto the same group, by name or as the default, changes nothing |
| `ProcessGroups.FlattenElsewhereIsEmpty` | internal/appconfig/processgroups.go:97-190 | projecting a projection onto any other group leaves no tagged section and no compute |
| `ProcessGroups.ProjectionsConserveSections` | internal/appconfig/processgroups.go:97-190 | over any list of groups the projections together hold each section as often as the number of groups it reaches |
| `ProcessGroups.SectionsLandWhereTheySay` | internal/appconfig/processgroups.go:16-95 | over all process names an untagged section lands in exactly one group, a tagged one in each group it names |
| `ProcessGroups.MostSpecificIsLastNamed` | internal/appconfig/processgroups.go:198-214 | the compute chosen is the last candidate naming the group, or the first candidate if none does |
| `ProcessGroups.DefaultNameIs` | internal/appconfig/processgroups.go:16-64 | the default name is the one asked for, or "app", if that is defined or nothing is, and otherwise the first of the defined names in order |
| `ProcessGroups.FlattenKeepsTheRest` | internal/appconfig/processgroups.go:97-190 | every setting without process groups is left alone, and the config is marked as flattened |
| `Names.LexLeIff` | internal/appconfig/processgroups.go:16-33 | names are in order when one begins the other or has the smaller character where they first differ |
| `Machines.UpdateMachineConfig` | internal/appconfig/machines.go:242-403 | succeeds exactly when every part lowers; the result is the lowering of the config over the old machine, whose every field the rows of `DeployedSections` and `DeployedSettings` tell from the config as written; an error names a part that does not lower |
| `Machines.ToMachineConfig` | internal/appconfig/machines.go:16-23 | projection followed by lowering, with the same characterisation of success and failure; `DeployedSettings.ConvertsIff` tells exactly when, from the config as written |
| `Machines.LowerChecks` | internal/appconfig/machines.go:310-330 | the check loop succeeds exactly when every check has a port or can borrow one, in any order |
| `Machines.RedeployIsFixedPoint` | internal/appconfig/machines.go:16-23 | lowering a group over the machine it produced gives that machine back |
| `Machines.DeployErasesHistory` | internal/appconfig/machines.go:242-403 | any two old machines give results that agree on every field the app config writes (of init: command, entrypoint, exec and swap); the other fields, those of init too, come from the old machine, and the guest exactly when no compute matches |
| `Machines.NoComputeIff` | internal/appconfig/processgroups.go:198-214 | no compute matches a group if and only if every compute section names other groups only |
| `Machines.MachineCarriesItsGroup` | internal/appconfig/machines.go:242-403 | metadata and environment of the machine name its process group |
| `Machines.MovingBetweenGroupsAndBack` | internal/appconfig/machines.go:242-403 | deploying another group over a machine and then the first one again restores it, but for a guest the first group does not define |
| `Machines.FileTagsDoNotReachMachines` | internal/appconfig/machines.go:242-403 | replacing the tagged file sections changes neither success nor result: only merged files reach the machine |
| `DeployedSections.ChecksReachTheirGroup` | internal/appconfig/machines.go:310-330 | from the config as written: a machine has a check if and only if it claims the machine's group; each has a port, its own or else that of the group's http service, and all the settings of its section |
| `DeployedSections.ServicesReachTheirGroup` | internal/appconfig/machines.go:302-308 | a machine has the http service first if that claims the group, on ports 80 and 443, then exactly the services that claim it, in order, with their ports, settings and every check of theirs |
| `DeployedSections.MountsReachTheirGroup` | internal/appconfig/machines.go:350-371 | a machine has exactly the mounts that claim its group, in order, with source, destination and settings for extending; a size that is not given or cannot be parsed is zero |
| `DeployedSections.RestartReachesItsGroup` | internal/appconfig/machines.go:388-416 | policy and retries are those of the last restart section that claims the group, the policy under the name the platform has for it, and there is none if none does |
| `DeployedSettings.EnvReachesMachines` | internal/appconfig/machines.go:332-337 | a key is in the environment of a machine if and only if it is in that of the app, is FLY_PROCESS_GROUP, or is PRIMARY_REGION and a region is set; each has the value given, the group, or the region |
| `DeployedSettings.InitReachesMachines` | internal/appconfig/machines.go:277-293 | the words of the command are those of the group's command if it has one, or else the experimental ones; entrypoint, exec and swap are those of the app |
| `DeployedSettings.OtherSettingsReachMachines` | internal/appconfig/machines.go:265-429 | statics and merged files are those of the app, there is a stop config if and only if a kill signal or timeout is set, with these, and metrics are those of the first section that claims the group |
| `DeployedSettings.MetadataReachesMachines` | internal/appconfig/machines.go:295-300 | group, platform and version are under their keys, and all else is as on the old machine |
| `DeployedSettings.GuestReachesItsGroup` | internal/appconfig/machines.go:432-490 | the guest is sized by the last compute section that names the group or, without one, the first that is for every group: its size or the default for it, the host of section, app or size in this order, its memory if given, and its overrides; without a section for the group it is that of the old machine |
| `DeployedSettings.ConvertsIff` | internal/appconfig/machines.go:16-23 | from the config as written: it converts for a group if and only if it was decoded, the group's command splits, each check claiming the group has a known type and a port to use, the guest of the chosen compute section can be made, and each restart section claiming the group names a known policy |
| `Validation.Validate` | internal/appconfig/validation.go:25-66 | accepts exactly the configs that meet every section's conditions |
| `Validation.ValidateChecks` | internal/appconfig/validation.go:127-147 | accepts exactly when every check is valid, in any order |
| `Validation.ValidateServices` | internal/appconfig/validation.go:149-197 | accepts exactly when every service names only defined groups, and at least one if any process is defined |
| `Validation.ValidateProcesses` | internal/appconfig/validation.go:231-248 | accepts exactly when every command is empty or splits |
| `Validation.ValidateMachineConversion` | internal/appconfig/validation.go:250-259 | never objects, whatever the conversions return |
| `Validation.ValidateMounts` | internal/appconfig/validation.go:270-340 | accepts exactly when every mount is valid and a flattened config has at most one |
| `Validation.ValidateRestarts` | internal/appconfig/validation.go:342-369 | accepts exactly when every restart section names defined groups and a known policy |
| `Defects.RejectedIff` | internal/appconfig/validation.go:25-66 | a config is rejected if and only if it has a defect of one of nineteen kinds, each told by its numbers and names |
| `Validation.AcceptedConfigsConvertIff` | internal/appconfig/validation.go:25-66 | an accepted config converts for a group if and only if the group has no portless check without an http_service and its guest can be sized |
| `Validation.AcceptedConfigThatCannotConvert` | internal/appconfig/validation.go:250-259 | a config with a portless check is accepted and does not convert |
| `ConfigMap.ConfigMap.Migrate` | internal/appconfig/patches.go:47-57 | the patches, rewriting one map in place and stopping at the first failure, succeed exactly when patchRoot does and leave its result, of which `PatchedRoot.PatchedIff` tells every value |
| `ConfigMap.ReadEnv` | internal/appconfig/patches.go:81-116 | reading env tables entry by entry, in any order, gives the merged string map, and fails exactly when an entry is malformed |
| `ConfigMap.RewriteServices` | internal/appconfig/patches.go:364-385 | the loop over services patches each one and drops the empty ones |
| `ConfigMap.ConfigMap.TakeTables` | internal/appconfig/patches.go:230-292 | collects the tables under each alias in order and deletes the aliases |
| `NormalForm.RootIsSections` | internal/appconfig/patches.go:47-57 | patchRoot succeeds exactly when every section is well formed on its own, and then each key holds the section made from the original map |
| `PatchedRoot.PatchedIff` | internal/appconfig/patches.go:47-57 | patchRoot succeeds if and only if there is a map that has under every key what is described from the user's file, without the functions that compute it, and then gives that map |
| `PatchedValues.NumberIff` | internal/appconfig/patches.go:578-608 | a number is the one read from a string, a float cut towards zero, or an integer of any kind as it is if it fits in 64 bits with its sign; nothing else is a number |
| `PatchedValues.DurationIff` | internal/appconfig/patches.go:547-576 | a text stays unless it is empty, a decoded number counts units, and anything else is lost |
| `PatchedValues.EnvIff` | internal/appconfig/patches.go:81-116 | the env of a table is the texts of its values; of a list, nested or not, each key has the value of the last item that has it |
| `PatchedValues.CheckIff` | internal/appconfig/patches.go:484-545 | in a check the times count milliseconds, headers become texts of which the last of a name wins, and everything else stays |
| `PatchedSections.LimitsIff` | internal/appconfig/patches.go:387-417 | of an old limit "soft,hard" the number before the first comma is the soft limit and the one behind it the hard limit |
| `PatchedSections.ServiceIff` | internal/appconfig/patches.go:387-465 | every key of a patched service told of the service as written: limits, ports, checks and the internal port |
| `PatchedSections.ProcessSectionIff` | internal/appconfig/patches.go:118-157 | a list of processes gives each name the command of the last entry of that name; entries without a name are passed over |
| `Migration.PatchedIsNormal` | internal/appconfig/patches.go:47-57 | every result has string-to-string env, one vm, one mounts and one metrics array, no legacy alias, and all legacy entries in order |
| `Migration.RepatchingSucceeds` | internal/appconfig/patches.go:118-545 | the result, decoded again, can always be patched again |
| `Migration.RepatchingSettlesIff` | internal/appconfig/patches.go:187-292 | patching it again changes nothing if and only if neither the metrics nor the kill timeout of an experimental section was hidden |
| `Migration.SecondPatchingIsFinal` | internal/appconfig/patches.go:47-57 | after two patchings every further one changes nothing |
| `Migration.MetricsTrapExists` | internal/appconfig/patches.go:187-228 | a map with an empty metrics list and experimental metrics is changed by the second patching |
| `Migration.KillTimeoutTrapExists` | internal/appconfig/patches.go:187-228 | so is a map with an empty kill_timeout and an experimental one |
| `Repatching.ServiceSettles` | internal/appconfig/patches.go:387-465 | a service in normal form, decoded again, is patched to itself |
| `Repatching.CheckSettles` | internal/appconfig/patches.go:484-545 | so is a check |
| `StrictValidation.FoundIffUnknown` | internal/appconfig/strict_validate.go:142-229 | for every schema, recursive ones too, and every value, the traversal finds a key at a path if and only if following the path, through every type that is worth searching, reaches a struct type that neither has nor inlines that key; the reference uses none of the functions of the traversal |
| `StrictValidation.NestedIff` | internal/appconfig/strict_validate.go:106-131 | a type is searched if and only if, behind at most one pointer each and any number of maps, there is a struct of the program's own or a list of such |
| `StrictValidation.MisspelledIsFound` | internal/appconfig/strict_validate.go:142-190 | a misspelled key of a check in the table of checks is found |
| `StrictReport.StrictValidate` | internal/appconfig/strict_validate.go:19-43 | every unknown top level key is listed once; every other key is listed once under its section if and only if following its path from the whole config reaches a struct type that does not know it, in any order of the maps |
| `StrictReport.Report.ValidateNested` | internal/appconfig/strict_validate.go:142-190 | adds to the report exactly the positions found below the section; ends on the size of the value |
| `StrictReport.Report.ValidateStruct` | internal/appconfig/strict_validate.go:192-229 | adds exactly the unknown keys of the struct and what is found below its known ones |
| `StrictReport.SectionsAreSpelled` | internal/appconfig/strict_validate.go:142-229 | a section is named by its top level key, and a dot with a key or brackets with an index for every step below |
| `StrictOnPatched.FoundPlainIff` | internal/appconfig/strict_validate.go:142-229 | for every schema and value, a key is found if and only if it is found in the plain form of the value and its path meets no typed map or list |
| `StrictOnPatched.PatchedReportIff` | internal/appconfig/strict_validate.go:19-43 | on the patched form of a decoded map, an unknown key is reported if and only if it is in none of the hidden places, which are listed |
| `StrictReach.KeptKeyReportedIff` | internal/appconfig/patches.go:47-57 | in every place of the user's file that the patches keep (told by section and key), a key is reported on the patched map if and only if it is reported on the file as decoded |
| `StrictReach.RewrittenIsSilent` | internal/appconfig/patches.go:47-57 | no key below env, services, vm, mounts, metrics, their older spellings or kill_timeout is reported |
| `StrictReach.ReportedIff` | internal/appconfig/patches.go:47-57 | for every key of the user's file, at the top or at any depth: it is reported on the patched map, where the user wrote it, if and only if it is reported there on the file as decoded and the patches leave it there, which is told of the user's file alone |
| `StrictReach.TopKeyStays` | internal/appconfig/strict_validate.go:19-43 | a top level key that no patch names is there after patching if and only if it was before, so it is listed alike |
| `StrictOnPatched.StrictValidationMissesTables` | internal/appconfig/strict_validate.go:142-190 | for any map, decoded or not, nothing is reported below services, vm, mounts or metrics once it is patched |
| `StrictOnPatched.MissedTypo` | internal/appconfig/strict_validate.go:142-190 | a map that patches, with a misspelled key that is found before and missed after |
| `ShellWords.QuotePosixOneWord` | internal/appconfig/from_machine_set.go:154-175 | quotes a word exactly when it has a space or a special character |
| `ShellWords.QuotePosixWords` | internal/appconfig/from_machine_set.go:177-184 | quotes each word in order |
| `ShellWords.PrintThenSplitIff` | internal/appconfig/from_machine_set.go:152-207 | splitting the joined words gives back the list if and only if every word is non-empty and has no single quote |
| `CommandRoundTrip.CommandSurvivesIff` | internal/appconfig/processgroups.go:216-234 | a command read from a machine and lowered again is unchanged under exactly that condition |
| `FreqCounter.Counter.Capture` | internal/appconfig/from_machine_set.go:287-308 | records the value under its encoding, or nothing when it cannot be encoded |
| `FreqCounter.Counter.MakeReport` | internal/appconfig/from_machine_set.go:310-330 | in any map order: the most common values are those captured under one key, in order; no key has more; with the others they are a permutation of all captured values |
| `Streams.DecodeInvertsEncode` | agent/server/session.go:530-558 | for any prefix-free framing, a reader gets exactly the messages of a stream that ends inside a further one |
| `Streams.EncodeInvertsDecode` | agent/server/session.go:530-558 | whatever the stream, it is the encoding of the messages read from it followed by what is left, and only acceptable messages are read |
| `Streams.CutStreamDecodes` | agent/server/session.go:530-558 | a stream cut anywhere decodes to a prefix of its messages, with nothing malformed |
| `Framing.Pinger.WriteTo` | agent/client.go:835-880 | what is on the wire is the encoding of the messages accepted, followed by at most a cut one after an error, which is kept for all later calls |
| `Framing.AgentReadsWhatWasAccepted` | agent/server/session.go:530-558 | the agent decodes exactly the messages accepted and never trips its 1500-byte guard |
| `Framing.ClientReadsReplies` | agent/client.go:885-930 | replies come back whole, and a cut stream of them as a prefix |
| `Framing.Ping6Loop` | agent/server/session.go:530-558 | the loop over reused buffers sends on what decoding the whole stream gives, up to the first message that the socket does not take |
| `Framing.FrameDatagram` | wg/ws.go:204-231 | the frame is the encoding of the datagram cut to the buffer, and never exceeds the 2000 bytes |
| `Framing.ReadPacket` | wg/ws.go:25-41 | reads one packet of any length into the buffer or a larger one |
| `Framing.PingOnWire` | agent/client.go:835-883 | on the wire a ping is the address, the high and the low byte of the length, and the message |
| `Framing.PacketOnWire` | wg/ws.go:25-41 | on the wire a packet is the four bytes of its length, the highest first, and its bytes |
| `Framing.PacketCodec` | wg/ws.go:25-41 | packets and their parser are inverse in both directions, and no proper prefix of a frame parses |
| `Framing.PeerReadsPackets` | wg/ws.go:204-231 | however packets and keepalives are interleaved, the peer reads all of them, and the packets with data whole and in order |
| `AgentProtocol.MessageArrivesIff` | agent/internal/proto/proto.go:9-48 | a message is read back if and only if it is shorter than 65536 bytes |
| `AgentProtocol.MessageOnWire` | agent/internal/proto/proto.go:21-48 | on the wire there are the low byte of the length, the next one, and the text |
| `AgentProtocol.WordsArriveIff` | agent/server/session.go:103-103 | the words sent are the words received if and only if none has a space in it |
| `AgentProtocol.Session.Run` | agent/server/session.go:49-87 | a session starts with the config check and answers with an error when it fails; otherwise its first reply and its events are those of its messages |
| `AgentProtocol.Session.RunCommand` | agent/server/session.go:89-136 | a session does what its list of events says, for every inbox |
| `AgentProtocol.Session.HandleSetToken` | agent/server/session.go:564-588 | answers ok exactly when the tokens are accepted, an error otherwise, and goes on only in the first case |
| `AgentProtocol.SessionShape` | agent/server/session.go:89-136 | a session accepts tokens any number of times, then runs at most one command, with the tokens accepted last |
| `AgentProtocol.SessionsAreShaped` | agent/server/session.go:49-87 | so does every whole session, the failed config check included |
| `AgentProtocol.TokenAcceptedIff` | agent/server/session.go:564-588 | over the wire, set-token is accepted if and only if the config check succeeds, its value has no space and a named config file can be read; then the next command runs with those tokens |
| `AgentProtocol.Client.Do` | agent/client.go:174-211 | ends after at most one repetition; its outcome and the remembered refusal are those of the handshake function |
| `AgentProtocol.NilMeansDone` | agent/client.go:174-244 | with the replies an agent can give, a nil result means that the work succeeded exactly once, and the refusal is set if and only if the agent did not take the tokens or its config check failed |
| `AgentProtocol.WorkRunsIff` | agent/client.go:174-244 | with the replies an agent can give: the work runs on the first connection if and only if that is made and no tokens are sent or they are accepted, and on the second if and only if the first answers the tokens with an error and the second is made; when it succeeds, when nil is returned, and when there is a second connection |
| `AgentProtocol.FailedCheckIsRemembered` | agent/server/session.go:80-84 | after one failed config check every later call of the client goes without tokens that the agent would take |
| `AgentProtocol.NilMeansDoneIff` | agent/client.go:195-210 | in general a nil result is a success if and only if the reply was ok or an error |
| `AgentProtocol.RefusalIsPaidOnce` | agent/client.go:165-244 | over any number of calls the refusal is never forgotten and costs one extra connection in all |
| `TunnelTable.Server.BuildTunnel` | agent/server/server.go:230-269 | returns the entry of the table, made anew exactly when it is missing or to be re-established |
| `TunnelTable.Server.TunnelFor` | agent/server/server.go:317-324 | a lookup gives the entry of the table and changes nothing |
| `TunnelTable.Server.ValidateTunnels` | agent/server/server.go:363-390 | in any order of the table, exactly the entries without a peer are deleted and closed |
| `TunnelTable.Server.CheckForConfigChange` | agent/server/server.go:207-228 | the new time is kept even if the peers cannot be read |
| `TunnelTable.Server.UpdateTokensFromClient` | agent/server/server.go:422-439 | replaces tokens and monitor only if the new tokens come from a file and the old ones do not |
| `TunnelTable.RunsAreSafe` | agent/server/server.go:207-439 | in every sequence of locked operations a looked-up tunnel is open, exactly one monitor runs, and currentChange never decreases |
| `TunnelTable.EntryLastsIff` | agent/server/server.go:230-390 | a plain establish goes on returning the same tunnel if and only if no step re-establishes or prunes its entry |
| `TunnelTable.PruneLeavesPeers` | agent/server/server.go:363-390 | after pruning every key has a peer entry, and every entry with a peer is kept |
| `TunnelTable.TunnelsAreAccounted` | agent/server/server.go:230-390 | in every run from the start of a server, each tunnel made is in the table, closed, or dropped by a re-establish; never two of these |
| `TunnelTable.InitialHolds` | agent/server/server.go:60-68 | the invariants hold of a server that starts |
| `TunnelTable.CheckEnforcesPeersIff` | agent/server/server.go:207-228 | a config check brings the table in line with the peers if and only if the file is newer or it was in line |
| `TunnelTable.FailedReadIsNotRetried` | agent/server/server.go:217-226 | after a change whose peers could not be read, no number of later config checks of that file changes the table |
| `TunnelTable.SharedPeerEntryIff` | agent/server/server.go:369-373 | two entries are kept or dropped together by every prune if and only if their organisations and networks spell one name, which is told case by case |
| `TunnelTable.TokensChangeAtMostOnce` | agent/server/server.go:422-439 | in every run the tokens change at most once, to the first ones from a file |
| `WsProxy.AttemptsAreSpaced` | wg/ws.go:233-311 | in every interleaving of reader, writer, keepalive and supervisor, attempts are more than five seconds apart and no more than the requests |
| `WsProxy.ReplacedConnectionsAreClosed` | wg/ws.go:118-160 | every connection that was current and no longer is has been closed; which one stopping closes |
| `WsProxy.OnlySupervisorReplaces` | wg/ws.go:118-160 | only a successful reconnect by the supervisor changes the current connection, to one never used before |
| `WsProxy.DeadlineIsNotPostponed` | wg/ws.go:233-311 | the one pending deadline stays as it is until an attempt is made |
| `WsProxy.StoppedForGood` | wg/ws.go:91-104 | after the supervisor has stopped nothing changes and a worker asking for a reset waits for ever |
| `WsProxy.StaleIff` | wg/ws.go:91-104 | in every run, a request about to be delivered is about another connection than the current one if and only if a reconnect succeeded since the worker compared them |
| `WsProxy.ReconnectClosesWhatFailedIff` | wg/ws.go:118-160 | in every run, a successful reconnect was asked for by a signal or by a worker that failed, and closes the connection it failed on if and only if the request was not stale; only a signal or a stale request closes a connection nobody failed on |
| `WsProxy.LateRequestReplacesHealthyConnection` | wg/ws.go:91-104 | a run in which a connection nobody failed on is closed and replaced |
| `WsWorkers.HoldsOldIff` | wg/ws.go:179-231 | in every run a worker at work has the connection that was current when it loaded last, and that is not the current one now if and only if a reconnect has succeeded since |
| `WsWorkers.HoldsClosedIff` | wg/ws.go:179-231 | while the supervisor runs, the connection a worker has is closed if and only if a reconnect has succeeded since it loaded |
| `WsWorkers.LoadsOpenConnection` | wg/ws.go:183-185 | while the supervisor runs, a worker loads the current connection, and that is open |
| `WsWorkers.AsksIff` | wg/ws.go:91-104 | a worker whose operation failed asks for a reset if and only if no reconnect has succeeded since it loaded |
| `WsWorkers.EachLoadIsOneRound` | wg/ws.go:179-231 | in every run the operations done, failed or not, and those left in the round are two for every load of the reader and one for every load of another worker |
| `WsWorkers.EveryRequestIsAnswered` | wg/ws.go:273-307 | in every run, once more than five seconds have passed since a request, a tick begins an attempt unless one has begun or the proxy has stopped |
| `PortFlags.NothingLeftIff` | internal/command/command_run.go:167-196 | the flags for a service leave it without ports if and only if the last one removes, or there was nothing |
| `PortFlags.ExposeAllTwice` | internal/command/command_run.go:167-196 | the flags for a service, applied again to its ports, change nothing |
| `PortsExposed.PortsAfterFlags` | internal/command/command_run.go:167-196 | the ports after any flags: none of those before the last flag that removes; from then on each port stays in its place with the handlers of the last flag about it and the end of the last range about it, and one port follows for each flag about something that no port and no earlier flag has, in order |
| `Services.Svc.ExposeFlag` | internal/command/command_run.go:167-196 | the loop over ports updates every match and appends a port if there is none |
| `Services.MergeFlag` | internal/command/command_run.go:150-196 | through the map it changes the object that the list holds: list and map stay in agreement, and no other object changes |
| `Services.DetermineServices` | internal/command/command_run.go:141-209 | fails exactly when a flag does not parse; otherwise the result is the merge of services and flags |
| `Services.FlagsActSeparately` | internal/command/command_run.go:141-209 | flags act on each key alone: earlier duplicates stay as they are, services keep their places, and each new key adds one |
| `Services.ResultIsOrderedMerge` | internal/command/command_run.go:141-209 | with unique keys the result has unique keys, every service in it has a port, and given services keep their order |
| `Services.FlagsTwiceIff` | internal/command/command_run.go:141-209 | applying the flags to the result changes nothing if and only if no removal uncovers a duplicate; with unique keys none does |
| `Services.DuplicateNeedsTwoRemovals` | internal/command/command_run.go:141-175 | two services for one port: the first removal leaves one of them |
| `Mounts.DetermineMounts` | internal/command/command_run.go:370-416 | succeeds if and only if every flag is well formed and no name is asked for more often than it has volumes; lists volumes at most once; drawn and remaining volumes make up the pool |
| `Mounts.ByNameIff` | internal/command/command_run.go:380-392 | a flag gives an id if and only if its volume begins with vol_, and otherwise a name |
| `Mounts.Draw` | internal/command/command_run.go:386-403 | a draw takes the next volume of the name, and fails only when the demand cannot be met |
| `Mounts.GroupByName` | internal/command/command_run.go:418-445 | groups the volumes by name in order |
| `Mounts.DrawnAreDistinct` | internal/command/command_run.go:386-403 | volumes drawn by name come from the pool, have that name and are pairwise distinct |
| `Mounts.GivenMounts` | internal/command/command_run.go:405-412 | a given mount keeps its place and settings and has the volume assigned last to its path |
| `Mounts.AddedMounts` | internal/command/command_run.go:405-412 | every flag for a path that was not given adds one mount, in order |
| `Mounts.UniquePathsIff` | internal/command/command_run.go:373-412 | the result has one mount for each path if and only if no two flags add the same path |
| `Mounts.SharesIff` | internal/command/command_run.go:386-403 | two flags get one volume if and only if an id is given twice or an id given is among the volumes of a name that the flags draw |
| `Mounts.MountsHoldTwiceIff` | internal/command/command_run.go:370-416 | the resulting list, given mounts and overwritten flags counted, holds one volume twice if and only if two of the mounts and flags that nothing overwrites have it and not both are drawn by name |
| `Mounts.IdThenNameCanShare` | internal/command/command_run.go:386-403 | an input for which they do |
| `OrgTokens.Prune` | internal/config/tokens.go:236-278 | keeps exactly the tokens that qualify, in order, and leaves the members without a token |
| `OrgTokens.MemberKeptOrMissing` | internal/config/tokens.go:236-278 | a member has a kept token or is missing; a token is kept if and only if it is for no single organisation, as a discharge is, or for a member |
| `OrgTokens.MintMissing` | internal/config/tokens.go:280-334 | under every start order and interleaving each goroutine does its script once, and the lists hold what was added |
| `OrgTokens.ScheduleDoesNotMatter` | internal/config/tokens.go:280-334 | any two complete schedules add the same multiset of tokens and of errors |
| `OrgTokens.EveryMemberIsServed` | internal/config/tokens.go:220-343 | a member has a kept token, or exactly one mint attempt whose error or whole list of tokens is recorded |
| `MintedTokens.AddedAreYielded` | internal/config/tokens.go:280-334 | in every schedule the tokens added are, each as often, those that the answers for the missing organisations give up to the first that cannot be decoded, and an error is recorded once for each organisation whose answer is a failure or has such a token |
| `OrgTokens.FetchOrgTokens` | internal/config/tokens.go:220-343 | the result is what was kept followed by what was minted; given a copy of the old list, it reports a change exactly when the lists differ |
| `Litestream.InstallLitestream` | scanner/phoenix.go:248-366 | writes if and only if install, entrypoint and copy each found a line; the output weaves lines and blocks as the trace of changes says |
| `Litestream.TraceExplains` | scanner/phoenix.go:274-340 | every change is at the first line that calls for it; the CMD line is edited exactly when an ENTRYPOINT came before it, and names the script in the last WORKDIR |
| `Litestream.NoLineIsLost` | scanner/phoenix.go:274-340 | every line is written, in order; the line that starts the script and the line that installs wget are written as edited, and every other one as it was |
| `Litestream.OnlyBlocksAreAdded` | scanner/phoenix.go:274-340 | taking the blocks of the trace out of what was written succeeds and gives back the lines, so nothing else was written and each block at most once |
| `Dockerfiles.InstallLitestream` | scanner/phoenix.go:248-366 | the same for the rules of Dockerfiles |
| `Dockerfiles.EditsOnlyInsert` | scanner/phoenix.go:277-303 | both edits only insert text into the line |
| `Dockerfiles.DirectoryIsNamed` | scanner/phoenix.go:334-339 | the directory of a WORKDIR line is the word after the instruction, without the quotes around it and then without slashes at its end |
| `ScriptStart.WgetInserts` | scanner/phoenix.go:299-303 | wget, by which the install block fetches, is named right behind the first mention of the build tools, and nothing else is changed |
| `ScriptStart.EntrypointFindsScriptIff` | scanner/phoenix.go:277-313 | every Dockerfile that is rewritten holds the line that copies the script and the line that starts one; the path read from the latter, after the call of bash up to a quote (or, in the text form, a space), is that of the copy if and only if the last WORKDIR before is /app and a `CMD "` that was edited goes on with a space, a quote or nothing, or that WORKDIR spells the path of the copy followed by what ends a path |
| `ScriptMisses.ScriptIsNotFound` | scanner/phoenix.go:277-313 | a Dockerfile with the WORKDIR /srv that is rewritten and starts a path other than that of the copy |
| `ScriptMisses.GluedScriptIsNotFound` | scanner/phoenix.go:282-303 | a Dockerfile with the WORKDIR /app and a quoted CMD after an ENTRYPOINT that is rewritten with the script glued to the old command |
| `LogPolling.Poll` | logs/polling.go:38-99 | the entries delivered are those of the pages in order, each request carries the wait and token that the replies before it determine, and the end comes at the first reply that calls for it |
| `LogPolling.PollingIsBounded` | logs/polling.go:38-107 | at most nine errors in a row are followed by another request, and no wait exceeds twice the maximum |
| `LogPolling.PausesIff` | logs/polling.go:50-107 | a request is preceded by a pause if and only if there was a reply and the last page, if any, was empty |
| `LogPolling.RequestCarries` | logs/polling.go:38-107 | a request carries the token of the last page with entries and a token; its pause is 64 ms doubled once for each error since the last page, and once more if that was empty, up to 8192 ms, from where it alternates between 4096 and 8192 ms; there is none after a page with entries |
| `LogPolling.OngoingIff` | logs/polling.go:54-99 | the polling goes on if and only if there is no error that is not retried, no tenth error in a row and, without following, no page with entries |
| `LogPolling.PagesAreDelivered` | logs/polling.go:38-99 | every page is delivered whole, after all pages before it |
| `LogPolling.OnlyPagesAreDelivered` | logs/polling.go:38-99 | nothing but the entries of the pages is delivered |

## Left out

- A nil `*Config` receiver, error texts and the `extraInfo` a validator returns beside its verdict.
- Container and compose settings of a machine config; they read local files.
- The order of HTTP headers in lowered checks: it comes from map iteration, so headers are maps here.
- Release, test and console machine configs; they would add members like those of `Machines` without a harder property.
- Config keys other than the ones the patches name are one constructor with the name in it; TOML, JSON and YAML decoding
  are not modelled, and decoding again is the function `Redecoded` (typed maps become plain ones, empties are dropped).
- Sharing of nested maps between the config map and its parts while it is patched: nested tables are values.
- Field tags read by reflection: a schema gives the fields and inline fields of each struct type.
- shlex is not part of the repository; its splitter is modelled from its quoting rules in `ShellWords.Split`.
- Writing a whole config from a machine set beyond commands and the choice of the most common config.
- `Pinger.ReadFrom` when a deadline ends inside an address: the model covers streams read without such a timeout.
- Dialling, TLS and the rate limiter of the websocket proxy; a connection attempt succeeds or fails.
- Use of a tunnel after the table's lock has been released, and errors of `tunnel.Close`, which are only logged.
- The bodies of the agent's commands other than set-token, and the goroutine that offers a session's tokens to the
  server; `TunnelTable` models what the offer does.
- Services.DetermineServices: does not model that the port lists may share memory with the caller's; flags come parsed.
- Mounts.DetermineMounts: does not model that the caller's slice may be updated before an error is returned.
- OrgTokens.FetchOrgTokens: takes the list of tokens as a copy; macaroon parsing is any classification.
- LogPolling.Poll: observes any finite number of replies; cancellation during a pause is a fatal reply.
- Dockerfiles.InstallLitestream: white space beyond Latin-1 is not trimmed; reading and writing the files is left out.
- Other framework detection in `scanner`, generated code, flags, terminal output, metrics and logging.
