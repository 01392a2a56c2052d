# dot-gstm core, modelled in Dafny

dot-gstm is a desktop front end that keeps `ssh` port-forwarding tunnels
running. This project models the deterministic logic behind its windows.
It covers:

- the shared tunnel registry (`GstmTunnels`);
- the tunnel service: reserving a tunnel on start, the helper thread's
  spawn / wait / restart loop, stopping, the `ssh` argument vector and the
  choice of error notice;
- the XML configuration store: boolean encoding, defaults on load, the
  save/load field mapping, file-name generation and the case-insensitive
  name check;
- the forwarding dialog, the properties dialog and the name dialog, with
  their validators and field state machines;
- the culture-to-language mapping;
- the main window's command preview, button enablement, list rows and the
  registry and file effects of Add, Copy and Properties.

Everything runs as atomic sequential steps. Whatever comes from the
operating system is a parameter: process ids, exit codes and stderr of
each spawned process (`Ssh.Attempt`), the kill outcome, the contents of
`~/.ssh/config`, the configuration directory, the random file name and the
set of invalid file-name characters.

Files, one module each: `models.dfy` (the two records and their defaults),
`registry.dfy`, `sshservice.dfy`, `config.dfy`, `tunneldialog.dfy`,
`properties.dfy`, `namedialog.dfy`, `localization.dfy`, `mainwindow.dfy`,
plus `text.dfy` (whitespace, trimming, ASCII case folding, joining and a
32-bit integer parser) and `wrappers.dfy` (Option, Result).

Behaviour of the code that the model keeps:

- `-i` and `-l` are passed only when the value is non-blank and longer
  than one character, like `-p`.
- There is no exit-code-15 exemption from restarts.
- `StopTunnel` clears only the pid, never `Active`.
- Registry keys and the name dialog's duplicate test are case-sensitive.
  Only `TunnelNameExistsAsync` ignores case.
- `SshPid != 0 ⇒ Active` is not enforced by the registry. It is proved
  only for operation sequences that respect it (`Registry.SafeTracePreserves`)
  and for helper runs whose processes all ran and exited
  (`Ssh.HelperKeepsInvariant`). A wait that throws after the pid was
  recorded breaks it (`Ssh.WaitFailureStrandsPid`).

## Model

| member | source | states |
|---|---|---|
| `Models.NewSshTunnel` | src/DotGstm.Desktop/Models/SshTunnel.cs:20-110 | A new tunnel has port "22", notify on, restart limit "9", empty name/host/login/key, the other flags off, no forwardings, inactive, pid 0, no file name |
| `Models.NewPortRedirection` | src/DotGstm.Desktop/Models/PortRedirection.cs:12-43 | A new forwarding is "local" with empty `Port1`, `Host` and `Port2` |
| `Models.Persistent` | src/DotGstm.Desktop/Models/SshTunnel.cs:88-110 | The savable part of a tunnel: runtime state and file name reset, every other field kept |
| `Registry.Lookup` | src/DotGstm.Desktop/Services/GstmTunnels.cs:28-31 | A lookup finds something exactly when the name is a key, and then it finds that key's entry |
| `Registry.GstmTunnels.constructor` | src/DotGstm.Desktop/Services/GstmTunnels.cs:18 | The registry starts empty |
| `Registry.GstmTunnels.TryGet` | src/DotGstm.Desktop/Services/GstmTunnels.cs:28-31 | Yields the entry exactly when the name is a key |
| `Registry.GstmTunnels.Set` | src/DotGstm.Desktop/Services/GstmTunnels.cs:37-46 | Afterwards the name maps to the tunnel; every other key and entry is unchanged |
| `Registry.GstmTunnels.Remove` | src/DotGstm.Desktop/Services/GstmTunnels.cs:52-58 | True exactly when the name was a key; the name is gone and nothing else changes |
| `Registry.GstmTunnels.Clear` | src/DotGstm.Desktop/Services/GstmTunnels.cs:64-70 | The map is empty afterwards |
| `Registry.GstmTunnels.SetBatch` | src/DotGstm.Desktop/Services/GstmTunnels.cs:81-91 | The map becomes exactly the batch map of the list; no earlier entry survives |
| `Registry.BatchMapKeys` | src/DotGstm.Desktop/Services/GstmTunnels.cs:81-91 | After a batch the keys are exactly the names in the list |
| `Registry.BatchMapLast` | src/DotGstm.Desktop/Services/GstmTunnels.cs:86-89 | Each key maps to the last tunnel in the list that carries that name |
| `Registry.GstmTunnels.GetSnapshot` | src/DotGstm.Desktop/Services/GstmTunnels.cs:97-103 | One element per entry, each from a distinct key, and every stored tunnel appears |
| `Registry.GstmTunnels.GetNames` | src/DotGstm.Desktop/Services/GstmTunnels.cs:109-112 | The names are exactly the keys |
| `Registry.GstmTunnels.GetActive` | src/DotGstm.Desktop/Services/GstmTunnels.cs:121-131 | The entry's flag for a known name, false for an unknown one |
| `Registry.WithActive` | src/DotGstm.Desktop/Services/GstmTunnels.cs:137-149 | Same keys; only the named existing entry's `active` changes; unknown names change nothing |
| `Registry.GstmTunnels.SetActive` | src/DotGstm.Desktop/Services/GstmTunnels.cs:137-149 | The new map is `WithActive` of the old one |
| `Registry.GstmTunnels.GetSshPid` | src/DotGstm.Desktop/Services/GstmTunnels.cs:155-165 | The entry's pid for a known name, 0 for an unknown one |
| `Registry.WithPid` | src/DotGstm.Desktop/Services/GstmTunnels.cs:171-183 | Same keys; only the named existing entry's `sshPid` changes; unknown names change nothing |
| `Registry.GstmTunnels.SetSshPid` | src/DotGstm.Desktop/Services/GstmTunnels.cs:171-183 | The new map is `WithPid` of the old one |
| `Registry.GstmTunnels.ExecuteAtomic` | src/DotGstm.Desktop/Services/GstmTunnels.cs:203-209 | The map changes exactly as the action changes it |
| `Registry.GstmTunnels.ExecuteAtomicValue` | src/DotGstm.Desktop/Services/GstmTunnels.cs:215-226 | Returns exactly the function's result; the map changes only as the function changes it |
| `Registry.ApplyPreserves` | src/DotGstm.Desktop/Services/GstmTunnels.cs:37-183 | One registry call made safely keeps `sshPid != 0 ⇒ active` in every entry |
| `Registry.SafeTracePreserves` | src/DotGstm.Desktop/Services/GstmTunnels.cs:37-183 | Any sequence of safe registry calls keeps `sshPid != 0 ⇒ active` |
| `Registry.SetActiveCanBreakInvariant` | src/DotGstm.Desktop/Services/GstmTunnels.cs:137-149 | `SetActive(false)` on a tunnel with a recorded pid breaks the invariant; the setter does not guard it |
| `Registry.SetSshPidCanBreakInvariant` | src/DotGstm.Desktop/Services/GstmTunnels.cs:171-183 | `SetSshPid` on an inactive tunnel breaks the invariant; the setter does not guard it |
| `Ssh.Reserve` | src/DotGstm.Desktop/Services/SshService.cs:54-73 | The atomic check succeeds exactly for a known, inactive tunnel and then only sets its `active`; otherwise nothing changes |
| `Ssh.SshService.StartTunnel` | src/DotGstm.Desktop/Services/SshService.cs:50-88 | Unknown or active: no helper and no change. Otherwise the tunnel is marked active before the helper gets it |
| `Ssh.SshService.BuildSshArguments` | src/DotGstm.Desktop/Services/SshService.cs:302-367 | The appended vector equals `SshArgs` |
| `Ssh.AddForwardings` | src/DotGstm.Desktop/Services/SshService.cs:345-364 | The loop appends exactly the forwarding tokens of the list, in order |
| `Ssh.ArgsStartWithHost` | src/DotGstm.Desktop/Services/SshService.cs:307-310 | The vector begins with the host, then "-nN" |
| `Ssh.PresetArgs` | src/DotGstm.Desktop/Services/SshService.cs:314-342 | In preset mode the vector is host, "-nN", then forwarding tokens; no `-p`/`-i`/`-l`/`-o` appears |
| `Ssh.ManualArgs` | src/DotGstm.Desktop/Services/SshService.cs:314-341 | Outside preset mode: `-p`, `-i`, `-l` in that order, each only if non-blank and longer than one character, then the two `-o` options, then the forwardings |
| `Ssh.OneDigitPortDropped` | src/DotGstm.Desktop/Services/SshService.cs:316-320 | A one-digit port produces no `-p` |
| `Ssh.ForwardTokensOfOne` | src/DotGstm.Desktop/Services/SshService.cs:345-364 | One `-L`/`-R`/`-D` token in its format per local/remote/dynamic forwarding (type lower-cased); none for other types |
| `Ssh.ForwardTokensSplit` | src/DotGstm.Desktop/Services/SshService.cs:345-364 | Each forwarding contributes its token between those of its neighbours, so the tokens keep list order |
| `Ssh.ForwardTokensAreForwards` | src/DotGstm.Desktop/Services/SshService.cs:345-364 | Every forwarding token starts with "-L", "-R" or "-D" |
| `Ssh.ArgsEndWithForwards` | src/DotGstm.Desktop/Services/SshService.cs:344-366 | The forwarding tokens are the tail of the vector |
| `Ssh.LocalForwardExample` | src/DotGstm.Desktop/Services/SshService.cs:349-352 | Local 127.0.0.1:8080 to db:5432 gives exactly `-L127.0.0.1:8080:db:5432` |
| `Ssh.LocalForwardToken` | src/DotGstm.Desktop/Services/SshService.cs:349-352 | A local forwarding's token is `-L` and the three values joined by colons |
| `Ssh.DynamicForwardExample` | src/DotGstm.Desktop/Services/SshService.cs:359-363 | Dynamic 1080 gives exactly `-D1080` and no `-L`/`-R` token |
| `Ssh.SshService.RunAttempt` | src/DotGstm.Desktop/Services/SshService.cs:128-181 | A process that ran records its pid and clears it on exit; a spawn that throws changes nothing; a wait that throws leaves the pid; both failures give exit code -1 |
| `Ssh.SshService.CheckRestart` | src/DotGstm.Desktop/Services/SshService.cs:190-223 | The decision made under the lock is `ShouldRestart` on the pid recorded at that moment, and the registry is left as it was |
| `Ssh.SshService.HelperThread` | src/DotGstm.Desktop/Services/SshService.cs:115-233 | The do-while loop over the supplied attempts produces exactly `HelperRun`: the registry, the notices and the outcome |
| `Ssh.HelperLoopBounds` | src/DotGstm.Desktop/Services/SshService.cs:168-233 | Restarts never exceed the limit; the loop ends once the attempts allow no further restart; on ending the tunnel is inactive; keys are kept |
| `Ssh.HelperRunBounds` | src/DotGstm.Desktop/Services/SshService.cs:117-118 | A restart limit that does not parse ends the run as `Crashed` before any registry change (the exception is unhandled on the helper's thread, so the application terminates); otherwise at most `maxRestarts` restarts, and more attempts than that end with `Active` false |
| `Ssh.SilentRestarts` | src/DotGstm.Desktop/Services/SshService.cs:199-219 | Without `Notify`, only the final-failure notice can appear, for a non-zero exit code after the loop ended |
| `Ssh.NotifiedRestarts` | src/DotGstm.Desktop/Services/SshService.cs:199-212 | With `Notify`, every restart shows a notice |
| `Ssh.HelperKeepsInvariant` | src/DotGstm.Desktop/Services/SshService.cs:142-233 | If every process ran and exited, the helper keeps `sshPid != 0 ⇒ active` |
| `Ssh.ExitedKeepsEntry` | src/DotGstm.Desktop/Services/SshService.cs:142-166 | A process that ran and exited leaves its entry as it was: pid recorded, then zeroed |
| `Ssh.WaitFailedEffect` | src/DotGstm.Desktop/Services/SshService.cs:142-178 | A throwing wait leaves the pid set and yields exit code -1 |
| `Ssh.WaitFailureStrandsPid` | src/DotGstm.Desktop/Services/SshService.cs:142-233 | After a throwing wait the pid guard refuses a restart, no notice is shown, and `Active := false` leaves a pid on an inactive tunnel |
| `Ssh.RestartStep` | src/DotGstm.Desktop/Services/SshService.cs:199-212 | On restart the count goes up by one and, with `Notify`, a notice with the new count is added |
| `Ssh.FinalStep` | src/DotGstm.Desktop/Services/SshService.cs:214-233 | Without restart the final-failure notice is added iff the exit code is non-zero and restart is off or the limit is used; then `Active` is cleared |
| `Ssh.HelperRunStarts` | src/DotGstm.Desktop/Services/SshService.cs:117-120 | With a parsed limit the run starts from zero restarts and no notices |
| `Ssh.RestartNotices` | src/DotGstm.Desktop/Services/SshService.cs:199-212 | The notices of consecutive restarts: one each, carrying counts from+1 up to the limit |
| `Ssh.PersistentFailure` | src/DotGstm.Desktop/Services/SshService.cs:168-233 | A process that keeps failing is restarted up to the limit, one notice per restart, then ends inactive with a final notice carrying the limit |
| `Ssh.RestartTwiceThenStop` | src/DotGstm.Desktop/Services/SshService.cs:168-233 | Exit code 1, restart on, limit 2: two restarts, then inactive with a final notice carrying count 2 |
| `Ssh.TwoRestartNotices` | src/DotGstm.Desktop/Services/SshService.cs:199-212 | Two restarts under limit 2 show the notices carrying counts 1 and 2 |
| `Ssh.TerminatedProcessRestarts` | src/DotGstm.Desktop/Services/SshService.cs:199 | Exit code 15 is restarted like any other failure |
| `Ssh.StopDoesNotBlockRestart` | src/DotGstm.Desktop/Services/SshService.cs:166-199 | A killed process is restarted, since the helper zeroes the pid itself before the guard |
| `Ssh.SshService.StopTunnel` | src/DotGstm.Desktop/Services/SshService.cs:248-284 | Pid 0: nothing. Killed or no such process: pid set to 0. Other failure: unchanged |
| `Ssh.StopKeepsActive` | src/DotGstm.Desktop/Services/SshService.cs:248-284 | Stopping never touches `Active`, so an immediate start of a running tunnel is still refused |
| `Ssh.SshService.IsTunnelActive` | src/DotGstm.Desktop/Services/SshService.cs:291-294 | The registry's `active` flag, false for an unknown name |
| `Ssh.NoticeBranches` | src/DotGstm.Desktop/Services/SshService.cs:437-480 | Which message branch is chosen from stderr and exit code (15 terminated, 9 killed, other unknown), and the "restarting" suffix iff `0 < numRestarts <= maxRestarts` |
| `Ssh.FinalNoticeSaysRestarting` | src/DotGstm.Desktop/Services/SshService.cs:476-480 | The final notice after the last allowed restart still carries the "restarting" text |
| `Config.LeafValue` | src/DotGstm.Desktop/Services/ConfigService.cs:206-218 | An element written as `new XElement(tag, value)` reads back as that value |
| `Config.FirstNamedAfter` | src/DotGstm.Desktop/Services/ConfigService.cs:131-140 | `Element(tag)` finds the first child with that name, behind any differently named ones |
| `Config.AllNamedAppend` | src/DotGstm.Desktop/Services/ConfigService.cs:146 | `Elements(tag)` of consecutive children is the two results in order |
| `Config.ParseBool` | src/DotGstm.Desktop/Services/ConfigService.cs:343-358 | Null or "" false, "1" true, "0" false, otherwise true iff "true" ignoring case |
| `Config.ParseEncodedBool` | src/DotGstm.Desktop/Services/ConfigService.cs:214-218 | Reading a written "1"/"0" gives back the flag |
| `Config.ParseBoolSpellings` | src/DotGstm.Desktop/Services/ConfigService.cs:357 | "TRUE" and "True" read as true, "yes" as false |
| `Config.LoadRedirection` | src/DotGstm.Desktop/Services/ConfigService.cs:146-155 | A missing type loads as "local"; missing port1/host/port2 load as "" |
| `Config.LoadRedirections` | src/DotGstm.Desktop/Services/ConfigService.cs:146-157 | One redirection per `<tunnel>` element, in order |
| `Config.WrongRootIgnored` | src/DotGstm.Desktop/Services/ConfigService.cs:119-125 | A document whose root is not `sshtunnel` loads as nothing |
| `Config.EmptyDocumentDefaults` | src/DotGstm.Desktop/Services/ConfigService.cs:127-140 | Missing elements load as port "22", limit "9", other strings "", every flag false (so `Notify` differs from a new tunnel) |
| `Config.EmptyRedirectionDefaults` | src/DotGstm.Desktop/Services/ConfigService.cs:146-152 | An empty `<tunnel/>` loads as local with empty fields |
| `Config.FieldElements` | src/DotGstm.Desktop/Services/ConfigService.cs:206-218 | Ten scalar elements, each under its tag with its value, flags as "1"/"0" |
| `Config.FieldTagsDistinct` | src/DotGstm.Desktop/Services/ConfigService.cs:206-218 | No tag is written twice |
| `Config.RedirectionElements` | src/DotGstm.Desktop/Services/ConfigService.cs:232-242 | One `<tunnel>` element per redirection, in order |
| `Config.RedirectionRoundTrip` | src/DotGstm.Desktop/Services/ConfigService.cs:146-155 | A saved redirection loads back field for field |
| `Config.RedirectionsRoundTrip` | src/DotGstm.Desktop/Services/ConfigService.cs:232-242 | The saved redirection list loads back in order |
| `Config.SavedTunnelElements` | src/DotGstm.Desktop/Services/ConfigService.cs:146 | Of a saved root, exactly the redirection elements are named `tunnel` |
| `Config.SavedField` | src/DotGstm.Desktop/Services/ConfigService.cs:206-218 | Each scalar tag of a saved root reads back as the value written |
| `Config.FieldsRoundTrip` | src/DotGstm.Desktop/Services/ConfigService.cs:127-140 | The scalar fields of a saved tunnel load back unchanged |
| `Config.SaveLoadRoundTrip` | src/DotGstm.Desktop/Services/ConfigService.cs:206-242 | Save then load gives back every configuration field and the ordered redirections |
| `Config.LoadTunnelFromDocument` | src/DotGstm.Desktop/Services/ConfigService.cs:112-170 | The load loop builds exactly `LoadTunnel` of the document |
| `Config.BuildDocument` | src/DotGstm.Desktop/Services/ConfigService.cs:206-242 | The element-building loop produces exactly the saved document: the scalar fields, then one `<tunnel>` per redirection |
| `Config.SanitizeFileName` | src/DotGstm.Desktop/Services/ConfigService.cs:332-337 | The result is never empty or blank |
| `Config.SplitPieces` | src/DotGstm.Desktop/Services/ConfigService.cs:335 | Splitting on invalid characters gives at least one piece, and no piece holds an invalid character |
| `Config.JoinAvoids` | src/DotGstm.Desktop/Services/ConfigService.cs:334-335 | Joining clean pieces with "_" gives a clean string |
| `Config.SanitizedAvoidsInvalid` | src/DotGstm.Desktop/Services/ConfigService.cs:332-337 | The sanitized name holds no invalid character |
| `Config.CleanNameKept` | src/DotGstm.Desktop/Services/ConfigService.cs:332-337 | A non-blank name without invalid characters is kept |
| `Config.OnlyInvalidGivesDefault` | src/DotGstm.Desktop/Services/ConfigService.cs:332-337 | A name of only invalid characters becomes "tunnel" |
| `Config.RemoveDots` | src/DotGstm.Desktop/Services/ConfigService.cs:191 | The random name with dots removed holds no dot |
| `Config.ChooseFileName` | src/DotGstm.Desktop/Services/ConfigService.cs:184-195 | A non-empty file name is kept; otherwise `{sanitized}.{6-char id}.gstm`, or a failure when the random name is too short |
| `Config.ConfigService.SaveTunnel` | src/DotGstm.Desktop/Services/ConfigService.cs:174-257 | Records the chosen file name on the tunnel, then writes the document; reports success exactly when both steps succeed |
| `Config.SavedTunnelReloads` | src/DotGstm.Desktop/Services/ConfigService.cs:174-257 | After a successful save the tunnel loads back from the file recorded on it |
| `Config.DocumentIgnoresFileName` | src/DotGstm.Desktop/Services/ConfigService.cs:206-242 | The file name is not part of the saved document |
| `Config.SavedFileLoads` | src/DotGstm.Desktop/Services/ConfigService.cs:174-257 | A saved file loads as the tunnel's configuration under that file name |
| `Config.ConfigService.DeleteTunnel` | src/DotGstm.Desktop/Services/ConfigService.cs:265-288 | False for a missing file, and false with the file kept when the deletion throws; otherwise true and exactly that file is removed |
| `Config.ConfigService.LoadTunnels` | src/DotGstm.Desktop/Services/ConfigService.cs:68-104 | Loads the listed files in order, skipping failures, recording each file name |
| `Config.LoadedFromFiles` | src/DotGstm.Desktop/Services/ConfigService.cs:68-104 | Every loaded tunnel comes from a listed tunnel file and records it |
| `Config.ConfigService.TunnelNameExists` | src/DotGstm.Desktop/Services/ConfigService.cs:297-320 | True iff some loaded tunnel outside the excluded file has the name, ignoring case |
| `Config.NameTakenIgnoresCase` | src/DotGstm.Desktop/Services/ConfigService.cs:310 | Names that differ only in case are equally taken |
| `Config.ExcludedFileIgnored` | src/DotGstm.Desktop/Services/ConfigService.cs:307-308 | A tunnel in the excluded file never counts |
| `Config.CaseVariantTaken` | src/DotGstm.Desktop/Services/ConfigService.cs:310 | "DB" is taken when "db" exists |
| `Localization.AvailableLanguages` | src/DotGstm.Desktop/Services/LocalizationService.cs:195-205 | Five languages are listed |
| `Localization.MapToSupportedLanguage` | src/DotGstm.Desktop/Services/LocalizationService.cs:78-131 | Empty name: en-US. Otherwise the first matching lower-cased prefix wins: zh-TW group, then zh-CN group, then ja, then ko; everything else en-US |
| `Localization.MappedIsAvailable` | src/DotGstm.Desktop/Services/LocalizationService.cs:127-131 | Every mapped code is one of the listed languages |
| `Localization.MappingIgnoresCase` | src/DotGstm.Desktop/Services/LocalizationService.cs:90 | Names differing only in ASCII case map alike |
| `Localization.TraditionalVariants` | src/DotGstm.Desktop/Services/LocalizationService.cs:90-99 | zh-HK and zh-Hant-CN map to zh-TW; the traditional test comes first |
| `Localization.PrefixesByHead` | src/DotGstm.Desktop/Services/LocalizationService.cs:90-125 | Which prefixes can match is decided by the first two characters |
| `Localization.BareChineseIsEnglish` | src/DotGstm.Desktop/Services/LocalizationService.cs:127-131 | A bare "zh" maps to en-US |
| `Localization.VariantExamples` | src/DotGstm.Desktop/Services/LocalizationService.cs:109-125 | en-GB maps to en-US and ko_KR.UTF-8 to ko-KR |
| `Localization.GetString` | src/DotGstm.Desktop/Services/LocalizationService.cs:141-153 | The looked-up text, or the key when the lookup yields nothing or throws |
| `TunnelDialog.TypeChangedCases` | src/DotGstm.Desktop/ViewModels/TunnelDialogViewModel.cs:148-194 | Dynamic disables both targets (and sets "n/a" with defaults); local/remote enable them, clear "n/a" and, with defaults, reset the bind value; other types change nothing |
| `TunnelDialog.TypeChangedIdempotent` | src/DotGstm.Desktop/ViewModels/TunnelDialogViewModel.cs:148-194 | Applying the same type change twice is applying it once |
| `TunnelDialog.FreshFormIsSettled` | src/DotGstm.Desktop/ViewModels/TunnelDialogViewModel.cs:16-117 | A fresh dialog is local, bound to "127.0.0.1:", both targets empty and enabled |
| `TunnelDialog.TunnelDialogViewModel.constructor` | src/DotGstm.Desktop/ViewModels/TunnelDialogViewModel.cs:109-117 | The fields are the settled fresh form; no result |
| `TunnelDialog.TunnelDialogViewModel.Edit` | src/DotGstm.Desktop/ViewModels/TunnelDialogViewModel.cs:123-139 | Loads the lower-cased type and the three values, then a type change without defaults |
| `TunnelDialog.EditShowsLoadedValues` | src/DotGstm.Desktop/ViewModels/TunnelDialogViewModel.cs:123-139 | Editing keeps the loaded values, except that "n/a" is cleared for local/remote |
| `TunnelDialog.EditThenOkRoundTrip` | src/DotGstm.Desktop/ViewModels/TunnelDialogViewModel.cs:123-217 | Opening a well-formed forwarding and confirming gives it back |
| `TunnelDialog.TunnelDialogViewModel.SetSelectedType` | src/DotGstm.Desktop/ViewModels/TunnelDialogViewModel.cs:20-28 | A new type, then a type change with defaults |
| `TunnelDialog.TunnelDialogViewModel.OnTypeChanged` | src/DotGstm.Desktop/ViewModels/TunnelDialogViewModel.cs:148-194 | The fields become `TypeChanged` of the old ones |
| `TunnelDialog.TunnelDialogViewModel.ValidateInput` | src/DotGstm.Desktop/ViewModels/TunnelDialogViewModel.cs:230-264 | Blank bind value refused; dynamic accepted; otherwise non-blank host and port, port in 1..65535 |
| `TunnelDialog.BlankPortTestRedundant` | src/DotGstm.Desktop/ViewModels/TunnelDialogViewModel.cs:250-257 | The blank-port test is implied by the numeric test |
| `TunnelDialog.ResultOf` | src/DotGstm.Desktop/ViewModels/TunnelDialogViewModel.cs:207-213 | The result carries the lower-cased type and the three values |
| `TunnelDialog.TunnelDialogViewModel.OnOk` | src/DotGstm.Desktop/ViewModels/TunnelDialogViewModel.cs:200-216 | Invalid: nothing changes. Valid: the result is set and the dialog closes with true |
| `TunnelDialog.TunnelDialogViewModel.OnCancel` | src/DotGstm.Desktop/ViewModels/TunnelDialogViewModel.cs:221-225 | Closes with false and no result |
| `TunnelDialog.BtnOkClick` | src/DotGstm.Desktop/Views/TunnelDialog.axaml.cs:81-136 | Blank bind value refused first; for non-dynamic types a blank host, then a blank port; otherwise the forwarding |
| `TunnelDialog.CloseValue` | src/DotGstm.Desktop/Views/TunnelDialog.axaml.cs:81-143 | Cancel yields nothing; OK yields the forwarding when accepted |
| `TunnelDialog.WindowAcceptsValidForm` | src/DotGstm.Desktop/Views/TunnelDialog.axaml.cs:87-136 | Whatever the view model accepts, the window accepts with the same forwarding |
| `TunnelDialog.WindowAcceptsNonNumericPort` | src/DotGstm.Desktop/Views/TunnelDialog.axaml.cs:102-124 | The window accepts a non-numeric target port that the view model refuses |
| `Properties.HostOfLine` | src/DotGstm.Desktop/ViewModels/PropertiesDialogViewModel.cs:355-365 | A declared host never holds `*` |
| `Properties.CollectAppend` | src/DotGstm.Desktop/ViewModels/PropertiesDialogViewModel.cs:353-366 | Hosts of consecutive lines are collected in order |
| `Properties.HostsAreNames` | src/DotGstm.Desktop/ViewModels/PropertiesDialogViewModel.cs:355-365 | Every collected host is non-empty, wildcard-free and trimmed |
| `Properties.HostOfLineIsName` | src/DotGstm.Desktop/ViewModels/PropertiesDialogViewModel.cs:355-365 | A line's declared host is non-empty and trimmed |
| `Properties.HostLineHasName` | src/DotGstm.Desktop/ViewModels/PropertiesDialogViewModel.cs:356-358 | A trimmed `Host ` line has text after the keyword |
| `Properties.HostsOfAppend` | src/DotGstm.Desktop/ViewModels/PropertiesDialogViewModel.cs:353-366 | Hosts keep file order |
| `Properties.HostDeclaration` | src/DotGstm.Desktop/ViewModels/PropertiesDialogViewModel.cs:355-365 | "Host h", keyword in any case, declares h |
| `Properties.WildcardSkipped` | src/DotGstm.Desktop/ViewModels/PropertiesDialogViewModel.cs:361-364 | A pattern with `*` declares nothing |
| `Properties.WildcardSurvivesTrim` | src/DotGstm.Desktop/ViewModels/PropertiesDialogViewModel.cs:358 | Trimming keeps a `*` |
| `Properties.KeywordHasNoWildcard` | src/DotGstm.Desktop/ViewModels/PropertiesDialogViewModel.cs:356 | The `Host ` keyword holds no `*` |
| `Properties.ParseSshConfig` | src/DotGstm.Desktop/ViewModels/PropertiesDialogViewModel.cs:347-369 | The loop collects exactly the declared hosts, in file order |
| `Properties.PresetsOf` | src/DotGstm.Desktop/ViewModels/PropertiesDialogViewModel.cs:305-341 | "No presets available" alone when there is no file, no host or a failure; else "No preset selected" then the hosts |
| `Properties.ReadPresets` | src/DotGstm.Desktop/ViewModels/PropertiesDialogViewModel.cs:305-341 | The preset list is `PresetsOf` the file |
| `Properties.PresetChanged` | src/DotGstm.Desktop/ViewModels/PropertiesDialogViewModel.cs:374-393 | Index 0: preset off, fields on. Other index: preset on, fields off, host from the list, or an error outside the list |
| `Properties.ChoosingAHost` | src/DotGstm.Desktop/ViewModels/PropertiesDialogViewModel.cs:374-393 | Choosing entry k selects the k-th configured host |
| `Properties.IndexBehindHead` | src/DotGstm.Desktop/ViewModels/PropertiesDialogViewModel.cs:329-333 | Entry k of the preset list is the (k-1)-th host |
| `Properties.PlaceholderOnlyAtZero` | src/DotGstm.Desktop/ViewModels/PropertiesDialogViewModel.cs:374-393 | With no presets, only index 0 is chosen without an error |
| `Properties.InitialProps` | src/DotGstm.Desktop/ViewModels/PropertiesDialogViewModel.cs:69-152 | A new dialog has port "22", limit "9", notify on, preset off |
| `Properties.PropertiesDialogViewModel.constructor` | src/DotGstm.Desktop/ViewModels/PropertiesDialogViewModel.cs:247-259 | Initial fields, the presets of the file, no rows, no result |
| `Properties.PropertiesDialogViewModel.Edit` | src/DotGstm.Desktop/ViewModels/PropertiesDialogViewModel.cs:265-298 | Copies every field, one fresh row per forwarding in order, fields enabled iff not preset |
| `Properties.MakeRows` | src/DotGstm.Desktop/ViewModels/PropertiesDialogViewModel.cs:280-283 | One fresh row per forwarding, in order |
| `Properties.PropertiesDialogViewModel.LoadSshPresets` | src/DotGstm.Desktop/ViewModels/PropertiesDialogViewModel.cs:305-341 | Only the preset list changes |
| `Properties.PropertiesDialogViewModel.SetSelectedPresetIndex` | src/DotGstm.Desktop/ViewModels/PropertiesDialogViewModel.cs:374-393 | Records the index, then applies `PresetChanged`; nothing else changes |
| `Properties.Valid` | src/DotGstm.Desktop/ViewModels/PropertiesDialogViewModel.cs:502-535 | Non-blank name; outside preset mode non-blank host and port in 1..65535; always a limit of at least 0 |
| `Properties.PropertiesDialogViewModel.ValidateInput` | src/DotGstm.Desktop/ViewModels/PropertiesDialogViewModel.cs:502-535 | The early-return chain equals `Valid` |
| `Properties.PresetSkipsConnectionChecks` | src/DotGstm.Desktop/ViewModels/PropertiesDialogViewModel.cs:512-525 | A preset tunnel needs neither host nor a valid port |
| `Properties.ValidTunnelRunsHelper` | src/DotGstm.Desktop/ViewModels/PropertiesDialogViewModel.cs:528-532 | A validated tunnel never reaches the unhandled `int.Parse` failure of the helper |
| `Properties.TunnelOf` | src/DotGstm.Desktop/ViewModels/PropertiesDialogViewModel.cs:467-485 | The result copies every field and the forwardings in order; inactive, no file |
| `Properties.EditThenOkKeepsConfiguration` | src/DotGstm.Desktop/ViewModels/PropertiesDialogViewModel.cs:265-487 | Editing and confirming at once gives back the tunnel's configuration |
| `Properties.ModelsOf` | src/DotGstm.Desktop/ViewModels/PropertiesDialogViewModel.cs:482-485 | One forwarding per row, in order |
| `Properties.CollectModels` | src/DotGstm.Desktop/ViewModels/PropertiesDialogViewModel.cs:482-485 | The loop builds exactly `ModelsOf` the rows |
| `Properties.PropertiesDialogViewModel.OnOk` | src/DotGstm.Desktop/ViewModels/PropertiesDialogViewModel.cs:460-488 | Invalid: nothing changes. Valid: the result and true, and no other field changes |
| `Properties.PropertiesDialogViewModel.OnCancel` | src/DotGstm.Desktop/ViewModels/PropertiesDialogViewModel.cs:493-497 | False and no result; no other field changes |
| `Properties.PropertiesDialogViewModel.OnAddRedirection` | src/DotGstm.Desktop/ViewModels/PropertiesDialogViewModel.cs:413-423 | A returned forwarding becomes a fresh last row; no other field changes |
| `Properties.PropertiesDialogViewModel.OnEditRedirection` | src/DotGstm.Desktop/ViewModels/PropertiesDialogViewModel.cs:428-444 | The selected row takes the edited forwarding; no other row or field changes |
| `Properties.PropertiesDialogViewModel.OnDeleteRedirection` | src/DotGstm.Desktop/ViewModels/PropertiesDialogViewModel.cs:449-455 | The selected row, if any, is removed; nothing else changes |
| `Properties.RemoveFirst` | src/DotGstm.Desktop/ViewModels/PropertiesDialogViewModel.cs:453 | An absent item changes nothing; a present one shortens the list by one |
| `Properties.RemoveFirstAt` | src/DotGstm.Desktop/ViewModels/PropertiesDialogViewModel.cs:453 | Exactly the first occurrence is removed, the rest keep order |
| `Properties.PortRedirectionViewModel.constructor` | src/DotGstm.Desktop/ViewModels/PropertiesDialogViewModel.cs:544-574 | A new row is a default forwarding |
| `Properties.PortRedirectionViewModel.FromModel` | src/DotGstm.Desktop/ViewModels/PropertiesDialogViewModel.cs:576-593 | `new PortRedirectionViewModel(m).ToModel()` equals m |
| `Properties.PortRedirectionViewModel.Update` | src/DotGstm.Desktop/ViewModels/PropertiesDialogViewModel.cs:439-442 | After the update the row stands for the edited forwarding |
| `Names.Candidate` | src/DotGstm.Desktop/Views/NameDialog.axaml.cs:67 | The trimmed text, or "" for none |
| `Names.Accept` | src/DotGstm.Desktop/Views/NameDialog.axaml.cs:65-97 | Blank refused first, then an exact (case-sensitive) existing name; otherwise the trimmed name |
| `Names.AcceptedNameIsTrimmed` | src/DotGstm.Desktop/Views/NameDialog.axaml.cs:65-97 | An accepted name is non-empty, trimmed and new; blank or missing text is refused |
| `Names.PaddedDuplicateRefused` | src/DotGstm.Desktop/Views/NameDialog.axaml.cs:67-93 | Surrounding whitespace does not get a duplicate through |
| `Names.PaddedTrim` | src/DotGstm.Desktop/Views/NameDialog.axaml.cs:67 | Trimming removes blank padding on both sides |
| `Names.TrimStartPadded` | src/DotGstm.Desktop/Views/NameDialog.axaml.cs:67 | Leading blank padding is removed |
| `Names.TrimEndPadded` | src/DotGstm.Desktop/Views/NameDialog.axaml.cs:67 | Trailing blank padding is removed |
| `Names.DuplicateCheckIsCaseSensitive` | src/DotGstm.Desktop/Views/NameDialog.axaml.cs:28 | "DB" is new next to "db" |
| `Names.NameDialog.constructor` | src/DotGstm.Desktop/Views/NameDialog.axaml.cs:25-28 | Existing names as a set; no name yet |
| `Names.NameDialog.BtnOkClick` | src/DotGstm.Desktop/Views/NameDialog.axaml.cs:65-97 | Refused: unchanged. Accepted: `TunnelName` set, closed with true |
| `Names.NameDialog.BtnCancelClick` | src/DotGstm.Desktop/Views/NameDialog.axaml.cs:100-104 | `TunnelName` null, closed with false |
| `MainWindow.TunnelItem.Default` | src/DotGstm.Desktop/Views/MainWindow.axaml.cs:984-1000 | A default row has both flags false, so it is inconsistent until `Active` is set |
| `MainWindow.TunnelItem.constructor` | src/DotGstm.Desktop/Views/MainWindow.axaml.cs:509 | A row built with `Active = false` is consistent |
| `MainWindow.TunnelItem.SetActive` | src/DotGstm.Desktop/Views/MainWindow.axaml.cs:990-998 | The setter keeps `IsInactive == !Active` |
| `MainWindow.RemoveAt` | src/DotGstm.Desktop/Views/MainWindow.axaml.cs:542-546 | No index: unchanged; an index: one fewer row |
| `MainWindow.ButtonStates` | src/DotGstm.Desktop/Views/MainWindow.axaml.cs:273-300 | Selection: Delete/Properties/Copy on, Start iff inactive, Stop iff active. None: all five off |
| `MainWindow.StartStopExclusive` | src/DotGstm.Desktop/Views/MainWindow.axaml.cs:273-300 | Exactly one of Start and Stop is enabled for a selection |
| `MainWindow.MainWindowView.UpdateButtonStates` | src/DotGstm.Desktop/Views/MainWindow.axaml.cs:273-300 | The five flags become `ButtonStates` |
| `MainWindow.MainWindowView.BuildSshCommandDisplay` | src/DotGstm.Desktop/Views/MainWindow.axaml.cs:306-347 | The loop's joined string equals the preview |
| `MainWindow.PreviewShape` | src/DotGstm.Desktop/Views/MainWindow.axaml.cs:306-347 | "ssh", host, `-p port`, optional `-i`, `-l login`, "-nN" ... ending with the two `-o` options |
| `MainWindow.PreviewForwards` | src/DotGstm.Desktop/Views/MainWindow.axaml.cs:324-339 | The preview's forwarding tokens are the real ones, in order, right after "-nN" |
| `MainWindow.PreviewIgnoresPreset` | src/DotGstm.Desktop/Views/MainWindow.axaml.cs:310-320 | The preview does not depend on `Preset` |
| `MainWindow.PreviewDiffersForPreset` | src/DotGstm.Desktop/Views/MainWindow.axaml.cs:310-320 | For a preset tunnel the preview shows `-p` which the real vector lacks |
| `MainWindow.PreviewShowsShortPort` | src/DotGstm.Desktop/Views/MainWindow.axaml.cs:310-313 | A one-character port is previewed but not passed |
| `MainWindow.PreviewIsArgsReordered` | src/DotGstm.Desktop/Views/MainWindow.axaml.cs:306-347 | With usable port and login and no preset, the preview holds the real words, reordered |
| `MainWindow.Reordered` | src/DotGstm.Desktop/Views/MainWindow.axaml.cs:306-347 | Reordering the blocks keeps the multiset |
| `MainWindow.AddedTunnel` | src/DotGstm.Desktop/Views/MainWindow.axaml.cs:492-504 | Add's defaults: port "22", restart and notify on, limit "9", autostart and preset off |
| `MainWindow.AddedTunnelRestarts` | src/DotGstm.Desktop/Views/MainWindow.axaml.cs:492-504 | Add differs from a new tunnel only by `Restart` on |
| `MainWindow.AddCancelledRestores` | src/DotGstm.Desktop/Views/MainWindow.axaml.cs:536-547 | Cancelling the properties dialog of a new name leaves the registry as it was |
| `MainWindow.AddRenamedKeepsPlaceholder` | src/DotGstm.Desktop/Views/MainWindow.axaml.cs:508-521 | Renaming inside Add's dialog leaves the placeholder under the first name |
| `MainWindow.MainWindowView.AddPlaceholder` | src/DotGstm.Desktop/Views/MainWindow.axaml.cs:490-509 | The default tunnel (port 22, restart on, limit 9) is stored under the chosen name and one fresh inactive row for it is appended; the other rows are kept |
| `MainWindow.MainWindowView.DropPlaceholder` | src/DotGstm.Desktop/Views/MainWindow.axaml.cs:536-546 | The name leaves the registry, and when the appended row is the only one with that name the list is back to what it was before Add |
| `MainWindow.MainWindowView.BtnAdd` | src/DotGstm.Desktop/Views/MainWindow.axaml.cs:472-548 | Registry, files and rows after Add, confirmed or cancelled; the button flags are unchanged |
| `MainWindow.CopyOf` | src/DotGstm.Desktop/Views/MainWindow.axaml.cs:703-727 | The copy has the new name, every other field and the forwardings in order, inactive, no file |
| `MainWindow.CopyUnderSameName` | src/DotGstm.Desktop/Views/MainWindow.axaml.cs:703-727 | A copy under the same name is the savable part of the original |
| `MainWindow.CopyRedirections` | src/DotGstm.Desktop/Views/MainWindow.axaml.cs:718-727 | The copied forwardings equal the originals, in order |
| `MainWindow.MainWindowView.BtnCopy` | src/DotGstm.Desktop/Views/MainWindow.axaml.cs:675-750 | The copy is stored and saved under the new name; a fresh inactive row is appended; the button flags are unchanged |
| `MainWindow.DialogResult` | src/DotGstm.Desktop/Views/PropertiesDialog.axaml.cs:254-281 | The window's result is a new inactive tunnel with pid 0, built from the fields and rows exactly as the view model's `OnOk` would, except that it keeps the file name of the tunnel it edits |
| `MainWindow.WindowEditThenOk` | src/DotGstm.Desktop/Views/PropertiesDialog.axaml.cs:254-281 | Opening the window on a tunnel and confirming gives back its configuration and file name, never its runtime state |
| `MainWindow.EditDropsRuntimeState` | src/DotGstm.Desktop/Views/MainWindow.axaml.cs:576-580 | Editing a running tunnel replaces its registry entry by an inactive one with pid 0 |
| `MainWindow.RenameMovesEntry` | src/DotGstm.Desktop/Views/MainWindow.axaml.cs:576-580 | A rename drops the old key and stores the result under the new name; other entries stay |
| `MainWindow.MainWindowView.StoreAndSave` | src/DotGstm.Desktop/Views/MainWindow.axaml.cs:580-583 | Stores the tunnel, then saves it, recording the file name on the stored tunnel |
| `MainWindow.MainWindowView.RemoveItemNamed` | src/DotGstm.Desktop/Views/MainWindow.axaml.cs:542-546 | Removes the first row with the name, if any |
| `MainWindow.RenameDeletesSavedFile` | src/DotGstm.Desktop/Views/MainWindow.axaml.cs:583-593 | As written, a rename whose delete goes through removes the file just saved to, and no loaded tunnel comes from it |
| `MainWindow.RenamedTunnelReloads` | src/DotGstm.Desktop/Views/MainWindow.axaml.cs:583-593 | Corrected, the renamed tunnel reloads from the file its entry names |
| `MainWindow.MainWindowView.BtnProperties` | src/DotGstm.Desktop/Views/MainWindow.axaml.cs:550-606 | The corrected behaviour from "## Findings" (the as-written deletion is `MainWindow.RenameDeletesSavedFile`): registry and files after an edit or rename, with the old file kept; the stored entry is inactive with pid 0 while the row keeps its `Active` flag and only its name changes; rows and button flags are unchanged |
| `Text.TrimIsSlice` | src/DotGstm.Desktop/Views/NameDialog.axaml.cs:67 | Trimming keeps the middle slice and removes only whitespace |
| `Text.TrimEmptyIffBlank` | src/DotGstm.Desktop/Views/NameDialog.axaml.cs:67-75 | Trimming gives "" exactly for a blank string |
| `Text.TrimIdempotent` | src/DotGstm.Desktop/Views/NameDialog.axaml.cs:67 | Trimming twice is trimming once |
| `Text.ToLowerIdempotent` | src/DotGstm.Desktop/Services/LocalizationService.cs:90 | Lower-casing twice is lower-casing once |
| `Text.JoinLength` | src/DotGstm.Desktop/Views/MainWindow.axaml.cs:346 | A join is as long as its parts plus one separator between each pair |
| `Text.JoinCons` | src/DotGstm.Desktop/Views/MainWindow.axaml.cs:346 | A join is the first part, the separator, then the join of the remaining parts, so the parts appear in order with one separator between neighbours |
| `Text.ParseInt32` | src/DotGstm.Desktop/Services/SshService.cs:118 | A parsed value lies in the 32-bit range |
| `Text.ParsePadded` | src/DotGstm.Desktop/Services/SshService.cs:118 | Whitespace around a number does not change its parse |
| `Text.ParseSignedDigits` | src/DotGstm.Desktop/Services/SshService.cs:118 | A sign and a run of digits parse to the signed value when it is in the 32-bit range, and fail otherwise |
| `Text.ParseNegative` | src/DotGstm.Desktop/Services/SshService.cs:118 | "-n" parses to -n down to -2147483648, and "+n" to n |
| `Text.ParseOverflow` | src/DotGstm.Desktop/Services/SshService.cs:118 | "2147483648" and larger fail, as does "-2147483649" and smaller |
| `Text.ParseRejectsStray` | src/DotGstm.Desktop/Services/SshService.cs:118 | Any character other than a digit, a sign or whitespace makes the parse fail |
| `Text.ParseDigits` | src/DotGstm.Desktop/Services/SshService.cs:118 | A string of decimal digits within range parses to its value |
| `Text.ParseSmallLimits` | src/DotGstm.Desktop/Services/SshService.cs:118 | "2", "3" and "9" parse to 2, 3 and 9 |
| `Text.ParseNatToString` | src/DotGstm.Desktop/ViewModels/PropertiesDialogViewModel.cs:528-532 | The integer parser reads back every rendered 32-bit natural |
| `Text.ParsedIsNotBlank` | src/DotGstm.Desktop/ViewModels/TunnelDialogViewModel.cs:250-257 | A string that parses is not blank |

## Left out

- Concurrency: the lock, the per-tunnel thread, the 3-second sleep and the
  dispatch to the UI thread. Every operation is one atomic step.
- Process control: spawning, waiting, killing and stderr capture. They are
  inputs (`Ssh.Attempt`, `Ssh.KillOutcome`).
- `CreateSshProcess` and `SetupEnvironment`: process start settings,
  file probing and the `SSH_ASKPASS` variables are platform I/O.
- File and XML I/O: documents are abstract element trees and the
  directory is a map from file name to document. `Path.GetRandomFileName`
  and `Path.GetInvalidFileNameChars` are parameters.
- Config.SaveLoadRoundTrip: holds for element trees only. The real
  reader loads without preserving whitespace, so a whitespace-only value
  (a host or login of " ") comes back as "". It also reads "\r\n" in a
  value as "\n". The round trip through a file holds only up to these
  changes.
- The windows, message boxes, menus, tray, about dialog, file pickers and
  label lookups.
- The properties window's own OK handler builds the result itself. It
  keeps the edited tunnel's file name, where `PropertiesDialogViewModel.OnOk`
  leaves it unset, and it does not call `ValidateInput`. That handler is
  modelled by `MainWindow.DialogResult`; the validation gap is not.
- Ssh.HelperRun: `Crashed` stands for the whole application terminating.
  `int.Parse` of the restart limit runs on the helper's thread outside any
  `try`, and the limit reaches it unvalidated from loaded files and from
  the properties window. The registry is "unchanged" only because nothing
  runs afterwards.
- `BtnDelete_Click`, `BtnStart_Click`, `BtnStop_Click`, autostart and
  window closing: they only call the modelled registry, service and
  configuration operations.
- Localisation runtime: `ResourceManager`, `CultureInfo`, `ChangeLanguage`
  and the format templates. The lookup is an input to `GetString`.
- `int.Parse`/`int.TryParse`: modelled by `Text.ParseInt32`. It takes
  ASCII whitespace around an optional sign and ASCII digits, within 32
  bits. Culture-specific signs, thousands separators and Unicode digits
  are not modelled.
- Case folding is ASCII only; Unicode case mappings are not modelled.
- Ssh.SshService.HelperThread: the restart guard reads the pid of the
  registry entry under the tunnel's name. The code reads the captured
  object, which is the same object while the entry is not replaced. A
  spawn that throws is taken to capture no stderr.
- Ssh.NoticeMessage: models which localized texts and line breaks are
  chosen, not the formatted text.
- Config.ConfigService.LoadTunnels: a file that cannot be read or parsed
  is modelled as a missing document; the directory order is an input.
- MainWindow.MainWindowView.BtnProperties: the `ItemsSource` reset that
  refreshes the list is not modelled.
- MainWindow.MainWindowView.BtnProperties: models the corrected handler of
  "## Findings"; it never deletes the old file after a rename, which the
  code as written does (`MainWindow.PropertiesFilesAsWritten`).

## Findings

| source | as written | input that shows it | evidently intended | confidence | as-written member | corrected member |
|---|---|---|---|---|---|---|
| src/DotGstm.Desktop/Views/MainWindow.axaml.cs:583-593 | After a rename, the edited tunnel still carries its old `FileName`, so `SaveTunnelAsync` writes to that file. The handler then deletes `oldFileName`, which is the same file. | A tunnel loaded from `a.x1y2z3.gstm` and renamed from "a" to "b" in Properties. | Keep the file the save just wrote to, so the renamed tunnel loads again. | high, not executed | `MainWindow.RenameDeletesSavedFile` | `MainWindow.RenamedTunnelReloads` |
