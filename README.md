# windows-volume-control: session registry and process-name resolver

This project is a Dafny model of the core of `windows-volume-control`, a Rust
library that gives every audio session on a Windows host a unique name. The
model has two parts.

- **The session registry** (`AudioController` in `src/lib.rs`). It keeps an
  ordered list of sessions and grows it in two ways:
  - it discovers per-process sessions on every active render device;
  - it registers the default output and input endpoints as `master` and `mic`.

  It also answers two lookups by name. A process session is skipped when
  fetching or casting its control, resolving its process or casting its
  volume fails, or when its process id is 0. A failing `GetProcessId` aborts
  the whole discovery. A process name that is already taken gets the
  suffixes `(2)`, `(3)`, … until it is free.
- **The process-name resolver** (`src/process_api.rs`). It finds the image path
  of a process through a process handle, and closes that handle on every path.
  It reads the `FileDescription` string of the executable's `VS_VERSIONINFO`
  resource, under the key built from the first `\VarFileInfo\Translation`
  entry, with NUL padding trimmed. When that description is missing or empty,
  it falls back to the file stem of the path.

Files:

- `wrappers.dfy`: `Option` and `Result`.
- `process_api.dfy`: module `ProcessApi`, covering the resolver.
- `session_naming.dfy`: module `SessionNaming`, covering the renaming loop.
- `controller.dfy`: module `Controller`, covering the registry.

The COM audio subsystem is an abstract `AudioPlatform` value. For each COM call
the source makes, the value says whether the call succeeds and what it yields:
- one `SessionProbe` per enumerated session;
- one `RenderDevice` per active device;
- the default endpoints of the `DeviceEnumerator`.

The Win32 process and version-info calls are modelled the same way: a
`ProcessTable` object stands for the process handles, and a `VersionResource`
value for a version block. Where the source calls `exit(1)` or panics in
`unwrap`, the model ends the operation with the outcome `Aborted`, and the
sessions keep whatever was appended up to that point.

The renaming loop appends each suffix to the name that is *already suffixed*.
So with `app` and `app(2)` present, a third `app` becomes `app(2)(3)`, not
`app(3)`. The comment above the loop (src/lib.rs:158) says the name changes to
"name + 1", which reads as one counter suffix on the original name (`app(3)`).
Where the comment and the code disagree, the model follows the code
(`CumulativeSuffixExample`).

`master` and `mic` do not go through the renaming loop. Registering the
endpoints twice therefore leaves two sessions with the same name
(`EndpointRegistrationRepeats`). A process session never takes the name of an
endpoint session that is already in the list (`ProcessSessionAvoidsEndpointName`).
An endpoint registered after a process session of the same name duplicates
that name (`EndpointAfterProcessDuplicates`).

## Model

| member | source | states |
|---|---|---|
| `ProcessApi.TrimNul` | src/process_api.rs:143 | the trimmed description neither starts nor ends with NUL |
| `ProcessApi.TrimNulIsNulTrim` | src/process_api.rs:143 | the trim is a slice of its input: everything removed before and after it is NUL, and what is kept neither starts nor ends with NUL |
| `ProcessApi.NulTrimUnique` | src/process_api.rs:143 | only one slice has those properties, so the trim leaves interior characters untouched and is fully determined |
| `ProcessApi.TrimNulIdempotent` | src/process_api.rs:143 | trimming twice is the same as trimming once |
| `ProcessApi.Hex4` | src/process_api.rs:119-122 | `{:04x}` gives exactly four lowercase hexadecimal digits |
| `ProcessApi.ParseHex4OfHex4` | src/process_api.rs:119-122 | reading the four digits back gives the 16-bit value, so no information is lost in the padding |
| `ProcessApi.LookupKey` | src/process_api.rs:119-122 | the key is always 40 characters: `\StringFileInfo\`, then 4 digits of the language, then 4 of the code page, then `\FileDescription` |
| `ProcessApi.LookupKeyInjective` | src/process_api.rs:119-122 | two (language, code page) pairs give the same key iff they are equal |
| `ProcessApi.LastNormalComponentIsLast` | src/process_api.rs:62-64 | when there is a file name, it is a whole component of the path (a separator or an end on each side, no separator inside) and every component after it is empty or `.`; there is none iff every component is empty or `.`, or the last other component is `..` |
| `ProcessApi.FileName` | src/process_api.rs:62-63 | `Path::file_name`: after the drive prefix, the last component that is neither empty nor `.`; never `""`, `.` or `..`; None iff there is no such component or it is `..` |
| `ProcessApi.Stem` | src/process_api.rs:62-64 | the stem is the name up to its last `.`; it is the whole name iff no `.` follows the first character (a lone leading dot is not an extension) |
| `ProcessApi.FileStem` | src/process_api.rs:62-67 | a path has a stem iff it has a file name; the stem is a non-empty prefix of that name |
| `ProcessApi.ProcessName` | src/process_api.rs:56-70 | never an error; a non-empty description is returned verbatim, otherwise the file stem or `""`; the result is `""` iff there is neither |
| `ProcessApi.GameExeExample` | src/process_api.rs:56-70 | `C:\games\game.exe` without a description is named `game` |
| `ProcessApi.ToolExeExample` | src/process_api.rs:56-70 | `C:\bin\tool.exe` has stem `tool`, and that is its name when the description is missing or empty |
| `ProcessApi.GetFileDescription` | src/process_api.rs:72-146 | Err iff the size is 0, the block cannot be read, the translation query fails or the description query fails; otherwise the NUL-trimmed value under the key of the first translation entry |
| `ProcessApi.GetProcessName` | src/process_api.rs:56-70 | never Err; the trimmed description when the resource has a non-empty one, otherwise the file stem of the path or `""` |
| `ProcessApi.ProcessTable.GetProcessHandle` | src/process_api.rs:148-152 | a new handle is opened (and logged) iff the process exists and may be opened; otherwise nothing changes |
| `ProcessApi.Utf16Length` | src/process_api.rs:32-42 | the buffer size counts UTF-16 code units: between one and two per character, and exactly one per character iff no character lies above U+FFFF |
| `ProcessApi.Utf16LengthRepeated` | src/process_api.rs:32-42 | a run of `n` copies of one character takes `n` times that character's code units |
| `ProcessApi.AstralPathTooLong` | src/process_api.rs:32-42 | a path of 200 characters U+1F600 is shorter than MAX_PATH in characters but not in code units, so it does not fit the buffer |
| `ProcessApi.ProcessTable.QueryFullProcessImageName` | src/process_api.rs:36-42 | succeeds iff the image name is available and fits the buffer, counted in UTF-16 code units, with its terminator, and then yields it |
| `ProcessApi.ProcessTable.CloseProcessHandle` | src/process_api.rs:154-156 | the handle is no longer open and the close is logged |
| `ProcessApi.GetProcessPath` | src/process_api.rs:30-54 | when the open fails: Err, and no handle call beyond the failed open; otherwise exactly open, query, close on that handle, in that order, on every path; Ok iff the path is available, is shorter than MAX_PATH in UTF-16 code units and decodes, with that path; no handle stays open |
| `SessionNaming.Decimal` | src/lib.rs:162 | `{}` of a counter is a non-empty string of decimal digits |
| `SessionNaming.DecimalValueOfDecimal` | src/lib.rs:162 | the digits `{}` writes for a counter read back as that counter |
| `SessionNaming.DecimalNoLeadingZero` | src/lib.rs:162 | `{}` writes no leading zero: the text starts with `0` iff the counter is 0 |
| `SessionNaming.DecimalInjective` | src/lib.rs:162 | two counters are written the same iff they are equal |
| `SessionNaming.Suffix` | src/lib.rs:162 | one pass appends `(`, the counter, `)` |
| `SessionNaming.CountAtLeastShrinks` | src/lib.rs:161-163 | lengthening a taken name leaves fewer names at least that long, the measure on which the loop terminates |
| `SessionNaming.Deduplicated` | src/lib.rs:159-164 | the loop's result is taken by no existing session, and a free candidate is left unchanged |
| `SessionNaming.DeduplicatedShape` | src/lib.rs:159-164 | the result is the candidate followed by the cumulative suffixes `(c)(c+1)…` of k passes, every earlier candidate was taken, and k is at most the number of names as long as the candidate |
| `SessionNaming.DeduplicationPassesBounded` | src/lib.rs:159-164 | starting at counter 2, the loop settles after at most as many passes as there are sessions |
| `SessionNaming.CumulativeSuffixExample` | src/lib.rs:159-164 | `app` is kept when free, becomes `app(2)` next to `app`, and `app(2)(3)` next to `app` and `app(2)` |
| `Controller.Names` | src/lib.rs:247 | one name per session, each the session's `getName()`, in list order |
| `Controller.Judge` | src/lib.rs:118-157 | a session is admitted iff its control is fetched and cast, its pid is known and non-zero, its process resolves and its volume casts; it is then named by the resolved name; a failing GetProcessId panics |
| `Controller.Step` | src/lib.rs:118-168 | one pass of the session loop aborts iff GetProcessId fails; it keeps the list and appends one application session iff the session is admitted, under a name no listed session has |
| `Controller.ScanSessions` | src/lib.rs:117-169 | one device's loop keeps the list as a prefix, appends at most one session per enumerated session, and aborts iff some session's GetProcessId fails |
| `Controller.ScanDevices` | src/lib.rs:98-170 | the device loop keeps the list as a prefix and completes iff every device yields its sessions and no GetProcessId fails |
| `Controller.Discovery` | src/lib.rs:79-170 | discovery keeps the list as a prefix and completes iff the enumerator is created, the active render devices are listed, and the device loop completes |
| `Controller.RegisterExtends` | src/lib.rs:158-168 | appending names never changes the sessions already in the list |
| `Controller.RegisterPrefix` | src/lib.rs:158-168 | appending names one by one: the first n appended sessions depend on the first n names only |
| `Controller.RegisterAt` | src/lib.rs:158-168 | the k-th appended session is an application session named by the renaming loop against all sessions before it |
| `Controller.RegisterAppends` | src/lib.rs:158-168 | appending only adds at the end; every new session is an application session, its name is the base name plus cumulative suffixes from `(2)`, and it clashes with no earlier name, `master` and `mic` included |
| `Controller.RegisterFresh` | src/lib.rs:158-168 | a newly appended session's name differs from the name of every session before it |
| `Controller.RegisterKeepsUnique` | src/lib.rs:158-168 | if the names were unique before, they are unique after appending |
| `Controller.RegisterConcat` | src/lib.rs:98-168 | appending two batches one after the other is appending their concatenation |
| `Controller.ScanSessionsStopsAt` | src/lib.rs:117-132 | after a panic in the session loop, the remaining sessions change nothing |
| `Controller.ScanDevicesStopsAt` | src/lib.rs:98-117 | after an abort on one device, the remaining devices change nothing |
| `Controller.ScanSessionsIsRegister` | src/lib.rs:117-169 | without a panic, one device's loop appends exactly its admitted sessions, in session order, each renamed against all before it |
| `Controller.ScanDevicesIsRegister` | src/lib.rs:98-170 | without an abort, discovery appends exactly the admitted sessions, in device order and then session order; skipped sessions leave no trace and do not stop later ones |
| `Controller.DiscoveryCount` | src/lib.rs:118-168 | without an abort, the number of sessions appended equals the number of enumerated sessions that pass every check |
| `Controller.ScanSessionsExtendsUnique` | src/lib.rs:117-169 | one device's loop keeps earlier sessions in place and keeps names unique |
| `Controller.ScanDevicesExtendsUnique` | src/lib.rs:98-170 | discovery, aborted or not, keeps the earlier sessions in place and keeps names unique |
| `Controller.TwoGamesScenario` | src/lib.rs:98-168 | two devices, each with one `game` session, yield `["game", "game(2)"]` in that order |
| `Controller.ProcessSessionAvoidsEndpointName` | src/lib.rs:159-164 | a process named `master` next to the `master` endpoint is registered as `master(2)` |
| `Controller.AddEndpoint` | src/lib.rs:207-241 | an endpoint step after an abort or without a resolved device changes nothing; it aborts iff the device's endpoint volume cannot be activated; otherwise it appends exactly one endpoint session with the given name |
| `Controller.EndpointRegistration` | src/lib.rs:183-240 | registration keeps the list as a prefix, appends at most two sessions, and aborts iff a resolved default device cannot activate its endpoint volume |
| `Controller.EndpointRegistrationAppends` | src/lib.rs:183-240 | with a bound enumerator, `master` is appended iff the default render device resolved, then `mic` iff the default capture device resolved, independently and unrenamed |
| `Controller.EndpointRegistrationRepeats` | src/lib.rs:219-239 | a second registration appends another `master`/`mic` pair, so names are no longer unique |
| `Controller.EndpointAfterProcessDuplicates` | src/lib.rs:207-224 | a process session `master` discovered before the endpoints keeps its name, and the `master` endpoint appended after it makes the names no longer unique |
| `Controller.AudioController.Init` | src/lib.rs:36-56 | a new controller has no enumerator, no default devices and no sessions |
| `Controller.AudioController.GetSessions` | src/lib.rs:58-68 | binds the created enumerator, or aborts when creation fails; sessions and default devices do not change |
| `Controller.AudioController.AnySessionNamed` | src/lib.rs:161 | true iff some session has exactly this name |
| `Controller.AudioController.UniqueName` | src/lib.rs:158-164 | the loop's name is free among the sessions, equals the candidate when that is free, and is the candidate plus the cumulative suffixes of at most as many passes as there are sessions |
| `Controller.AudioController.GetAllProcessSessions` | src/lib.rs:71-174 | the new session list is that of the discovery specification, and the call aborts iff the specification does; the enumerator and default devices do not change |
| `Controller.AudioController.GetDefaultAudioEnpointVolumeControl` | src/lib.rs:176-243 | without a bound enumerator nothing changes; otherwise both default devices are stored and the sessions are those of the endpoint-registration specification |
| `Controller.AudioController.GetAllSessionNames` | src/lib.rs:246-248 | exactly the session names, in list order, one per session |
| `Controller.AudioController.GetSessionByName` | src/lib.rs:250-252 | None iff no session has this name; otherwise the first session, in list order, with exactly this name |

## Left out

- COM initialisation and release: `CoInitializeEx` with its `CoinitMode` choice in `init`, and `CoUninitialize` at the end of `GetAllProcessSessions`. They act on apartment-scoped global state. `init` cannot fail in the model.
- Volume get/set and the `session` module: `src/session.rs` is not part of this model. A session is its variant and the name passed to `ApplicationSession::new` / `EndPointSession::new`, which is what `getName()` returns.
- `get_process_info` is not part of this model. Its outcome for a session's process is an input, `SessionProbe.processInfo`. `GetProcessPath` and `GetProcessName` model the parts of it that are shown.
- Logging through `eprintln!` and `error!`: it is output only.
- `exit(1)` and the `unwrap` panics at src/lib.rs:117 and 132 are an `Aborted` outcome, not a process exit. The failures of `Item`, `Activate`, `GetSessionEnumerator` and `GetCount` for one device all look the same in the model, because each ends the process before any session of that device is handled.
- UTF-16 decoding (`from_utf16_lossy`, `PWSTR::to_string`) and the raw-pointer slices read through `VerQueryValueW`: descriptions and paths are given already decoded, and an undecodable image path is `ImageName.Undecodable`.
- `ProcessApi.FileStem`: of the Windows path prefixes it removes only a drive letter such as `C:`. UNC and verbatim prefixes (`\\server\share`, `\\?\`) are not recognised, and a path made of such a prefix alone may get a stem that `Path::file_stem` would not give it.
- `ProcessApi.GetFileDescription`: the byte length that `VerQueryValueW` returns for `\VarFileInfo\Translation` (src/process_api.rs:96, 109-110) is ignored by the source, which reads one entry whatever that length is. An empty translation table therefore yields whatever entry the pointer reaches, not `Err`. The model follows the source: `VersionResource.translation` is the entry read, and `Err` comes only from a failed query.
- `ProcessApi.GetFileDescription`: the source hands the description query a pointer into a temporary `HSTRING` that is freed at the end of the statement that builds it (src/process_api.rs:123), and `VerQueryValueW` reads the key through that pointer (src/process_api.rs:130). The model assumes the key arrives as built by `LookupKey`; what the query sees if the freed memory has been reused is not modelled.
- The `try_into().unwrap()` of the version-info size at src/process_api.rs:81: a `u32` always fits a `usize` on Windows.
- `get_sessions_by_name`, which examples/main.rs calls: it is not defined in src/lib.rs. Only `get_session_by_name` (exact match, first hit) is modelled.
- `ProcessInfo` and `WindowsPlatformApi`: only the `process_name` field of `ProcessInfo` reaches the registry, and the platform struct is empty.
