# grunt-ant-sfdc in Dafny

A model of the logic inside grunt-ant-sfdc, a Grunt plugin that drives the
Salesforce Ant Migration Tool. The model covers five pieces:

- **Metadata type lookup** (`Metadata`). A user-supplied package key is turned into
  the XML type name of the Metadata API. The lookup tries the lower-cased
  key itself first. Failing that, it scans every registry entry for a
  matching folder, and four plural keys are redirected to their singular
  entries.
- **The `package.xml` manifest** (`PackageXml`). The header, an optional
  `<fullName>`, one `<types>` block per package key, then `<version>`, all
  joined with newlines. A key that does not resolve aborts the build.
- **Credential resolution, in two versions**:
  - `LegacyAuth` is the `parseAuth` the tasks of `ant_sfdc.js` call. It takes
    user, password and token from the options or, under `useEnv`, only from
    the environment.
  - `SfdcAuth` is `auth.parseAuth` of `sfdc-auth.js`. It runs three phases over
    the shared options object: importing an editor session
    (`sessionConfig`), the environment override, and validation, which
    appends the token to the password.
  - Both record what they log and warn as a list of messages.
- **The two Ant-log parsers**. `DescribeLog` is the `antdescribe` JSON
  conversion and `ListLog` is the `antlist` one. Each reads `key: value`
  lines into a pending record and files that record on a non-field line.
  They share the line and record handling of `LogRecords`.
- **The JavaScript string operations they rest on** (`Strings`):
  `toLowerCase`, one-character `split` and `join`, `trim`, the `/^\*.*/`
  test and the `.com` cut of a session server URL.

The source changes state step by step, and the model keeps that form:

- Each such operation is a method over sequences. `parseAuth` updates the
  `Options` class in place.
- Each method is proved equal to a pure specification function.
- The properties are stated as lemmas about those functions.

JavaScript values that matter are modelled explicitly:

- `undefined` and `false` are distinct from strings (`AuthOptions.Val`), so
  `pass += token` on the default `pass: false` gives `"false…"`.
- Reading `.green` of an undefined user is a thrown `TypeError`.
- A list-log field that writes into a missing record is the failure of the
  parse at that line.
- `grunt.fail.warn` and `grunt.fail.fatal` are recorded outcomes, as when the
  tests stub them.

The registry `lib/metadata.json`, the process environment and the text of
the log files are parameters.

Three behaviours of the code are easy to misread, and the model keeps them
as the code has them:

- A session config of neither known shape leaves the session id and server
  URL as they were (tasks/sfdc-auth.js:21-28); they are not cleared.
- Under `useEnv`, an environment variable set to the empty string does not
  override the option, because the code combines them with `||`
  (tasks/sfdc-auth.js:32-36).
- The credential warning is `grunt.fail.warn` (tasks/sfdc-auth.js:48). It
  aborts unless Grunt runs with `--force` or the call is stubbed, so the
  closing log line is still modelled after it (tasks/sfdc-auth.js:13-17).

## Model

| member | source | states |
|---|---|---|
| `Strings.LowerNormalises` | tasks/ant_sfdc.js:18 | lower-casing keeps the length, leaves no upper-case letter and is idempotent |
| `Strings.SplitPiecesFree` | tasks/ant_sfdc.js:340 | no piece of `split(sep)` contains the separator |
| `Strings.JoinSplit` | tasks/ant_sfdc.js:340 | joining the pieces of a split with the separator gives the original string back |
| `Strings.SplitJoin` | tasks/ant_sfdc.js:129 | splitting a join of separator-free pieces gives the pieces back |
| `Strings.TrimSpec` | tasks/ant_sfdc.js:342-343 | `trim` keeps a contiguous piece of the string, removes only whitespace on either side, and the kept piece neither starts nor ends with whitespace |
| `Strings.TrimIdempotent` | tasks/ant_sfdc.js:342-343 | trimming twice is trimming once |
| `Strings.CutAfterDotCom` | tasks/sfdc-auth.js:27 | a URL without ".com" is unchanged; otherwise the result is the input up to and including its first ".com", followed by the input from the end of that line on, so a one-line URL becomes exactly its prefix through the first ".com" |
| `Strings.CutAfterDotComIdempotent` | tasks/sfdc-auth.js:27 | cutting after ".com" twice is cutting once |
| `Metadata.LookupMetadata` | tasks/ant_sfdc.js:17-41 | the loop that overwrites `typeName` once per registry key returns the lookup specification; an exact key with a truthy type returns that type |
| `Metadata.LookupExact` | tasks/ant_sfdc.js:18-22 | an exact lower-cased key with a truthy XML type is answered with that type, without the folder scan |
| `Metadata.LookupIgnoresCase` | tasks/ant_sfdc.js:18 | a key and its lower-cased form resolve alike |
| `Metadata.ScanNoMatch` | tasks/ant_sfdc.js:25-38 | for a non-alias key, a scan in which no folder matches leaves the type undefined |
| `Metadata.ScanLastMatch` | tasks/ant_sfdc.js:25-38 | for a non-alias key, the scan returns the XML type of the last entry whose folder matches |
| `Metadata.ScanAlias` | tasks/ant_sfdc.js:25-38 | for a plural alias the last entry decides: its own type if its folder matches, else the singular entry's |
| `Metadata.LookupByFolder` | tasks/ant_sfdc.js:17-41 | a key that is neither an exact hit nor an alias resolves to the type of the last entry whose folder matches |
| `Metadata.LookupNotFound` | tasks/ant_sfdc.js:17-41 | a key that is no exact hit, no alias and no entry's folder resolves to undefined |
| `Metadata.LookupEmptyRegistry` | tasks/ant_sfdc.js:17-41 | an empty registry resolves nothing |
| `PackageXml.BuildPackageXml` | tasks/ant_sfdc.js:106-130 | the nested push loops produce the manifest specification: the joined lines, or the failure naming the first unresolvable key |
| `PackageXml.AppendTypesBlock` | tasks/ant_sfdc.js:119-124 | the inner loop appends exactly one `<types>` block: open tag, one `<members>` line per member in order, `<name>`, close tag |
| `PackageXml.BlocksOutcome` | tasks/ant_sfdc.js:114-125 | the blocks exist exactly when every key resolves, fail naming the first key that does not, and have three lines per key plus one per member |
| `PackageXml.BlockAt` | tasks/ant_sfdc.js:114-125 | the block of key i sits right after the blocks of the keys before it and is that key's `<types>` block |
| `PackageXml.ManifestOutcome` | tasks/ant_sfdc.js:117-118 | the manifest is built exactly when every key resolves; otherwise the build fails at the first key that does not |
| `PackageXml.ManifestFrame` | tasks/ant_sfdc.js:106-130 | the manifest has 4 lines, plus 1 when a name is given, plus 3 per key and 1 per member: the declaration and root first, a `<fullName>` line third exactly when a name is given, `<version>` and `</Package>` last |
| `PackageXml.ManifestBlock` | tasks/ant_sfdc.js:114-125 | each key, in order, has its `<types>` block at the offset after the header and the earlier blocks, with its members in order and its resolved type |
| `PackageXml.LookupFromRegistry` | tasks/ant_sfdc.js:17-41 | a resolved type name is always the XML type of some registry entry |
| `PackageXml.BlocksHaveNoNewline` | tasks/ant_sfdc.js:119-124 | no block line holds a newline when no member and no registry type does |
| `PackageXml.HeaderFooterHaveNoNewline` | tasks/ant_sfdc.js:107-113 | the header and footer lines hold no newline when the package name and version do not |
| `PackageXml.ManifestSplitsIntoLines` | tasks/ant_sfdc.js:129 | splitting the manifest string at newlines gives back its lines when no input holds a newline |
| `LegacyAuth.ParseAuth` | tasks/ant_sfdc.js:60-74 | the method leaves the options at the resolved user, password and server URL, and emits the report messages followed by the user line |
| `LegacyAuth.CredentialsFromOneSource` | tasks/ant_sfdc.js:61-64 | under `useEnv` user and password depend only on SFUSER, SFPASS and SFTOKEN; without it only on the options |
| `LegacyAuth.NoFallbackToOptions` | tasks/ant_sfdc.js:61-73 | under `useEnv` with SFUSER unset the user is undefined, the warning is raised and the closing log line throws |
| `LegacyAuth.TokenAppended` | tasks/ant_sfdc.js:64 | a truthy token is appended to the string form of the password, which is then truthy |
| `LegacyAuth.DefaultPasswordWithToken` | tasks/ant_sfdc.js:64 | the default `pass: false` with token "tok" becomes "falsetok" |
| `LegacyAuth.WarnIff` | tasks/ant_sfdc.js:65-67 | the warning is raised iff the user or the password is falsy; each error is logged iff its credential is falsy |
| `LegacyAuth.ServerUrlOverride` | tasks/ant_sfdc.js:70-72 | the server URL changes only under `useEnv` with a non-empty SFSERVERURL, and then becomes it |
| `LegacyAuth.LogShowsOnlyUser` | tasks/ant_sfdc.js:73 | the only log line is the user line; password and token are never written |
| `SfdcAuth.ParseAuthMavensMate` | tasks/sfdc-auth.js:19-29 | the method updates the options object to the session import specification |
| `SfdcAuth.ParseAuthEnv` | tasks/sfdc-auth.js:31-37 | the method updates the options object to the environment override specification |
| `SfdcAuth.ValidateAuth` | tasks/sfdc-auth.js:39-49 | the method appends a truthy token to the stored password and emits the checks on the resulting options |
| `SfdcAuth.ParseAuth` | tasks/sfdc-auth.js:5-50 | the three phases leave the options at the resolved configuration and emit the checks followed by the closing line |
| `SfdcAuth.SessionConfigShapes` | tasks/sfdc-auth.js:19-29 | the import touches only session id and server URL; the access-token shape wins, then the sid shape with the URL cut after ".com"; any other config changes nothing |
| `SfdcAuth.SidShapeUrlIsStable` | tasks/sfdc-auth.js:24-27 | a server URL imported from the sid shape is already cut, and a URL without ".com" is kept whole |
| `SfdcAuth.EnvWins` | tasks/sfdc-auth.js:6-37 | under `useEnv` each of the five variables, when non-empty, wins over both the option and the session import (the password before validation appends the token); otherwise the imported value stays |
| `SfdcAuth.EnvIgnoredWithoutUseEnv` | tasks/sfdc-auth.js:9-11 | without `useEnv` neither the options nor the messages depend on the environment |
| `SfdcAuth.TokenAppendedToPassword` | tasks/sfdc-auth.js:45 | validation appends a truthy token to the password, keeps the token and changes nothing else |
| `SfdcAuth.ReportsIff` | tasks/sfdc-auth.js:46-48 | each error is logged iff its credential is falsy and the session pair is incomplete; the one warning is raised iff the session pair is incomplete and user and password are both falsy |
| `SfdcAuth.ChecksMembership` | tasks/sfdc-auth.js:46-48 | the three iffs of the validation messages, for any options validation may leave |
| `SfdcAuth.ChecksWarnings` | tasks/sfdc-auth.js:48 | the warnings are exactly `["username/password error"]` when the session pair is incomplete and user and password are falsy, and none otherwise |
| `SfdcAuth.LogLineHidesSecrets` | tasks/sfdc-auth.js:13-17 | runs that differ only in password, token or session id log the same closing line |
| `SfdcAuth.LogLineNamesUserOrServer` | tasks/sfdc-auth.js:13-17 | the only log line names the user when set, else the server URL |
| `SfdcAuth.EmptyOptionsWarn` | test/spec/auth-test.js:19-24 | empty options raise exactly the warning "username/password error" |
| `SfdcAuth.UserAndPassDoNotWarn` | test/spec/auth-test.js:26-33 | user and password set: no warning |
| `SfdcAuth.SessionDoesNotWarn` | test/spec/auth-test.js:35-42 | session id and server URL set: no warning |
| `SfdcAuth.SessionConfigSetsSession` | test/spec/auth-test.js:46-53 | an access-token session config sets session id "123" and server URL "abc" |
| `SfdcAuth.EnvironmentSetsEverything` | test/spec/auth-test.js:55-70 | all five variables under `useEnv` set the options, the password to "passtoken" |
| `LogRecords.PutGet` | tasks/ant_sfdc.js:365 | after `md[prop] = val`, `md[prop]` is `val` |
| `LogRecords.PutOthers` | tasks/ant_sfdc.js:365 | assigning one property leaves every other property as it was |
| `LogRecords.PutKeys` | tasks/ant_sfdc.js:365 | an existing property keeps its place; a new one is appended last |
| `LogRecords.PutKeepsDistinct` | tasks/ant_sfdc.js:365 | assigning never duplicates a property name |
| `LogRecords.FieldHalves` | tasks/ant_sfdc.js:340-343 | a field line is its two colon-free halves around its one colon, and property and value are those halves trimmed |
| `LogRecords.PushedSpec` | tasks/ant_sfdc.js:368-369 | a push appends the record under its type, creating the type if missing, and touches no other type |
| `DescribeLog.ConvertValue` | tasks/ant_sfdc.js:344-363 | the conversion with its loop over the comma-separated parts computes the field-value specification |
| `DescribeLog.ParseDescribeLog` | tasks/ant_sfdc.js:333-373 | the loop over the log's lines produces the describe-parse specification |
| `DescribeLog.FieldValueCases` | tasks/ant_sfdc.js:347-363 | only `ChildObjects` yields lists (the unstarred trimmed parts, or `[]` for one starred value); only other properties turn "true"/"false" into booleans; everything else is the trimmed text |
| `DescribeLog.UnstarredSound` | tasks/ant_sfdc.js:350-355 | every kept part is one of the parts and does not start with '*' |
| `DescribeLog.UnstarredComplete` | tasks/ant_sfdc.js:350-355 | every part that does not start with '*' is kept |
| `DescribeLog.ChildObjectsMembers` | tasks/ant_sfdc.js:347-356 | a `ChildObjects` value with a comma holds exactly the trimmed parts that do not start with '*' |
| `DescribeLog.StepCases` | tasks/ant_sfdc.js:340-372 | after a line a record is pending iff the line splits into two parts on ':'; the output changes iff another line meets a pending record, which it gains under "types" |
| `DescribeLog.FieldStored` | tasks/ant_sfdc.js:364-365 | a field line stores its converted value under its trimmed property and leaves the other properties alone |
| `DescribeLog.RunEmits` | tasks/ant_sfdc.js:339-373 | the records under "types" are exactly the records of the runs of field lines that a non-field line closes |
| `DescribeLog.RunKeys` | tasks/ant_sfdc.js:366-371 | the loop adds only the key "types", and only when it emits a record; other types keep their records |
| `DescribeLog.ParseIsGroups` | tasks/ant_sfdc.js:335-373 | the describe JSON holds at most the key "types", present iff a record is emitted, with the records of the closed groups |
| `DescribeLog.TrailingFieldsDropped` | tasks/ant_sfdc.js:339-373 | field lines after the last non-field line never reach the output |
| `DescribeLog.ClosingLineEmits` | tasks/ant_sfdc.js:366-372 | a closing line after a record's fields files that record last |
| `ListLog.ClassifyLine` | tasks/ant_sfdc.js:436-465 | a line is a field exactly when it holds one colon; a `FileName` line carries its trimmed value; for the Name/Id properties a value with one '/' gives a name and an id that rejoin into it, and a value without '/' is all name with an undefined id |
| `ListLog.ApplyLine` | tasks/ant_sfdc.js:437-472 | the loop body fails exactly where the source dereferences a missing record, and otherwise yields the step specification's state |
| `ListLog.ParseListLog` | tasks/ant_sfdc.js:429-473 | the loop over the log's lines produces the list-parse specification: the JSON, or the line that throws |
| `ListLog.StepKeepsInv` | tasks/ant_sfdc.js:442-472 | every line that does not throw keeps the invariant (pending record opened by `FileName`, only the configured type as key, every filed record opened by `FileName`) |
| `ListLog.RunKeepsInv` | tasks/ant_sfdc.js:435-473 | the invariant holds at the end of every run that does not throw |
| `ListLog.ParseShape` | tasks/ant_sfdc.js:431-473 | the list JSON has no key but the configured type, every record starts with `FileName`, and under an empty type nothing is filed |
| `ListLog.RunThrowsAt` | tasks/ant_sfdc.js:449-465 | a run throws only at a field that needs a record |
| `ListLog.FieldBeforeFileNameThrows` | tasks/ant_sfdc.js:449-465 | a field needing a record before any `FileName` line makes the parse throw at that field |
| `ListLog.NameIdRoundTrip` | tasks/ant_sfdc.js:450-464 | a value with one '/' splits into a name and an id that rejoin into it; without '/' it is all name with an undefined id |
| `ListLog.ClosingLineFiles` | tasks/ant_sfdc.js:466-472 | a non-field line files the pending record under the type and clears it, unless the type is empty |

## Left out

- File-system and template glue is not modelled: task registration, option defaults, the temporary directories, `grunt.template.process`, and reading, writing and copying files. The log text is the parsers' input, and their JSON object is their output; `JSON.stringify` is not modelled, so neither is its omission of an undefined `Id`.
- `runAnt` is not modelled: it spawns an external `ant` process and streams its output asynchronously.
- `lib/metadata.json` is not part of this model; the registry is a parameter (its keys in order and an entry per key).
- Metadata.LookupMetadata: requires the singular entries that the plural aliases dereference to exist; a registry without them makes the source throw a `TypeError`, which is not modelled.
- PackageXml.BuildPackageXml: requires every key's lookup to be defined in the same sense as `Metadata.LookupMetadata`; `grunt.fail.fatal` is modelled as the returned failure rather than a process exit.
- `toLowerCase` maps only the ASCII letters; the Unicode case mapping of other characters is not modelled.
- `Object.keys` ordering of integer-like keys is not modelled: the package is an ordered sequence of keys with their members, and the registry comes with its key order.
- Property names that collide with `Object.prototype` (such as `constructor` or `__proto__`) are not modelled; records and the output object are plain maps and association lists.
- The shallow `clone` of a pushed record is modelled as a value copy. The pending record is discarded right after the push, so no aliasing is observable.
- Colouring with `.green` is not modelled, except that reading it on an undefined user throws; `grunt.log` and `grunt.fail.warn` are recorded as a message list, and execution continues after a warning as when it is stubbed.
- The call sites of `buildPackageXml` with two arguments (tasks/ant_sfdc.js:172, 222 and 225) are outside the model; the builder itself is modelled.
