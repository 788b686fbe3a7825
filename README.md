# Process version lineage — a Dafny model

This project models the process version lineage logic of the management
system (`src/management-system-v2/lib/helpers/processVersioning.ts`). It
covers six operations:

- deciding whether a newly stamped process version is the same as the version
  it is based on (`areVersionsEqual`);
- versioning the HTML forms of user tasks along with the process
  (`versionUserTasks`): each form either aliases the ancestor version's file or
  is stored under a new name `<fileName>-<version>`;
- creating a version (`createNewProcessVersion`): stamp, version the forms,
  short-circuit to the ancestor when nothing changed, otherwise post the
  version and move the process's lineage pointer (`updateProcessVersionBasedOn`);
- turning a stored version back into an editable draft together with its
  rename map (`convertToEditableBpmn`);
- the guarded lookup of a locally known ancestor (`getLocalVersionBpmn`).

Files:

- `bpmn.dfy` (module `Bpmn`) holds the document and what the code uses of it:
  - a `Document` value holds the definitions id, the four version fields, the
    user-task file-name mapping in document order, and the remaining diagram
    elements;
  - the structural differ is a function `Diff` giving four change sets;
  - the mutable parsed form is the class `BpmnObject`, with the two setters
    the code calls.
- `backend.dfy` (module `Backend`) is an in-memory backend, the class `Store`.
  It holds process records, stored version contents and user-task artifacts,
  together with one function per HTTP write it performs.
- `versioning.dfy` (module `ProcessVersioning`) is the core.
  - The operations that work step by step are methods over the `Store` and
    `BpmnObject` classes: `VersionUserTasks`, `ConvertToEditableBpmn`,
    `CreateNewProcessVersion` and `UpdateProcessVersionBasedOn`. Each is
    proved against a specification function: `Run`, `IsEditableDraftOf`,
    `NewVersionOutcome` and `UpdatedLineage`.
  - `AreVersionsEqual` and `LocalVersionBpmn` are functions.
  - Lemmas relate the specification functions to one another.

JavaScript truthiness is modelled explicitly:

- `IsTruthyNumber` is false when the number is absent or `0`;
- `IsTruthyString` is false when the string is absent or `""`.

The source's checks `versionBasedOn !== undefined` are `Some?`.

Where the code and its prose description differ, the model follows the code:

- The draft conversion cuts every non-empty file name at its first `-`,
  whatever the suffix is and whatever the task's implementation is.
  `UnversionedNameOfVersionedFileName` shows the cost: stripping undoes
  `<fileName>-<version>` exactly when the base name itself contains no `-`.
- The draft conversion only promises `versionBasedOn := version`. The draft's
  other version fields are left unspecified.
- Equality requires a truthy version on the ancestor, so an ancestor stamped
  `0` or not stamped never equals anything.
- It is not true that two calls in a row with the same content and the same
  `versionBasedOn` return the same identifier. The second call compares
  against the same old ancestor, sees the same difference and persists
  another version; `RepeatedCreationFromSameAncestorPersistsAgain` gives a
  concrete store where this happens. What the code does guarantee is
  `ReversioningShortCircuits`: when the repeated call is based on the version
  the first call created, it returns that version and changes nothing.
- The short-circuit does not undo the form artifacts stored before the
  equality test (`UnchangedDraftReturnsAncestor` keeps them in the resulting
  store). `ShortCircuitWritesNothing` shows that, when the draft's user-task
  ids are distinct, this can only leave something behind when a freshly
  minted name `<fileName>-<epochTime>` collides with a name the run reads.
  Without such a collision, a short-circuited draft had every form aliased, so
  nothing was written.
- Converting a version to a draft and creating a version from the unedited
  draft does not always return the original version. `DraftRoundTrip` proves
  it does under these conditions:
  - the task ids are distinct;
  - the version is stamped with a non-zero version that the process lists;
  - every task with a file name uses the HTML implementation;
  - no file name starts with `-`, so no stripped name is empty;
  - the slot under each stripped name holds the same HTML as the versioned
    slot.
  The result also relies on `setUserTaskData` keeping a task's implementation
  when none is given, as the conversion calls it. The HTML condition is
  needed: conversion strips the file name of every task that has one, but
  versioning skips tasks that do not use HTML. Such a task keeps its stripped
  name, the draft differs from the ancestor, and a new version is posted.
  `NonHtmlTaskBreaksDraftRoundTrip` gives a concrete store where this happens.

## Model

| member | source | states |
|---|---|---|
| `Bpmn.VersionedFileName` | src/management-system-v2/lib/helpers/processVersioning.ts:118 | the version-scoped name `${fileName}-${newVersion}`; what it guarantees is stated by the three `VersionedFileName` lemmas and `UnversionedNameOfVersionedFileName` |
| `Bpmn.TaskMap` | src/management-system-v2/lib/helpers/processVersioning.ts:129-132 | `getUserTaskFileNameMapping` as an object keyed by id: every entry is filed under its own id (a later task with the same id wins) |
| `Bpmn.Diff` | src/management-system-v2/lib/helpers/processVersioning.ts:39 | the differ: nothing is both added and removed, and the definitions element is never added, removed or layout-changed; `DiffEmptyIffSame` characterises when it reports nothing |
| `Bpmn.UnversionedName` | src/management-system-v2/lib/helpers/processVersioning.ts:67 | `split('-')[0]`: a prefix of the name that contains no `-` and is either the whole name or followed by a `-` |
| `Bpmn.UnversionedNameOfVersionedFileName` | src/management-system-v2/lib/helpers/processVersioning.ts:67 | stripping `<fileName>-<version>` gives back `fileName` if and only if `fileName` contains no `-` |
| `Bpmn.VersionedFileNameInjective` | src/management-system-v2/lib/helpers/processVersioning.ts:118 | the names `<f>-<v>` and `<g>-<v>` coincide only when `f == g` |
| `Bpmn.VersionedFileNameTruthy` | src/management-system-v2/lib/helpers/processVersioning.ts:118 | a version-scoped name is never empty |
| `Bpmn.TaskMapAt` | src/management-system-v2/lib/helpers/processVersioning.ts:129-132 | with unique ids, the file-name mapping finds each user task under its own id |
| `Bpmn.TaskMapKeys` | src/management-system-v2/lib/helpers/processVersioning.ts:129-132 | the mapping's keys are exactly the user-task ids |
| `Bpmn.DiffEmptyIffSame` | src/management-system-v2/lib/helpers/processVersioning.ts:39-46 | the four change sets are all empty if and only if the documents agree on identity, version information, user-task mapping and elements |
| `Bpmn.BpmnObject.FromXml` | src/management-system-v2/lib/helpers/processVersioning.ts:186 | parsing then serialising gives the document back |
| `Bpmn.BpmnObject.SetDefinitionsVersionInformation` | src/management-system-v2/lib/helpers/processVersioning.ts:207-212 | only the version fields change, to the given values |
| `Bpmn.BpmnObject.SetUserTaskData` | src/management-system-v2/lib/helpers/processVersioning.ts:157-162 | only the addressed task changes: new file name, the given implementation or the old one, same id |
| `Backend.Store.PutUserTask` | src/management-system-v2/lib/helpers/processVersioning.ts:166-175 | exactly the one artifact slot is overwritten with the body |
| `Backend.Store.PostVersion` | src/management-system-v2/lib/helpers/processVersioning.ts:229-233 | the document is filed under its stamped version and that version is listed on the process |
| `Backend.Store.PutProcess` | src/management-system-v2/lib/helpers/processVersioning.ts:255-258 | only the process's current bpmn is replaced, and only for a known process |
| `ProcessVersioning.AreVersionsEqual` | src/management-system-v2/lib/helpers/processVersioning.ts:18-50 | true if and only if the other document has a truthy version and the two agree on everything but version information; an unstamped other is never equal |
| `ProcessVersioning.StripVersionSuffix` | src/management-system-v2/lib/helpers/processVersioning.ts:66-69 | a task as the draft shows it: same id and implementation, a file name exactly when it had one, and that name is a `-`-free prefix of the old one |
| `ProcessVersioning.ConvertToEditableBpmn` | src/management-system-v2/lib/helpers/processVersioning.ts:52-74 | the draft is based on the input's version and keeps identity and elements; every task with a non-empty file name is re-pointed to the part before the first `-`, others are untouched; the rename map has exactly those file names as keys, each mapped to its stripped form |
| `ProcessVersioning.LocalVersionBpmn` | src/management-system-v2/lib/helpers/processVersioning.ts:76-91 | a result exactly when the version list exists and contains the version and its content is stored; the result is that stored content |
| `ProcessVersioning.Resolve` | src/management-system-v2/lib/helpers/processVersioning.ts:118-153 | aliased if and only if the ancestor has a file for the task holding the same HTML, and then the name is that file; otherwise the name is `<fileName>-<newVersion>` |
| `ProcessVersioning.Step` | src/management-system-v2/lib/helpers/processVersioning.ts:104-176 | one iteration: a task that is not versionable changes nothing; a versionable one keeps its id and gets the HTML implementation; a dry run or an aliased task stores nothing |
| `ProcessVersioning.Run` | src/management-system-v2/lib/helpers/processVersioning.ts:103-178 | the loop as a fold of `Step` over the mapping; it keeps the mapping's length, and `RunTasks` and the lemmas below characterise it |
| `ProcessVersioning.RunTasks` | src/management-system-v2/lib/helpers/processVersioning.ts:103-162 | a task without a file name or without the HTML implementation is untouched; a processed task points at its resolved name with the HTML implementation |
| `ProcessVersioning.RunDryRunWritesNothing` | src/management-system-v2/lib/helpers/processVersioning.ts:165 | a dry run writes no artifact |
| `ProcessVersioning.RunWritesOnlyMintedKeys` | src/management-system-v2/lib/helpers/processVersioning.ts:165-176 | every artifact slot other than the version-scoped names of versionable tasks is unchanged |
| `ProcessVersioning.RunWritesOnlyNewKeys` | src/management-system-v2/lib/helpers/processVersioning.ts:148-176 | with fresh version names, only the version-scoped names of tasks that are not aliased change; an aliased task stores nothing, even beside edited ones |
| `ProcessVersioning.RunResolvesOnInitialContent` | src/management-system-v2/lib/helpers/processVersioning.ts:107-153 | with fresh version names, each task's decision is the one taken on the store as it was before the loop |
| `ProcessVersioning.VersionedTasksUnderFreshNames` | src/management-system-v2/lib/helpers/processVersioning.ts:118-162 | with fresh version names, each versionable task ends at the ancestor's file when it holds the same HTML and at `<fileName>-<newVersion>` otherwise |
| `ProcessVersioning.RunPreservesTaskContent` | src/management-system-v2/lib/helpers/processVersioning.ts:148-176 | with fresh version names and no dry run, the file each task is re-pointed to holds exactly the HTML its old file held |
| `ProcessVersioning.RunAllAliased` | src/management-system-v2/lib/helpers/processVersioning.ts:165-176 | when every versionable task is aliased, nothing is stored |
| `ProcessVersioning.VersionUserTasks` | src/management-system-v2/lib/helpers/processVersioning.ts:93-179 | the document's tasks and the artifacts become those of `Run` over the mapping; process records and versions are unchanged |
| `ProcessVersioning.UpdatedLineage` | src/management-system-v2/lib/helpers/processVersioning.ts:241-260 | the process's bpmn keeps content, version, name and description and gets the new `versionBasedOn`; nothing else changes; no bpmn means no change |
| `ProcessVersioning.UpdateProcessVersionBasedOn` | src/management-system-v2/lib/helpers/processVersioning.ts:241-260 | the store ends as `UpdatedLineage` of the store before |
| `ProcessVersioning.StampedBpmn` | src/management-system-v2/lib/helpers/processVersioning.ts:203-212 | the stamped draft keeps its structure and tasks, has version `epochTime`, the given name and description, and keeps `versionBasedOn` |
| `ProcessVersioning.NewVersionOutcome` | src/management-system-v2/lib/helpers/processVersioning.ts:181-239 | fails with `IdentityMissing` if and only if the definitions id is not truthy, with `UnknownProcess` if and only if the process is unknown, and a failure changes nothing; a success returns the new timestamp or the draft's `versionBasedOn` |
| `ProcessVersioning.CreateNewProcessVersion` | src/management-system-v2/lib/helpers/processVersioning.ts:181-239 | the result and the final store are those of `NewVersionOutcome` on the store before |
| `ProcessVersioning.NewVersionIsPersisted` | src/management-system-v2/lib/helpers/processVersioning.ts:203-238 | when not equal to the ancestor: returns the timestamp; the stored version carries timestamp, name, description and the draft's `versionBasedOn`, is listed on the process, and becomes the process's `versionBasedOn` |
| `ProcessVersioning.UnchangedDraftReturnsAncestor` | src/management-system-v2/lib/helpers/processVersioning.ts:214-226 | when equal to the ancestor: returns `versionBasedOn`, no version posted, no lineage update, the artifacts the run stored remain |
| `ProcessVersioning.ReturnedVersionIsStored` | src/management-system-v2/lib/helpers/processVersioning.ts:219-238 | every returned identifier names a stored version with the structure of the versioned draft |
| `ProcessVersioning.NewVersionKeepsHistory` | src/management-system-v2/lib/helpers/processVersioning.ts:228-236 | no stored version changes except the new timestamp's slot of the draft's own process |
| `ProcessVersioning.ShortCircuitWritesNothing` | src/management-system-v2/lib/helpers/processVersioning.ts:214-226 | with distinct task ids and fresh version names, a short-circuited call leaves the store exactly as it was |
| `ProcessVersioning.DraftRoundTrip` | src/management-system-v2/lib/helpers/processVersioning.ts:52-74 | converting a stored version to a draft and creating a version from the unedited draft returns the original version and changes nothing, given: distinct task ids, a non-zero listed version, HTML implementation on every task with a file name, no file name starting with `-`, and forms under the stripped names that hold the versioned HTML |
| `ProcessVersioning.ReversioningShortCircuits` | src/management-system-v2/lib/helpers/processVersioning.ts:181-239 | after a version is persisted, creating one from the same content based on it returns that version and changes nothing |
| `ProcessVersioning.RepeatedCreationFromSameAncestorPersistsAgain` | src/management-system-v2/lib/helpers/processVersioning.ts:219-238 | a concrete store in which two calls with the same draft and ancestor persist two different versions |
| `ProcessVersioning.NonHtmlTaskBreaksDraftRoundTrip` | src/management-system-v2/lib/helpers/processVersioning.ts:65-69 | a concrete version with a non-HTML task named `f-5`: conversion strips it to `f`, versioning skips it, and creating a version from the draft persists a new version instead of returning 5 |

## Left out

- Parsing and XML serialisation by the BPMN helper library are not modelled.
  A `Document` stands for both the XML text and the parsed object, and the round
  trip between them is taken to be lossless.
- A serialised document is never the empty string here, so the truthiness test
  on the ancestor's text is reduced to "the ancestor was found".
- The differ library is modelled as a structural comparison. The definitions
  element counts as changed when its id or version fields differ, user tasks
  are compared by id, and other elements by semantics and by layout. Its
  internals are not modelled.
- The setter of version information is modelled as replacing all four fields
  with the given values. What the helper does with absent fields is not
  modelled. That is why the draft conversion states only `versionBasedOn`.
- `setUserTaskData` addresses a task by its id, which is unique in BPMN. The
  model addresses it by its position in the mapping. An absent implementation
  keeps the task's current one.
- The HTML implementation string comes from the helper library. It is a
  constant here; no proof depends on its value.
- HTTP, status codes, headers and `parseAs` are not modelled. Each `get`,
  `put` and `post` is a read or write of the `Store`. Backend failures are not
  modelled either.
- An artifact read of a missing file is `None`, and a `put` of that value stores
  `None`.
- The process's version list is modelled as the list of version numbers. The
  numeric coercion `+version` is not modelled.
- The clock reading `+new Date()` is the parameter `epochTime`. No claim is
  made that it is monotonic or free of collisions.
- `async`/`await` is modelled as sequential execution. Concurrent writers on
  the lineage pointer are not modelled.
- The React components and the user-preference store are not part of this
  model.
- ProcessVersioning.ConvertToEditableBpmn: the draft's `version`, `name` and
  `description` are not stated, because they depend on the helper's setter.
- ProcessVersioning.DraftRoundTrip: proved only under the conditions listed above;
  `NonHtmlTaskBreaksDraftRoundTrip` shows that the HTML condition cannot be dropped.
- ProcessVersioning.RunPreservesTaskContent: the content guarantee assumes fresh
  version names. When a minted name `<fileName>-<epochTime>` is also a name
  the run reads, later tasks can see earlier writes.
