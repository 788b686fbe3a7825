/**
 * The process version lineage logic: deciding whether a new version differs
 * from the one it is based on, versioning the HTML forms of user tasks
 * alongside the process, creating a version and moving the lineage pointer,
 * and turning a stored version back into an editable draft.
 */
module ProcessVersioning {
  import opened Bpmn
  import opened Backend

  datatype VersionError = IdentityMissing | UnknownProcess

  datatype Result<+T> = Ok(value: T) | Err(error: VersionError)

  // ---------------------------------------------------------------------------
  // areVersionsEqual
  // ---------------------------------------------------------------------------

  /** Two documents agree on everything except their version information. */
  predicate SameStructure(a: Document, b: Document) {
    && a.definitionId == b.definitionId
    && TaskMap(a.userTasks) == TaskMap(b.userTasks)
    && a.elements == b.elements
  }

  /**
   * `areVersionsEqual(bpmn, otherBpmn)`: only a stamped `otherBpmn` can be
   * equal; then `bpmn` gets `otherBpmn`'s version information and the two are
   * equal when the differ reports nothing.
   */
  function AreVersionsEqual(bpmn: Document, otherBpmn: Document): (r: bool)
    ensures r <==> IsTruthyNumber(otherBpmn.info.version) && SameStructure(bpmn, otherBpmn)
  {
    var other := otherBpmn.info;
    if IsTruthyNumber(other.version) then
      var stamped := bpmn.(info := VersionInfo(other.version, other.name, other.description, other.versionBasedOn));
      DiffEmptyIffSame(otherBpmn, stamped);
      NoChanges(Diff(otherBpmn, stamped))
    else
      false
  }

  // ---------------------------------------------------------------------------
  // convertToEditableBpmn
  // ---------------------------------------------------------------------------

  /** A user task as the draft shows it: a truthy file name cut at its first '-'. */
  function StripVersionSuffix(t: UserTask): (r: UserTask)
    ensures r.id == t.id && r.implementation == t.implementation
    ensures r.fileName.Some? <==> t.fileName.Some?
    ensures r.fileName.Some? ==> '-' !in r.fileName.value && r.fileName.value <= t.fileName.value
  {
    if IsTruthyString(t.fileName) then t.(fileName := Some(UnversionedName(t.fileName.value))) else t
  }

  /**
   * `draft` is an editable copy of `bpmn`: based on `bpmn`'s version, same
   * identity and elements, every user task stripped of its version suffix.
   * Nothing is said about the draft's other version fields.
   */
  predicate IsEditableDraftOf(draft: Document, bpmn: Document) {
    && draft.definitionId == bpmn.definitionId
    && draft.info.versionBasedOn == bpmn.info.version
    && draft.elements == bpmn.elements
    && |draft.userTasks| == |bpmn.userTasks|
    && forall i :: 0 <= i < |bpmn.userTasks| ==> draft.userTasks[i] == StripVersionSuffix(bpmn.userTasks[i])
  }

  /** The truthy file names among the first `n` user tasks. */
  function FileNamesUpTo(tasks: seq<UserTask>, n: nat): set<string>
    requires n <= |tasks|
  {
    set i | 0 <= i < n && IsTruthyString(tasks[i].fileName) :: tasks[i].fileName.value
  }

  /** The rename map has an entry for every truthy file name, mapping it to its stripped form. */
  predicate IsRenameMapOf(changedFileNames: map<string, string>, bpmn: Document) {
    && changedFileNames.Keys == FileNamesUpTo(bpmn.userTasks, |bpmn.userTasks|)
    && forall f :: f in changedFileNames ==> changedFileNames[f] == UnversionedName(f)
  }

  lemma FileNamesUpToNext(tasks: seq<UserTask>, n: nat)
    requires n < |tasks|
    ensures FileNamesUpTo(tasks, n + 1) ==
      FileNamesUpTo(tasks, n) + (if IsTruthyString(tasks[n].fileName) then {tasks[n].fileName.value} else {})
  {
  }

  /** `convertToEditableBpmn`: returns the draft and the map from old to new file names. */
  method ConvertToEditableBpmn(bpmn: Document) returns (draft: Document, changedFileNames: map<string, string>)
    ensures IsEditableDraftOf(draft, bpmn)
    ensures IsRenameMapOf(changedFileNames, bpmn)
  {
    var bpmnObj := new BpmnObject.FromXml(bpmn);
    var version := bpmnObj.info.version;
    bpmnObj.SetDefinitionsVersionInformation(VersionInfo(None, None, None, version));
    changedFileNames := map[];
    var fileNameMapping := bpmnObj.userTasks;
    var i := 0;
    while i < |fileNameMapping|
      invariant i <= |fileNameMapping|
      invariant bpmnObj.definitionId == bpmn.definitionId && bpmnObj.elements == bpmn.elements
      invariant bpmnObj.info.versionBasedOn == bpmn.info.version
      invariant |bpmnObj.userTasks| == |fileNameMapping|
      invariant forall j :: 0 <= j < i ==> bpmnObj.userTasks[j] == StripVersionSuffix(fileNameMapping[j])
      invariant forall j :: i <= j < |fileNameMapping| ==> bpmnObj.userTasks[j] == fileNameMapping[j]
      invariant changedFileNames.Keys == FileNamesUpTo(fileNameMapping, i)
      invariant forall f :: f in changedFileNames ==> changedFileNames[f] == UnversionedName(f)
    {
      FileNamesUpToNext(fileNameMapping, i);
      ghost var before := bpmnObj.userTasks;
      var fileName := fileNameMapping[i].fileName;
      if IsTruthyString(fileName) {
        var unversionedName := UnversionedName(fileName.value);
        changedFileNames := changedFileNames[fileName.value := unversionedName];
        bpmnObj.SetUserTaskData(i, unversionedName, None);
      }
      assert bpmnObj.userTasks == before[i := StripVersionSuffix(fileNameMapping[i])];
      i := i + 1;
    }
    draft := bpmnObj.ToXml();
  }

  // ---------------------------------------------------------------------------
  // getLocalVersionBpmn
  // ---------------------------------------------------------------------------

  /**
   * `getLocalVersionBpmn`: the stored content of `localVersion` when the
   * process lists it among its versions, and nothing otherwise.
   */
  function LocalVersionBpmn(versions: map<Id, map<int, Document>>, process: ProcessRecord, localVersion: int): (r: Option<Document>)
    ensures r.Some? <==>
      && process.versions.Some?
      && localVersion in process.versions.value
      && VersionContent(versions, process.definitionId, localVersion).Some?
    ensures r.Some? ==> r == VersionContent(versions, process.definitionId, localVersion)
  {
    if process.versions.None? || |process.versions.value| == 0 then None
    else if exists i :: 0 <= i < |process.versions.value| && process.versions.value[i] == localVersion then
      VersionContent(versions, process.definitionId, localVersion)
    else None
  }

  // ---------------------------------------------------------------------------
  // versionUserTasks
  // ---------------------------------------------------------------------------

  /** What one run of `versionUserTasks` works with. */
  datatype Context = Context(
    definitionId: Id,               // the process whose artifacts are read and written
    newVersion: int,
    basedOn: Option<Document>,      // the ancestor version, when it is locally known
    dryRun: bool)

  /** Only user tasks with a file name and the HTML implementation are versioned. */
  predicate Versionable(t: UserTask) {
    IsTruthyString(t.fileName) && t.implementation == HtmlImplementation
  }

  /** Where the task's current HTML is stored. */
  function CurrentKey(ctx: Context, t: UserTask): ArtifactKey
    requires t.fileName.Some?
  {
    ArtifactKey(ctx.definitionId, t.fileName.value)
  }

  /** The file name the same user task has in the ancestor version, when it has one. */
  function AncestorFileName(basedOn: Option<Document>, id: Id): Option<string> {
    if basedOn.None? then None
    else
      var mapping := TaskMap(basedOn.value.userTasks);
      if id in mapping && IsTruthyString(mapping[id].fileName) then mapping[id].fileName else None
  }

  datatype Resolution = Resolution(fileName: string, aliased: bool)

  /**
   * The file name a versioned task ends up with: the ancestor's file when that
   * file holds exactly the task's current HTML (then nothing new is stored),
   * otherwise the version-scoped name.
   */
  function Resolve(ctx: Context, t: UserTask, artifacts: map<ArtifactKey, Option<string>>): (r: Resolution)
    requires Versionable(t)
    ensures r.aliased <==>
      && AncestorFileName(ctx.basedOn, t.id).Some?
      && Lookup(artifacts, ArtifactKey(ctx.definitionId, AncestorFileName(ctx.basedOn, t.id).value))
         == Lookup(artifacts, CurrentKey(ctx, t))
    ensures r.aliased ==> AncestorFileName(ctx.basedOn, t.id) == Some(r.fileName)
    ensures !r.aliased ==> r.fileName == VersionedFileName(t.fileName.value, ctx.newVersion)
  {
    var userTaskHtml := Lookup(artifacts, CurrentKey(ctx, t));
    var ancestor := AncestorFileName(ctx.basedOn, t.id);
    if ancestor.Some? && Lookup(artifacts, ArtifactKey(ctx.definitionId, ancestor.value)) == userTaskHtml
    then Resolution(ancestor.value, true)
    else Resolution(VersionedFileName(t.fileName.value, ctx.newVersion), false)
  }

  /** The document's user tasks and the artifact store, part-way through the loop. */
  datatype Progress = Progress(userTasks: seq<UserTask>, artifacts: map<ArtifactKey, Option<string>>)

  /** One iteration of the loop, for the task `t` at position `i`. */
  function Step(ctx: Context, p: Progress, i: nat, t: UserTask): (r: Progress)
    requires i < |p.userTasks|
    ensures |r.userTasks| == |p.userTasks|
    ensures !Versionable(t) ==> r == p
    ensures Versionable(t) ==> r.userTasks[i].id == t.id && r.userTasks[i].implementation == HtmlImplementation
    ensures ctx.dryRun || (Versionable(t) && Resolve(ctx, t, p.artifacts).aliased) ==> r.artifacts == p.artifacts
  {
    if !Versionable(t) then p
    else
      var userTaskHtml := Lookup(p.artifacts, CurrentKey(ctx, t));
      var res := Resolve(ctx, t, p.artifacts);
      Progress(
        p.userTasks[i := UserTask(t.id, Some(res.fileName), HtmlImplementation)],
        if !ctx.dryRun && !res.aliased
        then p.artifacts[ArtifactKey(ctx.definitionId, res.fileName) := userTaskHtml]
        else p.artifacts)
  }

  /** The first `n` iterations of the loop over the file-name mapping `mapping`. */
  function Run(ctx: Context, mapping: seq<UserTask>, n: nat, artifacts: map<ArtifactKey, Option<string>>): (p: Progress)
    requires n <= |mapping|
    ensures |p.userTasks| == |mapping|
  {
    if n == 0 then Progress(mapping, artifacts)
    else Step(ctx, Run(ctx, mapping, n - 1, artifacts), n - 1, mapping[n - 1])
  }

  /** The artifact slots a run may create: the version-scoped names of its versioned tasks. */
  function MintedKeys(ctx: Context, mapping: seq<UserTask>): set<ArtifactKey> {
    set j | 0 <= j < |mapping| && Versionable(mapping[j])
      :: ArtifactKey(ctx.definitionId, VersionedFileName(mapping[j].fileName.value, ctx.newVersion))
  }

  /** The artifact slots a run reads: the current and the ancestor file of its versioned tasks. */
  function ReadKeys(ctx: Context, mapping: seq<UserTask>): set<ArtifactKey> {
    (set j | 0 <= j < |mapping| && Versionable(mapping[j]) :: CurrentKey(ctx, mapping[j]))
    + (set j | 0 <= j < |mapping| && Versionable(mapping[j]) && AncestorFileName(ctx.basedOn, mapping[j].id).Some?
         :: ArtifactKey(ctx.definitionId, AncestorFileName(ctx.basedOn, mapping[j].id).value))
  }

  /**
   * No slot the run reads is one it may create: the new version's timestamp
   * does not already occur as a version suffix among the names involved.
   */
  predicate FreshVersionNames(ctx: Context, mapping: seq<UserTask>) {
    MintedKeys(ctx, mapping) !! ReadKeys(ctx, mapping)
  }

  /** A dry run resolves names but stores nothing. */
  lemma {:induction false} RunDryRunWritesNothing(ctx: Context, mapping: seq<UserTask>, n: nat, artifacts: map<ArtifactKey, Option<string>>)
    requires n <= |mapping|
    requires ctx.dryRun
    ensures Run(ctx, mapping, n, artifacts).artifacts == artifacts
  {
    if n > 0 {
      RunDryRunWritesNothing(ctx, mapping, n - 1, artifacts);
    }
  }

  /**
   * After `n` iterations, a task not yet reached or not versionable is exactly
   * as it was; a versionable task already reached points, with the HTML
   * implementation, at the name resolved against the store as it was when its
   * turn came.
   */
  lemma {:induction false} RunTasks(ctx: Context, mapping: seq<UserTask>, n: nat, artifacts: map<ArtifactKey, Option<string>>, j: nat)
    requires n <= |mapping| && j < |mapping|
    ensures Run(ctx, mapping, n, artifacts).userTasks[j] ==
      if j < n && Versionable(mapping[j])
      then UserTask(mapping[j].id, Some(Resolve(ctx, mapping[j], Run(ctx, mapping, j, artifacts).artifacts).fileName), HtmlImplementation)
      else mapping[j]
  {
    if n > 0 {
      RunTasks(ctx, mapping, n - 1, artifacts, j);
    }
  }

  /** Every slot outside the version-scoped names of the versioned tasks is left as it was. */
  lemma {:induction false} RunWritesOnlyMintedKeys(ctx: Context, mapping: seq<UserTask>, n: nat, artifacts: map<ArtifactKey, Option<string>>)
    requires n <= |mapping|
    ensures Run(ctx, mapping, n, artifacts).artifacts - MintedKeys(ctx, mapping) == artifacts - MintedKeys(ctx, mapping)
  {
    if n > 0 {
      RunWritesOnlyMintedKeys(ctx, mapping, n - 1, artifacts);
      var p := Run(ctx, mapping, n - 1, artifacts);
      var t := mapping[n - 1];
      if Versionable(t) {
        var res := Resolve(ctx, t, p.artifacts);
        if !ctx.dryRun && !res.aliased {
          var minted := MintedKeys(ctx, mapping);
          var k := ArtifactKey(ctx.definitionId, res.fileName);
          assert k in minted;
          var html := Lookup(p.artifacts, CurrentKey(ctx, t));
          assert p.artifacts[k := html] - minted == p.artifacts - minted;
        }
      }
    }
  }

  /** The slots a run stores to: the version-scoped names of the tasks that are not aliased on the initial store. */
  function NewKeys(ctx: Context, mapping: seq<UserTask>, artifacts: map<ArtifactKey, Option<string>>): set<ArtifactKey> {
    set j | 0 <= j < |mapping| && Versionable(mapping[j]) && !Resolve(ctx, mapping[j], artifacts).aliased
      :: ArtifactKey(ctx.definitionId, VersionedFileName(mapping[j].fileName.value, ctx.newVersion))
  }

  /**
   * Aliased tasks store nothing: with fresh version names, a run changes no
   * slot except the version-scoped names of the tasks it does not alias.
   */
  lemma {:induction false} RunWritesOnlyNewKeys(ctx: Context, mapping: seq<UserTask>, n: nat, artifacts: map<ArtifactKey, Option<string>>)
    requires n <= |mapping|
    requires FreshVersionNames(ctx, mapping)
    ensures Run(ctx, mapping, n, artifacts).artifacts - NewKeys(ctx, mapping, artifacts)
         == artifacts - NewKeys(ctx, mapping, artifacts)
  {
    if n > 0 {
      RunWritesOnlyNewKeys(ctx, mapping, n - 1, artifacts);
      var p := Run(ctx, mapping, n - 1, artifacts);
      var t := mapping[n - 1];
      if Versionable(t) && !ctx.dryRun && !Resolve(ctx, t, p.artifacts).aliased {
        RunResolvesOnInitialContent(ctx, mapping, artifacts, n - 1);
        var keys := NewKeys(ctx, mapping, artifacts);
        var k := ArtifactKey(ctx.definitionId, Resolve(ctx, t, p.artifacts).fileName);
        assert k in keys;
        var html := Lookup(p.artifacts, CurrentKey(ctx, t));
        assert p.artifacts[k := html] - keys == p.artifacts - keys;
      }
    }
  }

  lemma LookupOutside(a: map<ArtifactKey, Option<string>>, b: map<ArtifactKey, Option<string>>, except: set<ArtifactKey>, k: ArtifactKey)
    requires a - except == b - except
    requires k !in except
    ensures Lookup(a, k) == Lookup(b, k)
  {
    assert (k in a) == (k in a - except);
    assert (k in b) == (k in b - except);
    if k in a {
      assert a[k] == (a - except)[k];
      assert b[k] == (b - except)[k];
    }
  }

  /** With fresh version names, every task's decision depends only on the store as it was before the loop. */
  lemma RunResolvesOnInitialContent(ctx: Context, mapping: seq<UserTask>, artifacts: map<ArtifactKey, Option<string>>, j: nat)
    requires j < |mapping| && Versionable(mapping[j])
    requires FreshVersionNames(ctx, mapping)
    ensures Resolve(ctx, mapping[j], Run(ctx, mapping, j, artifacts).artifacts) == Resolve(ctx, mapping[j], artifacts)
  {
    var t := mapping[j];
    var now := Run(ctx, mapping, j, artifacts).artifacts;
    var minted := MintedKeys(ctx, mapping);
    RunWritesOnlyMintedKeys(ctx, mapping, j, artifacts);
    assert CurrentKey(ctx, t) in ReadKeys(ctx, mapping);
    LookupOutside(now, artifacts, minted, CurrentKey(ctx, t));
    var ancestor := AncestorFileName(ctx.basedOn, t.id);
    if ancestor.Some? {
      var k := ArtifactKey(ctx.definitionId, ancestor.value);
      assert k in ReadKeys(ctx, mapping);
      LookupOutside(now, artifacts, minted, k);
    }
  }

  /**
   * Alias versus new key: with fresh version names, each versionable task ends
   * up at the ancestor's file when that file holds the task's current HTML and
   * at `<fileName>-<newVersion>` otherwise; every other task is untouched.
   */
  lemma VersionedTasksUnderFreshNames(ctx: Context, mapping: seq<UserTask>, artifacts: map<ArtifactKey, Option<string>>, j: nat)
    requires j < |mapping|
    requires FreshVersionNames(ctx, mapping)
    ensures Run(ctx, mapping, |mapping|, artifacts).userTasks[j] ==
      if Versionable(mapping[j])
      then UserTask(mapping[j].id, Some(Resolve(ctx, mapping[j], artifacts).fileName), HtmlImplementation)
      else mapping[j]
  {
    RunTasks(ctx, mapping, |mapping|, artifacts, j);
    if Versionable(mapping[j]) {
      RunResolvesOnInitialContent(ctx, mapping, artifacts, j);
    }
  }

  /** The task's file name exists and the store serves `content` under it. */
  predicate Serves(ctx: Context, artifacts: map<ArtifactKey, Option<string>>, t: UserTask, content: Option<string>) {
    t.fileName.Some? && Lookup(artifacts, CurrentKey(ctx, t)) == content
  }

  /**
   * Versioning never changes what a task shows: with fresh version names and
   * no dry run, the file each versioned task is re-pointed to holds exactly
   * the HTML its old file held, whether it was aliased or newly stored.
   */
  lemma {:induction false} RunPreservesTaskContent(ctx: Context, mapping: seq<UserTask>, n: nat, artifacts: map<ArtifactKey, Option<string>>, j: nat)
    requires j < n <= |mapping| && Versionable(mapping[j])
    requires !ctx.dryRun && FreshVersionNames(ctx, mapping)
    ensures Serves(ctx, Run(ctx, mapping, n, artifacts).artifacts, Run(ctx, mapping, n, artifacts).userTasks[j],
                   Lookup(artifacts, CurrentKey(ctx, mapping[j])))
  {
    var minted := MintedKeys(ctx, mapping);
    var p := Run(ctx, mapping, n - 1, artifacts);
    var q := Run(ctx, mapping, n, artifacts);
    var t := mapping[n - 1];
    if !Versionable(t) {
      RunPreservesTaskContent(ctx, mapping, n - 1, artifacts, j);
      return;
    }
    RunWritesOnlyMintedKeys(ctx, mapping, n - 1, artifacts);
    // the HTML read for `t` is the HTML stored before the loop
    assert CurrentKey(ctx, t) in ReadKeys(ctx, mapping);
    LookupOutside(p.artifacts, artifacts, minted, CurrentKey(ctx, t));
    var html := Lookup(p.artifacts, CurrentKey(ctx, t));
    var res := Resolve(ctx, t, p.artifacts);
    var written := ArtifactKey(ctx.definitionId, res.fileName);
    assert q.artifacts == if !res.aliased then p.artifacts[written := html] else p.artifacts;
    if j == n - 1 {
      RunTasks(ctx, mapping, n, artifacts, j);
      assert q.userTasks[j].fileName == Some(res.fileName);
    } else {
      RunPreservesTaskContent(ctx, mapping, n - 1, artifacts, j);
      assert q.userTasks[j] == p.userTasks[j];
      RunTasks(ctx, mapping, n - 1, artifacts, j);
      var resJ := Resolve(ctx, mapping[j], Run(ctx, mapping, j, artifacts).artifacts);
      var key := ArtifactKey(ctx.definitionId, resJ.fileName);
      assert CurrentKey(ctx, p.userTasks[j]) == key;
      if !res.aliased {
        assert written in minted;
        if resJ.aliased {
          assert key in ReadKeys(ctx, mapping);
          assert key != written;
        } else if key == written {
          VersionedFileNameInjective(mapping[j].fileName.value, t.fileName.value, ctx.newVersion);
          assert CurrentKey(ctx, mapping[j]) == CurrentKey(ctx, t);
        }
      }
    }
  }

  /** When every versionable task is aliased, the loop stores nothing. */
  lemma {:induction false} RunAllAliased(ctx: Context, mapping: seq<UserTask>, n: nat, artifacts: map<ArtifactKey, Option<string>>)
    requires n <= |mapping|
    requires forall j :: 0 <= j < |mapping| && Versionable(mapping[j]) ==> Resolve(ctx, mapping[j], artifacts).aliased
    ensures Run(ctx, mapping, n, artifacts).artifacts == artifacts
  {
    if n > 0 {
      RunAllAliased(ctx, mapping, n - 1, artifacts);
    }
  }

  /** The context `versionUserTasks` builds from the process, the stamp and the draft's ancestor. */
  function VersioningContext(versions: map<Id, map<int, Document>>, processInfo: ProcessRecord, newVersion: int,
                             versionBasedOn: Option<int>, dryRun: bool): Context
  {
    Context(processInfo.definitionId, newVersion,
            if versionBasedOn.Some? then LocalVersionBpmn(versions, processInfo, versionBasedOn.value) else None,
            dryRun)
  }

  /**
   * `versionUserTasks`: re-points every versionable user task of `bpmnObj` and
   * stores the HTML that is not aliased, as `Run` describes.
   */
  method VersionUserTasks(store: Store, processInfo: ProcessRecord, newVersion: int, bpmnObj: BpmnObject, dryRun: bool)
    modifies store, bpmnObj
    ensures store.processes == old(store.processes) && store.versions == old(store.versions)
    ensures var p := Run(VersioningContext(old(store.versions), processInfo, newVersion, old(bpmnObj.info.versionBasedOn), dryRun),
                         old(bpmnObj.userTasks), |old(bpmnObj.userTasks)|, old(store.artifacts));
      && bpmnObj.ToXml() == old(bpmnObj.ToXml()).(userTasks := p.userTasks)
      && store.artifacts == p.artifacts
  {
    var htmlMapping := bpmnObj.userTasks;
    var versionBasedOn := bpmnObj.info.versionBasedOn;
    ghost var ctx := VersioningContext(store.versions, processInfo, newVersion, versionBasedOn, dryRun);
    ghost var artifacts0 := store.artifacts;
    var i := 0;
    while i < |htmlMapping|
      invariant i <= |htmlMapping|
      invariant store.processes == old(store.processes) && store.versions == old(store.versions)
      invariant bpmnObj.ToXml() == old(bpmnObj.ToXml()).(userTasks := Run(ctx, htmlMapping, i, artifacts0).userTasks)
      invariant store.artifacts == Run(ctx, htmlMapping, i, artifacts0).artifacts
    {
      RunTasks(ctx, htmlMapping, i, artifacts0, i);
      var userTaskId := htmlMapping[i].id;
      var fileName := htmlMapping[i].fileName;
      var implementation := htmlMapping[i].implementation;
      if IsTruthyString(fileName) && implementation == HtmlImplementation {
        var userTaskHtml := store.GetUserTask(processInfo.definitionId, fileName.value);
        var versionFileName := VersionedFileName(fileName.value, newVersion);
        var basedOnBpmn := if versionBasedOn.Some? then LocalVersionBpmn(store.versions, processInfo, versionBasedOn.value) else None;
        var userTaskHtmlAlreadyExisting := false;
        if basedOnBpmn.Some? {
          var basedOnVersionHtmlMapping := TaskMap(basedOnBpmn.value.userTasks);
          if userTaskId in basedOnVersionHtmlMapping && IsTruthyString(basedOnVersionHtmlMapping[userTaskId].fileName) {
            var basedOnFileName := basedOnVersionHtmlMapping[userTaskId].fileName.value;
            var basedOnVersionUserTaskHtml := store.GetUserTask(processInfo.definitionId, basedOnFileName);
            if basedOnVersionUserTaskHtml == userTaskHtml {
              userTaskHtmlAlreadyExisting := true;
              versionFileName := basedOnFileName;
            }
          }
        }
        bpmnObj.SetUserTaskData(i, versionFileName, Some(HtmlImplementation));
        if !dryRun && !userTaskHtmlAlreadyExisting {
          store.PutUserTask(processInfo.definitionId, versionFileName, userTaskHtml);
        }
      }
      i := i + 1;
    }
  }

  // ---------------------------------------------------------------------------
  // updateProcessVersionBasedOn
  // ---------------------------------------------------------------------------

  /**
   * The lineage update: the process's current bpmn, when it has one, keeps its
   * version, name, description and content and gets `versionBasedOn`; nothing
   * else in the store changes.
   */
  function UpdatedLineage(s: StoreState, definitionId: Id, versionBasedOn: int): (r: StoreState)
    ensures r.versions == s.versions && r.artifacts == s.artifacts
    ensures r.processes.Keys == s.processes.Keys
    ensures forall id :: id in s.processes && id != definitionId ==> r.processes[id] == s.processes[id]
    ensures definitionId in s.processes && s.processes[definitionId].bpmn.Some? ==>
      var before := s.processes[definitionId];
      var after := r.processes[definitionId];
      && after.definitionId == before.definitionId
      && after.versions == before.versions
      && after.bpmn.Some?
      && after.bpmn.value == before.bpmn.value.(info := after.bpmn.value.info)
      && after.bpmn.value.info.version == before.bpmn.value.info.version
      && after.bpmn.value.info.name == before.bpmn.value.info.name
      && after.bpmn.value.info.description == before.bpmn.value.info.description
      && after.bpmn.value.info.versionBasedOn == Some(versionBasedOn)
    ensures !(definitionId in s.processes && s.processes[definitionId].bpmn.Some?) ==> r == s
  {
    if definitionId in s.processes && s.processes[definitionId].bpmn.Some? then
      var bpmn := s.processes[definitionId].bpmn.value;
      var info := bpmn.info;
      WithProcessBpmn(s, definitionId,
        bpmn.(info := VersionInfo(info.version, info.name, info.description, Some(versionBasedOn))))
    else
      s
  }

  /** `updateProcessVersionBasedOn` */
  method UpdateProcessVersionBasedOn(store: Store, processDefinitionsId: Id, versionBasedOn: int)
    modifies store
    ensures store.State() == UpdatedLineage(old(store.State()), processDefinitionsId, versionBasedOn)
  {
    var processInfo := store.GetProcess(processDefinitionsId);
    if processInfo.Some? && processInfo.value.bpmn.Some? {
      var bpmn := processInfo.value.bpmn.value;
      var info := bpmn.info;
      var updated := bpmn.(info := VersionInfo(info.version, info.name, info.description, Some(versionBasedOn)));
      store.PutProcess(processDefinitionsId, updated);
    }
  }

  // ---------------------------------------------------------------------------
  // createNewProcessVersion
  // ---------------------------------------------------------------------------

  /** What a call returns and the store it leaves behind. */
  datatype Outcome = Outcome(result: Result<int>, state: StoreState)

  /** The draft stamped with the new version; it keeps the draft's `versionBasedOn`. */
  function StampedBpmn(bpmn: Document, versionName: string, versionDescription: string, epochTime: int): (r: Document)
    ensures SameStructure(r, bpmn) && r.userTasks == bpmn.userTasks
    ensures r.info.version == Some(epochTime) && r.info.versionBasedOn == bpmn.info.versionBasedOn
    ensures r.info.name == Some(versionName) && r.info.description == Some(versionDescription)
  {
    bpmn.(info := VersionInfo(Some(epochTime), Some(versionName), Some(versionDescription), bpmn.info.versionBasedOn))
  }

  function CreationContext(s: StoreState, processInfo: ProcessRecord, bpmn: Document, epochTime: int): Context {
    VersioningContext(s.versions, processInfo, epochTime, bpmn.info.versionBasedOn, false)
  }

  /** The run of `versionUserTasks` inside `createNewProcessVersion`. */
  function CreationRun(s: StoreState, processInfo: ProcessRecord, bpmn: Document, epochTime: int): Progress {
    Run(CreationContext(s, processInfo, bpmn, epochTime), bpmn.userTasks, |bpmn.userTasks|, s.artifacts)
  }

  /** The document a new version would be posted as. */
  function VersionedBpmn(s: StoreState, processInfo: ProcessRecord, bpmn: Document, versionName: string,
                         versionDescription: string, epochTime: int): Document
  {
    StampedBpmn(bpmn, versionName, versionDescription, epochTime)
      .(userTasks := CreationRun(s, processInfo, bpmn, epochTime).userTasks)
  }

  /** The ancestor is locally known and the versioned draft equals it. */
  predicate UnchangedSinceAncestor(ctx: Context, versioned: Document) {
    ctx.basedOn.Some? && AreVersionsEqual(versioned, ctx.basedOn.value)
  }

  /** The specification of `createNewProcessVersion`, as a function of the store before the call. */
  function NewVersionOutcome(s: StoreState, bpmn: Document, versionName: string, versionDescription: string, epochTime: int): (o: Outcome)
    ensures o.result.Err? ==> o.state == s
    ensures o.result == Err(IdentityMissing) <==> !IsTruthyString(bpmn.definitionId)
    ensures o.result == Err(UnknownProcess) <==> IsTruthyString(bpmn.definitionId) && bpmn.definitionId.value !in s.processes
    ensures o.result.Ok? ==> o.result.value == epochTime || bpmn.info.versionBasedOn == Some(o.result.value)
  {
    if !IsTruthyString(bpmn.definitionId) then Outcome(Err(IdentityMissing), s)
    else
      var definitionId := bpmn.definitionId.value;
      if definitionId !in s.processes then Outcome(Err(UnknownProcess), s)
      else
        var processInfo := s.processes[definitionId];
        var ctx := CreationContext(s, processInfo, bpmn, epochTime);
        var versioned := VersionedBpmn(s, processInfo, bpmn, versionName, versionDescription, epochTime);
        var afterTasks := s.(artifacts := CreationRun(s, processInfo, bpmn, epochTime).artifacts);
        if UnchangedSinceAncestor(ctx, versioned) then
          Outcome(Ok(bpmn.info.versionBasedOn.value), afterTasks)
        else
          Outcome(Ok(epochTime), UpdatedLineage(WithPostedVersion(afterTasks, definitionId, versioned), definitionId, epochTime))
  }

  /** `createNewProcessVersion`, with the clock reading passed in as `epochTime`. */
  method CreateNewProcessVersion(store: Store, bpmn: Document, versionName: string, versionDescription: string, epochTime: int)
    returns (r: Result<int>)
    modifies store
    ensures Outcome(r, store.State()) == NewVersionOutcome(old(store.State()), bpmn, versionName, versionDescription, epochTime)
  {
    var bpmnObj := new BpmnObject.FromXml(bpmn);
    var definitionId := bpmnObj.definitionId;
    if !IsTruthyString(definitionId) {
      return Err(IdentityMissing);
    }
    var processInfo := store.GetProcess(definitionId.value);
    if processInfo.None? {
      return Err(UnknownProcess);
    }
    var versionBasedOn := bpmnObj.info.versionBasedOn;
    bpmnObj.SetDefinitionsVersionInformation(VersionInfo(Some(epochTime), Some(versionName), Some(versionDescription), versionBasedOn));
    VersionUserTasks(store, processInfo.value, epochTime, bpmnObj, false);
    var versionedBpmn := bpmnObj.ToXml();
    var basedOnBpmn := if versionBasedOn.Some? then LocalVersionBpmn(store.versions, processInfo.value, versionBasedOn.value) else None;
    if basedOnBpmn.Some? && AreVersionsEqual(versionedBpmn, basedOnBpmn.value) {
      return Ok(versionBasedOn.value);
    }
    store.PostVersion(definitionId.value, versionedBpmn);
    UpdateProcessVersionBasedOn(store, definitionId.value, epochTime);
    return Ok(epochTime);
  }

  // ---------------------------------------------------------------------------
  // Properties of version creation
  // ---------------------------------------------------------------------------

  /** Every process record is filed under its own definition id. */
  predicate RecordsFiledById(s: StoreState) {
    forall id :: id in s.processes ==> s.processes[id].definitionId == id
  }

  /**
   * When the versioned draft is not the ancestor, the call returns the new
   * timestamp; the stored version carries that timestamp, the given name and
   * description and the draft's `versionBasedOn`, it is listed on the process,
   * the process's current bpmn is now based on it, and the artifacts are those
   * the user-task run left.
   */
  lemma NewVersionIsPersisted(s: StoreState, bpmn: Document, versionName: string, versionDescription: string, epochTime: int)
    requires IsTruthyString(bpmn.definitionId) && bpmn.definitionId.value in s.processes
    requires var processInfo := s.processes[bpmn.definitionId.value];
      !UnchangedSinceAncestor(CreationContext(s, processInfo, bpmn, epochTime),
                              VersionedBpmn(s, processInfo, bpmn, versionName, versionDescription, epochTime))
    ensures var o := NewVersionOutcome(s, bpmn, versionName, versionDescription, epochTime);
      var id := bpmn.definitionId.value;
      var before := s.processes[id];
      var stored := VersionContent(o.state.versions, id, epochTime);
      && o.result == Ok(epochTime)
      && stored.Some?
      && stored.value.info == VersionInfo(Some(epochTime), Some(versionName), Some(versionDescription), bpmn.info.versionBasedOn)
      && stored.value.definitionId == bpmn.definitionId
      && stored.value.elements == bpmn.elements
      && o.state.processes[id].versions == Some(if before.versions.Some? then before.versions.value + [epochTime] else [epochTime])
      && (before.bpmn.Some? ==> o.state.processes[id].bpmn.value.info.versionBasedOn == Some(epochTime))
      && o.state.artifacts == CreationRun(s, before, bpmn, epochTime).artifacts
  {
  }

  /**
   * When the versioned draft equals its known ancestor, the call returns the
   * ancestor's version and neither posts a version nor moves the lineage
   * pointer; only the artifacts the user-task run stored remain.
   */
  lemma UnchangedDraftReturnsAncestor(s: StoreState, bpmn: Document, versionName: string, versionDescription: string, epochTime: int)
    requires IsTruthyString(bpmn.definitionId) && bpmn.definitionId.value in s.processes
    requires var processInfo := s.processes[bpmn.definitionId.value];
      UnchangedSinceAncestor(CreationContext(s, processInfo, bpmn, epochTime),
                             VersionedBpmn(s, processInfo, bpmn, versionName, versionDescription, epochTime))
    ensures var o := NewVersionOutcome(s, bpmn, versionName, versionDescription, epochTime);
      && bpmn.info.versionBasedOn.Some?
      && o.result == Ok(bpmn.info.versionBasedOn.value)
      && o.state.processes == s.processes
      && o.state.versions == s.versions
      && o.state.artifacts == CreationRun(s, s.processes[bpmn.definitionId.value], bpmn, epochTime).artifacts
  {
  }

  /**
   * Whatever identifier a successful call returns names a version that is
   * stored for the process afterwards and whose structure is that of the
   * versioned draft: the new version itself, or the unchanged ancestor.
   */
  lemma ReturnedVersionIsStored(s: StoreState, bpmn: Document, versionName: string, versionDescription: string, epochTime: int)
    requires RecordsFiledById(s)
    ensures var o := NewVersionOutcome(s, bpmn, versionName, versionDescription, epochTime);
      o.result.Ok? ==>
        var definitionId := bpmn.definitionId.value;
        var stored := VersionContent(o.state.versions, definitionId, o.result.value);
        && stored.Some?
        && SameStructure(VersionedBpmn(s, s.processes[definitionId], bpmn, versionName, versionDescription, epochTime), stored.value)
  {
  }

  /**
   * Version history is immutable: a call changes no stored version except the
   * slot of the new timestamp for the draft's own process.
   */
  lemma NewVersionKeepsHistory(s: StoreState, bpmn: Document, versionName: string, versionDescription: string, epochTime: int,
                               definitionId: Id, version: int)
    requires !(bpmn.definitionId == Some(definitionId) && version == epochTime)
    ensures VersionContent(NewVersionOutcome(s, bpmn, versionName, versionDescription, epochTime).state.versions, definitionId, version)
         == VersionContent(s.versions, definitionId, version)
  {
  }

  /**
   * The short-circuit leaves nothing behind when version names are fresh: if
   * the versioned draft equals its ancestor, every versionable task was
   * aliased, so no artifact was written either and the store is untouched.
   */
  lemma ShortCircuitWritesNothing(s: StoreState, bpmn: Document, versionName: string, versionDescription: string, epochTime: int)
    requires IsTruthyString(bpmn.definitionId) && bpmn.definitionId.value in s.processes
    requires DistinctIds(bpmn.userTasks)
    requires var processInfo := s.processes[bpmn.definitionId.value];
      var ctx := CreationContext(s, processInfo, bpmn, epochTime);
      && FreshVersionNames(ctx, bpmn.userTasks)
      && UnchangedSinceAncestor(ctx, VersionedBpmn(s, processInfo, bpmn, versionName, versionDescription, epochTime))
    ensures NewVersionOutcome(s, bpmn, versionName, versionDescription, epochTime) == Outcome(Ok(bpmn.info.versionBasedOn.value), s)
  {
    var processInfo := s.processes[bpmn.definitionId.value];
    var ctx := CreationContext(s, processInfo, bpmn, epochTime);
    var mapping := bpmn.userTasks;
    var versioned := VersionedBpmn(s, processInfo, bpmn, versionName, versionDescription, epochTime);
    var final := Run(ctx, mapping, |mapping|, s.artifacts).userTasks;
    var ancestorTasks := TaskMap(ctx.basedOn.value.userTasks);
    assert TaskMap(final) == ancestorTasks;
    forall j | 0 <= j < |final| ensures final[j].id == mapping[j].id {
      VersionedTasksUnderFreshNames(ctx, mapping, s.artifacts, j);
    }
    assert DistinctIds(final);
    forall j | 0 <= j < |mapping| && Versionable(mapping[j]) ensures Resolve(ctx, mapping[j], s.artifacts).aliased {
      var t := mapping[j];
      var res := Resolve(ctx, t, s.artifacts);
      VersionedTasksUnderFreshNames(ctx, mapping, s.artifacts, j);
      TaskMapAt(final, j);
      assert ancestorTasks[t.id] == UserTask(t.id, Some(res.fileName), HtmlImplementation);
      VersionedFileNameTruthy(t.fileName.value, ctx.newVersion);
      // the ancestor's file is the resolved name, so it is a slot the run reads ...
      assert IsTruthyString(Some(res.fileName));
      assert AncestorFileName(ctx.basedOn, t.id) == Some(res.fileName);
      var read := ArtifactKey(ctx.definitionId, res.fileName);
      assert read in ReadKeys(ctx, mapping);
      // ... and so not the slot the run would mint for this task
      var minted := ArtifactKey(ctx.definitionId, VersionedFileName(t.fileName.value, ctx.newVersion));
      assert minted in MintedKeys(ctx, mapping);
      assert read != minted;
    }
    RunAllAliased(ctx, mapping, |mapping|, s.artifacts);
  }

  /**
   * A user task of a stored version is ready for a round trip when it uses
   * the HTML implementation, its stripped name is not empty, and the draft
   * slot under the stripped name holds the same HTML as the versioned slot
   * (which is what copying along the rename map achieves).
   */
  predicate ReadyForDraft(artifacts: map<ArtifactKey, Option<string>>, definitionId: Id, t: UserTask)
    requires IsTruthyString(t.fileName)
  {
    && t.implementation == HtmlImplementation
    && UnversionedName(t.fileName.value) != ""
    && Lookup(artifacts, ArtifactKey(definitionId, UnversionedName(t.fileName.value)))
       == Lookup(artifacts, ArtifactKey(definitionId, t.fileName.value))
  }

  /**
   * Round trip of draft conversion: turning stored version `v` into a draft
   * and creating a version from the unedited draft returns `v` and leaves the
   * store exactly as it was.
   */
  lemma DraftRoundTrip(s: StoreState, version: Document, v: int, draft: Document,
                       versionName: string, versionDescription: string, epochTime: int)
    requires IsTruthyString(version.definitionId)
    requires var id := version.definitionId.value;
      && id in s.processes
      && s.processes[id].definitionId == id
      && s.processes[id].versions.Some? && v in s.processes[id].versions.value
      && VersionContent(s.versions, id, v) == Some(version)
    requires version.info.version == Some(v) && v != 0
    requires DistinctIds(version.userTasks)
    requires forall j :: 0 <= j < |version.userTasks| && IsTruthyString(version.userTasks[j].fileName) ==>
      ReadyForDraft(s.artifacts, version.definitionId.value, version.userTasks[j])
    requires IsEditableDraftOf(draft, version)
    ensures NewVersionOutcome(s, draft, versionName, versionDescription, epochTime) == Outcome(Ok(v), s)
  {
    var id := version.definitionId.value;
    var processInfo := s.processes[id];
    var ctx := CreationContext(s, processInfo, draft, epochTime);
    assert ctx.basedOn == Some(version);
    var mapping := draft.userTasks;
    var tasks := version.userTasks;
    forall j | 0 <= j < |mapping| && Versionable(mapping[j]) ensures Resolve(ctx, mapping[j], s.artifacts) == Resolution(tasks[j].fileName.value, true) {
      assert mapping[j] == StripVersionSuffix(tasks[j]);
      assert IsTruthyString(tasks[j].fileName);
      assert ReadyForDraft(s.artifacts, id, tasks[j]);
      TaskMapAt(tasks, j);
      assert AncestorFileName(ctx.basedOn, mapping[j].id) == tasks[j].fileName;
    }
    RunAllAliased(ctx, mapping, |mapping|, s.artifacts);
    var final := Run(ctx, mapping, |mapping|, s.artifacts).userTasks;
    forall j | 0 <= j < |mapping| ensures final[j] == tasks[j] {
      RunTasks(ctx, mapping, |mapping|, s.artifacts, j);
      RunAllAliased(ctx, mapping, j, s.artifacts);
      assert mapping[j] == StripVersionSuffix(tasks[j]);
      if IsTruthyString(tasks[j].fileName) {
        assert ReadyForDraft(s.artifacts, id, tasks[j]);
        assert Versionable(mapping[j]);
      }
    }
    assert final == tasks;
    var versioned := VersionedBpmn(s, processInfo, draft, versionName, versionDescription, epochTime);
    assert SameStructure(versioned, version);
  }

  /**
   * Re-versioning is idempotent through the lineage: after a call has
   * persisted version `t1` from `bpmn`, creating a version from the same
   * content based on `t1` short-circuits back to `t1` and changes nothing,
   * because each user task finds its HTML already stored under the name `t1`
   * gave it.
   */
  lemma ReversioningShortCircuits(s: StoreState, bpmn: Document, versionName: string, versionDescription: string, t1: int,
                                  nextName: string, nextDescription: string, t2: int)
    requires IsTruthyString(bpmn.definitionId) && bpmn.definitionId.value in s.processes
    requires s.processes[bpmn.definitionId.value].definitionId == bpmn.definitionId.value
    requires DistinctIds(bpmn.userTasks)
    requires t1 != 0
    requires var processInfo := s.processes[bpmn.definitionId.value];
      var ctx := CreationContext(s, processInfo, bpmn, t1);
      && FreshVersionNames(ctx, bpmn.userTasks)
      && !UnchangedSinceAncestor(ctx, VersionedBpmn(s, processInfo, bpmn, versionName, versionDescription, t1))
    ensures var o1 := NewVersionOutcome(s, bpmn, versionName, versionDescription, t1);
      && o1.result == Ok(t1)
      && NewVersionOutcome(o1.state, bpmn.(info := bpmn.info.(versionBasedOn := Some(t1))), nextName, nextDescription, t2)
         == Outcome(Ok(t1), o1.state)
  {
    var id := bpmn.definitionId.value;
    var processInfo := s.processes[id];
    var mapping := bpmn.userTasks;
    var ctx1 := CreationContext(s, processInfo, bpmn, t1);
    var versioned1 := VersionedBpmn(s, processInfo, bpmn, versionName, versionDescription, t1);
    var final1 := versioned1.userTasks;
    var afterTasks := s.(artifacts := CreationRun(s, processInfo, bpmn, t1).artifacts);
    var posted := WithPostedVersion(afterTasks, id, versioned1);
    assert versioned1.info.version == Some(t1);
    assert VersionContent(posted.versions, id, t1) == Some(versioned1);
    var s1 := NewVersionOutcome(s, bpmn, versionName, versionDescription, t1).state;
    assert s1 == UpdatedLineage(posted, id, t1);
    var p1 := s1.processes[id];
    assert p1.definitionId == id && p1.versions.Some? && t1 in p1.versions.value;
    var draft2 := bpmn.(info := bpmn.info.(versionBasedOn := Some(t1)));
    var ctx2 := CreationContext(s1, p1, draft2, t2);
    assert ctx2.basedOn == Some(versioned1);
    assert s1.artifacts == Run(ctx1, mapping, |mapping|, s.artifacts).artifacts;
    RunWritesOnlyMintedKeys(ctx1, mapping, |mapping|, s.artifacts);

    forall j | 0 <= j < |final1| ensures final1[j].id == mapping[j].id {
      VersionedTasksUnderFreshNames(ctx1, mapping, s.artifacts, j);
    }
    assert DistinctIds(final1);

    // every versionable task finds its HTML under the name the first run gave it
    forall j | 0 <= j < |mapping| && Versionable(mapping[j])
      ensures Resolve(ctx2, mapping[j], s1.artifacts).aliased
      ensures Some(Resolve(ctx2, mapping[j], s1.artifacts).fileName) == final1[j].fileName
    {
      var t := mapping[j];
      var res := Resolve(ctx1, t, s.artifacts);
      VersionedTasksUnderFreshNames(ctx1, mapping, s.artifacts, j);
      VersionedFileNameTruthy(t.fileName.value, ctx1.newVersion);
      assert IsTruthyString(Some(res.fileName));
      TaskMapAt(final1, j);
      assert AncestorFileName(ctx2.basedOn, t.id) == Some(res.fileName);
      RunPreservesTaskContent(ctx1, mapping, |mapping|, s.artifacts, j);
      assert CurrentKey(ctx1, t) in ReadKeys(ctx1, mapping);
      LookupOutside(s1.artifacts, s.artifacts, MintedKeys(ctx1, mapping), CurrentKey(ctx1, t));
    }
    RunAllAliased(ctx2, mapping, |mapping|, s1.artifacts);

    // so the second run re-points every task exactly as the first did
    var final2 := Run(ctx2, mapping, |mapping|, s1.artifacts).userTasks;
    forall j | 0 <= j < |mapping| ensures final2[j] == final1[j] {
      RunTasks(ctx2, mapping, |mapping|, s1.artifacts, j);
      RunAllAliased(ctx2, mapping, j, s1.artifacts);
      VersionedTasksUnderFreshNames(ctx1, mapping, s.artifacts, j);
    }
    assert final2 == final1;
    var versioned2 := VersionedBpmn(s1, p1, draft2, nextName, nextDescription, t2);
    assert SameStructure(versioned2, versioned1);
  }

  /**
   * Re-versioning with the same ancestor is not idempotent: the second call
   * compares against the old ancestor again and persists another version.
   */
  lemma RepeatedCreationFromSameAncestorPersistsAgain()
    ensures var ancestor := Document(Some("p"), VersionInfo(Some(1), None, None, None), [], map["e" := Element("a", "l")]);
      var draft := Document(Some("p"), VersionInfo(None, None, None, Some(1)), [], map["e" := Element("b", "l")]);
      var s := StoreState(map["p" := ProcessRecord("p", Some([1]), None)], map["p" := map[1 := ancestor]], map[]);
      var o1 := NewVersionOutcome(s, draft, "n", "d", 2);
      var o2 := NewVersionOutcome(o1.state, draft, "n", "d", 3);
      o1.result == Ok(2) && o2.result == Ok(3)
  {
    var ancestor := Document(Some("p"), VersionInfo(Some(1), None, None, None), [], map["e" := Element("a", "l")]);
    var draft := Document(Some("p"), VersionInfo(None, None, None, Some(1)), [], map["e" := Element("b", "l")]);
    assert Element("a", "l") != Element("b", "l");
    assert draft.elements != ancestor.elements by {
      assert draft.elements["e"] != ancestor.elements["e"];
    }
  }

  /**
   * The draft round trip fails for a task with a file name that does not use
   * the HTML implementation: conversion strips its name, but versioning skips
   * the task, so the draft differs from its ancestor and a new version is
   * persisted.
   */
  lemma NonHtmlTaskBreaksDraftRoundTrip()
    ensures var version := Document(Some("p"), VersionInfo(Some(5), None, None, None), [UserTask("u", Some("f-5"), "other")], map[]);
      var draft := Document(Some("p"), VersionInfo(None, None, None, Some(5)), [UserTask("u", Some("f"), "other")], map[]);
      var s := StoreState(map["p" := ProcessRecord("p", Some([5]), None)], map["p" := map[5 := version]], map[]);
      && IsEditableDraftOf(draft, version)
      && NewVersionOutcome(s, draft, "n", "d", 7).result == Ok(7)
  {
    var version := Document(Some("p"), VersionInfo(Some(5), None, None, None), [UserTask("u", Some("f-5"), "other")], map[]);
    var draft := Document(Some("p"), VersionInfo(None, None, None, Some(5)), [UserTask("u", Some("f"), "other")], map[]);
    assert UnversionedName("f-5") == "f" by {
      assert UnversionedName("-5") == [];
      assert "f-5"[1..] == "-5";
    }
    assert TaskMap(draft.userTasks)["u"] != TaskMap(version.userTasks)["u"] by {
      assert "f" != "f-5";
    }
  }
}
