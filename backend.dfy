/**
 * An in-memory stand-in for the management system's backend, reached in the
 * source through HTTP `get`, `put` and `post`: process records, the stored
 * content of each process version, and the user-task artifacts (HTML form
 * files) of each process.
 */
module Backend {
  import opened Bpmn

  /** A user-task artifact is stored per process under its file name. */
  datatype ArtifactKey = ArtifactKey(definitionId: Id, fileName: string)

  /** What `GET /process/{definitionId}` returns. */
  datatype ProcessRecord = ProcessRecord(
    definitionId: Id,
    versions: Option<seq<int>>,
    bpmn: Option<Document>)

  /**
   * The whole backend as a value. An artifact slot holds `None` when it was
   * written without a body (the source writes whatever it read, which may be
   * `undefined`).
   */
  datatype StoreState = StoreState(
    processes: map<Id, ProcessRecord>,
    versions: map<Id, map<int, Document>>,
    artifacts: map<ArtifactKey, Option<string>>)

  /** Reading an artifact: `undefined` for a missing slot. */
  function Lookup(artifacts: map<ArtifactKey, Option<string>>, key: ArtifactKey): Option<string> {
    if key in artifacts then artifacts[key] else None
  }

  /** `GET /process/{definitionId}/versions/{version}` */
  function VersionContent(versions: map<Id, map<int, Document>>, definitionId: Id, version: int): Option<Document> {
    if definitionId in versions && version in versions[definitionId]
    then Some(versions[definitionId][version]) else None
  }

  /** `PUT /process/{definitionId}/user-tasks/{fileName}` */
  function WithArtifact(s: StoreState, key: ArtifactKey, body: Option<string>): StoreState {
    s.(artifacts := s.artifacts[key := body])
  }

  /**
   * `POST /process/{definitionId}/versions`: the backend files the document
   * under the version stamped in it and lists that version on the process.
   */
  function WithPostedVersion(s: StoreState, definitionId: Id, bpmn: Document): StoreState {
    match bpmn.info.version
    case None => s
    case Some(v) =>
      var known := if definitionId in s.versions then s.versions[definitionId] else map[];
      var processes :=
        if definitionId in s.processes then
          var rec := s.processes[definitionId];
          s.processes[definitionId := rec.(versions := Some(if rec.versions.Some? then rec.versions.value + [v] else [v]))]
        else s.processes;
      StoreState(processes, s.versions[definitionId := known[v := bpmn]], s.artifacts)
  }

  /** `PUT /process/{definitionId}` with a new current bpmn. */
  function WithProcessBpmn(s: StoreState, definitionId: Id, bpmn: Document): StoreState {
    if definitionId in s.processes
    then s.(processes := s.processes[definitionId := s.processes[definitionId].(bpmn := Some(bpmn))])
    else s
  }

  class Store {
    var processes: map<Id, ProcessRecord>
    var versions: map<Id, map<int, Document>>
    var artifacts: map<ArtifactKey, Option<string>>

    constructor (initial: StoreState)
      ensures State() == initial
    {
      processes := initial.processes;
      versions := initial.versions;
      artifacts := initial.artifacts;
    }

    function State(): StoreState
      reads this
    {
      StoreState(processes, versions, artifacts)
    }

    /** `GET /process/{definitionId}` */
    function GetProcess(definitionId: Id): Option<ProcessRecord>
      reads this
    {
      if definitionId in processes then Some(processes[definitionId]) else None
    }

    /** `GET /process/{definitionId}/user-tasks/{fileName}` */
    function GetUserTask(definitionId: Id, fileName: string): Option<string>
      reads this
    {
      Lookup(artifacts, ArtifactKey(definitionId, fileName))
    }

    method PutUserTask(definitionId: Id, fileName: string, body: Option<string>)
      modifies this
      ensures State() == WithArtifact(old(State()), ArtifactKey(definitionId, fileName), body)
    {
      artifacts := artifacts[ArtifactKey(definitionId, fileName) := body];
    }

    method PostVersion(definitionId: Id, bpmn: Document)
      modifies this
      ensures State() == WithPostedVersion(old(State()), definitionId, bpmn)
    {
      var s := WithPostedVersion(State(), definitionId, bpmn);
      processes, versions, artifacts := s.processes, s.versions, s.artifacts;
    }

    method PutProcess(definitionId: Id, bpmn: Document)
      modifies this
      ensures State() == WithProcessBpmn(old(State()), definitionId, bpmn)
    {
      if definitionId in processes {
        processes := processes[definitionId := processes[definitionId].(bpmn := Some(bpmn))];
      }
    }
  }
}
