/**
 * The view of a BPMN process definition that the version lineage logic works
 * with, through the document helper library: the definitions element's
 * identity and version information, the user-task file-name mapping, and the
 * remaining elements of the diagram. Parsing and XML serialisation are not
 * modelled: a `Document` value stands both for the XML text and for the object
 * parsed from it, and the two conversions are taken to be lossless.
 */
module Bpmn {

  datatype Option<+T> = None | Some(value: T)

  type Id = string

  /** The version fields stored on the definitions element. */
  datatype VersionInfo = VersionInfo(
    version: Option<int>,
    name: Option<string>,
    description: Option<string>,
    versionBasedOn: Option<int>)

  /** One user task as the file-name mapping reports it. */
  datatype UserTask = UserTask(id: Id, fileName: Option<string>, implementation: string)

  /** Any other diagram element: its semantic attributes and its layout. */
  datatype Element = Element(semantic: string, layout: string)

  /** A process definition. `userTasks` is in document order. */
  datatype Document = Document(
    definitionId: Option<Id>,
    info: VersionInfo,
    userTasks: seq<UserTask>,
    elements: map<Id, Element>)

  /**
   * Stands for the value of the helper library's user-task implementation
   * string for HTML forms; no proof depends on what it is.
   */
  const HtmlImplementation: string := "https://html.spec.whatwg.org/"

  /** JavaScript truthiness of an optional number: absent and 0 are falsy. */
  predicate IsTruthyNumber(n: Option<int>) {
    n.Some? && n.value != 0
  }

  /** JavaScript truthiness of an optional string: absent and "" are falsy. */
  predicate IsTruthyString(s: Option<string>) {
    s.Some? && s.value != ""
  }

  function DigitChar(d: nat): char
    requires d < 10
  {
    "0123456789"[d]
  }

  /** Decimal digits of a non-negative integer, as JavaScript prints it. */
  function NatToString(n: nat): string {
    if n < 10 then [DigitChar(n)] else NatToString(n / 10) + [DigitChar(n % 10)]
  }

  /**
   * The decimal rendering of an integer inside a JavaScript template string.
   * JavaScript switches to exponent notation from 1e21 on; timestamps stay far
   * below that, and the model does not follow the switch.
   */
  function IntToString(n: int): string {
    if n < 0 then "-" + NatToString(-n) else NatToString(n)
  }

  /** The version-scoped artifact name `${fileName}-${version}`. */
  function VersionedFileName(fileName: string, version: int): string {
    fileName + "-" + IntToString(version)
  }

  /**
   * `name.split('-')[0]`: the longest prefix of `name` without a '-', which is
   * either all of `name` or is followed in it by a '-'.
   */
  function UnversionedName(name: string): (r: string)
    ensures r <= name
    ensures '-' !in r
    ensures |r| < |name| ==> name[|r|] == '-'
  {
    if name == [] || name[0] == '-' then [] else [name[0]] + UnversionedName(name[1..])
  }

  /** Stripping undoes version-scoping exactly when the base name has no '-'. */
  lemma UnversionedNameOfVersionedFileName(fileName: string, version: int)
    ensures UnversionedName(VersionedFileName(fileName, version)) == fileName <==> '-' !in fileName
  {
    var s := VersionedFileName(fileName, version);
    var r := UnversionedName(s);
    assert s[|fileName|] == '-';
    assert r == s[..|r|];
    assert s[..|fileName|] == fileName;
    if '-' in fileName {
      assert r != fileName;
    }
  }

  /** Version-scoped names of the same version never collide for different bases. */
  lemma VersionedFileNameInjective(f: string, g: string, version: int)
    requires VersionedFileName(f, version) == VersionedFileName(g, version)
    ensures f == g
  {
    var s := VersionedFileName(f, version);
    assert |f| == |g|;
    assert f == s[..|f|];
    assert g == s[..|g|];
  }

  /** A version-scoped name is never empty, so it is always truthy. */
  lemma VersionedFileNameTruthy(f: string, version: int)
    ensures IsTruthyString(Some(VersionedFileName(f, version)))
  {
  }

  /**
   * The file-name mapping as a JavaScript object keyed by user-task id: a
   * later entry for the same id replaces an earlier one.
   */
  function TaskMap(tasks: seq<UserTask>): (m: map<Id, UserTask>)
    ensures forall id :: id in m ==> m[id].id == id
  {
    if tasks == [] then map[]
    else TaskMap(tasks[..|tasks| - 1])[tasks[|tasks| - 1].id := tasks[|tasks| - 1]]
  }

  /** BPMN element ids are unique within a document. */
  predicate DistinctIds(tasks: seq<UserTask>) {
    forall i, j :: 0 <= i < j < |tasks| ==> tasks[i].id != tasks[j].id
  }

  /** With unique ids, the mapping finds every user task under its own id. */
  lemma {:induction false} TaskMapAt(tasks: seq<UserTask>, j: nat)
    requires DistinctIds(tasks)
    requires j < |tasks|
    ensures tasks[j].id in TaskMap(tasks) && TaskMap(tasks)[tasks[j].id] == tasks[j]
  {
    var n := |tasks|;
    var init := tasks[..n - 1];
    assert TaskMap(tasks) == TaskMap(init)[tasks[n - 1].id := tasks[n - 1]];
    if j < n - 1 {
      assert init[j] == tasks[j];
      assert DistinctIds(init) by {
        forall a, b | 0 <= a < b < |init| ensures init[a].id != init[b].id {
          assert init[a] == tasks[a] && init[b] == tasks[b];
        }
      }
      TaskMapAt(init, j);
    }
  }

  /** The mapping's keys are exactly the ids of the tasks. */
  lemma {:induction false} TaskMapKeys(tasks: seq<UserTask>, id: Id)
    ensures id in TaskMap(tasks) <==> exists j :: 0 <= j < |tasks| && tasks[j].id == id
  {
    if tasks != [] {
      var n := |tasks|;
      var init := tasks[..n - 1];
      TaskMapKeys(init, id);
      if id in TaskMap(init) {
        var j :| 0 <= j < |init| && init[j].id == id;
        assert tasks[j].id == id;
      }
      if exists j :: 0 <= j < n && tasks[j].id == id {
        var j :| 0 <= j < n && tasks[j].id == id;
        if j < n - 1 {
          assert init[j].id == id;
        }
      }
    }
  }

  /** What the structural differ reports, keyed like its four result maps. */
  datatype ChangeKey = DefinitionsChange | TaskChange(id: Id) | ElementChange(id: Id)

  datatype Changes = Changes(
    added: set<ChangeKey>,
    removed: set<ChangeKey>,
    changed: set<ChangeKey>,
    layoutChanged: set<ChangeKey>)

  /**
   * The structural differ, run from document `a` to document `b`: nodes only in
   * `b` are added, nodes only in `a` removed, nodes in both whose semantics
   * differ changed, diagram elements in both whose layout differs
   * layout-changed; the definitions element counts as changed when its id or
   * its version information differ.
   */
  function Diff(a: Document, b: Document): (c: Changes)
    ensures c.added !! c.removed
    ensures DefinitionsChange !in c.added + c.removed + c.layoutChanged
  {
    var ta := TaskMap(a.userTasks);
    var tb := TaskMap(b.userTasks);
    Changes(
      added := (set id | id in tb && id !in ta :: TaskChange(id))
             + (set id | id in b.elements && id !in a.elements :: ElementChange(id)),
      removed := (set id | id in ta && id !in tb :: TaskChange(id))
               + (set id | id in a.elements && id !in b.elements :: ElementChange(id)),
      changed := (if a.definitionId != b.definitionId || a.info != b.info then {DefinitionsChange} else {})
               + (set id | id in ta && id in tb && ta[id] != tb[id] :: TaskChange(id))
               + (set id | id in a.elements && id in b.elements
                         && a.elements[id].semantic != b.elements[id].semantic :: ElementChange(id)),
      layoutChanged := set id | id in a.elements && id in b.elements
                              && a.elements[id].layout != b.elements[id].layout :: ElementChange(id))
  }

  predicate NoChanges(c: Changes) {
    c.added == {} && c.removed == {} && c.changed == {} && c.layoutChanged == {}
  }

  /** The differ reports nothing exactly when the two documents agree on every part it looks at. */
  lemma DiffEmptyIffSame(a: Document, b: Document)
    ensures NoChanges(Diff(a, b)) <==>
      && a.definitionId == b.definitionId
      && a.info == b.info
      && TaskMap(a.userTasks) == TaskMap(b.userTasks)
      && a.elements == b.elements
  {
    var ta := TaskMap(a.userTasks);
    var tb := TaskMap(b.userTasks);
    var c := Diff(a, b);
    if NoChanges(c) {
      assert DefinitionsChange !in c.changed;
      forall id | id in ta ensures id in tb && tb[id] == ta[id] {
        assert TaskChange(id) !in c.removed;
        assert TaskChange(id) !in c.changed;
      }
      forall id | id in tb ensures id in ta {
        assert TaskChange(id) !in c.added;
      }
      assert ta == tb;
      forall id | id in a.elements ensures id in b.elements && b.elements[id] == a.elements[id] {
        assert ElementChange(id) !in c.removed;
        assert ElementChange(id) !in c.changed;
        assert ElementChange(id) !in c.layoutChanged;
      }
      forall id | id in b.elements ensures id in a.elements {
        assert ElementChange(id) !in c.added;
      }
      assert a.elements == b.elements;
    }
  }

  /** The parsed, mutable form of a document that the helper functions change in place. */
  class BpmnObject {
    var definitionId: Option<Id>
    var info: VersionInfo
    var userTasks: seq<UserTask>
    var elements: map<Id, Element>

    /** `toBpmnObject` */
    constructor FromXml(bpmn: Document)
      ensures ToXml() == bpmn
    {
      definitionId := bpmn.definitionId;
      info := bpmn.info;
      userTasks := bpmn.userTasks;
      elements := bpmn.elements;
    }

    /** `toBpmnXml` */
    function ToXml(): Document
      reads this
    {
      Document(definitionId, info, userTasks, elements)
    }

    /** `setDefinitionsVersionInformation`: all four version fields take the given values. */
    method SetDefinitionsVersionInformation(newInfo: VersionInfo)
      modifies this
      ensures ToXml() == old(ToXml()).(info := newInfo)
    {
      info := newInfo;
    }

    /**
     * `setUserTaskData` for the user task at position `i` (ids are unique, so
     * the position identifies the task); an absent implementation keeps the
     * task's current one.
     */
    method SetUserTaskData(i: nat, fileName: string, implementation: Option<string>)
      requires i < |userTasks|
      modifies this
      ensures ToXml() == old(ToXml()).(userTasks := old(userTasks)[i := UserTask(
        old(userTasks)[i].id, Some(fileName),
        if implementation.Some? then implementation.value else old(userTasks)[i].implementation)])
    {
      var t := userTasks[i];
      userTasks := userTasks[i := UserTask(t.id, Some(fileName),
        if implementation.Some? then implementation.value else t.implementation)];
    }
  }
}
