/** The backend's `BugAssignmentApiResponse`: the envelope returned for bug
    assignment queries, and the null-safe projection of a `BugAssignment`
    entity onto the `BugAssignmentDTO` it carries. */
module BugAssignmentResponse {
  import opened Wrappers

  /** Java's `int`. */
  newtype int32 = x: int | -0x8000_0000 <= x < 0x8000_0000

  /** What the projection reads of a user: `getName()`. */
  datatype Person = Person(name: Option<string>)

  /** What the projection reads of a bug: `getId()`. */
  datatype BugRef = BugRef(id: Option<int>)

  /** A `BugAssignment` entity as the projection sees it; `None` is `null`,
      and `assignedAt` is kept as its text. */
  datatype BugAssignment = BugAssignment(
    id: Option<int>,
    tester: Option<Person>,
    developer: Option<Person>,
    bug: Option<BugRef>,
    assignedAt: Option<string>)

  datatype BugAssignmentDTO = BugAssignmentDTO(
    id: Option<int>,
    testerName: Option<string>,
    developerName: Option<string>,
    bugId: Option<int>,
    assignedAt: Option<string>)

  /** `mapToDTO`: each reference that is null yields a null field, each one
      present yields the value read from it, and the id and time are copied. */
  function MapToDTO(a: BugAssignment): (d: BugAssignmentDTO)
    ensures d.id == a.id && d.assignedAt == a.assignedAt
    ensures a.tester.None? ==> d.testerName.None?
    ensures a.tester.Some? ==> d.testerName == a.tester.value.name
    ensures a.developer.None? ==> d.developerName.None?
    ensures a.developer.Some? ==> d.developerName == a.developer.value.name
    ensures a.bug.None? ==> d.bugId.None?
    ensures a.bug.Some? ==> d.bugId == a.bug.value.id
  {
    BugAssignmentDTO(
      a.id,
      if a.tester.Some? then a.tester.value.name else None,
      if a.developer.Some? then a.developer.value.name else None,
      if a.bug.Some? then a.bug.value.id else None,
      a.assignedAt)
  }

  /** When every referenced user has a name and every referenced bug an id, a
      null field in the DTO means exactly that the reference was null. */
  lemma NullFieldIffNullReference(a: BugAssignment)
    requires a.tester.Some? ==> a.tester.value.name.Some?
    requires a.developer.Some? ==> a.developer.value.name.Some?
    requires a.bug.Some? ==> a.bug.value.id.Some?
    ensures MapToDTO(a).testerName.None? <==> a.tester.None?
    ensures MapToDTO(a).developerName.None? <==> a.developer.None?
    ensures MapToDTO(a).bugId.None? <==> a.bug.None?
  {
  }

  /** `bugAssignments.stream().map(this::mapToDTO).collect(Collectors.toList())` */
  function ProjectAll(assignments: seq<BugAssignment>): (r: seq<BugAssignmentDTO>)
    ensures |r| == |assignments|
    ensures forall i :: 0 <= i < |assignments| ==> r[i] == MapToDTO(assignments[i])
    decreases |assignments|
  {
    if |assignments| == 0 then []
    else [MapToDTO(assignments[0])] + ProjectAll(assignments[1..])
  }

  /** The projection works element by element: projecting a concatenation
      concatenates the projections. */
  lemma ProjectAllAppend(a: seq<BugAssignment>, b: seq<BugAssignment>)
    ensures ProjectAll(a + b) == ProjectAll(a) + ProjectAll(b)
  {
    var l, r := ProjectAll(a + b), ProjectAll(a) + ProjectAll(b);
    forall i | 0 <= i < |a| + |b| ensures l[i] == r[i] {
      if i < |a| {
        assert (a + b)[i] == a[i];
      } else {
        assert (a + b)[i] == b[i - |a|];
      }
    }
  }

  /** The ids in the projected list are the assignments' ids, in order. */
  lemma ProjectAllKeepsIds(assignments: seq<BugAssignment>, i: nat)
    requires i < |assignments|
    ensures ProjectAll(assignments)[i].id == assignments[i].id
  {
  }

  const FetchedStatus: int32 := 200
  const FetchedMessage := "Bug assignments fetched successfully"
  const FetchedPath := "/api/bugs/test/{id}"

  /** The response envelope; `None` is `null`. `now` stands for the clock
      reading `LocalDateTime.now().toString()`. */
  class BugAssignmentApiResponse {
    var timestamp: Option<string>
    var status: int32
    var message: Option<string>
    var path: Option<string>
    var bugAssignmentDTO: Option<BugAssignmentDTO>
    var bugAssignmentDTOList: Option<seq<BugAssignmentDTO>>

    /** The single-assignment constructor: the list stays null. */
    constructor WithDTO(now: string, status: int32, message: Option<string>, path: Option<string>,
                        dto: Option<BugAssignmentDTO>)
      ensures timestamp == Some(now) && this.status == status && this.message == message && this.path == path
      ensures bugAssignmentDTO == dto && bugAssignmentDTOList == None
    {
      timestamp := Some(now);
      this.status, this.message, this.path := status, message, path;
      bugAssignmentDTO := dto;
      bugAssignmentDTOList := None;
    }

    /** The list constructor: the single DTO stays null. */
    constructor WithDTOList(now: string, status: int32, message: Option<string>, path: Option<string>,
                            list: Option<seq<BugAssignmentDTO>>)
      ensures timestamp == Some(now) && this.status == status && this.message == message && this.path == path
      ensures bugAssignmentDTO == None && bugAssignmentDTOList == list
    {
      timestamp := Some(now);
      this.status, this.message, this.path := status, message, path;
      bugAssignmentDTO := None;
      bugAssignmentDTOList := list;
    }

    /** The constructor from entities: a fixed 200 envelope whose list is
        each assignment projected, in order. */
    constructor FromAssignments(now: string, assignments: seq<BugAssignment>)
      ensures timestamp == Some(now) && status == FetchedStatus
      ensures message == Some(FetchedMessage) && path == Some(FetchedPath)
      ensures bugAssignmentDTO == None
      ensures bugAssignmentDTOList.Some? && |bugAssignmentDTOList.value| == |assignments|
      ensures forall i :: 0 <= i < |assignments| ==> bugAssignmentDTOList.value[i] == MapToDTO(assignments[i])
    {
      timestamp := Some(now);
      status := FetchedStatus;
      message := Some(FetchedMessage);
      path := Some(FetchedPath);
      bugAssignmentDTO := None;
      bugAssignmentDTOList := Some(ProjectAll(assignments));
    }

    method SetTimestamp(timestamp: Option<string>)
      modifies this
      ensures this.timestamp == timestamp
      ensures status == old(status) && message == old(message) && path == old(path)
      ensures bugAssignmentDTO == old(bugAssignmentDTO) && bugAssignmentDTOList == old(bugAssignmentDTOList)
    {
      this.timestamp := timestamp;
    }

    method SetStatus(status: int32)
      modifies this
      ensures this.status == status
      ensures timestamp == old(timestamp) && message == old(message) && path == old(path)
      ensures bugAssignmentDTO == old(bugAssignmentDTO) && bugAssignmentDTOList == old(bugAssignmentDTOList)
    {
      this.status := status;
    }

    method SetMessage(message: Option<string>)
      modifies this
      ensures this.message == message
      ensures timestamp == old(timestamp) && status == old(status) && path == old(path)
      ensures bugAssignmentDTO == old(bugAssignmentDTO) && bugAssignmentDTOList == old(bugAssignmentDTOList)
    {
      this.message := message;
    }

    method SetPath(path: Option<string>)
      modifies this
      ensures this.path == path
      ensures timestamp == old(timestamp) && status == old(status) && message == old(message)
      ensures bugAssignmentDTO == old(bugAssignmentDTO) && bugAssignmentDTOList == old(bugAssignmentDTOList)
    {
      this.path := path;
    }

    method SetBugAssignmentDTO(dto: Option<BugAssignmentDTO>)
      modifies this
      ensures bugAssignmentDTO == dto
      ensures timestamp == old(timestamp) && status == old(status) && message == old(message)
      ensures path == old(path) && bugAssignmentDTOList == old(bugAssignmentDTOList)
    {
      bugAssignmentDTO := dto;
    }

    method SetBugAssignmentDTOList(list: Option<seq<BugAssignmentDTO>>)
      modifies this
      ensures bugAssignmentDTOList == list
      ensures timestamp == old(timestamp) && status == old(status) && message == old(message)
      ensures path == old(path) && bugAssignmentDTO == old(bugAssignmentDTO)
    {
      bugAssignmentDTOList := list;
    }
  }
}
