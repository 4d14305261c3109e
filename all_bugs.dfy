/** The bug list page of the client (`AllBugs`): the client-side filter over
    the fetched bugs, the filter form, the per-row editing state, and the
    update and delete handlers with their row-merge and row-removal.

    Network calls are not modelled: each request's outcome is a parameter of
    the event that delivers it, and each timer callback is an event of its own. */
module AllBugs {
  import opened Wrappers
  import opened JsBuiltins

  type BugId = int

  /** The JSON values a bug's `assignedTo` can arrive as. JavaScript's `===`
      on these is structural equality here: a number never equals a string. */
  datatype JsValue = JsNull | JsString(s: string) | JsNumber(n: int)

  /** A bug record as held in the page state. */
  datatype Bug = Bug(
    id: BugId,
    description: string,
    priority: string,
    status: string,
    assignedTo: JsValue,
    reportedBy: JsValue,
    dateReported: string,
    isDeleted: bool)

  /** The four filter inputs; the empty string means "no constraint". */
  datatype Filters = Filters(priority: string, status: string, assignedTo: string, dateReported: string)

  /** The `name` attribute of each filter input. */
  datatype FilterKey = Priority | Status | AssignedTo | DateReported

  /** The filters every mount of the page starts with. */
  const InitialFilters := Filters("", "", "", "")

  /** The current value of one filter input. */
  function Get(f: Filters, key: FilterKey): string
  {
    match key
    case Priority => f.priority
    case Status => f.status
    case AssignedTo => f.assignedTo
    case DateReported => f.dateReported
  }

  /** `{ ...filters, [name]: value }` */
  function WithFilter(f: Filters, key: FilterKey, value: string): (r: Filters)
    ensures Get(r, key) == value
    ensures forall k :: k != key ==> Get(r, k) == Get(f, k)
  {
    match key
    case Priority => f.(priority := value)
    case Status => f.(status := value)
    case AssignedTo => f.(assignedTo := value)
    case DateReported => f.(dateReported := value)
  }

  /** The test `filteredBugs` applies to one bug: not soft-deleted, and each
      non-empty criterion met (strict equality, substring for the date). */
  predicate PassesFilters(b: Bug, f: Filters): (r: bool)
    ensures r ==> !b.isDeleted
    ensures f == InitialFilters ==> (r <==> !b.isDeleted)
  {
    && !b.isDeleted
    && (if f.priority != "" then b.priority == f.priority else true)
    && (if f.status != "" then b.status == f.status else true)
    && (if f.assignedTo != "" then b.assignedTo == JsString(f.assignedTo) else true)
    && (if f.dateReported != "" then Includes(b.dateReported, f.dateReported) else true)
  }

  function FilterTest(f: Filters): Bug -> bool
  {
    (b: Bug) => PassesFilters(b, f)
  }

  /** `bugs.filter(...)`: the rows the page renders. */
  function FilteredBugs(bugs: seq<Bug>, f: Filters): (r: seq<Bug>)
    ensures |r| <= |bugs|
    ensures forall i :: 0 <= i < |r| ==> PassesFilters(r[i], f)
  {
    Keep(bugs, FilterTest(f))
  }

  function NotDeleted(): Bug -> bool
  {
    (b: Bug) => !b.isDeleted
  }

  /** `bugs.filter((bug) => !bug.isDeleted)`: the rows the earlier, unfiltered
      version of the page rendered. */
  function LiveBugs(bugs: seq<Bug>): seq<Bug>
  {
    Keep(bugs, NotDeleted())
  }

  /** Whatever the criteria, no soft-deleted bug is shown. */
  lemma FilteredNeverDeleted(bugs: seq<Bug>, f: Filters)
    ensures forall b :: b in FilteredBugs(bugs, f) ==> !b.isDeleted
  {
    forall b | b in FilteredBugs(bugs, f) ensures !b.isDeleted {
      KeepMembers(bugs, FilterTest(f), b);
    }
  }

  /** The shown rows keep the fetched order. */
  lemma FilteredIsSubsequence(bugs: seq<Bug>, f: Filters)
    ensures IsSubsequence(FilteredBugs(bugs, f), bugs)
  {
    KeepIsSubsequence(bugs, FilterTest(f));
  }

  /** A bug is shown exactly when it is fetched, not deleted, and every
      criterion is either empty or met. */
  lemma FilteredIff(bugs: seq<Bug>, f: Filters, b: Bug)
    ensures b in FilteredBugs(bugs, f) <==>
      && b in bugs
      && !b.isDeleted
      && (f.priority == "" || b.priority == f.priority)
      && (f.status == "" || b.status == f.status)
      && (f.assignedTo == "" || b.assignedTo == JsString(f.assignedTo))
      && (f.dateReported == "" || exists i: nat :: i <= |b.dateReported| && OccursAt(b.dateReported, f.dateReported, i))
  {
    KeepMembers(bugs, FilterTest(f), b);
    IncludesIff(b.dateReported, f.dateReported);
  }

  /** Every copy of a passing bug is shown, so duplicates are not collapsed. */
  lemma FilteredKeepsCopies(bugs: seq<Bug>, f: Filters, b: Bug)
    requires PassesFilters(b, f)
    ensures multiset(FilteredBugs(bugs, f))[b] == multiset(bugs)[b]
  {
    KeepCount(bugs, FilterTest(f), b);
  }

  /** With the initial, all-empty filters the page shows exactly the bugs that
      are not soft-deleted, as the unfiltered version did. */
  lemma InitialFiltersShowLiveBugs(bugs: seq<Bug>)
    ensures FilteredBugs(bugs, InitialFilters) == LiveBugs(bugs)
  {
    KeepSameTest(bugs, FilterTest(InitialFilters), NotDeleted());
  }

  /** `===` does not coerce: once a developer filter is chosen (its value is
      always a string), a bug whose `assignedTo` arrived as a JSON number is
      never shown, even if the number spells the same id. */
  lemma NumericAssigneeNeverMatches(bugs: seq<Bug>, f: Filters, b: Bug)
    requires f.assignedTo != "" && b.assignedTo.JsNumber?
    ensures b !in FilteredBugs(bugs, f)
  {
    KeepMembers(bugs, FilterTest(f), b);
  }

  /** Changing one filter input to "" lifts that constraint: the rows shown
      are then those of the other three criteria alone, so they can only grow. */
  lemma ClearingFilterWidens(bugs: seq<Bug>, f: Filters, key: FilterKey, b: Bug)
    requires b in FilteredBugs(bugs, f)
    ensures b in FilteredBugs(bugs, WithFilter(f, key, ""))
  {
    var g := WithFilter(f, key, "");
    KeepMembers(bugs, FilterTest(f), b);
    KeepMembers(bugs, FilterTest(g), b);
  }

  /** The keys of a partial update: `{ description }`, `{ assignedTo }`,
      `{ priority }` or `{ status }`, each value taken from a form input. */
  datatype Patch = Patch(
    description: Option<string>,
    priority: Option<string>,
    status: Option<string>,
    assignedTo: Option<string>)

  /** `{ ...bug, ...updateData }` */
  function ApplyPatch(b: Bug, p: Patch): (r: Bug)
    ensures r.id == b.id && r.reportedBy == b.reportedBy
    ensures r.dateReported == b.dateReported && r.isDeleted == b.isDeleted
    ensures r.description == p.description.GetOr(b.description)
    ensures r.priority == p.priority.GetOr(b.priority)
    ensures r.status == p.status.GetOr(b.status)
    ensures r.assignedTo == if p.assignedTo.Some? then JsString(p.assignedTo.value) else b.assignedTo
  {
    b.(description := p.description.GetOr(b.description),
       priority := p.priority.GetOr(b.priority),
       status := p.status.GetOr(b.status),
       assignedTo := if p.assignedTo.Some? then JsString(p.assignedTo.value) else b.assignedTo)
  }

  /** `prev.map((bug) => (bug.id === bugId ? { ...bug, ...updateData } : bug))` */
  function MergeUpdate(bugs: seq<Bug>, id: BugId, p: Patch): (r: seq<Bug>)
    ensures |r| == |bugs|
    ensures forall i :: 0 <= i < |bugs| ==>
      r[i] == if bugs[i].id == id then ApplyPatch(bugs[i], p) else bugs[i]
    decreases |bugs|
  {
    if |bugs| == 0 then []
    else [if bugs[0].id == id then ApplyPatch(bugs[0], p) else bugs[0]] + MergeUpdate(bugs[1..], id, p)
  }

  /** Merging twice with the same patch is the same as merging once. */
  lemma MergeIdempotent(bugs: seq<Bug>, id: BugId, p: Patch)
    ensures MergeUpdate(MergeUpdate(bugs, id, p), id, p) == MergeUpdate(bugs, id, p)
  {
    var once := MergeUpdate(bugs, id, p);
    var twice := MergeUpdate(once, id, p);
    forall i | 0 <= i < |bugs| ensures twice[i] == once[i] {
      if bugs[i].id == id {
        assert once[i].id == id;
      }
    }
  }

  /** A merge never soft-deletes or revives a row: the live rows after it
      are the live rows before it, merged, so their count, ids and order
      are kept. */
  lemma {:induction false} MergeKeepsLiveIds(bugs: seq<Bug>, id: BugId, p: Patch)
    ensures LiveBugs(MergeUpdate(bugs, id, p)) == MergeUpdate(LiveBugs(bugs), id, p)
    ensures |LiveBugs(MergeUpdate(bugs, id, p))| == |LiveBugs(bugs)|
    ensures forall i :: 0 <= i < |LiveBugs(bugs)| ==> LiveBugs(MergeUpdate(bugs, id, p))[i].id == LiveBugs(bugs)[i].id
    decreases |bugs|
  {
    if |bugs| > 0 {
      MergeKeepsLiveIds(bugs[1..], id, p);
      var merged := MergeUpdate(bugs, id, p);
      assert merged[1..] == MergeUpdate(bugs[1..], id, p);
      var head := if bugs[0].isDeleted then [] else [bugs[0]];
      assert LiveBugs(bugs) == head + LiveBugs(bugs[1..]);
      assert LiveBugs(merged) == (if merged[0].isDeleted then [] else [merged[0]]) + LiveBugs(merged[1..]);
      MergeAppend(head, LiveBugs(bugs[1..]), id, p);
    }
  }

  /** Merging distributes over concatenation. */
  lemma {:induction false} MergeAppend(a: seq<Bug>, b: seq<Bug>, id: BugId, p: Patch)
    ensures MergeUpdate(a + b, id, p) == MergeUpdate(a, id, p) + MergeUpdate(b, id, p)
  {
    var l := MergeUpdate(a + b, id, p);
    var r := MergeUpdate(a, id, p) + MergeUpdate(b, id, p);
    assert |l| == |r|;
    forall i | 0 <= i < |l| ensures l[i] == r[i] {
      if i >= |a| {
        assert (a + b)[i] == b[i - |a|];
      }
    }
  }

  function OtherId(id: BugId): Bug -> bool
  {
    (b: Bug) => b.id != id
  }

  /** `prev.filter((bug) => bug.id !== bugId)` */
  function RemoveById(bugs: seq<Bug>, id: BugId): (r: seq<Bug>)
    ensures |r| <= |bugs|
    ensures forall i :: 0 <= i < |r| ==> r[i].id != id
  {
    Keep(bugs, OtherId(id))
  }

  /** Removal drops every row with that id and keeps every other row, each
      copy of it, in the original order. */
  lemma RemoveByIdSpec(bugs: seq<Bug>, id: BugId)
    ensures forall b :: b in RemoveById(bugs, id) ==> b.id != id
    ensures forall b: Bug :: b.id != id ==> multiset(RemoveById(bugs, id))[b] == multiset(bugs)[b]
    ensures IsSubsequence(RemoveById(bugs, id), bugs)
  {
    forall b | b in RemoveById(bugs, id) ensures b.id != id {
      KeepMembers(bugs, OtherId(id), b);
    }
    forall b: Bug | b.id != id ensures multiset(RemoveById(bugs, id))[b] == multiset(bugs)[b] {
      KeepCount(bugs, OtherId(id), b);
    }
    KeepIsSubsequence(bugs, OtherId(id));
  }

  /** Two filters applied one after the other commute. */
  lemma {:induction false} KeepCommutes<T>(s: seq<T>, p: T -> bool, q: T -> bool)
    ensures Keep(Keep(s, p), q) == Keep(Keep(s, q), p)
    decreases |s|
  {
    if |s| > 0 {
      KeepCommutes(s[1..], p, q);
      KeepConsHead(s, p);
      KeepConsHead(s, q);
      KeepConsHead([s[0]], q);
      KeepAppend(if p(s[0]) then [s[0]] else [], Keep(s[1..], p), q);
      KeepAppend(if q(s[0]) then [s[0]] else [], Keep(s[1..], q), p);
    }
  }

  lemma KeepConsHead<T>(s: seq<T>, p: T -> bool)
    requires |s| > 0
    ensures Keep(s, p) == (if p(s[0]) then [s[0]] else []) + Keep(s[1..], p)
  {
  }

  /** `filter` distributes over concatenation. */
  lemma {:induction false} KeepAppend<T>(a: seq<T>, b: seq<T>, p: T -> bool)
    ensures Keep(a + b, p) == Keep(a, p) + Keep(b, p)
    decreases |a|
  {
    if |a| > 0 {
      KeepAppend(a[1..], b, p);
      assert (a + b)[1..] == a[1..] + b;
    } else {
      assert a + b == b;
    }
  }

  /** Removing a row and then filtering shows the same rows as filtering and
      then removing: a delete takes exactly that row off the page. */
  lemma RemoveThenFilter(bugs: seq<Bug>, id: BugId, f: Filters)
    ensures FilteredBugs(RemoveById(bugs, id), f) == RemoveById(FilteredBugs(bugs, f), id)
  {
    KeepCommutes(bugs, OtherId(id), FilterTest(f));
  }

  /** The per-row glow recorded in `updateStatus`; `NoGlow` is `null`. */
  datatype Glow = NoGlow | SuccessGlow | ErrorGlow

  /** What a row's controls ask for. */
  datatype RowEvent =
    | ClickDescription(id: BugId)
    | BlurDescription(id: BugId, text: string)
    | ClickDelete(id: BugId)
    | SelectDeveloper(id: BugId, value: string)
    | SelectPriority(id: BugId, value: string)
    | SelectStatus(id: BugId, value: string)

  /** The work a row event leaves outstanding. */
  datatype Pending =
    | NothingPending
    | UpdateInFlight(id: BugId, patch: Patch)
    | DeleteScheduled(id: BugId)

  /** The handler name a row event calls that the live page never defines. */
  function UndefinedCallee(ev: RowEvent): (r: Option<string>)
    ensures r.None? <==> ev.ClickDescription?
    ensures ev.ClickDelete? ==> r == Some("handleDelete")
  {
    match ev
    case ClickDescription(_) => None
    case ClickDelete(_) => Some("handleDelete")
    case _ => Some("handleUpdate")
  }

  /** The patch each update-firing row event sends. */
  function EventPatch(ev: RowEvent): (p: Patch)
    requires !ev.ClickDescription? && !ev.ClickDelete?
    ensures ev.BlurDescription? ==> p == Patch(Some(ev.text), None, None, None)
    ensures ev.SelectDeveloper? ==> p == Patch(None, None, None, Some(ev.value))
    ensures ev.SelectPriority? ==> p == Patch(None, Some(ev.value), None, None)
    ensures ev.SelectStatus? ==> p == Patch(None, None, Some(ev.value), None)
  {
    match ev
    case BlurDescription(_, t) => Patch(Some(t), None, None, None)
    case SelectDeveloper(_, v) => Patch(None, None, None, Some(v))
    case SelectPriority(_, v) => Patch(None, Some(v), None, None)
    case SelectStatus(_, v) => Patch(None, None, Some(v), None)
  }

  /** The page state of `AllBugs`. */
  class BugListView {
    var bugs: seq<Bug>
    var filters: Filters
    var editingBug: Option<BugId>
    var updatingBug: Option<BugId>
    var deletingBug: Option<BugId>
    var updateStatus: map<BugId, Glow>

    constructor ()
      ensures bugs == [] && filters == InitialFilters
      ensures editingBug == None && updatingBug == None && deletingBug == None
      ensures updateStatus == map[]
    {
      bugs := [];
      filters := InitialFilters;
      editingBug, updatingBug, deletingBug := None, None, None;
      updateStatus := map[];
    }

    /** The rows rendered. */
    function Visible(): seq<Bug>
      reads this
    {
      FilteredBugs(bugs, filters)
    }

    /** A successful fetch replaces the list wholesale. */
    method ReceiveBugs(list: seq<Bug>)
      modifies this
      ensures bugs == list
      ensures filters == old(filters) && editingBug == old(editingBug)
      ensures updatingBug == old(updatingBug) && deletingBug == old(deletingBug)
      ensures updateStatus == old(updateStatus)
    {
      bugs := list;
    }

    /** `handleFilterChange`: only the named input changes. */
    method HandleFilterChange(key: FilterKey, value: string)
      modifies this
      ensures filters == WithFilter(old(filters), key, value)
      ensures Get(filters, key) == value
      ensures forall k :: k != key ==> Get(filters, k) == Get(old(filters), k)
      ensures bugs == old(bugs) && editingBug == old(editingBug)
      ensures updatingBug == old(updatingBug) && deletingBug == old(deletingBug)
      ensures updateStatus == old(updateStatus)
    {
      filters := WithFilter(filters, key, value);
    }

    /** The first half of `handleUpdate`, up to the request: the row shines
        and its glow is reset. */
    method BeginUpdate(id: BugId)
      modifies this
      ensures updatingBug == Some(id)
      ensures updateStatus == old(updateStatus)[id := NoGlow]
      ensures bugs == old(bugs) && filters == old(filters)
      ensures editingBug == old(editingBug) && deletingBug == old(deletingBug)
    {
      updatingBug := Some(id);
      updateStatus := updateStatus[id := NoGlow];
    }

    /** The rest of `handleUpdate` once the request settles: on success the
        patch is merged into every row with that id and the row glows green,
        on failure the list is untouched and the row glows red; either way no
        row shines any more. */
    method FinishUpdate(id: BugId, patch: Patch, ok: bool)
      modifies this
      ensures bugs == if ok then MergeUpdate(old(bugs), id, patch) else old(bugs)
      ensures updateStatus == old(updateStatus)[id := if ok then SuccessGlow else ErrorGlow]
      ensures updatingBug == None
      ensures filters == old(filters) && editingBug == old(editingBug) && deletingBug == old(deletingBug)
    {
      if ok {
        bugs := MergeUpdate(bugs, id, patch);
        updateStatus := updateStatus[id := SuccessGlow];
      } else {
        updateStatus := updateStatus[id := ErrorGlow];
      }
      updatingBug := None;
    }

    /** The one-second timer after an update: the row's glow goes. */
    method GlowTimerFired(id: BugId)
      modifies this
      ensures updateStatus == old(updateStatus)[id := NoGlow]
      ensures bugs == old(bugs) && filters == old(filters) && editingBug == old(editingBug)
      ensures updatingBug == old(updatingBug) && deletingBug == old(deletingBug)
    {
      updateStatus := updateStatus[id := NoGlow];
    }

    /** The synchronous half of `handleDelete`: the row starts to disintegrate. */
    method BeginDelete(id: BugId)
      modifies this
      ensures deletingBug == Some(id)
      ensures bugs == old(bugs) && filters == old(filters) && editingBug == old(editingBug)
      ensures updatingBug == old(updatingBug) && updateStatus == old(updateStatus)
    {
      deletingBug := Some(id);
    }

    /** The 600 ms timer of `handleDelete`. The removal follows an `await` of
        the request, so a failed request skips it and leaves the row marked. */
    method DeleteTimerFired(id: BugId, ok: bool)
      modifies this
      ensures bugs == if ok then RemoveById(old(bugs), id) else old(bugs)
      ensures deletingBug == if ok then None else old(deletingBug)
      ensures ok ==> forall b :: b in Visible() ==> b.id != id
      ensures filters == old(filters) && editingBug == old(editingBug)
      ensures updatingBug == old(updatingBug) && updateStatus == old(updateStatus)
    {
      if ok {
        bugs := RemoveById(bugs, id);
        deletingBug := None;
        RemoveByIdSpec(old(bugs), id);
        forall b | b in Visible() ensures b.id != id {
          KeepMembers(bugs, FilterTest(filters), b);
        }
      }
    }

    /** A row event as the live page handles it: clicking a description opens
        the editor, and every other control calls a handler the page does not
        define, so the call throws before any state changes (in particular a
        blur leaves the row in editing). */
    method HandleRowEventAsWritten(ev: RowEvent) returns (thrown: Option<string>)
      modifies this
      ensures thrown == UndefinedCallee(ev)
      ensures editingBug == if ev.ClickDescription? then Some(ev.id) else old(editingBug)
      ensures bugs == old(bugs) && filters == old(filters)
      ensures updatingBug == old(updatingBug) && deletingBug == old(deletingBug)
      ensures updateStatus == old(updateStatus)
    {
      thrown := UndefinedCallee(ev);
      if ev.ClickDescription? {
        editingBug := Some(ev.id);
      }
    }

    /** A row event with the handlers of the earlier version in place: a blur
        starts the description update and closes the editor, a select starts
        its one-field update, and Delete schedules the removal. */
    method HandleRowEvent(ev: RowEvent) returns (pending: Pending)
      modifies this
      ensures ev.ClickDescription? ==> pending == NothingPending && editingBug == Some(ev.id)
      ensures ev.BlurDescription? ==> editingBug == None
      ensures !ev.ClickDescription? && !ev.BlurDescription? ==> editingBug == old(editingBug)
      ensures ev.ClickDelete? ==> pending == DeleteScheduled(ev.id) && deletingBug == Some(ev.id)
      ensures !ev.ClickDelete? ==> deletingBug == old(deletingBug)
      ensures !ev.ClickDescription? && !ev.ClickDelete? ==>
        && pending == UpdateInFlight(ev.id, EventPatch(ev))
        && updatingBug == Some(ev.id)
        && updateStatus == old(updateStatus)[ev.id := NoGlow]
      ensures ev.ClickDescription? || ev.ClickDelete? ==>
        updatingBug == old(updatingBug) && updateStatus == old(updateStatus)
      ensures bugs == old(bugs) && filters == old(filters)
    {
      match ev
      case ClickDescription(id) =>
        editingBug := Some(id);
        pending := NothingPending;
      case ClickDelete(id) =>
        BeginDelete(id);
        pending := DeleteScheduled(id);
      case BlurDescription(id, _) =>
        BeginUpdate(id);
        editingBug := None;
        pending := UpdateInFlight(id, EventPatch(ev));
      case _ =>
        BeginUpdate(ev.id);
        pending := UpdateInFlight(ev.id, EventPatch(ev));
    }
  }

  /** On the live page, opening a description editor and leaving it throws
      at `handleUpdate`, and the editor stays open. */
  method BlurLeavesEditorOpen() returns (stuck: bool)
    ensures stuck
  {
    var view := new BugListView();
    var _ := view.HandleRowEventAsWritten(ClickDescription(7));
    var thrown := view.HandleRowEventAsWritten(BlurDescription(7, "Crash on save"));
    stuck := view.editingBug == Some(7) && thrown == Some("handleUpdate");
  }

  /** With the handlers in place, the same two events close the editor and
      leave the description update in flight. */
  method BlurClosesEditor() returns (closed: bool)
    ensures closed
  {
    var view := new BugListView();
    var _ := view.HandleRowEvent(ClickDescription(7));
    var pending := view.HandleRowEvent(BlurDescription(7, "Crash on save"));
    closed := view.editingBug == None && view.updatingBug == Some(7)
              && pending == UpdateInFlight(7, Patch(Some("Crash on save"), None, None, None));
  }
}
