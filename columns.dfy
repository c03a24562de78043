/**
 * A board column (`ProjectList`): it keeps the store's projects whose status
 * matches its own type, and it turns a drop into a request to move the dropped
 * project to that status.
 */
module Columns {
  import opened Wrappers
  import opened Projects

  /** The column's `type`, the string literal union `'Active' | 'Finished'`. */
  datatype ColumnType = ActiveList | FinishedList

  /** The listener's filter callback: the Active column keeps Active projects, any
      other column keeps Finished ones. */
  predicate IsRelevant(kind: ColumnType, p: Project): (r: bool)
    ensures r <==> ((p.status == Active) == (kind == ActiveList))
  {
    if kind == ActiveList then p.status == Active else p.status == Finished
  }

  /** The snapshot filtered with the column's callback. */
  function RelevantProjects(kind: ColumnType, projects: seq<Project>): (r: seq<Project>)
    ensures |r| <= |projects|
    ensures forall k :: 0 <= k < |r| ==> IsRelevant(kind, r[k])
  {
    if projects == [] then []
    else
      (if IsRelevant(kind, projects[0]) then [projects[0]] else []) + RelevantProjects(kind, projects[1..])
  }

  /** The filter keeps exactly the relevant projects, each as often as the snapshot holds it. */
  lemma {:induction false} RelevantCounts(kind: ColumnType, projects: seq<Project>)
    ensures forall p :: multiset(RelevantProjects(kind, projects))[p] ==
                        if IsRelevant(kind, p) then multiset(projects)[p] else 0
  {
    if projects != [] {
      RelevantCounts(kind, projects[1..]);
      var head := if IsRelevant(kind, projects[0]) then [projects[0]] else [];
      assert projects == [projects[0]] + projects[1..];
      assert multiset(projects) == multiset([projects[0]]) + multiset(projects[1..]);
      assert multiset(RelevantProjects(kind, projects)) == multiset(head) + multiset(RelevantProjects(kind, projects[1..]));
    }
  }

  /** `a` is `b` with some elements left out, the rest in their order. */
  predicate IsSubsequence(a: seq<Project>, b: seq<Project>)
    decreases |b|
  {
    a == [] ||
    (b != [] && ((a[0] == b[0] && IsSubsequence(a[1..], b[1..])) || IsSubsequence(a, b[1..])))
  }

  /** The filter keeps the snapshot's relative order. */
  lemma {:induction false} RelevantIsSubsequence(kind: ColumnType, projects: seq<Project>)
    ensures IsSubsequence(RelevantProjects(kind, projects), projects)
  {
    if projects != [] {
      RelevantIsSubsequence(kind, projects[1..]);
      var r := RelevantProjects(kind, projects);
      if IsRelevant(kind, projects[0]) {
        assert r[0] == projects[0] && r[1..] == RelevantProjects(kind, projects[1..]);
      } else {
        assert r == RelevantProjects(kind, projects[1..]);
      }
    }
  }

  /** Filtering a concatenation filters each part: together with the one-element
      case this fixes the result, order included. */
  lemma {:induction false} RelevantOfConcat(kind: ColumnType, a: seq<Project>, b: seq<Project>)
    ensures RelevantProjects(kind, a + b) == RelevantProjects(kind, a) + RelevantProjects(kind, b)
  {
    if a == [] {
      assert a + b == b;
    } else {
      var head := if IsRelevant(kind, a[0]) then [a[0]] else [];
      assert (a + b)[0] == a[0] && (a + b)[1..] == a[1..] + b;
      calc {
        RelevantProjects(kind, a + b);
        head + RelevantProjects(kind, a[1..] + b);
        { RelevantOfConcat(kind, a[1..], b); }
        head + (RelevantProjects(kind, a[1..]) + RelevantProjects(kind, b));
        RelevantProjects(kind, a) + RelevantProjects(kind, b);
      }
    }
  }

  /** The Active and Finished columns split every snapshot: each project lands in
      exactly one of them, as often as it occurs in the snapshot. */
  lemma ColumnsPartition(projects: seq<Project>)
    ensures multiset(RelevantProjects(ActiveList, projects)) + multiset(RelevantProjects(FinishedList, projects))
            == multiset(projects)
    ensures |RelevantProjects(ActiveList, projects)| + |RelevantProjects(FinishedList, projects)| == |projects|
    ensures forall p :: p in projects ==> (p in RelevantProjects(ActiveList, projects) <==> p !in RelevantProjects(FinishedList, projects))
  {
    RelevantCounts(ActiveList, projects);
    RelevantCounts(FinishedList, projects);
    var a := multiset(RelevantProjects(ActiveList, projects));
    var f := multiset(RelevantProjects(FinishedList, projects));
    forall p
      ensures (a + f)[p] == multiset(projects)[p]
    {
      assert IsRelevant(ActiveList, p) != IsRelevant(FinishedList, p);
    }
    assert a + f == multiset(projects);
    assert |a + f| == |projects|;
    forall p | p in projects
      ensures p in RelevantProjects(ActiveList, projects) <==> p !in RelevantProjects(FinishedList, projects)
    {
      assert p in multiset(projects);
      assert (p in a) == (p in RelevantProjects(ActiveList, projects));
      assert (p in f) == (p in RelevantProjects(FinishedList, projects));
    }
  }

  /** The status a drop on this column asks for: Active on the Active column,
      Finished on any other. */
  function DropStatus(kind: ColumnType): (status: ProjectStatus)
    ensures status == Active <==> kind == ActiveList
  {
    if kind == ActiveList then Active else Finished
  }

  /** The drop's status is exactly the status the column's filter keeps. */
  lemma DropStatusIsShown(kind: ColumnType, p: Project)
    ensures IsRelevant(kind, p) <==> p.status == DropStatus(kind)
    ensures RelevantProjects(kind, [p.(status := DropStatus(kind))]) == [p.(status := DropStatus(kind))]
  {
    var q := p.(status := DropStatus(kind));
    assert [q][1..] == [];
  }

  /** The arguments of the `moveProject` call a drop issues. */
  datatype MoveRequest = MoveRequest(projectId: string, status: ProjectStatus)

  /** The part of a drag event's `dataTransfer` the column inspects: its `types`. */
  datatype DataTransfer = DataTransfer(types: seq<string>)

  class ProjectList {
    const kind: ColumnType
    var assignedProjects: seq<Project>
    /** Whether the column's list carries the `droppable` class. */
    var droppable: bool

    constructor(kind: ColumnType)
      ensures this.kind == kind && assignedProjects == [] && !droppable
    {
      this.kind := kind;
      assignedProjects := [];
      droppable := false;
    }

    /** The listener registered in `configure`: it replaces the cached list by the
        snapshot's relevant projects (the re-render that follows is not modelled). */
    method OnProjects(snapshot: seq<Project>)
      modifies this
      ensures assignedProjects == RelevantProjects(kind, snapshot)
      ensures droppable == old(droppable)
    {
      assignedProjects := RelevantProjects(kind, snapshot);
    }

    /** `dragOverHandler`: `accepted` is whether it calls `preventDefault`, which
        it does when a transfer object is present and its first type is
        `text/plain` (the first type of an empty list is `undefined`, which
        fails); the list is marked droppable either way. */
    method DragOverHandler(transfer: Option<DataTransfer>) returns (accepted: bool)
      modifies this
      ensures accepted <==> transfer.Some? && |transfer.value.types| > 0 && transfer.value.types[0] == "text/plain"
      ensures droppable && assignedProjects == old(assignedProjects)
    {
      accepted := false;
      if transfer.Some? && |transfer.value.types| > 0 && transfer.value.types[0] == "text/plain" {
        accepted := true;
      }
      droppable := true;
    }

    /** `dragLeaveHandler`: the droppable mark is removed. */
    method DragLeaveHandler()
      modifies this
      ensures !droppable && assignedProjects == old(assignedProjects)
    {
      droppable := false;
    }

    /** `dropHandler`: the dragged id passes through unchanged, and the requested
        status is the one whose projects this column shows. */
    method DropHandler(projectId: string) returns (request: MoveRequest)
      ensures request.projectId == projectId
      ensures request.status == DropStatus(kind)
      ensures forall p :: IsRelevant(kind, p) <==> p.status == request.status
    {
      request := MoveRequest(projectId, DropStatus(kind));
    }
  }
}
