/**
 * The project store (`State` / `ProjectState`): an ordered list of projects and a
 * list of listeners, each of which `addProject` calls with a copy of the list.
 * The listeners the program registers are the board columns' callbacks, so a
 * listener is modelled as the column it updates.
 */
module Store {
  import opened Projects
  import opened Columns

  /** One listener call: the listener's position in `listeners` and the snapshot it received. */
  datatype Notification = Notification(listener: nat, snapshot: seq<Project>)

  /** The calls of one pass over `count` listeners, each given `snapshot`. */
  function NotifyAll(count: nat, snapshot: seq<Project>): (r: seq<Notification>)
    ensures |r| == count
    ensures forall k :: 0 <= k < count ==> r[k] == Notification(k, snapshot)
  {
    if count == 0 then [] else NotifyAll(count - 1, snapshot) + [Notification(count - 1, snapshot)]
  }

  class ProjectState {
    var projects: seq<Project>
    var listeners: seq<ProjectList>
    /** Every listener call made so far, oldest first. */
    ghost var log: seq<Notification>

    /** Every call went to a registered listener and carried a snapshot of the
        list as it stood then, which the list still begins with (projects are
        never removed). */
    ghost predicate Valid()
      reads this
    {
      forall k :: 0 <= k < |log| ==> log[k].listener < |listeners| && log[k].snapshot <= projects
    }

    constructor()
      ensures Valid()
      ensures projects == [] && listeners == [] && log == []
    {
      projects := [];
      listeners := [];
      log := [];
    }

    /** `addListener`: the callback goes to the end of the list, duplicates allowed. */
    method AddListener(listener: ProjectList)
      requires Valid()
      modifies this
      ensures Valid()
      ensures listeners == old(listeners) + [listener]
      ensures projects == old(projects) && log == old(log)
    {
      listeners := listeners + [listener];
    }

    /** `addProject` with the id as a parameter: appends a new Active project and
        then calls every listener once, in registration order, with a copy of the
        extended list. */
    method AddProject(title: string, description: string, peopleAmount: int, id: string)
      requires Valid()
      modifies this, listeners
      ensures Valid()
      ensures projects == old(projects) + [Project(id, title, description, peopleAmount, Active)]
      ensures listeners == old(listeners)
      ensures log == old(log) + NotifyAll(|listeners|, projects)
      ensures forall c :: c in listeners ==> c.assignedProjects == RelevantProjects(c.kind, projects)
      ensures forall c :: c in listeners ==> c.droppable == old(c.droppable)
    {
      var newProject := Project(id, title, description, peopleAmount, Active);
      projects := projects + [newProject];
      var i := 0;
      while i < |listeners|
        invariant 0 <= i <= |listeners|
        invariant listeners == old(listeners)
        invariant projects == old(projects) + [newProject]
        invariant log == old(log) + NotifyAll(i, projects)
        invariant forall j :: 0 <= j < i ==> listeners[j].assignedProjects == RelevantProjects(listeners[j].kind, projects)
        invariant forall c :: c in listeners ==> c.droppable == old(c.droppable)
      {
        var snapshot := projects;
        listeners[i].OnProjects(snapshot);
        log := log + [Notification(i, snapshot)];
        i := i + 1;
      }
      forall c | c in listeners
        ensures c.assignedProjects == RelevantProjects(c.kind, projects)
      {
        var j :| 0 <= j < |listeners| && listeners[j] == c;
      }
    }
  }

  /** Holder of the static field `ProjectState.instance`. */
  class Registry {
    var instance: ProjectState?

    ghost predicate Valid()
      reads this, instance
    {
      instance != null ==> instance.Valid()
    }

    constructor()
      ensures Valid() && instance == null
    {
      instance := null;
    }

    /** `getInstance`: creates the store on the first call only, and returns the
        same store on every call. */
    method GetInstance() returns (state: ProjectState)
      requires Valid()
      modifies this
      ensures Valid() && state.Valid()
      ensures instance == state
      ensures old(instance) != null ==> state == old(instance)
      ensures old(instance) == null ==> fresh(state) &&
                                        state.projects == [] && state.listeners == [] && state.log == []
    {
      if instance != null {
        return instance;
      }
      state := new ProjectState();
      instance := state;
    }
  }
}
