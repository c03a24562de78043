/**
 * The wiring at the end of the program: the store is obtained once, then the
 * form and the two columns are built, and each column registers its listener.
 */
module App {
  import opened Projects
  import opened Columns
  import opened Store
  import opened Form

  /** `new ProjectList(type)`: the constructor starts with no assigned projects
      and its `configure` registers the column's listener with the store. */
  method NewColumn(store: ProjectState, kind: ColumnType) returns (column: ProjectList)
    requires store.Valid()
    modifies store
    ensures store.Valid()
    ensures fresh(column) && column.kind == kind && column.assignedProjects == [] && !column.droppable
    ensures store.listeners == old(store.listeners) + [column]
    ensures store.projects == old(store.projects) && store.log == old(store.log)
  {
    column := new ProjectList(kind);
    store.AddListener(column);
  }

  /** Program start-up: `ProjectState.getInstance()`, `new ProjectInput()`,
      `new ProjectList('Active')`, `new ProjectList('Finished')`. The form's
      initial field contents are parameters. */
  method Boot(title: string, description: string, people: PeopleField)
    returns (registry: Registry, store: ProjectState, form: ProjectInput, active: ProjectList, finished: ProjectList)
    ensures fresh(registry) && fresh(store) && fresh(form) && fresh(active) && fresh(finished)
    ensures registry.Valid() && registry.instance == store
    ensures store.Valid() && store.projects == [] && store.log == [] && store.listeners == [active, finished]
    ensures active.kind == ActiveList && finished.kind == FinishedList
    ensures active.assignedProjects == [] && finished.assignedProjects == []
    ensures form.title == title && form.description == description && form.people == people
  {
    registry := new Registry();
    store := registry.GetInstance();
    form := new ProjectInput(title, description, people);
    active := NewColumn(store, ActiveList);
    finished := NewColumn(store, FinishedList);
  }

  /** A first accepted submission on a fresh board: the Active column shows the
      new project, the Finished column stays empty, each listener was called once,
      in registration order, with the one-project list, and the form is cleared. */
  method FirstSubmission(title: string, description: string, people: int, id: string)
    returns (store: ProjectState, form: ProjectInput, active: ProjectList, finished: ProjectList)
    requires GatherUserInput(title, description, people).Some?
    ensures fresh(store) && fresh(form) && fresh(active) && fresh(finished)
    ensures store.Valid() && store.listeners == [active, finished]
    ensures store.projects == [Project(id, title, description, people, Active)]
    ensures active.assignedProjects == store.projects && finished.assignedProjects == []
    ensures store.log == [Notification(0, store.projects), Notification(1, store.projects)]
    ensures form.title == "" && form.description == "" && form.people == Blank
  {
    var registry;
    registry, store, form, active, finished := Boot(title, description, Entered(people));
    form.SubmitHandler(store, id);
    var p := Project(id, title, description, people, Active);
    assert store.projects == [p];
    assert RelevantProjects(ActiveList, [p]) == [p];
    assert RelevantProjects(FinishedList, [p]) == [];
  }

  /** A submission that fails validation leaves a fresh board empty and the form as typed. */
  method RejectedSubmission(title: string, description: string, people: int, id: string)
    returns (store: ProjectState, form: ProjectInput, active: ProjectList, finished: ProjectList)
    requires GatherUserInput(title, description, people).None?
    ensures store.listeners == [active, finished]
    ensures store.projects == [] && store.log == []
    ensures active.assignedProjects == [] && finished.assignedProjects == []
    ensures form.title == title && form.description == description && form.people == Entered(people)
  {
    var registry;
    registry, store, form, active, finished := Boot(title, description, Entered(people));
    form.SubmitHandler(store, id);
  }

  /** Submitting again straight after an accepted entry adds nothing: the
      cleared form has a blank people field, which reads as 0 and is rejected. */
  method SubmitTwice(title: string, description: string, people: int, firstId: string, secondId: string)
    returns (store: ProjectState, form: ProjectInput, active: ProjectList, finished: ProjectList)
    requires GatherUserInput(title, description, people).Some?
    ensures store.listeners == [active, finished]
    ensures store.projects == [Project(firstId, title, description, people, Active)]
    ensures active.assignedProjects == store.projects && finished.assignedProjects == []
    ensures store.log == [Notification(0, store.projects), Notification(1, store.projects)]
    ensures form.title == "" && form.description == "" && form.people == Blank
  {
    store, form, active, finished := FirstSubmission(title, description, people, firstId);
    BlankPeopleRejected("", "");
    form.SubmitHandler(store, secondId);
  }
}
