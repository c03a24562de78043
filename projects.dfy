/** The project record and its status (`Project`, `ProjectStatus`). */
module Projects {

  datatype ProjectStatus = Active | Finished

  /** A project card. `peopleAmount` is a JavaScript number in the program; the
      model takes it as a mathematical integer. */
  datatype Project = Project(
    id: string,
    title: string,
    description: string,
    peopleAmount: int,
    status: ProjectStatus)
}
