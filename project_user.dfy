/**
 * The association linking a user to a project under a role. Creating one makes the
 * user a member of the project.
 */
module ProjectUsers {
  import opened Errors
  import opened Statuses
  import StatusMixin

  datatype User = User(login: string)
  datatype Role = Role(name: string)

  /** What may be given as `role`: a Role, or a value of some other Python type. */
  datatype RoleArg = IsRole(role: Role) | NotARole(typeName: string)

  /** An exception raised together with its message. */
  datatype Exception = Exception(kind: ErrorKind, message: string)

  const RoleMessagePrefix: string := "ProjectUser.role should be a stalker.models.auth.Role instance, not "

  /** The role check of the association's constructor, with the exact message of its TypeError. */
  function ValidateRole(arg: RoleArg): (r: Result<Role, Exception>)
    ensures r.Ok? <==> arg.IsRole?
    ensures r.Ok? ==> r.value == arg.role
    ensures r.Err? ==> r.error.kind == TypeError
    // the message is the fixed text followed by the name of the type received
    ensures r.Err? ==> |RoleMessagePrefix| <= |r.error.message| &&
                       r.error.message[..|RoleMessagePrefix|] == RoleMessagePrefix &&
                       r.error.message[|RoleMessagePrefix|..] == arg.typeName
  {
    match arg
    case IsRole(role) => Ok(role)
    case NotARole(t) => Err(Exception(TypeError, RoleMessagePrefix + t))
  }

  /** Two different wrong types are reported with two different messages. */
  lemma RoleMessageNamesType(t1: string, t2: string)
    requires ValidateRole(NotARole(t1)).error.message == ValidateRole(NotARole(t2)).error.message
    ensures t1 == t2
  {
  }

  /** The users of a sequence of associations, in order. */
  function UsersOf(links: seq<ProjectUser>): (us: seq<User>)
    ensures |us| == |links|
    ensures forall i :: 0 <= i < |links| ==> us[i] == links[i].user
  {
    if links == [] then [] else [links[0].user] + UsersOf(links[1..])
  }

  /** A project, as far as its status and its members are concerned. */
  class Project {
    const code: string
    /** The project's status capability; its entity type is "Project". */
    const statuses: StatusMixin.StatusEntity
    /** The associations made so far, oldest first. */
    var links: seq<ProjectUser>

    constructor (code: string, statuses: StatusMixin.StatusEntity)
      requires statuses.typeName == "Project"
      ensures this.code == code && this.statuses == statuses && links == []
    {
      this.code := code;
      this.statuses := statuses;
      links := [];
    }

    /** The project's users: the user of every association made with it. */
    function Users(): (us: seq<User>)
      reads this
      ensures forall i :: 0 <= i < |links| ==> links[i].user in us
      ensures forall u :: u in us ==> exists i :: 0 <= i < |links| && links[i].user == u
    {
      UsersOf(links)
    }
  }

  /** The association itself. */
  class ProjectUser {
    const project: Project
    const user: User
    const role: Role

    constructor (project: Project, user: User, role: Role)
      ensures this.project == project && this.user == user && this.role == role
    {
      this.project := project;
      this.user := user;
      this.role := role;
    }
  }

  /** Constructing a project with the status capability; the list must target "Project". */
  method NewProject(code: string, listArg: StatusMixin.ListArg, statusArg: StatusArg, store: seq<StatusList>)
    returns (r: Result<Project, ErrorKind>)
    ensures r.Ok? <==> StatusMixin.Construct("Project", listArg, statusArg, store).Ok?
    ensures r.Err? ==> r.error == StatusMixin.Construct("Project", listArg, statusArg, store).error
    ensures r.Ok? ==> fresh(r.value) && fresh(r.value.statuses) && r.value.code == code && r.value.links == [] &&
                      r.value.statuses.Valid() && r.value.statuses.StatusInList() &&
                      (r.value.statuses.statusList, r.value.statuses.status) ==
                        StatusMixin.Construct("Project", listArg, statusArg, store).value
  {
    var s := StatusMixin.Create("Project", listArg, statusArg, store);
    if s.Ok? {
      var p := new Project(code, s.value);
      r := Ok(p);
    } else {
      r := Err(s.error);
    }
  }

  /**
   * Constructing the association. The role is checked first; once it is accepted the
   * association is added to the project, so the user is one of its users.
   */
  method NewProjectUser(project: Project, user: User, roleArg: RoleArg) returns (r: Result<ProjectUser, Exception>)
    modifies project
    ensures r.Ok? <==> ValidateRole(roleArg).Ok?
    ensures r.Err? ==> r.error == ValidateRole(roleArg).error && project.links == old(project.links)
    ensures r.Ok? ==> fresh(r.value) && r.value.project == project && r.value.user == user &&
                      r.value.role == roleArg.role && project.links == old(project.links) + [r.value]
    ensures r.Ok? ==> user in project.Users() && forall u :: u in old(project.Users()) ==> u in project.Users()
  {
    var checked := ValidateRole(roleArg);
    if checked.Err? {
      return Err(checked.error);
    }
    var link := new ProjectUser(project, user, checked.value);
    project.links := project.links + [link];
    assert project.links[|project.links| - 1] == link;
    forall u | u in old(project.Users()) ensures u in project.Users() {
      var i :| 0 <= i < |old(project.links)| && old(project.links)[i].user == u;
      assert project.links[i] == old(project.links)[i];
    }
    r := Ok(link);
  }
}
