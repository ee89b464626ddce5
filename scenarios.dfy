/** Clients of the model that replay the situations the repository's tests set up. */
module Scenarios {
  import opened Errors
  import opened Statuses
  import opened Registry
  import opened StatusMixin
  import opened ProjectUsers

  /** The five statuses and the list targeting "StatMixClass" that the status tests share. */
  function StatMixList(): (l: StatusList)
    ensures |l.statuses| == 5 && l.targetEntityType == "StatMixClass"
  {
    StatusListRecord("Test Status List 1",
      [Status("Status1", "STS1"), Status("Status2", "STS2"), Status("Status3", "STS3"),
       Status("Status4", "STS4"), Status("Status5", "STS5")],
      "StatMixClass")
  }

  method StatusAttributeScenario()
  {
    var l := StatMixList();
    var created := Create("StatMixClass", Passed(List(l)), Index(0), []);
    assert created.Ok?;
    var e := created.value;

    // status_list must be a StatusList of the right target; None is refused
    var bad := Create("StatMixClass", Passed(NotAStatusList), Index(0), []);
    assert bad == Err(TypeError);
    bad := Create("StatMixClass", Passed(NoList), Index(0), []);
    assert bad == Err(TypeError);
    bad := Create("StatMixClass", Omitted, Index(0), []);
    assert bad == Err(TypeError);
    var outcome := e.SetStatusList(NoList);
    assert outcome == Fail(TypeError);
    var sequenceList: StatusList := StatusListRecord("Sequence Statuses",
      [Status("On Hold", "OH"), Status("Complete", "CMPLT")], "Sequence");
    outcome := e.SetStatusList(List(sequenceList));
    assert outcome == Fail(TypeError);
    var suitable: StatusList := StatusListRecord("Suitable Statuses",
      [Status("On Hold", "OH"), Status("Complete", "CMPLT")], "StatMixClass");
    outcome := e.SetStatusList(List(suitable));
    assert outcome == Pass && e.statusList == suitable;

    // status: None is the first status, indices are bounds-checked, Status values must be members
    outcome := e.SetStatusList(List(l));
    assert outcome == Pass;
    outcome := e.SetStatus(NoStatus);
    assert outcome == Pass && e.status == l.statuses[0];
    outcome := e.SetStatus(Index(5));
    assert outcome == Fail(ValueError);
    outcome := e.SetStatus(Index(-1));
    assert outcome == Fail(ValueError);
    outcome := e.SetStatus(Index(1));
    assert outcome == Pass && e.status == l.statuses[1];
    outcome := e.SetStatus(Value(Status("Status2", "STS2")));
    assert outcome == Pass && e.status == Status("Status2", "STS2");
    outcome := e.SetStatus(Value(Status("Temp", "TEMP")));
    assert Status("Temp", "TEMP") !in l.statuses;
    assert outcome == Fail(ValueError);
    outcome := e.SetStatus(NotAStatus);
    assert outcome == Fail(TypeError);
  }

  method PersistedListScenario()
  {
    var persisted: StatusList := StatusListRecord("StatusListAutoAddClass Statuses",
      [Status("Status1", "Sts1"), Status("Status2", "Sts2"), Status("Status3", "Sts3")],
      "StatusListAutoAddClass");
    var store := [] + [persisted];
    assert Lookup(store, "StatusListAutoAddClass") == Some(persisted);
    var auto := Create("StatusListAutoAddClass", Omitted, NoStatus, store);
    assert auto.Ok? && auto.value.statusList == persisted;
    assert !HasListFor(store, "StatusListNoAutoAddClass");
    var none := Create("StatusListNoAutoAddClass", Omitted, NoStatus, store);
    assert none == Err(TypeError);
  }

  method ProjectUserScenario()
  {
    var projectList: StatusList := StatusListRecord("Project Status List",
      [Status("New", "NEW"), Status("Work In Progress", "WIP"), Status("Completed", "CMPL")],
      "Project");
    var p := NewProject("TP1", Passed(List(projectList)), NoStatus, []);
    assert p.Ok?;
    var project := p.value;
    var user := User("testuser1");
    var link := NewProjectUser(project, user, IsRole(Role("Test User")));
    assert link.Ok? && user in project.Users();
    var refused := NewProjectUser(project, user, NotARole("str"));
    assert refused.Err? && refused.error ==
      Exception(TypeError, "ProjectUser.role should be a stalker.models.auth.Role instance, not str");
  }
}
