/** The mock task list the store seeds itself with: three projects and their
    tasks, subtasks, actions and subactions. */
module Fixture {
  import opened Basics
  import opened Tasks

  function Project(id: nat, name: string, status: Status): Task
  {
    Task(id, name, status, 0, None, id, None, None)
  }

  function Child(id: nat, name: string, status: Status, level: nat, parentId: nat, projectId: nat,
                 estimated: nat, expected: nat): Task
  {
    Task(id, name, status, level, Some(parentId), projectId, Some(estimated), Some(expected))
  }

  function MockTasks(): seq<Task>
  {
    [ Project(1, "Frontend Development", InProgress),
      Project(2, "Backend Development", Todo),
      Project(3, "Mobile App", Backlog),

      Child(101, "UI Components", InProgress, 1, 1, 1, 480, 960),
      Child(102, "Authentication", Complete, 1, 1, 1, 240, 240),
      Child(103, "Dashboard", Todo, 1, 1, 1, 360, 720),
      Child(201, "API Development", Todo, 1, 2, 2, 480, 720),
      Child(202, "Database Setup", Review, 1, 2, 2, 180, 240),
      Child(301, "iOS App", Backlog, 1, 3, 3, 1440, 2880),
      Child(302, "Android App", Clarification, 1, 3, 3, 1440, 2880),

      Child(1011, "Button Component", Complete, 2, 101, 1, 120, 120),
      Child(1012, "Form Component", InProgress, 2, 101, 1, 180, 360),
      Child(1013, "Card Component", Todo, 2, 101, 1, 120, 240),
      Child(2011, "User API", Todo, 2, 201, 2, 240, 360),
      Child(2012, "Product API", Todo, 2, 201, 2, 240, 360),

      Child(10121, "Create Form Layout", Complete, 3, 1012, 1, 60, 120),
      Child(10122, "Add Form Validation", InProgress, 3, 1012, 1, 120, 240),
      Child(20111, "User Authentication", Todo, 3, 2011, 2, 120, 180),
      Child(20112, "User Profile", Todo, 3, 2011, 2, 120, 180),

      Child(101221, "Client-side Validation", InProgress, 4, 10122, 1, 60, 120),
      Child(101222, "Server-side Validation", Todo, 4, 10122, 1, 60, 120)
    ]
  }

  /** Position in the fixture of each task's parent (0 for the projects). */
  const ParentPositions: seq<nat> := [0, 0, 0, 0, 0, 0, 1, 1, 2, 2, 3, 3, 3, 6, 6, 11, 11, 13, 13, 16, 16]

  /** The fixture's ids strictly increase along the list. */
  lemma MockTasksIncreasing()
    ensures IncreasingFrom(MockTasks(), 0)
  {
    var ts := MockTasks();
    assert IncreasingFrom(ts, 20);
    assert IncreasingFrom(ts, 19);
    assert IncreasingFrom(ts, 18);
    assert IncreasingFrom(ts, 17);
    assert IncreasingFrom(ts, 16);
    assert IncreasingFrom(ts, 15);
    assert IncreasingFrom(ts, 14);
    assert IncreasingFrom(ts, 13);
    assert IncreasingFrom(ts, 12);
    assert IncreasingFrom(ts, 11);
    assert IncreasingFrom(ts, 10);
    assert IncreasingFrom(ts, 9);
    assert IncreasingFrom(ts, 8);
    assert IncreasingFrom(ts, 7);
    assert IncreasingFrom(ts, 6);
    assert IncreasingFrom(ts, 5);
    assert IncreasingFrom(ts, 4);
    assert IncreasingFrom(ts, 3);
    assert IncreasingFrom(ts, 2);
    assert IncreasingFrom(ts, 1);
    assert IncreasingFrom(ts, 0);
  }

  /** Every fixture task is a project without parent or has its parent one
      level up and in the same project, at the position this table gives. */
  lemma MockTasksLinked()
    ensures LinkedFrom(MockTasks(), ParentPositions, 0)
  {
    var ts := MockTasks();
    assert |ts| == |ParentPositions| == 21;
    assert LinkedFrom(ts, ParentPositions, 21);
    assert LinkedFrom(ts, ParentPositions, 20);
    assert LinkedFrom(ts, ParentPositions, 19);
    assert LinkedFrom(ts, ParentPositions, 18);
    assert LinkedFrom(ts, ParentPositions, 17);
    assert LinkedFrom(ts, ParentPositions, 16);
    assert LinkedFrom(ts, ParentPositions, 15);
    assert LinkedFrom(ts, ParentPositions, 14);
    assert LinkedFrom(ts, ParentPositions, 13);
    assert LinkedFrom(ts, ParentPositions, 12);
    assert LinkedFrom(ts, ParentPositions, 11);
    assert LinkedFrom(ts, ParentPositions, 10);
    assert LinkedFrom(ts, ParentPositions, 9);
    assert LinkedFrom(ts, ParentPositions, 8);
    assert LinkedFrom(ts, ParentPositions, 7);
    assert LinkedFrom(ts, ParentPositions, 6);
    assert LinkedFrom(ts, ParentPositions, 5);
    assert LinkedFrom(ts, ParentPositions, 4);
    assert LinkedFrom(ts, ParentPositions, 3);
    assert LinkedFrom(ts, ParentPositions, 2);
    assert LinkedFrom(ts, ParentPositions, 1);
    assert LinkedFrom(ts, ParentPositions, 0);
  }

  /** The fixture describes a consistent hierarchy with distinct ids: projects
      have no parent, every other task has one, one level up and in the same
      project. */
  lemma MockTasksWellFormed()
    ensures WellFormed(MockTasks())
  {
    MockTasksIncreasing();
    MockTasksLinked();
    WellFormedByWitness(MockTasks(), ParentPositions);
  }

  /** The fixture's subaction 101221 sits at position 19 and is in progress. */
  lemma MockSubaction()
    ensures |MockTasks()| == 21
    ensures MockTasks()[19].id == 101221 && MockTasks()[19].status == InProgress
  {
  }
}
