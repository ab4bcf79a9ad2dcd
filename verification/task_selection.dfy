/** The five-level selection path (project, then levels 1 to 4), the sparse
    update that `setTaskSelection` merges into it with its cascading reset, and
    the two fields derived from the path afterwards. */
module TaskSelection {
  import opened Basics
  import opened Tasks

  datatype Selection = Selection(
    projectId: Option<nat>,
    level1Id: Option<nat>,
    level2Id: Option<nat>,
    level3Id: Option<nat>,
    level4Id: Option<nat>)

  const NoSelection := Selection(None, None, None, None, None)

  /** The id held at level `k`, the project being level 0. */
  function Level(s: Selection, k: nat): Option<nat>
    requires k <= 4
  {
    match k
    case 0 => s.projectId
    case 1 => s.level1Id
    case 2 => s.level2Id
    case 3 => s.level3Id
    case _ => s.level4Id
  }

  /** One key of a `Partial<TaskSelection>`: left out (`undefined`), an explicit
      `null`, or an id. */
  datatype Field = Absent | Null | Id(id: nat)
  {
    /** The value the object spread leaves at this key. */
    function Over(prev: Option<nat>): Option<nat>
    {
      match this
      case Absent => prev
      case Null => None
      case Id(x) => Some(x)
    }
  }

  datatype Patch = Patch(
    projectId: Field,
    level1Id: Field,
    level2Id: Field,
    level3Id: Field,
    level4Id: Field)

  function PatchField(p: Patch, k: nat): Field
    requires k <= 4
  {
    match k
    case 0 => p.projectId
    case 1 => p.level1Id
    case 2 => p.level2Id
    case 3 => p.level3Id
    case _ => p.level4Id
  }

  /** The one-key update a dropdown at level `k` sends: the picked id or null. */
  function PatchAt(k: nat, choice: Option<nat>): (p: Patch)
    requires k <= 4
    ensures forall j :: 0 <= j <= 4 && j != k ==> PatchField(p, j) == Absent
    ensures PatchField(p, k) == (if choice.Some? then Id(choice.value) else Null)
  {
    var f := if choice.Some? then Id(choice.value) else Null;
    match k
    case 0 => Patch(f, Absent, Absent, Absent, Absent)
    case 1 => Patch(Absent, f, Absent, Absent, Absent)
    case 2 => Patch(Absent, Absent, f, Absent, Absent)
    case 3 => Patch(Absent, Absent, Absent, f, Absent)
    case _ => Patch(Absent, Absent, Absent, Absent, f)
  }

  /** Level `k` lies strictly below a key the update carries, so the cascade
      clears it whatever the update or the previous path say. */
  predicate ClearedBy(p: Patch, k: nat)
    requires k <= 4
  {
    exists j :: 0 <= j < k && PatchField(p, j) != Absent
  }

  /** `setTaskSelection`'s new path: `{ ...prev, ...selection }`, then the
      `!== undefined` chain that nulls every level below the highest key
      present (project first, then levels 1, 2, 3). */
  function Select(prev: Selection, p: Patch): (r: Selection)
    ensures forall k :: 0 <= k <= 4 ==>
      Level(r, k) == if ClearedBy(p, k) then None else PatchField(p, k).Over(Level(prev, k))
  {
    var merged := Selection(
      p.projectId.Over(prev.projectId),
      p.level1Id.Over(prev.level1Id),
      p.level2Id.Over(prev.level2Id),
      p.level3Id.Over(prev.level3Id),
      p.level4Id.Over(prev.level4Id));
    var r :=
      if p.projectId != Absent then merged.(level1Id := None, level2Id := None, level3Id := None, level4Id := None)
      else if p.level1Id != Absent then merged.(level2Id := None, level3Id := None, level4Id := None)
      else if p.level2Id != Absent then merged.(level3Id := None, level4Id := None)
      else if p.level3Id != Absent then merged.(level4Id := None)
      else merged;
    assert PatchField(p, 0) == p.projectId && PatchField(p, 1) == p.level1Id;
    assert PatchField(p, 2) == p.level2Id && PatchField(p, 3) == p.level3Id;
    r
  }

  /** An update that carries only `level4Id` changes that level and nothing else. */
  lemma Level4OnlyResetsNothing(prev: Selection, x: Option<nat>)
    ensures Select(prev, PatchAt(4, x)) == prev.(level4Id := x)
  {
    var p := PatchAt(4, x);
    var r := Select(prev, p);
    assert !ClearedBy(p, 1) && !ClearedBy(p, 2) && !ClearedBy(p, 3);
    assert ClearedBy(p, 0) == false;
    assert Level(r, 0) == prev.projectId && Level(r, 1) == prev.level1Id;
    assert Level(r, 2) == prev.level2Id && Level(r, 3) == prev.level3Id;
    assert Level(r, 4) == x;
  }

  /** The id the context treats as the selected task: the first truthy one
      among levels 4, 3, 2 and 1 (the project alone does not count). */
  function Deepest(s: Selection): (r: Option<nat>)
    ensures r.Some? <==> exists k :: 1 <= k <= 4 && Truthy(Level(s, k))
    ensures r.Some? ==> exists k :: 1 <= k <= 4 && Level(s, k) == r && Truthy(r)
                                   && forall j :: k < j <= 4 ==> !Truthy(Level(s, j))
  {
    if Truthy(s.level4Id) then (assert Level(s, 4) == s.level4Id; s.level4Id)
    else if Truthy(s.level3Id) then (assert Level(s, 3) == s.level3Id; s.level3Id)
    else if Truthy(s.level2Id) then (assert Level(s, 2) == s.level2Id; s.level2Id)
    else if Truthy(s.level1Id) then (assert Level(s, 1) == s.level1Id; s.level1Id)
    else None
  }

  /** The two fields `setTaskSelection` recomputes from the new path. */
  datatype Derived = Derived(selectedTaskDetails: Option<Task>, canNavigateToTimer: bool)

  function Derive(tasks: seq<Task>, s: Selection): (d: Derived)
    ensures d.canNavigateToTimer <==> exists k :: 1 <= k <= 4 && Truthy(Level(s, k))
    ensures d.selectedTaskDetails.Some? ==>
      && Deepest(s).Some?
      && d.selectedTaskDetails.value.id == Deepest(s).value
      && exists i :: 0 <= i < |tasks| && tasks[i] == d.selectedTaskDetails.value
                    && forall j :: 0 <= j < i ==> tasks[j].id != Deepest(s).value
    ensures d.selectedTaskDetails.None? <==>
      Deepest(s).None? || forall i :: 0 <= i < |tasks| ==> tasks[i].id != Deepest(s).value
  {
    match Deepest(s)
    case None => Derived(None, false)
    case Some(id) => Derived(TaskById(tasks, id), true)
  }
}
