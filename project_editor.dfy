/** The project editor: its working copy of a project (the draft), the
    load-time normalisation of a stored project, the list edits on the
    draft, the commit rule shared by the autosave and publish paths, and the
    debounced autosave as a one-timer state machine.

    Time is abstracted away: the commit time (`new Date().toLocaleString()`)
    and the fresh id (`Date.now().toString()`) are parameters, and a timer
    firing is an explicit event. */
module ProjectEditor {
  import opened Records
  import opened Seqs
  import opened Storage

  /** The editor's working copy (`ProjectData`). */
  datatype ProjectData = ProjectData(
    id: Option<string>,
    title: string,
    description: string,
    materials: seq<string>,
    steps: seq<Step>,
    status: Option<Status>,
    lastEdited: Option<string>)

  const DEFAULT_TITLE := "New Maker Project"
  const BLANK_STEP := Step("1", "", None)

  /** The draft of a project that is not loaded from storage. */
  const INITIAL_DRAFT := ProjectData(None, DEFAULT_TITLE, "", [""], [BLANK_STEP], None, None)

  /** The editor never shows an empty materials or steps list. */
  predicate ListsNonEmpty(d: ProjectData) {
    |d.materials| > 0 && |d.steps| > 0
  }

  // ---------------------------------------------------------------------
  // Loading
  // ---------------------------------------------------------------------

  /** The draft built from a stored project when the editor opens it. */
  function Normalize(p: Project): (d: ProjectData)
    ensures ListsNonEmpty(d)
    ensures d.id == Some(p.id) && d.status == p.status && d.lastEdited == p.lastEdited
    ensures d.description == p.description
    ensures p.title != "" ==> d.title == p.title
    ensures p.title == "" ==> d.title == DEFAULT_TITLE
    ensures p.materials != [] ==> d.materials == p.materials
    ensures p.materials == [] ==> d.materials == [""]
    ensures p.steps != [] ==> d.steps == p.steps
    ensures p.steps == [] ==> d.steps == [BLANK_STEP]
  {
    ProjectData(Some(p.id),
          if p.title != "" then p.title else DEFAULT_TITLE,
          p.description,
          if |p.materials| > 0 then p.materials else [""],
          if |p.steps| > 0 then p.steps else [BLANK_STEP],
          p.status,
          p.lastEdited)
  }

  /** The draft the load effect installs: only with a (truthy) project id,
      a stored collection and a stored project with that id; it is the
      normalised first such project. */
  function LoadDraft(stored: Option<seq<Project>>, projectId: Option<string>): (r: Option<ProjectData>)
    ensures r.Some? <==> Truthy(projectId) && stored.Some?
                         && exists j :: 0 <= j < |stored.value| && stored.value[j].id == projectId.value
    ensures r.Some? ==>
      var i := FindIndex(stored.value, ProjectId, projectId.value);
      0 <= i && r.value == Normalize(stored.value[i]) && ListsNonEmpty(r.value)
  {
    if Truthy(projectId) && stored.Some? then
      var i := FindIndex(stored.value, ProjectId, projectId.value);
      if i == -1 then None
      else
        assert ProjectId(stored.value[i]) == projectId.value;
        Some(Normalize(stored.value[i]))
    else None
  }

  // ---------------------------------------------------------------------
  // Draft edits
  // ---------------------------------------------------------------------

  /** Typing into the title field. */
  function EditTitle(d: ProjectData, title: string): (r: ProjectData)
    ensures r.title == title && r.(title := d.title) == d
    ensures ListsNonEmpty(d) ==> ListsNonEmpty(r)
  {
    d.(title := title)
  }

  /** Typing into the description field. */
  function EditDescription(d: ProjectData, description: string): (r: ProjectData)
    ensures r.description == description && r.(description := d.description) == d
    ensures ListsNonEmpty(d) ==> ListsNonEmpty(r)
  {
    d.(description := description)
  }

  /** `addMaterial`: one blank material at the end. */
  function AddMaterial(d: ProjectData): (r: ProjectData)
    ensures r.materials == d.materials + [""]
    ensures r.(materials := d.materials) == d
    ensures ListsNonEmpty(d) ==> ListsNonEmpty(r)
  {
    d.(materials := d.materials + [""])
  }

  /** `addStep`: one blank step at the end; its id is `Date.now()`. */
  function AddStep(d: ProjectData, newId: string): (r: ProjectData)
    ensures r.steps == d.steps + [Step(newId, "", None)]
    ensures r.(steps := d.steps) == d
    ensures ListsNonEmpty(d) ==> ListsNonEmpty(r)
  {
    d.(steps := d.steps + [Step(newId, "", None)])
  }

  /** Typing into material field `i`. */
  function EditMaterial(d: ProjectData, i: nat, value: string): (r: ProjectData)
    requires i < |d.materials|
    ensures |r.materials| == |d.materials| && r.materials[i] == value
    ensures forall j :: 0 <= j < |d.materials| && j != i ==> r.materials[j] == d.materials[j]
    ensures r.(materials := d.materials) == d
    ensures ListsNonEmpty(d) ==> ListsNonEmpty(r)
  {
    d.(materials := d.materials[i := value])
  }

  /** `filter((_, idx) => idx !== i)`. */
  function DropAt<T>(s: seq<T>, i: nat): seq<T> {
    if i < |s| then s[..i] + s[i + 1..] else s
  }

  /** The remove button of material `i`: that entry goes, and an emptied
      list becomes one blank material. */
  function RemoveMaterial(d: ProjectData, i: nat): (r: ProjectData)
    ensures |r.materials| > 0
    ensures i < |d.materials| && |d.materials| > 1 ==>
      && |r.materials| == |d.materials| - 1
      && (forall j :: 0 <= j < i ==> r.materials[j] == d.materials[j])
      && (forall j :: i <= j < |r.materials| ==> r.materials[j] == d.materials[j + 1])
    ensures i < |d.materials| && |d.materials| == 1 ==> r.materials == [""]
    ensures i >= |d.materials| && d.materials != [] ==> r.materials == d.materials
    ensures r.(materials := d.materials) == d
    ensures ListsNonEmpty(d) ==> ListsNonEmpty(r)
  {
    var kept := DropAt(d.materials, i);
    d.(materials := if |kept| > 0 then kept else [""])
  }

  predicate OtherStep(stepId: string, s: Step) {
    s.id != stepId
  }

  /** The remove button of a step: every step with that id goes, and an
      emptied list becomes the blank step. */
  function RemoveStep(d: ProjectData, stepId: string): (r: ProjectData)
    ensures |r.steps| > 0
    ensures (forall j :: 0 <= j < |d.steps| ==> d.steps[j].id == stepId) ==> r.steps == [BLANK_STEP]
    ensures (exists j :: 0 <= j < |d.steps| && d.steps[j].id != stepId) ==>
      && IsSubseq(r.steps, d.steps)
      && (forall s :: s in r.steps <==> s in d.steps && s.id != stepId)
      && (forall s: Step :: s.id != stepId ==> multiset(r.steps)[s] == multiset(d.steps)[s])
    ensures r.(steps := d.steps) == d
    ensures ListsNonEmpty(d) ==> ListsNonEmpty(r)
  {
    var keep := (s: Step) => OtherStep(stepId, s);
    var kept := Filter(d.steps, keep);
    FilterSubseq(d.steps, keep);
    FilterMembers(d.steps, keep);
    assert forall s: Step :: s.id != stepId ==> multiset(kept)[s] == multiset(d.steps)[s] by {
      forall s: Step | s.id != stepId ensures multiset(kept)[s] == multiset(d.steps)[s] {
        FilterCount(d.steps, keep, s);
      }
    }
    assert (exists j :: 0 <= j < |d.steps| && d.steps[j].id != stepId) ==> kept != [] by {
      if j :| 0 <= j < |d.steps| && d.steps[j].id != stepId {
        assert d.steps[j] in kept;
      }
    }
    d.(steps := if |kept| > 0 then kept else [BLANK_STEP])
  }

  /** Typing into the text of step `i`. */
  function EditStepText(d: ProjectData, i: nat, text: string): (r: ProjectData)
    requires i < |d.steps|
    ensures |r.steps| == |d.steps| && r.steps[i] == d.steps[i].(text := text)
    ensures forall j :: 0 <= j < |d.steps| && j != i ==> r.steps[j] == d.steps[j]
    ensures r.(steps := d.steps) == d
    ensures ListsNonEmpty(d) ==> ListsNonEmpty(r)
  {
    d.(steps := d.steps[i := d.steps[i].(text := text)])
  }

  /** The image upload callback: the data URI becomes the image of every
      step with that id. */
  function AttachImage(d: ProjectData, stepId: string, image: string): (r: ProjectData)
    ensures |r.steps| == |d.steps|
    ensures forall j :: 0 <= j < |d.steps| && d.steps[j].id == stepId ==>
      r.steps[j] == d.steps[j].(image := Some(image))
    ensures forall j :: 0 <= j < |d.steps| && d.steps[j].id != stepId ==> r.steps[j] == d.steps[j]
    ensures r.(steps := d.steps) == d
    ensures ListsNonEmpty(d) ==> ListsNonEmpty(r)
  {
    d.(steps := MapWhere(d.steps, StepId, stepId, (s: Step) => s.(image := Some(image))))
  }

  // ---------------------------------------------------------------------
  // Committing a draft
  // ---------------------------------------------------------------------

  /** The id a commit writes: the editor's project id, or the fresh one. */
  function RecordId(projectId: Option<string>, freshId: string): string {
    if Truthy(projectId) then projectId.value else freshId
  }

  /** `{ ...data, id, lastEdited, status }`: the stored record holds the
      draft's fields only. */
  function ToRecord(d: ProjectData, id: string, now: string, status: Status): Project {
    Project(id, d.title, d.description, d.materials, d.steps, Some(status), Some(now),
            None, None, None, None)
  }

  /** The commit rule: with a project id every stored record with that id is
      replaced by `rec`; without one `rec` is appended. */
  function CommitRecord(projects: seq<Project>, projectId: Option<string>, rec: Project): (r: seq<Project>)
    ensures Truthy(projectId) ==>
      && |r| == |projects|
      && (forall i :: 0 <= i < |projects| && projects[i].id == projectId.value ==> r[i] == rec)
      && (forall i :: 0 <= i < |projects| && projects[i].id != projectId.value ==> r[i] == projects[i])
    ensures !Truthy(projectId) ==> r == projects + [rec]
  {
    if Truthy(projectId) then ReplaceWhere(projects, ProjectId, projectId.value, rec)
    else projects + [rec]
  }

  /** The project collection after committing `d` with `status`. */
  function Saved(stored: Option<seq<Project>>, projectId: Option<string>, d: ProjectData,
                 status: Status, now: string, freshId: string): seq<Project> {
    CommitRecord(stored.GetOr([]), projectId, ToRecord(d, RecordId(projectId, freshId), now, status))
  }

  /** The status the autosave writes: the draft's own, else draft. */
  function SaveStatus(d: ProjectData): Status {
    d.status.GetOr(Status.Draft)
  }

  /** With a project id that no stored project has, a commit adds nothing. */
  lemma SaveUnmatchedAddsNothing(stored: Option<seq<Project>>, projectId: Option<string>, d: ProjectData,
                                 status: Status, now: string, freshId: string)
    requires Truthy(projectId)
    requires forall j :: 0 <= j < |stored.GetOr([])| ==> stored.GetOr([])[j].id != projectId.value
    ensures Saved(stored, projectId, d, status, now, freshId) == stored.GetOr([])
  {
    ReplaceWhereNoMatch(stored.GetOr([]), ProjectId, projectId.value,
                        ToRecord(d, RecordId(projectId, freshId), now, status));
  }

  /** Without a project id a commit appends one record, with the fresh id and
      the draft's contents. */
  lemma SaveWithoutIdAppends(stored: Option<seq<Project>>, projectId: Option<string>, d: ProjectData,
                             status: Status, now: string, freshId: string)
    requires !Truthy(projectId)
    ensures var r := Saved(stored, projectId, d, status, now, freshId);
      && |r| == |stored.GetOr([])| + 1
      && r[..|r| - 1] == stored.GetOr([])
      && r[|r| - 1].id == freshId && r[|r| - 1].status == Some(status)
      && r[|r| - 1].materials == d.materials && r[|r| - 1].steps == d.steps
  {
  }

  /** The editor's project id never changes, so two autosaves of a new
      project leave two records: one per fresh id. */
  lemma NewProjectSavesDuplicate(stored: Option<seq<Project>>, projectId: Option<string>, d: ProjectData,
                                 now1: string, id1: string, now2: string, id2: string)
    requires !Truthy(projectId)
    ensures var once := Saved(stored, projectId, d, SaveStatus(d), now1, id1);
      var twice := Saved(Some(once), projectId, d, SaveStatus(d), now2, id2);
      && |twice| == |stored.GetOr([])| + 2
      && twice[|twice| - 2].id == id1 && twice[|twice| - 1].id == id2
      && twice[|twice| - 2].steps == twice[|twice| - 1].steps == d.steps
  {
  }

  /** With a project id, committing the same draft again yields the same
      collection: one record per stored id, no duplicates. */
  lemma {:induction false} ResaveIdempotent(stored: Option<seq<Project>>, projectId: Option<string>, d: ProjectData,
                                            status: Status, now: string, freshId: string)
    requires Truthy(projectId)
    ensures var once := Saved(stored, projectId, d, status, now, freshId);
      Saved(Some(once), projectId, d, status, now, freshId) == once
  {
    var ps := stored.GetOr([]);
    var rec := ToRecord(d, RecordId(projectId, freshId), now, status);
    var once := ReplaceWhere(ps, ProjectId, projectId.value, rec);
    var twice := ReplaceWhere(once, ProjectId, projectId.value, rec);
    assert |twice| == |once|;
    forall i | 0 <= i < |once| ensures twice[i] == once[i] {
      if ps[i].id == projectId.value {
        assert once[i] == rec && rec.id == projectId.value;
      } else {
        assert once[i] == ps[i];
      }
    }
  }

  /** Committing over a stored project keeps only the draft's fields: its
      comments, awards, photos, reactions, views and author are dropped. */
  lemma SaveDropsSocial(stored: Option<seq<Project>>, projectId: Option<string>, d: ProjectData,
                        status: Status, now: string, freshId: string, i: nat)
    requires Truthy(projectId) && stored.Some?
    requires i < |stored.value| && stored.value[i].id == projectId.value
    ensures var r := Saved(stored, projectId, d, status, now, freshId);
      && r[i].social == None && r[i].reactions == None && r[i].views == None && r[i].authorId == None
      && r[i].id == projectId.value && r[i].title == d.title
  {
  }

  /** A new project titled "Solar Rover" with the material "Motor" and one
      step "Attach wheels", autosaved into an empty collection, is stored as
      one draft record under the fresh id. */
  lemma SolarRoverAutosave(now: string, freshId: string)
    ensures var d := EditStepText(EditMaterial(EditTitle(INITIAL_DRAFT, "Solar Rover"), 0, "Motor"), 0, "Attach wheels");
      Saved(Some([]), None, d, SaveStatus(d), now, freshId)
        == [Project(freshId, "Solar Rover", "", ["Motor"], [Step("1", "Attach wheels", None)],
                    Some(Status.Draft), Some(now), None, None, None, None)]
  {
    var d := EditStepText(EditMaterial(EditTitle(INITIAL_DRAFT, "Solar Rover"), 0, "Motor"), 0, "Attach wheels");
    assert d.materials == ["Motor"] && d.steps == [Step("1", "Attach wheels", None)];
  }

  /** The commit writes the draft as the ids dictate and touches nothing
      but the project collection. */
  method SaveProject(b: Browser, projectId: Option<string>, d: ProjectData, status: Status, now: string, freshId: string)
    modifies b
    ensures b.projects == Some(Saved(old(b.projects), projectId, d, status, now, freshId))
    ensures b.users == old(b.users) && b.active == old(b.active)
  {
    var projects := if b.projects.Some? then b.projects.value else [];
    var projectToSave := ToRecord(d, RecordId(projectId, freshId), now, status);
    if Truthy(projectId) {
      projects := ReplaceWhere(projects, ProjectId, projectId.value, projectToSave);
    } else {
      projects := projects + [projectToSave];
    }
    b.projects := Some(projects);
  }

  // ---------------------------------------------------------------------
  // The editor component
  // ---------------------------------------------------------------------

  class Editor {
    const projectId: Option<string>
    /** The `data` state. */
    var data: ProjectData
    /** The armed autosave timers, each holding the draft its save writes. */
    var timers: seq<ProjectData>
    var mounted: bool

    /** At most one save is pending, and it would write the current draft. */
    ghost predicate Valid()
      reads this
    {
      && |timers| <= 1
      && (forall t :: t in timers ==> t == data)
      && (!mounted ==> timers == [])
    }

    /** Mounting: the load effect installs the stored project, if any, and
      the autosave effect arms a timer for the resulting draft. */
    constructor (projectId: Option<string>, b: Browser)
      ensures Valid() && mounted && this.projectId == projectId
      ensures data == LoadDraft(b.projects, projectId).GetOr(INITIAL_DRAFT)
      ensures timers == [data]
    {
      this.projectId := projectId;
      data := LoadDraft(b.projects, projectId).GetOr(INITIAL_DRAFT);
      timers := [data];
      mounted := true;
    }

    /** `setData` with a new draft. The effect on `[data]` clears the
      pending timer and arms a new one for the new draft. */
    method SetData(d: ProjectData)
      requires Valid() && mounted
      modifies this
      ensures Valid() && mounted && data == d && timers == [d]
    {
      data := d;
      timers := [];
      timers := timers + [data];
    }

    /** The pending timer fires: its save commits the draft it holds. */
    method FireTimer(b: Browser, now: string, freshId: string)
      requires Valid()
      modifies this, b
      ensures Valid() && timers == [] && data == old(data) && mounted == old(mounted)
      ensures old(timers) == [] ==> b.projects == old(b.projects)
      ensures old(timers) != [] ==>
        b.projects == Some(Saved(old(b.projects), projectId, data, SaveStatus(data), now, freshId))
      ensures b.users == old(b.users) && b.active == old(b.active)
    {
      if timers != [] {
        var snapshot := timers[0];
        assert snapshot in timers;
        timers := timers[1..];
        SaveProject(b, projectId, snapshot, SaveStatus(snapshot), now, freshId);
      }
    }

    /** `handlePublish`: the draft becomes completed and is committed at
      once; the change of `data` re-arms the autosave. */
    method Publish(b: Browser, now: string, freshId: string)
      requires Valid() && mounted
      modifies this, b
      ensures Valid() && mounted
      ensures data == old(data).(status := Some(Completed)) && timers == [data]
      ensures b.projects == Some(Saved(old(b.projects), projectId, data, Completed, now, freshId))
      ensures b.users == old(b.users) && b.active == old(b.active)
    {
      var updatedData := data.(status := Some(Completed));
      SetData(updatedData);
      SaveProject(b, projectId, updatedData, Completed, now, freshId);
    }

    /** Unmounting: the pending timer is cleared and nothing is committed. */
    method Teardown()
      requires Valid()
      modifies this
      ensures Valid() && !mounted && timers == [] && data == old(data)
    {
      timers := [];
      mounted := false;
    }
  }
}
