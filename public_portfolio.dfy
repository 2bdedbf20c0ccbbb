/** The public portfolio: the gallery of completed projects, the record
    updates a visitor causes (views, reactions, comments, awards) and the
    derived views of one project (award row and inventory, shown steps and
    materials, comments newest first). */
module PublicPortfolio {
  import opened Records
  import opened Seqs
  import opened Storage
  import opened Text
  import opened Gamification
  import ProjectEditor

  // ---------------------------------------------------------------------
  // Gallery
  // ---------------------------------------------------------------------

  /** The completed-only filter of `loadProjects`. */
  function Gallery(projects: seq<Project>): seq<Project> {
    Filter(projects, IsCompleted)
  }

  /** The gallery lists exactly the completed projects, in stored order and
      with their stored multiplicity. */
  lemma GalleryExactlyCompleted(projects: seq<Project>)
    ensures forall p :: p in Gallery(projects) <==> p in projects && IsCompleted(p)
    ensures IsSubseq(Gallery(projects), projects)
    ensures forall p :: IsCompleted(p) ==> multiset(Gallery(projects))[p] == multiset(projects)[p]
  {
    FilterMembers(projects, IsCompleted);
    FilterSubseq(projects, IsCompleted);
    forall p | IsCompleted(p) ensures multiset(Gallery(projects))[p] == multiset(projects)[p] {
      FilterCount(projects, IsCompleted, p);
    }
  }

  /** A publish commit lists the published record in the gallery exactly
      when the editor had no project id, or had one that a stored project
      carries. */
  lemma PublishedIsListed(stored: Option<seq<Project>>, projectId: Option<string>, d: ProjectEditor.ProjectData,
                          now: string, freshId: string)
    ensures var rec := ProjectEditor.ToRecord(d, ProjectEditor.RecordId(projectId, freshId), now, Completed);
      var after := ProjectEditor.Saved(stored, projectId, d, Completed, now, freshId);
      rec in Gallery(after) <==>
        !Truthy(projectId) || exists j :: 0 <= j < |stored.GetOr([])| && stored.GetOr([])[j].id == projectId.value
  {
    var ps := stored.GetOr([]);
    var rec := ProjectEditor.ToRecord(d, ProjectEditor.RecordId(projectId, freshId), now, Completed);
    var after := ProjectEditor.Saved(stored, projectId, d, Completed, now, freshId);
    FilterMembers(after, IsCompleted);
    assert IsCompleted(rec);
    if !Truthy(projectId) {
      assert after[|ps|] == rec;
    } else if j :| 0 <= j < |ps| && ps[j].id == projectId.value {
      assert after[j] == rec;
    } else {
      ProjectEditor.SaveUnmatchedAddsNothing(stored, projectId, d, Completed, now, freshId);
      assert forall k :: 0 <= k < |ps| ==> ps[k] != rec;
    }
  }

  /** Publishing a new project (the editor has no truthy id) puts exactly
      the published record at the end of the gallery and keeps the gallery
      before it. */
  lemma PublishNewExtendsGallery(stored: Option<seq<Project>>, projectId: Option<string>,
                                 d: ProjectEditor.ProjectData, now: string, freshId: string)
    requires !Truthy(projectId)
    ensures Gallery(ProjectEditor.Saved(stored, projectId, d, Completed, now, freshId))
      == Gallery(stored.GetOr([])) + [ProjectEditor.ToRecord(d, freshId, now, Completed)]
  {
    var rec := ProjectEditor.ToRecord(d, freshId, now, Completed);
    FilterAppend(stored.GetOr([]), [rec], IsCompleted);
    assert [rec][1..] == [];
  }

  /** The selection after a reload: the gallery's first project with the
      selected id, or the old selection when the gallery has none. */
  function Resync(selected: Option<Project>, gallery: seq<Project>): (r: Option<Project>)
    ensures r.Some? <==> selected.Some?
    ensures r.Some? ==> r.value.id == selected.value.id
    ensures r.Some? ==> r.value in gallery || r == selected
    ensures selected.Some? && (exists k :: 0 <= k < |gallery| && gallery[k].id == selected.value.id) ==>
      r.value in gallery
    ensures r.Some? && r.value in gallery ==>
      exists k :: 0 <= k < |gallery| && gallery[k] == r.value &&
        forall m :: 0 <= m < k ==> gallery[m].id != selected.value.id
  {
    if selected.None? then None
    else
      var i := FindIndex(gallery, ProjectId, selected.value.id);
      if i == -1 then selected
      else
        assert forall m :: 0 <= m < i ==> gallery[m].id != selected.value.id;
        Some(gallery[i])
  }

  // ---------------------------------------------------------------------
  // Views and reactions
  // ---------------------------------------------------------------------

  /** `{ ...p, views: (p.views || 0) + 1 }`. */
  function Viewed(p: Project): (q: Project)
    ensures q.views == Some(p.views.GetOr(0) + 1)
    ensures q.(views := p.views) == p
  {
    p.(views := Some(p.views.GetOr(0) + 1))
  }

  /** The collection `openProjectDetail` writes back. */
  function IncrementViews(projects: seq<Project>, projectId: string): seq<Project> {
    MapWhere(projects, ProjectId, projectId, Viewed)
  }

  /** Opening a project adds one view to every record with its id (a
      missing count being 0) and changes nothing else. */
  lemma IncrementViewsShape(projects: seq<Project>, projectId: string)
    ensures var r := IncrementViews(projects, projectId);
      && |r| == |projects|
      && (forall i :: 0 <= i < |r| && projects[i].id == projectId ==>
            r[i].views == Some(projects[i].views.GetOr(0) + 1) && r[i].(views := projects[i].views) == projects[i])
      && (forall i :: 0 <= i < |r| && projects[i].id != projectId ==> r[i] == projects[i])
  {
  }

  datatype ReactionKind = Love | Appreciate | Badge

  const NoReactions := Reactions(0, 0, 0, None)

  /** The reaction update: the counter named by the kind goes up by one,
      starting from zeros when the project has none. A `'badge'` reaction
      writes its own `badge` key, not the `badges` counter. */
  function Reacted(p: Project, kind: ReactionKind): (q: Project)
    ensures q.reactions.Some? && q.(reactions := p.reactions) == p
    ensures var old_ := p.reactions.GetOr(NoReactions); var new_ := q.reactions.value;
      && new_.badges == old_.badges
      && new_.love == old_.love + (if kind == Love then 1 else 0)
      && new_.appreciate == old_.appreciate + (if kind == Appreciate then 1 else 0)
      && new_.badge == (if kind == Badge then Some(old_.badge.GetOr(0) + 1) else old_.badge)
  {
    var reactions := p.reactions.GetOr(NoReactions);
    var reactions' := match kind
      case Love => reactions.(love := reactions.love + 1)
      case Appreciate => reactions.(appreciate := reactions.appreciate + 1)
      case Badge => reactions.(badge := Some(reactions.badge.GetOr(0) + 1));
    p.(reactions := Some(reactions'))
  }

  /** The collection `handleReaction` writes back. */
  function ApplyReaction(projects: seq<Project>, projectId: string, kind: ReactionKind): seq<Project> {
    MapWhere(projects, ProjectId, projectId, (p: Project) => Reacted(p, kind))
  }

  /** A reaction changes only the reactions of the records with the id. */
  lemma ApplyReactionShape(projects: seq<Project>, projectId: string, kind: ReactionKind)
    ensures var r := ApplyReaction(projects, projectId, kind);
      && |r| == |projects|
      && (forall i :: 0 <= i < |r| && projects[i].id == projectId ==> r[i] == Reacted(projects[i], kind))
      && (forall i :: 0 <= i < |r| && projects[i].id != projectId ==> r[i] == projects[i])
  {
  }

  /** Neither a view nor a reaction changes which projects are completed, so
      the gallery keeps its length. */
  lemma {:induction false} UpdatesKeepGallerySize(projects: seq<Project>, projectId: string, kind: ReactionKind)
    ensures |Gallery(IncrementViews(projects, projectId))| == |Gallery(projects)|
    ensures |Gallery(ApplyReaction(projects, projectId, kind))| == |Gallery(projects)|
  {
    if projects != [] {
      UpdatesKeepGallerySize(projects[1..], projectId, kind);
      assert IncrementViews(projects, projectId)[1..] == IncrementViews(projects[1..], projectId);
      assert ApplyReaction(projects, projectId, kind)[1..] == ApplyReaction(projects[1..], projectId, kind);
    }
  }

  // ---------------------------------------------------------------------
  // Awards shown on a project page
  // ---------------------------------------------------------------------

  /** `AWARDS.find(aw => aw.id === a)`. */
  function Lookup(awardId: string): (r: Option<AwardDef>)
    ensures r.Some? <==> exists k :: 0 <= k < |AWARDS| && AWARDS[k].id == awardId
    ensures r.Some? ==> r.value in AWARDS && r.value.id == awardId
  {
    var i := FindIndex(AWARDS, AwardId, awardId);
    if i == -1 then None else Some(AWARDS[i])
  }

  /** The mini award row: the catalog entries of the first five awards, an
      unknown id showing nothing. */
  function MiniAwards(awards: seq<string>): (r: seq<Option<AwardDef>>)
    ensures |r| == if |awards| <= 5 then |awards| else 5
    ensures forall i :: 0 <= i < |r| ==> r[i] == Lookup(awards[i])
  {
    var n := if |awards| <= 5 then |awards| else 5;
    seq(n, i requires 0 <= i < n => Lookup(awards[i]))
  }

  /** The `+N` badge after the mini row. */
  function MoreAwards(awards: seq<string>): Option<nat> {
    if |awards| > 5 then Some(|awards| - 5) else None
  }

  /** The mini row and its overflow badge account for every award exactly
      once, and the overflow badge appears only past five. */
  lemma MiniRowAccountsForAll(awards: seq<string>)
    ensures |MiniAwards(awards)| + MoreAwards(awards).GetOr(0) == |awards|
    ensures MoreAwards(awards).Some? <==> |awards| > 5
    ensures |MiniAwards(awards)| <= 5
  {
  }

  /** `projectAwards.filter(pa => pa === id).length`. */
  function Occurrences(awards: seq<string>, id: string): nat {
    |Filter(awards, (x: string) => x == id)|
  }

  lemma {:induction false} AllEqualCount(s: seq<string>, x: string)
    requires forall i :: 0 <= i < |s| ==> s[i] == x
    ensures multiset(s)[x] == |s|
  {
    if s != [] {
      assert s == [s[0]] + s[1..];
      AllEqualCount(s[1..], x);
    }
  }

  /** The filter count is the number of occurrences of the id. */
  lemma OccurrencesCount(awards: seq<string>, id: string)
    ensures Occurrences(awards, id) == multiset(awards)[id]
  {
    var f := Filter(awards, (x: string) => x == id);
    FilterCount(awards, (x: string) => x == id, id);
    AllEqualCount(f, id);
  }

  datatype InventoryItem = InventoryItem(award: AwardDef, count: nat)

  /** The achievements list over a catalog: one item per catalog entry that
      occurs, with its count, in catalog order. */
  function InventoryOf(catalog: seq<AwardDef>, awards: seq<string>): (r: seq<InventoryItem>)
    ensures |r| <= |catalog|
    ensures forall k :: 0 <= k < |r| ==>
      && r[k].award in catalog
      && r[k].count == multiset(awards)[r[k].award.id]
      && r[k].count > 0
  {
    if catalog == [] then []
    else
      var a := catalog[0];
      OccurrencesCount(awards, a.id);
      var c := Occurrences(awards, a.id);
      var rest := InventoryOf(catalog[1..], awards);
      if c == 0 then rest
      else
        var r := [InventoryItem(a, c)] + rest;
        assert r[0].award == a;
        assert forall k :: 0 <= k < |rest| ==> r[k + 1] == rest[k];
        r
  }

  /** Every catalog entry that occurs in the awards is listed. */
  lemma {:induction false} InventoryComplete(catalog: seq<AwardDef>, awards: seq<string>, a: AwardDef)
    requires a in catalog && multiset(awards)[a.id] > 0
    ensures exists k :: 0 <= k < |InventoryOf(catalog, awards)| && InventoryOf(catalog, awards)[k].award == a
  {
    var r := InventoryOf(catalog, awards);
    var rest := InventoryOf(catalog[1..], awards);
    OccurrencesCount(awards, catalog[0].id);
    if a == catalog[0] {
      assert r[0].award == a;
    } else {
      InventoryComplete(catalog[1..], awards, a);
      var k :| 0 <= k < |rest| && rest[k].award == a;
      if Occurrences(awards, catalog[0].id) == 0 {
        assert r[k].award == a;
      } else {
        assert r[k + 1].award == a;
      }
    }
  }

  /** The achievements list of a project's awards. */
  function Inventory(awards: seq<string>): seq<InventoryItem> {
    InventoryOf(AWARDS, awards)
  }

  /** Over a catalog without repeated entries, no entry is listed twice. */
  lemma {:induction false} InventoryDistinct(catalog: seq<AwardDef>, awards: seq<string>)
    requires Distinct(catalog)
    ensures forall k, l :: 0 <= k < l < |InventoryOf(catalog, awards)| ==>
      InventoryOf(catalog, awards)[k].award != InventoryOf(catalog, awards)[l].award
  {
    if catalog != [] {
      DistinctTail(catalog);
      var rest := InventoryOf(catalog[1..], awards);
      InventoryDistinct(catalog[1..], awards);
      var c := Occurrences(awards, catalog[0].id);
      if c != 0 {
        var r := [InventoryItem(catalog[0], c)] + rest;
        forall k, l | 0 <= k < l < |r| ensures r[k].award != r[l].award {
          assert r[l] == rest[l - 1];
          if k > 0 {
            assert r[k] == rest[k - 1];
          } else {
            assert rest[l - 1].award in catalog[1..];
          }
        }
        assert InventoryOf(catalog, awards) == r;
      } else {
        assert InventoryOf(catalog, awards) == rest;
      }
    }
  }

  lemma AwardsDistinct()
    ensures Distinct(AWARDS)
  {
    assert AWARDS[0].id[0] == 'c' && AWARDS[1].id[0] == 'h' && AWARDS[2].id[0] == 'i' && AWARDS[3].id[0] == 'a';
  }

  /** The inventory of a project: each award of the catalog that the project
      holds appears once, with its number of occurrences; ids outside the
      catalog are not counted. */
  lemma InventoryCounts(awards: seq<string>)
    ensures var r := Inventory(awards);
      && (forall k, l :: 0 <= k < l < |r| ==> r[k].award != r[l].award)
      && (forall k :: 0 <= k < |r| ==> r[k].award in AWARDS && r[k].count == multiset(awards)[r[k].award.id] > 0)
      && (forall a :: a in AWARDS && multiset(awards)[a.id] > 0 ==> exists k :: 0 <= k < |r| && r[k].award == a)
  {
    AwardsDistinct();
    InventoryDistinct(AWARDS, awards);
    forall a | a in AWARDS && multiset(awards)[a.id] > 0
      ensures exists k :: 0 <= k < |Inventory(awards)| && Inventory(awards)[k].award == a
    {
      InventoryComplete(AWARDS, awards, a);
      assert Inventory(awards) == InventoryOf(AWARDS, awards);
    }
  }

  /** An award given twice to a project without awards is held twice and
      listed once in the inventory, with count 2. */
  lemma AwardTwiceCountsTwo(p: Project, k: nat)
    requires k < |AWARDS| && SocialOf(p).awards == []
    ensures var q := Awarded(Awarded(p, AWARDS[k].id), AWARDS[k].id);
      && SocialOf(q).awards == [AWARDS[k].id, AWARDS[k].id]
      && InventoryItem(AWARDS[k], 2) in Inventory(SocialOf(q).awards)
  {
    var a := AWARDS[k].id;
    var awards := SocialOf(Awarded(Awarded(p, a), a)).awards;
    assert awards == [a, a];
    assert multiset(awards)[a] == 2;
    InventoryCounts(awards);
    var j :| 0 <= j < |Inventory(awards)| && Inventory(awards)[j].award == AWARDS[k];
    assert Inventory(awards)[j] == InventoryItem(AWARDS[k], 2);
  }

  // ---------------------------------------------------------------------
  // Steps, materials and comments shown on a project page
  // ---------------------------------------------------------------------

  /** `s.text.trim() || s.image`. */
  predicate StepShown(s: Step) {
    Trim(s.text) != [] || Truthy(s.image)
  }

  /** `m.trim()`. */
  predicate MaterialShown(m: string) {
    Trim(m) != []
  }

  function ShownSteps(steps: seq<Step>): seq<Step> {
    Filter(steps, StepShown)
  }

  function ShownMaterials(materials: seq<string>): seq<string> {
    Filter(materials, MaterialShown)
  }

  /** The instructions show exactly the steps with non-blank text or an
      image, in order. */
  lemma ShownStepsExactly(steps: seq<Step>)
    ensures forall s :: s in ShownSteps(steps) <==> s in steps && (!IsBlank(s.text) || Truthy(s.image))
    ensures IsSubseq(ShownSteps(steps), steps)
    ensures forall s: Step :: !IsBlank(s.text) || Truthy(s.image) ==> multiset(ShownSteps(steps))[s] == multiset(steps)[s]
  {
    FilterMembers(steps, StepShown);
    FilterSubseq(steps, StepShown);
    forall s: Step ensures StepShown(s) <==> !IsBlank(s.text) || Truthy(s.image) {
      TrimEmptyIffBlank(s.text);
    }
    forall s: Step | StepShown(s) ensures multiset(ShownSteps(steps))[s] == multiset(steps)[s] {
      FilterCount(steps, StepShown, s);
    }
  }

  /** The materials list shows exactly the non-blank materials, in order. */
  lemma ShownMaterialsExactly(materials: seq<string>)
    ensures forall m :: m in ShownMaterials(materials) <==> m in materials && !IsBlank(m)
    ensures IsSubseq(ShownMaterials(materials), materials)
    ensures forall m: string :: !IsBlank(m) ==> multiset(ShownMaterials(materials))[m] == multiset(materials)[m]
  {
    FilterMembers(materials, MaterialShown);
    FilterSubseq(materials, MaterialShown);
    forall m: string ensures MaterialShown(m) <==> !IsBlank(m) {
      TrimEmptyIffBlank(m);
    }
    forall m: string | MaterialShown(m) ensures multiset(ShownMaterials(materials))[m] == multiset(materials)[m] {
      FilterCount(materials, MaterialShown, m);
    }
  }

  /** Comments with later timestamps first. */
  ghost predicate NewestFirst(s: seq<Comment>) {
    forall k, l :: 0 <= k < l < |s| ==> s[k].timestamp >= s[l].timestamp
  }

  /** `s[..i + 1]` is newest first once the comment at `j` is ignored. */
  ghost predicate NewestFirstBut(s: seq<Comment>, j: nat, i: nat)
    requires i < |s|
  {
    forall k, l :: 0 <= k < l <= i && k != j && l != j ==> s[k].timestamp >= s[l].timestamp
  }

  /** The comment at `j` is at least as new as every one after it up to `i`. */
  ghost predicate NewerThanRest(s: seq<Comment>, j: nat, i: nat)
    requires j <= i < |s|
  {
    forall l :: j < l <= i ==> s[j].timestamp >= s[l].timestamp
  }

  /** Swapping the sinking comment with an older predecessor moves the gap
      one place left and keeps the comments. */
  lemma SinkStep(s: seq<Comment>, j: nat, i: nat)
    requires 0 < j <= i < |s|
    requires NewestFirstBut(s, j, i) && NewerThanRest(s, j, i)
    requires s[j - 1].timestamp < s[j].timestamp
    ensures NewestFirstBut(s[j - 1 := s[j]][j := s[j - 1]], j - 1, i)
    ensures NewerThanRest(s[j - 1 := s[j]][j := s[j - 1]], j - 1, i)
    ensures multiset(s[j - 1 := s[j]][j := s[j - 1]]) == multiset(s)
  {
    var t := s[j - 1 := s[j]][j := s[j - 1]];
    forall k, l | 0 <= k < l <= i && k != j - 1 && l != j - 1
      ensures t[k].timestamp >= t[l].timestamp
    {
      if l == j {
        assert t[l] == s[j - 1];
      }
    }
  }

  /** One pass of the insertion: `a[i]` moves left past every earlier
      comment that is older, so that `a[..i + 1]` is newest first. */
  method SinkInto(a: array<Comment>, i: nat)
    requires i < a.Length
    requires forall k, l :: 0 <= k < l < i ==> a[k].timestamp >= a[l].timestamp
    modifies a
    ensures forall k, l :: 0 <= k < l <= i ==> a[k].timestamp >= a[l].timestamp
    ensures multiset(a[..]) == multiset(old(a[..]))
  {
    var j := i;
    while j > 0 && a[j - 1].timestamp < a[j].timestamp
      invariant 0 <= j <= i
      invariant NewestFirstBut(a[..], j, i) && NewerThanRest(a[..], j, i)
      invariant multiset(a[..]) == multiset(old(a[..]))
    {
      SinkStep(a[..], j, i);
      a[j - 1], a[j] := a[j], a[j - 1];
      j := j - 1;
    }
  }

  /** `comments.sort((a, b) => b.timestamp - a.timestamp)`, in place. */
  method SortNewestFirst(a: array<Comment>)
    modifies a
    ensures NewestFirst(a[..])
    ensures multiset(a[..]) == multiset(old(a[..]))
  {
    var i := 0;
    while i < a.Length
      invariant 0 <= i <= a.Length
      invariant forall k, l :: 0 <= k < l < i ==> a[k].timestamp >= a[l].timestamp
      invariant multiset(a[..]) == multiset(old(a[..]))
    {
      SinkInto(a, i);
      i := i + 1;
    }
  }

  // ---------------------------------------------------------------------
  // The portfolio component
  // ---------------------------------------------------------------------

  class Portfolio {
    /** The `projects` state: the gallery. */
    var gallery: seq<Project>
    var selected: Option<Project>
    var showPresentation: bool
    var commentText: string
    var activeUser: Option<User>

    /** The gallery holds completed projects only. */
    ghost predicate Valid()
      reads this
    {
      forall k :: 0 <= k < |gallery| ==> IsCompleted(gallery[k])
    }

    /** Mounting: the active user is read and the projects are loaded. */
    constructor (b: Browser)
      ensures Valid()
      ensures activeUser == b.active && selected == None && commentText == "" && !showPresentation
      ensures gallery == if b.projects.Some? then Gallery(b.projects.value) else []
    {
      gallery := [];
      selected := None;
      showPresentation := false;
      commentText := "";
      activeUser := b.active;
      new;
      LoadProjects(b);
    }

    /** `loadProjects`: with a stored collection the gallery is refreshed and
      an open project is replaced by its reloaded copy. */
    method LoadProjects(b: Browser)
      requires Valid()
      modifies this
      ensures Valid()
      ensures b.projects.None? ==> gallery == old(gallery) && selected == old(selected)
      ensures b.projects.Some? ==>
        gallery == Gallery(b.projects.value) && selected == Resync(old(selected), gallery)
      ensures activeUser == old(activeUser) && commentText == old(commentText)
      ensures showPresentation == old(showPresentation)
    {
      var saved := b.projects;
      if saved.Some? {
        var completed := Gallery(saved.value);
        gallery := completed;
        if selected.Some? {
          var i := FindIndex(completed, ProjectId, selected.value.id);
          if i != -1 {
            selected := Some(completed[i]);
          }
        }
      }
    }

    /** `openProjectDetail`: the project is selected (as the gallery showed
      it) and, with a stored collection, its view count goes up. */
    method OpenProjectDetail(b: Browser, project: Project)
      requires Valid()
      modifies this, b
      ensures Valid()
      ensures selected == Some(project)
      ensures old(b.projects).None? ==> b.projects == old(b.projects) && gallery == old(gallery)
      ensures old(b.projects).Some? ==>
        && b.projects == Some(IncrementViews(old(b.projects).value, project.id))
        && gallery == Gallery(b.projects.value)
      ensures b.users == old(b.users) && b.active == old(b.active)
      ensures activeUser == old(activeUser) && commentText == old(commentText)
      ensures showPresentation == old(showPresentation)
    {
      selected := Some(project);
      var saved := b.projects;
      if saved.Some? {
        var updated := IncrementViews(saved.value, project.id);
        b.projects := Some(updated);
        gallery := Gallery(updated);
      }
    }

    /** `handleReaction`: with a stored collection the reaction is written;
      then the acting user gains GIVE_APPRECIATION and the gallery reloads.
      Without an active user the handler stops after the write. */
    method HandleReaction(b: Browser, kind: ReactionKind, projectId: string)
      requires Valid()
      modifies this, b
      ensures Valid()
      ensures old(b.projects).None? ==>
        && b.projects == old(b.projects) && b.users == old(b.users) && b.active == old(b.active)
        && gallery == old(gallery) && selected == old(selected)
      ensures old(b.projects).Some? ==> b.projects == Some(ApplyReaction(old(b.projects).value, projectId, kind))
      ensures old(b.projects).Some? && activeUser.None? ==>
        && b.users == old(b.users) && b.active == old(b.active)
        && gallery == old(gallery) && selected == old(selected)
      ensures old(b.projects).Some? && activeUser.Some? ==>
        var acc := Credit(AllUsers(old(b.users)), old(b.active), activeUser.value.id, GIVE_APPRECIATION);
        && b.users == Some(acc.users) && b.active == acc.active
        && gallery == Gallery(b.projects.value) && selected == Resync(old(selected), gallery)
      ensures activeUser == old(activeUser) && commentText == old(commentText)
      ensures showPresentation == old(showPresentation)
    {
      var saved := b.projects;
      if saved.Some? {
        var updated := ApplyReaction(saved.value, projectId, kind);
        b.projects := Some(updated);
        if activeUser.None? {
          return;
        }
        UpdateUserPoints(b, activeUser.value.id, GIVE_APPRECIATION);
        LoadProjects(b);
      }
    }

    /** Typing into the comment box. */
    method SetCommentText(text: string)
      modifies this
      ensures commentText == text
      ensures gallery == old(gallery) && selected == old(selected) && activeUser == old(activeUser)
      ensures showPresentation == old(showPresentation)
    {
      commentText := text;
    }

    /** `handlePostComment`: blank text or no open project does nothing;
      otherwise the comment is added as `addComment` does, the box is
      cleared and the gallery reloads. */
    method HandlePostComment(b: Browser, commentId: string, timestamp: int)
      requires Valid()
      modifies this, b
      ensures Valid()
      ensures IsBlank(old(commentText)) || old(selected).None? ==>
        && b.projects == old(b.projects) && b.users == old(b.users) && b.active == old(b.active)
        && gallery == old(gallery) && selected == old(selected) && commentText == old(commentText)
      ensures !IsBlank(old(commentText)) && old(selected).Some? ==>
        && commentText == ""
        && (old(b.active).None? || old(b.projects).None? ==>
              b.projects == old(b.projects) && b.users == old(b.users) && b.active == old(b.active))
        && (old(b.active).Some? && old(b.projects).Some? ==>
              var user := old(b.active).value;
              var acc := Credit(AllUsers(old(b.users)), old(b.active), user.id, LEAVE_COMMENT);
              && b.projects == Some(CommentAdded(old(b.projects).value, old(selected).value.id,
                                                 NewComment(user, old(commentText), commentId, timestamp)))
              && b.users == Some(acc.users) && b.active == acc.active)
      ensures !IsBlank(old(commentText)) && old(selected).Some? ==>
        && (b.projects.None? ==> gallery == old(gallery) && selected == old(selected))
        && (b.projects.Some? ==> gallery == Gallery(b.projects.value) && selected == Resync(old(selected), gallery))
      ensures activeUser == old(activeUser) && showPresentation == old(showPresentation)
    {
      TrimEmptyIffBlank(commentText);
      if Trim(commentText) == [] || selected.None? {
        return;
      }
      AddComment(b, selected.value.id, commentText, commentId, timestamp);
      commentText := "";
      LoadProjects(b);
    }

    /** `handleAward`: with an open project the award is gifted as
      `awardProject` does and the gallery reloads. */
    method HandleAward(b: Browser, awardId: string)
      requires Valid()
      modifies this, b
      ensures Valid()
      ensures old(selected).None? ==>
        && b.projects == old(b.projects) && b.users == old(b.users) && b.active == old(b.active)
        && gallery == old(gallery) && selected == old(selected)
      ensures (old(selected).Some? && (old(b.active).None? || old(b.projects).None?
               || FindIndex(old(b.projects).value, ProjectId, old(selected).value.id) == -1)) ==>
        b.projects == old(b.projects) && b.users == old(b.users) && b.active == old(b.active)
      ensures (old(selected).Some? && old(b.active).Some? && old(b.projects).Some?
               && FindIndex(old(b.projects).value, ProjectId, old(selected).value.id) != -1) ==>
        var all := old(b.projects).value;
        var i := FindIndex(all, ProjectId, old(selected).value.id);
        var acc := AwardCredit(AllUsers(old(b.users)), old(b.active), all[i].authorId, old(b.active).value.id);
        && b.projects == Some(all[i := Awarded(all[i], awardId)])
        && b.users == Some(acc.users) && b.active == acc.active
      ensures old(selected).Some? ==>
        && (b.projects.None? ==> gallery == old(gallery) && selected == old(selected))
        && (b.projects.Some? ==> gallery == Gallery(b.projects.value) && selected == Resync(old(selected), gallery))
      ensures activeUser == old(activeUser) && commentText == old(commentText)
      ensures showPresentation == old(showPresentation)
    {
      if selected.None? {
        return;
      }
      AwardProject(b, selected.value.id, awardId);
      LoadProjects(b);
    }

    /** The `storage` listener: the active user is read again. */
    method RefreshActiveUser(b: Browser)
      modifies this
      ensures activeUser == b.active
      ensures gallery == old(gallery) && selected == old(selected) && commentText == old(commentText)
      ensures showPresentation == old(showPresentation)
    {
      activeUser := b.active;
    }
  }
}
