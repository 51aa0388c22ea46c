/** The admin projects tab: the ordered project list with drag-and-drop
    reordering, the search filter, and the editor draft with its tag input,
    image list and uploads. */
module ProjectsTab {
  import opened Lists
  import opened Text

  datatype Project = Project(
    id: string,
    title: string,
    description: string,
    images: seq<string>,
    tags: seq<string>,
    demoUrl: Option<string>,
    githubUrl: Option<string>,
    category: Option<string>,
    displayOrder: Option<int>)

  /** The editor's `Partial<Project>`: every field may be missing. */
  datatype Draft = Draft(
    id: Option<string>,
    title: Option<string>,
    description: Option<string>,
    images: Option<seq<string>>,
    tags: Option<seq<string>>,
    demoUrl: Option<string>,
    githubUrl: Option<string>,
    category: Option<string>,
    displayOrder: Option<int>)

  /** The fields sent on save. */
  datatype ProjectData = ProjectData(
    title: Option<string>,
    description: Option<string>,
    images: seq<string>,
    tags: seq<string>,
    demoUrl: Option<string>,
    githubUrl: Option<string>,
    category: Option<string>,
    updatedAt: string)

  /** The single write `handleSave` issues. */
  datatype Write = Update(id: string, data: ProjectData) | Insert(data: ProjectData, displayOrder: int)

  /** One entry of the `updates` list built after a drop. */
  datatype RankUpdate = RankUpdate(id: string, displayOrder: int)

  /** The result of uploading one file: its public URL, or an upload error. */
  datatype UploadOutcome = Uploaded(publicUrl: string) | UploadFailed

  /** The category a new project starts in. */
  const NewProjectCategory: string := "前端"

  /** `{}`: the draft before any project is opened. */
  const EmptyDraft: Draft := Draft(None, None, None, None, None, None, None, None, None)

  /** The draft `handleCreateNew` opens. */
  function NewDraft(): (d: Draft)
    ensures d.id.None? && d.title == Some("") && d.description == Some("")
    ensures d.images == Some([]) && d.tags == Some([]) && d.category == Some(NewProjectCategory)
    ensures d.demoUrl.None? && d.githubUrl.None? && d.displayOrder.None?
  {
    EmptyDraft.(title := Some(""), description := Some(""), images := Some([]), tags := Some([]),
                category := Some(NewProjectCategory))
  }

  /** `setCurrentProject(project)` in `handleEdit`: the draft holds every field. */
  function DraftOf(p: Project): (d: Draft)
    ensures d.id == Some(p.id) && d.title == Some(p.title) && d.description == Some(p.description)
    ensures ImagesOf(d) == p.images && TagsOf(d) == p.tags
    ensures d.demoUrl == p.demoUrl && d.githubUrl == p.githubUrl && d.category == p.category
    ensures d.displayOrder == p.displayOrder
  {
    Draft(Some(p.id), Some(p.title), Some(p.description), Some(p.images), Some(p.tags),
          p.demoUrl, p.githubUrl, p.category, p.displayOrder)
  }

  /** `currentProject.images || []`. */
  function ImagesOf(d: Draft): seq<string>
  {
    if d.images.Some? then d.images.value else []
  }

  /** `currentProject.tags || []`. */
  function TagsOf(d: Draft): seq<string>
  {
    if d.tags.Some? then d.tags.value else []
  }

  /** The cover image shown on a project card: `images[0]` when it is a
      non-empty string; otherwise the card shows a placeholder. */
  function Cover(images: seq<string>): (r: Option<string>)
    ensures r.Some? <==> |images| > 0 && images[0] != ""
    ensures r.Some? ==> r.value == images[0]
  {
    if |images| > 0 && images[0] != "" then Some(images[0]) else None
  }

  /** `display_order || 0`. */
  function EffectiveOrder(p: Project): int
  {
    if p.displayOrder.Some? then p.displayOrder.value else 0
  }

  /** `Math.max(...projects.map(p => p.display_order || 0))` on a non-empty list. */
  function MaxOrder(ps: seq<Project>): (r: int)
    requires |ps| > 0
    ensures forall i :: 0 <= i < |ps| ==> EffectiveOrder(ps[i]) <= r
    ensures exists i :: 0 <= i < |ps| && EffectiveOrder(ps[i]) == r
  {
    if |ps| == 1 then EffectiveOrder(ps[0])
    else
      var m := MaxOrder(ps[1..]);
      assert forall i :: 1 <= i < |ps| ==> ps[i] == ps[1..][i - 1];
      if EffectiveOrder(ps[0]) >= m then EffectiveOrder(ps[0]) else m
  }

  /** The `display_order` of a newly inserted project. */
  function NewRank(ps: seq<Project>): (r: int)
    ensures forall i :: 0 <= i < |ps| && ps[i].displayOrder.Some? ==> ps[i].displayOrder.value < r
    ensures |ps| == 0 ==> r == 1
    ensures (exists i :: 0 <= i < |ps| && ps[i].displayOrder.None?) ==> r >= 1
    ensures |ps| > 0 ==>
      && (forall i :: 0 <= i < |ps| ==> EffectiveOrder(ps[i]) < r)
      && exists i :: 0 <= i < |ps| && EffectiveOrder(ps[i]) == r - 1
  {
    (if |ps| > 0 then MaxOrder(ps) else 0) + 1
  }

  /** The record `handleSave` builds from the draft; `now` is the timestamp. */
  function DataOf(d: Draft, now: string): (data: ProjectData)
    ensures data.images == ImagesOf(d) && data.tags == TagsOf(d) && data.updatedAt == now
    ensures data.title == d.title && data.description == d.description && data.category == d.category
    ensures data.demoUrl == d.demoUrl && data.githubUrl == d.githubUrl
  {
    ProjectData(d.title, d.description, ImagesOf(d), TagsOf(d), d.demoUrl, d.githubUrl, d.category, now)
  }

  /** The write `handleSave` issues: an update of the draft's row when it has
      an id, otherwise an insert ranked after every existing project. */
  function SaveRequest(d: Draft, ps: seq<Project>, now: string): (w: Write)
    ensures d.id.Some? && d.id.value != "" ==> w == Update(d.id.value, DataOf(d, now))
    ensures d.id.None? || d.id.value == "" ==>
      && w.Insert? && w.data == DataOf(d, now) && w.displayOrder == NewRank(ps)
      && forall i :: 0 <= i < |ps| && ps[i].displayOrder.Some? ==> ps[i].displayOrder.value < w.displayOrder
  {
    if d.id.Some? && d.id.value != "" then Update(d.id.value, DataOf(d, now))
    else Insert(DataOf(d, now), NewRank(ps))
  }

  /** Opening a stored project and saving it unchanged writes its own fields
      back to its own row. */
  lemma EditThenSaveKeepsFields(p: Project, ps: seq<Project>, now: string)
    requires p.id != ""
    ensures SaveRequest(DraftOf(p), ps, now) ==
      Update(p.id, ProjectData(Some(p.title), Some(p.description), p.images, p.tags,
                               p.demoUrl, p.githubUrl, p.category, now))
  {
  }

  /** The project list after the row `id` is deleted. */
  function WithoutProject(ps: seq<Project>, id: string): (r: seq<Project>)
    ensures forall p :: p in r <==> p in ps && p.id != id
    ensures forall p: Project :: p.id != id ==> multiset(r)[p] == multiset(ps)[p]
  {
    var r := Filter(ps, (p: Project) => p.id != id);
    assert forall p :: p in r <==> multiset(r)[p] > 0;
    assert forall p :: p in ps <==> multiset(ps)[p] > 0;
    r
  }

  /** The remaining projects keep their order. */
  lemma WithoutProjectConcat(a: seq<Project>, b: seq<Project>, id: string)
    ensures WithoutProject(a + b, id) == WithoutProject(a, id) + WithoutProject(b, id)
  {
    FilterConcat(a, b, (p: Project) => p.id != id);
  }

  /** The tags after Enter on the trimmed input `t`: appended when absent. */
  function WithTag(tags: seq<string>, t: string): (r: seq<string>)
    ensures t in r
    ensures t in tags ==> r == tags
    ensures t !in tags ==> r == tags + [t]
  {
    if t in tags then tags else tags + [t]
  }

  /** The tag input never introduces a duplicate. */
  lemma WithTagKeepsDistinct(tags: seq<string>, t: string)
    requires NoDuplicates(tags)
    ensures NoDuplicates(WithTag(tags, t))
  {
    if t !in tags {
      var r := tags + [t];
      forall i, j | 0 <= i < j < |r| ensures r[i] != r[j] {
        if j == |tags| {
          assert r[i] == tags[i];
        }
      }
    }
  }

  /** The upload loop of `handleImageUpload`: the files are uploaded one after
      another; the first failure stops the loop and nothing is kept, otherwise
      the new URLs follow the old images in file order. `attempted` is the
      number of uploads issued. */
  method UploadAll(images: seq<string>, outcomes: seq<UploadOutcome>)
    returns (result: Option<seq<string>>, attempted: nat)
    ensures result.Some? <==> forall k :: 0 <= k < |outcomes| ==> outcomes[k].Uploaded?
    ensures result.Some? ==>
      && |result.value| == |images| + |outcomes|
      && result.value[..|images|] == images
      && (forall k :: 0 <= k < |outcomes| ==> result.value[|images| + k] == outcomes[k].publicUrl)
      && attempted == |outcomes|
    ensures result.None? ==>
      && 0 < attempted <= |outcomes|
      && outcomes[attempted - 1].UploadFailed?
      && forall k :: 0 <= k < attempted - 1 ==> outcomes[k].Uploaded?
  {
    var newImages := images;
    var i := 0;
    while i < |outcomes|
      invariant 0 <= i <= |outcomes|
      invariant forall k :: 0 <= k < i ==> outcomes[k].Uploaded?
      invariant |newImages| == |images| + i
      invariant newImages[..|images|] == images
      invariant forall k :: 0 <= k < i ==> newImages[|images| + k] == outcomes[k].publicUrl
    {
      if outcomes[i].UploadFailed? {
        return None, i + 1;
      }
      newImages := newImages + [outcomes[i].publicUrl];
      i := i + 1;
    }
    return Some(newImages), |outcomes|;
  }

  /** Removing the cover promotes the second image to cover. */
  lemma RemoveCoverPromotesNext(images: seq<string>)
    ensures |images| > 1 ==> RemoveAt(images, 0)[0] == images[1]
    ensures Cover(RemoveAt(images, 0)) == if |images| > 1 && images[1] != "" then Some(images[1]) else None
  {
  }

  /** `items.findIndex(item => item.id === id)` for an id that is present. */
  function FindIndex(ps: seq<Project>, id: string): (r: nat)
    requires exists i :: 0 <= i < |ps| && ps[i].id == id
    ensures r < |ps| && ps[r].id == id
    ensures forall j :: 0 <= j < r ==> ps[j].id != id
  {
    if ps[0].id == id then 0
    else
      assert exists i :: 0 <= i < |ps[1..]| && ps[1..][i].id == id by {
        var i :| 0 <= i < |ps| && ps[i].id == id;
        assert ps[1..][i - 1] == ps[i];
      }
      1 + FindIndex(ps[1..], id)
  }

  /** `arrayMove(items, from, to)` of dnd-kit: take the element at `from`
      out and insert it so that it lands at index `to`. */
  function ArrayMove<T>(s: seq<T>, from: nat, to: nat): (r: seq<T>)
    requires from < |s| && to < |s|
    ensures |r| == |s| && r[to] == s[from]
  {
    var rest := RemoveAt(s, from);
    rest[..to] + [s[from]] + rest[to..]
  }

  /** The moved element lands at `to`; taking it out again leaves the other
      elements exactly as they were, in the same order; nothing is lost or gained. */
  lemma ArrayMoveSpec<T>(s: seq<T>, from: nat, to: nat)
    requires from < |s| && to < |s|
    ensures var r := ArrayMove(s, from, to);
      && |r| == |s|
      && r[to] == s[from]
      && RemoveAt(r, to) == RemoveAt(s, from)
      && multiset(r) == multiset(s)
  {
    var rest := RemoveAt(s, from);
    InsertThenRemove(rest, to, s[from]);
    InsertMultiset(rest, to, s[from]);
    RemoveAtMultiset(s, from);
  }

  /** Taking out what was just inserted at `k` gives back the sequence. */
  lemma InsertThenRemove<T>(rest: seq<T>, k: nat, x: T)
    requires k <= |rest|
    ensures RemoveAt(rest[..k] + [x] + rest[k..], k) == rest
  {
    var r := rest[..k] + [x] + rest[k..];
    assert r[..k] == rest[..k] && r[k + 1..] == rest[k..];
    assert rest[..k] + rest[k..] == rest;
  }

  /** Inserting `x` adds exactly one copy of it. */
  lemma InsertMultiset<T>(rest: seq<T>, k: nat, x: T)
    requires k <= |rest|
    ensures multiset(rest[..k] + [x] + rest[k..]) == multiset(rest) + multiset{x}
  {
    assert rest[..k] + rest[k..] == rest;
  }

  /** The `updates` list of `handleDragEnd`: position `i` gets rank `i + 1`. */
  function RankUpdates(items: seq<Project>): (r: seq<RankUpdate>)
    ensures |r| == |items|
    ensures forall i :: 0 <= i < |items| ==> r[i].id == items[i].id
  {
    seq(|items|, i requires 0 <= i < |items| => RankUpdate(items[i].id, i + 1))
  }

  /** The ranks in the updates are 1, 2, ..., n in list order. */
  lemma RankUpdatesContiguous(items: seq<Project>)
    ensures var r := RankUpdates(items);
      && (|r| > 0 ==> r[0].displayOrder == 1 && r[|r| - 1].displayOrder == |items|)
      && (forall i :: 0 <= i < |r| - 1 ==> r[i + 1].displayOrder == r[i].displayOrder + 1)
  {
  }

  /** The ids, in order. */
  function Ids(ps: seq<Project>): (r: seq<string>)
    ensures |r| == |ps| && forall i :: 0 <= i < |ps| ==> r[i] == ps[i].id
  {
    seq(|ps|, i requires 0 <= i < |ps| => ps[i].id)
  }

  /** The stored rows after one `update({display_order}).eq('id', …)`. */
  function ApplyRank(ps: seq<Project>, u: RankUpdate): (r: seq<Project>)
    ensures |r| == |ps| && Ids(r) == Ids(ps)
  {
    seq(|ps|, i requires 0 <= i < |ps| =>
      if ps[i].id == u.id then ps[i].(displayOrder := Some(u.displayOrder)) else ps[i])
  }

  /** The stored rows after the updates land one after another, in list order. */
  function ApplyRanks(ps: seq<Project>, us: seq<RankUpdate>): (r: seq<Project>)
    ensures |r| == |ps| && Ids(r) == Ids(ps)
  {
    if us == [] then ps else ApplyRank(ApplyRanks(ps, us[..|us| - 1]), us[|us| - 1])
  }

  /** With distinct ids, once the first `k` rank writes have landed the first
      `k` rows carry ranks 1..k and the others are untouched; when all have
      landed, reading by `display_order` gives back the new visual order. */
  lemma {:induction false} RankWritesPrefix(items: seq<Project>, k: nat)
    requires NoDuplicates(Ids(items))
    requires k <= |items|
    ensures var stored := ApplyRanks(items, RankUpdates(items)[..k]);
      forall i :: 0 <= i < |items| ==>
        stored[i] == if i < k then items[i].(displayOrder := Some(i + 1)) else items[i]
  {
    var us := RankUpdates(items);
    if k > 0 {
      RankWritesPrefix(items, k - 1);
      assert us[..k][..k - 1] == us[..k - 1];
      var before := ApplyRanks(items, us[..k - 1]);
      var stored := ApplyRank(before, us[k - 1]);
      assert ApplyRanks(items, us[..k]) == stored;
      forall i | 0 <= i < |items|
        ensures stored[i] == if i < k then items[i].(displayOrder := Some(i + 1)) else items[i]
      {
        assert Ids(before)[i] == Ids(items)[i];
        if i != k - 1 {
          assert Ids(items)[i] != Ids(items)[k - 1];
        }
      }
    }
  }

  /** Whether project `p` passes the search box: its title or its category
      contains the query, ignoring ASCII case. An empty query matches every
      project; a query longer than both title and category matches none. */
  function MatchesQuery(p: Project, query: string): (b: bool)
    ensures query == "" ==> b
    ensures b ==> |query| <= |p.title| || (p.category.Some? && |query| <= |p.category.value|)
  {
    || Contains(Lower(p.title), Lower(query))
    || (p.category.Some? && Contains(Lower(p.category.value), Lower(query)))
  }

  /** `filteredProjects`. */
  function FilteredProjects(ps: seq<Project>, query: string): (r: seq<Project>)
    ensures forall p :: p in r <==> p in ps && MatchesQuery(p, query)
  {
    var r := Filter(ps, (p: Project) => MatchesQuery(p, query));
    assert forall p :: p in r <==> multiset(r)[p] > 0;
    assert forall p :: p in ps <==> multiset(ps)[p] > 0;
    r
  }

  /** An empty search box shows every project, in order. */
  lemma EmptyQueryKeepsAll(ps: seq<Project>)
    ensures FilteredProjects(ps, "") == ps
  {
    forall i | 0 <= i < |ps| ensures MatchesQuery(ps[i], "") {
      assert Contains(Lower(ps[i].title), Lower(""));
    }
    FilterKeepsAll(ps, (p: Project) => MatchesQuery(p, ""));
  }

  /** The state of `ProjectsTab`. */
  class ProjectsEditor {
    var projects: seq<Project>
    var filterValue: string
    var currentProject: Draft
    var tagInput: string

    constructor ()
      ensures projects == [] && filterValue == "" && currentProject == EmptyDraft && tagInput == ""
    {
      projects := [];
      filterValue := "";
      currentProject := EmptyDraft;
      tagInput := "";
    }

    /** `fetchProjects`: `rows` is None when the query failed, Some(None)
        when it returned no data. */
    method FetchProjects(rows: Option<Option<seq<Project>>>)
      modifies this`projects
      ensures rows.None? ==> projects == old(projects)
      ensures rows.Some? ==> projects == if rows.value.Some? then rows.value.value else []
    {
      if rows.Some? {
        projects := if rows.value.Some? then rows.value.value else [];
      }
    }

    /** Typing into the search box; its clear button sets it to "". */
    method SetFilter(text: string)
      modifies this`filterValue
      ensures filterValue == text
    {
      filterValue := text;
    }

    /** The rows the table shows. */
    method Shown() returns (rows: seq<Project>)
      ensures rows == FilteredProjects(projects, filterValue)
    {
      rows := FilteredProjects(projects, filterValue);
    }

    /** `handleCreateNew`. */
    method CreateNew()
      modifies this`currentProject
      ensures currentProject == NewDraft()
    {
      currentProject := NewDraft();
    }

    /** `handleEdit`. */
    method Edit(p: Project)
      modifies this`currentProject
      ensures currentProject == DraftOf(p)
    {
      currentProject := DraftOf(p);
    }

    /** `handleDelete`: the row goes from the local list only when the user
        confirmed and the delete succeeded (`ok`). */
    method Delete(id: string, confirmed: bool, ok: bool)
      modifies this`projects
      ensures confirmed && ok ==> projects == WithoutProject(old(projects), id)
      ensures !(confirmed && ok) ==> projects == old(projects)
    {
      if !confirmed {
        return;
      }
      if ok {
        projects := WithoutProject(projects, id);
      }
    }

    /** The write `handleSave` sends for the current draft. */
    method Save(now: string) returns (w: Write)
      ensures w == SaveRequest(currentProject, projects, now)
    {
      w := SaveRequest(currentProject, projects, now);
    }

    /** Typing into the tag input. */
    method SetTagInput(text: string)
      modifies this`tagInput
      ensures tagInput == text
    {
      tagInput := text;
    }

    /** `handleAddTag` on a key press; `isEnter` says whether it was Enter. */
    method AddTag(isEnter: bool)
      modifies this`currentProject, this`tagInput
      ensures !isEnter || IsBlank(old(tagInput)) ==>
        currentProject == old(currentProject) && tagInput == old(tagInput)
      ensures isEnter && !IsBlank(old(tagInput)) ==>
        && tagInput == ""
        && currentProject == old(currentProject).(tags := Some(WithTag(TagsOf(old(currentProject)), Trim(old(tagInput)))))
    {
      var t := Trim(tagInput);
      if isEnter && t != "" {
        if t !in TagsOf(currentProject) {
          currentProject := currentProject.(tags := Some(TagsOf(currentProject) + [t]));
        }
        tagInput := "";
      }
    }

    /** `removeTag`: a draft without tags keeps having none. */
    method RemoveTag(t: string)
      modifies this`currentProject
      ensures currentProject.tags == if old(currentProject).tags.Some?
        then Some(RemoveAll(old(currentProject).tags.value, t)) else None
      ensures currentProject == old(currentProject).(tags := currentProject.tags)
    {
      if currentProject.tags.Some? {
        currentProject := currentProject.(tags := Some(RemoveAll(currentProject.tags.value, t)));
      }
    }

    /** The delete button on image `idx`: `splice(idx, 1)` on a copy. */
    method RemoveImage(idx: nat)
      modifies this`currentProject
      ensures currentProject == old(currentProject).(images := Some(RemoveAt(ImagesOf(old(currentProject)), idx)))
      ensures idx == 0 && |ImagesOf(old(currentProject))| > 1 ==>
        ImagesOf(currentProject)[0] == ImagesOf(old(currentProject))[1]
    {
      var newImages := ImagesOf(currentProject);
      newImages := RemoveAt(newImages, idx);
      currentProject := currentProject.(images := Some(newImages));
    }

    /** `handleImageUpload`: `outcomes` has one entry per chosen file. The
        draft's images change only when every upload succeeded. */
    method ImageUpload(outcomes: seq<UploadOutcome>)
      modifies this`currentProject
      ensures (exists k :: 0 <= k < |outcomes| && outcomes[k].UploadFailed?) || |outcomes| == 0 ==>
        currentProject == old(currentProject)
      ensures (forall k :: 0 <= k < |outcomes| ==> outcomes[k].Uploaded?) && |outcomes| > 0 ==>
        var imgs := ImagesOf(old(currentProject));
        && currentProject == old(currentProject).(images := currentProject.images)
        && currentProject.images.Some?
        && |currentProject.images.value| == |imgs| + |outcomes|
        && currentProject.images.value[..|imgs|] == imgs
        && forall k :: 0 <= k < |outcomes| ==> currentProject.images.value[|imgs| + k] == outcomes[k].publicUrl
    {
      if |outcomes| == 0 {
        return;
      }
      var result, _ := UploadAll(ImagesOf(currentProject), outcomes);
      if result.Some? {
        currentProject := currentProject.(images := Some(result.value));
      }
    }

    /** `handleDragEnd`: `activeId` is the dragged project, `overId` the one
        under the cursor at the drop, if any. Returns the rank writes it starts. */
    method DragEnd(activeId: string, overId: Option<string>) returns (updates: seq<RankUpdate>)
      requires exists i :: 0 <= i < |projects| && projects[i].id == activeId
      requires overId.Some? ==> exists i :: 0 <= i < |projects| && projects[i].id == overId.value
      modifies this`projects
      ensures overId.None? || overId.value == activeId ==> projects == old(projects) && updates == []
      ensures overId.Some? && overId.value != activeId ==>
        && projects == ArrayMove(old(projects), FindIndex(old(projects), activeId), FindIndex(old(projects), overId.value))
        && updates == RankUpdates(projects)
    {
      updates := [];
      if overId.Some? && overId.value != activeId {
        var oldIndex := FindIndex(projects, activeId);
        var newIndex := FindIndex(projects, overId.value);
        projects := ArrayMove(projects, oldIndex, newIndex);
        updates := RankUpdates(projects);
      }
    }
  }
}
