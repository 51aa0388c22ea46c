/** The admin skills tab: an ordered list of skill categories kept in the
    profile row, and the skills that name their category by string (a soft
    foreign key). Handlers edit both lists locally; "Save Changes" rewrites
    the skills table from the local list. */
module SkillsTab {
  import opened Lists
  import opened Text

  datatype Skill = Skill(id: string, name: string, category: string, displayOrder: Option<int>)

  datatype Category = Category(name: string, icon: string)

  datatype Direction = Up | Down

  /** A skill as inserted on save: every field except `id`. */
  datatype SkillRow = SkillRow(name: string, category: string, displayOrder: Option<int>)

  /** One rendered card: a category and the skills listed under it. */
  datatype Group = Group(category: Category, skills: seq<Skill>)

  /** The categories used when the profile has no category array. */
  const DefaultCategories: seq<Category> := [
    Category("前端開發", "Layout"),
    Category("後端開發", "Database"),
    Category("工具與維運", "Terminal"),
    Category("其他技能", "Code2")
  ]

  /** The icon a category editor starts with when none is chosen. */
  const DefaultIcon: string := "Code2"

  /** The names of the categories, in order. */
  function Names(cats: seq<Category>): (r: seq<string>)
    ensures |r| == |cats|
    ensures forall i :: 0 <= i < |cats| ==> r[i] == cats[i].name
  {
    if cats == [] then [] else [cats[0].name] + Names(cats[1..])
  }

  /** The local skills after the chip of skill `id` is closed. */
  function WithoutSkill(skills: seq<Skill>, id: string): (r: seq<Skill>)
    ensures forall s :: s in r <==> s in skills && s.id != id
    ensures forall s: Skill :: s.id != id ==> multiset(r)[s] == multiset(skills)[s]
  {
    var r := Filter(skills, (s: Skill) => s.id != id);
    assert forall s :: s in r <==> multiset(r)[s] > 0;
    assert forall s :: s in skills <==> multiset(skills)[s] > 0;
    r
  }

  /** Closing a chip keeps the other skills in their order: the removal
      distributes over concatenation. */
  lemma WithoutSkillConcat(a: seq<Skill>, b: seq<Skill>, id: string)
    ensures WithoutSkill(a + b, id) == WithoutSkill(a, id) + WithoutSkill(b, id)
  {
    FilterConcat(a, b, (s: Skill) => s.id != id);
  }

  /** The categories after category `name` is deleted. */
  function WithoutCategory(cats: seq<Category>, name: string): (r: seq<Category>)
    ensures forall c :: c in r <==> c in cats && c.name != name
    ensures forall c: Category :: c.name != name ==> multiset(r)[c] == multiset(cats)[c]
  {
    var r := Filter(cats, (c: Category) => c.name != name);
    assert forall c :: c in r <==> multiset(r)[c] > 0;
    assert forall c :: c in cats <==> multiset(cats)[c] > 0;
    r
  }

  /** The remaining categories keep their order. */
  lemma WithoutCategoryConcat(a: seq<Category>, b: seq<Category>, name: string)
    ensures WithoutCategory(a + b, name) == WithoutCategory(a, name) + WithoutCategory(b, name)
  {
    FilterConcat(a, b, (c: Category) => c.name != name);
  }

  /** Deleting a category removes every entry of that name and only those. */
  lemma {:induction false} DeleteCategoryRemovesName(cats: seq<Category>, name: string)
    ensures name !in Names(WithoutCategory(cats, name))
    ensures |WithoutCategory(cats, name)| == |cats| - Count(Names(cats), name)
  {
    var r := WithoutCategory(cats, name);
    assert forall i :: 0 <= i < |r| ==> r[i] in r && Names(r)[i] != name;
    FilterCountsName(cats, name, (c: Category) => c.name != name);
  }

  lemma {:induction false} FilterCountsName(cats: seq<Category>, name: string, p: Category -> bool)
    requires forall c :: p(c) == (c.name != name)
    ensures |Filter(cats, p)| == |cats| - Count(Names(cats), name)
  {
    if cats != [] {
      FilterCountsName(cats[1..], name, p);
      assert Names(cats) == [cats[0].name] + Names(cats[1..]);
      assert multiset(Names(cats)) == multiset{cats[0].name} + multiset(Names(cats[1..]));
    }
  }

  /** The skills after category `oldName` is renamed to `newName`: the
      cascade of a category edit onto the soft foreign key. It moves exactly
      the skills of the old category to the new one, keeps every id, name and
      order, and leaves every other skill as it was. */
  function WithCategoryRenamed(skills: seq<Skill>, oldName: string, newName: string): (r: seq<Skill>)
    ensures |r| == |skills|
    ensures forall i :: 0 <= i < |skills| ==>
      r[i].id == skills[i].id && r[i].name == skills[i].name && r[i].displayOrder == skills[i].displayOrder
    ensures forall i :: 0 <= i < |skills| && skills[i].category != oldName ==> r[i] == skills[i]
    ensures forall i :: 0 <= i < |skills| && skills[i].category == oldName ==> r[i].category == newName
    ensures oldName != newName ==> forall s :: s in r ==> s.category != oldName
  {
    seq(|skills|, i requires 0 <= i < |skills| =>
      if skills[i].category == oldName then skills[i].(category := newName) else skills[i])
  }

  /** The skills listed under category `name`, in list order. */
  function InCategory(skills: seq<Skill>, name: string): (r: seq<Skill>)
    ensures forall s :: s in r <==> s in skills && s.category == name
    ensures forall i :: 0 <= i < |r| ==> r[i].category == name
  {
    var r := Filter(skills, (s: Skill) => s.category == name);
    assert forall s :: s in r <==> multiset(r)[s] > 0;
    assert forall s :: s in skills <==> multiset(skills)[s] > 0;
    r
  }

  /** The cards rendered in the skills list: one per category, in category order. */
  function Groups(cats: seq<Category>, skills: seq<Skill>): (r: seq<Group>)
    ensures |r| == |cats|
    ensures forall i :: 0 <= i < |cats| ==> r[i].category == cats[i]
    ensures forall i :: 0 <= i < |cats| ==> r[i].skills == InCategory(skills, cats[i].name)
  {
    if cats == [] then []
    else [Group(cats[0], InCategory(skills, cats[0].name))] + Groups(cats[1..], skills)
  }

  /** A skill whose category names no category is in no card: orphaned
      skills stay in the list but are not shown. */
  lemma OrphanInNoGroup(cats: seq<Category>, skills: seq<Skill>, s: Skill)
    requires s.category !in Names(cats)
    ensures forall i :: 0 <= i < |cats| ==> s !in Groups(cats, skills)[i].skills
  {
    forall i | 0 <= i < |cats| ensures s !in Groups(cats, skills)[i].skills {
      assert Names(cats)[i] == cats[i].name;
    }
  }

  /** The number of skill chips over all cards. */
  function ShownCount(gs: seq<Group>): nat
  {
    if gs == [] then 0 else |gs[0].skills| + ShownCount(gs[1..])
  }

  /** With distinct category names every skill whose category is listed is
      shown exactly once: the cards show as many chips as there are such skills. */
  lemma {:induction false} GroupsShowListedSkills(cats: seq<Category>, skills: seq<Skill>, listed: Skill -> bool)
    requires NoDuplicates(Names(cats))
    requires forall s :: listed(s) == (s.category in Names(cats))
    ensures ShownCount(Groups(cats, skills)) == |Filter(skills, listed)|
  {
    if cats == [] {
      assert Filter(skills, listed) == [];
    } else {
      var c := cats[0];
      var rest := cats[1..];
      assert Names(cats) == [c.name] + Names(rest);
      assert NoDuplicates(Names(rest)) by {
        forall i, j | 0 <= i < j < |Names(rest)| ensures Names(rest)[i] != Names(rest)[j] {
          assert Names(rest)[i] == Names(cats)[i + 1] && Names(rest)[j] == Names(cats)[j + 1];
        }
      }
      assert forall j :: 0 <= j < |Names(rest)| ==> Names(rest)[j] == Names(cats)[j + 1];
      assert c.name !in Names(rest);
      var here := (s: Skill) => s.category == c.name;
      var later := (s: Skill) => s.category in Names(rest);
      GroupsShowListedSkills(rest, skills, later);
      FilterDisjointUnion(skills, here, later, listed);
      FilterExtensional(skills, here, (s: Skill) => s.category == c.name);
      assert Groups(cats, skills)[1..] == Groups(rest, skills);
    }
  }

  /** The rows inserted by "Save Changes": the skills with their ids
      stripped and every other field kept, in order. */
  function SkillsToInsert(skills: seq<Skill>): (r: seq<SkillRow>)
    ensures |r| == |skills|
    ensures forall i :: 0 <= i < |skills| ==>
      Skill(skills[i].id, r[i].name, r[i].category, r[i].displayOrder) == skills[i]
  {
    seq(|skills|, i requires 0 <= i < |skills| =>
      SkillRow(skills[i].name, skills[i].category, skills[i].displayOrder))
  }

  /** The categories after "move up" or "move down" on row `index`: a swap
      with the neighbour, or nothing at the ends of the list. */
  function Moved(cats: seq<Category>, index: nat, dir: Direction): (r: seq<Category>)
    requires index < |cats|
    ensures |r| == |cats| && multiset(r) == multiset(cats)
  {
    if dir == Up && index > 0 then
      SwapPermutes(cats, index, index - 1);
      Swap(cats, index, index - 1)
    else if dir == Down && index < |cats| - 1 then
      SwapPermutes(cats, index, index + 1);
      Swap(cats, index, index + 1)
    else cats
  }

  /** Moving a row up and then moving it back down restores the list. */
  lemma MoveUpThenDown(cats: seq<Category>, index: nat)
    requires 0 < index < |cats|
    ensures Moved(Moved(cats, index, Up), index - 1, Down) == cats
  {
  }

  /** The edit path does not compare the new name with the other categories:
      giving row `i` the name of another row `j` leaves two categories of
      that name in the list the edit writes. */
  lemma EditCanDuplicateNames(cats: seq<Category>, i: nat, j: nat, icon: string)
    requires i < |cats| && j < |cats| && i != j
    ensures !NoDuplicates(Names(cats[i := Category(cats[j].name, icon)]))
  {
    var edited := cats[i := Category(cats[j].name, icon)];
    assert Names(edited)[i] == Names(edited)[j];
    if i > j {
      assert Names(edited)[j] == Names(edited)[i];
    }
  }

  /** Some category already has this name. */
  predicate NameTaken(cats: seq<Category>, name: string)
  {
    name in Names(cats)
  }

  /** The cases in which saving the category editor does nothing: a blank
      name, adding a name that is already listed, or an edit index that no
      longer names a row. */
  predicate EditBlocked(editName: string, adding: bool, index: Option<nat>, cats: seq<Category>)
  {
    || IsBlank(editName)
    || (adding && NameTaken(cats, Trim(editName)))
    || (!adding && index.Some? && index.value >= |cats|)
  }

  /** The state of `SkillsTab`: one field per `useState` variable that the
      handlers touch. */
  class SkillsEditor {
    var skills: seq<Skill>
    var categories: seq<Category>
    var selectedCategory: string
    var newSkill: string
    var editingCatIndex: Option<nat>
    var editCatName: string
    var editCatIcon: string
    var isAddingNew: bool

    constructor ()
      ensures skills == [] && categories == [] && selectedCategory == "" && newSkill == ""
      ensures editingCatIndex == None && editCatName == "" && editCatIcon == DefaultIcon
      ensures !isAddingNew
    {
      skills := [];
      categories := [];
      selectedCategory := "";
      newSkill := "";
      editingCatIndex := None;
      editCatName := "";
      editCatIcon := DefaultIcon;
      isAddingNew := false;
    }

    /** `fetchData`. `user` is the signed-in user, if any; `skillsRows` is the
        skills query (None when it failed, Some(None) when it returned no data);
        `stored` is the profile's `skill_categories` when it is an array. */
    method FetchData(user: Option<string>, skillsRows: Option<Option<seq<Skill>>>, stored: Option<seq<Category>>)
      modifies this
      ensures user.None? || skillsRows.None? ==>
        skills == old(skills) && categories == old(categories) && selectedCategory == old(selectedCategory)
      ensures user.Some? && skillsRows.Some? ==>
        && skills == (if skillsRows.value.Some? then skillsRows.value.value else [])
        && (stored.None? ==> categories == DefaultCategories && selectedCategory == DefaultCategories[0].name)
        && (stored.Some? ==> categories == stored.value)
        && (stored.Some? && |stored.value| > 0 ==> selectedCategory == stored.value[0].name)
        && (stored.Some? && |stored.value| == 0 ==> selectedCategory == old(selectedCategory))
      ensures newSkill == old(newSkill) && editingCatIndex == old(editingCatIndex)
      ensures editCatName == old(editCatName) && editCatIcon == old(editCatIcon) && isAddingNew == old(isAddingNew)
    {
      if user.None? {
        return;
      }
      if skillsRows.None? {
        return;
      }
      skills := if skillsRows.value.Some? then skillsRows.value.value else [];
      if stored.Some? {
        categories := stored.value;
        if |stored.value| > 0 {
          selectedCategory := stored.value[0].name;
        }
      } else {
        categories := DefaultCategories;
        selectedCategory := DefaultCategories[0].name;
      }
    }

    /** Clicking a category button above the skill input. */
    method SelectCategory(name: string)
      modifies this`selectedCategory
      ensures selectedCategory == name
    {
      selectedCategory := name;
    }

    /** Typing into the skill input. */
    method SetNewSkill(text: string)
      modifies this`newSkill
      ensures newSkill == text
    {
      newSkill := text;
    }

    /** `handleAddSkill`; `freshId` stands for the random id it generates. */
    method AddSkill(freshId: string)
      modifies this`skills, this`newSkill
      ensures IsBlank(old(newSkill)) || old(selectedCategory) == "" ==>
        skills == old(skills) && newSkill == old(newSkill)
      ensures !IsBlank(old(newSkill)) && old(selectedCategory) != "" ==>
        && skills == old(skills) + [Skill(freshId, Trim(old(newSkill)), old(selectedCategory), None)]
        && newSkill == ""
    {
      var name := Trim(newSkill);
      if name == "" || selectedCategory == "" {
        return;
      }
      skills := skills + [Skill(freshId, name, selectedCategory, None)];
      newSkill := "";
    }

    /** `handleRemoveSkill`. */
    method RemoveSkill(id: string)
      modifies this`skills
      ensures skills == WithoutSkill(old(skills), id)
    {
      skills := WithoutSkill(skills, id);
    }

    /** `startEditCategory`: open the editor on row `index`. */
    method StartEditCategory(index: nat)
      requires index < |categories|
      modifies this`editingCatIndex, this`editCatName, this`editCatIcon, this`isAddingNew
      ensures editingCatIndex == Some(index) && editCatName == categories[index].name
      ensures editCatIcon == if categories[index].icon == "" then DefaultIcon else categories[index].icon
      ensures !isAddingNew
    {
      editingCatIndex := Some(index);
      editCatName := categories[index].name;
      editCatIcon := if categories[index].icon == "" then DefaultIcon else categories[index].icon;
      isAddingNew := false;
    }

    /** `startAddCategory`: open the editor on a new, empty category. */
    method StartAddCategory()
      modifies this`editingCatIndex, this`editCatName, this`editCatIcon, this`isAddingNew
      ensures editingCatIndex == None && editCatName == "" && editCatIcon == DefaultIcon && isAddingNew
    {
      editingCatIndex := None;
      editCatName := "";
      editCatIcon := DefaultIcon;
      isAddingNew := true;
    }

    /** The editor's "Cancel" button. */
    method CancelCategoryEdit()
      modifies this`editingCatIndex, this`isAddingNew
      ensures editingCatIndex == None && !isAddingNew
    {
      editingCatIndex := None;
      isAddingNew := false;
    }

    /** Typing into the category editor. */
    method SetEditCategory(name: string, icon: string)
      modifies this`editCatName, this`editCatIcon
      ensures editCatName == name && editCatIcon == icon
    {
      editCatName := name;
      editCatIcon := icon;
    }

    /** `saveCategoryEdit`. A blank name, a duplicate new name, and an edit
        index that no longer names a row (reading its `name` throws) all leave
        every field as it was. */
    method SaveCategoryEdit()
      modifies this`categories, this`skills, this`selectedCategory, this`editingCatIndex, this`isAddingNew
      ensures EditBlocked(old(editCatName), old(isAddingNew), old(editingCatIndex), old(categories)) ==>
        && categories == old(categories) && skills == old(skills)
        && selectedCategory == old(selectedCategory)
        && editingCatIndex == old(editingCatIndex) && isAddingNew == old(isAddingNew)
      ensures !EditBlocked(old(editCatName), old(isAddingNew), old(editingCatIndex), old(categories)) ==>
        editingCatIndex == None && !isAddingNew
      ensures !EditBlocked(old(editCatName), old(isAddingNew), old(editingCatIndex), old(categories)) && old(isAddingNew) ==>
        && categories == old(categories) + [Category(Trim(old(editCatName)), editCatIcon)]
        && skills == old(skills) && selectedCategory == old(selectedCategory)
      ensures (!EditBlocked(old(editCatName), old(isAddingNew), old(editingCatIndex), old(categories))
        && !old(isAddingNew) && old(editingCatIndex).None?) ==>
        && categories == old(categories) && skills == old(skills)
        && selectedCategory == old(selectedCategory)
      ensures (!EditBlocked(old(editCatName), old(isAddingNew), old(editingCatIndex), old(categories))
        && !old(isAddingNew) && old(editingCatIndex).Some?) ==>
        var i := old(editingCatIndex).value;
        var oldName := old(categories)[i].name;
        var name := Trim(old(editCatName));
        && categories == old(categories)[i := Category(name, editCatIcon)]
        && (oldName != name ==> skills == WithCategoryRenamed(old(skills), oldName, name))
        && (oldName == name ==> skills == old(skills))
        && (oldName != name && old(selectedCategory) == oldName ==> selectedCategory == name)
        && (oldName == name || old(selectedCategory) != oldName ==> selectedCategory == old(selectedCategory))
    {
      var name := Trim(editCatName);
      if name == "" {
        return;
      }
      var newCats := categories;
      if isAddingNew {
        if NameTaken(categories, name) {
          return;
        }
        newCats := newCats + [Category(name, editCatIcon)];
      } else if editingCatIndex.Some? {
        var i := editingCatIndex.value;
        if i >= |categories| {
          return;
        }
        ApplyCategoryEdit(i, name);
        newCats := categories;
      }
      categories := newCats;
      editingCatIndex := None;
      isAddingNew := false;
    }

    /** The edit branch of `saveCategoryEdit`: row `i` takes the new name and
        icon; a changed name cascades to the skills and to the selection. */
    method ApplyCategoryEdit(i: nat, name: string)
      requires i < |categories|
      modifies this`categories, this`skills, this`selectedCategory
      ensures var oldName := old(categories)[i].name;
        && categories == old(categories)[i := Category(name, editCatIcon)]
        && (oldName != name ==> skills == WithCategoryRenamed(old(skills), oldName, name))
        && (oldName == name ==> skills == old(skills))
        && (oldName != name && old(selectedCategory) == oldName ==> selectedCategory == name)
        && (oldName == name || old(selectedCategory) != oldName ==> selectedCategory == old(selectedCategory))
    {
      var oldName := categories[i].name;
      categories := categories[i := Category(name, editCatIcon)];
      if oldName != name {
        skills := WithCategoryRenamed(skills, oldName, name);
        if selectedCategory == oldName {
          selectedCategory := name;
        }
      }
    }

    /** `handleRemoveCategory`; `confirmed` is the answer to the confirmation
        dialog. The skills list is never touched. */
    method RemoveCategory(name: string, confirmed: bool)
      modifies this`categories, this`selectedCategory
      ensures !confirmed ==> categories == old(categories) && selectedCategory == old(selectedCategory)
      ensures confirmed ==> categories == WithoutCategory(old(categories), name)
      ensures confirmed && old(selectedCategory) == name ==>
        selectedCategory == if |old(categories)| > 0 then old(categories)[0].name else ""
      ensures old(selectedCategory) != name ==> selectedCategory == old(selectedCategory)
    {
      if confirmed {
        var before := categories;
        categories := WithoutCategory(categories, name);
        if selectedCategory == name {
          selectedCategory := if |before| > 0 then before[0].name else "";
        }
      }
    }

    /** `moveCategory`: a copy of the list with row `index` swapped in place
        with its neighbour. */
    method MoveCategory(index: nat, dir: Direction)
      requires index < |categories|
      modifies this`categories
      ensures categories == Moved(old(categories), index, dir)
      ensures multiset(categories) == multiset(old(categories))
      ensures (dir == Up && index == 0) || (dir == Down && index == |old(categories)| - 1) ==>
        categories == old(categories)
    {
      var newCats := categories;
      if dir == Up && index > 0 {
        newCats := newCats[index := categories[index - 1]][index - 1 := categories[index]];
      } else if dir == Down && index < |newCats| - 1 {
        newCats := newCats[index := categories[index + 1]][index + 1 := categories[index]];
      }
      categories := newCats;
    }
  }
}
