/** The admin experience tab: the list of positions and the editor whose
    skills field is typed as one comma-separated string. */
module ExperienceTab {
  import opened Lists
  import opened Text

  datatype Experience = Experience(
    id: string,
    position: string,
    company: string,
    period: string,
    description: string,
    skills: Option<seq<string>>,
    displayOrder: Option<int>)

  /** The draft's `skills`: missing, the string typed into the input, or the
      array of an experience opened for editing. */
  datatype SkillsValue = Absent | Typed(text: string) | Listed(items: seq<string>)

  /** The editor's `Partial<Experience>`. */
  datatype Draft = Draft(
    id: Option<string>,
    position: Option<string>,
    company: Option<string>,
    period: Option<string>,
    description: Option<string>,
    skills: SkillsValue,
    displayOrder: Option<int>)

  /** The record `handleSave` writes: no `id`, no `display_order`. */
  datatype ExperienceData = ExperienceData(
    position: Option<string>,
    company: Option<string>,
    period: Option<string>,
    description: Option<string>,
    skills: seq<string>)

  datatype Write = Update(id: string, data: ExperienceData) | Insert(data: ExperienceData)

  /** `{}`: the draft `handleCreate` opens. */
  const EmptyDraft: Draft := Draft(None, None, None, None, None, Absent, None)

  /** `setCurrentExp(exp)` in `handleEdit`: the draft holds every field,
      and saving it sends the experience's own skills. */
  function DraftOf(e: Experience): (d: Draft)
    ensures d.id == Some(e.id) && d.position == Some(e.position) && d.company == Some(e.company)
    ensures d.period == Some(e.period) && d.description == Some(e.description)
    ensures d.displayOrder == e.displayOrder
    ensures SkillsArray(d.skills) == if e.skills.Some? then e.skills.value else []
  {
    Draft(Some(e.id), Some(e.position), Some(e.company), Some(e.period), Some(e.description),
          if e.skills.Some? then Listed(e.skills.value) else Absent, e.displayOrder)
  }

  /** `filter(Boolean)` on strings: the non-empty ones pass. */
  predicate NonEmpty(s: string)
  {
    s != ""
  }

  /** A skill as the parser produces it. */
  predicate IsCleanSkill(s: string)
  {
    s != "" && IsTrimmed(s) && ',' !in s
  }

  /** Trimming never introduces a character. */
  lemma TrimKeepsOut(s: string, c: char)
    requires c !in s
    ensures c !in Trim(s)
  {
    TrimIsSlice(s);
    var r := Trim(s);
    var k :| IsTrimSlice(s, k, r);
    forall j | 0 <= j < |r| ensures r[j] != c {
      assert r[j] == s[k + j];
    }
  }

  /** Trimmed pieces of a split at commas are trimmed and comma-free. */
  lemma TrimmedPiecesClean(pieces: seq<string>)
    requires forall i :: 0 <= i < |pieces| ==> ',' !in pieces[i]
    ensures forall i :: 0 <= i < |pieces| ==> IsTrimmed(Map(pieces, Trim)[i]) && ',' !in Map(pieces, Trim)[i]
  {
    forall i | 0 <= i < |pieces| ensures ',' !in Trim(pieces[i]) {
      TrimKeepsOut(pieces[i], ',');
    }
  }

  /** The kept elements of a filter come from the filtered sequence. */
  lemma FilterKeepsClean(s: seq<string>)
    requires forall i :: 0 <= i < |s| ==> IsTrimmed(s[i]) && ',' !in s[i]
    ensures forall i :: 0 <= i < |Filter(s, NonEmpty)| ==> IsCleanSkill(Filter(s, NonEmpty)[i])
  {
    var r := Filter(s, NonEmpty);
    forall i | 0 <= i < |r| ensures IsCleanSkill(r[i]) {
      FilterMember(s, NonEmpty, r[i]);
    }
  }

  /** `text.split(',').map(s => s.trim()).filter(Boolean)`. */
  function ParseSkillList(text: string): (r: seq<string>)
    ensures forall i :: 0 <= i < |r| ==> IsCleanSkill(r[i])
  {
    var pieces := Split(text, ',');
    TrimmedPiecesClean(pieces);
    FilterKeepsClean(Map(pieces, Trim));
    Filter(Map(pieces, Trim), NonEmpty)
  }

  /** The parse works piece by piece: the skills of the text before a comma
      come first, in order, followed by the skills of the text after it. */
  lemma ParseConcat(a: string, b: string)
    ensures ParseSkillList(a + "," + b) == ParseSkillList(a) + ParseSkillList(b)
  {
    SplitConcat(a, b, ',');
    MapConcat(Split(a, ','), Split(b, ','), Trim);
    FilterConcat(Map(Split(a, ','), Trim), Map(Split(b, ','), Trim), NonEmpty);
  }

  /** A comma-free piece gives its trimmed text, or nothing when it is blank;
      with ParseConcat this determines the whole parse, duplicates included. */
  lemma ParsePiece(a: string)
    requires ',' !in a
    ensures ParseSkillList(a) == if IsBlank(a) then [] else [Trim(a)]
  {
    SplitWhole(a, ',');
    assert Map([a], Trim) == [Trim(a)];
    assert Filter([Trim(a)], NonEmpty) == if Trim(a) == "" then [] else [Trim(a)];
  }

  /** Every non-blank comma-separated piece of the input is saved, trimmed. */
  lemma ParseKeepsEveryPiece(text: string, i: nat)
    requires i < |Split(text, ',')| && !IsBlank(Split(text, ',')[i])
    ensures Trim(Split(text, ',')[i]) in ParseSkillList(text)
  {
    var m := Map(Split(text, ','), Trim);
    assert m[i] in m;
    FilterMember(m, NonEmpty, m[i]);
  }

  /** Every saved skill is the trim of some comma-separated piece of the input. */
  lemma ParseAddsNothing(text: string, x: string)
    requires x in ParseSkillList(text)
    ensures exists i :: 0 <= i < |Split(text, ',')| && Trim(Split(text, ',')[i]) == x
  {
    var m := Map(Split(text, ','), Trim);
    FilterMember(m, NonEmpty, x);
    MapMember(Split(text, ','), Trim, x);
  }

  /** The `skills` array `handleSave` sends. */
  function SkillsArray(v: SkillsValue): (r: seq<string>)
    ensures v.Absent? ==> r == []
    ensures v.Listed? ==> r == v.items
    ensures v.Typed? ==> forall i :: 0 <= i < |r| ==> IsCleanSkill(r[i])
  {
    match v
    case Absent => []
    case Typed(text) => ParseSkillList(text)
    case Listed(items) => items
  }

  /** The text shown in the skills input: the raw string while typing, the
      `", "` join of an array. A list of clean skills shown this way parses
      back to itself. */
  function SkillsText(v: SkillsValue): (r: string)
    ensures v.Absent? ==> r == ""
    ensures v.Typed? ==> r == v.text
    ensures v.Listed? && (forall i :: 0 <= i < |v.items| ==> IsCleanSkill(v.items[i])) ==>
      ParseSkillList(r) == v.items
  {
    assert v.Listed? && (forall i :: 0 <= i < |v.items| ==> IsCleanSkill(v.items[i])) ==>
      ParseSkillList(Join(v.items, ", ")) == v.items by {
      if v.Listed? && (forall i :: 0 <= i < |v.items| ==> IsCleanSkill(v.items[i])) {
        JoinParseRoundTrip(v.items);
      }
    }
    match v
    case Absent => ""
    case Typed(text) => text
    case Listed(items) => Join(items, ", ")
  }

  /** A non-empty list joined with `", "` splits at commas into its
      elements, every one after the first behind a blank. */
  lemma JoinedPieces(xs: seq<string>)
    requires |xs| >= 1
    requires forall i :: 0 <= i < |xs| ==> ',' !in xs[i]
    ensures var r := Split(Join(xs, ", "), ',');
      && |r| == |xs| && r[0] == xs[0]
      && forall i :: 1 <= i < |xs| ==> r[i] == " " + xs[i]
  {
    assert "" + Join(xs, ", ") == Join(xs, ", ");
    SplitJoinedPieces("", xs);
  }

  /** A trimmed element behind the blank the join puts before it trims
      back to itself. */
  lemma TrimBlankPiece(x: string)
    requires IsTrimmed(x)
    ensures Trim(" " + x) == x
  {
    TrimSkipsLeadingSpace(' ', x);
  }

  /** Trimming those pieces gives the trimmed elements back. */
  lemma TrimPieces(pieces: seq<string>, xs: seq<string>)
    requires |pieces| == |xs| >= 1 && pieces[0] == xs[0]
    requires forall i :: 1 <= i < |xs| ==> pieces[i] == " " + xs[i]
    requires forall i :: 0 <= i < |xs| ==> IsTrimmed(xs[i])
    ensures Map(pieces, Trim) == xs
  {
    var m := Map(pieces, Trim);
    forall i | 0 <= i < |xs| ensures m[i] == xs[i] {
      if i > 0 {
        TrimBlankPiece(xs[i]);
      }
    }
    PointwiseEqual(m, xs);
  }

  /** An empty skills input saves no skills. */
  lemma ParseEmptyText()
    ensures ParseSkillList("") == []
  {
    assert Split("", ',') == [""];
    assert Map([""], Trim) == [""];
    assert Filter([""], NonEmpty) == [];
  }

  /** Showing a clean skill list and saving it unedited gives the same list back. */
  lemma JoinParseRoundTrip(xs: seq<string>)
    requires forall i :: 0 <= i < |xs| ==> IsCleanSkill(xs[i])
    ensures ParseSkillList(Join(xs, ", ")) == xs
  {
    if |xs| == 0 {
      ParseEmptyText();
    } else {
      JoinedPieces(xs);
      TrimPieces(Split(Join(xs, ", "), ','), xs);
      FilterKeepsAll(xs, NonEmpty);
    }
  }

  /** A saved skill list shown again and saved again does not change. */
  lemma ReparseIsStable(text: string)
    ensures ParseSkillList(SkillsText(Listed(ParseSkillList(text)))) == ParseSkillList(text)
  {
    JoinParseRoundTrip(ParseSkillList(text));
  }

  /** The record written for draft `d`. */
  function DataOf(d: Draft): (data: ExperienceData)
    ensures data.position == d.position && data.company == d.company
    ensures data.period == d.period && data.description == d.description
    ensures data.skills == SkillsArray(d.skills)
  {
    ExperienceData(d.position, d.company, d.period, d.description, SkillsArray(d.skills))
  }

  /** The local list after row `id` is deleted. */
  function WithoutExperience(es: seq<Experience>, id: string): (r: seq<Experience>)
    ensures forall e :: e in r <==> e in es && e.id != id
    ensures forall e: Experience :: e.id != id ==> multiset(r)[e] == multiset(es)[e]
  {
    var r := Filter(es, (e: Experience) => e.id != id);
    assert forall e :: e in r <==> multiset(r)[e] > 0;
    assert forall e :: e in es <==> multiset(es)[e] > 0;
    r
  }

  /** The remaining rows keep their order. */
  lemma WithoutExperienceConcat(a: seq<Experience>, b: seq<Experience>, id: string)
    ensures WithoutExperience(a + b, id) == WithoutExperience(a, id) + WithoutExperience(b, id)
  {
    FilterConcat(a, b, (e: Experience) => e.id != id);
  }

  /** The state of `ExperienceTab`. */
  class ExperienceEditor {
    var experiences: seq<Experience>
    var currentExp: Draft

    constructor ()
      ensures experiences == [] && currentExp == EmptyDraft
    {
      experiences := [];
      currentExp := EmptyDraft;
    }

    /** `fetchExperiences`: `rows` is None when the query failed, Some(None)
        when it returned no data. */
    method FetchExperiences(rows: Option<Option<seq<Experience>>>)
      modifies this`experiences
      ensures rows.None? ==> experiences == old(experiences)
      ensures rows.Some? ==> experiences == if rows.value.Some? then rows.value.value else []
    {
      if rows.Some? {
        experiences := if rows.value.Some? then rows.value.value else [];
      }
    }

    /** `handleCreate`. */
    method Create()
      modifies this`currentExp
      ensures currentExp == EmptyDraft
    {
      currentExp := EmptyDraft;
    }

    /** `handleEdit`. */
    method Edit(e: Experience)
      modifies this`currentExp
      ensures currentExp == DraftOf(e)
    {
      currentExp := DraftOf(e);
    }

    /** Typing into the skills input stores the raw string. */
    method SetSkillsText(text: string)
      modifies this`currentExp
      ensures currentExp == old(currentExp).(skills := Typed(text))
    {
      currentExp := currentExp.(skills := Typed(text));
    }

    /** `handleDelete`: the row goes from the local list only when the user
        confirmed and the delete succeeded (`ok`). */
    method Delete(id: string, confirmed: bool, ok: bool)
      modifies this`experiences
      ensures confirmed && ok ==> experiences == WithoutExperience(old(experiences), id)
      ensures !(confirmed && ok) ==> experiences == old(experiences)
    {
      if confirmed && ok {
        experiences := WithoutExperience(experiences, id);
      }
    }

    /** The write `handleSave` sends: an update when the draft has an id,
        otherwise an insert. */
    method Save() returns (w: Write)
      ensures currentExp.id.Some? && currentExp.id.value != "" ==> w == Update(currentExp.id.value, DataOf(currentExp))
      ensures currentExp.id.None? || currentExp.id.value == "" ==> w == Insert(DataOf(currentExp))
    {
      var skillsArray: seq<string> := [];
      if currentExp.skills.Typed? {
        skillsArray := ParseSkillList(currentExp.skills.text);
      } else if currentExp.skills.Listed? {
        skillsArray := currentExp.skills.items;
      }
      var data := ExperienceData(currentExp.position, currentExp.company, currentExp.period,
                                 currentExp.description, skillsArray);
      if currentExp.id.Some? && currentExp.id.value != "" {
        w := Update(currentExp.id.value, data);
      } else {
        w := Insert(data);
      }
    }
  }
}
