/**
 * The legal-text editor (src/components/LegalEditor.tsx): a radio choice
 * between the Impressum and the Privacy Policy, an edit form for the
 * header and the content of the chosen text, and its validation.
 */
module LegalEditor {
  import opened Collections
  import opened Strings

  /** A stored text item, as far as this editor reads it. */
  datatype LegalItem = LegalItem(id: string, title: string, section: string, header: string, content: string)

  /** The `content` state cell. */
  datatype Display = Display(id: string, title: string, section: string, header: string, content: string)

  /** The keys of the `content` cell. */
  datatype Field = Id | Title | Section | Header | Body

  /** A drop-down option; its id is the section name itself. */
  datatype SectionOption = SectionOption(id: string, value: string)

  const EmptyDisplay: Display := Display("", "", "", "", "")

  // ---------------------------------------------------------------------
  // Section options
  // ---------------------------------------------------------------------

  function Sections(data: seq<LegalItem>): (t: seq<string>)
    ensures |t| == |data| && forall k :: 0 <= k < |data| ==> t[k] == data[k].section
  {
    Map(data, (item: LegalItem) => item.section)
  }

  function SectionOptions(data: seq<LegalItem>): (r: seq<SectionOption>)
    ensures |r| == |Distinct(Sections(data))|
    ensures forall i :: 0 <= i < |r| ==> r[i] == SectionOption(Distinct(Sections(data))[i], Distinct(Sections(data))[i])
  {
    var d := Distinct(Sections(data));
    seq(|d|, i requires 0 <= i < |d| => SectionOption(d[i], d[i]))
  }

  /** One option per distinct section, in first-seen order, named by the section itself. */
  lemma SectionOptionsSpec(data: seq<LegalItem>)
    ensures var r := SectionOptions(data);
      forall i :: 0 <= i < |r| ==> r[i].id == r[i].value
    ensures var r := SectionOptions(data);
      forall x :: (exists i :: 0 <= i < |r| && r[i].value == x) <==> x in Sections(data)
    ensures var r := SectionOptions(data);
      forall i, j :: 0 <= i < j < |r| ==> r[i].id != r[j].id
    ensures var r := SectionOptions(data); var t := Sections(data);
      forall i, j :: 0 <= i < j < |r| ==> r[i].value in t && r[j].value in t && FirstIndex(t, r[i].value) < FirstIndex(t, r[j].value)
  {
    var t := Sections(data);
    var d := Distinct(t);
    var r := SectionOptions(data);
    forall x ensures (exists i :: 0 <= i < |r| && r[i].value == x) <==> x in t {
      if x in t {
        assert x in d;
        var i :| 0 <= i < |d| && d[i] == x;
        assert r[i].value == x;
      }
    }
    forall i, j | 0 <= i < j < |r|
      ensures r[i].value in t && r[j].value in t && FirstIndex(t, r[i].value) < FirstIndex(t, r[j].value)
    {
      DistinctFirstSeen(t, i, j);
    }
  }

  // ---------------------------------------------------------------------
  // The displayed fields and validation
  // ---------------------------------------------------------------------

  /** `fillInputDisplay(item)`. */
  function DisplayOf(item: LegalItem): Display
  {
    Display(item.id, item.title, item.section, item.header, item.content)
  }

  function FieldText(c: Display, f: Field): string
  {
    match f
    case Id => c.id
    case Title => c.title
    case Section => c.section
    case Header => c.header
    case Body => c.content
  }

  /** `setContent(prev => ({ ...prev, [field]: newContent }))`. */
  function SetField(c: Display, f: Field, v: string): (r: Display)
    ensures FieldText(r, f) == v
    ensures forall g :: g != f ==> FieldText(r, g) == FieldText(c, g)
  {
    match f
    case Id => c.(id := v)
    case Title => c.(title := v)
    case Section => c.(section := v)
    case Header => c.(header := v)
    case Body => c.(content := v)
  }

  /** A required field passes when the original lacks it or the edit is non-blank. */
  predicate Kept(original: LegalItem, c: Display, f: Field)
  {
    FieldText(DisplayOf(original), f) == "" || (FieldText(c, f) != "" && Trim(FieldText(c, f)) != "")
  }

  /** `isInputValid()`: the header and the content are required; false without an original item. */
  predicate IsInputValid(original: Option<LegalItem>, c: Display)
  {
    original.Some? && Kept(original.value, c, Header) && Kept(original.value, c, Body)
  }

  /** `getFieldError(field)`: the content is checked without its markup, the header only trimmed. */
  predicate FieldError(original: Option<LegalItem>, c: Display, f: Field)
  {
    if original.None? || FieldText(DisplayOf(original.value), f) == "" then false
    else if f == Body then StripHtml(FieldText(c, f)) == ""
    else FieldText(c, f) == "" || Trim(FieldText(c, f)) == ""
  }

  /**
   * Without an original nothing is valid and nothing is flagged; a form with
   * no error on the header and the content can be saved; a form that can be
   * saved shows no error on the header.
   */
  lemma ValidationAgrees(original: Option<LegalItem>, c: Display)
    ensures original.None? ==> !IsInputValid(original, c) && forall f :: !FieldError(original, c, f)
    ensures original.Some? && !FieldError(original, c, Header) && !FieldError(original, c, Body) ==> IsInputValid(original, c)
    ensures IsInputValid(original, c) ==> !FieldError(original, c, Header)
  {
    if original.Some? && !FieldError(original, c, Body) && FieldText(DisplayOf(original.value), Body) != "" && Trim(c.content) == "" {
      StripHtmlOfBlank(c.content);
    }
  }

  /** The original item itself passes validation whenever its own fields are not blank. */
  lemma OriginalIsValid(original: LegalItem)
    requires Trim(original.header) != "" || original.header == ""
    requires Trim(original.content) != "" || original.content == ""
    ensures IsInputValid(Some(original), DisplayOf(original))
  {
  }

  // ---------------------------------------------------------------------
  // The component's state and its handlers as transitions
  // ---------------------------------------------------------------------

  datatype State = State(
    textData: seq<LegalItem>,
    sectionOptions: seq<SectionOption>,
    checkedId: Option<int>,
    content: Display,
    contentKey: int)

  /** The fixed radio-id-to-section map; other ids name no section. */
  function SectionName(id: int): (r: Option<string>)
    ensures r.Some? <==> id == 1 || id == 2
  {
    if id == 1 then Some("Impressum") else if id == 2 then Some("Privacy Policy") else None
  }

  /** `textData.find(item => item.section === sectionName)`. */
  function FirstOfSection(data: seq<LegalItem>, name: Option<string>): Option<LegalItem>
  {
    if name.None? then None else Find(data, (item: LegalItem) => item.section == name.value)
  }

  function ItemWithId(data: seq<LegalItem>, id: string): Option<LegalItem>
  {
    Find(data, (item: LegalItem) => item.id == id)
  }

  /** `originalItem`: the stored item with the displayed id. */
  function OriginalItem(s: State): Option<LegalItem>
  {
    ItemWithId(s.textData, s.content.id)
  }

  function Blank(data: seq<LegalItem>): State
  {
    State(data, [], None, EmptyDisplay, 0)
  }

  /** The effect on `[textData]`: the option list is rebuilt, unless there are no items. */
  function Loaded(s: State, data: seq<LegalItem>): State
  {
    s.(textData := data, sectionOptions := if |data| == 0 then s.sectionOptions else SectionOptions(data))
  }

  function SectionSelected(s: State, id: int): State
  {
    match FirstOfSection(s.textData, SectionName(id))
    case None => s.(checkedId := Some(id))
    case Some(item) => s.(checkedId := Some(id), content := DisplayOf(item), contentKey := s.contentKey + 1)
  }

  function SectionCleared(s: State): State
  {
    s.(content := EmptyDisplay)
  }

  function ContentChanged(s: State, f: Field, v: string): State
  {
    s.(content := SetField(s.content, f, v))
  }

  function Reverted(s: State): State
  {
    match OriginalItem(s)
    case Some(o) => s.(content := DisplayOf(o), contentKey := s.contentKey + 1)
    case None => s
  }

  /**
   * Radio 1 shows the first Impressum item and radio 2 the first Privacy
   * Policy item, bumping the editor key; when there is no such item only
   * the radio moves.
   */
  lemma SectionSelectedSpec(s: State, id: int)
    ensures SectionSelected(s, id).checkedId == Some(id)
    ensures var t := SectionSelected(s, id);
      (exists k :: 0 <= k < |s.textData| && Some(s.textData[k].section) == SectionName(id)) ==>
        && t.content.section == SectionName(id).value
        && t.contentKey == s.contentKey + 1
        && (exists k :: 0 <= k < |s.textData| && t.content == DisplayOf(s.textData[k])
              && forall m :: 0 <= m < k ==> Some(s.textData[m].section) != SectionName(id))
    ensures (forall k :: 0 <= k < |s.textData| ==> Some(s.textData[k].section) != SectionName(id)) ==>
      SectionSelected(s, id) == s.(checkedId := Some(id))
    ensures SectionSelected(s, id).(checkedId := s.checkedId, content := s.content, contentKey := s.contentKey) == s
  {
  }

  /** With unique ids, reverting right after choosing a text changes nothing on the form. */
  lemma SelectThenRevert(s: State, id: int)
    requires forall i, j :: 0 <= i < j < |s.textData| ==> s.textData[i].id != s.textData[j].id
    requires FirstOfSection(s.textData, SectionName(id)).Some?
    ensures Reverted(SectionSelected(s, id)).content == SectionSelected(s, id).content
  {
    var item := FirstOfSection(s.textData, SectionName(id)).value;
    var t := SectionSelected(s, id);
    assert t.content == DisplayOf(item) && t.textData == s.textData;
    assert item in s.textData;
    var o := OriginalItem(t);
    assert o.Some?;
    var j :| 0 <= j < |s.textData| && s.textData[j] == o.value && s.textData[j].id == item.id;
    var k :| 0 <= k < |s.textData| && s.textData[k] == item;
    assert j == k;
  }

  /** Clearing empties all five fields and nothing else; clearing twice is clearing once. */
  lemma SectionClearedSpec(s: State)
    ensures forall f :: FieldText(SectionCleared(s).content, f) == ""
    ensures SectionCleared(s).(content := s.content) == s
    ensures SectionCleared(SectionCleared(s)) == SectionCleared(s)
  {
  }

  /** An edit changes only the named field; the original stays the same unless the id is edited. */
  lemma ContentChangedSpec(s: State, f: Field, v: string)
    ensures FieldText(ContentChanged(s, f, v).content, f) == v
    ensures forall g :: g != f ==> FieldText(ContentChanged(s, f, v).content, g) == FieldText(s.content, g)
    ensures ContentChanged(s, f, v).(content := s.content) == s
    ensures f != Id ==> OriginalItem(ContentChanged(s, f, v)) == OriginalItem(s)
  {
  }

  /** Reverting restores the original's fields and bumps the key; without an original nothing happens. */
  lemma RevertedSpec(s: State)
    ensures OriginalItem(s).None? ==> Reverted(s) == s
    ensures OriginalItem(s).Some? ==>
      && Reverted(s).content == DisplayOf(OriginalItem(s).value)
      && Reverted(s).contentKey == s.contentKey + 1
      && OriginalItem(Reverted(s)) == OriginalItem(s)
      && Reverted(s).(content := s.content, contentKey := s.contentKey) == s
  {
    if OriginalItem(s).Some? {
      assert OriginalItem(s).value.id == s.content.id;
      assert Reverted(s).content.id == s.content.id;
    }
  }

  // ---------------------------------------------------------------------
  // The component
  // ---------------------------------------------------------------------

  class Editor {
    var textData: seq<LegalItem>
    var sectionOptions: seq<SectionOption>
    var checkedId: Option<int>
    var content: Display
    var contentKey: int

    function Cells(): State
      reads this
    {
      State(textData, sectionOptions, checkedId, content, contentKey)
    }

    /** Mounting: the cells start empty and the effect on `[textData]` runs once. */
    constructor (data: seq<LegalItem>)
      ensures Cells() == Loaded(Blank(data), data)
    {
      textData := data;
      sectionOptions := if |data| == 0 then [] else SectionOptions(data);
      checkedId := None;
      content := EmptyDisplay;
      contentKey := 0;
    }

    method Load(data: seq<LegalItem>)
      modifies this
      ensures Cells() == Loaded(old(Cells()), data)
    {
      textData := data;
      if |data| > 0 {
        sectionOptions := SectionOptions(data);
      }
    }

    method FillInputDisplay(item: LegalItem)
      modifies this
      ensures Cells() == old(Cells()).(content := DisplayOf(item))
    {
      content := DisplayOf(item);
    }

    method HandleSelectSection(id: int)
      modifies this
      ensures Cells() == SectionSelected(old(Cells()), id)
    {
      checkedId := Some(id);
      var selected := FirstOfSection(textData, SectionName(id));
      if selected.None? {
        return;
      }
      FillInputDisplay(selected.value);
      contentKey := contentKey + 1;
    }

    /** The radio buttons' handler: mark the radio, then select its section. */
    method HandleRadioSelect(id: int)
      modifies this
      ensures Cells() == SectionSelected(old(Cells()), id)
    {
      checkedId := Some(id);
      HandleSelectSection(id);
    }

    method HandleClearSection()
      modifies this
      ensures Cells() == SectionCleared(old(Cells()))
    {
      content := EmptyDisplay;
    }

    method HandleContentChange(newContent: string, f: Field)
      modifies this
      ensures Cells() == ContentChanged(old(Cells()), f, newContent)
    {
      content := SetField(content, f, newContent);
    }

    method HandleRevertContent()
      modifies this
      ensures Cells() == Reverted(old(Cells()))
    {
      var original := ItemWithId(textData, content.id);
      if original.Some? {
        FillInputDisplay(original.value);
        contentKey := contentKey + 1;
      }
    }
  }
}
