/**
 * The page-text editor (src/components/TextContentEditor.tsx): a section
 * drop-down built from the text items, a Standard/Card switch for sections
 * with several items, the edit form with its "required if the original has
 * it" validation, and the decision of what an image update writes.
 */
module TextContentEditor {
  import opened Collections
  import opened Strings
  import Content

  /**
   * A text item; a missing image or alt text is `None` (the store may leave
   * either field out, and the record keeps it `undefined`).
   */
  datatype TextItem = TextItem(
    id: string, title: string, subtype: string, header: string, content: string,
    section: string, page: string, primaryButton: string, image: Option<string>,
    imageAltText: Option<string>, cardOrder: int)

  /** The `content` state cell: the fields of the item on display. */
  datatype Display = Display(
    id: string, title: string, subtype: string, header: string, content: string,
    section: string, page: string, primaryButton: string, image: Option<string>,
    imageAltText: Option<string>)

  /** The keys of the `content` cell. */
  datatype Field = Id | Title | Subtype | Header | Body | Section | Page | PrimaryButton | Image | ImageAltText

  datatype SectionOption = SectionOption(id: nat, value: string, count: nat)

  const EmptyDisplay: Display := Display("", "", "", "", "", "", "", "", None, Some(""))

  // ---------------------------------------------------------------------
  // Section options
  // ---------------------------------------------------------------------

  function Sections(data: seq<TextItem>): (t: seq<string>)
    ensures |t| == |data| && forall k :: 0 <= k < |data| ==> t[k] == data[k].section
  {
    Map(data, (item: TextItem) => item.section)
  }

  function InSection(data: seq<TextItem>, section: string): seq<TextItem>
  {
    Filter(data, (item: TextItem) => item.section == section)
  }

  /** The number of items of a section is the number of times it occurs among the sections. */
  lemma {:induction false} InSectionCount(data: seq<TextItem>, section: string)
    ensures |InSection(data, section)| == multiset(Sections(data))[section]
  {
    if data != [] {
      InSectionCount(data[1..], section);
      assert Sections(data) == [data[0].section] + Sections(data[1..]);
    }
  }

  /** One option per entry of `sections`, numbered from `start`, with its item count. */
  function OptionsFrom(data: seq<TextItem>, sections: seq<string>, start: nat): (r: seq<SectionOption>)
    ensures |r| == |sections|
    ensures forall i :: 0 <= i < |r| ==> r[i] == SectionOption(start + i, sections[i], |InSection(data, sections[i])|)
  {
    if sections == [] then []
    else [SectionOption(start, sections[0], |InSection(data, sections[0])|)] + OptionsFrom(data, sections[1..], start + 1)
  }

  /** The section list the effect on `[textData]` stores. */
  function SectionOptions(data: seq<TextItem>): seq<SectionOption>
  {
    OptionsFrom(data, Distinct(Sections(data)), 1)
  }

  function SumCounts(options: seq<SectionOption>): nat
  {
    if options == [] then 0 else options[0].count + SumCounts(options[1..])
  }

  lemma {:induction false} SumCountsFrom(data: seq<TextItem>, sections: seq<string>, start: nat)
    ensures SumCounts(OptionsFrom(data, sections, start)) == SumOccurrences(sections, Sections(data))
  {
    if sections != [] {
      InSectionCount(data, sections[0]);
      SumCountsFrom(data, sections[1..], start + 1);
    }
  }

  /** One option per distinct section, numbered 1..n, each counting the items of its section. */
  lemma SectionOptionsSpec(data: seq<TextItem>)
    ensures var r := SectionOptions(data);
      forall i :: 0 <= i < |r| ==> r[i].id == i + 1 && r[i].count == |InSection(data, r[i].value)|
    ensures var r := SectionOptions(data);
      forall x :: (exists i :: 0 <= i < |r| && r[i].value == x) <==> x in Sections(data)
  {
    var t := Sections(data);
    var d := Distinct(t);
    var r := SectionOptions(data);
    forall x ensures (exists i :: 0 <= i < |r| && r[i].value == x) <==> x in t {
      if x in t {
        assert x in d;
        var i :| 0 <= i < |d| && d[i] == x;
        assert r[i].value == x;
      }
    }
  }

  /** The options follow the order in which each section first occurs. */
  lemma SectionOptionsOrdered(data: seq<TextItem>)
    ensures var r := SectionOptions(data); var t := Sections(data);
      forall i, j :: 0 <= i < j < |r| ==> r[i].value in t && r[j].value in t && FirstIndex(t, r[i].value) < FirstIndex(t, r[j].value)
  {
    var t := Sections(data);
    var d := Distinct(t);
    var r := SectionOptions(data);
    forall i, j | 0 <= i < j < |r|
      ensures r[i].value in t && r[j].value in t && FirstIndex(t, r[i].value) < FirstIndex(t, r[j].value)
    {
      assert r[i].value == d[i] && r[j].value == d[j];
      DistinctFirstSeen(t, i, j);
    }
  }

  /** Every item is counted under exactly one option: the counts add up to the number of items. */
  lemma SectionCountsTotal(data: seq<TextItem>)
    ensures SumCounts(SectionOptions(data)) == |data|
  {
    SumCountsFrom(data, Distinct(Sections(data)), 1);
    DistinctCoversCount(Sections(data));
  }

  // ---------------------------------------------------------------------
  // Image dimensions
  // ---------------------------------------------------------------------

  /** `getImageDimensions`: (0, 0) for a missing or empty URI. */
  function ImageDimensions(wixUrl: Option<string>): (d: (nat, nat))
    ensures (wixUrl.None? || wixUrl.value == "") ==> d == (0, 0)
  {
    if wixUrl.None? || wixUrl.value == "" then (0, 0)
    else (ReadDimension(wixUrl.value, Content.WidthKey), ReadDimension(wixUrl.value, Content.HeightKey))
  }

  /** `url.match(/key(\d+)/)` then `parseInt` of the group, or 0 when there is no match. */
  function ReadDimension(url: string, key: string): nat
  {
    match FindKeyDigits(url, key)
    case Some(n) => n
    case None => 0
  }

  /** `i` is the first position where `key` is followed by a digit. */
  predicate FirstKeyDigitsAt(url: string, key: string, i: int)
  {
    0 <= i < |url| && KeyDigitsAt(url, key, i) && forall k :: 0 <= k < i ==> !KeyDigitsAt(url, key, k)
  }

  /** 0 when `key` is never followed by a digit; otherwise the digit run after its first such occurrence. */
  lemma ReadDimensionSpec(url: string, key: string)
    ensures (forall i :: 0 <= i < |url| ==> !KeyDigitsAt(url, key, i)) ==> ReadDimension(url, key) == 0
    ensures forall i :: FirstKeyDigitsAt(url, key, i) ==> ReadDimension(url, key) == DigitsAfter(url, i + |key|)
  {
    FindKeyDigitsNone(url, key);
    forall i | FirstKeyDigitsAt(url, key, i)
      ensures ReadDimension(url, key) == DigitsAfter(url, i + |key|)
    {
      FindKeyDigitsFirst(url, key, i);
    }
  }

  /** The dimensions written into an image's params are the ones read back. */
  lemma ImageDimensionsOfParams(w: nat, h: nat)
    ensures ImageDimensions(Some(Content.DimensionParams(w, h))) == (w, h)
  {
    Content.WidthOfParams(w, h);
    Content.HeightOfParams(w, h);
  }

  /**
   * Where the URI carries a dimension it is the one the CDN address is
   * built with; only the default for a missing one differs (0 here, 400 there).
   */
  lemma ImageDimensionsAgree(params: string)
    requires params != ""
    ensures var d := ImageDimensions(Some(params));
      && (FindKeyDigits(params, Content.WidthKey).Some? ==> d.0 == Content.Dimension(params, Content.WidthKey))
      && (FindKeyDigits(params, Content.HeightKey).Some? ==> d.1 == Content.Dimension(params, Content.HeightKey))
      && (FindKeyDigits(params, Content.WidthKey).None? ==> d.0 == 0 && Content.Dimension(params, Content.WidthKey) == 400)
      && (FindKeyDigits(params, Content.HeightKey).None? ==> d.1 == 0 && Content.Dimension(params, Content.HeightKey) == 400)
  {
  }

  // ---------------------------------------------------------------------
  // The displayed fields
  // ---------------------------------------------------------------------

  /** `fillInputDisplay(item)`: the item's fields, without `cardOrder`. */
  function DisplayOf(item: TextItem): Display
  {
    Display(item.id, item.title, item.subtype, item.header, item.content, item.section,
      item.page, item.primaryButton, item.image, item.imageAltText)
  }

  /** The value of a field as text; a missing image or alt text reads as "", which is just as falsy. */
  function FieldText(c: Display, f: Field): string
  {
    match f
    case Id => c.id
    case Title => c.title
    case Subtype => c.subtype
    case Header => c.header
    case Body => c.content
    case Section => c.section
    case Page => c.page
    case PrimaryButton => c.primaryButton
    case Image => if c.image.Some? then c.image.value else ""
    case ImageAltText => if c.imageAltText.Some? then c.imageAltText.value else ""
  }

  /** `setContent(prev => ({ ...prev, [field]: newContent }))`. */
  function SetField(c: Display, f: Field, v: string): (r: Display)
    ensures FieldText(r, f) == v
    ensures forall g :: g != f ==> FieldText(r, g) == FieldText(c, g)
    ensures f == Image ==> r.image == Some(v)
    ensures f != Image ==> r.image == c.image
    ensures f == ImageAltText ==> r.imageAltText == Some(v)
    ensures f != ImageAltText ==> r.imageAltText == c.imageAltText
  {
    match f
    case Id => c.(id := v)
    case Title => c.(title := v)
    case Subtype => c.(subtype := v)
    case Header => c.(header := v)
    case Body => c.(content := v)
    case Section => c.(section := v)
    case Page => c.(page := v)
    case PrimaryButton => c.(primaryButton := v)
    case Image => c.(image := Some(v))
    case ImageAltText => c.(imageAltText := Some(v))
  }

  /** Setting a field back to the value it had leaves the display as it was. */
  lemma SetFieldOwnValue(c: Display, f: Field)
    requires f != Image || c.image.Some?
    requires f != ImageAltText || c.imageAltText.Some?
    ensures SetField(c, f, FieldText(c, f)) == c
  {
  }

  // ---------------------------------------------------------------------
  // Validation
  // ---------------------------------------------------------------------

  /** A required field passes when the original lacks it or the edit is non-blank. */
  predicate Kept(original: TextItem, c: Display, f: Field)
  {
    FieldText(DisplayOf(original), f) == "" || (FieldText(c, f) != "" && Trim(FieldText(c, f)) != "")
  }

  /** `isInputValid()`: the header, the content and the button are required; false without an original item. */
  predicate IsInputValid(original: Option<TextItem>, c: Display)
  {
    original.Some? && Kept(original.value, c, Header) && Kept(original.value, c, Body) && Kept(original.value, c, PrimaryButton)
  }

  /** `getFieldError(field)`: the content field is checked without its markup. */
  predicate FieldError(original: Option<TextItem>, c: Display, f: Field)
  {
    if original.None? || FieldText(DisplayOf(original.value), f) == "" then false
    else if f == Body then StripHtml(FieldText(c, f)) == ""
    else FieldText(c, f) == "" || Trim(FieldText(c, f)) == ""
  }

  /**
   * Without an original nothing is valid and nothing is flagged. With one,
   * a form whose required fields show no error can be saved, and a form that
   * can be saved shows no error on the header or the button.
   */
  lemma ValidationAgrees(original: Option<TextItem>, c: Display)
    ensures original.None? ==> !IsInputValid(original, c) && forall f :: !FieldError(original, c, f)
    ensures original.Some? && !FieldError(original, c, Header) && !FieldError(original, c, Body) && !FieldError(original, c, PrimaryButton)
      ==> IsInputValid(original, c)
    ensures IsInputValid(original, c) ==> !FieldError(original, c, Header) && !FieldError(original, c, PrimaryButton)
  {
    if original.Some? && !FieldError(original, c, Body) && FieldText(DisplayOf(original.value), Body) != "" && Trim(c.content) == "" {
      StripHtmlOfBlank(c.content);
    }
  }

  lemma LineBreakIsMarkupOnly()
    ensures StripHtml("<br>") == ""
  {
    StripTagsDeletesRun([], "br", []);
    assert [] + ['<'] + "br" + ['>'] + [] == "<br>";
    assert StripTags("<br>") == [];
  }

  /**
   * Content made only of markup, such as a lone `<br>`, is flagged on the
   * form, yet the form can still be saved.
   */
  lemma MarkupOnlyContentPasses(original: TextItem, c: Display)
    requires original.content != "" && c.content == "<br>"
    requires Kept(original, c, Header) && Kept(original, c, PrimaryButton)
    ensures IsInputValid(Some(original), c) && FieldError(Some(original), c, Body)
  {
    LineBreakFlagged(original, c);
    LineBreakKept(original, c);
  }

  lemma LineBreakFlagged(original: TextItem, c: Display)
    requires original.content != "" && c.content == "<br>"
    ensures FieldError(Some(original), c, Body)
  {
    LineBreakIsMarkupOnly();
  }

  lemma LineBreakKept(original: TextItem, c: Display)
    requires c.content == "<br>"
    ensures Kept(original, c, Body)
  {
    var br: string := "<br>";
    TrimStartOfTrimmed(br);
    TrimEndOfTrimmed(br);
  }

  // ---------------------------------------------------------------------
  // The image-save decision
  // ---------------------------------------------------------------------

  /** What an image update writes to the store. */
  datatype ImagePatch =
    | PatchImageAndAlt(url: string, alt: Option<string>)
    | PatchAlt(alt: Option<string>)
    | NoPatch

  /**
   * The choice made when the image dialog closes: `saved`, the new URL and
   * the new alt text (either may be absent) are the dialog's answer, `c`
   * the display when the update began. The comparisons are `!==`, so an
   * absent alt text on display differs from every text, "" included.
   */
  function ImageSaveDecision(c: Display, saved: bool, newImageUrl: Option<string>, newAltText: Option<string>): ImagePatch
  {
    if !saved then NoPatch
    else if newImageUrl.Some? && newImageUrl.value != "" && (newImageUrl != c.image || newAltText != c.imageAltText)
    then PatchImageAndAlt(newImageUrl.value, newAltText)
    else if newAltText != c.imageAltText then PatchAlt(newAltText)
    else NoPatch
  }

  /** The display after the store accepted the patch: `newAltText ?? ""`. */
  function AfterPatch(c: Display, patch: ImagePatch): Display
  {
    match patch
    case PatchImageAndAlt(u, a) => c.(image := Some(u), imageAltText := Some(if a.Some? then a.value else ""))
    case PatchAlt(a) => c.(imageAltText := Some(if a.Some? then a.value else ""))
    case NoPatch => c
  }

  /**
   * Nothing is written unless the dialog saved. A non-empty new URL writes
   * image and alt text together when either differs from the display; an
   * empty or missing URL writes only a changed alt text; when neither
   * changed nothing is written. Only the image and its alt text ever
   * change, and a patch applied with an alt text leaves nothing to write if
   * the same answer came again.
   */
  lemma ImageSaveSpec(c: Display, saved: bool, newImageUrl: Option<string>, newAltText: Option<string>)
    ensures var p := ImageSaveDecision(c, saved, newImageUrl, newAltText);
      var hasUrl := newImageUrl.Some? && newImageUrl.value != "";
      && (!saved ==> p == NoPatch)
      && (saved && hasUrl && (newImageUrl != c.image || newAltText != c.imageAltText) ==>
            p == PatchImageAndAlt(newImageUrl.value, newAltText))
      && (saved && !hasUrl && newAltText != c.imageAltText ==> p == PatchAlt(newAltText))
      && (saved && newAltText == c.imageAltText && (!hasUrl || newImageUrl == c.image) ==> p == NoPatch)
      && AfterPatch(c, p).(image := c.image, imageAltText := c.imageAltText) == c
    ensures var p := ImageSaveDecision(c, saved, newImageUrl, newAltText);
      p != NoPatch && newAltText.Some? ==>
        AfterPatch(c, p) != c && ImageSaveDecision(AfterPatch(c, p), saved, newImageUrl, newAltText) == NoPatch
  {
  }

  /**
   * An item stored without an alt text, saved unchanged from the dialog
   * (which answers "" for it): the "" differs from the missing value, so
   * image and alt text are both written, and afterwards the same answer
   * writes nothing.
   */
  lemma MissingAltTextWritten(c: Display, url: string)
    requires c.imageAltText.None? && c.image == Some(url) && url != ""
    ensures ImageSaveDecision(c, true, Some(url), Some("")) == PatchImageAndAlt(url, Some(""))
    ensures var c2 := AfterPatch(c, PatchImageAndAlt(url, Some("")));
      c2.imageAltText == Some("") && ImageSaveDecision(c2, true, Some(url), Some("")) == NoPatch
  {
  }

  // ---------------------------------------------------------------------
  // The component's state and its handlers as transitions
  // ---------------------------------------------------------------------

  datatype State = State(
    textData: seq<TextItem>,
    sectionData: seq<TextItem>,
    sectionOptions: seq<SectionOption>,
    showCardOptions: bool,
    selectedSection: Option<SectionOption>,
    checkedId: int,
    content: Display,
    cardContent: seq<TextItem>,
    contentKey: int)

  predicate IsStandard(item: TextItem)
  {
    item.subtype == "Standard"
  }

  predicate IsCard(item: TextItem)
  {
    item.subtype == "Card"
  }

  function ByCardOrder(a: TextItem, b: TextItem): int
  {
    a.cardOrder - b.cardOrder
  }

  /** `textData.find(item => item.id === id)`. */
  function ItemWithId(data: seq<TextItem>, id: string): Option<TextItem>
  {
    Find(data, (item: TextItem) => item.id == id)
  }

  /** `originalItem`: the stored item with the displayed id. */
  function OriginalItem(s: State): Option<TextItem>
  {
    ItemWithId(s.textData, s.content.id)
  }

  /** The cells before the mount effect has run. */
  function Blank(data: seq<TextItem>): State
  {
    State(data, [], [], false, None, 1, EmptyDisplay, [], 0)
  }

  /** The effect on `[textData]`: the section list is rebuilt, unless there are no items. */
  function Loaded(s: State, data: seq<TextItem>): State
  {
    s.(textData := data, sectionOptions := if |data| == 0 then s.sectionOptions else SectionOptions(data))
  }

  /** The item `handleSelectSection` displays. */
  function SectionItem(items: seq<TextItem>, count: int): Option<TextItem>
  {
    if count > 1 then Find(items, IsStandard)
    else if |items| > 0 then Some(items[0])
    else None
  }

  function DisplayIfFound(c: Display, item: Option<TextItem>): Display
  {
    if item.Some? then DisplayOf(item.value) else c
  }

  function SectionSelected(s: State, option: SectionOption): State
  {
    var items := InSection(s.textData, option.value);
    s.(selectedSection := Some(option), checkedId := 1, sectionData := items,
       showCardOptions := option.count > 1, content := DisplayIfFound(s.content, SectionItem(items, option.count)))
  }

  function CardItems(sectionData: seq<TextItem>): seq<TextItem>
  {
    Sort(Filter(sectionData, IsCard), ByCardOrder)
  }

  function CardClicked(s: State): State
  {
    var cards := CardItems(s.sectionData);
    s.(checkedId := 2, cardContent := cards, content := if |cards| > 0 then DisplayOf(cards[0]) else s.content)
  }

  function StandardClicked(s: State): State
  {
    s.(checkedId := 1, content := DisplayIfFound(s.content, Find(s.sectionData, IsStandard)))
  }

  function CardDisplayed(s: State, card: TextItem): State
  {
    s.(content := DisplayOf(card))
  }

  function ContentChanged(s: State, f: Field, v: string): State
  {
    s.(content := SetField(s.content, f, v))
  }

  function Reverted(s: State): State
  {
    match OriginalItem(s)
    case Some(o) => s.(content := DisplayOf(o), contentKey := s.contentKey + 1)
    case None => s
  }

  /** The local update after the store accepted an image patch. */
  function ImageSaved(s: State, patch: ImagePatch): State
  {
    s.(content := AfterPatch(s.content, patch))
  }

  /**
   * Choosing a listed section shows exactly its items; with one item that
   * item is displayed, with several the first "Standard" one (if any), and
   * the Standard/Card switch appears exactly when there are several.
   */
  lemma SectionSelectedSpec(s: State, option: SectionOption)
    requires option in SectionOptions(s.textData)
    ensures var t := SectionSelected(s, option);
      && (forall x :: x in t.sectionData <==> x in s.textData && x.section == option.value)
      && |t.sectionData| == option.count >= 1
      && t.checkedId == 1 && t.selectedSection == Some(option)
      && (t.showCardOptions <==> |t.sectionData| > 1)
      && (!t.showCardOptions ==> t.content == DisplayOf(t.sectionData[0]))
      && (t.showCardOptions && Find(t.sectionData, IsStandard).Some? ==>
            t.content == DisplayOf(Find(t.sectionData, IsStandard).value) && t.content.subtype == "Standard")
      && (t.showCardOptions && Find(t.sectionData, IsStandard).None? ==> t.content == s.content)
      && t.content.section == (if t.content == s.content then s.content.section else option.value)
  {
    ListedSectionCount(s.textData, option);
  }

  /** A listed section counts its items, and has at least one. */
  lemma ListedSectionCount(data: seq<TextItem>, option: SectionOption)
    requires option in SectionOptions(data)
    ensures option.count == |InSection(data, option.value)| >= 1
  {
    var d := Distinct(Sections(data));
    var r := SectionOptions(data);
    var i :| 0 <= i < |r| && r[i] == option;
    assert option.value == d[i] && option.value in Sections(data);
    var k :| 0 <= k < |data| && data[k].section == option.value;
    assert data[k] in InSection(data, option.value);
  }

  /**
   * The card list is the section's "Card" items, reordered by ascending
   * `cardOrder`; the first (lowest) card is displayed when there is one.
   */
  lemma CardClickedSpec(s: State)
    ensures var t := CardClicked(s);
      && t.checkedId == 2
      && multiset(t.cardContent) == multiset(Filter(s.sectionData, IsCard))
      && (forall x :: x in t.cardContent ==> x in s.sectionData && x.subtype == "Card")
      && (forall i, j :: 0 <= i < j < |t.cardContent| ==> t.cardContent[i].cardOrder <= t.cardContent[j].cardOrder)
      && (|t.cardContent| > 0 ==> t.content == DisplayOf(t.cardContent[0]))
      && (|t.cardContent| == 0 ==> t.content == s.content)
  {
    var cards := CardItems(s.sectionData);
    assert TotalPreorder(ByCardOrder);
    SortSorted(Filter(s.sectionData, IsCard), ByCardOrder);
    forall x | x in cards ensures x in s.sectionData && x.subtype == "Card" {
      assert x in multiset(cards);
    }
    forall i, j | 0 <= i < j < |cards| ensures cards[i].cardOrder <= cards[j].cardOrder {
      assert ByCardOrder(cards[i], cards[j]) <= 0;
    }
  }

  /** Switching back to "Standard" shows the section's first Standard item, if any. */
  lemma StandardClickedSpec(s: State)
    ensures var t := StandardClicked(s);
      && t.checkedId == 1
      && (Find(s.sectionData, IsStandard).None? <==> forall x :: x in s.sectionData ==> !IsStandard(x))
      && (Find(s.sectionData, IsStandard).None? ==> t.content == s.content)
      && (Find(s.sectionData, IsStandard).Some? ==> t.content.subtype == "Standard" && exists x :: x in s.sectionData && t.content == DisplayOf(x))
      && t.(checkedId := s.checkedId, content := s.content) == s
  {
    if Find(s.sectionData, IsStandard).None? {
      forall x | x in s.sectionData ensures !IsStandard(x) {
        var k :| 0 <= k < |s.sectionData| && s.sectionData[k] == x;
      }
    }
  }

  /**
   * An edit changes only the named field, and the original item stays the
   * same unless the id itself is edited.
   */
  lemma ContentChangedSpec(s: State, f: Field, v: string)
    ensures FieldText(ContentChanged(s, f, v).content, f) == v
    ensures forall g :: g != f ==> FieldText(ContentChanged(s, f, v).content, g) == FieldText(s.content, g)
    ensures ContentChanged(s, f, v).(content := s.content) == s
    ensures f != Id ==> OriginalItem(ContentChanged(s, f, v)) == OriginalItem(s)
  {
  }

  /**
   * Reverting shows the original item again and bumps the editor key; the
   * original is still the same item afterwards, and without one nothing
   * happens.
   */
  lemma RevertedSpec(s: State)
    ensures OriginalItem(s).None? ==> Reverted(s) == s
    ensures OriginalItem(s).Some? ==>
      && Reverted(s).content == DisplayOf(OriginalItem(s).value)
      && Reverted(s).contentKey == s.contentKey + 1
      && OriginalItem(Reverted(s)) == OriginalItem(s)
      && Reverted(s).(content := s.content, contentKey := s.contentKey) == s
  {
    if OriginalItem(s).Some? {
      assert OriginalItem(s).value.id == s.content.id;
      assert Reverted(s).content.id == s.content.id;
    }
  }

  /** A successful image patch touches only the image and its alt text. */
  lemma ImageSavedSpec(s: State, patch: ImagePatch)
    ensures ImageSaved(s, patch).(content := s.content) == s
    ensures ImageSaved(s, patch).content.(image := s.content.image, imageAltText := s.content.imageAltText) == s.content
    ensures OriginalItem(ImageSaved(s, patch)) == OriginalItem(s)
  {
  }

  // ---------------------------------------------------------------------
  // The component
  // ---------------------------------------------------------------------

  class Editor {
    var textData: seq<TextItem>
    var sectionData: seq<TextItem>
    var sectionOptions: seq<SectionOption>
    var showCardOptions: bool
    var selectedSection: Option<SectionOption>
    var checkedId: int
    var content: Display
    var cardContent: seq<TextItem>
    var contentKey: int

    function Cells(): State
      reads this
    {
      State(textData, sectionData, sectionOptions, showCardOptions, selectedSection,
        checkedId, content, cardContent, contentKey)
    }

    /** Mounting: the cells start empty and the effect on `[textData]` runs once. */
    constructor (data: seq<TextItem>)
      ensures Cells() == Loaded(Blank(data), data)
    {
      textData := data;
      sectionData := [];
      sectionOptions := if |data| == 0 then [] else SectionOptions(data);
      showCardOptions := false;
      selectedSection := None;
      checkedId := 1;
      content := EmptyDisplay;
      cardContent := [];
      contentKey := 0;
    }

    method Load(data: seq<TextItem>)
      modifies this
      ensures Cells() == Loaded(old(Cells()), data)
    {
      textData := data;
      if |data| > 0 {
        sectionOptions := SectionOptions(data);
      }
    }

    method FillInputDisplay(item: TextItem)
      modifies this
      ensures Cells() == old(Cells()).(content := DisplayOf(item))
    {
      content := DisplayOf(item);
    }

    method HandleSelectSection(option: SectionOption)
      modifies this
      ensures Cells() == SectionSelected(old(Cells()), option)
    {
      selectedSection := Some(option);
      checkedId := 1;
      var filtered := InSection(textData, option.value);
      sectionData := filtered;
      var selected: Option<TextItem>;
      if option.count > 1 {
        showCardOptions := true;
        selected := Find(filtered, IsStandard);
      } else {
        showCardOptions := false;
        checkedId := 1;
        selected := if |filtered| > 0 then Some(filtered[0]) else None;
      }
      if selected.None? {
        return;
      }
      FillInputDisplay(selected.value);
    }

    method HandleCardClicked()
      modifies this
      ensures Cells() == CardClicked(old(Cells()))
    {
      ghost var before := Cells();
      var cards := CardItems(sectionData);
      checkedId := 2;
      cardContent := cards;
      if |cards| > 0 {
        FillInputDisplay(cards[0]);
      }
      assert Cells() == CardClicked(before);
    }

    method HandleStandardClicked()
      modifies this
      ensures Cells() == StandardClicked(old(Cells()))
    {
      checkedId := 1;
      var standard := Find(sectionData, IsStandard);
      if standard.Some? {
        FillInputDisplay(standard.value);
      }
    }

    method HandleDisplayCard(card: TextItem)
      modifies this
      ensures Cells() == CardDisplayed(old(Cells()), card)
    {
      FillInputDisplay(card);
    }

    method HandleContentChange(newContent: string, f: Field)
      modifies this
      ensures Cells() == ContentChanged(old(Cells()), f, newContent)
    {
      content := SetField(content, f, newContent);
    }

    method HandleRevertContent()
      modifies this
      ensures Cells() == Reverted(old(Cells()))
    {
      var original := ItemWithId(textData, content.id);
      if original.Some? {
        FillInputDisplay(original.value);
        contentKey := contentKey + 1;
      }
    }

    /**
     * The store step of `handleUpdateImage` once the dialog has answered:
     * returns the patch sent to the store; `stored` says whether the store
     * accepted it, and only then does the display change.
     */
    method SaveImage(saved: bool, newImageUrl: Option<string>, newAltText: Option<string>, stored: bool) returns (patch: ImagePatch)
      modifies this
      ensures patch == ImageSaveDecision(old(content), saved, newImageUrl, newAltText)
      ensures Cells() == if stored then ImageSaved(old(Cells()), patch) else old(Cells())
    {
      patch := ImageSaveDecision(content, saved, newImageUrl, newAltText);
      if stored {
        content := AfterPatch(content, patch);
      }
    }
  }
}
