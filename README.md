# Verified model of the CMS dashboard editors

This project is a Dafny model of the content editors of a small CMS dashboard app for a fitness studio. The app is a React application. The model covers:

- the FAQ table editor: sorting by `order`, topic filter, search, chips and pagination;
- the packages-and-pricing editor: type and session facets, chips, column sort and the description list;
- the page-text editor: the section list with counts, the Standard/Card switch, form validation, image dimensions and the image-update decision;
- the legal-text editor: the Impressum / Privacy Policy choice, the form and its validation;
- the "Edit package" dialog: record updaters that keep the name and total in step, and the save flow;
- the "Add to FAQ" dialog: form validation, the inserted record and its `order`;
- `convertWixImageUrl`, which turns a media reference into a static CDN address.

Each React component is modelled twice:

- a pure `State` datatype with one transition function per handler, about which the lemmas are proved;
- a class whose fields are the component's state cells. Its methods are the handlers, and each method is proved to move the cells exactly as its transition function says.

Shared building blocks are:

- `Collections`: map, filter, stable insertion sort (JavaScript's `Array.prototype.sort` is stable), distinct-in-first-seen-order, `slice`;
- `Strings`: ASCII trimming and lower-casing, `includes`, the markup stripper `replace(/<[^>]*>/g, "").trim()`, code-point string order, and the digit-run reader behind `/key(\d+)/` with `parseInt`.

## Model

| member | source | states |
|---|---|---|
| Collections.Filter | src/components/FAQEditor.tsx:78-88 | `Array.prototype.filter`: the result keeps exactly the elements satisfying the predicate and is no longer than the input |
| Collections.FilterCount | src/components/FAQEditor.tsx:78-88 | a filtered element occurs exactly as often as in the input; a rejected one does not occur |
| Collections.FilterIsSubsequence | src/components/FAQEditor.tsx:78-88 | a filter keeps the relative order of what it keeps |
| Collections.Sort | src/components/FAQEditor.tsx:76 | the sort returns a permutation of its input: same length, same elements, same multiplicities |
| Collections.SortSorted | src/components/FAQEditor.tsx:76 | sorting with a comparator that is a total preorder leaves every adjacent pair in order |
| Collections.SortStable | src/components/FAQEditor.tsx:76 | the sort is stable: for a total-preorder comparator, the elements that rank equal to any given value come out in the order they went in |
| Collections.FilterSorted | src/components/FAQEditor.tsx:76-88 | filtering a sorted list leaves it sorted |
| Collections.Distinct | src/components/FAQEditor.tsx:57-59 | `Array.from(new Set(xs))`: every element of the input exactly once, and nothing else |
| Collections.DistinctFirstSeen | src/components/FAQEditor.tsx:57-59 | the distinct elements come in the order of their first occurrence |
| Collections.DistinctCoversCount | src/components/TextContentEditor.tsx:66-75 | summing, over the distinct values, how often each occurs gives the length of the list |
| Collections.JsSlice | src/components/FAQEditor.tsx:53 | `slice(start, end)`: the consecutive elements from the clamped start up to the clamped end (a negative bound counts from the end), empty when the end is not past the start; for `0 <= start <= end` it is `s[start..end]` cut at the length |
| Strings.TrimSpec | src/dashboard/modals/add-faq/modal.tsx:55-57 | `trim()` returns the slice of the text after its leading whitespace, and only whitespace surrounds it |
| Strings.TrimEnds | src/dashboard/modals/add-faq/modal.tsx:55-57 | a trimmed text neither starts nor ends with whitespace |
| Strings.TrimIdempotent | src/dashboard/modals/add-faq/modal.tsx:82 | trimming twice is trimming once |
| Strings.TrimEmptyIffBlank | src/components/TextContentEditor.tsx:301-315 | a text trims to "" exactly when it is all whitespace |
| Strings.ToLower | src/components/FAQEditor.tsx:111 | lower-casing keeps the length and maps each character on its own |
| Strings.ContainsSpec | src/components/FAQEditor.tsx:85-86 | `includes(t)` holds exactly when `t` occurs at some position |
| Strings.StripTagsNoTagLeft | src/components/FAQEditor.tsx:194-196 | after the global replacement no `<` is followed later by a `>` |
| Strings.StripTagsFixpoint | src/components/FAQEditor.tsx:194-196 | text without a complete `<...>` run is left unchanged |
| Strings.StripTagsDeletesRun | src/components/FAQEditor.tsx:194-196 | a run `<t>` after markup-free text is deleted, and only that run |
| Strings.StripHtml | src/components/PackagesEditor.tsx:76-78 | the stripped text is no longer than the input and has no markup run left |
| Strings.StripHtmlOfBlank | src/components/TextContentEditor.tsx:317-327 | blank text strips to "" |
| Strings.StripHtmlIdempotent | src/components/FAQEditor.tsx:194-196 | stripping twice is stripping once |
| Strings.CompareStrings | src/components/PackagesEditor.tsx:295-306 | the string comparison answers -1, 0 or 1, and 0 exactly for equal texts |
| Strings.CompareStringsAntisymmetric | src/components/PackagesEditor.tsx:295-306 | swapping the operands negates the answer |
| Strings.CompareStringsTransitive | src/components/PackagesEditor.tsx:295-306 | the order is transitive |
| Strings.ParseNatToString | src/utils/content.ts:11-17 | `parseInt` of a rendered number gives the number back |
| Strings.FindKeyDigitsNone | src/components/TextContentEditor.tsx:170-171 | `match(/key(\d+)/)` fails exactly when `key` is nowhere followed by a digit |
| Strings.FindKeyDigitsFirst | src/components/TextContentEditor.tsx:170-176 | the number read is the digit run after the first place where `key` is followed by a digit |
| Strings.FindKeyDigitsOfRendered | src/utils/content.ts:11-15 | a key written with a number right after it reads that number back |
| Content.SplitAt | src/utils/content.ts:5 | splitting at the first separator: both parts rebuild the text, and the first part holds no separator |
| Content.MatchAtSound | src/utils/content.ts:5 | a match at the start covers a prefix of the text ending at a line end or at the end (greedy `.+`) |
| Content.MatchAtFormat | src/utils/content.ts:5-8 | matching a well-formed reference gives back exactly its file id, file name and params |
| Content.FindLeftmostSpec | src/utils/content.ts:5-6 | the unanchored match fails exactly when no start position matches; otherwise it is the leftmost one |
| Content.Dimension | src/utils/content.ts:11-15 | a dimension is the number after its key, or 400 when there is none |
| Content.StaticUrl | src/utils/content.ts:17 | the converted address starts with the static media base (its exact form is the `ConvertMatchedAddress` row) |
| Content.ConvertWixImageUrl | src/utils/content.ts:1-18 | a null or empty input gives null; an input that does not match is returned unchanged; a match gives a static media address |
| Content.ConvertMatchedAddress | src/utils/content.ts:5-17 | for any matched input, whatever its params hold, the result is exactly base + file id + `/v1/fit/w_W,h_H/` + file name, with W and H the numbers after `originWidth=` and `originHeight=`, each 400 when its key is missing |
| Content.WidthOnlyDimensions | src/utils/content.ts:11-15 | params holding only `originWidth=W` give width W and the default height 400 |
| Content.ConvertWithoutHeight | src/utils/content.ts:1-17 | a well-formed reference whose params carry only the width converts to an address with that width and `h_400` |
| Content.DimensionsOfParams | src/utils/content.ts:11-15 | both dimensions are read back from `originWidth=W&originHeight=H` |
| Content.ConvertFormatted | src/utils/content.ts:1-18 | a well-formed reference converts to the address built from its file id, its dimensions and its file name |
| Content.DocumentedExample | src/utils/content.ts:4 | the example written beside the function converts to `.../w_378,h_358/image%2011_edited.png` |
| FaqEditor.ByOrderTotal | src/components/FAQEditor.tsx:76 | the comparator `a.order - b.order` is a total preorder |
| FaqEditor.FilterViewIsOneFilter | src/components/FAQEditor.tsx:75-92 | the sort-then-filter chain equals one filter of the sorted data by the topic and search conditions together |
| FaqEditor.FilterViewSorted | src/components/FAQEditor.tsx:75-92 | the table is in non-decreasing `order` |
| FaqEditor.FilterViewMembers | src/components/FAQEditor.tsx:75-92 | a row is shown, as often as it is stored, exactly when it passes both conditions |
| FaqEditor.FilterViewUnfiltered | src/components/FAQEditor.tsx:75-92 | with "All Topics" and no search the table is the whole collection, sorted |
| FaqEditor.FilterViewMonotone | src/components/FAQEditor.tsx:75-92 | a topic or a search only ever removes rows |
| FaqEditor.TopicOptions | src/components/FAQEditor.tsx:57-67 | "All Topics" with id 0, then one option per distinct topic, ids counting up from 1 |
| FaqEditor.TopicOptionsSpec | src/components/FAQEditor.tsx:57-67 | the numbered options are exactly the stored topics |
| FaqEditor.TopicOptionsOrdered | src/components/FAQEditor.tsx:57-67 | each topic is offered once, in first-seen order |
| FaqEditor.FindById | src/components/FAQEditor.tsx:95 | `find` by id: none exactly when no option has the id; otherwise a listed option with that id |
| FaqEditor.TotalPages | src/components/FAQEditor.tsx:50 | `Math.ceil(n / 10)`: the fewest pages of ten that hold `n` rows |
| FaqEditor.PageWindow | src/components/FAQEditor.tsx:51-53 | page `p` shows rows (p-1)·10 up to p·10, cut at the end, at most ten |
| FaqEditor.PagesCoverView | src/components/FAQEditor.tsx:50-53 | pages 1 to `totalPages`, read in order, are exactly the table |
| FaqEditor.RangeLabelSpec | src/components/FAQEditor.tsx:294-295 | on an existing page the label gives the positions of its first and last row |
| FaqEditor.InitialValid | src/components/FAQEditor.tsx:34-48 | the initial cells keep the invariant: chips, sub-toolbar and selected topic agree |
| FaqEditor.LoadedSpec | src/components/FAQEditor.tsx:55-72 | a non-empty load rebuilds the options and shows every topic under the current search; an empty one changes only the data |
| FaqEditor.TopicSelectedSpec | src/components/FAQEditor.tsx:94-108 | an unknown id changes nothing; id 0 clears the chips; any other id gives one topic chip; the table is filtered by the new topic |
| FaqEditor.SearchedSpec | src/components/FAQEditor.tsx:110-114 | the query is stored lower-cased and filters under the selected topic, from page 1 |
| FaqEditor.SearchClearedSpec | src/components/FAQEditor.tsx:117-120 | clearing the search shows every row of the selected topic |
| FaqEditor.TagRemovedSpec | src/components/FAQEditor.tsx:122-127 | removing the chip selects "All Topics" and shows the raw collection in load order, with the search still in the box |
| FaqEditor.FiltersClearedSpec | src/components/FAQEditor.tsx:129-135 | clearing everything shows the whole collection sorted by `order`, from page 1 |
| FaqEditor.FiltersClearedIdempotent | src/components/FAQEditor.tsx:129-135 | clearing twice is clearing once |
| FaqEditor.PageChangedSpec | src/components/FAQEditor.tsx:138-147 | a page change sets the page and nothing else |
| FaqEditor.Editor.constructor | src/components/FAQEditor.tsx:34-48 | the cells start as the initial state |
| FaqEditor.Editor.ApplyFilters | src/components/FAQEditor.tsx:75-92 | `applyFilters` sets the table to the filtered view and the page to 1 |
| FaqEditor.Editor.Load | src/components/FAQEditor.tsx:55-72 | the data effect moves the cells as `Loaded` |
| FaqEditor.Editor.HandleTopicSelect | src/components/FAQEditor.tsx:94-108 | moves the cells as `TopicSelected` |
| FaqEditor.Editor.HandleSearch | src/components/FAQEditor.tsx:110-114 | moves the cells as `Searched` |
| FaqEditor.Editor.HandleClearSearch | src/components/FAQEditor.tsx:117-120 | moves the cells as `SearchCleared` |
| FaqEditor.Editor.RemoveTag | src/components/FAQEditor.tsx:122-127 | moves the cells as `TagRemoved` |
| FaqEditor.Editor.ClearAllFilters | src/components/FAQEditor.tsx:129-135 | moves the cells as `FiltersCleared` |
| FaqEditor.Editor.HandlePageChange | src/components/FAQEditor.tsx:138-147 | moves the cells as `PageChanged` |
| PackagesEditor.CompileFilters | src/components/PackagesEditor.tsx:119-137 | at most two chips |
| PackagesEditor.CompileFiltersSpec | src/components/PackagesEditor.tsx:119-137 | the type chip then the session chip, each present exactly when its facet is narrowed; none exactly when neither is |
| PackagesEditor.FilterBySelection | src/components/PackagesEditor.tsx:139-193 | a row is kept exactly when it matches every narrowed facet |
| PackagesEditor.SelectionViewIsFilter | src/components/PackagesEditor.tsx:139-193 | for listed options the `switch` filters `packagesData` by both facets of the new selection |
| PackagesEditor.ColumnKey | src/components/PackagesEditor.tsx:266-290 | columns 0 to 4 have a sort key, and no other column does |
| PackagesEditor.CompareByAntisymmetric | src/components/PackagesEditor.tsx:295-306 | swapping two rows negates the column comparison |
| PackagesEditor.CompareByTransitive | src/components/PackagesEditor.tsx:295-306 | the column comparison is transitive |
| PackagesEditor.ColumnOrderTotal | src/components/PackagesEditor.tsx:295-309 | every column comparator, ascending or negated for descending, is a total preorder |
| PackagesEditor.ColumnSortSpec | src/components/PackagesEditor.tsx:295-311 | the sorted rows are a permutation of the rows, ordered by the column in the chosen direction |
| PackagesEditor.IndexOf | src/components/PackagesEditor.tsx:66-69 | `indexOf`: -1 exactly when absent, otherwise the first position holding the value |
| PackagesEditor.DescriptionsSpec | src/components/PackagesEditor.tsx:59-72 | the descriptions are the rows with a listed id, each as often as stored, ordered by the id list |
| PackagesEditor.FindType | src/components/PackagesEditor.tsx:195-201 | the type option with the id, and none for an id outside 0 to 3 |
| PackagesEditor.FindSession | src/components/PackagesEditor.tsx:203-209 | the session option with the id, and none for an id outside 0 to 3 |
| PackagesEditor.InitialValid | src/components/PackagesEditor.tsx:109-117 | the initial cells keep the invariant: the chips describe the selection, and the sub-toolbar shows exactly when there are chips |
| PackagesEditor.LoadedSpec | src/components/PackagesEditor.tsx:59-72 | a load shows every stored row and keeps the invariant; nothing but the data, the rows and the descriptions changes |
| PackagesEditor.FilterSelectedSpec | src/components/PackagesEditor.tsx:139-193 | a facet selection changes only its own facet, rebuilds the chips, and shows the rows matching both facets in stored order |
| PackagesEditor.RemainingChips | src/components/PackagesEditor.tsx:211-251 | the chips left after a removal are the chips of the reset selection |
| PackagesEditor.TagRemovedSpec | src/components/PackagesEditor.tsx:211-251 | removing a chip resets only its facet and removes exactly the chips of that facet; the rows are the stored rows matching the remaining selection |
| PackagesEditor.AllClearedSpec | src/components/PackagesEditor.tsx:253-259 | clearing resets both facets and shows every row; clearing twice is clearing once |
| PackagesEditor.SortClickedSpec | src/components/PackagesEditor.tsx:266-312 | an unknown column changes nothing; otherwise the rows are reordered by that column, descending only right after an ascending sort of it |
| PackagesEditor.SortClickedToggles | src/components/PackagesEditor.tsx:283-292 | clicking the same column again flips the direction |
| PackagesEditor.Editor.constructor | src/components/PackagesEditor.tsx:48-117 | the cells start as the initial state |
| PackagesEditor.Editor.Load | src/components/PackagesEditor.tsx:59-72 | moves the cells as `Loaded` |
| PackagesEditor.Editor.CheckFiltersLength | src/components/PackagesEditor.tsx:261-263 | the sub-toolbar shows exactly when there are chips; nothing else changes |
| PackagesEditor.Editor.HandleFilterSelection | src/components/PackagesEditor.tsx:139-193 | moves the cells as `FilterSelected` |
| PackagesEditor.Editor.HandleTypeSelect | src/components/PackagesEditor.tsx:195-201 | moves the cells as `TypeSelected` |
| PackagesEditor.Editor.HandleSessionSelect | src/components/PackagesEditor.tsx:203-209 | moves the cells as `SessionSelected` |
| PackagesEditor.Editor.RemoveTag | src/components/PackagesEditor.tsx:211-251 | moves the cells as `TagRemoved` |
| PackagesEditor.Editor.ClearAll | src/components/PackagesEditor.tsx:253-259 | moves the cells as `AllCleared` |
| PackagesEditor.Editor.HandleSortClick | src/components/PackagesEditor.tsx:266-312 | moves the cells as `SortClicked` |
| TextContentEditor.Sections | src/components/TextContentEditor.tsx:66-68 | the section of each item, in order |
| TextContentEditor.InSectionCount | src/components/TextContentEditor.tsx:71 | the item count of a section is how often that section occurs |
| TextContentEditor.OptionsFrom | src/components/TextContentEditor.tsx:70-77 | one option per section, numbered consecutively, each with its item count |
| TextContentEditor.SumCountsFrom | src/components/TextContentEditor.tsx:70-77 | the counts of the options add up to the occurrences of their sections |
| TextContentEditor.SectionOptionsSpec | src/components/TextContentEditor.tsx:63-80 | one option per distinct section, numbered from 1, each counting its items; every section has an option |
| TextContentEditor.SectionOptionsOrdered | src/components/TextContentEditor.tsx:63-80 | the options follow the order in which each section first occurs |
| TextContentEditor.SectionCountsTotal | src/components/TextContentEditor.tsx:63-80 | the counts add up to the number of items |
| TextContentEditor.ImageDimensions | src/components/TextContentEditor.tsx:167-169 | (0, 0) for a missing or empty image |
| TextContentEditor.ReadDimensionSpec | src/components/TextContentEditor.tsx:170-176 | a dimension is 0 without a match, otherwise the digit run after the first match |
| TextContentEditor.ImageDimensionsOfParams | src/components/TextContentEditor.tsx:167-177 | the dimensions written into params are the ones read back |
| TextContentEditor.ImageDimensionsAgree | src/components/TextContentEditor.tsx:167-177 | where the image carries a dimension it is the one `convertWixImageUrl` uses; a missing one reads 0 here and 400 there |
| TextContentEditor.SetField | src/components/TextContentEditor.tsx:293-298 | an edit sets the named field, which is then present, and leaves every other field as it was |
| TextContentEditor.SetFieldOwnValue | src/components/TextContentEditor.tsx:293-298 | writing a present field's own value back changes nothing |
| TextContentEditor.ValidationAgrees | src/components/TextContentEditor.tsx:301-327 | without an original nothing is valid or flagged; no error on the required fields means valid; valid means no error on the header or button |
| TextContentEditor.LineBreakIsMarkupOnly | src/components/TextContentEditor.tsx:317-327 | a lone `<br>` strips to "" |
| TextContentEditor.LineBreakFlagged | src/components/TextContentEditor.tsx:317-327 | content that is a lone `<br>` is flagged when the original has content |
| TextContentEditor.LineBreakKept | src/components/TextContentEditor.tsx:301-315 | content that is a lone `<br>` passes the save check, which only trims |
| TextContentEditor.MarkupOnlyContentPasses | src/components/TextContentEditor.tsx:301-327 | markup-only content is flagged on the form, yet the form can be saved |
| TextContentEditor.ImageSaveSpec | src/components/TextContentEditor.tsx:226-278 | nothing is written unless the dialog saved; a non-empty new URL writes image and alt text together when either differs (`!==`, so a missing alt text differs from every text); without a URL only a changed alt text is written; when neither changed nothing is written; only the image and alt text change, and re-applying the same answer writes nothing more |
| TextContentEditor.MissingAltTextWritten | src/components/TextContentEditor.tsx:226-245 | an item stored without alt text, saved unchanged from the dialog (which answers ""), gets image and alt text written, after which the same answer writes nothing |
| TextContentEditor.SectionSelectedSpec | src/components/TextContentEditor.tsx:92-117 | a listed section shows exactly its items; one item is displayed directly, several show the first Standard one and the switch |
| TextContentEditor.ListedSectionCount | src/components/TextContentEditor.tsx:70-77 | a listed section counts its items and has at least one |
| TextContentEditor.CardClickedSpec | src/components/TextContentEditor.tsx:120-133 | the card list is the section's Card items by ascending `cardOrder`; the lowest card is displayed when there is one |
| TextContentEditor.StandardClickedSpec | src/components/TextContentEditor.tsx:135-145 | switching back shows the section's first Standard item, if any |
| TextContentEditor.ContentChangedSpec | src/components/TextContentEditor.tsx:293-298 | an edit changes only the named field; the original item changes only when the id is edited |
| TextContentEditor.RevertedSpec | src/components/TextContentEditor.tsx:285-290 | reverting shows the original again and bumps the editor key; without an original nothing happens |
| TextContentEditor.ImageSavedSpec | src/components/TextContentEditor.tsx:241-268 | an accepted image patch touches only the image and its alt text |
| TextContentEditor.Editor.constructor | src/components/TextContentEditor.tsx:37-80 | mounting: empty cells, then the data effect |
| TextContentEditor.Editor.Load | src/components/TextContentEditor.tsx:63-80 | moves the cells as `Loaded` |
| TextContentEditor.Editor.FillInputDisplay | src/components/TextContentEditor.tsx:152-165 | the display becomes the item's fields; nothing else changes |
| TextContentEditor.Editor.HandleSelectSection | src/components/TextContentEditor.tsx:92-117 | moves the cells as `SectionSelected` |
| TextContentEditor.Editor.HandleCardClicked | src/components/TextContentEditor.tsx:120-133 | moves the cells as `CardClicked` |
| TextContentEditor.Editor.HandleStandardClicked | src/components/TextContentEditor.tsx:135-145 | moves the cells as `StandardClicked` |
| TextContentEditor.Editor.HandleDisplayCard | src/components/TextContentEditor.tsx:148-150 | moves the cells as `CardDisplayed` |
| TextContentEditor.Editor.HandleContentChange | src/components/TextContentEditor.tsx:293-298 | moves the cells as `ContentChanged` |
| TextContentEditor.Editor.HandleRevertContent | src/components/TextContentEditor.tsx:285-290 | moves the cells as `Reverted` |
| TextContentEditor.Editor.SaveImage | src/components/TextContentEditor.tsx:226-278 | returns the patch the decision chooses; the cells change only when the store accepted it |
| LegalEditor.SectionOptions | src/components/LegalEditor.tsx:50-63 | one option per distinct section, named by the section itself |
| LegalEditor.SectionOptionsSpec | src/components/LegalEditor.tsx:50-63 | the options are exactly the stored sections, each once, in first-seen order |
| LegalEditor.SetField | src/components/LegalEditor.tsx:119-124 | an edit sets the named field and leaves the others |
| LegalEditor.ValidationAgrees | src/components/LegalEditor.tsx:142-163 | without an original nothing is valid or flagged; no error on header and content means valid; valid means no error on the header |
| LegalEditor.OriginalIsValid | src/components/LegalEditor.tsx:142-151 | the original item, shown unedited, passes validation unless one of its own fields is whitespace only |
| LegalEditor.SectionName | src/components/LegalEditor.tsx:74-80 | radio 1 and 2 name a section, and no other id does |
| LegalEditor.SectionSelectedSpec | src/components/LegalEditor.tsx:66-89 | the radio moves; radio 1 shows the first Impressum item and radio 2 the first Privacy Policy item, bumping the key; without such an item only the radio moves |
| LegalEditor.SelectThenRevert | src/components/LegalEditor.tsx:72-116 | with unique ids, reverting right after choosing a text leaves the form unchanged |
| LegalEditor.SectionClearedSpec | src/components/LegalEditor.tsx:101-109 | clearing empties all five fields and nothing else; clearing twice is clearing once |
| LegalEditor.ContentChangedSpec | src/components/LegalEditor.tsx:119-124 | an edit changes only the named field; the original changes only when the id is edited |
| LegalEditor.RevertedSpec | src/components/LegalEditor.tsx:111-116 | reverting restores the original's fields and bumps the key; without an original nothing happens |
| LegalEditor.Editor.constructor | src/components/LegalEditor.tsx:36-63 | mounting: empty cells, then the data effect |
| LegalEditor.Editor.Load | src/components/LegalEditor.tsx:50-63 | moves the cells as `Loaded` |
| LegalEditor.Editor.FillInputDisplay | src/components/LegalEditor.tsx:91-99 | the display becomes the item's fields |
| LegalEditor.Editor.HandleSelectSection | src/components/LegalEditor.tsx:72-89 | moves the cells as `SectionSelected` |
| LegalEditor.Editor.HandleRadioSelect | src/components/LegalEditor.tsx:66-70 | marks the radio, then selects its section |
| LegalEditor.Editor.HandleClearSection | src/components/LegalEditor.tsx:101-109 | moves the cells as `SectionCleared` |
| LegalEditor.Editor.HandleContentChange | src/components/LegalEditor.tsx:119-124 | moves the cells as `ContentChanged` |
| LegalEditor.Editor.HandleRevertContent | src/components/LegalEditor.tsx:111-116 | moves the cells as `Reverted` |
| EditPricingModal.SessionCountSpec | src/dashboard/modals/edit-pricing/modal.tsx:166-177 | a count edit sets the count (0 when empty), renames the package after it and recomputes the total; everything else is kept |
| EditPricingModal.SessionPriceSpec | src/dashboard/modals/edit-pricing/modal.tsx:195-205 | a price edit sets the price and recomputes the total; an empty value changes nothing |
| EditPricingModal.ValiditySpec | src/dashboard/modals/edit-pricing/modal.tsx:213-222 | a validity edit changes only the validity (0 when empty) |
| EditPricingModal.EditsPreserveConsistency | src/dashboard/modals/edit-pricing/modal.tsx:147-222 | every edit keeps total = count × price and the name consistent |
| EditPricingModal.CountAndPriceCommute | src/dashboard/modals/edit-pricing/modal.tsx:166-205 | editing the count then the price gives the same record as the other way round |
| EditPricingModal.ConfirmSaveSpec | src/dashboard/modals/edit-pricing/modal.tsx:71-103 | without an id nothing happens; otherwise saving is flagged during the write and cleared after, and the dialog closes as saved only when the write succeeded |
| EditPricingModal.ConfirmationToggleSpec | src/dashboard/modals/edit-pricing/modal.tsx:67-69 | save only opens the confirmation and cancel only closes it |
| EditPricingModal.Modal.constructor | src/dashboard/modals/edit-pricing/modal.tsx:19-23 | the cells start empty |
| EditPricingModal.Modal.OnObservedState | src/dashboard/modals/edit-pricing/modal.tsx:25-64 | an empty id is ignored; otherwise the id and the fetched package are stored |
| EditPricingModal.Modal.OnSessionCountChange | src/dashboard/modals/edit-pricing/modal.tsx:166-177 | applies the count updater to the record |
| EditPricingModal.Modal.OnSessionPriceChange | src/dashboard/modals/edit-pricing/modal.tsx:195-205 | applies the price updater to the record |
| EditPricingModal.Modal.OnValidityChange | src/dashboard/modals/edit-pricing/modal.tsx:213-222 | applies the validity updater to the record |
| EditPricingModal.Modal.OnTypeChange | src/dashboard/modals/edit-pricing/modal.tsx:147-156 | applies the type updater to the record |
| EditPricingModal.Modal.HandleClickSave | src/dashboard/modals/edit-pricing/modal.tsx:67-69 | opens the confirmation |
| EditPricingModal.Modal.HandleCancelSave | src/dashboard/modals/edit-pricing/modal.tsx:105-107 | closes the confirmation |
| EditPricingModal.Modal.BeginConfirmSave | src/dashboard/modals/edit-pricing/modal.tsx:71-80 | returns the record to write exactly when there is an id |
| EditPricingModal.Modal.FinishConfirmSave | src/dashboard/modals/edit-pricing/modal.tsx:80-103 | closes as saved after a successful write; always clears the saving flag |
| AddFaqModal.MaxOrder | src/dashboard/modals/add-faq/modal.tsx:77-79 | the greatest order (a missing one counting 0), attained by some item; 0 for no items |
| AddFaqModal.NextOrderSpec | src/dashboard/modals/add-faq/modal.tsx:77-86 | the new order is above every stored one, 1 for an empty collection, and one more than some stored order |
| AddFaqModal.GreatestSortsLast | src/components/FAQEditor.tsx:76 | an item whose order is above all others is sorted last |
| AddFaqModal.NewItemListedLast | src/dashboard/modals/add-faq/modal.tsx:77-88 | once inserted, the new item is the last row of the unfiltered FAQ table |
| AddFaqModal.TopicValue | src/dashboard/modals/add-faq/modal.tsx:81 | a topic name is found exactly for a chosen id from 1 to 4 |
| AddFaqModal.TopicValueSpec | src/dashboard/modals/add-faq/modal.tsx:34-39 | the stored topic is the name of the option whose id was chosen |
| AddFaqModal.NewItemSpec | src/dashboard/modals/add-faq/modal.tsx:71-88 | the inserted question is trimmed and non-empty for a valid form; the answer is kept; the topic is the chosen name; the order is above every stored one |
| AddFaqModal.SaveClickedSpec | src/dashboard/modals/add-faq/modal.tsx:60-69 | save opens the confirmation exactly for a valid form, and otherwise changes nothing |
| AddFaqModal.ConfirmSaveSpec | src/dashboard/modals/add-faq/modal.tsx:71-106 | saving is flagged during the insert and cleared after; the dialog closes as saved only after a stored insert |
| AddFaqModal.Modal.constructor | src/dashboard/modals/add-faq/modal.tsx:26-32 | the cells start empty and the invariant holds |
| AddFaqModal.Modal.HandleQuestionChange | src/dashboard/modals/add-faq/modal.tsx:42-44 | sets the question |
| AddFaqModal.Modal.HandleAnswerChange | src/dashboard/modals/add-faq/modal.tsx:46-48 | sets the answer |
| AddFaqModal.Modal.HandleTopicChange | src/dashboard/modals/add-faq/modal.tsx:50-52 | sets the chosen topic id |
| AddFaqModal.Modal.IsFormValidNow | src/dashboard/modals/add-faq/modal.tsx:55-57 | true exactly for a non-blank question and answer with a topic chosen |
| AddFaqModal.Modal.HandleClickSave | src/dashboard/modals/add-faq/modal.tsx:60-69 | shows the error exactly for an invalid form; moves the cells as `SaveClicked` |
| AddFaqModal.Modal.HandleCancelSave | src/dashboard/modals/add-faq/modal.tsx:108-110 | closes the confirmation |
| AddFaqModal.Modal.BeginConfirmSave | src/dashboard/modals/add-faq/modal.tsx:71-88 | flags saving and returns the record to insert |
| AddFaqModal.Modal.FinishConfirmSave | src/dashboard/modals/add-faq/modal.tsx:89-106 | closes as saved after a stored insert; always clears the saving flag |

## Left out

- Store, dashboard and platform calls are not modelled. This covers `items.query/find/patch/insert`, `dashboard.openModal`, `openMediaManager`, `showToast`, `closeModal` and `observeState`. Their answers enter as parameters: the fetched package, the stored orders, the image dialog's answer, and whether a write succeeded. Rendering, styling and the topic colours are left out too.
- The handlers `handleEdit`, `handleAdd` and `handleDelete` are left out. They only open a modal and call `onDataChange()` when it closes with `saved`.
- `handleEditDescription` (src/components/PackagesEditor.tsx:80-91) is left out for the same reason. Unlike the others, it evaluates `await onDataChange` without calling it, so a saved description does not reload the list.
- `handleSaveClick` and `patch()` of the text and legal editors are left out, because they only write through the store.
- The media-manager loop in `handleUpdateImage` is left out because it is I/O. What the store is asked to write is modelled as `ImageSaveDecision`.
- The `imageDimensions` cell of the page-text editor is left out because it is set from `getImageDimensions` but never read. `getImageDimensions` itself is modelled.
- Strings.CompareStrings: `localeCompare` is modelled as code-point order. Locale collation is not modelled.
- Strings.Trim: only ASCII whitespace counts. Unicode spaces are not trimmed.
- Strings.ToLower: only ASCII letters are lower-cased.
- Prices, quantities and validity are integers. `Number()` of a fractional or non-numeric input, and floating-point products, are not modelled. An empty input is taken as 0.
- The `/key(\d+)/` regex is modelled as the first place where `key` is directly followed by a digit, which is what the regex engine finds. The unanchored media-reference regex is modelled as a leftmost search over start positions.
- PackagesEditor.CompareBy: every package is taken to carry each column's value with its declared type. Strings compare by `localeCompare`, numbers by difference. The store's records are copied untyped, so a field can be missing. The comparator then answers 0 for that pair, because neither type test holds (src/components/PackagesEditor.tsx:299-307). That is not a total preorder in general, so the column-sort lemmas do not cover such rows.
- FaqEditor.FaqItem: every stored FAQ is taken to carry a numeric `order`. In the source a missing one makes `a.order - b.order` NaN (src/components/FAQEditor.tsx:76), and the resulting order is up to the JavaScript engine. So FilterViewSorted, FiltersClearedSpec and AddFaqModal.NewItemListedLast hold only when every item has an order. The add-FAQ dialog's `order || 0` is modelled in AddFaqModal.MaxOrder, but AddFaqModal.OrdersOf always supplies an order.
- TextContentEditor.CardClicked: every card is taken to carry a numeric `cardOrder`. With a missing one the comparator `a.cardOrder - b.cardOrder` is NaN and the card order is up to the engine, so the ordering clause of CardClickedSpec does not cover that case.
- FaqEditor.TagRemoved requires the topic options to be non-empty, because `topicOptions[0]` is undefined otherwise. This can only happen before the first load, when no chip can be shown.
- FaqEditor.TagRemovedSpec: stated only while the chip is shown, because the chip's close button, and so `removeTag`, exists only then.
- Concurrency is not modelled: React batching, stale closures and interleaved async handlers. Each handler is a single step that reads the cells as they were when it started.
