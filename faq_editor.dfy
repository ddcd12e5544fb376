/**
 * The questions-and-answers editor (src/components/FAQEditor.tsx): a table
 * of FAQ items sorted by `order`, narrowed by a topic drop-down and a
 * search box, shown ten rows per page.
 *
 * The view derivation, the topic options and the pagination are pure
 * functions; the handlers are transitions of `State`, whose fields are the
 * component's state cells, and `Editor` is the component itself, a class
 * whose fields are those cells and whose methods are the handlers.
 */
module FaqEditor {
  import opened Collections
  import opened Strings

  datatype FaqItem = FaqItem(
    id: string, question: string, answer: string, topic: string,
    order: int, language: string, title: string)

  datatype TopicOption = TopicOption(id: nat, value: string)

  /** A chip of the filter tag list. */
  datatype FilterTag = FilterTag(id: string, children: string)

  const AllTopics: string := "All Topics"
  const ItemsPerPage: nat := 10

  // ---------------------------------------------------------------------
  // applyFilters: copy, sort by order, filter by topic, filter by search
  // ---------------------------------------------------------------------

  /** The comparator `(a, b) => a.order - b.order`. */
  function ByOrder(a: FaqItem, b: FaqItem): int
  {
    a.order - b.order
  }

  lemma ByOrderTotal()
    ensures TotalPreorder(ByOrder)
  {
  }

  /** The search condition: the question or the markup-free answer, lower-cased, contains it. */
  predicate MatchesSearch(item: FaqItem, search: string)
  {
    Contains(ToLower(item.question), search) || Contains(ToLower(StripHtml(item.answer)), search)
  }

  /** An item is shown when it passes both the topic and the search condition. */
  predicate Survives(item: FaqItem, topic: string, search: string)
  {
    (topic == AllTopics || item.topic == topic) && (search == [] || MatchesSearch(item, search))
  }

  /** `applyFilters(topic, search)`: the rows it puts in the table. */
  function FilterView(data: seq<FaqItem>, topic: string, search: string): (r: seq<FaqItem>)
    ensures |r| <= |data|
  {
    var sorted := Sort(data, ByOrder);
    var byTopic := if topic != AllTopics then Filter(sorted, (item: FaqItem) => item.topic == topic) else sorted;
    if search != [] then Filter(byTopic, (item: FaqItem) => MatchesSearch(item, search)) else byTopic
  }

  /** The filter chain equals one filter of the sorted data by both conditions together. */
  lemma FilterViewIsOneFilter(data: seq<FaqItem>, topic: string, search: string)
    ensures FilterView(data, topic, search) == Filter(Sort(data, ByOrder), (x: FaqItem) => Survives(x, topic, search))
  {
    var sorted := Sort(data, ByOrder);
    var both := (x: FaqItem) => Survives(x, topic, search);
    if topic != AllTopics && search != [] {
      FilterCompose(sorted, (item: FaqItem) => item.topic == topic, (item: FaqItem) => MatchesSearch(item, search), both);
    } else if topic != AllTopics {
      FilterCongruent(sorted, (item: FaqItem) => item.topic == topic, both);
    } else if search != [] {
      FilterCongruent(sorted, (item: FaqItem) => MatchesSearch(item, search), both);
    } else {
      FilterAll(sorted, both);
    }
  }

  /** The view is in non-decreasing `order`. */
  lemma FilterViewSorted(data: seq<FaqItem>, topic: string, search: string)
    ensures var r := FilterView(data, topic, search);
      forall i, j :: 0 <= i < j < |r| ==> r[i].order <= r[j].order
  {
    ByOrderTotal();
    SortSorted(data, ByOrder);
    FilterViewIsOneFilter(data, topic, search);
    FilterSorted(Sort(data, ByOrder), (x: FaqItem) => Survives(x, topic, search), ByOrder);
    var r := FilterView(data, topic, search);
    forall i, j | 0 <= i < j < |r| ensures r[i].order <= r[j].order {
      assert ByOrder(r[i], r[j]) <= 0;
    }
  }

  /** An item is kept, as often as it occurs in the data, exactly when it survives both filters. */
  lemma FilterViewMembers(data: seq<FaqItem>, topic: string, search: string, x: FaqItem)
    ensures x in FilterView(data, topic, search) <==> x in data && Survives(x, topic, search)
    ensures multiset(FilterView(data, topic, search))[x] == if Survives(x, topic, search) then multiset(data)[x] else 0
  {
    FilterViewIsOneFilter(data, topic, search);
    FilterCount(Sort(data, ByOrder), (y: FaqItem) => Survives(y, topic, search), x);
    assert x in data <==> x in multiset(data);
    assert x in Sort(data, ByOrder) <==> x in multiset(Sort(data, ByOrder));
  }

  /** With "All Topics" and no search the view is the whole collection, reordered. */
  lemma FilterViewUnfiltered(data: seq<FaqItem>)
    ensures FilterView(data, AllTopics, "") == Sort(data, ByOrder)
    ensures multiset(FilterView(data, AllTopics, "")) == multiset(data)
  {
    assert FilterView(data, AllTopics, "") == Sort(data, ByOrder);
  }

  /** A topic or a search only ever removes rows from the view without either. */
  lemma FilterViewMonotone(data: seq<FaqItem>, topic: string, search: string)
    ensures IsSubsequence(FilterView(data, topic, search), FilterView(data, AllTopics, search))
    ensures IsSubsequence(FilterView(data, topic, search), FilterView(data, topic, ""))
  {
    var sorted := Sort(data, ByOrder);
    var byTopic := (item: FaqItem) => item.topic == topic;
    var bySearch := (item: FaqItem) => MatchesSearch(item, search);
    var t := if topic != AllTopics then Filter(sorted, byTopic) else sorted;
    if topic != AllTopics {
      FilterIsSubsequence(sorted, byTopic);
    } else {
      SubsequenceRefl(sorted);
    }
    if search != [] {
      FilterMonotone(t, sorted, bySearch);
      FilterIsSubsequence(t, bySearch);
    } else {
      SubsequenceRefl(t);
    }
  }

  // ---------------------------------------------------------------------
  // Topic options and the option lookup
  // ---------------------------------------------------------------------

  function Topics(data: seq<FaqItem>): (t: seq<string>)
    ensures |t| == |data| && forall k :: 0 <= k < |data| ==> t[k] == data[k].topic
  {
    seq(|data|, k requires 0 <= k < |data| => data[k].topic)
  }

  /** `{0, "All Topics"}` followed by the distinct topics, numbered from 1. */
  function TopicOptions(data: seq<FaqItem>): (r: seq<TopicOption>)
    ensures |r| == |Distinct(Topics(data))| + 1
    ensures r[0] == TopicOption(0, AllTopics)
    ensures forall i :: 0 <= i < |r| ==> r[i].id == i
  {
    var d := Distinct(Topics(data));
    [TopicOption(0, AllTopics)] + seq(|d|, i requires 0 <= i < |d| => TopicOption(i + 1, d[i]))
  }

  /** The numbered options are the distinct topics, in order. */
  lemma TopicOptionsValues(data: seq<FaqItem>)
    ensures var r := TopicOptions(data); var d := Distinct(Topics(data));
      forall i :: 1 <= i < |r| ==> r[i].value == d[i - 1]
  {
  }

  /** The numbered options are exactly the topics of the data. */
  lemma TopicOptionsSpec(data: seq<FaqItem>)
    ensures var r := TopicOptions(data);
      forall i :: 1 <= i < |r| ==> r[i].value in Topics(data)
    ensures var r := TopicOptions(data);
      forall k :: 0 <= k < |data| ==> exists i :: 1 <= i < |r| && r[i].value == data[k].topic
  {
    var r := TopicOptions(data);
    var t := Topics(data);
    var d := Distinct(t);
    TopicOptionsValues(data);
    forall i | 1 <= i < |r| ensures r[i].value in t {
      assert d[i - 1] in d;
    }
    forall k | 0 <= k < |data| ensures exists i :: 1 <= i < |r| && r[i].value == data[k].topic {
      assert t[k] in d;
      var m :| 0 <= m < |d| && d[m] == t[k];
      assert r[m + 1].value == data[k].topic;
    }
  }

  /** Each topic is offered once, in the order in which it first occurs in the data. */
  lemma TopicOptionsOrdered(data: seq<FaqItem>)
    ensures var r := TopicOptions(data);
      forall i, j :: 1 <= i < j < |r| ==> r[i].value != r[j].value
    ensures var r := TopicOptions(data); var t := Topics(data);
      forall i, j :: 1 <= i < j < |r| ==> r[i].value in t && r[j].value in t && FirstIndex(t, r[i].value) < FirstIndex(t, r[j].value)
  {
    var r := TopicOptions(data);
    var t := Topics(data);
    TopicOptionsValues(data);
    forall i, j | 1 <= i < j < |r|
      ensures r[i].value in t && r[j].value in t && FirstIndex(t, r[i].value) < FirstIndex(t, r[j].value)
    {
      DistinctFirstSeen(t, i - 1, j - 1);
    }
  }

  /** `topicOptions.find(topic => topic.id === id)`. */
  function FindById(options: seq<TopicOption>, id: int): (r: Option<TopicOption>)
    ensures r.None? <==> forall o :: o in options ==> o.id != id
    ensures r.Some? ==> r.value in options && r.value.id == id
  {
    if options == [] then None
    else if options[0].id == id then Some(options[0])
    else FindById(options[1..], id)
  }

  // ---------------------------------------------------------------------
  // Pagination
  // ---------------------------------------------------------------------

  function Min(a: int, b: int): int
  {
    if a < b then a else b
  }

  /** `Math.ceil(n / itemsPerPage)`: the fewest pages of ten that hold `n` rows. */
  function TotalPages(n: nat): (t: nat)
    ensures t * ItemsPerPage >= n
    ensures t > 0 ==> (t - 1) * ItemsPerPage < n
  {
    (n + ItemsPerPage - 1) / ItemsPerPage
  }

  function StartIndex(page: int): int
  {
    (page - 1) * ItemsPerPage
  }

  /** `sortedFAQData.slice(startIndex, endIndex)`. */
  function PageItems(view: seq<FaqItem>, page: int): seq<FaqItem>
  {
    JsSlice(view, StartIndex(page), StartIndex(page) + ItemsPerPage)
  }

  /** Page `p` shows the rows from (p-1)·10 up to p·10, cut at the end of the view. */
  lemma PageWindow(view: seq<FaqItem>, page: int)
    requires page >= 1
    ensures var lo := Min((page - 1) * ItemsPerPage, |view|);
      var hi := Min(page * ItemsPerPage, |view|);
      lo <= hi && PageItems(view, page) == view[lo..hi]
    ensures |PageItems(view, page)| <= ItemsPerPage
  {
  }

  /** The rows of pages 1 to k, one page after another. */
  function PagesUpTo(view: seq<FaqItem>, k: nat): seq<FaqItem>
  {
    if k == 0 then [] else PagesUpTo(view, k - 1) + PageItems(view, k)
  }

  lemma {:induction false} PagesUpToPrefix(view: seq<FaqItem>, k: nat)
    ensures PagesUpTo(view, k) == view[..Min(k * ItemsPerPage, |view|)]
  {
    if k > 0 {
      PagesUpToPrefix(view, k - 1);
      PageWindow(view, k);
      var a := Min((k - 1) * ItemsPerPage, |view|);
      var b := Min(k * ItemsPerPage, |view|);
      assert view[..a] + view[a..b] == view[..b];
    }
  }

  /** Pages 1 to totalPages, read in order, are exactly the view. */
  lemma PagesCoverView(view: seq<FaqItem>)
    ensures PagesUpTo(view, TotalPages(|view|)) == view
  {
    PagesUpToPrefix(view, TotalPages(|view|));
  }

  /** The "start+1 - min(end, n)" label above the table. */
  function RangeLabel(view: seq<FaqItem>, page: int): (int, int)
  {
    (StartIndex(page) + 1, Min(StartIndex(page) + ItemsPerPage, |view|))
  }

  /** On an existing page the label gives the positions (from 1) of its first and last row. */
  lemma RangeLabelSpec(view: seq<FaqItem>, page: int)
    requires 1 <= page <= TotalPages(|view|)
    ensures var (first, last) := RangeLabel(view, page); var rows := PageItems(view, page);
      1 <= first <= last <= |view| && |rows| == last - first + 1
      && rows[0] == view[first - 1] && rows[|rows| - 1] == view[last - 1]
  {
    PageWindow(view, page);
  }

  // ---------------------------------------------------------------------
  // The component's state and its handlers as transitions
  // ---------------------------------------------------------------------

  /** The `faqData` prop and the state cells. */
  datatype State = State(
    faqData: seq<FaqItem>,
    sortedFaqData: seq<FaqItem>,
    subtoolbarVisible: bool,
    filter: seq<FilterTag>,
    topicOptions: seq<TopicOption>,
    selectedTopic: TopicOption,
    searchQuery: string,
    currentPage: int)

  /** The state before the first data effect runs. */
  function Initial(faqData: seq<FaqItem>): State
  {
    State(faqData, [], false, [], [], TopicOption(0, AllTopics), "", 1)
  }

  /** `applyFilters(topic, search)` as a state change: the view and page 1. */
  function Filtered(s: State, topic: string, search: string): State
  {
    s.(sortedFaqData := FilterView(s.faqData, topic, search), currentPage := 1)
  }

  /** The effect on `[faqData]`: options and view are rebuilt only for a non-empty collection. */
  function Loaded(s: State, data: seq<FaqItem>): State
  {
    var s' := s.(faqData := data);
    if |data| > 0 then Filtered(s'.(topicOptions := TopicOptions(data)), AllTopics, s.searchQuery)
    else s'
  }

  function TopicSelected(s: State, id: int): State
  {
    match FindById(s.topicOptions, id)
    case None => s
    case Some(selected) =>
      var s' := Filtered(s.(selectedTopic := selected), selected.value, s.searchQuery);
      if selected.id == 0 then s'.(filter := [], subtoolbarVisible := false)
      else s'.(filter := [FilterTag("topic", selected.value)], subtoolbarVisible := true)
  }

  function Searched(s: State, input: string): State
  {
    var query := ToLower(input);
    Filtered(s.(searchQuery := query), s.selectedTopic.value, query)
  }

  function SearchCleared(s: State): State
  {
    Filtered(s.(searchQuery := ""), s.selectedTopic.value, "")
  }

  /** `removeTag`: the raw collection, the first option, no chip; the page is kept. */
  function TagRemoved(s: State): State
    requires |s.topicOptions| > 0
  {
    s.(filter := [], sortedFaqData := s.faqData, selectedTopic := s.topicOptions[0], subtoolbarVisible := false)
  }

  function FiltersCleared(s: State): State
  {
    Filtered(s.(searchQuery := "", selectedTopic := TopicOption(0, AllTopics), filter := [], subtoolbarVisible := false),
      AllTopics, "")
  }

  function PageChanged(s: State, page: int): State
  {
    s.(currentPage := page)
  }

  /** The chips, the sub-toolbar and the selected topic agree. */
  predicate ChipsMatchSelection(s: State)
  {
    if s.selectedTopic.id == 0 then s.filter == [] && !s.subtoolbarVisible
    else s.filter == [FilterTag("topic", s.selectedTopic.value)] && s.subtoolbarVisible
  }

  /** What every reachable state satisfies. */
  predicate Valid(s: State)
  {
    && (|s.topicOptions| == 0 || s.topicOptions[0] == TopicOption(0, AllTopics))
    && (s.subtoolbarVisible ==> |s.topicOptions| > 0)
    && ChipsMatchSelection(s)
  }

  lemma InitialValid(data: seq<FaqItem>)
    ensures Valid(Initial(data))
  {
  }

  /** A non-empty load rebuilds the options and shows every topic; an empty one keeps the view. */
  lemma LoadedSpec(s: State, data: seq<FaqItem>)
    requires Valid(s)
    ensures Valid(Loaded(s, data))
    ensures var t := Loaded(s, data);
      t.faqData == data && t.selectedTopic == s.selectedTopic && t.filter == s.filter && t.searchQuery == s.searchQuery
    ensures |data| > 0 ==> var t := Loaded(s, data);
      t.topicOptions == TopicOptions(data) && t.currentPage == 1
      && forall x :: x in t.sortedFaqData <==> x in data && (s.searchQuery == [] || MatchesSearch(x, s.searchQuery))
    ensures |data| == 0 ==> Loaded(s, data) == s.(faqData := data)
  {
    if |data| > 0 {
      forall x ensures x in Loaded(s, data).sortedFaqData <==> x in data && (s.searchQuery == [] || MatchesSearch(x, s.searchQuery)) {
        FilterViewMembers(data, AllTopics, s.searchQuery, x);
      }
    }
  }

  /** An unknown id changes nothing; id 0 clears the chips; any other id gives exactly one chip. */
  lemma TopicSelectedSpec(s: State, id: int)
    requires Valid(s)
    ensures Valid(TopicSelected(s, id))
    ensures (forall o :: o in s.topicOptions ==> o.id != id) ==> TopicSelected(s, id) == s
    ensures (exists o :: o in s.topicOptions && o.id == id) ==> var t := TopicSelected(s, id);
      t.selectedTopic in s.topicOptions && t.selectedTopic.id == id && t.currentPage == 1
      && t.searchQuery == s.searchQuery && t.topicOptions == s.topicOptions
      && (id == 0 ==> t.filter == [] && !t.subtoolbarVisible)
      && (id != 0 ==> t.filter == [FilterTag("topic", t.selectedTopic.value)] && t.subtoolbarVisible)
      && forall x :: x in t.sortedFaqData <==> x in s.faqData && Survives(x, t.selectedTopic.value, s.searchQuery)
  {
    var r := FindById(s.topicOptions, id);
    if r.Some? {
      var t := TopicSelected(s, id);
      forall x ensures x in t.sortedFaqData <==> x in s.faqData && Survives(x, t.selectedTopic.value, s.searchQuery) {
        FilterViewMembers(s.faqData, r.value.value, s.searchQuery, x);
      }
    }
  }

  /** The query is stored lower-cased and filters the view under the selected topic. */
  lemma SearchedSpec(s: State, input: string)
    requires Valid(s)
    ensures Valid(Searched(s, input))
    ensures var t := Searched(s, input);
      t.searchQuery == ToLower(input) && t.selectedTopic == s.selectedTopic && t.filter == s.filter
      && t.currentPage == 1
      && forall x :: x in t.sortedFaqData <==> x in s.faqData && Survives(x, s.selectedTopic.value, ToLower(input))
  {
    forall x ensures x in Searched(s, input).sortedFaqData <==> x in s.faqData && Survives(x, s.selectedTopic.value, ToLower(input)) {
      FilterViewMembers(s.faqData, s.selectedTopic.value, ToLower(input), x);
    }
  }

  /** Clearing the search shows every item of the selected topic. */
  lemma SearchClearedSpec(s: State)
    requires Valid(s)
    ensures Valid(SearchCleared(s))
    ensures var t := SearchCleared(s);
      t.searchQuery == "" && t.selectedTopic == s.selectedTopic && t.currentPage == 1
      && forall x :: x in t.sortedFaqData <==> x in s.faqData && (s.selectedTopic.value == AllTopics || x.topic == s.selectedTopic.value)
  {
    forall x ensures x in SearchCleared(s).sortedFaqData <==> x in s.faqData && (s.selectedTopic.value == AllTopics || x.topic == s.selectedTopic.value) {
      FilterViewMembers(s.faqData, s.selectedTopic.value, "", x);
    }
  }

  /**
   * Removing the chip selects "All Topics" and shows the raw collection in
   * load order: neither sorted by `order` nor narrowed by the search query,
   * which stays in the search box.
   */
  lemma TagRemovedSpec(s: State)
    requires Valid(s) && s.subtoolbarVisible
    ensures Valid(TagRemoved(s))
    ensures var t := TagRemoved(s);
      t.selectedTopic == TopicOption(0, AllTopics) && t.filter == [] && !t.subtoolbarVisible
      && t.sortedFaqData == s.faqData && t.searchQuery == s.searchQuery
    ensures multiset(TagRemoved(s).sortedFaqData) == multiset(FiltersCleared(s).sortedFaqData)
  {
    FilterViewUnfiltered(s.faqData);
  }

  /** Clearing everything shows the whole collection sorted by `order`, from page 1. */
  lemma FiltersClearedSpec(s: State)
    requires Valid(s)
    ensures Valid(FiltersCleared(s))
    ensures var t := FiltersCleared(s);
      t.searchQuery == "" && t.selectedTopic == TopicOption(0, AllTopics) && t.filter == []
      && !t.subtoolbarVisible && t.currentPage == 1
      && multiset(t.sortedFaqData) == multiset(s.faqData)
      && forall i, j :: 0 <= i < j < |t.sortedFaqData| ==> t.sortedFaqData[i].order <= t.sortedFaqData[j].order
  {
    var r := FilterView(s.faqData, AllTopics, "");
    assert FiltersCleared(s).sortedFaqData == r;
    FilterViewUnfiltered(s.faqData);
    FilterViewSorted(s.faqData, AllTopics, "");
    assert forall i, j :: 0 <= i < j < |r| ==> r[i].order <= r[j].order;
  }

  lemma FiltersClearedIdempotent(s: State)
    ensures FiltersCleared(FiltersCleared(s)) == FiltersCleared(s)
  {
  }

  lemma PageChangedSpec(s: State, page: int)
    requires Valid(s)
    ensures Valid(PageChanged(s, page))
    ensures PageChanged(s, page).currentPage == page
    ensures PageChanged(s, page).(currentPage := s.currentPage) == s
  {
  }

  // ---------------------------------------------------------------------
  // The component
  // ---------------------------------------------------------------------

  class Editor {
    var faqData: seq<FaqItem>
    var sortedFaqData: seq<FaqItem>
    var subtoolbarVisible: bool
    var filter: seq<FilterTag>
    var topicOptions: seq<TopicOption>
    var selectedTopic: TopicOption
    var searchQuery: string
    var currentPage: int

    function Cells(): State
      reads this
    {
      State(faqData, sortedFaqData, subtoolbarVisible, filter, topicOptions, selectedTopic, searchQuery, currentPage)
    }

    constructor (data: seq<FaqItem>)
      ensures Cells() == Initial(data)
    {
      faqData := data;
      sortedFaqData := [];
      subtoolbarVisible := false;
      filter := [];
      topicOptions := [];
      selectedTopic := TopicOption(0, AllTopics);
      searchQuery := "";
      currentPage := 1;
    }

    method ApplyFilters(topic: string, search: string)
      modifies this
      ensures Cells() == Filtered(old(Cells()), topic, search)
    {
      sortedFaqData := FilterView(faqData, topic, search);
      currentPage := 1;
    }

    /** The data effect, run with the new `faqData` prop. */
    method Load(data: seq<FaqItem>)
      modifies this
      ensures Cells() == Loaded(old(Cells()), data)
    {
      ghost var before := Cells();
      faqData := data;
      if |data| > 0 {
        topicOptions := TopicOptions(data);
        assert Cells() == before.(faqData := data, topicOptions := TopicOptions(data));
        ApplyFilters(AllTopics, searchQuery);
      }
    }

    method HandleTopicSelect(id: int)
      modifies this
      ensures Cells() == TopicSelected(old(Cells()), id)
    {
      var found := FindById(topicOptions, id);
      if found.Some? {
        var selected := found.value;
        selectedTopic := selected;
        ApplyFilters(selected.value, searchQuery);
        if selected.id == 0 {
          filter := [];
          subtoolbarVisible := false;
        } else {
          filter := [FilterTag("topic", selected.value)];
          subtoolbarVisible := true;
        }
      }
    }

    method HandleSearch(input: string)
      modifies this
      ensures Cells() == Searched(old(Cells()), input)
    {
      var query := ToLower(input);
      searchQuery := query;
      ApplyFilters(selectedTopic.value, query);
    }

    method HandleClearSearch()
      modifies this
      ensures Cells() == SearchCleared(old(Cells()))
    {
      searchQuery := "";
      ApplyFilters(selectedTopic.value, "");
    }

    method RemoveTag()
      requires |topicOptions| > 0
      modifies this
      ensures Cells() == TagRemoved(old(Cells()))
    {
      filter := [];
      sortedFaqData := faqData;
      selectedTopic := topicOptions[0];
      subtoolbarVisible := false;
    }

    method ClearAllFilters()
      modifies this
      ensures Cells() == FiltersCleared(old(Cells()))
    {
      searchQuery := "";
      selectedTopic := TopicOption(0, AllTopics);
      filter := [];
      subtoolbarVisible := false;
      ApplyFilters(AllTopics, "");
    }

    method HandlePageChange(page: int)
      modifies this
      ensures Cells() == PageChanged(old(Cells()), page)
    {
      currentPage := page;
    }
  }
}
