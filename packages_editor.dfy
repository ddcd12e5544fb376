/**
 * The packages-and-pricing editor (src/components/PackagesEditor.tsx): a
 * table of packages narrowed by a type facet and a session facet, with a
 * chip per active facet, sortable by column, and the package descriptions
 * shown above it.
 *
 * The derivations are pure functions, the handlers are transitions of
 * `State` (the `packagesData` prop and the state cells), and `Editor` is the
 * component as a class whose fields are those cells.
 */
module PackagesEditor {
  import opened Collections
  import opened Strings

  /** A package row; a description that is missing is "". */
  datatype PackageItem = PackageItem(
    id: string, packageType: string, name: string, totalPrice: int,
    sessionPrice: int, sessionQty: int, validity: int, description: string)

  datatype TypeOption = TypeOption(id: nat, value: string)
  datatype SessionOption = SessionOption(id: nat, value: string, qty: int)

  /** The option handed to `handleFilterSelection`, tagged by its `type` field. */
  datatype FilterOption = TypeChoice(typeOption: TypeOption) | SessionChoice(sessionOption: SessionOption)

  datatype FilterTag = FilterTag(id: string, children: string)

  datatype SortKey = TypeKey | SessionQtyKey | SessionPriceKey | TotalPriceKey | ValidityKey
  datatype Direction = Asc | Desc

  const AllTypes: string := "All Types"
  const AllSessions: string := "All Sessions"

  const TypeOptions: seq<TypeOption> := [
    TypeOption(0, AllTypes), TypeOption(1, "Quick 40"),
    TypeOption(2, "Standard 60"), TypeOption(3, "Extended 75")]

  const SessionOptions: seq<SessionOption> := [
    SessionOption(0, AllSessions, 0), SessionOption(1, "5 Sessions", 5),
    SessionOption(2, "10 Sessions", 10), SessionOption(3, "20 Sessions", 20)]

  /** The packages whose descriptions are shown, in display order. */
  const DescriptionIds: seq<string> := [
    "ea008f34-79d3-4615-8960-27119e38346c", "b813c0a4-6de6-477b-a909-2e6a5b62410b",
    "93aecbfa-6e40-4967-9560-73f881128170", "c992a468-02d0-458b-b8f4-e8dbc6207703"]

  // ---------------------------------------------------------------------
  // Filter chips
  // ---------------------------------------------------------------------

  function TypeChip(t: TypeOption): FilterTag
  {
    FilterTag("type", t.value)
  }

  function SessionChip(s: SessionOption): FilterTag
  {
    FilterTag("session", s.value)
  }

  /** `compileFilters(typeSelection, sessionSelection)`. */
  function CompileFilters(t: TypeOption, s: SessionOption): (r: seq<FilterTag>)
    ensures |r| <= 2
  {
    (if t.value != AllTypes then [TypeChip(t)] else []) + (if s.value != AllSessions then [SessionChip(s)] else [])
  }

  /** At most the type chip then the session chip, each present exactly when its facet is narrowed. */
  lemma CompileFiltersSpec(t: TypeOption, s: SessionOption)
    ensures IsSubsequence(CompileFilters(t, s), [TypeChip(t), SessionChip(s)])
    ensures (exists f :: f in CompileFilters(t, s) && f.id == "type") <==> t.value != AllTypes
    ensures (exists f :: f in CompileFilters(t, s) && f.id == "session") <==> s.value != AllSessions
    ensures CompileFilters(t, s) == [] <==> t.value == AllTypes && s.value == AllSessions
  {
    var full := [TypeChip(t), SessionChip(s)];
    var r := CompileFilters(t, s);
    SubsequenceRefl(full);
    SubsequenceRefl(full[1..]);
    if t.value != AllTypes && s.value == AllSessions {
      assert r == [full[0]];
      assert IsSubsequence(r[1..], full[1..]);
    } else if t.value == AllTypes && s.value != AllSessions {
      assert r == full[1..];
    }
    if t.value != AllTypes {
      assert TypeChip(t) in r;
    }
    if s.value != AllSessions {
      assert SessionChip(s) in r;
    }
  }

  // ---------------------------------------------------------------------
  // Filtering by the two facets
  // ---------------------------------------------------------------------

  /** The options of the two drop-downs. */
  predicate Listed(t: TypeOption, s: SessionOption)
  {
    t in TypeOptions && s in SessionOptions
  }

  /** The intended reading of a selection: each narrowed facet must match. */
  predicate MatchesSelection(item: PackageItem, t: TypeOption, s: SessionOption)
  {
    (t.value == AllTypes || item.packageType == t.value) && (s.value == AllSessions || item.sessionQty == s.qty)
  }

  function FilterBySelection(data: seq<PackageItem>, t: TypeOption, s: SessionOption): (r: seq<PackageItem>)
    ensures forall x :: x in r <==> x in data && MatchesSelection(x, t, s)
  {
    Filter(data, (item: PackageItem) => MatchesSelection(item, t, s))
  }

  /** The `switch (option.type)` predicate, read against the selection before the click. */
  predicate SwitchPredicate(option: FilterOption, oldType: TypeOption, oldSession: SessionOption, item: PackageItem)
  {
    match option
    case TypeChoice(o) =>
      if o.value == AllTypes then oldSession.id == 0 || item.sessionQty == oldSession.qty
      else item.packageType == o.value && (oldSession.id == 0 || item.sessionQty == oldSession.qty)
    case SessionChoice(o) =>
      if o.value == AllSessions then oldType.id == 0 || item.packageType == oldType.value
      else item.sessionQty == o.qty && (oldType.id == 0 || item.packageType == oldType.value)
  }

  function NewType(option: FilterOption, oldType: TypeOption): TypeOption
  {
    if option.TypeChoice? then option.typeOption else oldType
  }

  function NewSession(option: FilterOption, oldSession: SessionOption): SessionOption
  {
    if option.SessionChoice? then option.sessionOption else oldSession
  }

  /** The rows `handleFilterSelection` computes. */
  function SelectionView(data: seq<PackageItem>, option: FilterOption, oldType: TypeOption, oldSession: SessionOption): seq<PackageItem>
  {
    if NewType(option, oldType).value == AllTypes && NewSession(option, oldSession).value == AllSessions then data
    else Filter(data, (item: PackageItem) => SwitchPredicate(option, oldType, oldSession, item))
  }

  /**
   * For listed options the switch filters by both facets of the new
   * selection, in `packagesData` order.
   */
  lemma SelectionViewIsFilter(data: seq<PackageItem>, option: FilterOption, oldType: TypeOption, oldSession: SessionOption)
    requires Listed(oldType, oldSession)
    requires Listed(NewType(option, oldType), NewSession(option, oldSession))
    ensures SelectionView(data, option, oldType, oldSession)
      == FilterBySelection(data, NewType(option, oldType), NewSession(option, oldSession))
  {
    var t := NewType(option, oldType);
    var s := NewSession(option, oldSession);
    var sel := (item: PackageItem) => MatchesSelection(item, t, s);
    if t.value == AllTypes && s.value == AllSessions {
      FilterAll(data, sel);
    } else {
      FilterCongruent(data, (item: PackageItem) => SwitchPredicate(option, oldType, oldSession, item), sel);
    }
  }

  // ---------------------------------------------------------------------
  // Column sorting
  // ---------------------------------------------------------------------

  /** The `switch (columns.id)` of `handleSortClick`. */
  function ColumnKey(columnId: int): (k: Option<SortKey>)
    ensures k.Some? <==> 0 <= columnId <= 4
  {
    if columnId == 0 then Some(TypeKey)
    else if columnId == 1 then Some(SessionQtyKey)
    else if columnId == 2 then Some(SessionPriceKey)
    else if columnId == 3 then Some(TotalPriceKey)
    else if columnId == 4 then Some(ValidityKey)
    else None
  }

  /** The ascending comparison: strings by `localeCompare`, numbers by difference. */
  function CompareBy(key: SortKey, a: PackageItem, b: PackageItem): int
  {
    match key
    case TypeKey => CompareStrings(a.packageType, b.packageType)
    case SessionQtyKey => a.sessionQty - b.sessionQty
    case SessionPriceKey => a.sessionPrice - b.sessionPrice
    case TotalPriceKey => a.totalPrice - b.totalPrice
    case ValidityKey => a.validity - b.validity
  }

  /** The comparator handed to `sort`: negated for "desc". */
  function ColumnOrder(key: SortKey, dir: Direction): (PackageItem, PackageItem) -> int
  {
    (a: PackageItem, b: PackageItem) => if dir == Asc then CompareBy(key, a, b) else -CompareBy(key, a, b)
  }

  lemma CompareByAntisymmetric(key: SortKey, a: PackageItem, b: PackageItem)
    ensures CompareBy(key, b, a) == -CompareBy(key, a, b)
  {
    if key == TypeKey {
      CompareStringsAntisymmetric(a.packageType, b.packageType);
    }
  }

  lemma CompareByTransitive(key: SortKey, a: PackageItem, b: PackageItem, c: PackageItem)
    requires CompareBy(key, a, b) <= 0 && CompareBy(key, b, c) <= 0
    ensures CompareBy(key, a, c) <= 0
  {
    if key == TypeKey {
      CompareStringsTransitive(a.packageType, b.packageType, c.packageType);
    }
  }

  /** Both directions of every column compare consistently, so the stable sort is well defined. */
  lemma ColumnOrderTotal(key: SortKey, dir: Direction)
    ensures TotalPreorder(ColumnOrder(key, dir))
  {
    var cmp := ColumnOrder(key, dir);
    forall a, b ensures cmp(a, b) <= 0 || cmp(b, a) <= 0 {
      CompareByAntisymmetric(key, a, b);
    }
    forall a, b, c | cmp(a, b) <= 0 && cmp(b, c) <= 0 ensures cmp(a, c) <= 0 {
      if dir == Asc {
        CompareByTransitive(key, a, b, c);
      } else {
        CompareByAntisymmetric(key, a, b);
        CompareByAntisymmetric(key, b, c);
        CompareByAntisymmetric(key, a, c);
        CompareByTransitive(key, c, b, a);
      }
    }
  }

  /** The new direction: "desc" only when the same column was last sorted "asc". */
  function NextDirection(sortBy: Option<SortKey>, sortDirection: Direction, key: SortKey): Direction
  {
    if sortBy == Some(key) then (if sortDirection == Asc then Desc else Asc) else Asc
  }

  /** The sorted rows are a reordering of the rows, ordered by the column in the chosen direction. */
  lemma ColumnSortSpec(rows: seq<PackageItem>, key: SortKey, dir: Direction)
    ensures multiset(Sort(rows, ColumnOrder(key, dir))) == multiset(rows)
    ensures var r := Sort(rows, ColumnOrder(key, dir));
      forall i, j :: 0 <= i < j < |r| ==> if dir == Asc then CompareBy(key, r[i], r[j]) <= 0 else CompareBy(key, r[j], r[i]) <= 0
  {
    ColumnOrderTotal(key, dir);
    SortSorted(rows, ColumnOrder(key, dir));
    var r := Sort(rows, ColumnOrder(key, dir));
    forall i, j | 0 <= i < j < |r|
      ensures if dir == Asc then CompareBy(key, r[i], r[j]) <= 0 else CompareBy(key, r[j], r[i]) <= 0
    {
      assert ColumnOrder(key, dir)(r[i], r[j]) <= 0;
      CompareByAntisymmetric(key, r[i], r[j]);
    }
  }

  // ---------------------------------------------------------------------
  // Descriptions
  // ---------------------------------------------------------------------

  /** `Array.prototype.indexOf`: the first position, or -1. */
  function IndexOf(s: seq<string>, x: string): (i: int)
    ensures -1 <= i < |s|
    ensures i == -1 <==> x !in s
    ensures i >= 0 ==> s[i] == x && x !in s[..i]
  {
    if x in s then FirstIndex(s, x) else -1
  }

  function ByDescriptionIndex(a: PackageItem, b: PackageItem): int
  {
    IndexOf(DescriptionIds, a.id) - IndexOf(DescriptionIds, b.id)
  }

  /** The packages with a listed id, in the order of the id list. */
  function Descriptions(data: seq<PackageItem>): seq<PackageItem>
  {
    Sort(Filter(data, (item: PackageItem) => item.id in DescriptionIds), ByDescriptionIndex)
  }

  lemma DescriptionsSpec(data: seq<PackageItem>, x: PackageItem)
    ensures multiset(Descriptions(data))[x] == if x.id in DescriptionIds then multiset(data)[x] else 0
    ensures var r := Descriptions(data);
      forall i, j :: 0 <= i < j < |r| ==> IndexOf(DescriptionIds, r[i].id) <= IndexOf(DescriptionIds, r[j].id)
  {
    var listed := (item: PackageItem) => item.id in DescriptionIds;
    FilterCount(data, listed, x);
    assert TotalPreorder(ByDescriptionIndex);
    SortSorted(Filter(data, listed), ByDescriptionIndex);
    var r := Descriptions(data);
    forall i, j | 0 <= i < j < |r| ensures IndexOf(DescriptionIds, r[i].id) <= IndexOf(DescriptionIds, r[j].id) {
      assert ByDescriptionIndex(r[i], r[j]) <= 0;
    }
  }

  // ---------------------------------------------------------------------
  // The component's state and its handlers as transitions
  // ---------------------------------------------------------------------

  datatype State = State(
    packagesData: seq<PackageItem>,
    sortedPackData: seq<PackageItem>,
    descriptions: seq<PackageItem>,
    sortBy: Option<SortKey>,
    sortDirection: Direction,
    selectedSession: SessionOption,
    selectedType: TypeOption,
    subtoolbarVisible: bool,
    filters: seq<FilterTag>)

  function Initial(data: seq<PackageItem>): State
  {
    State(data, data, [], None, Asc, SessionOptions[0], TypeOptions[0], false, [])
  }

  /** The effect on `[packagesData]`: the table shows all rows; facets, chips and sort state stay. */
  function Loaded(s: State, data: seq<PackageItem>): State
  {
    s.(packagesData := data, sortedPackData := data, descriptions := Descriptions(data))
  }

  function FilterSelected(s: State, option: FilterOption): State
  {
    var t := NewType(option, s.selectedType);
    var ss := NewSession(option, s.selectedSession);
    var chips := CompileFilters(t, ss);
    s.(subtoolbarVisible := |chips| > 0, selectedType := t, selectedSession := ss,
       sortedPackData := SelectionView(s.packagesData, option, s.selectedType, s.selectedSession),
       filters := chips)
  }

  function FindType(id: int): (r: Option<TypeOption>)
    ensures r.Some? ==> r.value in TypeOptions && r.value.id == id
    ensures r.None? <==> !(0 <= id < 4)
  {
    if 0 <= id < 4 then Some(TypeOptions[id]) else None
  }

  function FindSession(id: int): (r: Option<SessionOption>)
    ensures r.Some? ==> r.value in SessionOptions && r.value.id == id
    ensures r.None? <==> !(0 <= id < 4)
  {
    if 0 <= id < 4 then Some(SessionOptions[id]) else None
  }

  function TypeSelected(s: State, id: int): State
  {
    match FindType(id)
    case None => s
    case Some(o) => FilterSelected(s, TypeChoice(o))
  }

  function SessionSelected(s: State, id: int): State
  {
    match FindSession(id)
    case None => s
    case Some(o) => FilterSelected(s, SessionChoice(o))
  }

  /** The rows `removeTag` computes, with the selection before and after the removal. */
  function RemovalView(data: seq<PackageItem>, remaining: seq<FilterTag>,
    oldType: TypeOption, oldSession: SessionOption, t: TypeOption, ss: SessionOption): seq<PackageItem>
  {
    if |remaining| == 0 then data
    else Filter(data, (item: PackageItem) =>
      (t.value == AllTypes || item.packageType == oldType.value)
      && (ss.value == AllSessions || item.sessionQty == oldSession.qty))
  }

  function TagRemoved(s: State, tag: string): State
  {
    var t := if tag == "type" then TypeOption(0, AllTypes) else s.selectedType;
    var ss := if tag == "session" then SessionOption(0, AllSessions, 0) else s.selectedSession;
    var remaining := Filter(s.filters, (f: FilterTag) => f.id != tag);
    s.(selectedType := t, selectedSession := ss, filters := remaining, subtoolbarVisible := |remaining| > 0,
       sortedPackData := RemovalView(s.packagesData, remaining, s.selectedType, s.selectedSession, t, ss))
  }

  function AllCleared(s: State): State
  {
    s.(filters := [], sortedPackData := s.packagesData, selectedSession := SessionOptions[0],
       selectedType := TypeOptions[0], subtoolbarVisible := false)
  }

  function SortClicked(s: State, columnId: int): State
  {
    match ColumnKey(columnId)
    case None => s
    case Some(key) =>
      var dir := NextDirection(s.sortBy, s.sortDirection, key);
      s.(sortBy := Some(key), sortDirection := dir, sortedPackData := Sort(s.sortedPackData, ColumnOrder(key, dir)))
  }

  /** The chips always describe the selection, and the sub-toolbar shows exactly when there are chips. */
  predicate Valid(s: State)
  {
    && Listed(s.selectedType, s.selectedSession)
    && s.filters == CompileFilters(s.selectedType, s.selectedSession)
    && s.subtoolbarVisible == (|s.filters| > 0)
  }

  lemma InitialValid(data: seq<PackageItem>)
    ensures Valid(Initial(data))
  {
  }

  /** A load shows every row and the listed descriptions, and touches nothing else. */
  lemma LoadedSpec(s: State, data: seq<PackageItem>)
    requires Valid(s)
    ensures Valid(Loaded(s, data))
    ensures Loaded(s, data).sortedPackData == data
    ensures Loaded(s, data).(packagesData := s.packagesData, sortedPackData := s.sortedPackData, descriptions := s.descriptions) == s
  {
  }

  /**
   * A facet selection changes only its own facet, rebuilds the chips, and
   * shows `packagesData` filtered by both facets in its own order, so an
   * earlier column sort is lost.
   */
  lemma FilterSelectedSpec(s: State, option: FilterOption)
    requires Valid(s)
    requires option.TypeChoice? ==> option.typeOption in TypeOptions
    requires option.SessionChoice? ==> option.sessionOption in SessionOptions
    ensures Valid(FilterSelected(s, option))
    ensures var t := FilterSelected(s, option);
      (option.TypeChoice? ==> t.selectedType == option.typeOption && t.selectedSession == s.selectedSession)
      && (option.SessionChoice? ==> t.selectedSession == option.sessionOption && t.selectedType == s.selectedType)
      && t.sortedPackData == FilterBySelection(s.packagesData, t.selectedType, t.selectedSession)
      && t.sortBy == s.sortBy && t.sortDirection == s.sortDirection
  {
    SelectionViewIsFilter(s.packagesData, option, s.selectedType, s.selectedSession);
  }

  /** The chips left after a removal are the chips of the reset selection. */
  lemma RemainingChips(s: State, tag: string)
    requires Valid(s)
    ensures Filter(s.filters, (f: FilterTag) => f.id != tag)
      == CompileFilters(TagRemoved(s, tag).selectedType, TagRemoved(s, tag).selectedSession)
  {
    var ct := if s.selectedType.value != AllTypes then [TypeChip(s.selectedType)] else [];
    var cs := if s.selectedSession.value != AllSessions then [SessionChip(s.selectedSession)] else [];
    assert s.filters == ct + cs;
    FilterAppend(ct, cs, (f: FilterTag) => f.id != tag);
  }

  /**
   * Removing a chip resets only its facet and removes only that chip; the
   * rows then match the facet that is still narrowed.
   */
  lemma TagRemovedSpec(s: State, tag: string)
    requires Valid(s)
    ensures Valid(TagRemoved(s, tag))
    ensures var t := TagRemoved(s, tag);
      t.selectedType == (if tag == "type" then TypeOptions[0] else s.selectedType)
      && t.selectedSession == (if tag == "session" then SessionOptions[0] else s.selectedSession)
      && (forall f :: f in t.filters <==> f in s.filters && f.id != tag)
      && t.sortedPackData == FilterBySelection(s.packagesData, t.selectedType, t.selectedSession)
  {
    var t := TagRemoved(s, tag);
    var remaining := Filter(s.filters, (f: FilterTag) => f.id != tag);
    RemainingChips(s, tag);
    var sel := (item: PackageItem) => MatchesSelection(item, t.selectedType, t.selectedSession);
    if |remaining| == 0 {
      CompileFiltersSpec(t.selectedType, t.selectedSession);
      FilterAll(s.packagesData, sel);
    } else {
      FilterCongruent(s.packagesData, (item: PackageItem) =>
        (t.selectedType.value == AllTypes || item.packageType == s.selectedType.value)
        && (t.selectedSession.value == AllSessions || item.sessionQty == s.selectedSession.qty), sel);
    }
  }

  /** Clearing resets both facets and shows every row; doing it twice is doing it once. */
  lemma AllClearedSpec(s: State)
    ensures Valid(AllCleared(s))
    ensures AllCleared(s).sortedPackData == FilterBySelection(s.packagesData, TypeOptions[0], SessionOptions[0])
    ensures AllCleared(AllCleared(s)) == AllCleared(s)
  {
    FilterAll(s.packagesData, (item: PackageItem) => MatchesSelection(item, TypeOptions[0], SessionOptions[0]));
  }

  /**
   * An unknown column changes nothing; otherwise the rows are reordered by
   * that column, descending only right after an ascending sort of it.
   */
  lemma SortClickedSpec(s: State, columnId: int)
    requires Valid(s)
    ensures Valid(SortClicked(s, columnId))
    ensures !(0 <= columnId <= 4) ==> SortClicked(s, columnId) == s
    ensures 0 <= columnId <= 4 ==> var t := SortClicked(s, columnId); var key := ColumnKey(columnId).value;
      t.sortBy == Some(key)
      && (t.sortDirection == Desc <==> s.sortBy == Some(key) && s.sortDirection == Asc)
      && multiset(t.sortedPackData) == multiset(s.sortedPackData)
      && (forall i, j :: 0 <= i < j < |t.sortedPackData| ==>
            if t.sortDirection == Asc then CompareBy(key, t.sortedPackData[i], t.sortedPackData[j]) <= 0
            else CompareBy(key, t.sortedPackData[j], t.sortedPackData[i]) <= 0)
      && t.(sortBy := s.sortBy, sortDirection := s.sortDirection, sortedPackData := s.sortedPackData) == s
  {
    if 0 <= columnId <= 4 {
      var key := ColumnKey(columnId).value;
      ColumnSortSpec(s.sortedPackData, key, NextDirection(s.sortBy, s.sortDirection, key));
    }
  }

  /** Clicking the same column again flips the direction. */
  lemma SortClickedToggles(s: State, columnId: int)
    requires 0 <= columnId <= 4
    ensures SortClicked(SortClicked(s, columnId), columnId).sortDirection != SortClicked(s, columnId).sortDirection
  {
  }

  // ---------------------------------------------------------------------
  // The component
  // ---------------------------------------------------------------------

  class Editor {
    var packagesData: seq<PackageItem>
    var sortedPackData: seq<PackageItem>
    var descriptions: seq<PackageItem>
    var sortBy: Option<SortKey>
    var sortDirection: Direction
    var selectedSession: SessionOption
    var selectedType: TypeOption
    var subtoolbarVisible: bool
    var filters: seq<FilterTag>

    function Cells(): State
      reads this
    {
      State(packagesData, sortedPackData, descriptions, sortBy, sortDirection,
        selectedSession, selectedType, subtoolbarVisible, filters)
    }

    constructor (data: seq<PackageItem>)
      ensures Cells() == Initial(data)
    {
      packagesData := data;
      sortedPackData := data;
      descriptions := [];
      sortBy := None;
      sortDirection := Asc;
      selectedSession := SessionOptions[0];
      selectedType := TypeOptions[0];
      subtoolbarVisible := false;
      filters := [];
    }

    method Load(data: seq<PackageItem>)
      modifies this
      ensures Cells() == Loaded(old(Cells()), data)
    {
      packagesData := data;
      sortedPackData := data;
      descriptions := Descriptions(data);
    }

    method CheckFiltersLength(newFilters: seq<FilterTag>)
      modifies this
      ensures Cells() == old(Cells()).(subtoolbarVisible := |newFilters| > 0)
    {
      subtoolbarVisible := |newFilters| > 0;
    }

    method HandleFilterSelection(option: FilterOption)
      modifies this
      ensures Cells() == FilterSelected(old(Cells()), option)
    {
      var newType := NewType(option, selectedType);
      var newSession := NewSession(option, selectedSession);
      var filtered := SelectionView(packagesData, option, selectedType, selectedSession);
      var newFilters := CompileFilters(newType, newSession);
      CheckFiltersLength(newFilters);
      selectedType := newType;
      selectedSession := newSession;
      sortedPackData := filtered;
      filters := newFilters;
    }

    method HandleTypeSelect(id: int)
      modifies this
      ensures Cells() == TypeSelected(old(Cells()), id)
    {
      var selected := FindType(id);
      if selected.Some? {
        HandleFilterSelection(TypeChoice(selected.value));
      }
    }

    method HandleSessionSelect(id: int)
      modifies this
      ensures Cells() == SessionSelected(old(Cells()), id)
    {
      var selected := FindSession(id);
      if selected.Some? {
        HandleFilterSelection(SessionChoice(selected.value));
      }
    }

    method RemoveTag(tag: string)
      modifies this
      ensures Cells() == TagRemoved(old(Cells()), tag)
    {
      var oldType, oldSession := selectedType, selectedSession;
      var newType, newSession := selectedType, selectedSession;
      if tag == "type" {
        newType := TypeOption(0, AllTypes);
        selectedType := newType;
      } else if tag == "session" {
        newSession := SessionOption(0, AllSessions, 0);
        selectedSession := newSession;
      }
      var updatedFilters := Filter(filters, (f: FilterTag) => f.id != tag);
      filters := updatedFilters;
      CheckFiltersLength(updatedFilters);
      sortedPackData := RemovalView(packagesData, updatedFilters, oldType, oldSession, newType, newSession);
    }

    method ClearAll()
      modifies this
      ensures Cells() == AllCleared(old(Cells()))
    {
      filters := [];
      sortedPackData := packagesData;
      selectedSession := SessionOptions[0];
      selectedType := TypeOptions[0];
      subtoolbarVisible := false;
    }

    method HandleSortClick(columnId: int)
      modifies this
      ensures Cells() == SortClicked(old(Cells()), columnId)
    {
      var key := ColumnKey(columnId);
      if key.None? {
        return;
      }
      var newDirection := NextDirection(sortBy, sortDirection, key.value);
      sortBy := key;
      sortDirection := newDirection;
      sortedPackData := Sort(sortedPackData, ColumnOrder(key.value, newDirection));
    }
  }
}
