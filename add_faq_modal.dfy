/**
 * The "Add to FAQ" dialog (src/dashboard/modals/add-faq/modal.tsx): the
 * form and its validation, the confirmation step, and the item it inserts,
 * which is given the next free `order` so that it is listed last.
 */
module AddFaqModal {
  import opened Collections
  import opened Strings
  import FaqEditor

  /** The dialog's fixed topics. */
  const TopicOptions: seq<FaqEditor.TopicOption> := [
    FaqEditor.TopicOption(1, "Training"), FaqEditor.TopicOption(2, "Admin"),
    FaqEditor.TopicOption(3, "Payment"), FaqEditor.TopicOption(4, "Packages")]

  /** The record handed to the store; a topic that was not found is `None` (undefined). */
  datatype NewFaq = NewFaq(question: string, answer: string, topic: Option<string>, order: int)

  // ---------------------------------------------------------------------
  // The next order
  // ---------------------------------------------------------------------

  /** `item.order || 0`: a missing order (or 0) counts as 0. */
  function OrderOrZero(order: Option<int>): int
  {
    if order.Some? then order.value else 0
  }

  /** `Math.max(...orders)` of a non-empty list, or 0 for no items. */
  function MaxOrder(orders: seq<Option<int>>): (m: int)
    ensures forall k :: 0 <= k < |orders| ==> OrderOrZero(orders[k]) <= m
    ensures orders == [] ==> m == 0
    ensures orders != [] ==> exists k :: 0 <= k < |orders| && m == OrderOrZero(orders[k])
  {
    if |orders| == 0 then 0
    else if |orders| == 1 then OrderOrZero(orders[0])
    else
      var rest := MaxOrder(orders[1..]);
      assert forall k :: 1 <= k < |orders| ==> orders[k] == orders[1..][k - 1];
      if OrderOrZero(orders[0]) >= rest then OrderOrZero(orders[0]) else rest
  }

  /** `maxOrder + 1`. */
  function NextOrder(orders: seq<Option<int>>): int
  {
    MaxOrder(orders) + 1
  }

  /**
   * The new order is above every existing one (a missing one counting as
   * 0), it is 1 for an empty collection, and otherwise it is one more than
   * some existing order, so no smaller number is above them all.
   */
  lemma NextOrderSpec(orders: seq<Option<int>>)
    ensures forall k :: 0 <= k < |orders| ==> OrderOrZero(orders[k]) < NextOrder(orders)
    ensures orders == [] ==> NextOrder(orders) == 1
    ensures orders != [] ==> exists k :: 0 <= k < |orders| && NextOrder(orders) == OrderOrZero(orders[k]) + 1
  {
    var m := MaxOrder(orders);
    if orders != [] {
      var k :| 0 <= k < |orders| && m == OrderOrZero(orders[k]);
      assert NextOrder(orders) == OrderOrZero(orders[k]) + 1;
    }
  }

  /** The orders of the stored items, as the store returns them. */
  function OrdersOf(data: seq<FaqEditor.FaqItem>): (r: seq<Option<int>>)
    ensures |r| == |data| && forall k :: 0 <= k < |data| ==> r[k] == Some(data[k].order)
  {
    seq(|data|, k requires 0 <= k < |data| => Some(data[k].order))
  }

  /** An item whose order is above every other is sorted to the end. */
  lemma {:induction false} GreatestSortsLast(data: seq<FaqEditor.FaqItem>, item: FaqEditor.FaqItem)
    requires forall x :: x in data ==> x.order < item.order
    ensures var r := Sort(data + [item], FaqEditor.ByOrder); |r| > 0 && r[|r| - 1] == item
  {
    var all := data + [item];
    var r := Sort(all, FaqEditor.ByOrder);
    FaqEditor.ByOrderTotal();
    SortSorted(all, FaqEditor.ByOrder);
    assert item in multiset(r) by {
      assert item in multiset(all);
    }
    var i :| 0 <= i < |r| && r[i] == item;
    var n := |r| - 1;
    assert r[n] in all by {
      assert r[n] in multiset(all);
    }
    assert i < n ==> FaqEditor.ByOrder(r[i], r[n]) <= 0;
    if r[n] != item {
      assert false;
    }
  }

  /**
   * Once inserted, the new item is listed last in the FAQ table when no
   * topic or search is applied.
   */
  lemma NewItemListedLast(data: seq<FaqEditor.FaqItem>, item: FaqEditor.FaqItem)
    requires item.order == NextOrder(OrdersOf(data))
    ensures var r := FaqEditor.FilterView(data + [item], FaqEditor.AllTopics, ""); |r| > 0 && r[|r| - 1] == item
  {
    NextOrderSpec(OrdersOf(data));
    forall x | x in data ensures x.order < item.order {
      var k :| 0 <= k < |data| && data[k] == x;
      assert OrderOrZero(OrdersOf(data)[k]) == x.order;
    }
    GreatestSortsLast(data, item);
    FaqEditor.FilterViewUnfiltered(data + [item]);
  }

  // ---------------------------------------------------------------------
  // The form and the item it inserts
  // ---------------------------------------------------------------------

  /** `isFormValid()`. */
  predicate IsFormValid(question: string, answer: string, selectedTopic: Option<int>)
  {
    Trim(question) != "" && Trim(answer) != "" && selectedTopic.Some?
  }

  /** `topicOptions.find(opt => opt.id === selectedTopic)?.value`. */
  function TopicValue(selectedTopic: Option<int>): (v: Option<string>)
    ensures v.Some? <==> selectedTopic.Some? && 1 <= selectedTopic.value <= 4
  {
    if selectedTopic.None? then None
    else
      var found := FaqEditor.FindById(TopicOptions, selectedTopic.value);
      if found.Some? then Some(found.value.value) else None
  }

  /** The record `handleConfirmSave` inserts, given the orders already stored. */
  function NewItem(question: string, answer: string, selectedTopic: Option<int>, orders: seq<Option<int>>): NewFaq
  {
    NewFaq(Trim(question), answer, TopicValue(selectedTopic), NextOrder(orders))
  }

  /** The topic stored is the name of the option whose id was chosen. */
  lemma TopicValueSpec(selectedTopic: Option<int>)
    ensures forall o :: o in TopicOptions && selectedTopic == Some(o.id) ==> TopicValue(selectedTopic) == Some(o.value)
  {
    forall o | o in TopicOptions && selectedTopic == Some(o.id)
      ensures TopicValue(selectedTopic) == Some(o.value)
    {
      var found := FaqEditor.FindById(TopicOptions, o.id);
      assert found.Some? && found.value.id == o.id && found.value in TopicOptions;
    }
  }

  /**
   * The inserted question is the trimmed question, still non-empty for a
   * valid form and unchanged by trimming again; the answer is kept as
   * entered; the topic is the chosen option's name; the order is above
   * every stored one.
   */
  lemma NewItemSpec(question: string, answer: string, selectedTopic: Option<int>, orders: seq<Option<int>>)
    ensures var r := NewItem(question, answer, selectedTopic, orders);
      && Trim(r.question) == r.question
      && (IsFormValid(question, answer, selectedTopic) ==> r.question != "")
      && r.answer == answer
      && (forall o :: o in TopicOptions && selectedTopic == Some(o.id) ==> r.topic == Some(o.value))
      && (forall k :: 0 <= k < |orders| ==> OrderOrZero(orders[k]) < r.order)
  {
    TrimIdempotent(question);
    NextOrderSpec(orders);
    TopicValueSpec(selectedTopic);
  }

  // ---------------------------------------------------------------------
  // The dialog's state and its handlers
  // ---------------------------------------------------------------------

  datatype ModalState = ModalState(
    question: string,
    answer: string,
    selectedTopic: Option<int>,
    isSaving: bool,
    showConfirmation: bool,
    closed: Option<bool>)

  const Opened: ModalState := ModalState("", "", None, false, false, None)

  /** The confirmation step is only ever shown for a valid form. */
  predicate Valid(s: ModalState)
  {
    s.showConfirmation ==> IsFormValid(s.question, s.answer, s.selectedTopic)
  }

  /** `handleClickSave`: an invalid form only raises the error toast. */
  function SaveClicked(s: ModalState): ModalState
  {
    if IsFormValid(s.question, s.answer, s.selectedTopic) then s.(showConfirmation := true) else s
  }

  function SaveCancelled(s: ModalState): ModalState
  {
    s.(showConfirmation := false)
  }

  function ConfirmStarted(s: ModalState): ModalState
  {
    s.(isSaving := true)
  }

  /** The `finally`: closes with `saved: true` only when the insert succeeded. */
  function ConfirmFinished(s: ModalState, stored: bool): ModalState
  {
    s.(isSaving := false, closed := if stored then Some(true) else s.closed)
  }

  /**
   * Save opens the confirmation step exactly for a valid form; otherwise
   * nothing changes. Either way the confirmation step shows a valid form.
   */
  lemma SaveClickedSpec(s: ModalState)
    requires Valid(s)
    ensures SaveClicked(s).showConfirmation <==> s.showConfirmation || IsFormValid(s.question, s.answer, s.selectedTopic)
    ensures !IsFormValid(s.question, s.answer, s.selectedTopic) ==> SaveClicked(s) == s
    ensures Valid(SaveClicked(s)) && Valid(SaveCancelled(s))
    ensures SaveClicked(s).(showConfirmation := s.showConfirmation) == s
  {
  }

  /** Confirming raises the saving flag, clears it at the end, and closes as saved only after a stored insert. */
  lemma ConfirmSaveSpec(s: ModalState, stored: bool)
    requires Valid(s)
    ensures ConfirmStarted(s).isSaving && Valid(ConfirmStarted(s))
    ensures var t := ConfirmFinished(ConfirmStarted(s), stored);
      && !t.isSaving && Valid(t)
      && (t.closed == Some(true) <==> stored || s.closed == Some(true))
      && t.(isSaving := s.isSaving, closed := s.closed) == s
  {
  }

  // ---------------------------------------------------------------------
  // The dialog
  // ---------------------------------------------------------------------

  class Modal {
    var question: string
    var answer: string
    var selectedTopic: Option<int>
    var isSaving: bool
    var showConfirmation: bool
    var closed: Option<bool>

    function Cells(): ModalState
      reads this
    {
      ModalState(question, answer, selectedTopic, isSaving, showConfirmation, closed)
    }

    constructor ()
      ensures Cells() == Opened && Valid(Cells())
    {
      question := "";
      answer := "";
      selectedTopic := None;
      isSaving := false;
      showConfirmation := false;
      closed := None;
    }

    method HandleQuestionChange(value: string)
      modifies this
      ensures Cells() == old(Cells()).(question := value)
    {
      question := value;
    }

    method HandleAnswerChange(value: string)
      modifies this
      ensures Cells() == old(Cells()).(answer := value)
    {
      answer := value;
    }

    method HandleTopicChange(option: FaqEditor.TopicOption)
      modifies this
      ensures Cells() == old(Cells()).(selectedTopic := Some(option.id))
    {
      selectedTopic := Some(option.id);
    }

    method IsFormValidNow() returns (valid: bool)
      ensures valid == IsFormValid(question, answer, selectedTopic)
    {
      valid := Trim(question) != "" && Trim(answer) != "" && selectedTopic.Some?;
    }

    /** Returns whether the error toast is shown. */
    method HandleClickSave() returns (errorShown: bool)
      modifies this
      ensures Cells() == SaveClicked(old(Cells()))
      ensures errorShown <==> !IsFormValid(old(question), old(answer), old(selectedTopic))
    {
      var valid := IsFormValidNow();
      if !valid {
        return true;
      }
      showConfirmation := true;
      errorShown := false;
    }

    method HandleCancelSave()
      modifies this
      ensures Cells() == SaveCancelled(old(Cells()))
    {
      showConfirmation := false;
    }

    /**
     * `handleConfirmSave` up to the insert: `existing` are the orders the
     * store returned, and the result is the record to insert.
     */
    method BeginConfirmSave(existing: seq<Option<int>>) returns (item: NewFaq)
      modifies this
      ensures Cells() == ConfirmStarted(old(Cells()))
      ensures item == NewItem(question, answer, selectedTopic, existing)
    {
      isSaving := true;
      var maxOrder := if |existing| > 0 then MaxOrder(existing) else 0;
      var topicValue := TopicValue(selectedTopic);
      item := NewFaq(Trim(question), answer, topicValue, maxOrder + 1);
    }

    /** The rest of `handleConfirmSave`, once the store has answered. */
    method FinishConfirmSave(stored: bool)
      modifies this
      ensures Cells() == ConfirmFinished(old(Cells()), stored)
    {
      if stored {
        closed := Some(true);
      }
      isSaving := false;
    }
  }
}
