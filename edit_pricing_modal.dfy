/**
 * The "Edit package" dialog (src/dashboard/modals/edit-pricing/modal.tsx):
 * the record updaters behind its number inputs, which keep the derived
 * name and total price in step, and the save / confirm / cancel flow.
 */
module EditPricingModal {
  import opened Collections
  import opened Strings
  import opened PackagesEditor

  // ---------------------------------------------------------------------
  // Record updaters (prev => next on the `packageData` cell)
  // ---------------------------------------------------------------------

  /** `Number(value)` of a number input's value: an empty input gives 0. */
  function NumberOf(value: Option<int>): int
  {
    if value.Some? then value.value else 0
  }

  /** The name template `${type} - ${qty} Sessions`. */
  function SessionsName(packageType: string, qty: int): string
  {
    packageType + " - " + IntToString(qty) + " Sessions"
  }

  /** The total shown is the number of sessions times the session price. */
  predicate TotalConsistent(p: PackageItem)
  {
    p.totalPrice == p.sessionQty * p.sessionPrice
  }

  /** The name describes the type and the number of sessions. */
  predicate NameConsistent(p: PackageItem)
  {
    p.name == SessionsName(p.packageType, p.sessionQty)
  }

  /** The "Number of Sessions" input. */
  function WithSessionCount(prev: Option<PackageItem>, value: Option<int>): Option<PackageItem>
  {
    match prev
    case None => None
    case Some(p) =>
      var n := NumberOf(value);
      Some(p.(sessionQty := n, name := SessionsName(p.packageType, n), totalPrice := n * p.sessionPrice))
  }

  /** The "Session Price" input: an empty value keeps the record. */
  function WithSessionPrice(prev: Option<PackageItem>, value: Option<int>): Option<PackageItem>
  {
    if prev.Some? && value.Some? then
      Some(prev.value.(sessionPrice := value.value, totalPrice := value.value * prev.value.sessionQty))
    else prev
  }

  /** The "Validity (months)" input. */
  function WithValidity(prev: Option<PackageItem>, value: Option<int>): Option<PackageItem>
  {
    match prev
    case None => None
    case Some(p) => Some(p.(validity := NumberOf(value)))
  }

  /** The (read-only) "Package Type" input. */
  function WithType(prev: Option<PackageItem>, value: string): Option<PackageItem>
  {
    match prev
    case None => None
    case Some(p) => Some(p.(packageType := value, name := SessionsName(value, p.sessionQty)))
  }

  /**
   * A session-count edit sets the count (0 for an empty input), renames the
   * package after it and recomputes the total; everything else is kept.
   */
  lemma SessionCountSpec(prev: Option<PackageItem>, value: Option<int>)
    ensures prev.None? <==> WithSessionCount(prev, value).None?
    ensures prev.Some? ==> var r := WithSessionCount(prev, value).value;
      && r.sessionQty == (if value.Some? then value.value else 0)
      && TotalConsistent(r) && NameConsistent(r)
      && r.(sessionQty := prev.value.sessionQty, name := prev.value.name, totalPrice := prev.value.totalPrice) == prev.value
  {
  }

  /**
   * A session-price edit sets the price and recomputes the total, leaving
   * the name; an empty value changes nothing.
   */
  lemma SessionPriceSpec(prev: Option<PackageItem>, value: Option<int>)
    ensures value.None? || prev.None? ==> WithSessionPrice(prev, value) == prev
    ensures prev.Some? && value.Some? ==> var r := WithSessionPrice(prev, value).value;
      && r.sessionPrice == value.value
      && TotalConsistent(r)
      && r.(sessionPrice := prev.value.sessionPrice, totalPrice := prev.value.totalPrice) == prev.value
  {
  }

  /** A validity edit changes only the validity (0 for an empty input). */
  lemma ValiditySpec(prev: Option<PackageItem>, value: Option<int>)
    ensures prev.None? <==> WithValidity(prev, value).None?
    ensures prev.Some? ==>
      && WithValidity(prev, value).value.validity == (if value.Some? then value.value else 0)
      && WithValidity(prev, value).value.(validity := prev.value.validity) == prev.value
  {
  }

  /** Every edit keeps a consistent total and name consistent. */
  lemma EditsPreserveConsistency(p: PackageItem, value: Option<int>, t: string)
    requires TotalConsistent(p) && NameConsistent(p)
    ensures var r := WithSessionCount(Some(p), value).value; TotalConsistent(r) && NameConsistent(r)
    ensures var r := WithSessionPrice(Some(p), value).value; TotalConsistent(r) && NameConsistent(r)
    ensures var r := WithValidity(Some(p), value).value; TotalConsistent(r) && NameConsistent(r)
    ensures var r := WithType(Some(p), t).value; TotalConsistent(r) && NameConsistent(r)
  {
    var r := WithSessionPrice(Some(p), value).value;
    if value.Some? {
      assert r.totalPrice == value.value * p.sessionQty;
    }
  }

  /** Editing the count and then the price gives the same record as the other way round. */
  lemma CountAndPriceCommute(prev: Option<PackageItem>, qty: Option<int>, price: int)
    ensures WithSessionPrice(WithSessionCount(prev, qty), Some(price))
         == WithSessionCount(WithSessionPrice(prev, Some(price)), qty)
  {
    if prev.Some? {
      var n := NumberOf(qty);
      assert price * n == n * price;
    }
  }

  // ---------------------------------------------------------------------
  // The dialog's state and the save flow
  // ---------------------------------------------------------------------

  /**
   * The cells, plus `closed`: `Some(saved)` once the dialog has been closed
   * and with what payload.
   */
  datatype ModalState = ModalState(
    id: Option<string>,
    packageData: Option<PackageItem>,
    isSaving: bool,
    showConfirmation: bool,
    closed: Option<bool>)

  const Opened: ModalState := ModalState(None, None, false, false, None)

  /** `!id`: no id, or an empty one. */
  predicate HasId(s: ModalState)
  {
    s.id.Some? && s.id.value != ""
  }

  /**
   * The state observer: an empty id is ignored; otherwise the id is kept
   * and the record is the package fetched for it (`None` when none).
   */
  function Observed(s: ModalState, paramId: string, fetched: Option<PackageItem>): ModalState
  {
    if paramId == "" then s else s.(id := Some(paramId), packageData := fetched)
  }

  function SaveClicked(s: ModalState): ModalState
  {
    s.(showConfirmation := true)
  }

  function SaveCancelled(s: ModalState): ModalState
  {
    s.(showConfirmation := false)
  }

  /** `handleConfirmSave` up to the store call: nothing happens without an id. */
  function ConfirmStarted(s: ModalState): ModalState
  {
    if HasId(s) then s.(isSaving := true) else s
  }

  /** The `finally` of `handleConfirmSave`: closes with `saved: true` only when the store accepted the patch. */
  function ConfirmFinished(s: ModalState, stored: bool): ModalState
  {
    s.(isSaving := false, closed := if stored then Some(true) else s.closed)
  }

  /**
   * Confirming without an id does nothing. Otherwise the saving flag is up
   * while the patch runs and down afterwards; the dialog closes as saved
   * only when the store accepted the patch, and stays open otherwise.
   */
  lemma ConfirmSaveSpec(s: ModalState, stored: bool)
    ensures !HasId(s) ==> ConfirmStarted(s) == s
    ensures HasId(s) ==> ConfirmStarted(s).isSaving
    ensures var t := ConfirmFinished(ConfirmStarted(s), stored);
      && (HasId(s) ==> !t.isSaving)
      && (HasId(s) && stored ==> t.closed == Some(true))
      && (!stored ==> t.closed == s.closed)
      && t.packageData == s.packageData && t.showConfirmation == s.showConfirmation && t.id == s.id
  {
  }

  /** Save only opens the confirmation step and cancel only closes it; cancel undoes save. */
  lemma ConfirmationToggleSpec(s: ModalState)
    ensures SaveClicked(s).showConfirmation && !SaveCancelled(s).showConfirmation
    ensures SaveClicked(s).(showConfirmation := s.showConfirmation) == s
    ensures SaveCancelled(SaveClicked(s)) == SaveCancelled(s)
  {
  }

  // ---------------------------------------------------------------------
  // The dialog
  // ---------------------------------------------------------------------

  class Modal {
    var id: Option<string>
    var packageData: Option<PackageItem>
    var isSaving: bool
    var showConfirmation: bool
    var closed: Option<bool>

    function Cells(): ModalState
      reads this
    {
      ModalState(id, packageData, isSaving, showConfirmation, closed)
    }

    constructor ()
      ensures Cells() == Opened
    {
      id := None;
      packageData := None;
      isSaving := false;
      showConfirmation := false;
      closed := None;
    }

    method OnObservedState(paramId: string, fetched: Option<PackageItem>)
      modifies this
      ensures Cells() == Observed(old(Cells()), paramId, fetched)
    {
      if paramId == "" {
        return;
      }
      id := Some(paramId);
      packageData := fetched;
    }

    method OnSessionCountChange(value: Option<int>)
      modifies this
      ensures Cells() == old(Cells()).(packageData := WithSessionCount(old(packageData), value))
    {
      packageData := WithSessionCount(packageData, value);
    }

    method OnSessionPriceChange(value: Option<int>)
      modifies this
      ensures Cells() == old(Cells()).(packageData := WithSessionPrice(old(packageData), value))
    {
      packageData := WithSessionPrice(packageData, value);
    }

    method OnValidityChange(value: Option<int>)
      modifies this
      ensures Cells() == old(Cells()).(packageData := WithValidity(old(packageData), value))
    {
      packageData := WithValidity(packageData, value);
    }

    method OnTypeChange(value: string)
      modifies this
      ensures Cells() == old(Cells()).(packageData := WithType(old(packageData), value))
    {
      packageData := WithType(packageData, value);
    }

    method HandleClickSave()
      modifies this
      ensures Cells() == SaveClicked(old(Cells()))
    {
      showConfirmation := true;
    }

    method HandleCancelSave()
      modifies this
      ensures Cells() == SaveCancelled(old(Cells()))
    {
      showConfirmation := false;
    }

    /**
     * `handleConfirmSave`, split at its `await`: this part returns the
     * record to write, or `None` when there is no id and nothing is sent.
     */
    method BeginConfirmSave() returns (toWrite: Option<Option<PackageItem>>)
      modifies this
      ensures Cells() == ConfirmStarted(old(Cells()))
      ensures toWrite.Some? <==> HasId(old(Cells()))
      ensures toWrite.Some? ==> toWrite.value == packageData
    {
      if id.None? || id.value == "" {
        return None;
      }
      isSaving := true;
      toWrite := Some(packageData);
    }

    /** The rest of `handleConfirmSave`, once the store has answered. */
    method FinishConfirmSave(stored: bool)
      modifies this
      ensures Cells() == ConfirmFinished(old(Cells()), stored)
    {
      if stored {
        closed := Some(true);
      }
      isSaving := false;
    }
  }
}
