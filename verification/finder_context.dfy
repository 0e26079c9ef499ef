/**
 * The finder modal's open/close state (src/contexts/FinderModalContext.jsx):
 * whether the modal is shown, which posting it is about, and the clears of
 * the selected posting that `closeFinder` defers by 200 ms. The timer is an
 * explicit pending event: `CloseFinder` queues one, `FireDeferredClear`
 * delivers one.
 */
module FinderContext {
  import opened Common
  import opened Listing

  class FinderModalContext {
    var showFinderModal: bool
    var selectedItem: Option<Item>
    /** Deferred `setSelectedItem(null)` calls scheduled and not yet run. */
    var pendingClears: nat

    constructor ()
      ensures !showFinderModal && selectedItem == None && pendingClears == 0
    {
      showFinderModal := false;
      selectedItem := None;
      pendingClears := 0;
    }

    /** `openFinder(item)`: selects the posting and shows the modal; queued clears stay queued. */
    method OpenFinder(item: Item)
      modifies this
      ensures selectedItem == Some(item) && showFinderModal
      ensures pendingClears == old(pendingClears)
    {
      selectedItem := Some(item);
      showFinderModal := true;
    }

    /** `closeFinder()`: hides the modal at once and queues the clear of the selection. */
    method CloseFinder()
      modifies this
      ensures !showFinderModal
      ensures selectedItem == old(selectedItem)
      ensures pendingClears == old(pendingClears) + 1
    {
      showFinderModal := false;
      pendingClears := pendingClears + 1;
    }

    /**
     * The 200 ms timer of an earlier `closeFinder` firing: the selection is
     * cleared whatever happened since, even if `openFinder` ran in between.
     */
    method FireDeferredClear()
      requires pendingClears > 0
      modifies this
      ensures selectedItem == None
      ensures showFinderModal == old(showFinderModal)
      ensures pendingClears == old(pendingClears) - 1
    {
      selectedItem := None;
      pendingClears := pendingClears - 1;
    }
  }

  /** `useFinderModal`: throws when no provider value is present. */
  function UseFinderModal<V>(context: Option<V>): (r: Result<V, string>)
    ensures r.Success? <==> context.Some?
    ensures r.Success? ==> r.value == context.value
    ensures r.Failure? ==> r.error == "useFinderModal must be used inside FinderModalProvider"
  {
    match context
    case Some(v) => Success(v)
    case None => Failure("useFinderModal must be used inside FinderModalProvider")
  }
}
