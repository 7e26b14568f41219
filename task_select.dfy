/**
 * The task picker of script.js: a name held outside the store, which
 * `renderTaskSelect` clears whenever the pending list no longer contains it.
 */
module TaskSelect {
  import opened Wrappers
  import opened TaskStore

  /**
   * The reconciliation rule: the selection survives exactly when it is one of
   * the pending names; otherwise it becomes unselected.
   */
  function Reconciled(selected: Option<string>, pending: seq<string>): (r: Option<string>)
    ensures r.Some? ==> r.value in pending
    ensures r.Some? ==> r == selected
    ensures selected.Some? && selected.value in pending ==> r == selected
  {
    if selected.Some? && selected.value !in pending then None else selected
  }

  /** Reconciling twice is the same as reconciling once. */
  lemma ReconciledIdempotent(selected: Option<string>, pending: seq<string>)
    ensures Reconciled(Reconciled(selected, pending), pending) == Reconciled(selected, pending)
  {
  }

  /**
   * With distinct task names, marking the selected task done or deleting it
   * makes the next render unselect it.
   */
  lemma SelectionClearedByDoneOrDel(ts: seq<Task>, n: string)
    requires DistinctNames(ts)
    requires FindIndex(ts, n) >= 0
    ensures Reconciled(Some(n), Pending(MarkFirstDone(ts, n))) == None
    ensures Reconciled(Some(n), Pending(RemoveFirst(ts, n))) == None
  {
    DistinctDoneDel(ts, n);
  }

  /** The module-level `selectedTaskName` variable. */
  class Picker {
    var selectedTaskName: Option<string>

    constructor ()
      ensures selectedTaskName == None
    {
      selectedTaskName := None;
    }

    /** The state update `renderTaskSelect` makes before redrawing the options. */
    method RenderTaskSelect(store: Store)
      modifies this
      ensures selectedTaskName == Reconciled(old(selectedTaskName), store.List())
      ensures selectedTaskName.Some? ==> selectedTaskName.value in store.List()
    {
      var taskNames := store.List();
      if selectedTaskName.Some? && selectedTaskName.value !in taskNames {
        selectedTaskName := None;
      }
    }
  }
}
