/**
 * The reason catalogue's administration page: the catalogue grouped by
 * category, and the add, edit, cancel and delete transitions of its one form.
 */
module ReasonManagement {
  import opened Wrappers
  import opened Seqs
  import opened Types
  import ReasonGroups
  import AppContext

  /** The two inputs of the form. */
  datatype ReasonFields = ReasonFields(category: string, subcategory: string)

  const EmptyFields := ReasonFields("", "")

  /** `if (isEditing)`: the id being edited, when it is set and not empty. */
  function EditingId(isEditing: Option<string>): Option<string> {
    if isEditing.Some? && isEditing.value != "" then isEditing else None
  }

  /**
   * The list shows its empty-catalogue message exactly when the catalogue is
   * empty: every reason brings its category in as a group.
   */
  lemma NoGroupsIffNoReasons(reasons: seq<Reason>)
    ensures |ReasonGroups.Grouped(reasons)| == 0 <==> |reasons| == 0
  {
    ReasonGroups.GroupedSpec(reasons);
    var groups := ReasonGroups.Grouped(reasons);
    if |reasons| > 0 {
      assert reasons[0].category in groups;
    } else {
      assert groups == map[];
    }
  }

  class ReasonManager {
    var isAdding: bool
    var isEditing: Option<string>
    var showDeleteConfirm: Option<string>
    var formData: ReasonFields

    /** The page is never adding and editing at once. */
    ghost predicate Valid()
      reads this`isAdding, this`isEditing
    {
      !(isAdding && isEditing.Some?)
    }

    /** `(isAdding || isEditing)`: the form is open. */
    predicate FormShown()
      reads this`isAdding, this`isEditing
    {
      isAdding || EditingId(isEditing).Some?
    }

    constructor()
      ensures !isAdding && isEditing.None? && showDeleteConfirm.None? && formData == EmptyFields
      ensures Valid() && !FormShown()
    {
      isAdding := false;
      isEditing := None;
      showDeleteConfirm := None;
      formData := EmptyFields;
    }

    /** The "Add New Reason" button: an empty form in adding mode. */
    method StartAdding()
      modifies this`isAdding, this`isEditing, this`formData
      ensures isAdding && isEditing.None? && formData == EmptyFields
      ensures Valid() && FormShown()
    {
      isAdding := true;
      isEditing := None;
      formData := EmptyFields;
    }

    /** `handleEdit`: the reason's fields in the form, editing its id, not adding. */
    method HandleEdit(reason: Reason)
      modifies this`isAdding, this`isEditing, this`formData
      ensures formData == ReasonFields(reason.category, reason.subcategory)
      ensures isEditing == Some(reason.id) && !isAdding
      ensures Valid()
    {
      formData := ReasonFields(reason.category, reason.subcategory);
      isEditing := Some(reason.id);
      isAdding := false;
    }

    /**
     * `handleSubmit`: in edit mode the reason with the editing id takes the
     * form's fields and editing ends; otherwise the fields are added as a new
     * reason and adding ends. Either way the form is emptied and closes.
     */
    method HandleSubmit(store: AppContext.Store, newId: string)
      requires Valid() && store.Valid()
      modifies this`isAdding, this`isEditing, this`formData, store`reasons
      ensures EditingId(old(isEditing)).Some? ==>
                var id := EditingId(old(isEditing)).value;
                && store.reasons == ReplaceWhere(old(store.reasons), ReasonHasId(id),
                                                 Reason(id, old(formData).category, old(formData).subcategory))
                && isEditing.None? && isAdding == old(isAdding)
      ensures EditingId(old(isEditing)).None? ==>
                && store.reasons == old(store.reasons) + [Reason(newId, old(formData).category, old(formData).subcategory)]
                && !isAdding && isEditing == old(isEditing)
      ensures formData == EmptyFields
      ensures Valid() && !FormShown() && store.Valid()
    {
      if isEditing.Some? && isEditing.value != "" {
        store.UpdateReason(Reason(isEditing.value, formData.category, formData.subcategory));
        isEditing := None;
      } else {
        store.AddReason(Reason("", formData.category, formData.subcategory), newId);
        isAdding := false;
      }
      formData := EmptyFields;
    }

    /** The form's Cancel button: neither adding nor editing, and an empty form. */
    method Cancel()
      modifies this`isAdding, this`isEditing, this`formData
      ensures !isAdding && isEditing.None? && formData == EmptyFields
      ensures Valid() && !FormShown()
    {
      isAdding := false;
      isEditing := None;
      formData := EmptyFields;
    }

    /** `cancelEdit`: editing ends and the form is emptied; adding is left as it was. */
    method CancelEdit()
      requires Valid()
      modifies this`isEditing, this`formData
      ensures isEditing.None? && formData == EmptyFields
      ensures Valid() && (FormShown() <==> isAdding)
    {
      isEditing := None;
      formData := EmptyFields;
    }

    /** A delete button: the confirmation opens for that reason. */
    method AskDelete(id: string)
      modifies this`showDeleteConfirm
      ensures showDeleteConfirm == Some(id)
    {
      showDeleteConfirm := Some(id);
    }

    /** The confirmation's Cancel button. */
    method DismissDelete()
      modifies this`showDeleteConfirm
      ensures showDeleteConfirm.None?
    {
      showDeleteConfirm := None;
    }

    /** `handleDelete`: every reason with the id leaves the catalogue and the confirmation closes. */
    method HandleDelete(store: AppContext.Store, id: string)
      requires store.Valid()
      modifies this`showDeleteConfirm, store`reasons
      ensures store.reasons == Filter(old(store.reasons), Negate(ReasonHasId(id)))
      ensures forall k :: 0 <= k < |store.reasons| ==> store.reasons[k].id != id
      ensures showDeleteConfirm.None? && store.Valid()
    {
      store.DeleteReason(id);
      showDeleteConfirm := None;
    }
  }
}
