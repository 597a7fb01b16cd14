/**
 * The create page (src/pages/Create.tsx): a form that starts empty, is edited
 * one field at a time, and on a submit that passes the required-field check
 * adds an entry to the store and goes to the list.
 */
module Create {
  import opened Types
  import opened Store
  import opened Form

  /** The create page's state: the store it adds to, the form, and the submitting flag. */
  class CreatePage {
    const store: CollectionStore
    var formData: CollectionFormData
    var isSubmitting: bool

    /** The page opens with the initial form. */
    constructor (store: CollectionStore)
      ensures this.store == store && formData == InitialFormData() && !isSubmitting
    {
      this.store := store;
      formData := InitialFormData();
      isSubmitting := false;
    }

    /** `handleChange`: one text field takes the typed value. */
    method HandleChange(f: TextField, value: string)
      modifies this
      ensures formData == SetField(old(formData), f, value) && isSubmitting == old(isSubmitting)
    {
      formData := SetField(formData, f, value);
    }

    /** `handleCategoryChange`: the category takes the chosen value. */
    method HandleCategoryChange(k: Category)
      modifies this
      ensures formData == SetCategory(old(formData), k) && isSubmitting == old(isSubmitting)
    {
      formData := SetCategory(formData, k);
    }

    /**
     * `handleSubmit`, with `newId` the id generator's output and `now` the clock.
     * An incomplete form leaves the store alone and stays on the page; a complete
     * one is added unchanged and the page goes to the list. Either way the page
     * is no longer submitting afterwards and the form is as it was.
     */
    method HandleSubmit(newId: string, now: Time) returns (nav: Navigation)
      modifies this, store
      ensures !isSubmitting && formData == old(formData)
      ensures !IsComplete(old(formData)) ==> nav == Stay && store.collections == old(store.collections)
      ensures IsComplete(old(formData)) ==>
        nav == NavigateTo(CollectionsPath) &&
        store.collections == [NewCollection(old(formData), newId, now)] + old(store.collections)
    {
      isSubmitting := true;
      if !IsComplete(formData) {
        isSubmitting := false;
        return Stay;
      }
      var _ := store.AddCollection(formData, newId, now);
      nav := NavigateTo(CollectionsPath);
      isSubmitting := false;
    }
  }
}
