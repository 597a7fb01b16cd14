/**
 * The edit page (src/pages/Edit.tsx): the route's id selects an entry whose
 * fields fill the form; an id that finds nothing sends the browser back to the
 * list; a submit that passes the required-field check updates that entry.
 */
module Edit {
  import opened Types
  import opened Store
  import opened Form

  /**
   * Loading an entry and submitting its form unchanged only refreshes that
   * entry's update time, when identifiers are distinct.
   */
  lemma {:induction false} ResubmitOnlyTouchesUpdatedAt(cs: seq<Collection>, id: string, now: Time)
    requires DistinctIds(cs) && HasId(cs, id)
    ensures |UpdateWhere(cs, id, FormOf(Find(cs, id).value), now)| == |cs|
    ensures forall i :: 0 <= i < |cs| ==>
      UpdateWhere(cs, id, FormOf(Find(cs, id).value), now)[i] ==
      if cs[i].id == id then cs[i].(updatedAt := now) else cs[i]
  {
    var found := Find(cs, id).value;
    var k :| 0 <= k < |cs| && cs[k] == found && found.id == id && forall j :: 0 <= j < k ==> cs[j].id != id;
    assert forall i :: 0 <= i < |cs| && cs[i].id == id ==> i == k;
    forall i | 0 <= i < |cs| && cs[i].id == id
      ensures Apply(cs[i], FormOf(found), now) == cs[i].(updatedAt := now)
    {
      ApplyOwnForm(cs[i], now);
    }
  }

  /** The edit page's state: the store, the route's id, the form, and the submitting flag. */
  class EditPage {
    const store: CollectionStore
    const id: Option<string>
    var formData: CollectionFormData
    var isSubmitting: bool

    /** The page opens with the same empty form as the create page. */
    constructor (store: CollectionStore, id: Option<string>)
      ensures this.store == store && this.id == id
      ensures formData == InitialFormData() && !isSubmitting
    {
      this.store := store;
      this.id := id;
      formData := CollectionFormData("", Video, "", "", "", "");
      isSubmitting := false;
    }

    /**
     * The loading effect. With an id that finds an entry, the form takes exactly
     * that entry's six form fields; with an id that finds nothing, the form is
     * left alone and the browser goes to the list; with no id, nothing happens.
     */
    method Load() returns (nav: Navigation)
      modifies this
      ensures isSubmitting == old(isSubmitting)
      ensures !Truthy(id) ==> nav == Stay && formData == old(formData)
      ensures Truthy(id) && HasId(store.collections, id.value) ==>
        nav == Stay && formData == FormOf(Find(store.collections, id.value).value)
      ensures Truthy(id) && !HasId(store.collections, id.value) ==>
        nav == NavigateTo(CollectionsPath) && formData == old(formData)
    {
      nav := Stay;
      if Truthy(id) {
        var collection := store.GetCollection(id.value);
        if collection.Some? {
          var c := collection.value;
          formData := CollectionFormData(c.title, c.category, c.link, c.summary, c.coverImage, c.speaker);
        } else {
          nav := NavigateTo(CollectionsPath);
        }
      }
    }

    /** `handleChange`: one text field takes the typed value. */
    method HandleChange(f: TextField, value: string)
      modifies this
      ensures formData == SetField(old(formData), f, value) && isSubmitting == old(isSubmitting)
    {
      formData := SetField(formData, f, value);
    }

    /** `handleCategoryChange`: the category takes the chosen value. */
    method HandleCategoryChange(k: Category)
      modifies this
      ensures formData == SetCategory(old(formData), k) && isSubmitting == old(isSubmitting)
    {
      formData := SetCategory(formData, k);
    }

    /**
     * `handleSubmit` at time `now`. An incomplete form, or a page without an id,
     * leaves the store alone and stays; otherwise the store's update runs once
     * with the route's id and the form, and the browser goes to the list. Either
     * way the page is no longer submitting afterwards and the form is as it was.
     */
    method HandleSubmit(now: Time) returns (nav: Navigation)
      modifies this, store
      ensures !isSubmitting && formData == old(formData)
      ensures !IsComplete(old(formData)) || !Truthy(id) ==>
        nav == Stay && store.collections == old(store.collections)
      ensures IsComplete(old(formData)) && Truthy(id) ==>
        nav == NavigateTo(CollectionsPath) &&
        store.collections == UpdateWhere(old(store.collections), id.value, old(formData), now)
    {
      isSubmitting := true;
      if !IsComplete(formData) {
        isSubmitting := false;
        return Stay;
      }
      nav := Stay;
      if Truthy(id) {
        store.UpdateCollection(id.value, formData, now);
        nav := NavigateTo(CollectionsPath);
      }
      isSubmitting := false;
    }
  }
}
