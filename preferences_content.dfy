/** The preference screen rendered from server data
    (app/preferences/preferences-content.tsx). Its state is the category
    list, the user's subscriptions and a loading flag. A handler's request to
    the preference API is represented by the reply it gets; a reply that is not
    2xx, like a request that throws, leaves the list as it was. */
module PreferencesContentScreen {
  import opened Common
  import opened Schema
  import opened Store
  import opened CategoryTree

  class PreferencesContent {
    var categories: seq<Category>
    var preferences: seq<ArtPreference>
    var loading: bool

    constructor (initialCategories: seq<Category>, initialPreferences: seq<ArtPreference>)
      ensures categories == initialCategories && preferences == initialPreferences && !loading
    {
      categories := initialCategories;
      preferences := initialPreferences;
      loading := false;
    }

    /** `handleAddPreference`: on a 2xx reply the new subscription is appended. */
    method HandleAddPreference(reply: Response<ArtPreference>)
      modifies this
      ensures categories == old(categories) && !loading
      ensures IsOk(reply) ==> preferences == old(preferences) + [reply.body]
      ensures !IsOk(reply) ==> preferences == old(preferences)
    {
      loading := true;
      if IsOk(reply) {
        preferences := preferences + [reply.body];
      }
      loading := false;
    }

    /** `handleRemovePreference`: on a 2xx reply every subscription with that id is dropped. */
    method HandleRemovePreference(preferenceId: Id, reply: Response<bool>)
      modifies this
      ensures categories == old(categories) && !loading
      ensures IsOk(reply) ==> preferences == WithoutPreference(old(preferences), preferenceId)
      ensures !IsOk(reply) ==> preferences == old(preferences)
    {
      loading := true;
      if IsOk(reply) {
        preferences := WithoutPreference(preferences, preferenceId);
      }
      loading := false;
    }

    /** The button of a subcategory: a selected one is removed through the first
        subscription to it, an unselected one is added. */
    method ToggleSubcategory(subcategoryId: Id, addReply: Response<ArtPreference>, removeReply: Response<bool>)
      modifies this
      ensures categories == old(categories) && !loading
      ensures IsSelected(old(preferences), subcategoryId) ==>
        var first := FindByCategory(old(preferences), subcategoryId);
        first.Some? && preferences == (if IsOk(removeReply) then WithoutPreference(old(preferences), first.value.id)
                                       else old(preferences))
      ensures !IsSelected(old(preferences), subcategoryId) ==>
        preferences == (if IsOk(addReply) then old(preferences) + [addReply.body] else old(preferences))
    {
      FindByCategorySpec(preferences, subcategoryId);
      if IsSelected(preferences, subcategoryId) {
        var first := FindByCategory(preferences, subcategoryId);
        HandleRemovePreference(first.value.id, removeReply);
      } else {
        HandleAddPreference(addReply);
      }
    }
  }
}
