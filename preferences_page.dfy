/** The preference screen that loads its own data (app/preferences/page.tsx):
    the same list rules as the server-rendered screen, with no loading flag
    around the handlers, and an initial load that needs a session. Replies of
    the category and preference APIs are parameters. */
module PreferencesPageScreen {
  import opened Common
  import opened Schema
  import opened Store
  import opened CategoryTree

  class PreferencesPage {
    var categories: seq<Category>
    var preferences: seq<ArtPreference>
    var loading: bool

    constructor ()
      ensures categories == [] && preferences == [] && loading
    {
      categories, preferences, loading := [], [], true;
    }

    /** The effect on mount: without a session the user is sent to the login
        page and the screen stays loading; otherwise both lists are taken from
        the replies when both are 2xx, and loading ends either way. */
    method Load(hasSession: bool, categoriesReply: Response<seq<Category>>,
                preferencesReply: Response<seq<ArtPreference>>)
      returns (redirectToLogin: bool)
      modifies this
      ensures redirectToLogin <==> !hasSession
      ensures !hasSession ==> categories == old(categories) && preferences == old(preferences) && loading == old(loading)
      ensures hasSession ==> !loading
      ensures hasSession && IsOk(categoriesReply) && IsOk(preferencesReply) ==>
        categories == categoriesReply.body && preferences == preferencesReply.body
      ensures hasSession && !(IsOk(categoriesReply) && IsOk(preferencesReply)) ==>
        categories == old(categories) && preferences == old(preferences)
    {
      if !hasSession {
        return true;
      }
      redirectToLogin := false;
      if IsOk(categoriesReply) && IsOk(preferencesReply) {
        categories := categoriesReply.body;
        preferences := preferencesReply.body;
      }
      loading := false;
    }

    /** `handleAddPreference`: on a 2xx reply the new subscription is appended. */
    method HandleAddPreference(reply: Response<ArtPreference>)
      modifies this
      ensures categories == old(categories) && loading == old(loading)
      ensures IsOk(reply) ==> preferences == old(preferences) + [reply.body]
      ensures !IsOk(reply) ==> preferences == old(preferences)
    {
      if IsOk(reply) {
        preferences := preferences + [reply.body];
      }
    }

    /** `handleRemovePreference`: on a 2xx reply every subscription with that id is dropped. */
    method HandleRemovePreference(preferenceId: Id, reply: Response<bool>)
      modifies this
      ensures categories == old(categories) && loading == old(loading)
      ensures IsOk(reply) ==> preferences == WithoutPreference(old(preferences), preferenceId)
      ensures !IsOk(reply) ==> preferences == old(preferences)
    {
      if IsOk(reply) {
        preferences := WithoutPreference(preferences, preferenceId);
      }
    }

    /** The button of a subcategory: a selected one is removed through the first
        subscription to it, an unselected one is added. */
    method ToggleSubcategory(subcategoryId: Id, addReply: Response<ArtPreference>, removeReply: Response<bool>)
      modifies this
      ensures categories == old(categories) && loading == old(loading)
      ensures IsSelected(old(preferences), subcategoryId) ==>
        var first := FindByCategory(old(preferences), subcategoryId);
        first.Some? && preferences == (if IsOk(removeReply) then WithoutPreference(old(preferences), first.value.id)
                                       else old(preferences))
      ensures !IsSelected(old(preferences), subcategoryId) ==>
        preferences == (if IsOk(addReply) then old(preferences) + [addReply.body] else old(preferences))
    {
      FindByCategorySpec(preferences, subcategoryId);
      if IsSelected(preferences, subcategoryId) {
        var first := FindByCategory(preferences, subcategoryId);
        HandleRemovePreference(first.value.id, removeReply);
      } else {
        HandleAddPreference(addReply);
      }
    }
  }
}
