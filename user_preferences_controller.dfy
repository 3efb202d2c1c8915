/** The user-preferences endpoints: settings lookup, update, deletion and the stored location. */
module UserPreferencesController {
  import opened Values
  import opened Entities
  import opened Http

  /** The map zoom sent with a user's location. */
  const LocationZoom: int := 13

  const PreferencesNotFound := "User Preferences not found"
  const UnauthorizedUser := "Unauthorized user"
  const NotAuthenticated := "User not authenticated"
  const LocationNotFoundPrefix := "User location not found for piUID: "
  const PreferencesDeleted := "User Preferences deleted successfully"
  const GetPreferencesError := "An error occurred while getting user preferences; please try again later"
  const AddPreferencesError := "An error occurred while adding or updating user preferences; please try again later"
  const DeletePreferencesError := "An error occurred while deleting user preferences; please try again later"
  const GetLocationError := "An error occurred while getting user location; please try again later"

  /** `getUserPreferences`: 404 when the settings are null, 200 with them otherwise. */
  function GetUserPreferences(user_settings_id: string, getUserSettingsById: string -> Outcome<Option<UserSettings>>): (h: Handled)
    ensures Consistent(h)
    ensures h.calls == [GetUserSettingsByIdCall(user_settings_id)]
    ensures var found := getUserSettingsById(user_settings_id);
            && (h.response.status == 500 <==> found.Threw?)
            && (h.response.status == 404 <==> found == Returned(None))
            && (h.response.status == 404 ==> h.response.body == Message(PreferencesNotFound))
            && (h.response.status == 200 ==> found.Returned? && found.value.Some? && h.response.body == Settings(found.value.value))
  {
    var calls := [GetUserSettingsByIdCall(user_settings_id)];
    match getUserSettingsById(user_settings_id)
    case Threw(_) => Handled(Reply(500, Message(GetPreferencesError)), calls)
    case Returned(None) => Handled(Reply(404, Message(PreferencesNotFound)), calls)
    case Returned(Some(settings)) => Handled(Reply(200, Settings(settings)), calls)
  }

  /** `fetchUserPreferences`: the request's settings, present only with a current user as well. */
  function FetchUserPreferences(currentUser: Option<User>, currentUserSettings: Option<UserSettings>): (h: Handled)
    ensures Consistent(h)
    ensures h.calls == []
    ensures h.response.status == 404 <==> currentUser.None? || currentUserSettings.None?
    ensures h.response.status == 404 ==> h.response.body == Message(PreferencesNotFound)
    ensures h.response.status != 404 ==> h.response == Reply(200, Settings(currentUserSettings.value))
  {
    if currentUser.None? || currentUserSettings.None? then Handled(Reply(404, Message(PreferencesNotFound)), [])
    else Handled(Reply(200, Settings(currentUserSettings.value)), [])
  }

  /** `addUserPreferences`: 401 without a call when unauthenticated; the image is the upload's URL or ''. */
  function AddUserPreferences(currentUser: Option<User>, form: FormData, file: Option<UploadedFile>,
                              addOrUpdateUserSettings: (User, FormData, string) -> Outcome<Option<UserSettings>>): (h: Handled)
    ensures Consistent(h)
    ensures currentUser.None? ==> h == Handled(Reply(401, Message(UnauthorizedUser)), [])
    ensures currentUser.Some? ==>
              var u := currentUser.value;
              var saved := addOrUpdateUserSettings(u, form, ImageRef(file));
              && h.calls == [AddOrUpdateUserSettingsCall(u, form, ImageRef(file))]
              && (saved.Returned? ==> h.response == Reply(200, SettingsSaved(saved.value)))
              && (saved.Threw? ==> h.response == Reply(500, Message(AddPreferencesError)))
  {
    match currentUser
    case None => Handled(Reply(401, Message(UnauthorizedUser)), [])
    case Some(u) =>
      var image := ImageRef(file);
      var calls := [AddOrUpdateUserSettingsCall(u, form, image)];
      match addOrUpdateUserSettings(u, form, image)
      case Threw(_) => Handled(Reply(500, Message(AddPreferencesError)), calls)
      case Returned(settings) => Handled(Reply(200, SettingsSaved(settings)), calls)
  }

  /** `deleteUserPreferences`: 200 with the deleted settings (possibly null) unless the service throws. */
  function DeleteUserPreferences(user_settings_id: string, deleteUserSettings: string -> Outcome<Option<UserSettings>>): (h: Handled)
    ensures Consistent(h)
    ensures h.calls == [DeleteUserSettingsCall(user_settings_id)]
    ensures var deleted := deleteUserSettings(user_settings_id);
            && (h.response.status == 500 <==> deleted.Threw?)
            && (deleted.Returned? ==> h.response == Reply(200, SettingsDeleted(PreferencesDeleted, deleted.value)))
  {
    var calls := [DeleteUserSettingsCall(user_settings_id)];
    match deleteUserSettings(user_settings_id)
    case Threw(_) => Handled(Reply(500, Message(DeletePreferencesError)), calls)
    case Returned(deleted) => Handled(Reply(200, SettingsDeleted(PreferencesDeleted, deleted)), calls)
  }

  /** `!authUser?.pi_uid`: no user, or a user whose id is the empty string. */
  predicate HasIdentity(currentUser: Option<User>)
  {
    currentUser.Some? && currentUser.value.pi_uid != ""
  }

  /** `getUserLocation`: 401 without an id, 404 without a stored location, else `{origin, zoom: 13}`. */
  function GetUserLocation(currentUser: Option<User>, userLocation: string -> Outcome<Option<LatLng>>): (h: Handled)
    ensures Consistent(h)
    ensures !HasIdentity(currentUser) ==> h == Handled(Reply(401, Message(NotAuthenticated)), [])
    ensures HasIdentity(currentUser) ==>
              var uid := currentUser.value.pi_uid;
              var found := userLocation(uid);
              && h.calls == [UserLocationCall(uid)]
              && (h.response.status == 500 <==> found.Threw?)
              && (found == Returned(None) ==> h.response == Reply(404, Message(LocationNotFoundPrefix + uid)))
              && (found.Returned? && found.value.Some? ==> h.response == Reply(200, Location(found.value.value, LocationZoom)))
  {
    if !HasIdentity(currentUser) then Handled(Reply(401, Message(NotAuthenticated)), [])
    else
      var uid := currentUser.value.pi_uid;
      var calls := [UserLocationCall(uid)];
      match userLocation(uid)
      case Threw(_) => Handled(Reply(500, Message(GetLocationError)), calls)
      case Returned(None) => Handled(Reply(404, Message(LocationNotFoundPrefix + uid)), calls)
      case Returned(Some(location)) => Handled(Reply(200, Location(location, LocationZoom)), calls)
  }
}
