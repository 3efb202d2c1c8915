/**
 * The seller endpoints: each handler is a function of the authenticated user, the request
 * and the services it may call, returning the response and the calls it made.
 */
module SellerController {
  import opened Values
  import opened Entities
  import opened Http
  import SellerService

  const SellersNotFound := "Sellers not found"
  const SellerNotFound := "Seller not found"
  const RegistrationNotFound := "Seller registration not found"
  const NotAuthenticated := "User not authenticated"
  const SellerDeletedMessage := "Seller deleted successfully"
  const FetchSellersError := "An error occurred while fetching sellers; please try again later"
  const GetSingleSellerError := "An error occurred while getting single seller; please try again later"
  const RegisterSellerError := "An error occurred while registering seller; please try again later"
  const DeleteSellerError := "An error occurred while deleting seller; please try again later"

  /** `fetchSellersByCriteria`: 404 for a missing or empty result, the list otherwise. */
  function FetchSellersByCriteria(origin: Option<LatLng>, radius: Option<real>, search_query: Option<string>,
                                  getAllSellers: (Option<LatLng>, Option<real>, Option<string>) -> Outcome<Option<seq<SellerWithSettings>>>): (h: Handled)
    ensures Consistent(h)
    ensures h.calls == [GetAllSellersCall(origin, radius, search_query)]
    ensures var found := getAllSellers(origin, radius, search_query);
            && (h.response.status == 500 <==> found.Threw?)
            && (h.response.status == 404 <==> found.Returned? && (found.value.None? || found.value.value == []))
            && (h.response.status == 404 ==> h.response.body == Message(SellersNotFound))
            && (h.response.status == 200 ==> found.Returned? && found.value.Some? && found.value.value != [] &&
                                              h.response.body == SellerList(found.value.value))
  {
    var calls := [GetAllSellersCall(origin, radius, search_query)];
    match getAllSellers(origin, radius, search_query)
    case Threw(_) => Handled(Reply(500, Message(FetchSellersError)), calls)
    case Returned(None) => Handled(Reply(404, Message(SellersNotFound)), calls)
    case Returned(Some(sellers)) =>
      if |sellers| == 0 then Handled(Reply(404, Message(SellersNotFound)), calls)
      else Handled(Reply(200, SellerList(sellers)), calls)
  }

  /** `getSingleSeller`: 404 when the service yields null, the record otherwise. */
  function GetSingleSeller(seller_id: string, getSingleSellerById: string -> Outcome<Option<SellerProfile>>): (h: Handled)
    ensures Consistent(h)
    ensures h.calls == [GetSingleSellerByIdCall(seller_id)]
    ensures var found := getSingleSellerById(seller_id);
            && (h.response.status == 500 <==> found.Threw?)
            && (h.response.status == 404 <==> found == Returned(None))
            && (h.response.status == 404 ==> h.response.body == Message(SellerNotFound))
            && (h.response.status == 200 ==> found.Returned? && found.value.Some? && h.response.body == Profile(found.value.value))
  {
    var calls := [GetSingleSellerByIdCall(seller_id)];
    match getSingleSellerById(seller_id)
    case Threw(_) => Handled(Reply(500, Message(GetSingleSellerError)), calls)
    case Returned(None) => Handled(Reply(404, Message(SellerNotFound)), calls)
    case Returned(Some(profile)) => Handled(Reply(200, Profile(profile)), calls)
  }

  /** `fetchSellerRegistration`: the seller attached to the request, if there is a user and a seller. */
  function FetchSellerRegistration(currentUser: Option<User>, currentSeller: Option<Seller>): (h: Handled)
    ensures Consistent(h)
    ensures h.calls == []
    ensures h.response.status == 404 <==> currentUser.None? || currentSeller.None?
    ensures h.response.status == 404 ==> h.response.body == Message(RegistrationNotFound)
    ensures h.response.status != 404 ==> h.response == Reply(200, SellerRecord(currentSeller.value))
  {
    if currentUser.None? || currentSeller.None? then Handled(Reply(404, Message(RegistrationNotFound)), [])
    else Handled(Reply(200, SellerRecord(currentSeller.value)), [])
  }

  /**
   * `registerSeller`: 401 without calling anything when unauthenticated; otherwise the seller
   * upsert with the uploaded image, then the settings update with image '', and the seller
   * together with the updated settings' email and phone number.
   */
  function RegisterSeller(currentUser: Option<User>, form: FormData, file: Option<UploadedFile>,
                          registerOrUpdateSeller: (User, FormData, string) -> Outcome<Seller>,
                          addOrUpdateUserSettings: (User, FormData, string) -> Outcome<Option<UserSettings>>): (h: Handled)
    ensures Consistent(h)
    ensures currentUser.None? ==> h == Handled(Reply(401, ErrorMessage(NotAuthenticated)), [])
    ensures currentUser.Some? ==> |h.calls| >= 1 && h.calls[0] == RegisterOrUpdateSellerCall(currentUser.value, form, ImageRef(file))
    ensures h.response.status == 200 <==>
              && currentUser.Some?
              && registerOrUpdateSeller(currentUser.value, form, ImageRef(file)).Returned?
              && addOrUpdateUserSettings(currentUser.value, form, "").Returned?
              && addOrUpdateUserSettings(currentUser.value, form, "").value.Some?
    ensures currentUser.Some? && registerOrUpdateSeller(currentUser.value, form, ImageRef(file)).Returned? ==>
              h.calls == [RegisterOrUpdateSellerCall(currentUser.value, form, ImageRef(file)),
                          AddOrUpdateUserSettingsCall(currentUser.value, form, "")]
    ensures h.response.status == 200 ==>
              var u := currentUser.value;
              var seller := registerOrUpdateSeller(u, form, ImageRef(file)).value;
              var settings := addOrUpdateUserSettings(u, form, "").value.value;
              && h.calls == [RegisterOrUpdateSellerCall(u, form, ImageRef(file)), AddOrUpdateUserSettingsCall(u, form, "")]
              && h.response.body == Registered(seller, settings.email, settings.phone_number)
  {
    var image := ImageRef(file);
    match currentUser
    case None => Handled(Reply(401, ErrorMessage(NotAuthenticated)), [])
    case Some(u) =>
      var first := RegisterOrUpdateSellerCall(u, form, image);
      match registerOrUpdateSeller(u, form, image)
      case Threw(_) => Handled(Reply(500, Message(RegisterSellerError)), [first])
      case Returned(seller) =>
        var second := AddOrUpdateUserSettingsCall(u, form, "");
        match addOrUpdateUserSettings(u, form, "")
        case Threw(_) => Handled(Reply(500, Message(RegisterSellerError)), [first, second])
        case Returned(None) => Handled(Reply(500, Message(RegisterSellerError)), [first, second])
        case Returned(Some(settings)) =>
          Handled(Reply(200, Registered(seller, settings.email, settings.phone_number)), [first, second])
  }

  /** `deleteSeller`: 200 whenever the service does not throw, even when nothing was deleted. */
  function DeleteSeller(currentUser: Option<User>, deleteSeller: Option<string> -> Outcome<Option<Seller>>): (h: Handled)
    ensures Consistent(h)
    ensures var id := if currentUser.Some? then Some(currentUser.value.pi_uid) else None;
            && h.calls == [DeleteSellerCall(id)]
            && (h.response.status == 500 <==> deleteSeller(id).Threw?)
            && (deleteSeller(id).Returned? ==>
                  h.response == Reply(200, SellerDeleted(SellerDeletedMessage, deleteSeller(id).value)))
  {
    var id := if currentUser.Some? then Some(currentUser.value.pi_uid) else None;
    match deleteSeller(id)
    case Threw(_) => Handled(Reply(500, Message(DeleteSellerError)), [DeleteSellerCall(id)])
    case Returned(deleted) => Handled(Reply(200, SellerDeleted(SellerDeletedMessage, deleted)), [DeleteSellerCall(id)])
  }

  // ---------------------------------------------------------------------------
  // The handlers over the directory service
  // ---------------------------------------------------------------------------

  /**
   * Listing end to end: the endpoint answers 404 exactly when no stored seller is admitted
   * by the criteria, 500 exactly when the collection cannot be read, and otherwise lists
   * one enriched record per admitted seller.
   */
  lemma FetchSellersOverDirectory(docs: seq<Seller>, inactive: string, origin: Option<LatLng>, radius: Option<real>, search_query: Option<string>,
                                  within: (GeoPoint, LatLng, real) -> bool, matches: (string, string) -> bool,
                                  lookup: string -> SellerService.SettingsLookup, storeOk: bool)
    ensures var service := (o: Option<LatLng>, r: Option<real>, q: Option<string>) =>
              match SellerService.GetAllSellers(docs, inactive, o, r, q, within, matches, lookup, storeOk)
              case Threw(m) => Threw(m)
              case Returned(v) => Returned(Some(v));
            var h := FetchSellersByCriteria(origin, radius, search_query, service);
            var listed := SellerService.Listing(docs, SellerService.BuildCriteria(inactive, origin, radius, search_query), within, matches);
            && (h.response.status == 500 <==> !storeOk)
            && (h.response.status == 404 <==> storeOk && listed == [])
            && (h.response.status == 200 ==> h.response.body.SellerList? && |h.response.body.sellers| == |listed|)
  {
  }

  /** Single-seller end to end: 404 exactly when the seller, settings and user records are all absent. */
  lemma GetSingleSellerOverDirectory(sellers: map<string, Seller>, settings: map<string, UserSettings>, users: map<string, User>,
                                     seller_id: string, storeOk: bool)
    ensures var h := GetSingleSeller(seller_id, id => SellerService.GetSingleSellerById(sellers, settings, users, id, storeOk));
            && (h.response.status == 500 <==> !storeOk)
            && (h.response.status == 404 <==> storeOk && seller_id !in sellers && seller_id !in settings && seller_id !in users)
            && (h.response.status == 200 ==> h.response.body.Profile? &&
                                              h.response.body.profile.sellerShopInfo == SellerService.Lookup(sellers, seller_id))
  {
  }
}
