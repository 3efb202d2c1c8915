/**
 * What a request handler produces: the status and JSON body it answers with, the cookie it
 * sets, and the service calls it made on the way (in order, with their arguments).
 */
module Http {
  import opened Values
  import opened Entities

  datatype Cookie = Cookie(name: string, value: string, httpOnly: bool, expires: int, secure: bool, priority: string, sameSite: string)

  /** Whatever `userService.deleteUser` returned, passed through to the client unchanged. */
  datatype DeletedData = DeletedData(summary: string)

  /** The JSON bodies the handlers send. */
  datatype Body =
    | Message(message: string)
    | ErrorMessage(error: string)
    | SellerList(sellers: seq<SellerWithSettings>)
    | Profile(profile: SellerProfile)
    | SellerRecord(seller: Seller)
    | Registered(registered: Seller, email: Js<string>, phone_number: Js<string>)
    | SellerDeleted(message: string, deletedSeller: Option<Seller>)
    | Reviews(reviews: Option<seq<ReviewFeedback>>)
    | Review(review: ReviewFeedback)
    | NewReview(newReview: ReviewFeedback)
    | CurrentUser(current: Option<User>)
    | UserRecord(record: User)
    | Authenticated(authenticated: User, token: string)
    | UserDeleted(message: string, deletedData: DeletedData)
    | Settings(settings: UserSettings)
    | SettingsSaved(saved: Option<UserSettings>)
    | SettingsDeleted(message: string, deletedUserSettings: Option<UserSettings>)
    | Location(origin: LatLng, zoom: int)

  datatype Response = Response(status: int, body: Body, cookie: Option<Cookie>)

  /** A service call a handler made, with the arguments it passed. */
  datatype Call =
    | GetAllSellersCall(origin: Option<LatLng>, radius: Option<real>, search_query: Option<string>)
    | GetSingleSellerByIdCall(seller_id: string)
    | RegisterOrUpdateSellerCall(user: User, form: FormData, image: string)
    | AddOrUpdateUserSettingsCall(user: User, form: FormData, image: string)
    | DeleteSellerCall(maybe_id: Option<string>)
    | GetReviewFeedbackCall(review_receiver_id: string, searchQuery: Option<string>)
    | GetReviewFeedbackByIdCall(review_id: string)
    | AddReviewFeedbackCall(user: User, form: FormData, image: string)
    | AuthenticateCall(piUser: Option<PiUser>)
    | GenerateUserTokenCall(tokenUser: Option<User>)
    | GetUserCall(pi_uid: string)
    | DeleteUserCall(pi_uid: string)
    | GetUserSettingsByIdCall(user_settings_id: string)
    | DeleteUserSettingsCall(user_settings_id: string)
    | UserLocationCall(pi_uid: string)

  datatype Handled = Handled(response: Response, calls: seq<Call>)

  /** `res.status(status).json(body)` without a cookie. */
  function Reply(status: int, body: Body): (r: Response)
    ensures r.status == status && r.body == body && r.cookie.None?
  {
    Response(status, body, None)
  }

  const TryAgainLater := "; please try again later"

  predicate EndsWith(s: string, suffix: string)
  {
    |suffix| <= |s| && s[|s| - |suffix|..] == suffix
  }

  predicate IsMessage(b: Body)
  {
    b.Message? || b.ErrorMessage?
  }

  /**
   * The conventions every handler keeps: a known status; a plain message exactly when the
   * status is not 200; a 500 only after a service call, with a "try again later" message;
   * a 400, 401 or 403 only before any service is called; a cookie only on success.
   */
  predicate Consistent(h: Handled)
  {
    var r := h.response;
    && r.status in {200, 400, 401, 403, 404, 500}
    && (r.status == 200 <==> !IsMessage(r.body))
    && (r.status == 500 ==> r.body.Message? && EndsWith(r.body.message, TryAgainLater) && h.calls != [])
    && (r.status in {400, 401, 403} ==> h.calls == [])
    && (r.cookie.Some? ==> r.status == 200)
  }
}
