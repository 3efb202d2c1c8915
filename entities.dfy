/** The records the directory keeps: users, their settings, seller profiles, reviews and uploads. */
module Entities {
  import opened Values

  /** A GeoJSON point `{ type: 'Point', coordinates: [lng, lat] }`. */
  datatype GeoPoint = GeoPoint(lng: real, lat: real)

  /** The `{ lat, lng }` origin of a search or of a user's stored location. */
  datatype LatLng = LatLng(lat: real, lng: real)

  /** The point a seller gets when neither the form nor an existing profile gives one. */
  const OriginPoint: GeoPoint := GeoPoint(0.0, 0.0)

  /** The authenticated identity; `pi_uid` is also the seller id and the settings id. */
  datatype User = User(pi_uid: string, pi_username: string, user_name: string)

  /** A Pi SDK authentication result's user, as sent in the body of the login request. */
  datatype PiUser = PiUser(uid: string, username: string)

  /** Per-identity settings; every field may be missing or null in a stored document. */
  datatype UserSettings = UserSettings(
    user_settings_id: Js<string>,
    user_name: Js<string>,
    email: Js<string>,
    phone_number: Js<string>,
    image: Js<string>,
    findme: Js<string>,
    trust_meter_rating: Js<int>,
    search_map_center: Js<GeoPoint>)

  /**
   * The online-ordering preference as stored: a freshly created seller stores the boolean
   * `false`, the update path stores whatever `form || existing || ''` evaluates to.
   */
  datatype PrefValue = PrefText(text: string) | PrefFlag(flag: bool)

  predicate PrefTruthy(p: PrefValue)
  {
    match p
    case PrefText(t) => t != ""
    case PrefFlag(b) => b
  }

  /** A seller profile document, keyed by `seller_id`. */
  datatype Seller = Seller(
    seller_id: string,
    name: string,
    description: string,
    seller_type: string,
    image: string,
    address: string,
    sell_map_center: GeoPoint,
    order_online_enabled_pref: PrefValue,
    average_rating: real)

  /** A seller as listed: the seller document plus the fields merged in from its owner's settings. */
  datatype SellerWithSettings = SellerWithSettings(
    seller: Seller,
    trust_meter_rating: Js<int>,
    user_name: Js<string>,
    findme: Js<string>,
    email: Js<string>,
    phone_number: Js<string>)

  /** The three records that share one id, as returned by the single-seller lookup. */
  datatype SellerProfile = SellerProfile(
    sellerShopInfo: Option<Seller>,
    sellerSettings: Option<UserSettings>,
    sellerInfo: Option<User>)

  datatype ReviewFeedback = ReviewFeedback(
    review_id: string,
    review_receiver_id: string,
    review_giver_id: string,
    reply_to_review_id: Option<string>,
    rating: int,
    comment: string,
    image: string,
    review_date: string)

  /** A file accepted by the upload middleware: its client-side name and its public URL. */
  datatype UploadedFile = UploadedFile(originalname: string, location: string)

  /** A multipart request body: field name to text value. */
  type FormData = map<string, string>

  /** `formData[key]` read as a string in a truthiness test: a missing field is as falsy as ''. */
  function FormText(form: FormData, key: string): (r: string)
    ensures r != "" <==> key in form && form[key] != ""
    ensures key in form ==> r == form[key]
    ensures key !in form ==> r == ""
  {
    if key in form then form[key] else ""
  }

  /** `req.file ? req.file.location : ''`. */
  function ImageRef(file: Option<UploadedFile>): (r: string)
    ensures file.Some? ==> r == file.value.location
    ensures file.None? ==> r == ""
  {
    match file
    case Some(f) => f.location
    case None => ""
  }
}
