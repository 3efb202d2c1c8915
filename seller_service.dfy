/**
 * The seller directory service: the public listing (with each seller's settings merged in),
 * the three-record lookup by id, and register-or-update / delete on the Seller collection.
 *
 * Collaborators outside this module are inputs: whether the database call succeeds
 * (`storeOk`), the settings lookup per seller (`lookup`), MongoDB's spherical containment
 * test (`within`), its regular-expression match (`matches`) and `JSON.parse` (`parse`).
 */
module SellerService {
  import opened Values
  import opened Text
  import opened Entities

  /** `TrustMeterScale.ZERO`, the lowest trust-meter level. */
  const TrustMeterZero: int := 0

  /** The average rating every newly created seller starts with. */
  const NewSellerRating: real := 5.0

  const GetAllSellersFailed := "Failed to get all sellers; please try again later"
  const GetSingleSellerFailed := "Failed to get single seller; please try again later"
  const RegisterFailed := "Failed to register or update seller; please try again later"
  const DeleteFailed := "Failed to delete seller; please try again later"

  function Lookup(sellers: map<string, Seller>, id: string): (r: Option<Seller>)
    ensures r.Some? <==> id in sellers
    ensures r.Some? ==> r.value == sellers[id]
  {
    if id in sellers then Some(sellers[id]) else None
  }

  // ---------------------------------------------------------------------------
  // Settings enrichment (resolveSellerSettings)
  // ---------------------------------------------------------------------------

  /** What `getUserSettingsById` produced for one seller: its settings, null, or an exception. */
  type SettingsLookup = Outcome<Option<UserSettings>>

  /** The record a seller degrades to when its settings lookup throws. */
  function Fallback(s: Seller): (r: SellerWithSettings)
    ensures r.seller == s && r.trust_meter_rating == Val(TrustMeterZero) && r.user_name == Val(s.name)
    ensures r.findme == Null && r.email == Null && r.phone_number == Null
  {
    SellerWithSettings(s, Val(TrustMeterZero), Val(s.name), Null, Null, Null)
  }

  /** Enriches one seller; an exception is caught here, so it never leaves this seller. */
  function Enrich(s: Seller, found: SettingsLookup): (r: SellerWithSettings)
    ensures r.seller == s
    ensures r.email != Undefined && r.phone_number != Undefined
    ensures found.Threw? ==> r == Fallback(s)
    ensures found == Returned(None) ==>
              r.trust_meter_rating == Undefined && r.user_name == Undefined && r.findme == Undefined &&
              r.email == Null && r.phone_number == Null
    ensures found.Returned? && found.value.Some? ==>
              var st := found.value.value;
              && r.trust_meter_rating == st.trust_meter_rating
              && r.user_name == st.user_name
              && r.findme == st.findme
              && (r.email == if st.email.Val? then st.email else Null)
              && (r.phone_number == if st.phone_number.Val? then st.phone_number else Null)
  {
    match found
    case Threw(_) => Fallback(s)
    case Returned(None) => SellerWithSettings(s, Undefined, Undefined, Undefined, Null, Null)
    case Returned(Some(st)) =>
      SellerWithSettings(s, st.trust_meter_rating, st.user_name, st.findme, OrNull(st.email), OrNull(st.phone_number))
  }

  /** `resolveSellerSettings`: one enriched record per seller, in the same order. */
  function ResolveSellerSettings(sellers: seq<Seller>, lookup: string -> SettingsLookup): (r: seq<SellerWithSettings>)
    ensures |r| == |sellers|
    ensures forall i :: 0 <= i < |sellers| ==> r[i].seller == sellers[i]
    ensures forall i :: 0 <= i < |sellers| ==> r[i] == Enrich(sellers[i], lookup(sellers[i].seller_id))
    decreases |sellers|
  {
    if sellers == [] then []
    else [Enrich(sellers[0], lookup(sellers[0].seller_id))] + ResolveSellerSettings(sellers[1..], lookup)
  }

  /** The lookups of `lookup`, except that the lookup for `id` throws. */
  function FailingFor(lookup: string -> SettingsLookup, id: string, message: string): (f: string -> SettingsLookup)
    ensures f(id) == Threw(message)
    ensures forall x :: x != id ==> f(x) == lookup(x)
  {
    x => if x == id then Threw(message) else lookup(x)
  }

  /**
   * Fault isolation: when the settings lookup of one seller throws, exactly the entries of
   * that seller become the fallback record and every other entry is what it would have been.
   */
  lemma {:induction false} FailureReplacesOnlyThatSeller(sellers: seq<Seller>, lookup: string -> SettingsLookup, id: string, message: string)
    ensures var before := ResolveSellerSettings(sellers, lookup);
            var after := ResolveSellerSettings(sellers, FailingFor(lookup, id, message));
            && |after| == |before|
            && forall i :: 0 <= i < |sellers| ==>
                 after[i] == if sellers[i].seller_id == id then Fallback(sellers[i]) else before[i]
    decreases |sellers|
  {
    if sellers != [] {
      FailureReplacesOnlyThatSeller(sellers[1..], lookup, id, message);
      var after := ResolveSellerSettings(sellers, FailingFor(lookup, id, message));
      assert after[0] == Enrich(sellers[0], FailingFor(lookup, id, message)(sellers[0].seller_id));
    }
  }

  /** Enrichment is total: it yields a record for every seller even when every lookup throws. */
  lemma {:induction false} AllFailuresGiveAllFallbacks(sellers: seq<Seller>, message: string)
    ensures var r := ResolveSellerSettings(sellers, x => Threw(message));
            |r| == |sellers| && forall i :: 0 <= i < |sellers| ==> r[i] == Fallback(sellers[i])
    decreases |sellers|
  {
    if sellers != [] {
      AllFailuresGiveAllFallbacks(sellers[1..], message);
    }
  }

  /** Settings that are merely absent and a lookup that throws give distinguishable records. */
  lemma NotFoundDiffersFromFailure(s: Seller, message: string)
    ensures Enrich(s, Returned(None)).trust_meter_rating == Undefined
    ensures Enrich(s, Threw(message)).trust_meter_rating == Val(TrustMeterZero)
    ensures Enrich(s, Returned(None)) != Enrich(s, Threw(message))
  {
  }

  // ---------------------------------------------------------------------------
  // Listing (getAllSellers)
  // ---------------------------------------------------------------------------

  datatype GeoFilter = GeoFilter(origin: LatLng, radius: real)

  /** The query handed to `Seller.find`: the excluded type, the optional text and geo filters. */
  datatype SearchCriteria = SearchCriteria(excludedType: string, text: Option<string>, geo: Option<GeoFilter>)

  /**
   * The criteria built by `getAllSellers`: the text filter only for a truthy `search_query`,
   * the geo filter only when `origin` and `radius` are both truthy (a radius of 0 is falsy).
   */
  function BuildCriteria(inactive: string, origin: Option<LatLng>, radius: Option<real>, search_query: Option<string>): (c: SearchCriteria)
    ensures c.excludedType == inactive
    ensures c.text.Some? <==> search_query.Some? && search_query.value != ""
    ensures c.text.Some? ==> c.text == search_query
    ensures c.geo.Some? <==> origin.Some? && radius.Some? && radius.value != 0.0
    ensures c.geo.Some? ==> c.geo.value.origin == origin.value && c.geo.value.radius == radius.value
  {
    SearchCriteria(
      inactive,
      if search_query.Some? && search_query.value != "" then search_query else None,
      if origin.Some? && radius.Some? && radius.value != 0.0 then Some(GeoFilter(origin.value, radius.value)) else None)
  }

  /**
   * Whether a seller document satisfies the criteria. `matches(q, text)` is MongoDB's
   * `{ $regex: q, $options: 'i' }` test on one field; the pattern language, and how option 'i'
   * treats case, are left to it.
   */
  predicate Admits(c: SearchCriteria, s: Seller, within: (GeoPoint, LatLng, real) -> bool, matches: (string, string) -> bool)
  {
    && s.seller_type != c.excludedType
    && (c.text.Some? ==> matches(c.text.value, s.name) || matches(c.text.value, s.description))
    && (c.geo.Some? ==> within(s.sell_map_center, c.geo.value.origin, c.geo.value.radius))
  }

  /** The documents `Seller.find(criteria)` returns, in storage order. */
  function Listing(docs: seq<Seller>, c: SearchCriteria, within: (GeoPoint, LatLng, real) -> bool, matches: (string, string) -> bool): (r: seq<Seller>)
    ensures |r| <= |docs|
    ensures forall s :: s in r ==> s in docs && Admits(c, s, within, matches)
    ensures forall s :: s in docs && Admits(c, s, within, matches) ==> s in r
    decreases |docs|
  {
    if docs == [] then []
    else (if Admits(c, docs[0], within, matches) then [docs[0]] else []) + Listing(docs[1..], c, within, matches)
  }

  /** The listing keeps storage order: it distributes over concatenation of the collection. */
  lemma {:induction false} ListingKeepsOrder(a: seq<Seller>, b: seq<Seller>, c: SearchCriteria, within: (GeoPoint, LatLng, real) -> bool, matches: (string, string) -> bool)
    ensures Listing(a + b, c, within, matches) == Listing(a, c, within, matches) + Listing(b, c, within, matches)
    decreases |a|
  {
    if a == [] {
      assert a + b == b;
    } else {
      assert (a + b)[1..] == a[1..] + b;
      ListingKeepsOrder(a[1..], b, c, within, matches);
    }
  }

  /** The listing never contains a seller of the excluded (Inactive) type. */
  lemma ListingExcludesInactive(docs: seq<Seller>, inactive: string, origin: Option<LatLng>, radius: Option<real>, search_query: Option<string>, within: (GeoPoint, LatLng, real) -> bool, matches: (string, string) -> bool)
    ensures forall s :: s in Listing(docs, BuildCriteria(inactive, origin, radius, search_query), within, matches) ==>
              s.seller_type != inactive
  {
  }

  lemma {:induction false} ListingIgnoresGeo(docs: seq<Seller>, c: SearchCriteria, w1: (GeoPoint, LatLng, real) -> bool, w2: (GeoPoint, LatLng, real) -> bool, matches: (string, string) -> bool)
    requires c.geo.None?
    ensures Listing(docs, c, w1, matches) == Listing(docs, c, w2, matches)
    decreases |docs|
  {
    if docs != [] {
      ListingIgnoresGeo(docs[1..], c, w1, w2, matches);
    }
  }

  lemma {:induction false} ListingIgnoresText(docs: seq<Seller>, c: SearchCriteria, within: (GeoPoint, LatLng, real) -> bool, m1: (string, string) -> bool, m2: (string, string) -> bool)
    requires c.text.None?
    ensures Listing(docs, c, within, m1) == Listing(docs, c, within, m2)
    decreases |docs|
  {
    if docs != [] {
      ListingIgnoresText(docs[1..], c, within, m1, m2);
    }
  }

  /**
   * Without a truthy origin and a truthy radius there is no geo restriction at all: the
   * listing is the same whatever the containment test says, here compared with "everywhere".
   */
  lemma NoGeoRestrictionWithoutOriginAndRadius(docs: seq<Seller>, inactive: string, origin: Option<LatLng>, radius: Option<real>, search_query: Option<string>, within: (GeoPoint, LatLng, real) -> bool, matches: (string, string) -> bool)
    requires origin.None? || radius.None? || radius.value == 0.0
    ensures var c := BuildCriteria(inactive, origin, radius, search_query);
            Listing(docs, c, within, matches) == Listing(docs, c, (p: GeoPoint, o: LatLng, r: real) => true, matches)
  {
    ListingIgnoresGeo(docs, BuildCriteria(inactive, origin, radius, search_query), within, (p: GeoPoint, o: LatLng, r: real) => true, matches);
  }

  /** A missing or empty `search_query` applies no text filter: every pattern semantics agrees. */
  lemma NoTextFilterWithoutQuery(docs: seq<Seller>, inactive: string, origin: Option<LatLng>, radius: Option<real>, search_query: Option<string>, within: (GeoPoint, LatLng, real) -> bool, matches: (string, string) -> bool)
    requires search_query.None? || search_query.value == ""
    ensures var c := BuildCriteria(inactive, origin, radius, search_query);
            Listing(docs, c, within, matches) == Listing(docs, c, within, (q: string, t: string) => true)
  {
    ListingIgnoresText(docs, BuildCriteria(inactive, origin, radius, search_query), within, matches, (q: string, t: string) => true);
  }

  /**
   * A pattern in which every letter is a literal: no escape (`\d` and `\D` differ), no group
   * (the inline flag `(?-i)`) and no character class (the range `[Z-a]`).
   */
  predicate LiteralLetters(q: string)
  {
    '\\' !in q && '(' !in q && '[' !in q
  }

  /**
   * Option 'i' as a hypothesis on the abstract matcher: two patterns whose letters are all
   * literal and that agree up to case match the same texts.
   */
  ghost predicate CaseBlindOnLiterals(matches: (string, string) -> bool)
  {
    forall q1, q2, t :: LiteralLetters(q1) && ToLower(q1) == ToLower(q2) ==> matches(q1, t) == matches(q2, t)
  }

  /** Lower-casing never produces or removes a backslash, a parenthesis or a bracket. */
  lemma LiteralLettersLower(q1: string, q2: string)
    requires LiteralLetters(q1) && ToLower(q1) == ToLower(q2)
    ensures LiteralLetters(q2)
  {
    forall i | 0 <= i < |q2|
      ensures q2[i] != '\\' && q2[i] != '(' && q2[i] != '['
    {
      assert ToLower(q2)[i] == LowerChar(q2[i]);
      assert |q1| == |q2|;
      assert LowerChar(q1[i]) == LowerChar(q2[i]);
      assert q1[i] in q1;
    }
  }

  lemma {:induction false} ListingSameForSameFoldedQuery(docs: seq<Seller>, c1: SearchCriteria, c2: SearchCriteria, within: (GeoPoint, LatLng, real) -> bool, matches: (string, string) -> bool)
    requires CaseBlindOnLiterals(matches)
    requires c1.excludedType == c2.excludedType && c1.geo == c2.geo
    requires c1.text.Some? <==> c2.text.Some?
    requires c1.text.Some? ==> LiteralLetters(c1.text.value) && ToLower(c1.text.value) == ToLower(c2.text.value)
    ensures Listing(docs, c1, within, matches) == Listing(docs, c2, within, matches)
    decreases |docs|
  {
    if docs != [] {
      ListingSameForSameFoldedQuery(docs[1..], c1, c2, within, matches);
    }
  }

  /**
   * The text search ignores the case of a pattern's literal letters: "cafe" and "CAFE" list the
   * same sellers, given a matcher that honours option 'i'.
   */
  lemma SearchIgnoresQueryCase(docs: seq<Seller>, inactive: string, origin: Option<LatLng>, radius: Option<real>, q1: string, q2: string, within: (GeoPoint, LatLng, real) -> bool, matches: (string, string) -> bool)
    requires CaseBlindOnLiterals(matches)
    requires LiteralLetters(q1) && ToLower(q1) == ToLower(q2)
    ensures Listing(docs, BuildCriteria(inactive, origin, radius, Some(q1)), within, matches) ==
            Listing(docs, BuildCriteria(inactive, origin, radius, Some(q2)), within, matches)
  {
    assert |q1| == |ToLower(q1)| == |ToLower(q2)| == |q2|;
    ListingSameForSameFoldedQuery(docs, BuildCriteria(inactive, origin, radius, Some(q1)), BuildCriteria(inactive, origin, radius, Some(q2)), within, matches);
  }

  /**
   * The listing in terms of the request itself: a stored seller is listed exactly when it is not
   * Inactive, matches a truthy query on its name or description, and lies within the circle
   * when both origin and radius are truthy.
   */
  lemma ListedIff(docs: seq<Seller>, inactive: string, origin: Option<LatLng>, radius: Option<real>, search_query: Option<string>,
                  within: (GeoPoint, LatLng, real) -> bool, matches: (string, string) -> bool, s: Seller)
    ensures s in Listing(docs, BuildCriteria(inactive, origin, radius, search_query), within, matches) <==>
              && s in docs
              && s.seller_type != inactive
              && (search_query.Some? && search_query.value != "" ==>
                    matches(search_query.value, s.name) || matches(search_query.value, s.description))
              && (origin.Some? && radius.Some? && radius.value != 0.0 ==>
                    within(s.sell_map_center, origin.value, radius.value))
  {
  }

  /** `getAllSellers`: the listing, enriched; only a failing `Seller.find` makes it throw. */
  function GetAllSellers(docs: seq<Seller>, inactive: string, origin: Option<LatLng>, radius: Option<real>, search_query: Option<string>,
                         within: (GeoPoint, LatLng, real) -> bool, matches: (string, string) -> bool,
                         lookup: string -> SettingsLookup, storeOk: bool): (r: Outcome<seq<SellerWithSettings>>)
    ensures r.Threw? <==> !storeOk
    ensures r.Threw? ==> r.message == GetAllSellersFailed
    ensures r.Returned? ==>
              var listed := Listing(docs, BuildCriteria(inactive, origin, radius, search_query), within, matches);
              && r.value == ResolveSellerSettings(listed, lookup)
              && |r.value| == |listed| && forall i :: 0 <= i < |listed| ==> r.value[i].seller == listed[i]
    ensures r.Returned? ==> forall i :: 0 <= i < |r.value| ==> r.value[i].seller.seller_type != inactive
  {
    if !storeOk then Threw(GetAllSellersFailed)
    else
      var listed := Listing(docs, BuildCriteria(inactive, origin, radius, search_query), within, matches);
      assert forall i :: 0 <= i < |listed| ==> listed[i] in listed;
      Returned(ResolveSellerSettings(listed, lookup))
  }

  // ---------------------------------------------------------------------------
  // Single-seller lookup (getSingleSellerById)
  // ---------------------------------------------------------------------------

  /**
   * The three lookups by one id across the Seller, UserSettings and User collections:
   * null only when all three are absent, otherwise whichever records exist.
   */
  function GetSingleSellerById(sellers: map<string, Seller>, settings: map<string, UserSettings>, users: map<string, User>,
                               seller_id: string, storeOk: bool): (r: Outcome<Option<SellerProfile>>)
    ensures !storeOk ==> r == Threw(GetSingleSellerFailed)
    ensures storeOk ==> r.Returned?
    ensures storeOk ==> (r.value.None? <==> seller_id !in sellers && seller_id !in settings && seller_id !in users)
    ensures r.Returned? && r.value.Some? ==>
              && r.value.value.sellerShopInfo == Lookup(sellers, seller_id)
              && (r.value.value.sellerSettings.Some? <==> seller_id in settings)
              && (seller_id in settings ==> r.value.value.sellerSettings == Some(settings[seller_id]))
              && (r.value.value.sellerInfo.Some? <==> seller_id in users)
              && (seller_id in users ==> r.value.value.sellerInfo == Some(users[seller_id]))
  {
    if !storeOk then Threw(GetSingleSellerFailed)
    else
      var shop := Lookup(sellers, seller_id);
      var st := if seller_id in settings then Some(settings[seller_id]) else None;
      var user := if seller_id in users then Some(users[seller_id]) else None;
      if shop.None? && st.None? && user.None? then Returned(None)
      else Returned(Some(SellerProfile(shop, st, user)))
  }

  // ---------------------------------------------------------------------------
  // Register or update (registerOrUpdateSeller)
  // ---------------------------------------------------------------------------

  /** `formValue || existingValue || default`. */
  function Merge(formValue: string, existingValue: string, default: string): (r: string)
    ensures formValue != "" ==> r == formValue
    ensures formValue == "" && existingValue != "" ==> r == existingValue
    ensures formValue == "" && existingValue == "" ==> r == default
  {
    OrElse(formValue, OrElse(existingValue, default))
  }

  /**
   * What `existingSeller?.field` reads when there is no existing seller: every field is
   * undefined, which `||` treats like '', and the map center falls to the origin point.
   */
  const NoSeller: Seller := Seller("", "", "", "", "", "", OriginPoint, PrefText(""), 0.0)

  /** The parsed `sell_map_center`, or None when `JSON.parse` throws. */
  function ResolveCenter(form: FormData, existing: Option<Seller>, parse: string -> Option<GeoPoint>): (r: Option<GeoPoint>)
    ensures FormText(form, "sell_map_center") != "" ==> r == parse(form["sell_map_center"])
    ensures FormText(form, "sell_map_center") == "" && existing.Some? ==> r == Some(existing.value.sell_map_center)
    ensures FormText(form, "sell_map_center") == "" && existing.None? ==> r == Some(OriginPoint)
  {
    if FormText(form, "sell_map_center") != "" then parse(form["sell_map_center"])
    else Some(if existing.Some? then existing.value.sell_map_center else OriginPoint)
  }

  function ResolvePref(form: FormData, prior: Seller): (r: PrefValue)
    ensures PrefTruthy(r) <==> FormText(form, "order_online_enabled_pref") != "" || PrefTruthy(prior.order_online_enabled_pref)
    ensures !PrefTruthy(r) ==> r == PrefText("")
    ensures FormText(form, "order_online_enabled_pref") != "" ==> r == PrefText(form["order_online_enabled_pref"])
  {
    if FormText(form, "order_online_enabled_pref") != "" then PrefText(form["order_online_enabled_pref"])
    else if PrefTruthy(prior.order_online_enabled_pref) then prior.order_online_enabled_pref
    else PrefText("")
  }

  /**
   * The document stored by the upsert: `$set` of the merged fields over the existing seller,
   * or a new seller with the merged fields, the initial rating and online ordering off.
   */
  function Upserted(authUser: User, form: FormData, image: string, existing: Option<Seller>, center: GeoPoint): (r: Seller)
    ensures r.seller_id == authUser.pi_uid
    ensures r.sell_map_center == center
  {
    var prior := if existing.Some? then existing.value else NoSeller;
    var name := Merge(FormText(form, "name"), prior.name, authUser.user_name);
    var description := Merge(FormText(form, "description"), prior.description, "");
    var seller_type := Merge(FormText(form, "seller_type"), prior.seller_type, "");
    var img := Merge(image, prior.image, "");
    var address := Merge(FormText(form, "address"), prior.address, "");
    if existing.Some? then
      Seller(authUser.pi_uid, name, description, seller_type, img, address, center, ResolvePref(form, prior), prior.average_rating)
    else
      Seller(authUser.pi_uid, OrElse(name, authUser.user_name), description, seller_type, img, address, center, PrefFlag(false), NewSellerRating)
  }

  /** `registerOrUpdateSeller` as a function of the collection's contents before the call. */
  function RegisterOrUpdate(sellers: map<string, Seller>, authUser: User, form: FormData, image: string,
                            parse: string -> Option<GeoPoint>, storeOk: bool): (r: Outcome<Seller>)
    ensures r.Threw? ==> r.message == RegisterFailed
    ensures r.Threw? <==> !storeOk || (FormText(form, "sell_map_center") != "" && parse(form["sell_map_center"]).None?)
    ensures r.Returned? ==> r.value.seller_id == authUser.pi_uid
  {
    if !storeOk then Threw(RegisterFailed)
    else
      var existing := Lookup(sellers, authUser.pi_uid);
      match ResolveCenter(form, existing, parse)
      case None => Threw(RegisterFailed)
      case Some(center) => Returned(Upserted(authUser, form, image, existing, center))
  }

  /** Each field is the form's value if truthy, else the existing value if truthy, else its default. */
  lemma UpsertFieldPrecedence(sellers: map<string, Seller>, authUser: User, form: FormData, image: string,
                              parse: string -> Option<GeoPoint>, storeOk: bool)
    requires RegisterOrUpdate(sellers, authUser, form, image, parse, storeOk).Returned?
    ensures var r := RegisterOrUpdate(sellers, authUser, form, image, parse, storeOk).value;
            var id := authUser.pi_uid;
            && r.seller_id == id
            && r.name == (if FormText(form, "name") != "" then form["name"]
                          else if id in sellers && sellers[id].name != "" then sellers[id].name
                          else authUser.user_name)
            && r.description == (if FormText(form, "description") != "" then form["description"]
                                 else if id in sellers then sellers[id].description else "")
            && r.seller_type == (if FormText(form, "seller_type") != "" then form["seller_type"]
                                 else if id in sellers then sellers[id].seller_type else "")
            && r.image == (if image != "" then image else if id in sellers then sellers[id].image else "")
            && r.address == (if FormText(form, "address") != "" then form["address"]
                             else if id in sellers then sellers[id].address else "")
            && r.sell_map_center == (if FormText(form, "sell_map_center") != "" then parse(form["sell_map_center"]).value
                                     else if id in sellers then sellers[id].sell_map_center else OriginPoint)
  {
  }

  /** A newly created seller starts at rating 5.0 with online ordering off, whatever the form says. */
  lemma NewSellerDefaults(sellers: map<string, Seller>, authUser: User, form: FormData, image: string,
                          parse: string -> Option<GeoPoint>, storeOk: bool)
    requires authUser.pi_uid !in sellers
    requires RegisterOrUpdate(sellers, authUser, form, image, parse, storeOk).Returned?
    ensures var r := RegisterOrUpdate(sellers, authUser, form, image, parse, storeOk).value;
            r.average_rating == NewSellerRating && r.order_online_enabled_pref == PrefFlag(false)
  {
  }

  /** On the update path the stored average rating is kept and the preference follows `||`. */
  lemma UpdateKeepsRating(sellers: map<string, Seller>, authUser: User, form: FormData, image: string,
                          parse: string -> Option<GeoPoint>, storeOk: bool)
    requires authUser.pi_uid in sellers
    requires RegisterOrUpdate(sellers, authUser, form, image, parse, storeOk).Returned?
    ensures var r := RegisterOrUpdate(sellers, authUser, form, image, parse, storeOk).value;
            var e := sellers[authUser.pi_uid];
            && r.average_rating == e.average_rating
            && r.order_online_enabled_pref ==
                 (if FormText(form, "order_online_enabled_pref") != "" then PrefText(form["order_online_enabled_pref"])
                  else if PrefTruthy(e.order_online_enabled_pref) then e.order_online_enabled_pref
                  else PrefText(""))
  {
  }

  /** Updating twice with the same form data and image stores the same record as updating once. */
  lemma UpdateIsIdempotent(sellers: map<string, Seller>, authUser: User, form: FormData, image: string,
                           parse: string -> Option<GeoPoint>, storeOk: bool)
    requires authUser.pi_uid in sellers
    requires RegisterOrUpdate(sellers, authUser, form, image, parse, storeOk).Returned?
    ensures var once := RegisterOrUpdate(sellers, authUser, form, image, parse, storeOk).value;
            RegisterOrUpdate(sellers[authUser.pi_uid := once], authUser, form, image, parse, storeOk) == Returned(once)
  {
    var id := authUser.pi_uid;
    var once := RegisterOrUpdate(sellers, authUser, form, image, parse, storeOk).value;
    var center := ResolveCenter(form, Some(sellers[id]), parse).value;
    assert once == Upserted(authUser, form, image, Some(sellers[id]), center);
    assert ResolveCenter(form, Some(once), parse) == Some(center);
  }

  /**
   * Creating and then updating with a form that has no preference does not keep the stored
   * `false`: the update path writes `false || ''`, that is ''.
   */
  lemma CreateThenUpdateRewritesPreference(sellers: map<string, Seller>, authUser: User, form: FormData, image: string,
                                           parse: string -> Option<GeoPoint>)
    requires authUser.pi_uid !in sellers
    requires FormText(form, "order_online_enabled_pref") == ""
    requires RegisterOrUpdate(sellers, authUser, form, image, parse, true).Returned?
    ensures var created := RegisterOrUpdate(sellers, authUser, form, image, parse, true).value;
            var updated := RegisterOrUpdate(sellers[authUser.pi_uid := created], authUser, form, image, parse, true);
            && created.order_online_enabled_pref == PrefFlag(false)
            && updated.Returned?
            && updated.value.order_online_enabled_pref == PrefText("")
            && updated.value == created.(order_online_enabled_pref := PrefText(""))
  {
    var id := authUser.pi_uid;
    var created := RegisterOrUpdate(sellers, authUser, form, image, parse, true).value;
    var center := ResolveCenter(form, None, parse).value;
    assert created == Upserted(authUser, form, image, None, center);
    assert ResolveCenter(form, Some(created), parse) == Some(center);
  }

  // ---------------------------------------------------------------------------
  // The Seller collection
  // ---------------------------------------------------------------------------

  predicate NoDuplicates(ids: seq<string>)
  {
    forall i, j :: 0 <= i < j < |ids| ==> ids[i] != ids[j]
  }

  /** `ids` with every occurrence of `id` taken out, the others in their order. */
  function Without(ids: seq<string>, id: string): (r: seq<string>)
    ensures forall x :: x in r <==> x in ids && x != id
    ensures id !in ids ==> r == ids
    decreases |ids|
  {
    if ids == [] then []
    else if ids[0] == id then Without(ids[1..], id)
    else [ids[0]] + Without(ids[1..], id)
  }

  lemma {:induction false} WithoutKeepsDistinct(ids: seq<string>, id: string)
    requires NoDuplicates(ids)
    ensures NoDuplicates(Without(ids, id))
    decreases |ids|
  {
    if ids != [] {
      WithoutKeepsDistinct(ids[1..], id);
      if ids[0] != id {
        assert ids[0] !in ids[1..];
        var r := Without(ids, id);
        assert r == [ids[0]] + Without(ids[1..], id);
      }
    }
  }

  /** Removing an id from a concatenation removes it from each part, keeping the order. */
  lemma {:induction false} WithoutDistributes(a: seq<string>, b: seq<string>, id: string)
    ensures Without(a + b, id) == Without(a, id) + Without(b, id)
    decreases |a|
  {
    if a != [] {
      assert (a + b)[1..] == a[1..] + b;
      WithoutDistributes(a[1..], b, id);
    } else {
      assert a + b == b;
    }
  }

  /** The documents other than the one with `seller_id == id`, in their order. */
  function DropSeller(docs: seq<Seller>, id: string): (r: seq<Seller>)
    ensures forall s :: s in r <==> s in docs && s.seller_id != id
    decreases |docs|
  {
    if docs == [] then []
    else if docs[0].seller_id == id then DropSeller(docs[1..], id)
    else [docs[0]] + DropSeller(docs[1..], id)
  }

  /** The documents of the collection in storage order. */
  function InOrder(sellers: map<string, Seller>, order: seq<string>): (r: seq<Seller>)
    requires forall i :: 0 <= i < |order| ==> order[i] in sellers
    ensures |r| == |order|
    ensures forall i :: 0 <= i < |order| ==> r[i] == sellers[order[i]]
  {
    seq(|order|, i requires 0 <= i < |order| => sellers[order[i]])
  }

  /**
   * Deleting a key from the map and its id from the order leaves exactly the other documents,
   * in the order they were stored.
   */
  lemma InOrderCons(sellers: map<string, Seller>, k: string, ks: seq<string>)
    requires k in sellers && forall i :: 0 <= i < |ks| ==> ks[i] in sellers
    ensures forall i :: 0 <= i < |[k] + ks| ==> ([k] + ks)[i] in sellers
    ensures InOrder(sellers, [k] + ks) == [sellers[k]] + InOrder(sellers, ks)
  {
    assert forall i :: 0 <= i < |[k] + ks| ==> ([k] + ks)[i] == if i == 0 then k else ks[i - 1];
  }

  lemma {:induction false} InOrderWithout(sellers: map<string, Seller>, order: seq<string>, id: string)
    requires forall k :: k in sellers ==> sellers[k].seller_id == k
    requires forall i :: 0 <= i < |order| ==> order[i] in sellers
    ensures forall i :: 0 <= i < |Without(order, id)| ==> Without(order, id)[i] in sellers - {id}
    ensures InOrder(sellers - {id}, Without(order, id)) == DropSeller(InOrder(sellers, order), id)
    decreases |order|
  {
    var rest := Without(order, id);
    assert forall i :: 0 <= i < |rest| ==> rest[i] in rest;
    if order != [] {
      var tail := order[1..];
      assert order == [order[0]] + tail;
      InOrderWithout(sellers, tail, id);
      InOrderCons(sellers, order[0], tail);
      var docs := InOrder(sellers, order);
      assert docs[1..] == InOrder(sellers, tail);
      assert docs[0].seller_id == order[0];
      var wt := Without(tail, id);
      if order[0] != id {
        assert rest == [order[0]] + wt;
        InOrderCons(sellers - {id}, order[0], wt);
      } else {
        assert rest == wt;
      }
    }
  }

  /**
   * The collection's invariant: each document is stored under its own `seller_id`, and the
   * order lists every stored id exactly once and nothing else.
   */
  ghost predicate WellStored(sellers: map<string, Seller>, order: seq<string>)
  {
    && (forall id :: id in sellers ==> sellers[id].seller_id == id)
    && (forall i :: 0 <= i < |order| ==> order[i] in sellers)
    && (forall id :: id in sellers ==> id in order)
    && NoDuplicates(order)
  }

  /**
   * Storing a document under its own id keeps the invariant, whether it replaces a stored one
   * in place or is appended, and the stored document is then among the documents.
   */
  lemma UpsertKeepsWellStored(sellers: map<string, Seller>, order: seq<string>, s: Seller)
    requires WellStored(sellers, order)
    ensures var id := s.seller_id;
            var order' := if id in sellers then order else order + [id];
            && WellStored(sellers[id := s], order')
            && s in InOrder(sellers[id := s], order')
  {
    var id := s.seller_id;
    var sellers' := sellers[id := s];
    var order' := if id in sellers then order else order + [id];
    if id !in sellers {
      assert id !in order;
      assert order' == order + [id];
    }
    assert forall i :: 0 <= i < |order'| ==> order'[i] in sellers';
    assert id in order';
    StoredIsListed(sellers', order', id);
  }

  /** Every document whose id is in the order appears among the documents in storage order. */
  lemma StoredIsListed(sellers: map<string, Seller>, order: seq<string>, id: string)
    requires forall i :: 0 <= i < |order| ==> order[i] in sellers
    requires id in order
    ensures id in sellers && sellers[id] in InOrder(sellers, order)
  {
    var k :| 0 <= k < |order| && order[k] == id;
    assert InOrder(sellers, order)[k] == sellers[id];
  }

  /** The Seller collection: documents keyed by `seller_id`, and the order they are stored in. */
  class SellerCollection {
    var sellers: map<string, Seller>
    var order: seq<string>

    ghost predicate Valid()
      reads this
    {
      WellStored(sellers, order)
    }

    /** The collection's documents in storage order, as `Seller.find` sees them. */
    ghost function Documents(): seq<Seller>
      reads this
      requires Valid()
    {
      InOrder(sellers, order)
    }

    constructor ()
      ensures Valid()
      ensures sellers == map[] && order == []
    {
      sellers := map[];
      order := [];
    }

    /** `registerOrUpdateSeller`: replaces the owner's document in place or appends a new one. */
    method RegisterOrUpdateSeller(authUser: User, form: FormData, image: string, parse: string -> Option<GeoPoint>, storeOk: bool)
      returns (r: Outcome<Seller>)
      requires Valid()
      modifies this
      ensures Valid()
      ensures r == RegisterOrUpdate(old(sellers), authUser, form, image, parse, storeOk)
      ensures r.Threw? ==> sellers == old(sellers) && order == old(order)
      ensures r.Returned? ==> sellers == old(sellers)[authUser.pi_uid := r.value]
      ensures r.Returned? ==>
                order == if authUser.pi_uid in old(sellers) then old(order) else old(order) + [authUser.pi_uid]
      ensures r.Returned? ==> r.value in Documents()
    {
      if !storeOk {
        return Threw(RegisterFailed);
      }
      var existing := Lookup(sellers, authUser.pi_uid);
      var center := ResolveCenter(form, existing, parse);
      if center.None? {
        return Threw(RegisterFailed);
      }
      var stored := Upserted(authUser, form, image, existing, center.value);
      UpsertKeepsWellStored(sellers, order, stored);
      if existing.None? {
        order := order + [authUser.pi_uid];
      }
      sellers := sellers[authUser.pi_uid := stored];
      r := Returned(stored);
    }

    /** `deleteSeller`: removes the document whose `seller_id` matches and returns it, or null. */
    method DeleteSeller(seller_id: string, storeOk: bool) returns (r: Outcome<Option<Seller>>)
      requires Valid()
      modifies this
      ensures Valid()
      ensures !storeOk ==> r == Threw(DeleteFailed) && sellers == old(sellers) && order == old(order)
      ensures storeOk ==> r == Returned(Lookup(old(sellers), seller_id))
      ensures storeOk ==> sellers == old(sellers) - {seller_id} && order == Without(old(order), seller_id)
      ensures storeOk ==> Documents() == DropSeller(old(Documents()), seller_id)
    {
      if !storeOk {
        return Threw(DeleteFailed);
      }
      r := Returned(Lookup(sellers, seller_id));
      ghost var before := InOrder(sellers, order);
      WithoutKeepsDistinct(order, seller_id);
      InOrderWithout(sellers, order, seller_id);
      sellers := sellers - {seller_id};
      order := Without(order, seller_id);
      assert forall i :: 0 <= i < |order| ==> order[i] in order;
      assert InOrder(sellers, order) == DropSeller(before, seller_id);
    }
  }

  /** After a delete, no listing of the collection shows the deleted seller. */
  lemma DeletedSellerIsNotListed(sellers: map<string, Seller>, order: seq<string>, seller_id: string, c: SearchCriteria,
                                 within: (GeoPoint, LatLng, real) -> bool, matches: (string, string) -> bool)
    requires forall id :: id in sellers ==> sellers[id].seller_id == id
    requires forall i :: 0 <= i < |order| ==> order[i] in sellers
    ensures var rest := Without(order, seller_id);
            var remaining := sellers - {seller_id};
            && (forall i :: 0 <= i < |rest| ==> rest[i] in remaining)
            && forall s :: s in Listing(InOrder(remaining, rest), c, within, matches) ==> s.seller_id != seller_id
  {
    var rest := Without(order, seller_id);
    var remaining := sellers - {seller_id};
    assert forall i :: 0 <= i < |rest| ==> rest[i] in rest;
    forall s | s in Listing(InOrder(remaining, rest), c, within, matches)
      ensures s.seller_id != seller_id
    {
      var docs := InOrder(remaining, rest);
      assert s in docs;
      var k :| 0 <= k < |docs| && docs[k] == s;
      assert s == remaining[rest[k]];
    }
  }
}
