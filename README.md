# Map of Pi: seller directory core in Dafny

Map of Pi is a marketplace map for Pi Network users. Sellers register a shop with a position on
the map. Buyers list the active sellers near a point, optionally narrowed by a search text, and
leave reviews and trust ratings. This project models the backend's seller service, and the
Express handlers for sellers, reviews, users and user preferences. It also models the upload
filter for images, the logger configuration and the MongoDB connection URL. Finally, it models
the front end's choice of trust-meter image for a rating.

Layout, one module per source file, plus three shared modules:

- `values.dfy` (`Values`): `Option`, and `Js` for the undefined/null/value distinction of
  JavaScript. `Outcome` is a result or a thrown error message. `OrNull` models `?? null` and
  `OrElse` models `||` on strings.
- `text.dfy` (`Text`): ASCII lower-casing, and splitting a string at its last or first separator.
- `entities.dfy` (`Entities`): sellers, users, user settings, reviews, uploaded files and form data.
- `http.dfy` (`Http`): responses (status, JSON body, optional cookie) and the record of which
  service calls a handler made. It also defines `Consistent`, the invariant every handler keeps:
  - 200 exactly when the body is not a message;
  - a 500 always carries a "...; please try again later" message and follows a failed service call;
  - 400/401/403 are decided before any service call;
  - a cookie is only set on a 200.
- `seller_service.dfy` (`SellerService`): `resolveSellerSettings`, `getAllSellers`,
  `getSingleSellerById`, `registerOrUpdateSeller` and `deleteSeller`. `SellerCollection` is a
  class over the Seller collection, whose methods update it in place.
- `seller_controller.dfy`, `review_feedback_controller.dfy`, `user_controller.dfy`,
  `user_preferences_controller.dfy`: each handler is a function from its inputs and the results
  of the services it calls to a response and the calls it made.
- `trust_meter.dfy` (`TrustMeter`): the rating-to-image-path choice, proved injective by a
  parser that recovers the rating from the path.
- `multer.dfy` (`Upload`): the file filter, defined through Node's POSIX `path.extname`, and the
  storage key.
- `logging_config.dfy` (`LoggingConfig`): `getLoggerConfig`, an imperative method.
- `db_connection.dfy` (`DbConnection`): the credentials segment, the connection URL and the
  connect step's logging.

What lies outside the modelled code is passed in as a parameter: the database and its failures
(`storeOk`), MongoDB's spherical test (`within`), its regular-expression match (`matches`),
`JSON.parse` (`parse`), the other services the handlers call, the clock (`now`) and the
environment variables.

Some operations are plain definitions, and what they mean is stated by the members about them:

- `SellerService.Admits`, the query test, through `Listing` and `ListedIff`.
- `SellerService.SellerCollection.Valid`, the collection invariant, through both of the class's methods, which keep it.
- `Http.Consistent` through every handler's contract.
- `Upload.Accepts` through `FileFilter`, `SimpleNameAccepted`, `DotFileRejected` and `FilterIgnoresCase`.
- `Upload.ObjectKey` through `StoredKeyKeepsExtension`.
- `TrustMeter.RatingImage` through the `RatingImage…` lemmas and `UnpaddedOtherwise`.
- `DbConnection.MongoUrl` through `MongoUrlFrame`, `OptionsRecovered`, `EmptyOptionsKeepSeparator`, `NoUserNoCredentials` and `UserRecovered`.

## Model

| member | source | states |
|---|---|---|
| Values.OrNull | backend/src/services/seller.service.ts:27-28 | `?? null` never yields undefined; it keeps a present value and turns undefined or null into null |
| Values.OrElse | backend/src/services/seller.service.ts:147-152 | `a \|\| b` on strings: `a` when it is non-empty, else `b` |
| Entities.FormText | backend/src/services/seller.service.ts:146-152 | a form field reads as non-empty exactly when it is present and not the empty string; a present field reads as its value and a missing one as '' |
| Entities.ImageRef | backend/src/controllers/sellerController.ts:74 | the image is the uploaded file's location when there is a file, else '' |
| SellerService.Lookup | backend/src/services/seller.service.ts:110 | `findOne({ seller_id })` finds a document exactly when one with that id is stored, and returns it |
| SellerService.Fallback | backend/src/services/seller.service.ts:37-45 | the fallback record keeps the seller, has rating ZERO and the shop name as user name, and null findme, email and phone number |
| SellerService.Enrich | backend/src/services/seller.service.ts:15-46 | the seller is kept and email and phone number are never undefined. A thrown lookup gives the fallback: rating ZERO, the shop name as user name, null findme/email/phone. Null settings leave rating, user name and findme undefined. Found settings are copied, with `?? null` on email and phone |
| SellerService.ResolveSellerSettings | backend/src/services/seller.service.ts:12-50 | one record per seller, in the same order, the i-th built from the i-th seller and its own lookup only |
| SellerService.FailingFor | backend/src/services/seller.service.ts:19 | the settings lookup with one seller's lookup made to throw: that id throws the message, every other id is looked up as before |
| SellerService.FailureReplacesOnlyThatSeller | backend/src/services/seller.service.ts:30-46 | when one seller's settings lookup throws, exactly that seller's entries become the fallback and every other entry is unchanged |
| SellerService.AllFailuresGiveAllFallbacks | backend/src/services/seller.service.ts:38-45 | enrichment is total: with every lookup throwing, every seller still yields its fallback record |
| SellerService.NotFoundDiffersFromFailure | backend/src/services/seller.service.ts:24-28 | settings that are null give an undefined rating, a thrown lookup gives rating ZERO, and the two records differ |
| SellerService.BuildCriteria | backend/src/services/seller.service.ts:61-78 | the Inactive exclusion is always part of the query; there is a text filter exactly when the query is truthy (present and non-empty), and it is that query; there is a geo filter exactly when origin and radius are both truthy (a radius of 0 is falsy), and it holds that origin and radius |
| SellerService.Listing | backend/src/services/seller.service.ts:79-88 | a document is listed exactly when it is stored and satisfies the criteria (type, text over name or description, geo), and nothing else is listed |
| SellerService.ListingKeepsOrder | backend/src/services/seller.service.ts:79-88 | the listing keeps storage order: listing a concatenation is concatenating the listings |
| SellerService.ListingExcludesInactive | backend/src/services/seller.service.ts:61-62 | no listed seller has the Inactive type, whatever origin, radius and query are given |
| SellerService.ListingIgnoresGeo | backend/src/services/seller.service.ts:87-88 | without a geo filter the listing does not depend on the spherical test |
| SellerService.ListingIgnoresText | backend/src/services/seller.service.ts:65-72 | without a text filter the listing does not depend on the pattern semantics |
| SellerService.NoGeoRestrictionWithoutOriginAndRadius | backend/src/services/seller.service.ts:78-89 | a missing origin, a missing radius or a radius of 0 applies no geo restriction |
| SellerService.NoTextFilterWithoutQuery | backend/src/services/seller.service.ts:65-72 | a missing or empty search query applies no text filter |
| SellerService.ListedIff | backend/src/services/seller.service.ts:61-89 | over the request itself: a seller is listed exactly when it is stored, is not Inactive, matches a truthy query on its name or its description, and lies within the circle when origin and radius are both truthy |
| SellerService.LiteralLettersLower | backend/src/services/seller.service.ts:68-69 | a pattern that agrees up to case with one without escapes, groups or classes has none either |
| SellerService.ListingSameForSameFoldedQuery | backend/src/services/seller.service.ts:66-71 | for a matcher that ignores case on literal letters (option 'i'), criteria whose query texts agree up to case and have only literal letters give the same listing |
| SellerService.SearchIgnoresQueryCase | backend/src/services/seller.service.ts:68-69 | for such a matcher, two queries equal up to case, without escapes, groups or classes, list the same sellers |
| SellerService.GetAllSellers | backend/src/services/seller.service.ts:53-104 | throws "Failed to get all sellers; please try again later" exactly when the store fails. Otherwise it returns the settings enrichment of the listing, one record per listed seller in order, with no Inactive seller |
| SellerService.GetSingleSellerById | backend/src/services/seller.service.ts:107-132 | a store failure throws its message. Otherwise the result is null exactly when the seller, settings and user records are all absent, and else holds each one that exists |
| SellerService.Merge | backend/src/services/seller.service.ts:146-152 | `form || existing || default`: the form's value if non-empty, else the existing value if non-empty, else the default |
| SellerService.ResolveCenter | backend/src/services/seller.service.ts:139-141 | a truthy `sell_map_center` is parsed (a failed parse is the error case); otherwise the existing seller's center, or the origin point `[0, 0]` for a new seller |
| SellerService.Upserted | backend/src/services/seller.service.ts:144-171 | the stored document belongs to the authenticated user and carries the resolved map center |
| SellerService.ResolvePref | backend/src/services/seller.service.ts:152 | the ordering preference is truthy exactly when the form's or the existing seller's is; the form's wins when present, and a falsy result is '' |
| SellerService.RegisterOrUpdate | backend/src/services/seller.service.ts:134-184 | throws the register message exactly when the store fails or a given `sell_map_center` does not parse; otherwise the result belongs to the authenticated user |
| SellerService.UpsertFieldPrecedence | backend/src/services/seller.service.ts:139-153 | each field is the form's value if truthy, else the existing seller's, else its default (the user's name, '' or the origin point) |
| SellerService.NewSellerDefaults | backend/src/services/seller.service.ts:164-171 | a newly created seller has average rating 5.0 and online ordering off, whatever the form says |
| SellerService.UpdateKeepsRating | backend/src/services/seller.service.ts:152-161 | an update keeps the stored average rating, and the ordering preference follows `form || existing || ''` |
| SellerService.UpdateIsIdempotent | backend/src/services/seller.service.ts:156-161 | repeating an update with the same form and image stores the same document again |
| SellerService.CreateThenUpdateRewritesPreference | backend/src/services/seller.service.ts:152-170 | after a create, an update whose form omits the preference turns the stored `false` into '' and changes nothing else |
| SellerService.Without | backend/src/services/seller.service.ts:189 | the storage order after a delete holds exactly the other ids, and is unchanged when the id was absent |
| SellerService.WithoutDistributes | backend/src/services/seller.service.ts:189 | the removal works piecewise over a concatenation, so it keeps the order of the remaining ids |
| SellerService.WithoutKeepsDistinct | backend/src/services/seller.service.ts:189 | deleting keeps the storage order free of duplicate ids |
| SellerService.InOrder | backend/src/services/seller.service.ts:88 | the modelled storage order: the i-th document scanned is the one under the i-th stored id |
| SellerService.DropSeller | backend/src/services/seller.service.ts:189 | the documents not matching `seller_id`, and only those, are kept |
| SellerService.InOrderWithout | backend/src/services/seller.service.ts:189 | deleting an id from the map and the order leaves exactly the other documents, in their stored order |
| SellerService.UpsertKeepsWellStored | backend/src/services/seller.service.ts:156-175 | replacing the owner's document in place, or appending a new one, keeps every document under its own id with each id listed once, and the stored document is then among the documents |
| SellerService.StoredIsListed | backend/src/services/seller.service.ts:88 | every document whose id is in the order is among the documents a scan sees |
| SellerService.SellerCollection.RegisterOrUpdateSeller | backend/src/services/seller.service.ts:134-184 | returns the upsert's outcome; on failure nothing changes; on success the owner's document is replaced in place (update) or appended (create), and the returned document is among the collection's documents |
| SellerService.SellerCollection.DeleteSeller | backend/src/services/seller.service.ts:187-199 | a store failure throws the delete message and changes nothing; otherwise it returns the matching document or null and removes exactly that id; the documents left are the others, in their order |
| SellerService.DeletedSellerIsNotListed | backend/src/services/seller.service.ts:187-190 | after a delete, no listing of the collection contains the deleted seller |
| SellerController.FetchSellersByCriteria | backend/src/controllers/sellerController.ts:8-28 | one call to getAllSellers with the request's criteria. A null or empty result is 404 "Sellers not found", a non-empty one is 200 with the sellers, a thrown one is 500 |
| SellerController.GetSingleSeller | backend/src/controllers/sellerController.ts:30-48 | null is 404 "Seller not found", a profile is 200 with it, a throw is 500 |
| SellerController.FetchSellerRegistration | backend/src/controllers/sellerController.ts:50-67 | 404 exactly when the user or their seller record is missing; else 200 with the seller |
| SellerController.RegisterSeller | backend/src/controllers/sellerController.ts:69-109 | no user is 401 "User not authenticated" with no calls. Otherwise the seller upsert is called first with the uploaded image. 200 exactly when the upsert succeeds and the settings update returns settings, with the seller, email and phone number. Once the upsert succeeds both calls are made; null settings make reading `email` throw, so they give 500 |
| SellerController.DeleteSeller | backend/src/controllers/sellerController.ts:111-125 | calls deleteSeller with the user's id (undefined when there is no user); 200 with the deleted document or null, 500 on a throw |
| SellerController.FetchSellersOverDirectory | backend/src/controllers/sellerController.ts:8-28 | over the modelled service: 500 exactly when the store fails, 404 exactly when the store works and the criteria list nothing, and on 200 one record per listed seller |
| SellerController.GetSingleSellerOverDirectory | backend/src/controllers/sellerController.ts:30-48 | over the modelled service: 500 exactly when the store fails, 404 exactly when the store works and the id has no seller, settings or user, and on 200 the stored shop record |
| ReviewFeedbackController.GetReviews | backend/src/controllers/reviewFeedbackController.ts:8-29 | one call with the receiver and query; never 404, even for null; 200 with the reviews, 500 on a throw |
| ReviewFeedbackController.GetSingleReviewById | backend/src/controllers/reviewFeedbackController.ts:31-49 | null is 404 "Review not found", a review is 200, a throw is 500 |
| ReviewFeedbackController.AddReview | backend/src/controllers/reviewFeedbackController.ts:51-80 | no user is 401 "Unauthorized user", a self review is 400 "Self review is prohibited", both with no calls. Otherwise one add call with the uploaded image; 200 with the new review, and 500 with the add-review message when the service throws or returns null (reading `review_receiver_id` of null throws) |
| ReviewFeedbackController.SelfReviewNeverPersisted | backend/src/controllers/reviewFeedbackController.ts:56-62 | a review whose receiver is its own author never reaches the review service |
| UserController.AuthCookie | backend/src/controllers/userController.ts:15-19 | the "token" cookie expires exactly one day (86 400 000 ms) after now and is httpOnly, secure, high priority, sameSite lax |
| UserController.AuthenticateUser | backend/src/controllers/userController.ts:9-31 | the token helper is called with whatever authentication returned, null included. 200 with user, token and that cookie exactly when authentication returns a user and token generation succeeds; otherwise 500 and no cookie. A null user gives 500, because its `pi_uid` is read for the log |
| UserController.AutoLoginUser | backend/src/controllers/userController.ts:33-46 | always 200 with the current user (possibly none), no service calls |
| UserController.GetUser | backend/src/controllers/userController.ts:48-66 | null is 404 "User not found", a user is 200, a throw is 500 |
| UserController.DeleteUser | backend/src/controllers/userController.ts:68-89 | a caller who is not the account owner gets 403 with no service call; the owner gets 200 with the deleted data or 500 |
| UserController.DeleteOnlyOwnAccount | backend/src/controllers/userController.ts:72-75 | the delete service is only ever called with the caller's own id |
| UserPreferencesController.GetUserPreferences | backend/src/controllers/userPreferencesController.ts:8-26 | null is 404 "User Preferences not found", settings are 200, a throw is 500 |
| UserPreferencesController.FetchUserPreferences | backend/src/controllers/userPreferencesController.ts:28-46 | 404 exactly when the user or their settings are missing; else 200 with the settings |
| UserPreferencesController.AddUserPreferences | backend/src/controllers/userPreferencesController.ts:48-74 | no user is 401 with no call; otherwise one update call with the uploaded image; 200 with the settings, `{settings: null}` when the service returns null, and 500 with the add-preferences message when it throws |
| UserPreferencesController.DeleteUserPreferences | backend/src/controllers/userPreferencesController.ts:76-90 | one delete call; 200 with the deleted settings or null, 500 on a throw |
| UserPreferencesController.GetUserLocation | backend/src/controllers/userPreferencesController.ts:92-119 | no user or an empty id is 401 with no call. A missing location is 404 "User location not found for piUID: " plus the id. Found is 200 with the origin and zoom 13, a throw is 500 |
| TrustMeter.ParseNatToString | frontend/src/components/shared/Review/TrustMeter.tsx:14-18 | the decimal rendering of a natural number parses back to it |
| TrustMeter.NatToStringLead | frontend/src/components/shared/Review/TrustMeter.tsx:14-18 | a decimal rendering starts with a digit, and with '0' only for zero itself |
| TrustMeter.ParseIntToString | frontend/src/components/shared/Review/TrustMeter.tsx:14-18 | the rendering of any integer, sign included, parses back to it |
| TrustMeter.Framed | frontend/src/components/shared/Review/TrustMeter.tsx:14-18 | a path built from the image prefix, a level and ".PNG" gives that level back |
| TrustMeter.PaddedLevel | frontend/src/components/shared/Review/TrustMeter.tsx:14-16 | 0, 50 and 80 are written as the levels "000", "050" and "080" |
| TrustMeter.ParseFramed | frontend/src/components/shared/Review/TrustMeter.tsx:14-18 | a framed path reads back as one of the three padded levels, or else as the level's decimal integer |
| TrustMeter.UnpaddedLead | frontend/src/components/shared/Review/TrustMeter.tsx:17-18 | the unpadded level of a non-zero rating never starts with '0', so it is never mistaken for a padded one |
| TrustMeter.RatingImageFrame | frontend/src/components/shared/Review/TrustMeter.tsx:12-20 | every image path is the prefix, a level text and ".PNG": "000" for 0, "050"/"080" for 50/80, else the rating itself |
| TrustMeter.RatingImageRoundTrip | frontend/src/components/shared/Review/TrustMeter.tsx:12-20 | the rating can be read back from its image path |
| TrustMeter.RatingImageInjective | frontend/src/components/shared/Review/TrustMeter.tsx:12-20 | different ratings never show the same image |
| TrustMeter.RatingImageExamples | frontend/src/components/shared/Review/TrustMeter.tsx:13-18 | 0, 50, 80 and 100 map to the files _000, _050, _080 and _100 |
| TrustMeter.UnpaddedOtherwise | frontend/src/components/shared/Review/TrustMeter.tsx:17-18 | any other rating is rendered unpadded, a positive one without a leading zero |
| Upload.FileFilter | backend/src/utils/multer.ts:30-45 | the callback is called exactly once. It either rejects with "Wrong format for file" or accepts with true, never both, and rejects exactly when the lower-cased extension is not .jpg/.jpeg/.png |
| Upload.ExtName | backend/src/utils/multer.ts:35 | `path.extname`: '' or a text starting with '.' |
| Upload.ComponentExt | backend/src/utils/multer.ts:35 | a non-empty extension is a proper suffix of the component that starts with its last '.' and has no other '.' |
| Upload.ExtNameLower | backend/src/utils/multer.ts:35 | the extension of the lower-cased name is the lower-cased extension |
| Upload.FilterIgnoresCase | backend/src/utils/multer.ts:35-36 | names that differ only in letter case are both accepted or both rejected |
| Upload.StoredKeyKeepsExtension | backend/src/utils/multer.ts:25-27 | the storage key of an accepted file is its original name, so it carries an accepted extension |
| Upload.SimpleNameAccepted | backend/src/utils/multer.ts:35-36 | a name `stem.suffix` without '/' is accepted exactly when ".suffix", lower-cased, is an image extension; the stem may hold dots, so "archive.png.exe" is refused and "A.PNG" accepted |
| Upload.DotFileRejected | backend/src/utils/multer.ts:35-36 | a dot-file such as ".png" has no extension and is rejected |
| LoggingConfig.GetLoggerConfig | backend/src/config/loggingConfig.ts:7-27 | development/sandbox: level info, one console transport. production: level error, [Sentry, console] in that order, timestamp+json format. Any other environment: level '', no format, no transports. A non-empty LOG_LEVEL overrides the level; an empty one does not |
| DbConnection.Credentials | backend/src/config/dbConnection.ts:9 | the credentials segment is '' exactly when there is no user, else `user:password@`, even with an empty password |
| DbConnection.MongoUrlFrame | backend/src/config/dbConnection.ts:10 | the URL starts with the scheme and "://" and ends with '?' and the option parameters |
| DbConnection.OptionsRecovered | backend/src/config/dbConnection.ts:10 | the option parameters are exactly what follows the URL's last '?' |
| DbConnection.EmptyOptionsKeepSeparator | backend/src/config/dbConnection.ts:10 | with no option parameters the URL still ends in '?' |
| DbConnection.NoUserNoCredentials | backend/src/config/dbConnection.ts:9-10 | without a user the host follows "://" directly |
| DbConnection.UserRecovered | backend/src/config/dbConnection.ts:9-10 | with a user, the text between "://" and the first ':' is that user |
| DbConnection.ConnectDB | backend/src/config/dbConnection.ts:6-26 | never throws; logs the URL exactly when NODE_ENV is not production; logs success exactly when the connection succeeds, and otherwise ends with the failure and its message |

## Left out

- Spherical distance: MongoDB's `$centerSphere` test and `radius / 6378.1` are floating-point work done by the database. They are an abstract predicate `within`.
- Pattern semantics: `search_query` is a regular expression for MongoDB. Matching is an abstract `matches(pattern, text)` that receives the query and the field as they are; no substring semantics is claimed.
- SellerService.SearchIgnoresQueryCase: option 'i' is stated as a hypothesis on `matches` (`CaseBlindOnLiterals`) and only for patterns without `\`, `(` or `[`. Case-dependent constructs (`\d`/`\D`, `\w`/`\W`, `\s`/`\S`, `\b`/`\B`, inline flags, class ranges such as `[Z-a]`) are outside the claim, since lower-casing them changes what they match.
- SellerService.InOrder: the storage order is a model assumption. MongoDB promises no order for an unsorted `find`; the model fixes one (insertion order, updates in place) so that order-preservation can be stated.
- `JSON.parse` of `sell_map_center` is an abstract `parse` that may fail; its failure is the thrown register error.
- Concurrency: the `Promise.all` fan-outs are modelled as a sequential map and as three independent lookups.
- The userSettings, reviewFeedback and user services, JWT generation and Mongoose itself are not part of this model. They appear as parameters returning a value, null or a thrown error.
- `SellerType` and `TrustMeterScale` are not part of this model. The Inactive type is a parameter, and only `TrustMeterScale.ZERO` is used, as 0.
- Logging and telemetry (Winston, Sentry, every `logger` call) are left out. The exception is `connectDB`, whose log entries are its only observable effect.
- The S3 client, multer's wiring and `multerS3.AUTO_CONTENT_TYPE` are external I/O and are left out; only the filter and the key function are modelled.
- The React state, JSX and image rendering of the trust meter are UI and are left out.
- Environment loading, route mounting and server startup are left out; environment values are inputs.
- SellerService.UpdateKeepsRating: Mongoose's schema casting of `order_online_enabled_pref` is not modelled; the stored value is the JavaScript value `||` produces.
- SellerService.SellerCollection.DeleteSeller: takes a defined id. With an undefined `seller_id`, what `findOneAndDelete({ seller_id: undefined })` matches is a Mongoose question; the controller passes the id through as an option.
- TrustMeter.RatingImageRoundTrip: covers integer ratings only; JavaScript's formatting of fractional, very large or special numbers is not modelled.
- Text.ToLower folds ASCII letters only; Unicode case mapping is not modelled.
- The handler accepts a null listing (`!sellers`), but `getAllSellers` never returns null. So over the modelled service only an empty listing gives 404.
- `phone_number` is modelled as a string.
- UserController.AutoLoginUser, SellerController.FetchSellerRegistration and UserPreferencesController.FetchUserPreferences: their catch branches cannot be reached, because nothing in their try blocks throws, so their 500 paths are not modelled.
