/** The review endpoints: listing, single lookup, and creation behind the authorship guards. */
module ReviewFeedbackController {
  import opened Values
  import opened Entities
  import opened Http

  const ReviewNotFound := "Review not found"
  const UnauthorizedUser := "Unauthorized user"
  const SelfReviewProhibited := "Self review is prohibited"
  const GetReviewsError := "An error occurred while getting reviews; please try again later"
  const GetSingleReviewError := "An error occurred while getting single review; please try again later"
  const AddReviewError := "An error occurred while adding review; please try again later"

  /** `getReviews`: 200 with whatever the service returns, empty or null included; no 404. */
  function GetReviews(review_receiver_id: string, searchQuery: Option<string>,
                      getReviewFeedback: (string, Option<string>) -> Outcome<Option<seq<ReviewFeedback>>>): (h: Handled)
    ensures Consistent(h)
    ensures h.calls == [GetReviewFeedbackCall(review_receiver_id, searchQuery)]
    ensures h.response.status != 404
    ensures var found := getReviewFeedback(review_receiver_id, searchQuery);
            && (h.response.status == 500 <==> found.Threw?)
            && (found.Returned? ==> h.response == Reply(200, Reviews(found.value)))
  {
    var calls := [GetReviewFeedbackCall(review_receiver_id, searchQuery)];
    match getReviewFeedback(review_receiver_id, searchQuery)
    case Threw(_) => Handled(Reply(500, Message(GetReviewsError)), calls)
    case Returned(reviews) => Handled(Reply(200, Reviews(reviews)), calls)
  }

  /** `getSingleReviewById`: 404 when the review is null, 500 when the service throws. */
  function GetSingleReviewById(review_id: string, getReviewFeedbackById: string -> Outcome<Option<ReviewFeedback>>): (h: Handled)
    ensures Consistent(h)
    ensures h.calls == [GetReviewFeedbackByIdCall(review_id)]
    ensures var found := getReviewFeedbackById(review_id);
            && (h.response.status == 500 <==> found.Threw?)
            && (h.response.status == 404 <==> found == Returned(None))
            && (h.response.status == 404 ==> h.response.body == Message(ReviewNotFound))
            && (h.response.status == 200 ==> found.Returned? && found.value.Some? && h.response.body == Review(found.value.value))
  {
    var calls := [GetReviewFeedbackByIdCall(review_id)];
    match getReviewFeedbackById(review_id)
    case Threw(_) => Handled(Reply(500, Message(GetSingleReviewError)), calls)
    case Returned(None) => Handled(Reply(404, Message(ReviewNotFound)), calls)
    case Returned(Some(review)) => Handled(Reply(200, Review(review)), calls)
  }

  /** `authUser.pi_uid === formData.review_receiver_id`; a missing receiver id is `undefined`. */
  predicate IsSelfReview(authUser: User, form: FormData)
  {
    "review_receiver_id" in form && form["review_receiver_id"] == authUser.pi_uid
  }

  /**
   * `addReview`: 401 without a user, 400 for a self review, both before anything is persisted;
   * otherwise the review service is called once with the user, the form and the image.
   */
  function AddReview(currentUser: Option<User>, form: FormData, file: Option<UploadedFile>,
                     addReviewFeedback: (User, FormData, string) -> Outcome<Option<ReviewFeedback>>): (h: Handled)
    ensures Consistent(h)
    ensures currentUser.None? ==> h == Handled(Reply(401, Message(UnauthorizedUser)), [])
    ensures currentUser.Some? && IsSelfReview(currentUser.value, form) ==>
              h == Handled(Reply(400, Message(SelfReviewProhibited)), [])
    ensures currentUser.Some? && !IsSelfReview(currentUser.value, form) ==>
              var u := currentUser.value;
              var created := addReviewFeedback(u, form, ImageRef(file));
              && h.calls == [AddReviewFeedbackCall(u, form, ImageRef(file))]
              && (created.Returned? && created.value.Some? ==> h.response == Reply(200, NewReview(created.value.value)))
              && (created.Threw? || created == Returned(None) ==> h.response == Reply(500, Message(AddReviewError)))
  {
    match currentUser
    case None => Handled(Reply(401, Message(UnauthorizedUser)), [])
    case Some(u) =>
      if IsSelfReview(u, form) then Handled(Reply(400, Message(SelfReviewProhibited)), [])
      else
        var image := ImageRef(file);
        var calls := [AddReviewFeedbackCall(u, form, image)];
        match addReviewFeedback(u, form, image)
        case Threw(_) => Handled(Reply(500, Message(AddReviewError)), calls)
        case Returned(None) => Handled(Reply(500, Message(AddReviewError)), calls)
        case Returned(Some(review)) => Handled(Reply(200, NewReview(review)), calls)
  }

  /** No request ever persists a review whose giver is also its receiver. */
  lemma SelfReviewNeverPersisted(currentUser: Option<User>, form: FormData, file: Option<UploadedFile>,
                                 addReviewFeedback: (User, FormData, string) -> Outcome<Option<ReviewFeedback>>)
    ensures var h := AddReview(currentUser, form, file, addReviewFeedback);
            forall k :: 0 <= k < |h.calls| ==> h.calls[k].AddReviewFeedbackCall? && !IsSelfReview(h.calls[k].user, h.calls[k].form)
  {
  }
}
