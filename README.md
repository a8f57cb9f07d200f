# YaMDb in Dafny

YaMDb is a review-aggregation web API. Users rate and comment on "titles" (books, films, music). Titles are sorted into categories and genres. Accounts carry a role that decides what a user may change.

This project models the part of YaMDb that holds decisions of its own:

- **Permissions** (`permissions.dfy`). The three permission classes of `api_yamdb/api/permissions.py`. They are defined there but applied by no view in the code at hand:
  - `IsAuthorModeratorAdminSuperuserOrReadOnly`, an object-level policy: the author, a moderator, an admin or a superuser, or a read-only method;
  - `IsAdminOrReadOnly`, a request-level policy: read-only methods, or an authenticated admin or superuser;
  - `IsAdminOnly`, a request-level policy: an admin or a superuser.

  Each policy is a predicate of the request method and the requester's attributes. The lemmas show how the policies relate: safe methods always pass, mutation needs one of the listed privileges, more privilege never revokes access, and admin-only is the stronger request policy.
- **Serializers** (`serializers.dfy`). The rules of `api_yamdb/api/serializers.py`:
  - the reserved username `"me"`;
  - the token exchange's two required text fields: stripped, not blank, limited to 50 and 36 characters and free of NUL characters;
  - the computed rating of a title;
  - the one-review-per-author-per-title check run before a review is posted.

  The rating is proved to be `None` exactly when the title has no review, and otherwise to lie in `[1, 10]`. It is independent of the order in which the reviews are read and unaffected by reviews of other titles. The review check is proved to keep "one review per author and title" when a review is appended only after it passed.
- **Models** (`models.dfy`). The rows of the seven tables of `api_yamdb/reviews/models.py`, the score and role choices and the year check of `Title.save`.
- **Store** (`store.dfy`). A `Database` class holding one map per table, keyed by primary key. Its methods are the inserts, `Title.save` and the deletions with their `on_delete` rules: category `SET_NULL` on titles, every other foreign key `CASCADE`. Every method keeps the invariant `Valid()`:
  - unique category and genre slugs;
  - no dangling foreign key;
  - positive years;
  - scores in 1..10.

  `GetRating` computes a title's rating from the stored reviews. It is proved equal to `Serializers.Rating` over the title's reviews listed in any order.

`Results` (in `results.dfy`) holds the `Option` and `Result` types. `SeqFacts` holds one multiset lemma shared by the permutation proofs.

Three facts about the code that the model follows:

- `Review` has no unique `(title, author)` constraint in `models.py`. The only guard is the serializer's pre-check, modelled by `Serializers.ValidateReview`. `Serializers.PostedReviewKeepsUniqueness` shows that this pre-check keeps the property when writes happen one at a time.
- `username` and `email` carry no unique constraint in `models.py`, so the store does not enforce one.
- The role field's choices have the integer keys 1, 2 and 3. A role submitted through the choices is therefore stored as `"1"`, `"2"` or `"3"` and never as `"admin"`, the string the permissions compare against. `Models.AcceptedRoles` states this. The policies take the role string as given.

## Model

| member | source | states |
|---|---|---|
| Models.ChoiceKey | api_yamdb/reviews/models.py:90 | a submitted value resolves to a key only if it is that key's decimal text and the key is in the choice list; otherwise no key of the list has that text |
| Models.ChoiceKeyOfKey | api_yamdb/reviews/models.py:90 | every key of a choice list is accepted from its own decimal text and resolves to itself |
| Models.ScoreChoicesAreOneToTen | api_yamdb/reviews/models.py:9-20 | a score is one of the choice keys exactly when it lies in 1..10 |
| Models.AcceptScore | api_yamdb/reviews/models.py:90 | a value is accepted iff it is the decimal text of a score 1..10, and the stored score is the one with that text |
| Models.AcceptScoreOfDecimal | api_yamdb/reviews/models.py:9-20 | each score 1..10 submitted as its decimal text is accepted and stored unchanged |
| Models.AcceptRole | api_yamdb/reviews/models.py:35 | an accepted role is stored as the submitted key text |
| Models.AcceptedRoles | api_yamdb/reviews/models.py:27-35 | the role field accepts exactly "1", "2" and "3", and never stores "admin" |
| Models.CheckYear | api_yamdb/reviews/models.py:70-75 | a title may be saved exactly when 1 <= year <= current year; a future year is reported as such (checked first), a non-positive one as invalid |
| Permissions.AuthorModeratorAdminSuperuserOrReadOnly | api_yamdb/api/permissions.py:4-12 | the object policy: a safe method, or a requester who is the author, a superuser, an admin or a moderator |
| Permissions.AdminOrReadOnly | api_yamdb/api/permissions.py:14-20 | the request policy: a safe method, or an authenticated requester with role "admin" or the superuser flag |
| Permissions.AdminOnly | api_yamdb/api/permissions.py:23-26 | the request policy: role "admin" or the superuser flag, whatever the method and authentication |
| Permissions.SafeMethodMayAccessAnyObject | api_yamdb/api/permissions.py:7 | GET, HEAD and OPTIONS pass the object policy for every requester and object |
| Permissions.ObjectMutationAllowedIff | api_yamdb/api/permissions.py:6-12 | a mutating request passes the object policy iff the requester is the author, a superuser, an admin or a moderator |
| Permissions.ObjectPolicyMonotonic | api_yamdb/api/permissions.py:6-12 | setting more privilege flags never turns an allowed object access into a denied one |
| Permissions.ObjectPolicyAuthorship | api_yamdb/api/permissions.py:8 | an authenticated requester always passes the object policy, for any method, on objects they wrote |
| Permissions.AdminOrReadOnlyAllowsSafe | api_yamdb/api/permissions.py:17-18 | safe methods pass, for anonymous requesters too |
| Permissions.AdminOrReadOnlyMutationIff | api_yamdb/api/permissions.py:19-20 | a mutating request passes iff the requester is authenticated and has role "admin" or is a superuser |
| Permissions.AdminOrReadOnlyDeniesOthers | api_yamdb/api/permissions.py:20 | anonymous requesters, and non-superusers with role "user" or "moderator", may not mutate |
| Permissions.AdminOrReadOnlyMonotonic | api_yamdb/api/permissions.py:16-20 | more privilege never revokes what this policy allows |
| Permissions.AdminOnlyIgnoresMethod | api_yamdb/api/permissions.py:25-26 | admin-only gives the same answer for every method: role "admin" or superuser |
| Permissions.AdminOnlyImpliesAdminOrReadOnly | api_yamdb/api/permissions.py:25-26 | an authenticated requester that passes admin-only passes admin-or-read-only for any method |
| Permissions.AdminOnlyMonotonic | api_yamdb/api/permissions.py:25-26 | more privilege never revokes admin-only access |
| Serializers.Strip | api_yamdb/api/serializers.py:16-17 | the result is a slice of the input with only whitespace cut from both ends, starts and ends with non-whitespace, and is empty iff the input is all whitespace |
| Serializers.StripOfStripped | api_yamdb/api/serializers.py:16-17 | a value without surrounding whitespace is left unchanged |
| Serializers.StripKeepsNul | api_yamdb/api/serializers.py:16-17 | stripping never removes a NUL character, so checking for NUL before or after stripping is the same |
| Serializers.RunValidators | api_yamdb/api/serializers.py:16-17 | the too-long error is reported iff the stripped value exceeds the maximum, the NUL error iff it holds a NUL, and nothing iff neither |
| Serializers.ValidateCharField | api_yamdb/api/serializers.py:16-17 | accepted iff present, not blank after stripping, within the maximum and free of NUL, and then the stripped value is returned; "required" iff absent; "blank" iff all whitespace; otherwise the failed validators, too-long iff over the maximum and NUL iff a NUL is present |
| Serializers.ValidateTokenRequest | api_yamdb/api/serializers.py:14-17 | accepted iff both fields are acceptable (50 and 36 characters), giving the stripped values; on rejection each field carries an error iff that field is not acceptable: "required" when absent, "blank" when all whitespace |
| Serializers.TokenRequestWithinLimits | api_yamdb/api/serializers.py:16-17 | input within both limits, without surrounding whitespace and without NUL, is accepted as it is |
| Serializers.TokenRequestTooLong | api_yamdb/api/serializers.py:16-17 | a username over 50 or a code over 36 characters is rejected with a too-long error on that field |
| Serializers.TokenRequestNullCharacters | api_yamdb/api/serializers.py:16-17 | a username or code holding a NUL character is rejected with the NUL error on that field |
| Serializers.ValidateUsername | api_yamdb/api/serializers.py:26-30 | rejected with the fixed message iff the username is "me"; otherwise returned unchanged |
| Serializers.TitleReviews | api_yamdb/api/serializers.py:61 | the filtered reviews all belong to the title and come from the input |
| Serializers.ScoreSum | api_yamdb/api/serializers.py:63 | the sum of the scores; ScoreSumAppend, ScoreSumPermutation and ScoreSumBounds state its properties |
| Serializers.Mean | api_yamdb/api/serializers.py:62-66 | None iff there are no reviews; otherwise the mean times the count equals the score sum |
| Serializers.Rating | api_yamdb/api/serializers.py:59-66 | None iff no review is of the title |
| Serializers.NoTitleReviews | api_yamdb/api/serializers.py:64-65 | the filter is empty iff no review is of the title |
| Serializers.TitleReviewsAppend | api_yamdb/api/serializers.py:61 | filtering distributes over concatenation |
| Serializers.ScoreSumAppend | api_yamdb/api/serializers.py:63 | the score sum distributes over concatenation |
| Serializers.TitleReviewsCount | api_yamdb/api/serializers.py:61 | a row occurs among the title's reviews as often as in the input if it is of the title, otherwise never |
| Serializers.ScoreSumPermutation | api_yamdb/api/serializers.py:63 | reordering the reviews leaves the score sum unchanged |
| Serializers.RatingIgnoresOrder | api_yamdb/api/serializers.py:59-66 | the rating is the same for every order in which the query lists the reviews |
| Serializers.RatingOnlyReadsTitleReviews | api_yamdb/api/serializers.py:61 | filtering is idempotent, and the rating over the title's reviews alone equals the rating over all reviews |
| Serializers.RatingIgnoresOtherTitles | api_yamdb/api/serializers.py:61 | inserting a review of another title anywhere leaves the rating unchanged |
| Serializers.RatingAfterNewReview | api_yamdb/api/serializers.py:61-63 | a new review of the title adds one to the count and its score to the sum |
| Serializers.ScoreSumBounds | api_yamdb/api/serializers.py:63 | with scores in 1..10, the sum lies between the count and ten times the count |
| Serializers.RatingBounds | api_yamdb/api/serializers.py:59-66 | with scores in 1..10, a rating lies in [1, 10] |
| Serializers.QuotientBounds | api_yamdb/api/serializers.py:66 | a sum between n and 10n divided by n lies in [1, 10] |
| Serializers.ReviewsBy | api_yamdb/api/serializers.py:101 | the filtered reviews are the author's reviews of the title |
| Serializers.HasReviewed | api_yamdb/api/serializers.py:101-102 | the author has a review of the title among the rows |
| Serializers.ReviewsByEmptyIff | api_yamdb/api/serializers.py:101-102 | the filter is empty iff the author has not reviewed the title |
| Serializers.ValidateReview | api_yamdb/api/serializers.py:94-104 | the data passes unchanged; it passes iff the method is not POST, or the title exists and the author has not reviewed it |
| Serializers.ValidateReviewIgnoresStoreUnlessPost | api_yamdb/api/serializers.py:96-98 | for any method but POST the result is the data, whatever the store holds |
| Serializers.ValidateReviewOnPost | api_yamdb/api/serializers.py:99-104 | a POST yields not-found for a missing title, the second-review error for a repeat author, and the data otherwise |
| Serializers.OneReviewPerAuthorAndTitle | api_yamdb/api/serializers.py:94-104 | no two rows share both author and title: the property the review check is there to keep |
| Serializers.PostedReviewKeepsUniqueness | api_yamdb/api/serializers.py:94-104 | appending a review whose POST validation passed keeps at most one review per author and title |
| Serializers.SecondPostRejected | api_yamdb/api/serializers.py:101-103 | after a review is stored, the same author's POST on the same title is rejected with the second-review error |
| Store.EnumerationsArePermutations | api_yamdb/api/serializers.py:61 | two duplicate-free listings of the same keys hold the same keys, each as often |
| Store.RowsPermutation | api_yamdb/api/serializers.py:61 | listing the same keys in another order yields the same rows in another order |
| Store.Database.AddUser | api_yamdb/reviews/models.py:23-38 | inserts the user under a new key, refuses a used key, changes no other table, keeps the invariant |
| Store.Database.AddCategory | api_yamdb/reviews/models.py:40-46 | inserts iff the key is new and no category has the slug; otherwise refuses with no change |
| Store.Database.AddGenre | api_yamdb/reviews/models.py:49-55 | inserts iff the key is new and no genre has the slug; otherwise refuses with no change |
| Store.Database.SaveTitle | api_yamdb/reviews/models.py:58-75 | refuses with the year error when the year check fails; otherwise writes (inserts or replaces) iff the category is null or exists |
| Store.Database.AddGenreTitle | api_yamdb/reviews/models.py:78-81 | inserts iff the key is new and both the title and the genre exist |
| Store.Database.AddReview | api_yamdb/reviews/models.py:84-92 | inserts iff the key is new, the score is in 1..10 and the title and author exist; a score outside the choices is always refused |
| Store.Database.AddComment | api_yamdb/reviews/models.py:95-103 | inserts iff the key is new and the review and author exist |
| Store.Database.DeleteCategory | api_yamdb/reviews/models.py:62-68 | removes the category; every title keeps its row, and those in the category get a null category (SET_NULL) |
| Store.Database.DeleteGenre | api_yamdb/reviews/models.py:81 | removes the genre and exactly its title associations |
| Store.Database.DeleteTitle | api_yamdb/reviews/models.py:78-98 | removes the title, its genre associations, its reviews and the comments on those reviews, nothing else |
| Store.Database.DeleteReview | api_yamdb/reviews/models.py:97-98 | removes the review and exactly the comments on it |
| Store.Database.DeleteComment | api_yamdb/reviews/models.py:95-103 | removes the comment and nothing else |
| Store.Database.DeleteUser | api_yamdb/reviews/models.py:88-101 | removes the user, their reviews, their comments and every comment on their reviews, nothing else |
| Store.Database.CategoryBySlug | api_yamdb/reviews/models.py:43 | finds the one category with the slug, or None when there is none |
| Store.Database.GenreBySlug | api_yamdb/reviews/models.py:52 | finds the one genre with the slug, or None when there is none |
| Store.Database.FilterReviewsByTitle | api_yamdb/api/serializers.py:61 | lists the keys of exactly the title's reviews, each once |
| Store.Database.GetRating | api_yamdb/api/serializers.py:59-66 | None iff the title has no stored review, otherwise in [1, 10]; equal to the rating of the title's rows in any listing order |

## Left out

- Views, URL routing, viewsets, pagination and filtering (`views.py`, `urls.py`) are not part of this model. No view applies the three permission classes (the only permission settings in `views.py` are commented out), so the policies are modelled as predicates on their own, not tied to any endpoint.
- The sign-up flow, e-mail delivery, confirmation codes and bearer-token issuance are left out. They are framework and network code; only the token request's field validation is modelled.
- The requester's `is_authenticated`, `is_superuser`, `is_admin` and `is_moderator` attributes are inputs. The `User` model does not define them, and the anonymous user has no `role`. So `IsAdminOnly` with an anonymous requester, or the object policy with an anonymous requester on a mutating method, raises an attribute error in the framework rather than denying. The model treats these flags as given.
- Permissions.AuthorModeratorAdminSuperuserOrReadOnly: the model identifies the requester with the `User` row of `models.py` that has the same key. The source has two user models: `request.user` is an instance of the framework's user model (`get_user_model()`), while `Review.author` and `Comment.author` refer to the separate `User` class of `models.py`. Instances of different models never compare equal, so the author clause of the policy never holds as written. Permissions.ObjectPolicyAuthorship states the intended behaviour, not that of the code. An anonymous requester matches no author.
- Serializers.Rating: the source divides in floating point. The model divides exact reals, so rounding is not modelled.
- Models.CheckYear: the current year is a parameter; the source reads the system clock.
- `pub_date` (set on creation) is not modelled, nor are the other columns no rule reads.
- Store.Database.AddReview: models the API write path. The serializer's choice field refuses a score outside 1..10; `Model.save()` does not check choices, so a row written past the serializer could hold any two-character score. The bound of Serializers.RatingBounds and of Store.Database.GetRating rests on this path. The column is a two-character string; the model stores the integer key that the rating reads back with `int()`, not the string round trip.
- Store.Database.AddUser: stores the role as given. Sign-up leaves it at the column's empty default, and only the user serializer checks it against the choices (Models.AcceptRole). The store does not record which path wrote a row.
- Slug format validation (letters, digits, `-`, `_`) and the `max_length` of the model's text columns are not modelled. Slugs are compared as plain strings.
- Store.Database: there is no update of users, categories, genres, reviews or comments. Only `Title.save` is overridden in the source. Inserts model the framework's `create` (an existing key is refused); `SaveTitle` models `save`, which writes over an existing row.
- The nested representations of titles (category and genre objects) and the resolution of genre and category slugs on write are not modelled beyond `CategoryBySlug`/`GenreBySlug`.
- Serializers.Strip: whitespace is the character set Python's `str.strip()` removes. Surrogates and other encoding questions do not arise with `seq<char>`.
- Serializers.ValidateCharField: takes an optional string. JSON `null` (refused by the framework with its own "may not be null" error), numbers (turned into text with `str()`) and booleans or lists (refused as not a valid string) are not modelled.
- Serializers.ValidateReview: the author is a key of the `models.py` `User` table. In the source the query filters `Review.author` by `request.user`, an instance of the framework's user model. An authenticated requester is refused by the ORM with a value error, because the instance is not of the `models.py` `User` class. An anonymous requester fails with a type error. So a POST reaching the check never yields the data or the second-review error as written. The model states the intended outcomes, matching the requester to the author by key.
- Concurrency and transactions are left out. Writes are modelled one at a time, so the race between the review pre-check and the insert is not captured.
