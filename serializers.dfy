/**
 * The validation and derived-field logic of the API's serializers
 * (api_yamdb/api/serializers.py): the reserved username, the field limits of
 * the token exchange, the computed rating of a title and the
 * one-review-per-author-per-title check.
 *
 * The database is read through a snapshot: the set of title ids and the
 * sequence of review rows a query would return.
 */
module Serializers {
  import opened Results
  import opened Models
  import SeqFacts

  /** The errors a serializer raises: a validation error with its message, or not-found. */
  datatype ApiError = ValidationError(message: string) | NotFound

  // ---------------------------------------------------------------------
  // Text fields. A text field is required and may not be blank; its
  // surrounding whitespace is removed, and then every validator runs on
  // what is left: the maximum length and the ban on NUL characters.
  // ---------------------------------------------------------------------

  /** The characters str.strip() removes. */
  predicate IsWhitespace(c: char)
  {
    || '\t' <= c <= '\r'
    || '\U{1C}' <= c <= ' '
    || c == '\U{85}' || c == '\U{A0}' || c == '\U{1680}'
    || '\U{2000}' <= c <= '\U{200A}'
    || c == '\U{2028}' || c == '\U{2029}' || c == '\U{202F}' || c == '\U{205F}'
    || c == '\U{3000}'
  }

  /** The number of whitespace characters that start s. */
  function LeadingSpace(s: string): (k: nat)
    ensures k <= |s|
    ensures forall i :: 0 <= i < k ==> IsWhitespace(s[i])
    ensures k < |s| ==> !IsWhitespace(s[k])
  {
    if s == [] || !IsWhitespace(s[0]) then 0 else 1 + LeadingSpace(s[1..])
  }

  /** The number of whitespace characters that end s. */
  function TrailingSpace(s: string): (k: nat)
    ensures k <= |s|
    ensures forall i :: |s| - k <= i < |s| ==> IsWhitespace(s[i])
    ensures k < |s| ==> !IsWhitespace(s[|s| - k - 1])
  {
    if s == [] || !IsWhitespace(s[|s| - 1]) then 0 else 1 + TrailingSpace(s[..|s| - 1])
  }

  /** s without its leading and trailing whitespace. */
  function Strip(s: string): (r: string)
    ensures exists a, b ::
              && 0 <= a <= b <= |s| && r == s[a..b]
              && (forall i :: 0 <= i < a ==> IsWhitespace(s[i]))
              && (forall i :: b <= i < |s| ==> IsWhitespace(s[i]))
    ensures r != [] ==> !IsWhitespace(r[0]) && !IsWhitespace(r[|r| - 1])
    ensures r == [] <==> forall i :: 0 <= i < |s| ==> IsWhitespace(s[i])
  {
    var a := LeadingSpace(s);
    var t := s[a..];
    var b := a + |t| - TrailingSpace(t);
    assert s[a..b] == t[..|t| - TrailingSpace(t)];
    s[a..b]
  }

  /** Stripping a string that neither starts nor ends with whitespace leaves it unchanged. */
  lemma StripOfStripped(s: string)
    requires s != [] ==> !IsWhitespace(s[0]) && !IsWhitespace(s[|s| - 1])
    ensures Strip(s) == s
  {
    assert LeadingSpace(s) == 0;
    assert TrailingSpace(s) == 0;
  }

  /** The NUL character survives stripping, since it is not whitespace. */
  lemma StripKeepsNul(s: string)
    ensures '\0' in Strip(s) <==> '\0' in s
  {
    var r := Strip(s);
    var a, b :| && 0 <= a <= b <= |s| && r == s[a..b]
                && (forall i :: 0 <= i < a ==> IsWhitespace(s[i]))
                && (forall i :: b <= i < |s| ==> IsWhitespace(s[i]));
    if '\0' in s {
      var i :| 0 <= i < |s| && s[i] == '\0';
      assert !IsWhitespace(s[i]);
      assert r[i - a] == s[i];
    }
  }

  /** A failed validator of a text field. */
  datatype ValidatorError = TooLong(maxLength: nat) | NullCharacters

  /** Why a text field was refused; a refused validator list names every validator that failed. */
  datatype FieldError = Required | Blank | Invalid(errors: seq<ValidatorError>)

  /** The validators of a text field, in order: the maximum length, then no NUL character. */
  function RunValidators(v: string, maxLength: nat): (errors: seq<ValidatorError>)
    ensures TooLong(maxLength) in errors <==> |v| > maxLength
    ensures NullCharacters in errors <==> '\0' in v
    ensures errors == [] <==> |v| <= maxLength && '\0' !in v
  {
    (if |v| > maxLength then [TooLong(maxLength)] else [])
    + (if '\0' in v then [NullCharacters] else [])
  }

  /** The field is present, not blank, within the length after stripping and free of NUL. */
  predicate Acceptable(value: Option<string>, maxLength: nat)
  {
    && value.Some?
    && Strip(value.value) != []
    && |Strip(value.value)| <= maxLength
    && '\0' !in value.value
  }

  /** A required, non-blank text field of at most maxLength characters; None means absent. */
  function ValidateCharField(value: Option<string>, maxLength: nat): (r: Result<string, FieldError>)
    ensures r.Ok? <==> Acceptable(value, maxLength)
    ensures r.Ok? ==> r.value == Strip(value.value) && 1 <= |r.value| <= maxLength
    ensures r == Err(Required) <==> value.None?
    ensures r == Err(Blank) <==> value.Some? && Strip(value.value) == []
    ensures r.Err? && r.error.Invalid? ==>
              && value.Some? && Strip(value.value) != []
              && (TooLong(maxLength) in r.error.errors <==> |Strip(value.value)| > maxLength)
              && (NullCharacters in r.error.errors <==> '\0' in value.value)
  {
    match value
    case None => Err(Required)
    case Some(s) =>
      var v := Strip(s);
      StripKeepsNul(s);
      if v == [] then Err(Blank)
      else
        var errors := RunValidators(v, maxLength);
        if errors == [] then Ok(v) else Err(Invalid(errors))
  }

  // ---------------------------------------------------------------------
  // UserTokenSerializer: the two fields of the token exchange.
  // ---------------------------------------------------------------------

  const UsernameMaxLength: nat := 50
  const ConfirmationCodeMaxLength: nat := 36

  datatype TokenRequest = TokenRequest(username: string, confirmationCode: string)

  /** The per-field errors; a field that validated has None. */
  datatype TokenErrors = TokenErrors(username: Option<FieldError>, confirmationCode: Option<FieldError>)

  function ErrorOf<T>(r: Result<T, FieldError>): Option<FieldError>
  {
    if r.Err? then Some(r.error) else None
  }

  /** Validates the token-exchange input, collecting the errors of both fields. */
  function ValidateTokenRequest(username: Option<string>, code: Option<string>): (r: Result<TokenRequest, TokenErrors>)
    ensures r.Ok? <==> Acceptable(username, UsernameMaxLength) && Acceptable(code, ConfirmationCodeMaxLength)
    ensures r.Ok? ==> 1 <= |r.value.username| <= UsernameMaxLength
    ensures r.Ok? ==> 1 <= |r.value.confirmationCode| <= ConfirmationCodeMaxLength
    ensures r.Ok? ==> r.value == TokenRequest(Strip(username.value), Strip(code.value))
    ensures r.Err? ==> (r.error.username.None? <==> Acceptable(username, UsernameMaxLength))
    ensures r.Err? ==> (r.error.confirmationCode.None? <==> Acceptable(code, ConfirmationCodeMaxLength))
    ensures r.Err? && username.None? ==> r.error.username == Some(Required)
    ensures r.Err? && username.Some? && Strip(username.value) == [] ==> r.error.username == Some(Blank)
    ensures r.Err? && code.None? ==> r.error.confirmationCode == Some(Required)
    ensures r.Err? && code.Some? && Strip(code.value) == [] ==> r.error.confirmationCode == Some(Blank)
  {
    var u := ValidateCharField(username, UsernameMaxLength);
    var c := ValidateCharField(code, ConfirmationCodeMaxLength);
    if u.Ok? && c.Ok? then Ok(TokenRequest(u.value, c.value))
    else Err(TokenErrors(ErrorOf(u), ErrorOf(c)))
  }

  /** Input within the limits, without surrounding whitespace or NUL, is accepted as it is. */
  lemma TokenRequestWithinLimits(username: string, code: string)
    requires 1 <= |username| <= UsernameMaxLength && 1 <= |code| <= ConfirmationCodeMaxLength
    requires !IsWhitespace(username[0]) && !IsWhitespace(username[|username| - 1])
    requires !IsWhitespace(code[0]) && !IsWhitespace(code[|code| - 1])
    requires '\0' !in username && '\0' !in code
    ensures ValidateTokenRequest(Some(username), Some(code)) == Ok(TokenRequest(username, code))
  {
    StripOfStripped(username);
    StripOfStripped(code);
  }

  /** A username longer than 50 characters, or a code longer than 36, is rejected for that field. */
  lemma TokenRequestTooLong(username: string, code: string)
    requires |Strip(username)| > UsernameMaxLength || |Strip(code)| > ConfirmationCodeMaxLength
    ensures ValidateTokenRequest(Some(username), Some(code)).Err?
    ensures |Strip(username)| > UsernameMaxLength ==>
      var e := ValidateTokenRequest(Some(username), Some(code)).error.username;
      e.Some? && e.value.Invalid? && TooLong(UsernameMaxLength) in e.value.errors
    ensures |Strip(code)| > ConfirmationCodeMaxLength ==>
      var e := ValidateTokenRequest(Some(username), Some(code)).error.confirmationCode;
      e.Some? && e.value.Invalid? && TooLong(ConfirmationCodeMaxLength) in e.value.errors
  {
  }

  /** A username or code holding a NUL character is rejected for that field. */
  lemma TokenRequestNullCharacters(username: string, code: string)
    requires '\0' in username || '\0' in code
    ensures ValidateTokenRequest(Some(username), Some(code)).Err?
    ensures '\0' in username ==>
      var e := ValidateTokenRequest(Some(username), Some(code)).error.username;
      e.Some? && e.value.Invalid? && NullCharacters in e.value.errors
    ensures '\0' in code ==>
      var e := ValidateTokenRequest(Some(username), Some(code)).error.confirmationCode;
      e.Some? && e.value.Invalid? && NullCharacters in e.value.errors
  {
    StripKeepsNul(username);
    StripKeepsNul(code);
  }

  // ---------------------------------------------------------------------
  // UserSerializer.validate_username
  // ---------------------------------------------------------------------

  const ReservedUsername := "me"
  const ReservedUsernameMessage := "Username \"me\" is not allowed"

  /** Rejects exactly the reserved name "me"; every other username comes back unchanged. */
  function ValidateUsername(username: string): (r: Result<string, ApiError>)
    ensures r.Ok? <==> username != ReservedUsername
    ensures r.Ok? ==> r.value == username
    ensures r.Err? ==> r.error == ValidationError(ReservedUsernameMessage)
  {
    if username == ReservedUsername then Err(ValidationError(ReservedUsernameMessage))
    else Ok(username)
  }

  // ---------------------------------------------------------------------
  // TitleGetSerializer.get_rating: the mean score of a title's reviews,
  // as an exact real (the source divides in floating point).
  // ---------------------------------------------------------------------

  /** The reviews of one title, in query order. */
  function TitleReviews(reviews: seq<Review>, title: TitleId): (rs: seq<Review>)
    ensures |rs| <= |reviews|
    ensures forall r :: r in rs ==> r in reviews && r.title == title
  {
    if reviews == [] then []
    else if reviews[0].title == title then [reviews[0]] + TitleReviews(reviews[1..], title)
    else TitleReviews(reviews[1..], title)
  }

  function ScoreSum(reviews: seq<Review>): int
  {
    if reviews == [] then 0 else reviews[0].score + ScoreSum(reviews[1..])
  }

  /** The mean score of some reviews, None for none. */
  function Mean(rs: seq<Review>): (r: Option<real>)
    ensures r.None? <==> rs == []
    ensures r.Some? ==> r.value * (|rs| as real) == ScoreSum(rs) as real
  {
    if |rs| == 0 then None
    else Some(ScoreSum(rs) as real / |rs| as real)
  }

  /** None when the title has no review, otherwise the sum of their scores over their number. */
  function Rating(reviews: seq<Review>, title: TitleId): (r: Option<real>)
    ensures r.None? <==> forall i :: 0 <= i < |reviews| ==> reviews[i].title != title
  {
    var rs := TitleReviews(reviews, title);
    NoTitleReviews(reviews, title);
    Mean(rs)
  }

  lemma {:induction false} NoTitleReviews(reviews: seq<Review>, title: TitleId)
    ensures TitleReviews(reviews, title) == [] <==> forall i :: 0 <= i < |reviews| ==> reviews[i].title != title
  {
    if reviews != [] {
      NoTitleReviews(reviews[1..], title);
      assert forall i :: 1 <= i < |reviews| ==> reviews[i] == reviews[1..][i - 1];
    }
  }

  lemma {:induction false} TitleReviewsAppend(a: seq<Review>, b: seq<Review>, title: TitleId)
    ensures TitleReviews(a + b, title) == TitleReviews(a, title) + TitleReviews(b, title)
  {
    if a != [] {
      assert (a + b)[1..] == a[1..] + b;
      TitleReviewsAppend(a[1..], b, title);
    } else {
      assert a + b == b;
    }
  }

  lemma {:induction false} ScoreSumAppend(a: seq<Review>, b: seq<Review>)
    ensures ScoreSum(a + b) == ScoreSum(a) + ScoreSum(b)
  {
    if a != [] {
      assert (a + b)[1..] == a[1..] + b;
      ScoreSumAppend(a[1..], b);
    } else {
      assert a + b == b;
    }
  }

  /** How often a row occurs among the title's reviews is fixed by how often it occurs at all. */
  lemma {:induction false} TitleReviewsCount(reviews: seq<Review>, title: TitleId, r: Review)
    ensures multiset(TitleReviews(reviews, title))[r] == if r.title == title then multiset(reviews)[r] else 0
  {
    if reviews != [] {
      assert reviews == [reviews[0]] + reviews[1..];
      TitleReviewsCount(reviews[1..], title, r);
    }
  }

  lemma {:induction false} ScoreSumPermutation(a: seq<Review>, b: seq<Review>)
    requires multiset(a) == multiset(b)
    ensures ScoreSum(a) == ScoreSum(b)
    decreases |a|
  {
    if a == [] {
      assert |b| == |multiset(b)| == 0;
    } else {
      var x := a[0];
      assert x in multiset(b);
      var i :| 0 <= i < |b| && b[i] == x;
      assert b == b[..i] + [x] + b[i + 1..];
      var rest := b[..i] + b[i + 1..];
      SeqFacts.RemoveMatchingHead(a, b, i);
      ScoreSumPermutation(a[1..], rest);
      ScoreSumAppend(b[..i], b[i + 1..]);
      ScoreSumAppend(b[..i] + [x], b[i + 1..]);
      ScoreSumAppend(b[..i], [x]);
    }
  }

  /** The rating does not depend on the order in which the reviews are read. */
  lemma RatingIgnoresOrder(a: seq<Review>, b: seq<Review>, title: TitleId)
    requires multiset(a) == multiset(b)
    ensures Rating(a, title) == Rating(b, title)
  {
    var ra, rb := TitleReviews(a, title), TitleReviews(b, title);
    forall r: Review ensures multiset(ra)[r] == multiset(rb)[r] {
      TitleReviewsCount(a, title, r);
      TitleReviewsCount(b, title, r);
    }
    assert multiset(ra) == multiset(rb);
    assert |ra| == |multiset(ra)| == |multiset(rb)| == |rb|;
    ScoreSumPermutation(ra, rb);
  }

  /** Only the title's own reviews matter: the rating over them alone is the same. */
  lemma {:induction false} RatingOnlyReadsTitleReviews(reviews: seq<Review>, title: TitleId)
    ensures TitleReviews(TitleReviews(reviews, title), title) == TitleReviews(reviews, title)
    ensures Rating(TitleReviews(reviews, title), title) == Rating(reviews, title)
  {
    if reviews != [] {
      RatingOnlyReadsTitleReviews(reviews[1..], title);
      var rest := TitleReviews(reviews[1..], title);
      if reviews[0].title == title {
        TitleReviewsAppend([reviews[0]], rest, title);
        assert TitleReviews([reviews[0]], title) == [reviews[0]] + TitleReviews([reviews[0]][1..], title);
      }
    }
  }

  /** Adding a review of another title, anywhere in the sequence, leaves the rating unchanged. */
  lemma RatingIgnoresOtherTitles(a: seq<Review>, b: seq<Review>, r: Review, title: TitleId)
    requires r.title != title
    ensures Rating(a + [r] + b, title) == Rating(a + b, title)
  {
    TitleReviewsAppend(a + [r], b, title);
    TitleReviewsAppend(a, [r], title);
    TitleReviewsAppend(a, b, title);
    assert TitleReviews([r], title) == [] by {
      assert [r][1..] == [];
    }
    assert TitleReviews(a + [r] + b, title) == TitleReviews(a + b, title);
  }

  /** Adding a review of the title itself adds its score to the sum and one to the count. */
  lemma RatingAfterNewReview(reviews: seq<Review>, r: Review)
    ensures |TitleReviews(reviews + [r], r.title)| == |TitleReviews(reviews, r.title)| + 1
    ensures ScoreSum(TitleReviews(reviews + [r], r.title)) == ScoreSum(TitleReviews(reviews, r.title)) + r.score
  {
    TitleReviewsAppend(reviews, [r], r.title);
    assert TitleReviews([r], r.title) == [r];
    ScoreSumAppend(TitleReviews(reviews, r.title), [r]);
  }

  predicate ScoresInRange(reviews: seq<Review>)
  {
    forall i :: 0 <= i < |reviews| ==> 1 <= reviews[i].score <= 10
  }

  lemma {:induction false} ScoreSumBounds(reviews: seq<Review>)
    requires ScoresInRange(reviews)
    ensures |reviews| <= ScoreSum(reviews) <= 10 * |reviews|
  {
    if reviews != [] {
      assert ScoresInRange(reviews[1..]) by {
        forall i | 0 <= i < |reviews[1..]| ensures 1 <= reviews[1..][i].score <= 10 {
          assert reviews[1..][i] == reviews[i + 1];
        }
      }
      ScoreSumBounds(reviews[1..]);
    }
  }

  /** With every score in 1..10, a rating lies in [1, 10]. */
  lemma RatingBounds(reviews: seq<Review>, title: TitleId)
    requires ScoresInRange(reviews)
    ensures Rating(reviews, title).Some? ==> 1.0 <= Rating(reviews, title).value <= 10.0
  {
    var rs := TitleReviews(reviews, title);
    if |rs| > 0 {
      assert ScoresInRange(rs) by {
        forall i | 0 <= i < |rs| ensures 1 <= rs[i].score <= 10 {
          assert rs[i] in rs;
          var j :| 0 <= j < |reviews| && reviews[j] == rs[i];
        }
      }
      ScoreSumBounds(rs);
      QuotientBounds(ScoreSum(rs) as real, |rs| as real);
    }
  }

  lemma QuotientBounds(s: real, n: real)
    requires 0.0 < n && n <= s <= 10.0 * n
    ensures 1.0 <= s / n <= 10.0
  {
    var q := s / n;
    assert q * n == s;
    assert (q - 1.0) * n == s - n >= 0.0;
    assert (10.0 - q) * n == 10.0 * n - s >= 0.0;
  }

  // ---------------------------------------------------------------------
  // ReviewSerializer.validate: one review per author per title.
  // ---------------------------------------------------------------------

  const SecondReviewMessage := "You can not leave the second review on the same title"

  /** The reviews the author has already written on the title. */
  function ReviewsBy(reviews: seq<Review>, author: UserId, title: TitleId): (rs: seq<Review>)
    ensures forall r :: r in rs ==> r in reviews && r.author == author && r.title == title
  {
    if reviews == [] then []
    else if reviews[0].author == author && reviews[0].title == title
    then [reviews[0]] + ReviewsBy(reviews[1..], author, title)
    else ReviewsBy(reviews[1..], author, title)
  }

  predicate HasReviewed(reviews: seq<Review>, author: UserId, title: TitleId)
  {
    exists i :: 0 <= i < |reviews| && reviews[i].author == author && reviews[i].title == title
  }

  lemma {:induction false} ReviewsByEmptyIff(reviews: seq<Review>, author: UserId, title: TitleId)
    ensures ReviewsBy(reviews, author, title) == [] <==> !HasReviewed(reviews, author, title)
  {
    if reviews != [] {
      ReviewsByEmptyIff(reviews[1..], author, title);
      if HasReviewed(reviews[1..], author, title) {
        var i :| 0 <= i < |reviews[1..]| && reviews[1..][i].author == author && reviews[1..][i].title == title;
        assert reviews[i + 1] == reviews[1..][i];
      }
      if HasReviewed(reviews, author, title) && !(reviews[0].author == author && reviews[0].title == title) {
        var i :| 0 <= i < |reviews| && reviews[i].author == author && reviews[i].title == title;
        assert reviews[1..][i - 1] == reviews[i];
      }
    }
  }

  /**
   * The check run before a review is saved. For any method but POST the data
   * comes back as it is; for POST the title must exist and the author may
   * not have reviewed it yet.
   */
  function ValidateReview<D>(verb: string, data: D, title: TitleId, author: UserId,
                             titles: set<TitleId>, reviews: seq<Review>): (r: Result<D, ApiError>)
    ensures r.Ok? ==> r.value == data
    ensures r.Ok? <==> verb != "POST" || (title in titles && !HasReviewed(reviews, author, title))
  {
    ReviewsByEmptyIff(reviews, author, title);
    if verb != "POST" then Ok(data)
    else if title !in titles then Err(NotFound)
    else if |ReviewsBy(reviews, author, title)| > 0 then Err(ValidationError(SecondReviewMessage))
    else Ok(data)
  }

  /** Methods other than POST return the data unchanged, whatever the store holds. */
  lemma ValidateReviewIgnoresStoreUnlessPost<D>(verb: string, data: D, title: TitleId, author: UserId,
                                               titles: set<TitleId>, reviews: seq<Review>,
                                               titles': set<TitleId>, reviews': seq<Review>)
    requires verb != "POST"
    ensures ValidateReview(verb, data, title, author, titles, reviews) == Ok(data)
    ensures ValidateReview(verb, data, title, author, titles, reviews)
         == ValidateReview(verb, data, title, author, titles', reviews')
  {
  }

  /** A POST fails with not-found for an unknown title, with a validation error for a second review, and passes otherwise. */
  lemma ValidateReviewOnPost<D>(data: D, title: TitleId, author: UserId,
                                titles: set<TitleId>, reviews: seq<Review>)
    ensures title !in titles ==> ValidateReview("POST", data, title, author, titles, reviews) == Err(NotFound)
    ensures title in titles && HasReviewed(reviews, author, title) ==>
      ValidateReview("POST", data, title, author, titles, reviews) == Err(ValidationError(SecondReviewMessage))
    ensures title in titles && !HasReviewed(reviews, author, title) ==>
      ValidateReview("POST", data, title, author, titles, reviews) == Ok(data)
  {
    ReviewsByEmptyIff(reviews, author, title);
  }

  /** At most one review per (author, title) pair. */
  predicate OneReviewPerAuthorAndTitle(reviews: seq<Review>)
  {
    forall i, j :: 0 <= i < j < |reviews| ==>
      reviews[i].author != reviews[j].author || reviews[i].title != reviews[j].title
  }

  /** Appending a review only after its POST validation passed keeps one review per author and title. */
  lemma PostedReviewKeepsUniqueness<D>(data: D, r: Review, titles: set<TitleId>, reviews: seq<Review>)
    requires OneReviewPerAuthorAndTitle(reviews)
    requires ValidateReview("POST", data, r.title, r.author, titles, reviews).Ok?
    ensures OneReviewPerAuthorAndTitle(reviews + [r])
  {
    var rs := reviews + [r];
    forall i, j | 0 <= i < j < |rs|
      ensures rs[i].author != rs[j].author || rs[i].title != rs[j].title
    {
      if j == |reviews| {
        assert rs[i] == reviews[i];
      } else {
        assert rs[i] == reviews[i] && rs[j] == reviews[j];
      }
    }
  }

  /** Once a review is in, a second POST by the same author on the same title is rejected. */
  lemma SecondPostRejected<D>(data: D, r: Review, titles: set<TitleId>, reviews: seq<Review>)
    requires r.title in titles
    ensures ValidateReview("POST", data, r.title, r.author, titles, reviews + [r])
         == Err(ValidationError(SecondReviewMessage))
  {
    assert (reviews + [r])[|reviews|] == r;
    ReviewsByEmptyIff(reviews + [r], r.author, r.title);
  }
}
