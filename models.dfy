/**
 * The domain model of YaMDb (api_yamdb/reviews/models.py): the rows of the
 * seven tables, the score and role choices, and the year check that
 * Title.save performs before a title is written.
 *
 * Every table has an integer primary key; rows are stored in maps keyed by
 * it (see module Store), so the rows below do not repeat their own id.
 */
module Models {
  import opened Results

  type UserId = int
  type CategoryId = int
  type GenreId = int
  type TitleId = int
  type GenreTitleId = int
  type ReviewId = int
  type CommentId = int

  /** A user account. bio, first_name and last_name are nullable columns. */
  datatype User = User(
    username: string,
    email: string,
    role: string,
    bio: Option<string>,
    firstName: Option<string>,
    lastName: Option<string>)

  datatype Category = Category(name: string, slug: string)

  datatype Genre = Genre(name: string, slug: string)

  /** A title; its category is a nullable foreign key (SET_NULL on delete). */
  datatype Title = Title(name: string, year: int, category: Option<CategoryId>)

  /** The association of a title with one of its genres. */
  datatype GenreTitle = GenreTitle(title: TitleId, genre: GenreId)

  /**
   * A review. The column is a two-character string restricted to the score
   * choices; the model keeps the integer key, which is what the rating
   * reads back with int().
   */
  datatype Review = Review(title: TitleId, text: string, author: UserId, score: int)

  datatype Comment = Comment(review: ReviewId, text: string, author: UserId)

  // ---------------------------------------------------------------------
  // Choices. A choice list pairs a stored key with a human-readable label.
  // A value submitted for a choice field is accepted when it is the decimal
  // text of one of the keys, and the key is what gets stored.
  // ---------------------------------------------------------------------

  const ScoreChoices: seq<(nat, string)> :=
    [(1, "1"), (2, "2"), (3, "3"), (4, "4"), (5, "5"),
     (6, "6"), (7, "7"), (8, "8"), (9, "9"), (10, "10")]

  const UserRoleChoices: seq<(nat, string)> :=
    [(1, "user"), (2, "moderator"), (3, "admin")]

  function DigitChar(d: nat): char
    requires d < 10
  {
    "0123456789"[d]
  }

  /** The decimal text of a natural number, as Python's str() writes it. */
  function DecimalString(n: nat): (s: string)
    ensures 1 <= |s|
    ensures n < 10 <==> |s| == 1
  {
    if n < 10 then [DigitChar(n)] else DecimalString(n / 10) + [DigitChar(n % 10)]
  }

  /** Different numbers have different decimal texts. */
  lemma {:induction false} DecimalStringInjective(a: nat, b: nat)
    requires DecimalString(a) == DecimalString(b)
    ensures a == b
  {
    if a >= 10 && b >= 10 {
      var sa, sb := DecimalString(a), DecimalString(b);
      assert sa[|sa| - 1] == DigitChar(a % 10) && sb[|sb| - 1] == DigitChar(b % 10);
      assert a % 10 == b % 10;
      assert sa[..|sa| - 1] == DecimalString(a / 10);
      assert sb[..|sb| - 1] == DecimalString(b / 10);
      DecimalStringInjective(a / 10, b / 10);
    }
  }

  /** The key whose decimal text is `input`, if any: how a choice field resolves a submitted value. */
  function ChoiceKey(choices: seq<(nat, string)>, input: string): (r: Option<nat>)
    ensures r.Some? ==> DecimalString(r.value) == input
    ensures r.Some? ==> exists i :: 0 <= i < |choices| && choices[i].0 == r.value
    ensures r.None? ==> forall i :: 0 <= i < |choices| ==> DecimalString(choices[i].0) != input
  {
    if choices == [] then None
    else if DecimalString(choices[0].0) == input then Some(choices[0].0)
    else ChoiceKey(choices[1..], input)
  }

  /** Every key of a choice list is accepted when its decimal text is submitted, and resolves to itself. */
  lemma ChoiceKeyOfKey(choices: seq<(nat, string)>, i: nat)
    requires i < |choices|
    ensures ChoiceKey(choices, DecimalString(choices[i].0)) == Some(choices[i].0)
  {
    var r := ChoiceKey(choices, DecimalString(choices[i].0));
    if r.Some? {
      DecimalStringInjective(r.value, choices[i].0);
    }
  }

  /** A score is valid when it is one of the keys of the score choices. */
  predicate IsScore(score: int)
  {
    exists i :: 0 <= i < |ScoreChoices| && ScoreChoices[i].0 == score
  }

  /** The score choices are exactly the ten values 1..10. */
  lemma ScoreChoicesAreOneToTen(score: int)
    ensures IsScore(score) <==> 1 <= score <= 10
  {
    if 1 <= score <= 10 {
      assert ScoreChoices[score - 1].0 == score;
    }
  }

  /** The score stored for a submitted value, or None when the value is not a valid choice. */
  function AcceptScore(input: string): (r: Option<int>)
    ensures r.Some? ==> 1 <= r.value <= 10
    ensures r.Some? ==> DecimalString(r.value) == input
    ensures r.Some? <==> exists s :: 1 <= s <= 10 && input == DecimalString(s)
  {
    match ChoiceKey(ScoreChoices, input)
    case None =>
      assert forall s :: 1 <= s <= 10 ==> input != DecimalString(s) by {
        forall s | 1 <= s <= 10 ensures input != DecimalString(s) {
          assert ScoreChoices[s - 1].0 == s;
        }
      }
      None
    case Some(k) =>
      ScoreChoicesAreOneToTen(k);
      Some(k)
  }

  /** Each score 1..10 is accepted from its decimal text and stored unchanged. */
  lemma AcceptScoreOfDecimal(score: int)
    requires 1 <= score <= 10
    ensures AcceptScore(DecimalString(score)) == Some(score)
  {
    assert ScoreChoices[score - 1].0 == score;
    ChoiceKeyOfKey(ScoreChoices, score - 1);
  }

  /** The role string stored for a submitted value: the decimal text of the chosen key. */
  function AcceptRole(input: string): (r: Option<string>)
    ensures r.Some? ==> r.value == input
  {
    match ChoiceKey(UserRoleChoices, input)
    case None => None
    case Some(k) => Some(DecimalString(k))
  }

  /**
   * The role choices store the keys "1", "2" and "3"; the labels are not
   * accepted, so no role written through the choices is the string "admin".
   */
  lemma AcceptedRoles(input: string)
    ensures AcceptRole(input).Some? <==> input in {"1", "2", "3"}
    ensures AcceptRole(input) != Some("admin")
  {
    if AcceptRole(input).Some? {
      var k :| 0 <= k < |UserRoleChoices| && UserRoleChoices[k].0 == ChoiceKey(UserRoleChoices, input).value;
      assert k == 0 || k == 1 || k == 2;
    }
    if input == "1" {
      ChoiceKeyOfKey(UserRoleChoices, 0);
    } else if input == "2" {
      ChoiceKeyOfKey(UserRoleChoices, 1);
    } else if input == "3" {
      ChoiceKeyOfKey(UserRoleChoices, 2);
    }
  }

  // ---------------------------------------------------------------------
  // Title.save: the year is checked against the current year (a parameter
  // here: the source reads the clock) before the row is written.
  // ---------------------------------------------------------------------

  /** The two validation errors Title.save raises: a year in the future, a year not above zero. */
  datatype YearError = FutureYear | InvalidYear

  /** None when the year may be saved, otherwise the validation error raised. */
  function CheckYear(year: int, currentYear: int): (r: Option<YearError>)
    ensures r.None? <==> 1 <= year <= currentYear
    ensures year > currentYear ==> r == Some(FutureYear)
    ensures r == Some(InvalidYear) <==> year <= 0 && year <= currentYear
  {
    if year > currentYear then Some(FutureYear)
    else if year <= 0 then Some(InvalidYear)
    else None
  }
}
