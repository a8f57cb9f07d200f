/**
 * The relational store behind the models (api_yamdb/reviews/models.py): one
 * map per table, keyed by primary key, with the writes the models allow and
 * the deletions with their on_delete rules. Category is SET_NULL on Title;
 * every other foreign key is CASCADE.
 *
 * The object invariant Valid() is what holds between writes: unique slugs
 * and no foreign key pointing at a missing row, which the database enforces;
 * a positive year, which Title.save checks; and a score among the choices,
 * which holds because reviews are written through the review serializer,
 * whose choice field refuses any other score (Model.save itself does not
 * check choices).
 */
module Store {
  import opened Results
  import opened Models
  import Serializers
  import SeqFacts

  /**
   * Why a write was refused. DuplicateKey, DuplicateSlug and MissingReference
   * are the database's integrity errors; the others are validation errors.
   */
  datatype StoreError =
    | DuplicateKey
    | DuplicateSlug
    | MissingReference
    | InvalidScore
    | InvalidTitleYear(error: YearError)

  // ---------------------------------------------------------------------
  // The rows a deletion reaches through a foreign key.
  // ---------------------------------------------------------------------

  function ReviewsOfTitle(reviews: map<ReviewId, Review>, title: TitleId): set<ReviewId>
  {
    set k | k in reviews && reviews[k].title == title
  }

  function ReviewsByAuthor(reviews: map<ReviewId, Review>, author: UserId): set<ReviewId>
  {
    set k | k in reviews && reviews[k].author == author
  }

  function CommentsOnReviews(comments: map<CommentId, Comment>, doomed: set<ReviewId>): set<CommentId>
  {
    set k | k in comments && comments[k].review in doomed
  }

  function CommentsByAuthor(comments: map<CommentId, Comment>, author: UserId): set<CommentId>
  {
    set k | k in comments && comments[k].author == author
  }

  function GenreTitlesOfTitle(genreTitles: map<GenreTitleId, GenreTitle>, title: TitleId): set<GenreTitleId>
  {
    set k | k in genreTitles && genreTitles[k].title == title
  }

  function GenreTitlesOfGenre(genreTitles: map<GenreTitleId, GenreTitle>, genre: GenreId): set<GenreTitleId>
  {
    set k | k in genreTitles && genreTitles[k].genre == genre
  }

  // ---------------------------------------------------------------------
  // Review rows listed by key, as a query returns them.
  // ---------------------------------------------------------------------

  /** ids lists every key of `keys` exactly once, in some order. */
  predicate Enumerates(ids: seq<ReviewId>, keys: set<ReviewId>)
  {
    && (forall i, j :: 0 <= i < j < |ids| ==> ids[i] != ids[j])
    && (forall k :: k in keys ==> k in ids)
    && (forall i :: 0 <= i < |ids| ==> ids[i] in keys)
  }

  /** Every key listed has a row. */
  predicate AllStored(reviews: map<ReviewId, Review>, ids: seq<ReviewId>)
  {
    forall i :: 0 <= i < |ids| ==> ids[i] in reviews
  }

  /** The rows stored under the given keys, in the same order. */
  function Rows(reviews: map<ReviewId, Review>, ids: seq<ReviewId>): (rs: seq<Review>)
    requires AllStored(reviews, ids)
    ensures |rs| == |ids|
  {
    if ids == [] then [] else [reviews[ids[0]]] + Rows(reviews, ids[1..])
  }

  /** Position i of the rows is the row stored under ids[i]. */
  lemma {:induction false} RowsAt(reviews: map<ReviewId, Review>, ids: seq<ReviewId>)
    requires AllStored(reviews, ids)
    ensures forall i :: 0 <= i < |ids| ==> Rows(reviews, ids)[i] == reviews[ids[i]]
  {
    if ids != [] {
      assert AllStored(reviews, ids[1..]) by {
        forall j | 0 <= j < |ids[1..]| ensures ids[1..][j] in reviews { assert ids[1..][j] == ids[j + 1]; }
      }
      RowsAt(reviews, ids[1..]);
      forall i | 1 <= i < |ids| ensures Rows(reviews, ids)[i] == reviews[ids[i]] {
        assert Rows(reviews, ids)[i] == Rows(reviews, ids[1..])[i - 1];
        assert ids[1..][i - 1] == ids[i];
      }
    }
  }

  /** A key occurs at most once in a list without repetitions. */
  lemma {:induction false} DistinctCount(ids: seq<ReviewId>, k: ReviewId)
    requires forall i, j :: 0 <= i < j < |ids| ==> ids[i] != ids[j]
    ensures multiset(ids)[k] == if k in ids then 1 else 0
  {
    if ids != [] {
      assert ids == [ids[0]] + ids[1..];
      assert forall i, j :: 0 <= i < j < |ids[1..]| ==> ids[1..][i] == ids[i + 1] != ids[j + 1] == ids[1..][j];
      DistinctCount(ids[1..], k);
      assert ids[0] !in ids[1..] by {
        forall i | 0 <= i < |ids[1..]| ensures ids[1..][i] != ids[0] {
          assert ids[1..][i] == ids[i + 1];
        }
      }
    }
  }

  /** Two listings of the same keys differ only in order. */
  lemma EnumerationsArePermutations(a: seq<ReviewId>, b: seq<ReviewId>, keys: set<ReviewId>)
    requires Enumerates(a, keys) && Enumerates(b, keys)
    ensures multiset(a) == multiset(b)
  {
    forall k ensures multiset(a)[k] == multiset(b)[k] {
      DistinctCount(a, k);
      DistinctCount(b, k);
    }
  }

  /** The rows of two listings one after the other are the rows of the joined listing. */
  lemma {:induction false} RowsAppend(reviews: map<ReviewId, Review>, x: seq<ReviewId>, y: seq<ReviewId>)
    requires AllStored(reviews, x) && AllStored(reviews, y)
    ensures AllStored(reviews, x + y)
    ensures Rows(reviews, x + y) == Rows(reviews, x) + Rows(reviews, y)
  {
    assert AllStored(reviews, x + y) by {
      forall j | 0 <= j < |x + y| ensures (x + y)[j] in reviews {
        if j < |x| { assert (x + y)[j] == x[j]; } else { assert (x + y)[j] == y[j - |x|]; }
      }
    }
    if x != [] {
      assert (x + y)[1..] == x[1..] + y;
      assert AllStored(reviews, x[1..]) by {
        forall j | 0 <= j < |x[1..]| ensures x[1..][j] in reviews { assert x[1..][j] == x[j + 1]; }
      }
      RowsAppend(reviews, x[1..], y);
    } else {
      assert x + y == y;
    }
  }

  /** Taking one key out of the middle of a listing takes its row out of the same place. */
  lemma RowsWithout(reviews: map<ReviewId, Review>, b: seq<ReviewId>, i: nat)
    requires i < |b|
    requires AllStored(reviews, b)
    ensures AllStored(reviews, b[..i] + b[i + 1..])
    ensures multiset(Rows(reviews, b))
         == multiset(Rows(reviews, b[..i] + b[i + 1..])) + multiset{reviews[b[i]]}
  {
    var front, back := b[..i], b[i + 1..];
    assert AllStored(reviews, front) by {
      forall j | 0 <= j < |front| ensures front[j] in reviews { assert front[j] == b[j]; }
    }
    assert AllStored(reviews, back) by {
      forall j | 0 <= j < |back| ensures back[j] in reviews { assert back[j] == b[j + i + 1]; }
    }
    var x := b[i];
    assert AllStored(reviews, [x]);
    assert Rows(reviews, [x]) == [reviews[x]];
    RowsAppend(reviews, front, [x]);
    RowsAppend(reviews, front + [x], back);
    assert front + [x] + back == b;
    assert Rows(reviews, b) == Rows(reviews, front) + [reviews[x]] + Rows(reviews, back);
    RowsAppend(reviews, front, back);
  }

  /** Listing the same keys in another order lists the same rows in another order. */
  lemma {:induction false} RowsPermutation(reviews: map<ReviewId, Review>, a: seq<ReviewId>, b: seq<ReviewId>)
    requires AllStored(reviews, a) && AllStored(reviews, b)
    requires multiset(a) == multiset(b)
    ensures multiset(Rows(reviews, a)) == multiset(Rows(reviews, b))
    decreases |a|
  {
    if a == [] {
      assert |b| == |multiset(b)| == 0;
    } else {
      var i := IndexOf(a[0], b);
      var rest := b[..i] + b[i + 1..];
      SeqFacts.RemoveMatchingHead(a, b, i);
      RowsWithout(reviews, b, i);
      RowsFirst(reviews, a);
      RowsPermutation(reviews, a[1..], rest);
    }
  }

  /** The rows of a listing are the first key's row and the rows of the rest. */
  lemma RowsFirst(reviews: map<ReviewId, Review>, a: seq<ReviewId>)
    requires a != [] && AllStored(reviews, a)
    ensures AllStored(reviews, a[1..])
    ensures multiset(Rows(reviews, a)) == multiset{reviews[a[0]]} + multiset(Rows(reviews, a[1..]))
  {
    assert forall j :: 0 <= j < |a[1..]| ==> a[1..][j] == a[j + 1];
    assert Rows(reviews, a) == [reviews[a[0]]] + Rows(reviews, a[1..]);
  }

  /** A position of x in b, given that x occurs in b. */
  lemma IndexOf(x: ReviewId, b: seq<ReviewId>) returns (i: nat)
    requires x in multiset(b)
    ensures i < |b| && b[i] == x
  {
    assert x in b;
    i :| 0 <= i < |b| && b[i] == x;
  }

  class Database {
    var users: map<UserId, User>
    var categories: map<CategoryId, Category>
    var genres: map<GenreId, Genre>
    var titles: map<TitleId, Title>
    var genreTitles: map<GenreTitleId, GenreTitle>
    var reviews: map<ReviewId, Review>
    var comments: map<CommentId, Comment>

    /** Category and genre slugs are unique. */
    ghost predicate SlugsUnique()
      reads this
    {
      && (forall a, b :: a in categories && b in categories && categories[a].slug == categories[b].slug ==> a == b)
      && (forall a, b :: a in genres && b in genres && genres[a].slug == genres[b].slug ==> a == b)
    }

    /** Every foreign key points at an existing row; a title's category may be null. */
    ghost predicate NoDanglingReferences()
      reads this
    {
      && (forall k :: k in titles && titles[k].category.Some? ==> titles[k].category.value in categories)
      && (forall k :: k in genreTitles ==> genreTitles[k].title in titles && genreTitles[k].genre in genres)
      && (forall k :: k in reviews ==> reviews[k].title in titles && reviews[k].author in users)
      && (forall k :: k in comments ==> comments[k].review in reviews && comments[k].author in users)
    }

    /**
     * The field checks on the write path: Title.save refuses a year below one,
     * and the review serializer's choice field refuses a score outside 1..10.
     */
    ghost predicate FieldsValid()
      reads this
    {
      && (forall k :: k in titles ==> titles[k].year >= 1)
      && (forall k :: k in reviews ==> 1 <= reviews[k].score <= 10)
    }

    ghost predicate Valid()
      reads this
    {
      SlugsUnique() && NoDanglingReferences() && FieldsValid()
    }

    constructor ()
      ensures Valid()
      ensures users == map[] && categories == map[] && genres == map[] && titles == map[]
      ensures genreTitles == map[] && reviews == map[] && comments == map[]
    {
      users, categories, genres, titles := map[], map[], map[], map[];
      genreTitles, reviews, comments := map[], map[], map[];
    }

    // -------------------------------------------------------------------
    // Writes
    // -------------------------------------------------------------------

    /**
     * Inserts a user under a new key. The role is stored as given: sign-up
     * leaves it at the column's empty default, and only the user serializer
     * checks it against the role choices (Models.AcceptRole).
     */
    method AddUser(id: UserId, user: User) returns (err: Option<StoreError>)
      requires Valid()
      modifies this
      ensures Valid()
      ensures err.None? <==> id !in old(users)
      ensures err.Some? ==> err.value == DuplicateKey
      ensures users == if err.None? then old(users)[id := user] else old(users)
      ensures categories == old(categories) && genres == old(genres) && titles == old(titles)
      ensures genreTitles == old(genreTitles) && reviews == old(reviews) && comments == old(comments)
    {
      if id in users {
        return Some(DuplicateKey);
      }
      users := users[id := user];
      return None;
    }

    /** Inserts a category; a used key or a slug another category has is refused. */
    method AddCategory(id: CategoryId, category: Category) returns (err: Option<StoreError>)
      requires Valid()
      modifies this
      ensures Valid()
      ensures id in old(categories) ==> err == Some(DuplicateKey)
      ensures (exists k :: k in old(categories) && old(categories)[k].slug == category.slug) ==> err.Some?
      ensures err.None? <==>
                && id !in old(categories)
                && (forall k :: k in old(categories) ==> old(categories)[k].slug != category.slug)
      ensures categories == if err.None? then old(categories)[id := category] else old(categories)
      ensures users == old(users) && genres == old(genres) && titles == old(titles)
      ensures genreTitles == old(genreTitles) && reviews == old(reviews) && comments == old(comments)
    {
      if id in categories {
        return Some(DuplicateKey);
      }
      if exists k :: k in categories && categories[k].slug == category.slug {
        return Some(DuplicateSlug);
      }
      categories := categories[id := category];
      return None;
    }

    /** Inserts a genre; a used key or a slug another genre has is refused. */
    method AddGenre(id: GenreId, genre: Genre) returns (err: Option<StoreError>)
      requires Valid()
      modifies this
      ensures Valid()
      ensures id in old(genres) ==> err == Some(DuplicateKey)
      ensures (exists k :: k in old(genres) && old(genres)[k].slug == genre.slug) ==> err.Some?
      ensures err.None? <==>
                && id !in old(genres)
                && (forall k :: k in old(genres) ==> old(genres)[k].slug != genre.slug)
      ensures genres == if err.None? then old(genres)[id := genre] else old(genres)
      ensures users == old(users) && categories == old(categories) && titles == old(titles)
      ensures genreTitles == old(genreTitles) && reviews == old(reviews) && comments == old(comments)
    {
      if id in genres {
        return Some(DuplicateKey);
      }
      if exists k :: k in genres && genres[k].slug == genre.slug {
        return Some(DuplicateSlug);
      }
      genres := genres[id := genre];
      return None;
    }

    /**
     * Title.save: the year is checked first (future, then non-positive);
     * then the row is inserted, or replaces the row with the same key.
     */
    method SaveTitle(id: TitleId, title: Title, currentYear: int) returns (err: Option<StoreError>)
      requires Valid()
      modifies this
      ensures Valid()
      ensures CheckYear(title.year, currentYear).Some? ==>
                err == Some(InvalidTitleYear(CheckYear(title.year, currentYear).value))
      ensures err.None? <==>
                && 1 <= title.year <= currentYear
                && (title.category.Some? ==> title.category.value in old(categories))
      ensures titles == if err.None? then old(titles)[id := title] else old(titles)
      ensures users == old(users) && categories == old(categories) && genres == old(genres)
      ensures genreTitles == old(genreTitles) && reviews == old(reviews) && comments == old(comments)
    {
      var yearError := CheckYear(title.year, currentYear);
      if yearError.Some? {
        return Some(InvalidTitleYear(yearError.value));
      }
      if title.category.Some? && title.category.value !in categories {
        return Some(MissingReference);
      }
      titles := titles[id := title];
      return None;
    }

    method AddGenreTitle(id: GenreTitleId, row: GenreTitle) returns (err: Option<StoreError>)
      requires Valid()
      modifies this
      ensures Valid()
      ensures err.None? <==> id !in old(genreTitles) && row.title in old(titles) && row.genre in old(genres)
      ensures genreTitles == if err.None? then old(genreTitles)[id := row] else old(genreTitles)
      ensures users == old(users) && categories == old(categories) && genres == old(genres)
      ensures titles == old(titles) && reviews == old(reviews) && comments == old(comments)
    {
      if id in genreTitles {
        return Some(DuplicateKey);
      }
      if row.title !in titles || row.genre !in genres {
        return Some(MissingReference);
      }
      genreTitles := genreTitles[id := row];
      return None;
    }

    /**
     * Inserts a review as the API writes it: the serializer's choice field
     * refuses a score that is not one of the score choices, then the row is
     * created with its foreign keys checked.
     */
    method AddReview(id: ReviewId, review: Review) returns (err: Option<StoreError>)
      requires Valid()
      modifies this
      ensures Valid()
      ensures !IsScore(review.score) ==> err.Some?
      ensures err.None? <==>
                && id !in old(reviews) && 1 <= review.score <= 10
                && review.title in old(titles) && review.author in old(users)
      ensures reviews == if err.None? then old(reviews)[id := review] else old(reviews)
      ensures users == old(users) && categories == old(categories) && genres == old(genres)
      ensures titles == old(titles) && genreTitles == old(genreTitles) && comments == old(comments)
    {
      ScoreChoicesAreOneToTen(review.score);
      if id in reviews {
        return Some(DuplicateKey);
      }
      if !IsScore(review.score) {
        return Some(InvalidScore);
      }
      if review.title !in titles || review.author !in users {
        return Some(MissingReference);
      }
      reviews := reviews[id := review];
      return None;
    }

    method AddComment(id: CommentId, comment: Comment) returns (err: Option<StoreError>)
      requires Valid()
      modifies this
      ensures Valid()
      ensures err.None? <==> id !in old(comments) && comment.review in old(reviews) && comment.author in old(users)
      ensures comments == if err.None? then old(comments)[id := comment] else old(comments)
      ensures users == old(users) && categories == old(categories) && genres == old(genres)
      ensures titles == old(titles) && genreTitles == old(genreTitles) && reviews == old(reviews)
    {
      if id in comments {
        return Some(DuplicateKey);
      }
      if comment.review !in reviews || comment.author !in users {
        return Some(MissingReference);
      }
      comments := comments[id := comment];
      return None;
    }

    // -------------------------------------------------------------------
    // Deletions and their on_delete rules
    // -------------------------------------------------------------------

    /** SET_NULL: every title keeps its row; those in the category lose it. */
    method DeleteCategory(id: CategoryId)
      requires Valid()
      modifies this
      ensures Valid()
      ensures categories == old(categories) - {id}
      ensures titles.Keys == old(titles).Keys
      ensures forall k :: k in titles ==>
                titles[k] == if old(titles)[k].category == Some(id)
                             then old(titles)[k].(category := None)
                             else old(titles)[k]
      ensures users == old(users) && genres == old(genres)
      ensures genreTitles == old(genreTitles) && reviews == old(reviews) && comments == old(comments)
    {
      titles := map k | k in titles ::
        if titles[k].category == Some(id) then titles[k].(category := None) else titles[k];
      categories := categories - {id};
    }

    /** CASCADE: the genre's title associations go with it. */
    method DeleteGenre(id: GenreId)
      requires Valid()
      modifies this
      ensures Valid()
      ensures genres == old(genres) - {id}
      ensures genreTitles == old(genreTitles) - GenreTitlesOfGenre(old(genreTitles), id)
      ensures users == old(users) && categories == old(categories) && titles == old(titles)
      ensures reviews == old(reviews) && comments == old(comments)
    {
      genreTitles := genreTitles - GenreTitlesOfGenre(genreTitles, id);
      genres := genres - {id};
    }

    /** CASCADE: the title's genre associations and reviews go, and the comments on those reviews. */
    method DeleteTitle(id: TitleId)
      requires Valid()
      modifies this
      ensures Valid()
      ensures titles == old(titles) - {id}
      ensures genreTitles == old(genreTitles) - GenreTitlesOfTitle(old(genreTitles), id)
      ensures reviews == old(reviews) - ReviewsOfTitle(old(reviews), id)
      ensures comments == old(comments) - CommentsOnReviews(old(comments), ReviewsOfTitle(old(reviews), id))
      ensures users == old(users) && categories == old(categories) && genres == old(genres)
    {
      var doomed := ReviewsOfTitle(reviews, id);
      comments := comments - CommentsOnReviews(comments, doomed);
      reviews := reviews - doomed;
      genreTitles := genreTitles - GenreTitlesOfTitle(genreTitles, id);
      titles := titles - {id};
    }

    /** CASCADE: the comments on the review go with it. */
    method DeleteReview(id: ReviewId)
      requires Valid()
      modifies this
      ensures Valid()
      ensures reviews == old(reviews) - {id}
      ensures comments == old(comments) - CommentsOnReviews(old(comments), {id})
      ensures users == old(users) && categories == old(categories) && genres == old(genres)
      ensures titles == old(titles) && genreTitles == old(genreTitles)
    {
      comments := comments - CommentsOnReviews(comments, {id});
      reviews := reviews - {id};
    }

    method DeleteComment(id: CommentId)
      requires Valid()
      modifies this
      ensures Valid()
      ensures comments == old(comments) - {id}
      ensures users == old(users) && categories == old(categories) && genres == old(genres)
      ensures titles == old(titles) && genreTitles == old(genreTitles) && reviews == old(reviews)
    {
      comments := comments - {id};
    }

    /**
     * CASCADE: the user's reviews and comments go, and with the reviews every
     * comment on them, whoever wrote it.
     */
    method DeleteUser(id: UserId)
      requires Valid()
      modifies this
      ensures Valid()
      ensures users == old(users) - {id}
      ensures reviews == old(reviews) - ReviewsByAuthor(old(reviews), id)
      ensures comments == old(comments)
                          - CommentsByAuthor(old(comments), id)
                          - CommentsOnReviews(old(comments), ReviewsByAuthor(old(reviews), id))
      ensures categories == old(categories) && genres == old(genres)
      ensures titles == old(titles) && genreTitles == old(genreTitles)
    {
      var doomed := ReviewsByAuthor(reviews, id);
      comments := comments - CommentsByAuthor(comments, id) - CommentsOnReviews(comments, doomed);
      reviews := reviews - doomed;
      users := users - {id};
    }

    // -------------------------------------------------------------------
    // Reads
    // -------------------------------------------------------------------

    /** The category with the slug, if any; at most one category has it. */
    function CategoryBySlug(slug: string): (r: Option<CategoryId>)
      requires Valid()
      reads this
      ensures r.Some? ==> r.value in categories && categories[r.value].slug == slug
      ensures forall k :: k in categories && categories[k].slug == slug ==> r == Some(k)
    {
      if exists k :: k in categories && categories[k].slug == slug then
        var k :| k in categories && categories[k].slug == slug;
        Some(k)
      else
        None
    }

    /** The genre with the slug, if any; at most one genre has it. */
    function GenreBySlug(slug: string): (r: Option<GenreId>)
      requires Valid()
      reads this
      ensures r.Some? ==> r.value in genres && genres[r.value].slug == slug
      ensures forall k :: k in genres && genres[k].slug == slug ==> r == Some(k)
    {
      if exists k :: k in genres && genres[k].slug == slug then
        var k :| k in genres && genres[k].slug == slug;
        Some(k)
      else
        None
    }

    /** The keys of the title's reviews, each once: the query the rating reads. */
    method FilterReviewsByTitle(title: TitleId) returns (ids: seq<ReviewId>)
      ensures Enumerates(ids, ReviewsOfTitle(reviews, title))
    {
      var rows := reviews;
      ids := [];
      var left, done: set<ReviewId> := rows.Keys, {};
      while exists key :: key in left
        invariant forall k :: k in rows <==> k in left || k in done
        invariant left !! done
        invariant forall i, j :: 0 <= i < j < |ids| ==> ids[i] != ids[j]
        invariant forall i :: 0 <= i < |ids| ==> ids[i] in done && ids[i] in rows && rows[ids[i]].title == title
        invariant forall k :: k in done && rows[k].title == title ==> k in ids
        decreases left
      {
        var key :| key in left;
        if rows[key].title == title {
          ids := ids + [key];
        }
        left, done := left - {key}, done + {key};
      }
    }

    /**
     * TitleGetSerializer.get_rating over the stored reviews: None for a title
     * without reviews, otherwise a mean in [1, 10], the same whatever order
     * the query lists the reviews in.
     */
    method GetRating(title: TitleId) returns (rating: Option<real>)
      requires Valid()
      ensures rating.None? <==> forall k :: k in reviews ==> reviews[k].title != title
      ensures rating.Some? ==> 1.0 <= rating.value <= 10.0
      ensures forall ids :: Enumerates(ids, ReviewsOfTitle(reviews, title)) ==>
                rating == Serializers.Rating(Rows(reviews, ids), title)
    {
      var ids := FilterReviewsByTitle(title);
      var rows := Rows(reviews, ids);
      RowsAt(reviews, ids);
      rating := Serializers.Rating(rows, title);
      assert Serializers.ScoresInRange(rows);
      Serializers.RatingBounds(rows, title);
      if exists k :: k in reviews && reviews[k].title == title {
        var k :| k in reviews && reviews[k].title == title;
        assert k in ReviewsOfTitle(reviews, title);
        var i :| 0 <= i < |ids| && ids[i] == k;
        assert rows[i].title == title;
      }
      forall other | Enumerates(other, ReviewsOfTitle(reviews, title))
        ensures rating == Serializers.Rating(Rows(reviews, other), title)
      {
        EnumerationsArePermutations(ids, other, ReviewsOfTitle(reviews, title));
        RowsPermutation(reviews, ids, other);
        Serializers.RatingIgnoresOrder(rows, Rows(reviews, other), title);
      }
    }
  }
}
