/** The records of the reviews app (UserFollow, Ticket, Review) and the constraints that the
    database schema and the model validators put on them. Users belong to the framework's
    authentication system; here a user is only an identifier. */
module Models {

  type UserId = nat
  type TicketId = nat
  type ReviewId = nat
  type FollowId = nat

  datatype Option<T> = None | Some(value: T)

  const TitleMaxLength: nat := 128
  const DescriptionMaxLength: nat := 2048
  const HeadlineMaxLength: nat := 128
  const BodyMaxLength: nat := 8192
  const MinRating: int := 1
  const MaxRating: int := 5

  /** A UserFollow row: `user` follows `followedUser`. */
  datatype Follow = Follow(user: UserId, followedUser: UserId)

  /** A Ticket row; `image` is the stored file reference, if any. */
  datatype Ticket = Ticket(
    title: string,
    description: string,
    user: UserId,
    timeCreated: int,
    image: Option<string>)

  /** A Review row; `ticket` is the one-to-one link to the ticket it answers. */
  datatype Review = Review(
    ticket: TicketId,
    rating: int,
    headline: string,
    body: string,
    user: UserId,
    timeCreated: int)

  /** What the image widget of a TicketForm (a clearable file input) submits: no file, the
      "clear" box ticked, an uploaded file (`reference` is the name the storage gives it, `isImage`
      whether it decodes as an image), or a file together with the ticked "clear" box. */
  datatype ImageInput = NoFile | ClearImage | Upload(reference: string, isImage: bool) | UploadAndClear

  /** The ImageField's verdict: an upload must be an image, and a file may not be sent together
      with the "clear" box. The field itself is optional. */
  predicate ImageInputValid(input: ImageInput)
  {
    match input
    case NoFile => true
    case ClearImage => true
    case Upload(_, isImage) => isImage
    case UploadAndClear => false
  }

  /** The image a saved TicketForm leaves on a row whose image was `current`: no file keeps it,
      "clear" removes it, an upload replaces it. */
  function ImageAfter(current: Option<string>, input: ImageInput): Option<string>
    requires ImageInputValid(input)
  {
    match input
    case NoFile => current
    case ClearImage => None
    case Upload(reference, _) => Some(reference)
  }

  /** The ticket fields a TicketForm accepts: a required title of at most 128 characters and an
      optional description of at most 2048. */
  predicate TicketFieldsValid(title: string, description: string)
  {
    0 < |title| <= TitleMaxLength && |description| <= DescriptionMaxLength
  }

  /** The review fields a ReviewForm accepts: a rating in 1..5, a required headline of at most
      128 characters and an optional body of at most 8192. */
  predicate ReviewFieldsValid(rating: int, headline: string, body: string)
  {
    MinRating <= rating <= MaxRating && 0 < |headline| <= HeadlineMaxLength && |body| <= BodyMaxLength
  }

  /** unique_together ("user", "followed_user"): no two rows hold the same ordered pair. */
  predicate FollowsUnique(follows: map<FollowId, Follow>)
  {
    forall a, b :: a in follows && b in follows && a != b ==> follows[a] != follows[b]
  }

  /** The OneToOneField on Review.ticket: no two reviews answer the same ticket. */
  predicate OneReviewPerTicket(reviews: map<ReviewId, Review>)
  {
    forall a, b :: a in reviews && b in reviews && a != b ==> reviews[a].ticket != reviews[b].ticket
  }

  /** Everything the schema guarantees about the four tables together: foreign keys resolve,
      field bounds hold, and both uniqueness constraints hold. Self-follow rows are NOT excluded:
      only the subscription view rejects them. */
  ghost predicate Consistent(
    users: set<UserId>,
    follows: map<FollowId, Follow>,
    tickets: map<TicketId, Ticket>,
    reviews: map<ReviewId, Review>)
  {
    && FollowsUnique(follows)
    && (forall k :: k in follows ==> follows[k].user in users && follows[k].followedUser in users)
    && (forall k :: k in tickets ==>
          tickets[k].user in users && TicketFieldsValid(tickets[k].title, tickets[k].description))
    && (forall k :: k in reviews ==>
          && reviews[k].ticket in tickets
          && reviews[k].user in users
          && ReviewFieldsValid(reviews[k].rating, reviews[k].headline, reviews[k].body))
    && OneReviewPerTicket(reviews)
  }

  /** The follow table seen as a set of ordered (follower, followed) pairs. */
  function Edges(follows: map<FollowId, Follow>): set<Follow>
  {
    follows.Values
  }

  /** Inserting a row under a fresh id adds exactly its edge. */
  lemma AddRowEdges(follows: map<FollowId, Follow>, k: FollowId, f: Follow)
    requires k !in follows
    ensures Edges(follows[k := f]) == Edges(follows) + {f}
  {
    assert follows[k := f][k] == f;
    forall e | e in Edges(follows) ensures e in Edges(follows[k := f]) {
      var j :| j in follows && follows[j] == e;
      assert follows[k := f][j] == e;
    }
  }

  /** A row whose pair is not yet stored keeps unique_together. */
  lemma AddRowUnique(follows: map<FollowId, Follow>, k: FollowId, f: Follow)
    requires FollowsUnique(follows) && k !in follows && f !in Edges(follows)
    ensures FollowsUnique(follows[k := f])
  {
    var m := follows[k := f];
    forall a, b | a in m && b in m && a != b ensures m[a] != m[b] {
      if a == k {
        assert follows[b] in Edges(follows);
      } else if b == k {
        assert follows[a] in Edges(follows);
      }
    }
  }

  /** Under unique_together, deleting a row removes exactly its edge: no other row holds it. */
  lemma RemoveRowEdges(follows: map<FollowId, Follow>, k: FollowId)
    requires FollowsUnique(follows) && k in follows
    ensures Edges(follows - {k}) == Edges(follows) - {follows[k]}
  {
    forall e | e in Edges(follows) && e != follows[k] ensures e in Edges(follows - {k}) {
      var j :| j in follows && follows[j] == e;
      assert j in follows - {k};
    }
  }

  /** Ticket.is_closed: some review answers ticket `t`. */
  predicate IsClosed(reviews: map<ReviewId, Review>, t: TicketId)
  {
    exists k :: k in reviews && reviews[k].ticket == t
  }

  /** The ids of the reviews that answer ticket `t`. */
  function ReviewsOfTicket(reviews: map<ReviewId, Review>, t: TicketId): set<ReviewId>
  {
    set k | k in reviews && reviews[k].ticket == t
  }

  /** Under the one-to-one constraint, a ticket is closed exactly when one review answers it. */
  lemma ClosedIffExactlyOneReview(reviews: map<ReviewId, Review>, t: TicketId)
    requires OneReviewPerTicket(reviews)
    ensures IsClosed(reviews, t) <==> |ReviewsOfTicket(reviews, t)| == 1
  {
    if IsClosed(reviews, t) {
      var k :| k in reviews && reviews[k].ticket == t;
      assert ReviewsOfTicket(reviews, t) == {k};
    } else {
      assert ReviewsOfTicket(reviews, t) == {};
    }
  }

  /** Under unique_together, follow rows and ordered pairs are in one-to-one correspondence: the
      table holds exactly as many rows as distinct edges. */
  lemma {:induction false} RowsMatchEdges(follows: map<FollowId, Follow>)
    requires FollowsUnique(follows)
    ensures |Edges(follows)| == |follows|
  {
    if follows != map[] {
      var k :| k in follows;
      var rest := follows - {k};
      assert FollowsUnique(rest);
      RowsMatchEdges(rest);
      assert follows[k] !in Edges(rest);
      forall e | e in Edges(follows) ensures e in Edges(rest) + {follows[k]} {
        var j :| j in follows && follows[j] == e;
        if j != k { assert j in rest; }
      }
      assert Edges(follows) == Edges(rest) + {follows[k]};
      assert follows.Keys == rest.Keys + {k};
    }
  }

  /** on_delete=CASCADE from Ticket to Review: the reviews left once the tickets in `gone` are
      deleted. Every deleted ticket is open afterwards and every other review survives. */
  function DropReviewsOfTickets(reviews: map<ReviewId, Review>, gone: set<TicketId>): (r: map<ReviewId, Review>)
    ensures forall t :: t in gone ==> !IsClosed(r, t)
    ensures forall k :: k in reviews && reviews[k].ticket !in gone ==> k in r
    ensures forall k :: k in r ==> k in reviews && r[k] == reviews[k]
  {
    map k | k in reviews && reviews[k].ticket !in gone :: reviews[k]
  }

  /** on_delete=CASCADE from User to UserFollow, on both foreign keys: the rows left once user
      `u` is deleted. */
  function DropFollowsOf(follows: map<FollowId, Follow>, u: UserId): (r: map<FollowId, Follow>)
    ensures forall k :: k in r ==> k in follows && r[k] == follows[k]
  {
    map k | k in follows && follows[k].user != u && follows[k].followedUser != u :: follows[k]
  }

  /** Deleting user `u` removes exactly the edges that have `u` at either end. */
  lemma DropFollowsOfEdges(follows: map<FollowId, Follow>, u: UserId)
    ensures forall e :: e in Edges(DropFollowsOf(follows, u)) <==>
      e in Edges(follows) && e.user != u && e.followedUser != u
  {
    var r := DropFollowsOf(follows, u);
    forall e | e in Edges(follows) && e.user != u && e.followedUser != u
      ensures e in Edges(r)
    {
      var k :| k in follows && follows[k] == e;
      assert k in r;
    }
  }

  /** Deleting a user together with everything that cascades from it leaves a consistent
      database: no foreign key is left dangling. */
  lemma DropUserConsistent(
    users: set<UserId>,
    follows: map<FollowId, Follow>,
    tickets: map<TicketId, Ticket>,
    reviews: map<ReviewId, Review>,
    u: UserId)
    requires Consistent(users, follows, tickets, reviews)
    ensures Consistent(users - {u}, DropFollowsOf(follows, u), DropTicketsOf(tickets, u), DropReviewsOf(reviews, tickets, u))
  {
    var f, t, r := DropFollowsOf(follows, u), DropTicketsOf(tickets, u), DropReviewsOf(reviews, tickets, u);
    forall k | k in r ensures r[k].ticket in t {
      assert reviews[k].ticket in tickets;
    }
    assert OneReviewPerTicket(r);
    assert FollowsUnique(f);
  }

  /** on_delete=CASCADE from User to Ticket: the tickets left once user `u` is deleted. */
  function DropTicketsOf(tickets: map<TicketId, Ticket>, u: UserId): (r: map<TicketId, Ticket>)
    ensures forall k :: k in r ==> k in tickets && r[k] == tickets[k]
  {
    map k | k in tickets && tickets[k].user != u :: tickets[k]
  }

  /** on_delete=CASCADE from User to Review, and from Ticket to Review for the tickets that went
      with the user: the reviews left once user `u` is deleted. */
  function DropReviewsOf(reviews: map<ReviewId, Review>, tickets: map<TicketId, Ticket>, u: UserId): (r: map<ReviewId, Review>)
    ensures forall k :: k in r ==> k in reviews && r[k] == reviews[k]
  {
    map k | k in reviews && reviews[k].user != u
      && (reviews[k].ticket !in tickets || tickets[reviews[k].ticket].user != u) :: reviews[k]
  }
}
