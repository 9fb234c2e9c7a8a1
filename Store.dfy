/** The tables behind the reviews views (users, UserFollow, Ticket, Review) as one in-memory store,
    and the views that write to them: SubscribeView.post, TicketCreateView, TicketUpdateView,
    TicketDeleteView.post, ReviewAddView.post, ReviewAddFullView.post, plus the cascade that
    deleting a user triggers. The read-only views FeedsView.get and PostsView.get are functions of
    the store. The acting user is passed explicitly; primary keys are handed out by per-table
    counters, as an auto-increment column does. */
module Store {
  import opened Models
  import opened Feed
  import opened Pagination

  /** What SubscribeView.post reports, one value per message it can flash (or none). */
  datatype SubscribeOutcome =
    | InvalidForm        // form.is_valid() failed: no message at all
    | UserDoesNotExist   // "User ... does not exist"
    | SelfSubscription   // "You can't subscribe/unsubscribe to/from yourself!"
    | Subscribed         // "You have subscribed to ...!"
    | AlreadyFollowing   // "Already following ...!"
    | Unsubscribed       // "You have unsubscribed from ...!"
    | NotFollowing       // "You were not following ...!"
    | NoAction           // an `action` other than subscribe/unsubscribe: no message

  /** What a ticket or review view ends with. */
  datatype Outcome =
    | Done            // the row was written or deleted, then a redirect
    | NotFound        // get_object_or_404 raised Http404
    | FormInvalid     // the form is shown again, nothing is written
    | IntegrityError  // the database refused the row; the view does not catch it
    | ServerError     // re-reading the raw POST values failed; the view does not catch it

  class Store {
    var users: set<UserId>
    var follows: map<FollowId, Follow>
    var tickets: map<TicketId, Ticket>
    var reviews: map<ReviewId, Review>
    var nextFollowId: nat
    var nextTicketId: nat
    var nextReviewId: nat

    /** The schema's constraints hold, and every counter is past every id used in its table. */
    ghost predicate Valid()
      reads this
    {
      && Consistent(users, follows, tickets, reviews)
      && (forall k :: k in follows ==> k < nextFollowId)
      && (forall k :: k in tickets ==> k < nextTicketId)
      && (forall k :: k in reviews ==> k < nextReviewId)
    }

    /** A store holding the given users and no rows. */
    constructor(accounts: set<UserId>)
      ensures Valid()
      ensures users == accounts && follows == map[] && tickets == map[] && reviews == map[]
    {
      users := accounts;
      follows := map[];
      tickets := map[];
      reviews := map[];
      nextFollowId := 1;
      nextTicketId := 1;
      nextReviewId := 1;
    }

    /** SubscribeView.post for the logged-in user `me`. `formValid` is the framework's verdict on
        the submitted form; `target` is the user it names and `action` the submitted button. */
    method Subscribe(me: UserId, formValid: bool, target: UserId, action: string) returns (outcome: SubscribeOutcome)
      requires Valid() && me in users
      modifies this
      ensures Valid()
      ensures users == old(users) && tickets == old(tickets) && reviews == old(reviews)
      ensures nextTicketId == old(nextTicketId) && nextReviewId == old(nextReviewId)
      // the rules, in the order the view applies them
      ensures !formValid ==> outcome == InvalidForm
      ensures formValid && target !in old(users) ==> outcome == UserDoesNotExist
      ensures formValid && target in old(users) && me == target ==> outcome == SelfSubscription
      ensures formValid && target in old(users) && me != target && action == "subscribe" ==>
        outcome == (if Follow(me, target) in old(Edges(follows)) then AlreadyFollowing else Subscribed)
      ensures formValid && target in old(users) && me != target && action == "unsubscribe" ==>
        outcome == (if Follow(me, target) in old(Edges(follows)) then Unsubscribed else NotFollowing)
      ensures formValid && target in old(users) && me != target && action != "subscribe" && action != "unsubscribe" ==>
        outcome == NoAction
      // at most the one edge (me, target) changes
      ensures outcome == Subscribed ==> Edges(follows) == old(Edges(follows)) + {Follow(me, target)}
      ensures outcome == Subscribed ==> |follows| == old(|follows|) + 1
      ensures outcome == Unsubscribed ==> Edges(follows) == old(Edges(follows)) - {Follow(me, target)}
      ensures outcome == Unsubscribed ==> |follows| == old(|follows|) - 1
      ensures outcome == Subscribed ==> nextFollowId == old(nextFollowId) + 1
      ensures outcome == Unsubscribed ==> nextFollowId == old(nextFollowId)
      ensures outcome != Subscribed && outcome != Unsubscribed ==>
        follows == old(follows) && nextFollowId == old(nextFollowId)
    {
      if !formValid {
        return InvalidForm;
      }
      if target !in users {
        return UserDoesNotExist;
      }
      if me == target {
        return SelfSubscription;
      }
      var edge := Follow(me, target);
      if action == "subscribe" {
        if edge in Edges(follows) {
          outcome := AlreadyFollowing;
        } else {
          AddRowEdges(follows, nextFollowId, edge);
          AddRowUnique(follows, nextFollowId, edge);
          follows := follows[nextFollowId := edge];
          nextFollowId := nextFollowId + 1;
          outcome := Subscribed;
        }
      } else if action == "unsubscribe" {
        if edge in Edges(follows) {
          var k :| k in follows && follows[k] == edge;
          RemoveRowEdges(follows, k);
          follows := follows - {k};
          outcome := Unsubscribed;
        } else {
          outcome := NotFollowing;
        }
      } else {
        outcome := NoAction;
      }
    }

    /** TicketCreateView with a valid or invalid TicketForm: on success a new ticket owned by `me`,
        created at `now`, under the next id, holding the form's cleaned title, description and
        image. */
    method CreateTicket(me: UserId, title: string, description: string, image: ImageInput, now: int)
      returns (outcome: Outcome, id: TicketId)
      requires Valid() && me in users
      modifies this
      ensures Valid()
      ensures users == old(users) && follows == old(follows) && reviews == old(reviews)
      ensures nextFollowId == old(nextFollowId) && nextReviewId == old(nextReviewId)
      ensures outcome == Done || outcome == FormInvalid
      ensures outcome == Done <==> TicketFieldsValid(title, description) && ImageInputValid(image)
      ensures outcome == Done ==>
        && id !in old(tickets)
        && tickets == old(tickets)[id := Ticket(title, description, me, now, ImageAfter(None, image))]
        && (image.Upload? <==> tickets[id].image.Some?)
        && !IsClosed(reviews, id)
        && nextTicketId == old(nextTicketId) + 1
      ensures outcome == FormInvalid ==> tickets == old(tickets) && nextTicketId == old(nextTicketId)
    {
      id := nextTicketId;
      if !(TicketFieldsValid(title, description) && ImageInputValid(image)) {
        return FormInvalid, id;
      }
      tickets := tickets[id := Ticket(title, description, me, now, ImageAfter(None, image))];
      nextTicketId := nextTicketId + 1;
      outcome := Done;
    }

    /** TicketUpdateView: get_object looks the ticket up by the pair (pk, me), so a missing ticket
        and another user's ticket are both not found; then a valid form saves its three fields
        (title, description and image) and keeps the owner and the creation time. */
    method UpdateTicket(me: UserId, pk: TicketId, title: string, description: string, image: ImageInput)
      returns (outcome: Outcome)
      requires Valid() && me in users
      modifies this
      ensures Valid()
      ensures users == old(users) && follows == old(follows) && reviews == old(reviews)
      ensures nextFollowId == old(nextFollowId) && nextTicketId == old(nextTicketId) && nextReviewId == old(nextReviewId)
      ensures outcome == NotFound <==> !(pk in old(tickets) && old(tickets)[pk].user == me)
      ensures outcome == FormInvalid <==>
        pk in old(tickets) && old(tickets)[pk].user == me && !(TicketFieldsValid(title, description) && ImageInputValid(image))
      ensures outcome == Done || outcome == NotFound || outcome == FormInvalid
      ensures outcome == Done ==>
        tickets == old(tickets)[pk := old(tickets)[pk].(title := title, description := description,
                                                         image := ImageAfter(old(tickets)[pk].image, image))]
      // no file keeps the image, "clear" removes it, an upload replaces it
      ensures outcome == Done && image.NoFile? ==> tickets[pk].image == old(tickets)[pk].image
      ensures outcome == Done && image.ClearImage? ==> tickets[pk].image == None
      ensures outcome == Done && image.Upload? ==> tickets[pk].image == Some(image.reference)
      ensures outcome != Done ==> tickets == old(tickets)
    {
      if !(pk in tickets && tickets[pk].user == me) {
        return NotFound;
      }
      if !(TicketFieldsValid(title, description) && ImageInputValid(image)) {
        return FormInvalid;
      }
      tickets := tickets[pk := tickets[pk].(title := title, description := description,
                                            image := ImageAfter(tickets[pk].image, image))];
      outcome := Done;
    }

    /** TicketDeleteView.post: the same owner-scoped lookup, then the ticket is deleted together
        with the review that answers it, if any. */
    method DeleteTicket(me: UserId, pk: TicketId) returns (outcome: Outcome)
      requires Valid() && me in users
      modifies this
      ensures Valid()
      ensures users == old(users) && follows == old(follows)
      ensures nextFollowId == old(nextFollowId) && nextTicketId == old(nextTicketId) && nextReviewId == old(nextReviewId)
      ensures outcome == Done || outcome == NotFound
      ensures outcome == NotFound <==> !(pk in old(tickets) && old(tickets)[pk].user == me)
      ensures outcome == NotFound ==> tickets == old(tickets) && reviews == old(reviews)
      ensures outcome == Done ==> tickets == old(tickets) - {pk}
      ensures outcome == Done ==> reviews == DropReviewsOfTickets(old(reviews), {pk})
      ensures outcome == Done ==> old(reviews).Keys - reviews.Keys == ReviewsOfTicket(old(reviews), pk)
    {
      if !(pk in tickets && tickets[pk].user == me) {
        return NotFound;
      }
      var left := DropReviewsOfTickets(reviews, {pk});
      assert reviews.Keys - left.Keys == ReviewsOfTicket(reviews, pk);
      tickets := tickets - {pk};
      reviews := left;
      outcome := Done;
    }

    /** ReviewAddView.post: any user may answer any existing ticket. The view does not check
        whether the ticket is already answered; the one-to-one column then refuses the row.
        After validation the view stores the raw POST values, not the form's cleaned ones;
        `postReadable` says whether those are usable: the optional `body` key was sent, and the
        rating is written as a plain integer (the form also accepts "3.0", which the column then
        refuses). When they are not, the view fails before anything is written. */
    method AddReview(me: UserId, pk: TicketId, rating: int, headline: string, body: string, postReadable: bool, now: int)
      returns (outcome: Outcome, id: ReviewId)
      requires Valid() && me in users
      modifies this
      ensures Valid()
      ensures users == old(users) && follows == old(follows) && tickets == old(tickets)
      ensures nextFollowId == old(nextFollowId) && nextTicketId == old(nextTicketId)
      ensures outcome == NotFound <==> pk !in old(tickets)
      ensures outcome == FormInvalid <==> pk in old(tickets) && !ReviewFieldsValid(rating, headline, body)
      ensures outcome == ServerError <==> pk in old(tickets) && ReviewFieldsValid(rating, headline, body) && !postReadable
      ensures outcome == IntegrityError <==>
        pk in old(tickets) && ReviewFieldsValid(rating, headline, body) && postReadable && IsClosed(old(reviews), pk)
      ensures outcome != Done ==> reviews == old(reviews) && nextReviewId == old(nextReviewId)
      ensures outcome == Done ==>
        && id !in old(reviews)
        && reviews == old(reviews)[id := Review(pk, rating, headline, body, me, now)]
        && IsClosed(reviews, pk)
        && nextReviewId == old(nextReviewId) + 1
    {
      id := nextReviewId;
      if pk !in tickets {
        return NotFound, id;
      }
      if !ReviewFieldsValid(rating, headline, body) {
        return FormInvalid, id;
      }
      if !postReadable {
        return ServerError, id;
      }
      if IsClosed(reviews, pk) {
        return IntegrityError, id;
      }
      reviews := reviews[id := Review(pk, rating, headline, body, me, now)];
      assert reviews[id].ticket == pk;
      nextReviewId := nextReviewId + 1;
      outcome := Done;
    }

    /** ReviewAddFullView.post: when both forms are valid (the TicketForm's image included), a new
        ticket owned by `me` with no image, then a review by `me` answering it. Each row is built from the raw POST values:
        `ticketPostReadable` says whether the optional `description` key was sent,
        `reviewPostReadable` the same of the review's values as in AddReview. The two inserts are
        separate statements, so a failure while building the review leaves the new ticket stored,
        unanswered. */
    method AddFullReview(
      me: UserId, title: string, description: string, image: ImageInput,
      rating: int, headline: string, body: string,
      ticketPostReadable: bool, reviewPostReadable: bool,
      ticketTime: int, reviewTime: int)
      returns (outcome: Outcome, tid: TicketId, rid: ReviewId)
      requires Valid() && me in users
      modifies this
      ensures Valid()
      ensures users == old(users) && follows == old(follows) && nextFollowId == old(nextFollowId)
      ensures outcome == Done || outcome == FormInvalid || outcome == ServerError
      ensures outcome == FormInvalid <==>
        !(TicketFieldsValid(title, description) && ImageInputValid(image) && ReviewFieldsValid(rating, headline, body))
      ensures outcome == Done <==>
        TicketFieldsValid(title, description) && ImageInputValid(image) && ReviewFieldsValid(rating, headline, body)
          && ticketPostReadable && reviewPostReadable
      // nothing is written unless both forms are valid and the ticket's values can be read
      ensures outcome == FormInvalid || (outcome == ServerError && !ticketPostReadable) ==>
        && tickets == old(tickets) && reviews == old(reviews)
        && nextTicketId == old(nextTicketId) && nextReviewId == old(nextReviewId)
      // the ticket is written first, and stays when the review cannot be built
      ensures outcome == Done || (outcome == ServerError && ticketPostReadable) ==>
        && tid !in old(tickets)
        && tickets == old(tickets)[tid := Ticket(title, description, me, ticketTime, None)]
        && nextTicketId == old(nextTicketId) + 1
      ensures outcome == ServerError && ticketPostReadable ==>
        reviews == old(reviews) && !IsClosed(reviews, tid) && nextReviewId == old(nextReviewId)
      ensures outcome == Done ==>
        && rid !in old(reviews)
        && reviews == old(reviews)[rid := Review(tid, rating, headline, body, me, reviewTime)]
        && IsClosed(reviews, tid)
        && nextReviewId == old(nextReviewId) + 1
    {
      tid, rid := nextTicketId, nextReviewId;
      if !(TicketFieldsValid(title, description) && ImageInputValid(image) && ReviewFieldsValid(rating, headline, body)) {
        return FormInvalid, tid, rid;
      }
      if !ticketPostReadable {
        return ServerError, tid, rid;
      }
      assert !IsClosed(reviews, tid);
      tickets := tickets[tid := Ticket(title, description, me, ticketTime, None)];
      nextTicketId := nextTicketId + 1;
      if !reviewPostReadable {
        return ServerError, tid, rid;
      }
      reviews := reviews[rid := Review(tid, rating, headline, body, me, reviewTime)];
      assert reviews[rid].ticket == tid;
      nextReviewId := nextReviewId + 1;
      outcome := Done;
    }

    /** Deleting user `u` (through the framework's user administration): the cascades of every
        foreign key to the user table, and of Review.ticket for the user's tickets. */
    method DeleteUser(u: UserId)
      requires Valid()
      modifies this
      ensures Valid()
      ensures users == old(users) - {u}
      ensures follows == DropFollowsOf(old(follows), u)
      ensures tickets == DropTicketsOf(old(tickets), u)
      ensures reviews == DropReviewsOf(old(reviews), old(tickets), u)
      ensures nextFollowId == old(nextFollowId) && nextTicketId == old(nextTicketId) && nextReviewId == old(nextReviewId)
      // nothing of `u` is left, and nothing else is lost
      ensures forall e :: e in Edges(follows) <==> e in old(Edges(follows)) && e.user != u && e.followedUser != u
      ensures forall k :: k in tickets <==> k in old(tickets) && old(tickets)[k].user != u
      ensures forall k :: k in reviews <==>
        k in old(reviews) && old(reviews)[k].user != u && old(tickets)[old(reviews)[k].ticket].user != u
    {
      DropFollowsOfEdges(follows, u);
      DropUserConsistent(users, follows, tickets, reviews, u);
      var t := DropTicketsOf(tickets, u);
      var r := DropReviewsOf(reviews, tickets, u);
      users := users - {u};
      follows := DropFollowsOf(follows, u);
      tickets := t;
      reviews := r;
    }

    /** FeedsView.get: page `req` of the tickets and reviews of `me` and of the users `me`
        follows, newest first. The row orders are those the database returns the two tables in. */
    function FeedsPage(me: UserId, req: PageRequest, ticketOrder: seq<TicketId>, reviewOrder: seq<ReviewId>): (p: Page<FeedItem>)
      reads this
      requires IsRowOrder(ticketOrder, tickets) && IsRowOrder(reviewOrder, reviews)
      ensures forall x :: x in p.items ==> IsContentOf(x, tickets, reviews, FeedSubjects(follows, me))
      ensures NonIncreasing(p.items) && Distinct(p.items)
      ensures 1 <= p.number <= p.numPages && |p.items| <= PerPage
      ensures p.items == [] <==> forall x :: !IsContentOf(x, tickets, reviews, FeedSubjects(follows, me))
      ensures p == GetPage(GetData(tickets, ticketOrder, reviews, reviewOrder, FeedSubjects(follows, me)), req, PerPage)
    {
      ContentPage(tickets, ticketOrder, reviews, reviewOrder, FeedSubjects(follows, me), req)
    }

    /** PostsView.get: page `req` of the tickets and reviews of `me` alone, newest first. */
    function PostsPage(me: UserId, req: PageRequest, ticketOrder: seq<TicketId>, reviewOrder: seq<ReviewId>): (p: Page<FeedItem>)
      reads this
      requires IsRowOrder(ticketOrder, tickets) && IsRowOrder(reviewOrder, reviews)
      ensures forall x :: x in p.items ==> IsContentOf(x, tickets, reviews, {me})
      ensures NonIncreasing(p.items) && Distinct(p.items)
      ensures 1 <= p.number <= p.numPages && |p.items| <= PerPage
      ensures p.items == [] <==> forall x :: !IsContentOf(x, tickets, reviews, {me})
      ensures p == GetPage(GetData(tickets, ticketOrder, reviews, reviewOrder, {me}), req, PerPage)
    {
      ContentPage(tickets, ticketOrder, reviews, reviewOrder, PostsSubjects(me), req)
    }
  }

  /** A contiguous piece of a list holds only items of the list, and keeps the list's order
      and the absence of repeats. */
  lemma SliceKeeps(data: seq<FeedItem>, lo: nat, items: seq<FeedItem>)
    requires lo + |items| <= |data| && items == data[lo..lo + |items|]
    ensures forall x :: x in items ==> x in data
    ensures NonIncreasing(data) ==> NonIncreasing(items)
    ensures Distinct(data) ==> Distinct(items)
  {
    assert forall i :: 0 <= i < |items| ==> items[i] == data[lo + i];
  }

  /** get_paginator applied to get_data: a page of the content of `users`, newest first, with
      nothing repeated, empty only when `users` have posted nothing. */
  function ContentPage(
    tickets: map<TicketId, Ticket>, ticketOrder: seq<TicketId>,
    reviews: map<ReviewId, Review>, reviewOrder: seq<ReviewId>,
    users: set<UserId>, req: PageRequest): (p: Page<FeedItem>)
    requires IsRowOrder(ticketOrder, tickets) && IsRowOrder(reviewOrder, reviews)
    ensures forall x :: x in p.items ==> IsContentOf(x, tickets, reviews, users)
    ensures NonIncreasing(p.items) && Distinct(p.items)
    ensures 1 <= p.number <= p.numPages && |p.items| <= PerPage
    ensures p.items == [] <==> forall x :: !IsContentOf(x, tickets, reviews, users)
    ensures p == GetPage(GetData(tickets, ticketOrder, reviews, reviewOrder, users), req, PerPage)
  {
    var data := GetData(tickets, ticketOrder, reviews, reviewOrder, users);
    GetDataSelects(tickets, ticketOrder, reviews, reviewOrder, users);
    GetDataNewestFirst(tickets, ticketOrder, reviews, reviewOrder, users);
    var p := GetPage(data, req, PerPage);
    SliceKeeps(data, PageStart(p.number, PerPage), p.items);
    assert data == [] ==> p.items == [];
    assert data != [] ==> data[0] in data;
    p
  }
}
