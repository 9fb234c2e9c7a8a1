/** The feed aggregator of the reviews views (BaseFeedsView.get_data and the subject sets chosen by
    FeedsView and PostsView): select the tickets and reviews of a set of users, tag each with its
    content type, chain the reviews before the tickets and sort the result by creation time,
    newest first, with Python's stable `sorted(..., reverse=True)`. */
module Feed {
  import opened Models

  datatype ContentType = TICKET | REVIEW

  /** One element of the merged list: a row annotated with its content type. */
  datatype FeedItem = TicketItem(id: TicketId, ticket: Ticket) | ReviewItem(id: ReviewId, review: Review)
  {
    function Kind(): ContentType
    {
      if TicketItem? then TICKET else REVIEW
    }

    function TimeCreated(): int
    {
      if TicketItem? then ticket.timeCreated else review.timeCreated
    }

    function Author(): UserId
    {
      if TicketItem? then ticket.user else review.user
    }
  }

  predicate Distinct<T(==)>(s: seq<T>)
  {
    forall i, j :: 0 <= i < j < |s| ==> s[i] != s[j]
  }

  /** `order` lists every key of `m` exactly once: the order, which the query leaves open, in which
      the database hands back the rows of a table. */
  predicate IsRowOrder<V>(order: seq<nat>, m: map<nat, V>)
  {
    && (forall i :: 0 <= i < |order| ==> order[i] in m)
    && (forall k :: k in m ==> k in order)
    && Distinct(order)
  }

  /** `x` is a stored row, unchanged, whose author is one of `users`. */
  predicate IsContentOf(x: FeedItem, tickets: map<TicketId, Ticket>, reviews: map<ReviewId, Review>, users: set<UserId>)
  {
    match x
    case TicketItem(id, t) => id in tickets && tickets[id] == t && t.user in users
    case ReviewItem(id, r) => id in reviews && reviews[id] == r && r.user in users
  }

  /** Ticket.objects.filter(user__in=users), annotated with content type TICKET, in row order. */
  function TicketItems(tickets: map<TicketId, Ticket>, order: seq<TicketId>, users: set<UserId>): (items: seq<FeedItem>)
    requires forall i :: 0 <= i < |order| ==> order[i] in tickets
    ensures forall x :: x in items <==> x.TicketItem? && x.id in order && IsContentOf(x, tickets, map[], users)
    ensures Distinct(order) ==> Distinct(items)
  {
    if order == [] then []
    else
      var rest := TicketItems(tickets, order[1..], users);
      assert forall x :: x in rest ==> x.id in order[1..];
      if tickets[order[0]].user in users then [TicketItem(order[0], tickets[order[0]])] + rest else rest
  }

  /** Review.objects.filter(user__in=users), annotated with content type REVIEW, in row order. */
  function ReviewItems(reviews: map<ReviewId, Review>, order: seq<ReviewId>, users: set<UserId>): (items: seq<FeedItem>)
    requires forall i :: 0 <= i < |order| ==> order[i] in reviews
    ensures forall x :: x in items <==> x.ReviewItem? && x.id in order && IsContentOf(x, map[], reviews, users)
    ensures Distinct(order) ==> Distinct(items)
  {
    if order == [] then []
    else
      var rest := ReviewItems(reviews, order[1..], users);
      assert forall x :: x in rest ==> x.id in order[1..];
      if reviews[order[0]].user in users then [ReviewItem(order[0], reviews[order[0]])] + rest else rest
  }

  /** Newest first: creation times never increase along `s`. */
  predicate NonIncreasing(s: seq<FeedItem>)
  {
    forall i, j :: 0 <= i < j < |s| ==> s[j].TimeCreated() <= s[i].TimeCreated()
  }

  /** The items of `s` created at time `t`, in the order of `s`. */
  function WithTime(s: seq<FeedItem>, t: int): seq<FeedItem>
  {
    if s == [] then []
    else (if s[0].TimeCreated() == t then [s[0]] else []) + WithTime(s[1..], t)
  }

  lemma WithTimeCons(x: FeedItem, s: seq<FeedItem>, t: int)
    ensures WithTime([x] + s, t) == (if x.TimeCreated() == t then [x] else []) + WithTime(s, t)
  {
    assert ([x] + s)[1..] == s;
  }

  /** WithTime keeps exactly the items of `s` created at `t`. */
  lemma {:induction false} WithTimeMembers(s: seq<FeedItem>, t: int)
    ensures forall x :: x in WithTime(s, t) <==> x in s && x.TimeCreated() == t
  {
    if s != [] {
      WithTimeMembers(s[1..], t);
      assert s == [s[0]] + s[1..];
    }
  }

  lemma WithTimeEntry(s: seq<FeedItem>, t: int, k: nat)
    requires k < |WithTime(s, t)|
    ensures WithTime(s, t)[k] in s
  {
    WithTimeMembers(s, t);
  }

  /** Places `x` in front of every item of `s` that is not newer than it. */
  function Insert(x: FeedItem, s: seq<FeedItem>): seq<FeedItem>
  {
    if s == [] || s[0].TimeCreated() <= x.TimeCreated() then [x] + s
    else [s[0]] + Insert(x, s[1..])
  }

  /** sorted(s, key=time_created, reverse=True): an insertion sort that keeps items with equal
      times in their input order. */
  function SortByTimeDesc(s: seq<FeedItem>): seq<FeedItem>
  {
    if s == [] then [] else Insert(s[0], SortByTimeDesc(s[1..]))
  }

  lemma {:induction false} InsertPermutes(x: FeedItem, s: seq<FeedItem>)
    ensures multiset(Insert(x, s)) == multiset(s) + multiset{x}
  {
    if s != [] && x.TimeCreated() < s[0].TimeCreated() {
      InsertPermutes(x, s[1..]);
      assert s == [s[0]] + s[1..];
    }
  }

  lemma {:induction false} InsertKeepsOrder(x: FeedItem, s: seq<FeedItem>)
    requires NonIncreasing(s)
    ensures NonIncreasing(Insert(x, s))
  {
    if s != [] && x.TimeCreated() < s[0].TimeCreated() {
      InsertKeepsOrder(x, s[1..]);
      InsertPermutes(x, s[1..]);
      var r := Insert(x, s[1..]);
      forall y | y in r ensures y.TimeCreated() <= s[0].TimeCreated() {
        assert y in multiset(r);
        if y != x {
          assert y in s[1..];
        }
      }
    }
  }

  lemma {:induction false} InsertWithTime(x: FeedItem, s: seq<FeedItem>, t: int)
    ensures WithTime(Insert(x, s), t) == (if x.TimeCreated() == t then [x] else []) + WithTime(s, t)
  {
    if s == [] || s[0].TimeCreated() <= x.TimeCreated() {
      WithTimeCons(x, s, t);
    } else {
      InsertWithTime(x, s[1..], t);
      InsertBehindWithTime(x, s[0], s[1..], t);
      assert s == [s[0]] + s[1..];
    }
  }

  /** The step of InsertWithTime where `x` goes behind the newer item `y`. */
  lemma InsertBehindWithTime(x: FeedItem, y: FeedItem, r: seq<FeedItem>, t: int)
    requires x.TimeCreated() < y.TimeCreated()
    requires WithTime(Insert(x, r), t) == (if x.TimeCreated() == t then [x] else []) + WithTime(r, t)
    ensures WithTime([y] + Insert(x, r), t) == (if x.TimeCreated() == t then [x] else []) + WithTime([y] + r, t)
  {
    WithTimeCons(y, Insert(x, r), t);
    WithTimeCons(y, r, t);
  }

  /** The sorted list is a permutation of its input: nothing added, nothing dropped. */
  lemma {:induction false} SortPermutes(s: seq<FeedItem>)
    ensures multiset(SortByTimeDesc(s)) == multiset(s)
  {
    if s != [] {
      SortPermutes(s[1..]);
      InsertPermutes(s[0], SortByTimeDesc(s[1..]));
      assert s == [s[0]] + s[1..];
    }
  }

  /** The sorted list is newest first. */
  lemma {:induction false} SortIsOrdered(s: seq<FeedItem>)
    ensures NonIncreasing(SortByTimeDesc(s))
  {
    if s != [] {
      SortIsOrdered(s[1..]);
      InsertKeepsOrder(s[0], SortByTimeDesc(s[1..]));
    }
  }

  /** The sort is stable: the items that share a creation time keep their input order. */
  lemma {:induction false} SortIsStable(s: seq<FeedItem>, t: int)
    ensures WithTime(SortByTimeDesc(s), t) == WithTime(s, t)
  {
    if s != [] {
      SortIsStable(s[1..], t);
      InsertWithTime(s[0], SortByTimeDesc(s[1..]), t);
    }
  }

  lemma DistinctCons<T>(x: T, s: seq<T>)
    ensures Distinct([x] + s) <==> x !in s && Distinct(s)
  {
    if x !in s && Distinct(s) {
      forall i, j | 0 <= i < j < |[x] + s| ensures ([x] + s)[i] != ([x] + s)[j] {
        if i > 0 {
          assert ([x] + s)[i] == s[i - 1];
        }
        assert ([x] + s)[j] == s[j - 1];
      }
    }
    if Distinct([x] + s) {
      forall i, j | 0 <= i < j < |s| ensures s[i] != s[j] {
        assert s[i] == ([x] + s)[i + 1];
        assert s[j] == ([x] + s)[j + 1];
      }
      forall i | 0 <= i < |s| ensures s[i] != x {
        assert ([x] + s)[0] == x && ([x] + s)[i + 1] == s[i];
      }
    }
  }

  lemma {:induction false} SortKeepsDistinct(s: seq<FeedItem>)
    requires Distinct(s)
    ensures Distinct(SortByTimeDesc(s))
  {
    if s != [] {
      assert s == [s[0]] + s[1..];
      DistinctCons(s[0], s[1..]);
      SortKeepsDistinct(s[1..]);
      SortPermutes(s[1..]);
      assert s[0] !in multiset(SortByTimeDesc(s[1..]));
      InsertKeepsDistinct(s[0], SortByTimeDesc(s[1..]));
    }
  }

  lemma {:induction false} InsertKeepsDistinct(x: FeedItem, s: seq<FeedItem>)
    requires Distinct(s) && x !in s
    ensures Distinct(Insert(x, s))
  {
    if s == [] || s[0].TimeCreated() <= x.TimeCreated() {
      DistinctCons(x, s);
    } else {
      assert s == [s[0]] + s[1..];
      DistinctCons(s[0], s[1..]);
      InsertKeepsDistinct(x, s[1..]);
      InsertPermutes(x, s[1..]);
      assert s[0] !in multiset(Insert(x, s[1..]));
      DistinctCons(s[0], Insert(x, s[1..]));
    }
  }

  lemma DistinctAppend<T>(a: seq<T>, b: seq<T>)
    requires Distinct(a) && Distinct(b)
    requires forall x :: x in a ==> x !in b
    ensures Distinct(a + b)
  {
    forall i, j | 0 <= i < j < |a + b| ensures (a + b)[i] != (a + b)[j] {
      if j < |a| {
        assert (a + b)[i] == a[i] && (a + b)[j] == a[j];
      } else if i < |a| {
        assert (a + b)[i] == a[i] && (a + b)[j] == b[j - |a|];
        assert a[i] in a && b[j - |a|] in b;
      } else {
        assert (a + b)[i] == b[i - |a|] && (a + b)[j] == b[j - |a|];
      }
    }
  }

  lemma {:induction false} WithTimeAppend(a: seq<FeedItem>, b: seq<FeedItem>, t: int)
    ensures WithTime(a + b, t) == WithTime(a, t) + WithTime(b, t)
  {
    if a == [] {
      assert a + b == b;
    } else {
      var x, r := a[0], a[1..];
      WithTimeAppend(r, b, t);
      assert a == [x] + r;
      assert a + b == [x] + (r + b);
      WithTimeCons(x, r + b, t);
      WithTimeCons(x, r, t);
    }
  }

  /** Two items `s[i]`, `s[j]` created at the same time `t` appear in `WithTime(s, t)` in the
      order they have in `s`; the lemma returns their two positions there. */
  lemma {:induction false} WithTimeKeepsOrder(s: seq<FeedItem>, i: nat, j: nat, t: int) returns (i': nat, j': nat)
    requires i < j < |s| && s[i].TimeCreated() == t && s[j].TimeCreated() == t
    ensures i' < j' < |WithTime(s, t)|
    ensures WithTime(s, t)[i'] == s[i] && WithTime(s, t)[j'] == s[j]
  {
    var head: seq<FeedItem> := if s[0].TimeCreated() == t then [s[0]] else [];
    assert WithTime(s, t) == head + WithTime(s[1..], t);
    if i == 0 {
      assert s[j] == s[1..][j - 1];
      WithTimeMembers(s[1..], t);
      assert s[j] in WithTime(s[1..], t);
      var m :| 0 <= m < |WithTime(s[1..], t)| && WithTime(s[1..], t)[m] == s[j];
      i', j' := 0, m + 1;
    } else {
      var a, b := WithTimeKeepsOrder(s[1..], i - 1, j - 1, t);
      i', j' := a + |head|, b + |head|;
    }
  }

  lemma MaxFirst(s: seq<FeedItem>, x: FeedItem)
    requires NonIncreasing(s) && x in s
    ensures x.TimeCreated() <= s[0].TimeCreated()
  {
    var i :| 0 <= i < |s| && s[i] == x;
    if i > 0 {
      assert s[i].TimeCreated() <= s[0].TimeCreated();
    }
  }

  lemma TailNonIncreasing(s: seq<FeedItem>)
    requires s != [] && NonIncreasing(s)
    ensures NonIncreasing(s[1..])
  {
    forall i, j | 0 <= i < j < |s[1..]| ensures s[1..][j].TimeCreated() <= s[1..][i].TimeCreated() {
      assert s[1..][i] == s[i + 1] && s[1..][j] == s[j + 1];
    }
  }

  /** Two newest-first lists with the same runs of equal times start with the same item. */
  lemma SameHead(a: seq<FeedItem>, b: seq<FeedItem>)
    requires a != [] && NonIncreasing(a) && NonIncreasing(b)
    requires forall t :: WithTime(a, t) == WithTime(b, t)
    ensures b != [] && a[0] == b[0]
  {
    var ta := a[0].TimeCreated();
    WithTimeMembers(a, ta);
    WithTimeMembers(b, ta);
    assert a[0] in WithTime(a, ta);
    assert a[0] in WithTime(b, ta);
    var tb := b[0].TimeCreated();
    WithTimeMembers(a, tb);
    WithTimeMembers(b, tb);
    assert b[0] in WithTime(b, tb);
    assert b[0] in WithTime(a, tb);
    MaxFirst(a, b[0]);
    MaxFirst(b, a[0]);
    assert WithTime(a, ta) == [a[0]] + WithTime(a[1..], ta);
    assert WithTime(b, ta) == [b[0]] + WithTime(b[1..], ta);
    assert a[0] == WithTime(a, ta)[0] == WithTime(b, ta)[0] == b[0];
  }

  lemma SameTailTies(a: seq<FeedItem>, b: seq<FeedItem>, t: int)
    requires a != [] && b != [] && a[0] == b[0]
    requires WithTime(a, t) == WithTime(b, t)
    ensures WithTime(a[1..], t) == WithTime(b[1..], t)
  {
    if a[0].TimeCreated() == t {
      assert WithTime(a[1..], t) == WithTime(a, t)[1..];
      assert WithTime(b[1..], t) == WithTime(b, t)[1..];
    } else {
      assert WithTime(a, t) == WithTime(a[1..], t);
      assert WithTime(b, t) == WithTime(b[1..], t);
    }
  }

  /** A newest-first list is determined by its runs of equal creation times: two newest-first
      lists whose items created at each time agree, in order, are the same list. */
  lemma {:induction false} SameTiesSameList(a: seq<FeedItem>, b: seq<FeedItem>)
    requires NonIncreasing(a) && NonIncreasing(b)
    requires forall t :: WithTime(a, t) == WithTime(b, t)
    ensures a == b
    decreases |a|
  {
    forall x ensures x in a <==> x in b {
      WithTimeMembers(a, x.TimeCreated());
      WithTimeMembers(b, x.TimeCreated());
      assert x in WithTime(a, x.TimeCreated()) <==> x in WithTime(b, x.TimeCreated());
    }
    assert b != [] ==> b[0] in b;
    if a != [] {
      SameHead(a, b);
      forall t ensures WithTime(a[1..], t) == WithTime(b[1..], t) {
        SameTailTies(a, b, t);
      }
      TailNonIncreasing(a);
      TailNonIncreasing(b);
      SameTiesSameList(a[1..], b[1..]);
      assert a == [a[0]] + a[1..];
      assert b == [b[0]] + b[1..];
    }
  }

  /** BaseFeedsView.get_data(users): the reviews of `users` chained before their tickets, then
      sorted newest first. The row orders are those of the two unordered queries. */
  function GetData(
    tickets: map<TicketId, Ticket>, ticketOrder: seq<TicketId>,
    reviews: map<ReviewId, Review>, reviewOrder: seq<ReviewId>,
    users: set<UserId>): seq<FeedItem>
    requires forall i :: 0 <= i < |ticketOrder| ==> ticketOrder[i] in tickets
    requires forall i :: 0 <= i < |reviewOrder| ==> reviewOrder[i] in reviews
  {
    SortByTimeDesc(ReviewItems(reviews, reviewOrder, users) + TicketItems(tickets, ticketOrder, users))
  }

  /** get_data returns every ticket and every review written by one of `users`, each once, and
      nothing else. */
  lemma GetDataSelects(
    tickets: map<TicketId, Ticket>, ticketOrder: seq<TicketId>,
    reviews: map<ReviewId, Review>, reviewOrder: seq<ReviewId>,
    users: set<UserId>)
    requires IsRowOrder(ticketOrder, tickets) && IsRowOrder(reviewOrder, reviews)
    ensures forall x :: x in GetData(tickets, ticketOrder, reviews, reviewOrder, users) <==>
      IsContentOf(x, tickets, reviews, users)
    ensures Distinct(GetData(tickets, ticketOrder, reviews, reviewOrder, users))
  {
    var rs := ReviewItems(reviews, reviewOrder, users);
    var ts := TicketItems(tickets, ticketOrder, users);
    SortPermutes(rs + ts);
    forall x ensures x in GetData(tickets, ticketOrder, reviews, reviewOrder, users) <==> x in rs + ts {
      assert x in GetData(tickets, ticketOrder, reviews, reviewOrder, users) <==>
        x in multiset(GetData(tickets, ticketOrder, reviews, reviewOrder, users));
    }
    DistinctAppend(rs, ts);
    SortKeepsDistinct(rs + ts);
  }

  /** get_data's list is newest first. */
  lemma GetDataNewestFirst(
    tickets: map<TicketId, Ticket>, ticketOrder: seq<TicketId>,
    reviews: map<ReviewId, Review>, reviewOrder: seq<ReviewId>,
    users: set<UserId>)
    requires forall i :: 0 <= i < |ticketOrder| ==> ticketOrder[i] in tickets
    requires forall i :: 0 <= i < |reviewOrder| ==> reviewOrder[i] in reviews
    ensures NonIncreasing(GetData(tickets, ticketOrder, reviews, reviewOrder, users))
  {
    SortIsOrdered(ReviewItems(reviews, reviewOrder, users) + TicketItems(tickets, ticketOrder, users));
  }

  /** Among items created at the same time, get_data keeps the chained order: the reviews first,
      in row order, then the tickets, in row order. */
  lemma GetDataTies(
    tickets: map<TicketId, Ticket>, ticketOrder: seq<TicketId>,
    reviews: map<ReviewId, Review>, reviewOrder: seq<ReviewId>,
    users: set<UserId>, t: int)
    requires forall i :: 0 <= i < |ticketOrder| ==> ticketOrder[i] in tickets
    requires forall i :: 0 <= i < |reviewOrder| ==> reviewOrder[i] in reviews
    ensures WithTime(GetData(tickets, ticketOrder, reviews, reviewOrder, users), t) ==
      WithTime(ReviewItems(reviews, reviewOrder, users), t) + WithTime(TicketItems(tickets, ticketOrder, users), t)
  {
    var rs := ReviewItems(reviews, reviewOrder, users);
    var ts := TicketItems(tickets, ticketOrder, users);
    SortIsStable(rs + ts, t);
    WithTimeAppend(rs, ts, t);
  }

  /** If the runs of equal times of `feed` are those of reviews `rs` followed by those of tickets
      `ts`, no ticket of `feed` precedes a review created at the same time. */
  lemma TiesKeepChainOrder(feed: seq<FeedItem>, rs: seq<FeedItem>, ts: seq<FeedItem>, i: nat, j: nat, t: int)
    requires forall x :: x in rs ==> x.ReviewItem?
    requires forall x :: x in ts ==> x.TicketItem?
    requires i < j < |feed| && feed[i].TimeCreated() == t && feed[j].TimeCreated() == t
    requires WithTime(feed, t) == WithTime(rs, t) + WithTime(ts, t)
    ensures !(feed[i].TicketItem? && feed[j].ReviewItem?)
  {
    var i', j' := WithTimeKeepsOrder(feed, i, j, t);
    var wr, wt := WithTime(rs, t), WithTime(ts, t);
    if i' < |wr| {
      assert (wr + wt)[i'] == wr[i'];
      WithTimeEntry(rs, t, i');
    }
    if j' >= |wr| {
      assert (wr + wt)[j'] == wt[j' - |wr|];
      WithTimeEntry(ts, t, j' - |wr|);
    }
  }

  /** A ticket never precedes a review created at the same time. */
  lemma ReviewsBeforeTicketsOnTies(
    tickets: map<TicketId, Ticket>, ticketOrder: seq<TicketId>,
    reviews: map<ReviewId, Review>, reviewOrder: seq<ReviewId>,
    users: set<UserId>)
    requires forall i :: 0 <= i < |ticketOrder| ==> ticketOrder[i] in tickets
    requires forall i :: 0 <= i < |reviewOrder| ==> reviewOrder[i] in reviews
    ensures var feed := GetData(tickets, ticketOrder, reviews, reviewOrder, users);
      forall i, j :: 0 <= i < j < |feed| && feed[i].TimeCreated() == feed[j].TimeCreated() ==>
        !(feed[i].Kind() == TICKET && feed[j].Kind() == REVIEW)
  {
    var feed := GetData(tickets, ticketOrder, reviews, reviewOrder, users);
    var rs := ReviewItems(reviews, reviewOrder, users);
    var ts := TicketItems(tickets, ticketOrder, users);
    forall i, j | 0 <= i < j < |feed| && feed[i].TimeCreated() == feed[j].TimeCreated()
      ensures !(feed[i].Kind() == TICKET && feed[j].Kind() == REVIEW)
    {
      GetDataTies(tickets, ticketOrder, reviews, reviewOrder, users, feed[i].TimeCreated());
      TiesKeepChainOrder(feed, rs, ts, i, j, feed[i].TimeCreated());
    }
  }

  /** get_data is THE stable newest-first sort of the chained rows: any newest-first list that keeps
      the chained order among items created at the same time is get_data's list. */
  lemma GetDataIsStableSort(
    tickets: map<TicketId, Ticket>, ticketOrder: seq<TicketId>,
    reviews: map<ReviewId, Review>, reviewOrder: seq<ReviewId>,
    users: set<UserId>, r: seq<FeedItem>)
    requires forall i :: 0 <= i < |ticketOrder| ==> ticketOrder[i] in tickets
    requires forall i :: 0 <= i < |reviewOrder| ==> reviewOrder[i] in reviews
    requires NonIncreasing(r)
    requires forall t :: (WithTime(r, t) ==
      WithTime(ReviewItems(reviews, reviewOrder, users) + TicketItems(tickets, ticketOrder, users), t))
    ensures r == GetData(tickets, ticketOrder, reviews, reviewOrder, users)
  {
    var s := ReviewItems(reviews, reviewOrder, users) + TicketItems(tickets, ticketOrder, users);
    SortIsOrdered(s);
    forall t ensures WithTime(r, t) == WithTime(SortByTimeDesc(s), t) {
      SortIsStable(s, t);
    }
    SameTiesSameList(r, SortByTimeDesc(s));
  }

  /** FeedsView.get: the users `me` follows, plus `me` itself. */
  function FeedSubjects(follows: map<FollowId, Follow>, me: UserId): (users: set<UserId>)
    ensures forall u :: u in users <==> u == me || Follow(me, u) in Edges(follows)
  {
    var followed := set f | f in Edges(follows) && f.user == me :: f.followedUser;
    assert forall u :: Follow(me, u) in Edges(follows) ==> u in followed by {
      forall u | Follow(me, u) in Edges(follows) ensures u in followed {
        var f := Follow(me, u);
        assert f in Edges(follows) && f.user == me;
      }
    }
    followed + {me}
  }

  /** PostsView.get: `me` alone. */
  function PostsSubjects(me: UserId): set<UserId>
  {
    {me}
  }

  /** The items of `s` whose author is one of `users`, in the order of `s`. */
  function ByAuthors(s: seq<FeedItem>, users: set<UserId>): seq<FeedItem>
  {
    if s == [] then []
    else (if s[0].Author() in users then [s[0]] else []) + ByAuthors(s[1..], users)
  }

  lemma ByAuthorsCons(x: FeedItem, s: seq<FeedItem>, users: set<UserId>)
    ensures ByAuthors([x] + s, users) == (if x.Author() in users then [x] else []) + ByAuthors(s, users)
  {
    assert ([x] + s)[1..] == s;
  }

  /** ByAuthors keeps exactly the items of `s` written by one of `users`. */
  lemma {:induction false} ByAuthorsMembers(s: seq<FeedItem>, users: set<UserId>)
    ensures forall x :: x in ByAuthors(s, users) <==> x in s && x.Author() in users
  {
    if s != [] {
      ByAuthorsMembers(s[1..], users);
      assert s == [s[0]] + s[1..];
    }
  }

  lemma {:induction false} ByAuthorsAppend(a: seq<FeedItem>, b: seq<FeedItem>, users: set<UserId>)
    ensures ByAuthors(a + b, users) == ByAuthors(a, users) + ByAuthors(b, users)
  {
    if a == [] {
      assert a + b == b;
    } else {
      var x, r := a[0], a[1..];
      ByAuthorsAppend(r, b, users);
      assert a == [x] + r;
      assert a + b == [x] + (r + b);
      ByAuthorsCons(x, r + b, users);
      ByAuthorsCons(x, r, users);
    }
  }

  lemma {:induction false} TicketItemsNarrow(tickets: map<TicketId, Ticket>, order: seq<TicketId>, few: set<UserId>, many: set<UserId>)
    requires forall i :: 0 <= i < |order| ==> order[i] in tickets
    requires few <= many
    ensures TicketItems(tickets, order, few) == ByAuthors(TicketItems(tickets, order, many), few)
  {
    if order != [] {
      TicketItemsNarrow(tickets, order[1..], few, many);
      var x := TicketItem(order[0], tickets[order[0]]);
      if x.Author() in many {
        assert TicketItems(tickets, order, many) == [x] + TicketItems(tickets, order[1..], many);
        assert ([x] + TicketItems(tickets, order[1..], many))[1..] == TicketItems(tickets, order[1..], many);
      }
    }
  }

  lemma {:induction false} ReviewItemsNarrow(reviews: map<ReviewId, Review>, order: seq<ReviewId>, few: set<UserId>, many: set<UserId>)
    requires forall i :: 0 <= i < |order| ==> order[i] in reviews
    requires few <= many
    ensures ReviewItems(reviews, order, few) == ByAuthors(ReviewItems(reviews, order, many), few)
  {
    if order != [] {
      ReviewItemsNarrow(reviews, order[1..], few, many);
      var x := ReviewItem(order[0], reviews[order[0]]);
      if x.Author() in many {
        assert ReviewItems(reviews, order, many) == [x] + ReviewItems(reviews, order[1..], many);
        assert ([x] + ReviewItems(reviews, order[1..], many))[1..] == ReviewItems(reviews, order[1..], many);
      }
    }
  }

  lemma ConsNonIncreasing(x: FeedItem, s: seq<FeedItem>)
    requires NonIncreasing(s)
    requires forall y :: y in s ==> y.TimeCreated() <= x.TimeCreated()
    ensures NonIncreasing([x] + s)
  {
    forall i, j | 0 <= i < j < |[x] + s| ensures ([x] + s)[j].TimeCreated() <= ([x] + s)[i].TimeCreated() {
      assert ([x] + s)[j] == s[j - 1];
      assert s[j - 1] in s;
      if i > 0 {
        assert ([x] + s)[i] == s[i - 1];
      }
    }
  }

  lemma {:induction false} ByAuthorsKeepsOrder(s: seq<FeedItem>, users: set<UserId>)
    requires NonIncreasing(s)
    ensures NonIncreasing(ByAuthors(s, users))
  {
    if s != [] {
      TailNonIncreasing(s);
      ByAuthorsKeepsOrder(s[1..], users);
      var rest := ByAuthors(s[1..], users);
      ByAuthorsMembers(s[1..], users);
      if s[0].Author() in users {
        forall y | y in rest ensures y.TimeCreated() <= s[0].TimeCreated() {
          MaxFirst(s, y);
        }
        ConsNonIncreasing(s[0], rest);
      } else {
        assert ByAuthors(s, users) == rest;
      }
    }
  }

  lemma {:induction false} ByAuthorsWithTime(s: seq<FeedItem>, users: set<UserId>, t: int)
    ensures WithTime(ByAuthors(s, users), t) == ByAuthors(WithTime(s, t), users)
  {
    if s != [] {
      ByAuthorsWithTime(s[1..], users, t);
      var h: seq<FeedItem> := if s[0].Author() in users then [s[0]] else [];
      var w: seq<FeedItem> := if s[0].TimeCreated() == t then [s[0]] else [];
      assert ByAuthors(s, users) == h + ByAuthors(s[1..], users);
      WithTimeAppend(h, ByAuthors(s[1..], users), t);
      assert WithTime(s, t) == w + WithTime(s[1..], t);
      ByAuthorsAppend(w, WithTime(s[1..], t), users);
      if s[0].Author() in users {
        assert WithTime(h, t) == w;
      }
      if s[0].TimeCreated() == t {
        assert ByAuthors(w, users) == h;
      }
    }
  }

  /** Restricting a list to some authors and then sorting it gives the same list as sorting it and
      then restricting it. */
  lemma SortThenNarrow(s: seq<FeedItem>, users: set<UserId>)
    ensures ByAuthors(SortByTimeDesc(s), users) == SortByTimeDesc(ByAuthors(s, users))
  {
    var a := ByAuthors(SortByTimeDesc(s), users);
    var b := SortByTimeDesc(ByAuthors(s, users));
    SortIsOrdered(s);
    ByAuthorsKeepsOrder(SortByTimeDesc(s), users);
    SortIsOrdered(ByAuthors(s, users));
    forall t ensures WithTime(a, t) == WithTime(b, t) {
      ByAuthorsWithTime(SortByTimeDesc(s), users, t);
      SortIsStable(s, t);
      ByAuthorsWithTime(s, users, t);
      SortIsStable(ByAuthors(s, users), t);
    }
    SameTiesSameList(a, b);
  }

  /** get_data on fewer users is get_data on more users restricted to the fewer, in the same order,
      given the same row order for both calls' queries. */
  lemma GetDataNarrow(
    tickets: map<TicketId, Ticket>, ticketOrder: seq<TicketId>,
    reviews: map<ReviewId, Review>, reviewOrder: seq<ReviewId>,
    few: set<UserId>, many: set<UserId>)
    requires forall i :: 0 <= i < |ticketOrder| ==> ticketOrder[i] in tickets
    requires forall i :: 0 <= i < |reviewOrder| ==> reviewOrder[i] in reviews
    requires few <= many
    ensures GetData(tickets, ticketOrder, reviews, reviewOrder, few) ==
      ByAuthors(GetData(tickets, ticketOrder, reviews, reviewOrder, many), few)
  {
    var rs := ReviewItems(reviews, reviewOrder, many);
    var ts := TicketItems(tickets, ticketOrder, many);
    ReviewItemsNarrow(reviews, reviewOrder, few, many);
    TicketItemsNarrow(tickets, ticketOrder, few, many);
    ByAuthorsAppend(rs, ts, few);
    SortThenNarrow(rs + ts, few);
  }

  /** The list PostsView shows is the list FeedsView shows to the same user, restricted to that
      user's own tickets and reviews, in the same order, given that the database returns the rows
      of both requests in the same order (GetDataRowOrders covers two different orders). */
  lemma PostsAreOwnFeedItems(
    follows: map<FollowId, Follow>,
    tickets: map<TicketId, Ticket>, ticketOrder: seq<TicketId>,
    reviews: map<ReviewId, Review>, reviewOrder: seq<ReviewId>,
    me: UserId)
    requires forall i :: 0 <= i < |ticketOrder| ==> ticketOrder[i] in tickets
    requires forall i :: 0 <= i < |reviewOrder| ==> reviewOrder[i] in reviews
    ensures GetData(tickets, ticketOrder, reviews, reviewOrder, PostsSubjects(me)) ==
      ByAuthors(GetData(tickets, ticketOrder, reviews, reviewOrder, FeedSubjects(follows, me)), {me})
  {
    GetDataNarrow(tickets, ticketOrder, reviews, reviewOrder, PostsSubjects(me), FeedSubjects(follows, me));
  }

  /** The items of one time keep the absence of repeats of `s`. */
  lemma {:induction false} WithTimeDistinct(s: seq<FeedItem>, t: int)
    requires Distinct(s)
    ensures Distinct(WithTime(s, t))
  {
    if s != [] {
      assert s == [s[0]] + s[1..];
      DistinctCons(s[0], s[1..]);
      WithTimeDistinct(s[1..], t);
      WithTimeCons(s[0], s[1..], t);
      WithTimeMembers(s[1..], t);
      DistinctCons(s[0], WithTime(s[1..], t));
    }
  }

  /** No two stored tickets or reviews of `users` were created at the same time. */
  ghost predicate DistinctTimes(tickets: map<TicketId, Ticket>, reviews: map<ReviewId, Review>, users: set<UserId>)
  {
    forall x, y ::
      (IsContentOf(x, tickets, reviews, users) && IsContentOf(y, tickets, reviews, users) &&
       x.TimeCreated() == y.TimeCreated()) ==> x == y
  }

  /** A repeat-free list of content whose times are all different holds at most one item per time. */
  lemma OneAtTime(
    s: seq<FeedItem>, tickets: map<TicketId, Ticket>, reviews: map<ReviewId, Review>, users: set<UserId>, t: int)
    requires Distinct(s) && DistinctTimes(tickets, reviews, users)
    requires forall x :: x in s ==> IsContentOf(x, tickets, reviews, users)
    ensures |WithTime(s, t)| <= 1
  {
    var w := WithTime(s, t);
    WithTimeMembers(s, t);
    forall i, j | 0 <= i < |w| && 0 <= j < |w| ensures w[i] == w[j] {
      assert w[i] in w && w[j] in w;
    }
    assert 2 <= |w| ==> w[0] == w[1];
    WithTimeDistinct(s, t);
  }

  /** Two repeat-free lists of the same content, whose times are all different, agree at each time. */
  lemma SameAtEachTime(
    a: seq<FeedItem>, b: seq<FeedItem>,
    tickets: map<TicketId, Ticket>, reviews: map<ReviewId, Review>, users: set<UserId>, t: int)
    requires Distinct(a) && Distinct(b) && DistinctTimes(tickets, reviews, users)
    requires forall x :: x in a <==> IsContentOf(x, tickets, reviews, users)
    requires forall x :: x in b <==> IsContentOf(x, tickets, reviews, users)
    ensures WithTime(a, t) == WithTime(b, t)
  {
    OneAtTime(a, tickets, reviews, users, t);
    OneAtTime(b, tickets, reviews, users, t);
    WithTimeMembers(a, t);
    WithTimeMembers(b, t);
    if WithTime(a, t) != [] {
      assert WithTime(a, t)[0] in WithTime(b, t);
    }
    if WithTime(b, t) != [] {
      assert WithTime(b, t)[0] in WithTime(a, t);
    }
  }

  /** The two queries of get_data are unordered, so two requests (FeedsView and PostsView, or the
      same view twice) may see the rows in different orders. get_data lists the same items under
      any two row orders, and the very same list when no two of those items share a creation
      time; items that do may come out in either order (RowOrderDecidesTies). */
  lemma GetDataRowOrders(
    tickets: map<TicketId, Ticket>, ticketOrder: seq<TicketId>, ticketOrder': seq<TicketId>,
    reviews: map<ReviewId, Review>, reviewOrder: seq<ReviewId>, reviewOrder': seq<ReviewId>,
    users: set<UserId>)
    requires IsRowOrder(ticketOrder, tickets) && IsRowOrder(reviewOrder, reviews)
    requires IsRowOrder(ticketOrder', tickets) && IsRowOrder(reviewOrder', reviews)
    ensures forall x :: x in GetData(tickets, ticketOrder, reviews, reviewOrder, users) <==>
      x in GetData(tickets, ticketOrder', reviews, reviewOrder', users)
    ensures DistinctTimes(tickets, reviews, users) ==>
      GetData(tickets, ticketOrder, reviews, reviewOrder, users) ==
      GetData(tickets, ticketOrder', reviews, reviewOrder', users)
  {
    var a := GetData(tickets, ticketOrder, reviews, reviewOrder, users);
    var b := GetData(tickets, ticketOrder', reviews, reviewOrder', users);
    GetDataSelects(tickets, ticketOrder, reviews, reviewOrder, users);
    GetDataSelects(tickets, ticketOrder', reviews, reviewOrder', users);
    if DistinctTimes(tickets, reviews, users) {
      GetDataNewestFirst(tickets, ticketOrder, reviews, reviewOrder, users);
      GetDataNewestFirst(tickets, ticketOrder', reviews, reviewOrder', users);
      forall t ensures WithTime(a, t) == WithTime(b, t) {
        SameAtEachTime(a, b, tickets, reviews, users, t);
      }
      SameTiesSameList(a, b);
    }
  }

  /** Two tickets of `users`, listed in the order of their ids. */
  lemma TicketItemsOfTwo(tickets: map<TicketId, Ticket>, a: TicketId, b: TicketId, users: set<UserId>)
    requires a in tickets && b in tickets && tickets[a].user in users && tickets[b].user in users
    ensures TicketItems(tickets, [a, b], users) == [TicketItem(a, tickets[a]), TicketItem(b, tickets[b])]
  {
    assert [a, b][1..] == [b] && [b][1..] == [];
    assert TicketItems(tickets, [b], users) == [TicketItem(b, tickets[b])] + TicketItems(tickets, [], users);
  }

  /** Sorting two items created at the same time keeps them as they are. */
  lemma SortTwoTies(x: FeedItem, y: FeedItem)
    requires x.TimeCreated() == y.TimeCreated()
    ensures SortByTimeDesc([x, y]) == [x, y]
  {
    assert [x, y][1..] == [y] && [y][1..] == [];
    assert SortByTimeDesc([y]) == Insert(y, []) == [y];
    assert Insert(x, [y]) == [x] + [y];
  }

  /** Two row orders can give two different lists: two tickets of one user created at the same
      time come out in the order their rows came. */
  lemma RowOrderDecidesTies(tickets: map<TicketId, Ticket>, a: TicketId, b: TicketId, u: UserId)
    requires a in tickets && b in tickets && tickets[a].user == u && tickets[b].user == u
    requires tickets[a].timeCreated == tickets[b].timeCreated
    ensures GetData(tickets, [a, b], map[], [], {u}) == [TicketItem(a, tickets[a]), TicketItem(b, tickets[b])]
    ensures GetData(tickets, [b, a], map[], [], {u}) == [TicketItem(b, tickets[b]), TicketItem(a, tickets[a])]
  {
    var x, y := TicketItem(a, tickets[a]), TicketItem(b, tickets[b]);
    TicketItemsOfTwo(tickets, a, b, {u});
    TicketItemsOfTwo(tickets, b, a, {u});
    assert ReviewItems(map[], [], {u}) == [];
    assert [] + [x, y] == [x, y] && [] + [y, x] == [y, x];
    SortTwoTies(x, y);
    SortTwoTies(y, x);
  }
}
