# LITReview reviews app in Dafny

This project models the `reviews` app of LITReview, a Django site where users post tickets (requests for a book review), answer tickets with reviews, and follow each other. It covers three parts:

- **The feed aggregator** (`Feed`, `Pagination`). `BaseFeedsView.get_data` selects the tickets and reviews of a set of users. It tags each with its content type, chains the reviews before the tickets, and sorts newest first with Python's stable `sorted(..., reverse=True)`. `get_paginator` cuts the list into pages of five and picks the requested page, with the fallback rules for a missing, malformed or out-of-range page number. `FeedsView` shows the requester's content and that of everyone they follow; `PostsView` shows the requester's own.
- **The follow graph** (`Models`, `Store.Store.Subscribe`). It is the `UserFollow` table seen as a set of ordered (follower, followed) pairs under `unique_together`, plus the rules of `SubscribeView.post`.
- **The content store** (`Models`, `Store`). It covers the `Ticket` and `Review` records with their length, range and one-review-per-ticket constraints, `Ticket.is_closed`, the owner-scoped ticket lookups, the cascades, and the views that create, update and delete rows.

Modules:

- `Models.dfy` holds the records, the field bounds the forms enforce, the schema invariant `Consistent`, `is_closed`, and the cascade rules as functions on the tables.
- `Feed.dfy` holds the merged list. The insertion sort there has the same result as Python's stable sort. The file also proves the selection, order, stability and restriction properties.
- `Pagination.dfy` holds Django's `Paginator` page count, the page slice and the clamping rule of `get_paginator`.
- `Store.dfy` holds a `Store` class whose fields are the four tables and the id counters. Its methods are the views that write, and its functions are the two read-only feed views.

Each table is a map from primary key to row. An unordered query returns its rows in an order the database chooses. That order enters the model as a parameter: a sequence listing every key once (`Feed.IsRowOrder`). Stability is stated relative to it.

## Model

| member | source | states |
|---|---|---|
| `Models.ClosedIffExactlyOneReview` | LITReview/reviews/models.py:49-51 | Under the one-to-one constraint, a ticket is closed exactly when exactly one review answers it. |
| `Models.RowsMatchEdges` | LITReview/reviews/models.py:20-23 | Under `unique_together`, the follow table has as many rows as distinct (user, followed_user) pairs. |
| `Models.AddRowEdges` | LITReview/reviews/views.py:353-355 | Inserting a follow row under a fresh id adds exactly its pair to the edge set. |
| `Models.AddRowUnique` | LITReview/reviews/models.py:23 | Adding a pair that is not yet stored keeps `unique_together`. |
| `Models.RemoveRowEdges` | LITReview/reviews/views.py:365-368 | Under `unique_together`, deleting one follow row removes exactly its pair and no other. |
| `Models.DropReviewsOfTickets` | LITReview/reviews/models.py:73 | The Ticket-to-Review cascade leaves every deleted ticket unanswered. Every review of another ticket survives unchanged, and nothing is added. |
| `Models.DropFollowsOfEdges` | LITReview/reviews/models.py:15-18 | Deleting a user removes exactly the follow pairs with that user at either end. |
| `Models.DropUserConsistent` | LITReview/reviews/models.py:15-80 | Deleting a user with all its cascades leaves no dangling foreign key and keeps every constraint. |
| `Feed.TicketItems` | LITReview/reviews/views.py:27-29 | The TICKET items are exactly the stored tickets of the given users, unchanged and tagged. A repeat-free row order gives a repeat-free list. |
| `Feed.ReviewItems` | LITReview/reviews/views.py:30-32 | The REVIEW items are exactly the stored reviews of the given users, unchanged and tagged. A repeat-free row order gives a repeat-free list. |
| `Feed.SortPermutes` | LITReview/reviews/views.py:33-35 | The sort is a permutation of its input. |
| `Feed.SortIsOrdered` | LITReview/reviews/views.py:33-35 | The sorted list never increases in `time_created`. |
| `Feed.SortIsStable` | LITReview/reviews/views.py:33-35 | For every time, the items created at that time keep their input order (stability under `reverse=True`). |
| `Feed.SameTiesSameList` | LITReview/reviews/views.py:33-35 | Two newest-first lists with the same items at each time, in the same order, are equal. A stable descending sort therefore has a unique result. |
| `Feed.GetDataSelects` | LITReview/reviews/views.py:27-35 | An item is in `get_data(users)` exactly when it is a stored ticket or review of one of `users`, unchanged and tagged with its kind. No item is repeated. |
| `Feed.GetDataNewestFirst` | LITReview/reviews/views.py:33-35 | `get_data`'s list never increases in `time_created`. |
| `Feed.GetDataTies` | LITReview/reviews/views.py:33-34 | The items created at a given time appear as those reviews in row order, then those tickets in row order. |
| `Feed.ReviewsBeforeTicketsOnTies` | LITReview/reviews/views.py:33-34 | In `get_data`'s list, no ticket precedes a review created at the same time. |
| `Feed.GetDataIsStableSort` | LITReview/reviews/views.py:33-35 | Any newest-first list that keeps the chained order within each time is exactly `get_data`'s list. |
| `Feed.FeedSubjects` | LITReview/reviews/views.py:57-59 | FeedsView's users are exactly the requester and every user the requester has a follow row for. |
| `Feed.SortThenNarrow` | LITReview/reviews/views.py:33-35 | Sorting then restricting to some authors equals restricting then sorting. |
| `Feed.GetDataNarrow` | LITReview/reviews/views.py:27-35 | Given the same database row order for both calls, `get_data` on fewer users is `get_data` on more users restricted to the fewer, in the same order. |
| `Feed.PostsAreOwnFeedItems` | LITReview/reviews/views.py:73-75 | Given the same database row order for both requests, PostsView's list is FeedsView's list for the same user, restricted to that user's own items, in the same order. |
| `Feed.GetDataRowOrders` | LITReview/reviews/views.py:27-35 | Under any two row orders of the two unordered queries, `get_data` lists the same items. When no two of them share a `time_created`, it is the very same list. |
| `Feed.RowOrderDecidesTies` | LITReview/reviews/views.py:27-35 | Two tickets of one user created at the same time come out in the order the database returned their rows, so two requests can list them in opposite orders. |
| `Pagination.NumPages` | LITReview/reviews/views.py:41 | There is at least one page, and exactly one for an empty list (an empty first page is allowed). |
| `Pagination.NumPagesBounds` | LITReview/reviews/views.py:41 | For a non-empty list, `num_pages` is the least page count whose pages hold all the items. |
| `Pagination.PageItems` | LITReview/reviews/views.py:44 | A page holds at most `per_page` items, and every page before the last is full. The page is non-empty when the list is. It is the contiguous run starting at `(number - 1) * per_page`, and the last page runs to the end of the list. |
| `Pagination.ResolvePage` | LITReview/reviews/views.py:42-48 | The chosen page number is always between 1 and `num_pages`. |
| `Pagination.GetPage` | LITReview/reviews/views.py:37-49 | A missing or non-integer page gives page 1. An integer in range gives that page, and any other integer (0 and negatives included) gives the last page. The page holds at most `per_page` items and is non-empty when the list is. |
| `Pagination.PagesConcatenate` | LITReview/reviews/views.py:37-49 | Pages 1 to `num_pages`, each as `get_paginator` returns it for its number, concatenate back to the whole list. |
| `Pagination.TwelveItemsExample` | LITReview/reviews/views.py:41-48 | Twelve items give three pages (5, 5 and 2 items). Pages 4, 0 and -2 fall back to page 3, and a missing or malformed page gives page 1. |
| `Store.Store.constructor` | LITReview/reviews/models.py:7-80 | A store with the given users and empty tables satisfies the invariant. |
| `Store.Store.Subscribe` | LITReview/reviews/views.py:340-379 | The rules apply in the view's order: invalid form, unknown user, self-target, then subscribe (existing edge or new edge), unsubscribe (missing edge or removed edge), or another action. Subscribed adds exactly the edge (me, target), and Unsubscribed removes exactly it. Every other outcome leaves the follow table unchanged. Only Subscribed advances the follow id counter. The tickets, reviews and users are untouched. |
| `Store.Store.CreateTicket` | LITReview/reviews/views.py:155-160 | A form with valid title, description and image creates one new ticket owned by the requester under a fresh id, and it is open. It has an image exactly when a file was uploaded. A non-image upload, or a file sent with "clear", is an invalid form, and then nothing changes. |
| `Store.Store.UpdateTicket` | LITReview/reviews/views.py:115-122 | A ticket that is missing and one owned by another user are both not found, and nothing changes. An owner's valid form (image included) saves the title, the description and the image of that one ticket: no file keeps the image, "clear" removes it, an upload replaces it. The owner and the creation time stay, and so does every other row. |
| `Store.Store.DeleteTicket` | LITReview/reviews/views.py:100-104 | Not found exactly when the requester does not own the ticket, and then nothing changes. Otherwise the ticket and exactly the review answering it, if any, are deleted, and every other row stays. |
| `Store.Store.AddReview` | LITReview/reviews/views.py:190-203 | A missing ticket is not found. An invalid form writes nothing. A valid form whose raw POST values cannot be stored (no `body` key, a rating like "3.0") ends in a server error and writes nothing. A ticket that already has a review gets IntegrityError and writes nothing. Otherwise exactly one new review by the requester answers the ticket, which is then closed. |
| `Store.Store.AddFullReview` | LITReview/reviews/views.py:234-259 | An invalid form (an unacceptable image upload included), or a missing raw `description`, creates nothing. Otherwise exactly one new ticket is created (owner the requester, no image). If the review's raw values can be stored, exactly one review by the requester answers it. If not, the view ends in a server error and the ticket stays, unanswered. |
| `Store.Store.DeleteUser` | LITReview/reviews/models.py:15-79 | The user's tickets, reviews and follow edges at either end are removed, and so are the reviews that answered the user's tickets. Everything else stays, and the invariant holds. |
| `Store.Store.FeedsPage` | LITReview/reviews/views.py:56-61 | FeedsView's page holds only content of the requester or of users they follow. It is newest first, repeats nothing and holds at most 5 items. It is empty only when there is no such content. It is the page `get_paginator` picks for `req` from `get_data`'s list. |
| `Store.Store.PostsPage` | LITReview/reviews/views.py:73-76 | PostsView's page holds only the requester's own content. It is newest first, repeats nothing and holds at most 5 items. It is empty only when there is no such content. It is the page `get_paginator` picks for `req` from `get_data`'s list. |
| `Store.ContentPage` | LITReview/reviews/views.py:37-49 | A page of `get_data` holds only content of the given users, newest first and without repeats, and is empty only when they have posted nothing. It is the page `get_paginator` picks from `get_data`'s list. |

## Left out

- Account views, URL routing, templates, flashed messages, redirects and the `?next=` success URLs are not modelled. Outcomes are datatypes (`Store.SubscribeOutcome`, `Store.Outcome`) with one value per message or response.
- Forms are not modelled as forms. A ReviewForm is valid exactly when `Models.ReviewFieldsValid` holds. A TicketForm is valid exactly when `Models.TicketFieldsValid` holds for its text fields and `Models.ImageInputValid` for its image widget. Whether an uploaded file decodes as an image is an input of the upload (`Models.ImageInput`), not a model of the image library.
- The form layer strips surrounding whitespace before checking lengths. TicketCreateView and TicketUpdateView save the cleaned values, which the model's parameters stand for. ReviewAddView and ReviewAddFullView store the raw POST values instead, so a stored headline or title there may carry whitespace the length check did not count. That difference is not modelled.
- `Store.Store.Subscribe` takes the SubscribeForm's verdict as a boolean. The form's own check that the chosen user exists is left to the framework, which is why the view's "does not exist" branch is kept as a separate rule.
- `SubscribeView.post` detects a duplicate edge only through the `IntegrityError` the unique constraint raises: the SubscribeForm has no `user` field, so the form never checks the pair. This is modelled as a membership test on the edge set. The concurrent-insert aspect is not modelled.
- `ReviewAddView.post` does not catch the `IntegrityError` that a second review for the same ticket raises. It is modelled as the outcome `IntegrityError` with no change.
- `ReviewUpdateView` and `ReviewDeleteView` are not modelled as separate operations. Their `get_object` (LITReview/reviews/views.py:278-285, 298-302) looks up a Ticket by primary key and owner, exactly like the ticket views. A confirmed review deletion therefore deletes the requester's ticket with that id, and the review answering it by cascade, which is what `Store.Store.DeleteTicket` states. The GET confirmation pages and the ReviewForm-on-a-Ticket update are framework behaviour.
- Whether the raw POST values the review views store are present and convert is a boolean input (`postReadable`, `ticketPostReadable`, `reviewPostReadable`), not a model of the request. `Store.Store.AddFullReview` keeps the ticket when the review fails because its two inserts are separate statements and the views open no transaction. Whether the deployment wraps requests in one (`ATOMIC_REQUESTS`) is settings, which are not part of this model.
- Images are not modelled beyond a stored reference: the file contents, the upload directory and the storage's renaming of clashing names are not modelled. `Store.Store.AddFullReview` validates the image and then stores none, as the view does. Replacing or clearing an image does not delete the old file from storage.
- Timestamps (`timezone.now`) are integers that the caller supplies.
- Primary keys come from per-table counters, so a new row never reuses an id.
- Authentication is not modelled: the acting user is passed explicitly and must be a stored user. Anonymous access to the views without `LoginRequiredMixin` is not modelled.
- The database's row order for the unordered ticket and review queries is a parameter, so stability is stated relative to whatever order it returns. Two requests may see two different orders: `Feed.GetDataRowOrders` states what survives that, and `Feed.GetDataNarrow` and `Feed.PostsAreOwnFeedItems` assume one order for both.
- `Paginator` internals such as string-to-integer parsing are collapsed into `Pagination.PageRequest`. A missing parameter and one that does not parse as an integer behave alike, and an integer is kept as such. The `orphans` option is not used by the views and is not modelled.
- The GET handlers that render forms or confirmation pages change nothing, and are not modelled.
