# Car blog post store, modelled in Dafny

The blog server keeps every post in one process-wide array, `posts`. Its
Express route handlers create, list, view, edit, delete and filter posts by
calling `push`, `find`, `findIndex`, `filter` and indexed assignment on that
array. This project models the array and those operations, and proves what
each handler does to the collection.

- `js_array.dfy`, module `JsArray`: the three array methods the handlers
  call (`findIndex`, `find`, `filter`) as functions over a sequence and a
  callback. It also defines `IsSubsequence`, which says that one sequence
  is another with some elements taken out and the rest kept in order.
- `blog.dfy`, module `Blog`:
  - the `Post` record and the submitted edit form (`Edit`, one optional value per field);
  - the object-spread merge;
  - the pure queries (find by id, the 404 branch of the view and edit-form handlers, the category filter);
  - the edit and delete transitions as functions on the sequence;
  - a `PostStore` class whose `posts` field the `Create`, `Update` and `Delete` methods change in place.

GET / renders the `posts` field as it stands, so the model has no separate
list function. The listing keeps insertion order because of what the three
mutators promise:
- `Create` only appends.
- `Update` keeps the length and every post at its index; only the first match is merged (`Updated`).
- `Delete` yields a subsequence of the old collection.

`Blog.Walkthrough` is a client method. It creates a post on a fresh store,
views it, filters by "go" and by "rust", edits its title and deletes it.

Where the code's behaviour may be surprising, the model follows the code:
- An edit of an id that no post has reports nothing. `findIndex` yields
  -1, so `posts[-1] = …` sets a property that is not an element, and the
  collection is unchanged (`Updated` ensures this when the id is absent).
- The spread merge lets a submitted `id` field overwrite a post's id, so
  `Edit` carries an optional `id`. The lemmas about ids keeping their place
  or staying unique require that the edit brings no id, or the post's own id.
- Nothing in the code keeps ids unique. `Date.now().toString()` can repeat
  within one millisecond. Uniqueness (`UniqueIds`) is proved to be preserved
  only when each new id is fresh, and that freshness is a precondition.

## Model

| member | source | states |
|---|---|---|
| JsArray.FindIndex | app.js:66 | the result is -1 exactly when no element satisfies the callback; otherwise it is an index whose element satisfies it and no earlier element does |
| JsArray.Find | app.js:47 | undefined exactly when no element satisfies the callback; otherwise the element at the first index that satisfies it |
| JsArray.Filter | app.js:72 | every kept element is from the input and satisfies the callback; each satisfying element is kept as often as it occurs; the result is an order-preserving subsequence of the input |
| JsArray.FilterCharacterized | app.js:78 | these three properties determine the filtered sequence uniquely |
| JsArray.FilterAllKept | app.js:72 | filtering a sequence whose every element satisfies the callback returns it unchanged |
| JsArray.FindIndexAppend | app.js:42 | appending an element does not change `findIndex` when an earlier element already matches or the new one does not |
| JsArray.SubsequenceMultiset | app.js:72 | a subsequence never holds an element more often than the sequence it came from |
| Blog.Merge | app.js:67 | each field the edit supplies (id included) is overwritten with the supplied value; each field it leaves out keeps the stored value |
| Blog.IndexOf | app.js:66 | -1 exactly when no post has the id; otherwise the first index holding a post with that id |
| Blog.Lookup | app.js:47 | not found exactly when no post has the id; otherwise the post at the first index with that id |
| Blog.Show | app.js:47-61 | a 404 reply with body "Post not found" exactly when no post has the id; otherwise the page of the first post with that id |
| Blog.Updated | app.js:66-67 | the length is unchanged; the first post with the id is replaced by its merge with the edit; every other index is unchanged; with no such post the collection is unchanged |
| Blog.WithoutId | app.js:72 | no post with the id remains; every other post is kept as often as before; the result is an order-preserving subsequence of the collection |
| Blog.InCategory | app.js:78 | only posts whose engine equals the argument exactly; every such post is kept as often as it occurs; the result is an order-preserving subsequence and the collection is left as it is |
| Blog.InCategoryCharacterized | app.js:78 | any sequence with those three properties is the category listing |
| Blog.CreateThenLookup | app.js:34-47 | after appending a post with a fresh id, finding that id returns a post with exactly the submitted id, title, engine, content and image |
| Blog.CreateKeepsOtherLookups | app.js:42 | appending a post does not change what finding a different id returns |
| Blog.CreateKeepsUnique | app.js:34-42 | appending a post with a fresh id keeps all ids pairwise distinct |
| Blog.UpdateKeepsIds | app.js:67 | an edit that brings no id, or the post's own id, leaves every index's id unchanged |
| Blog.UpdateKeepsUnique | app.js:67 | such an edit keeps all ids pairwise distinct |
| Blog.UpdateThenLookup | app.js:66-67 | after such an edit of an existing id, finding the id returns the previously found post with the edit merged in |
| Blog.DeleteAbsentUnchanged | app.js:72 | deleting an id that no post has leaves the collection unchanged |
| Blog.DeleteIdempotent | app.js:72 | deleting the same id twice equals deleting it once |
| Blog.DeleteThenLookup | app.js:72 | after a delete, viewing that id gives the 404 "Post not found" reply |
| Blog.SubsequenceKeepsUnique | app.js:72 | taking posts out of a collection whose ids are distinct keeps them distinct |
| Blog.DeleteKeepsUnique | app.js:72 | deleting keeps all ids pairwise distinct |
| Blog.PostStore.constructor | app.js:20 | the store starts empty |
| Blog.PostStore.Create | app.js:31-42 | the new collection is the old one with exactly one post appended at the end, built from the given id and the submitted fields; every earlier post is unchanged at its index |
| Blog.PostStore.Update | app.js:65-67 | the new collection is `Updated` of the old one: the first match is merged in place and nothing else changes |
| Blog.PostStore.Delete | app.js:71-72 | the new collection is `WithoutId` of the old one |

## Left out

- Express setup, middleware, static files, EJS rendering, redirects and `app.listen` (app.js:6-18, 82) are framework plumbing. The handlers that only render a form (app.js:26-28) are left out too.
- `marked.parse` (app.js:52) is a library call whose internals are not shown. `Show` returns the post itself, and converting its content to HTML is not part of this model.
- `Date.now()` (app.js:35) reads the clock. The id is a parameter of `PostStore.Create`.
- Form values are modelled as strings. The `extended: true` URL-encoded parser can also produce arrays and objects, and a field missing from the create form ends up `undefined`. Neither is modelled.
- Keys of the edit body other than the five post fields, which the spread would copy into the stored post (app.js:67), are not modelled.
- The property named "-1" that an edit of a missing id writes onto the array object (app.js:67) is not modelled. It is not an element: `find`, `findIndex` and `filter` never see it, and the next delete builds a new array without it.
- Concurrency is not modelled: the handlers run one at a time and nothing in them coordinates.
