/** The in-memory post store of the blog server: the module-level `posts`
    array and what its route handlers do to it. */
module Blog {
  import opened JsArray

  /** A blog post, as the create handler builds it. */
  datatype Post = Post(id: string, title: string, engine: string, content: string, image: string)

  /** The fields of a submitted edit form. A present field replaces the
      stored one and an absent field leaves it alone, as the object spread
      `{ ...post, ...body }` does; the body may carry an `id` too. */
  datatype Edit = Edit(
    id: Option<string>,
    title: Option<string>,
    engine: Option<string>,
    content: Option<string>,
    image: Option<string>)

  /** The reply of the handlers that look a post up by id. */
  datatype Reply = Page(post: Post) | Status(code: int, body: string)

  const NotFoundCode := 404
  const NotFoundMessage := "Post not found"

  /** The callbacks the handlers pass to `find`, `findIndex` and `filter`. */
  function IdIs(id: string): Post -> bool { (p: Post) => p.id == id }
  function IdIsNot(id: string): Post -> bool { (p: Post) => p.id != id }
  function EngineIs(engine: string): Post -> bool { (p: Post) => p.engine == engine }

  /** No post of `s` has the id `id`. */
  ghost predicate Absent(s: seq<Post>, id: string) {
    forall k :: 0 <= k < |s| ==> s[k].id != id
  }

  /** `k` is the first index of `s` holding a post with id `id`. */
  ghost predicate FirstWithId(s: seq<Post>, id: string, k: int) {
    IsFirst(s, IdIs(id), k)
  }

  /** No two posts of `s` share an id. */
  ghost predicate UniqueIds(s: seq<Post>) {
    forall i, j :: 0 <= i < |s| && 0 <= j < |s| && s[i].id == s[j].id ==> i == j
  }

  function Pick(supplied: Option<string>, current: string): string {
    match supplied
    case Some(v) => v
    case None => current
  }

  /** `{ ...p, ...body }`: every supplied field overwritten, every other
      field kept. */
  function Merge(p: Post, e: Edit): (r: Post)
    ensures e.id.Some? ==> r.id == e.id.value
    ensures e.id.None? ==> r.id == p.id
    ensures e.title.Some? ==> r.title == e.title.value
    ensures e.title.None? ==> r.title == p.title
    ensures e.engine.Some? ==> r.engine == e.engine.value
    ensures e.engine.None? ==> r.engine == p.engine
    ensures e.content.Some? ==> r.content == e.content.value
    ensures e.content.None? ==> r.content == p.content
    ensures e.image.Some? ==> r.image == e.image.value
    ensures e.image.None? ==> r.image == p.image
  {
    Post(Pick(e.id, p.id), Pick(e.title, p.title), Pick(e.engine, p.engine),
         Pick(e.content, p.content), Pick(e.image, p.image))
  }

  /** `posts.findIndex(p => p.id === id)`. */
  function IndexOf(s: seq<Post>, id: string): (i: int)
    ensures -1 <= i < |s|
    ensures i >= 0 ==> FirstWithId(s, id, i)
    ensures i == -1 <==> Absent(s, id)
  {
    FindIndex(s, IdIs(id))
  }

  /** `posts.find(p => p.id === id)`: the first post with that id, or
      `undefined`. */
  function Lookup(s: seq<Post>, id: string): (r: Option<Post>)
    ensures r.None? <==> Absent(s, id)
    ensures r.Some? ==> exists k :: FirstWithId(s, id, k) && r.value == s[k]
  {
    Find(s, IdIs(id))
  }

  /** GET /posts/:id and GET /edit/:id: the page for the first post with
      that id, or a 404 "Post not found" when there is none. */
  function Show(s: seq<Post>, id: string): (r: Reply)
    ensures r.Status? <==> Absent(s, id)
    ensures r.Status? ==> r.code == 404 && r.body == "Post not found"
    ensures r.Page? ==> exists k :: FirstWithId(s, id, k) && r.post == s[k]
  {
    match Lookup(s, id)
    case None => Status(NotFoundCode, NotFoundMessage)
    case Some(p) => Page(p)
  }

  /** POST /edit/:id: the first post with that id merged with the edit,
      every other index as it was. With no such post `findIndex` yields -1,
      and writing `posts[-1]` sets a property that is not an element, so
      the collection stays as it was. */
  function Updated(s: seq<Post>, id: string, e: Edit): (r: seq<Post>)
    ensures |r| == |s|
    ensures forall k :: 0 <= k < |s| ==> r[k] == if FirstWithId(s, id, k) then Merge(s[k], e) else s[k]
    ensures Absent(s, id) ==> r == s
  {
    var index := IndexOf(s, id);
    if index < 0 then s else s[index := Merge(s[index], e)]
  }

  /** POST /delete/:id: `posts.filter(p => p.id !== id)`. */
  function WithoutId(s: seq<Post>, id: string): (r: seq<Post>)
    ensures Absent(r, id)
    ensures forall p :: p in r ==> p in s
    ensures forall p :: p in s && p.id != id ==> multiset(r)[p] == multiset(s)[p]
    ensures IsSubsequence(r, s)
  {
    var r := Filter(s, IdIsNot(id));
    assert forall k :: 0 <= k < |r| ==> r[k].id != id by {
      forall k | 0 <= k < |r| ensures r[k].id != id { assert r[k] in r; }
    }
    r
  }

  /** GET /category/:engine: `posts.filter(p => p.engine === engine)`, an
      exact, case-sensitive comparison. */
  function InCategory(s: seq<Post>, engine: string): (r: seq<Post>)
    ensures forall p :: p in r ==> p in s && p.engine == engine
    ensures forall p :: p in s && p.engine == engine ==> multiset(r)[p] == multiset(s)[p]
    ensures IsSubsequence(r, s)
  {
    Filter(s, EngineIs(engine))
  }

  /** Creating a post with a fresh id and then looking that id up finds
      the post exactly as submitted. */
  lemma CreateThenLookup(s: seq<Post>, id: string, title: string, engine: string, content: string, image: string)
    requires Absent(s, id)
    ensures Lookup(s + [Post(id, title, engine, content, image)], id)
         == Some(Post(id, title, engine, content, image))
  {
    var p := Post(id, title, engine, content, image);
    var t := s + [p];
    assert FirstWithId(t, id, |s|) by {
      forall j | 0 <= j < |s| ensures t[j].id != id { assert t[j] == s[j]; }
    }
    var k :| FirstWithId(t, id, k) && Lookup(t, id).value == t[k];
    assert FirstWithId(t, id, k);
    FirstIsUnique(t, IdIs(id), k, |s|);
  }

  /** Creating a post does not change what a lookup of another id finds. */
  lemma CreateKeepsOtherLookups(s: seq<Post>, p: Post, id: string)
    requires p.id != id
    ensures Lookup(s + [p], id) == Lookup(s, id)
  {
    FindIndexAppend(s, p, IdIs(id));
  }

  /** Creating a post with a fresh id keeps the ids unique. */
  lemma CreateKeepsUnique(s: seq<Post>, p: Post)
    requires UniqueIds(s) && Absent(s, p.id)
    ensures UniqueIds(s + [p])
  {
    var t := s + [p];
    forall i, j | 0 <= i < |t| && 0 <= j < |t| && t[i].id == t[j].id ensures i == j {
      assert i < |s| ==> t[i] == s[i];
      assert j < |s| ==> t[j] == s[j];
    }
  }

  /** An edit that brings no id, or the post's own id, leaves every id where
      it was. */
  lemma UpdateKeepsIds(s: seq<Post>, id: string, e: Edit)
    requires e.id.None? || e.id == Some(id)
    ensures forall k :: 0 <= k < |s| ==> Updated(s, id, e)[k].id == s[k].id
  {
  }

  /** An edit that brings no id, or the post's own id, keeps ids unique. */
  lemma UpdateKeepsUnique(s: seq<Post>, id: string, e: Edit)
    requires UniqueIds(s)
    requires e.id.None? || e.id == Some(id)
    ensures UniqueIds(Updated(s, id, e))
  {
    UpdateKeepsIds(s, id, e);
  }

  /** After an edit of an existing post that keeps its id, looking the id up
      finds the old post with the edit merged in. */
  lemma UpdateThenLookup(s: seq<Post>, id: string, e: Edit)
    requires !Absent(s, id)
    requires e.id.None? || e.id == Some(id)
    ensures Lookup(Updated(s, id, e), id) == Some(Merge(Lookup(s, id).value, e))
  {
    var r := Updated(s, id, e);
    var k :| FirstWithId(s, id, k) && Lookup(s, id).value == s[k];
    assert FirstWithId(s, id, k);
    assert FirstWithId(r, id, k);
    var k' :| FirstWithId(r, id, k') && Lookup(r, id).value == r[k'];
    assert FirstWithId(r, id, k');
    FirstIsUnique(r, IdIs(id), k, k');
  }

  /** Deleting an id that no post has leaves the collection as it is. */
  lemma DeleteAbsentUnchanged(s: seq<Post>, id: string)
    requires Absent(s, id)
    ensures WithoutId(s, id) == s
  {
    FilterAllKept(s, IdIsNot(id));
  }

  /** Deleting twice is deleting once. */
  lemma DeleteIdempotent(s: seq<Post>, id: string)
    ensures WithoutId(WithoutId(s, id), id) == WithoutId(s, id)
  {
    DeleteAbsentUnchanged(WithoutId(s, id), id);
  }

  /** After a delete, looking the id up finds nothing. */
  lemma DeleteThenLookup(s: seq<Post>, id: string)
    ensures Show(WithoutId(s, id), id) == Status(404, "Post not found")
  {
  }

  /** Taking posts out of a collection with unique ids keeps them unique. */
  lemma {:induction false} SubsequenceKeepsUnique(a: seq<Post>, b: seq<Post>)
    requires IsSubsequence(a, b) && UniqueIds(b)
    ensures UniqueIds(a)
    decreases |b|
  {
    if a != [] {
      assert UniqueIds(b[1..]) by {
        forall i, j | 0 <= i < |b[1..]| && 0 <= j < |b[1..]| && b[1..][i].id == b[1..][j].id
          ensures i == j
        {
          assert b[1..][i] == b[i + 1] && b[1..][j] == b[j + 1];
        }
      }
      if a[0] == b[0] && IsSubsequence(a[1..], b[1..]) {
        SubsequenceKeepsUnique(a[1..], b[1..]);
        // no later post of `a` has the id of its head, since `b` has none
        forall m | 0 < m < |a| ensures a[m].id != a[0].id {
          assert a[m] == a[1..][m - 1];
          SubsequenceMembers(a[1..], b[1..], a[m]);
          var n :| 0 <= n < |b[1..]| && b[1..][n] == a[m];
          assert b[n + 1] == a[m];
        }
        forall i, j | 0 <= i < |a| && 0 <= j < |a| && a[i].id == a[j].id ensures i == j {
          assert 0 < i ==> a[i] == a[1..][i - 1];
          assert 0 < j ==> a[j] == a[1..][j - 1];
        }
      } else {
        SubsequenceKeepsUnique(a, b[1..]);
      }
    }
  }

  /** Deleting keeps ids unique. */
  lemma DeleteKeepsUnique(s: seq<Post>, id: string)
    requires UniqueIds(s)
    ensures UniqueIds(WithoutId(s, id))
  {
    SubsequenceKeepsUnique(WithoutId(s, id), s);
  }

  /** The contract of `InCategory` determines its result. */
  lemma InCategoryCharacterized(s: seq<Post>, engine: string, r: seq<Post>)
    requires IsSubsequence(r, s)
    requires forall p :: p in r ==> p.engine == engine
    requires forall p :: p in s && p.engine == engine ==> multiset(r)[p] == multiset(s)[p]
    ensures r == InCategory(s, engine)
  {
    FilterCharacterized(s, EngineIs(engine), r);
  }

  /** The process-wide collection, initially empty. GET / renders `posts`
      as it stands. */
  class PostStore {
    var posts: seq<Post>

    constructor ()
      ensures posts == []
    {
      posts := [];
    }

    /** POST /new; `id` stands for `Date.now().toString()`. */
    method Create(id: string, title: string, engine: string, content: string, image: string)
      modifies this
      ensures posts == old(posts) + [Post(id, title, engine, content, image)]
    {
      var newPost := Post(id, title, engine, content, image);
      posts := posts + [newPost];
    }

    /** POST /edit/:id. */
    method Update(id: string, e: Edit)
      modifies this
      ensures posts == Updated(old(posts), id, e)
    {
      var index := IndexOf(posts, id);
      if index >= 0 {
        posts := posts[index := Merge(posts[index], e)];
      }
    }

    /** POST /delete/:id. */
    method Delete(id: string)
      modifies this
      ensures posts == WithoutId(old(posts), id)
    {
      posts := WithoutId(posts, id);
    }
  }

  /** Creates a post on a fresh store, views it, filters by "go" and by
      "rust", edits its title and deletes it. */
  method Walkthrough(x: string)
  {
    var store := new PostStore();
    store.Create(x, "Hello", "go", "**hi**", "");
    var hello := Post(x, "Hello", "go", "**hi**", "");
    assert store.posts == [hello];
    assert InCategory(store.posts, "go") == [hello] by {
      InCategoryCharacterized([hello], "go", [hello]);
    }
    assert InCategory(store.posts, "rust") == [];
    assert Show(store.posts, x) == Page(hello);
    store.Update(x, Edit(None, Some("Bye"), None, None, None));
    assert store.posts == [Post(x, "Bye", "go", "**hi**", "")];
    store.Delete(x);
    assert store.posts == [];
  }
}
