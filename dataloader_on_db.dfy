/** The conditional-loading example: `Query.posts` looks at the selections of the query
    and only asks the user loader for `author` / `editor` when those fields were selected. */
module DataloaderOnDb {
  import opened Values
  import opened Users

  datatype Post = Post(id: Id, title: string, authorId: Id, editorId: Id)

  const SeedPosts: seq<Post> := [
    Post("1", "Post 1", "1", "2"),
    Post("2", "Post 2", "1", "1"),
    Post("3", "Post 3", "2", "1")
  ]

  // ----- the parts of the resolve info that `isFieldRequested` reads -----

  /** A selection of a query document. Only fields and fragment spreads have a `name`. */
  datatype Selection =
    | Field(name: string, selectionSet: SelectionSet)
    | FragmentSpread(name: string)
    | InlineFragment(selectionSet: SelectionSet)

  /** A node's `selectionSet`, which leaf fields do not have. */
  datatype SelectionSet = Absent | Selections(selections: seq<Selection>)

  /** `info`: the field nodes of the field being resolved. */
  datatype Info = Info(fieldNodes: seq<Selection>)

  /** The selection carries a name and that name is `fieldName`. */
  predicate NamedAs(s: Selection, fieldName: string)
  {
    !s.InlineFragment? && s.name == fieldName
  }

  /** The direct selections of the first field node, when it has a selection set. */
  predicate HasTopSelections(info: Info)
  {
    |info.fieldNodes| > 0 && !info.fieldNodes[0].FragmentSpread? && info.fieldNodes[0].selectionSet.Selections?
  }

  function TopSelections(info: Info): seq<Selection>
    requires HasTopSelections(info)
  {
    info.fieldNodes[0].selectionSet.selections
  }

  /** The `some` scan of `isFieldRequested` over a selection list: stops at the first
      selection with the wanted name, and throws on an inline fragment reached before it
      (an inline fragment has no name to read). */
  function SomeNamed(sels: seq<Selection>, fieldName: string): (r: Outcome<bool>)
    ensures r == Ok(true) <==>
      exists i :: 0 <= i < |sels| && NamedAs(sels[i], fieldName) && forall j :: 0 <= j < i ==> !sels[j].InlineFragment?
    ensures r == Ok(false) <==>
      forall i :: 0 <= i < |sels| ==> !sels[i].InlineFragment? && !NamedAs(sels[i], fieldName)
  {
    if sels == [] then Ok(false)
    else if sels[0].InlineFragment? then TypeError
    else if sels[0].name == fieldName then Ok(true)
    else
      var r := SomeNamed(sels[1..], fieldName);
      assert forall i :: 1 <= i < |sels| ==> sels[i] == sels[1..][i - 1];
      r
  }

  /** `isFieldRequested`: scans the direct selections of the first field node; throws when
      there is no first node or it has no selection set. */
  function IsFieldRequested(info: Info, fieldName: string): (r: Outcome<bool>)
    ensures !HasTopSelections(info) ==> r == TypeError
    ensures HasTopSelections(info) ==> r == SomeNamed(TopSelections(info), fieldName)
    ensures HasTopSelections(info) && (forall s :: s in TopSelections(info) ==> !s.InlineFragment?) ==>
      r == Ok(exists s :: s in TopSelections(info) && NamedAs(s, fieldName))
  {
    if |info.fieldNodes| == 0 then TypeError
    else
      var fieldNode := info.fieldNodes[0];
      if fieldNode.FragmentSpread? || fieldNode.selectionSet.Absent? then TypeError
      else SomeNamed(fieldNode.selectionSet.selections, fieldName)
  }

  /** A selection with its own sub-selections dropped. */
  function Shallow(s: Selection): Selection
  {
    match s
    case Field(name, _) => Field(name, Absent)
    case FragmentSpread(name) => s
    case InlineFragment(_) => InlineFragment(Absent)
  }

  /** Only the direct selections of the first field node matter: two infos whose first
      nodes select the same names at the top level give the same answer, whatever is
      selected below them and whatever the other field nodes hold. */
  lemma {:induction false} OnlyTopSelectionsMatter(info1: Info, info2: Info, fieldName: string)
    requires HasTopSelections(info1) && HasTopSelections(info2)
    requires |TopSelections(info1)| == |TopSelections(info2)|
    requires forall i :: 0 <= i < |TopSelections(info1)| ==> Shallow(TopSelections(info1)[i]) == Shallow(TopSelections(info2)[i])
    ensures IsFieldRequested(info1, fieldName) == IsFieldRequested(info2, fieldName)
  {
    SameShapeSameAnswer(TopSelections(info1), TopSelections(info2), fieldName);
  }

  /** When the query names `posts` twice, the engine passes two field nodes, and only the
      first one's selections are scanned: `editor`, selected in the second, is not seen. */
  lemma SecondFieldNodeIgnored()
    ensures IsFieldRequested(
      Info([Field("posts", Selections([Field("id", Absent)])), Field("posts", Selections([Field("editor", Absent)]))]),
      "editor") == Ok(false)
  {
  }

  lemma {:induction false} SameShapeSameAnswer(a: seq<Selection>, b: seq<Selection>, fieldName: string)
    requires |a| == |b|
    requires forall i :: 0 <= i < |a| ==> Shallow(a[i]) == Shallow(b[i])
    ensures SomeNamed(a, fieldName) == SomeNamed(b, fieldName)
  {
    if a != [] {
      assert Shallow(a[0]) == Shallow(b[0]);
      SameShapeSameAnswer(a[1..], b[1..], fieldName);
    }
  }

  // ----- the Query.posts resolver -----

  /** The object `Query.posts` builds for one post: the post's own fields, plus an
      `author` / `editor` field holding the user loader's result when selected. */
  datatype PostRecord<V> = PostRecord(post: Post, author: Option<V>, editor: Option<V>)

  /** The keys one post asks the user loader for. */
  function PostKeys(post: Post, authorRequested: bool, editorRequested: bool): seq<Id>
  {
    (if authorRequested then [post.authorId] else []) + (if editorRequested then [post.editorId] else [])
  }

  /** The keys the resolver passes to `load`, in call order: one per selected field and post. */
  function LoadKeys(posts: seq<Post>, authorRequested: bool, editorRequested: bool): (keys: seq<Id>)
    ensures |keys| == ((if authorRequested then 1 else 0) + (if editorRequested then 1 else 0)) * |posts|
  {
    if posts == [] then []
    else PostKeys(posts[0], authorRequested, editorRequested) + LoadKeys(posts[1..], authorRequested, editorRequested)
  }

  /** The record built for one post. */
  function RecordOf<V>(post: Post, authorRequested: bool, editorRequested: bool, load: Id -> V): (r: PostRecord<V>)
    ensures r.post == post
    ensures r.author.Some? <==> authorRequested
    ensures r.author.Some? ==> r.author.value == load(post.authorId)
    ensures r.editor.Some? <==> editorRequested
    ensures r.editor.Some? ==> r.editor.value == load(post.editorId)
  {
    PostRecord(post,
      if authorRequested then Some(load(post.authorId)) else None,
      if editorRequested then Some(load(post.editorId)) else None)
  }

  lemma {:induction false} LoadKeysAppend(a: seq<Post>, b: seq<Post>, au: bool, ed: bool)
    ensures LoadKeys(a + b, au, ed) == LoadKeys(a, au, ed) + LoadKeys(b, au, ed)
  {
    if a == [] {
      assert a + b == b;
    } else {
      assert (a + b)[0] == a[0];
      assert (a + b)[1..] == a[1..] + b;
      LoadKeysAppend(a[1..], b, au, ed);
    }
  }

  /** `Query.posts`, with the user loader's `load` as a key-to-value function. Returns the
      records and the keys passed to `load`, in call order; throws before any load when
      `isFieldRequested` throws. */
  method ResolvePosts<V>(posts: seq<Post>, info: Info, load: Id -> V)
    returns (result: Outcome<seq<PostRecord<V>>>, loaded: seq<Id>)
    ensures result.TypeError? <==>
      IsFieldRequested(info, "author").TypeError? || IsFieldRequested(info, "editor").TypeError?
    ensures result.TypeError? ==> loaded == []
    ensures result.Ok? ==>
      var au := IsFieldRequested(info, "author").value;
      var ed := IsFieldRequested(info, "editor").value;
      && |result.value| == |posts|
      && (forall i :: 0 <= i < |posts| ==> result.value[i] == RecordOf(posts[i], au, ed, load))
      && loaded == LoadKeys(posts, au, ed)
  {
    var authorRequested := IsFieldRequested(info, "author");
    if authorRequested.TypeError? {
      return TypeError, [];
    }
    var editorRequested := IsFieldRequested(info, "editor");
    if editorRequested.TypeError? {
      return TypeError, [];
    }
    var au, ed := authorRequested.value, editorRequested.value;
    var records: seq<PostRecord<V>> := [];
    loaded := [];
    var i := 0;
    while i < |posts|
      invariant 0 <= i <= |posts|
      invariant |records| == i
      invariant forall j :: 0 <= j < i ==> records[j] == RecordOf(posts[j], au, ed, load)
      invariant loaded == LoadKeys(posts[..i], au, ed)
    {
      var post := posts[i];
      var author: Option<V> := None;
      var editor: Option<V> := None;
      if au {
        author := Some(load(post.authorId));
        loaded := loaded + [post.authorId];
      }
      if ed {
        editor := Some(load(post.editorId));
        loaded := loaded + [post.editorId];
      }
      records := records + [PostRecord(post, author, editor)];
      LoadKeysAppend(posts[..i], [post], au, ed);
      assert posts[..i + 1] == posts[..i] + [post];
      i := i + 1;
    }
    assert posts[..i] == posts;
    result := Ok(records);
  }

  /** No load is issued when neither field is selected; otherwise every post asks for
      its author (if selected) and then its editor (if selected), in table order. */
  lemma {:induction false} LoadKeysLayout(posts: seq<Post>, au: bool, ed: bool, i: nat)
    requires i < |posts|
    ensures var w := (if au then 1 else 0) + (if ed then 1 else 0);
      && |LoadKeys(posts, au, ed)| == w * |posts|
      && LoadKeys(posts, au, ed)[w * i .. w * i + w] == PostKeys(posts[i], au, ed)
  {
    var w := (if au then 1 else 0) + (if ed then 1 else 0);
    assert posts == posts[..i] + [posts[i]] + posts[i + 1..];
    LoadKeysAppend(posts[..i] + [posts[i]], posts[i + 1..], au, ed);
    LoadKeysAppend(posts[..i], [posts[i]], au, ed);
    assert LoadKeys([posts[i]], au, ed) == PostKeys(posts[i], au, ed);
  }

  /** A key is loaded iff some post has it as author id with `author` selected, or as
      editor id with `editor` selected. */
  lemma {:induction false} LoadKeysMembership(posts: seq<Post>, au: bool, ed: bool, k: Id)
    ensures k in LoadKeys(posts, au, ed) <==>
      exists i :: 0 <= i < |posts| && ((au && posts[i].authorId == k) || (ed && posts[i].editorId == k))
  {
    if posts != [] {
      LoadKeysMembership(posts[1..], au, ed, k);
      assert forall i :: 1 <= i < |posts| ==> posts[i] == posts[1..][i - 1];
      if k in LoadKeys(posts[1..], au, ed) {
        var i :| 0 <= i < |posts[1..]| && ((au && posts[1..][i].authorId == k) || (ed && posts[1..][i].editorId == k));
        assert posts[i + 1] == posts[1..][i];
      }
    }
  }

  /** On the seed posts, a query that selects only `editor` asks the user loader for
      "2", "1", "1": the loader's first batch is then the keys "2", "1". */
  lemma SeedEditorOnlyKeys()
    ensures LoadKeys(SeedPosts, false, true) == ["2", "1", "1"]
  {
    var t1 := SeedPosts[1..];
    assert t1 == [Post("2", "Post 2", "1", "1"), Post("3", "Post 3", "2", "1")];
    assert t1[1..] == [Post("3", "Post 3", "2", "1")];
    assert t1[1..][1..] == [];
    var k := LoadKeys(SeedPosts, false, true);
    assert k == ["2"] + (["1"] + (["1"] + []));
  }

  /** With the corrected user batch function each record's editor is the user whose id
      is the post's `editorId`: post "1" gets Bob, posts "2" and "3" get Alice. */
  lemma SeedEditorsWithCorrectedBatch(load: Id -> Option<User>)
    requires forall k :: load(k) == LoadBatch(Seed, [k])[0]
    ensures forall i :: 0 <= i < |SeedPosts| ==>
      RecordOf(SeedPosts[i], false, true, load).editor == Some(Some(if i == 0 then User("2", "Bob") else User("1", "Alice")))
  {
    LoadBatchSeed();
    LoadBatchConsistent(Seed, ["2", "1"], 0, ["2"], 0);
    LoadBatchConsistent(Seed, ["2", "1"], 1, ["1"], 0);
  }
}
