/** The many-to-many example: users and posts linked through a `userPosts` join table,
    the mock fetches over the three tables, the two batch functions that group join rows
    by the requested key, and the two-hop `Post.authors` / `User.posts` resolvers. */
module ManyToMany {
  import opened JsArray
  import opened Users

  datatype Post = Post(id: Id, title: string)

  /** A row of the join table: user `userId` is linked to post `postId`. */
  datatype UserPost = UserPost(userId: Id, postId: Id)

  const SeedPosts: seq<Post> := [Post("1", "Post 1"), Post("2", "Post 2"), Post("3", "Post 3")]

  const SeedUserPosts: seq<UserPost> :=
    [UserPost("1", "1"), UserPost("1", "2"), UserPost("2", "2"), UserPost("2", "3")]

  // ----- mock fetches (dbMock.posts, dbMock.userPosts) -----

  function PostIdIn(ids: seq<Id>): Post -> bool
  {
    (p: Post) => p.id in ids
  }

  /** `dbMock.posts.getByIds`: the posts whose id is requested, in table order. */
  function PostsGetByIds(posts: seq<Post>, ids: seq<Id>): (r: seq<Post>)
    ensures |r| <= |posts|
    ensures forall i :: 0 <= i < |r| ==> r[i] in posts && r[i].id in ids
    ensures forall p :: p in posts && p.id in ids ==> p in r
  {
    Filter(posts, PostIdIn(ids))
  }

  /** The order and multiplicity of `PostsGetByIds` are those of the table. */
  lemma {:induction false} PostsGetByIdsInTableOrder(a: seq<Post>, b: seq<Post>, ids: seq<Id>, p: Post)
    ensures PostsGetByIds(a + b, ids) == PostsGetByIds(a, ids) + PostsGetByIds(b, ids)
    ensures multiset(PostsGetByIds(a + b, ids))[p] == if p.id in ids then multiset(a + b)[p] else 0
  {
    FilterAppend(a, b, PostIdIn(ids));
    FilterCount(a + b, PostIdIn(ids), p);
  }

  function PostIdOfLinkIn(postIds: seq<Id>): UserPost -> bool
  {
    (up: UserPost) => up.postId in postIds
  }

  function UserIdOfLinkIn(userIds: seq<Id>): UserPost -> bool
  {
    (up: UserPost) => up.userId in userIds
  }

  /** `dbMock.userPosts.getByPostIds`: the join rows whose post is requested. */
  function GetByPostIds(userPosts: seq<UserPost>, postIds: seq<Id>): (r: seq<UserPost>)
    ensures |r| <= |userPosts|
    ensures forall i :: 0 <= i < |r| ==> r[i] in userPosts && r[i].postId in postIds
    ensures forall up :: up in userPosts && up.postId in postIds ==> up in r
  {
    Filter(userPosts, PostIdOfLinkIn(postIds))
  }

  /** `dbMock.userPosts.getByUserIds`: the join rows whose user is requested. */
  function GetByUserIds(userPosts: seq<UserPost>, userIds: seq<Id>): (r: seq<UserPost>)
    ensures |r| <= |userPosts|
    ensures forall i :: 0 <= i < |r| ==> r[i] in userPosts && r[i].userId in userIds
    ensures forall up :: up in userPosts && up.userId in userIds ==> up in r
  {
    Filter(userPosts, UserIdOfLinkIn(userIds))
  }

  /** Both join-row fetches keep the join table's order and every matching row. */
  lemma {:induction false} GetLinksInTableOrder(a: seq<UserPost>, b: seq<UserPost>, ids: seq<Id>, up: UserPost)
    ensures GetByPostIds(a + b, ids) == GetByPostIds(a, ids) + GetByPostIds(b, ids)
    ensures GetByUserIds(a + b, ids) == GetByUserIds(a, ids) + GetByUserIds(b, ids)
    ensures multiset(GetByPostIds(a + b, ids))[up] == if up.postId in ids then multiset(a + b)[up] else 0
    ensures multiset(GetByUserIds(a + b, ids))[up] == if up.userId in ids then multiset(a + b)[up] else 0
  {
    FilterAppend(a, b, PostIdOfLinkIn(ids));
    FilterAppend(a, b, UserIdOfLinkIn(ids));
    FilterCount(a + b, PostIdOfLinkIn(ids), up);
    FilterCount(a + b, UserIdOfLinkIn(ids), up);
  }

  // ----- batch functions of the userPostsByPost / userPostsByUser loaders -----

  function LinkOfPost(postId: Id): UserPost -> bool
  {
    (link: UserPost) => link.postId == postId
  }

  function LinkOfUser(userId: Id): UserPost -> bool
  {
    (link: UserPost) => link.userId == userId
  }

  /** The join rows of one post, in join-table order. */
  function LinksOfPost(userPosts: seq<UserPost>, postId: Id): seq<UserPost>
  {
    Filter(userPosts, LinkOfPost(postId))
  }

  /** The join rows of one user, in join-table order. */
  function LinksOfUser(userPosts: seq<UserPost>, userId: Id): seq<UserPost>
  {
    Filter(userPosts, LinkOfUser(userId))
  }

  /** Grouping the prefetched rows loses nothing: the rows of a requested post among the
      fetched rows are exactly its rows in the whole join table. */
  lemma {:induction false} FetchedGroupsArePostLinks(userPosts: seq<UserPost>, postIds: seq<Id>)
    ensures forall i :: 0 <= i < |postIds| ==>
      Filter(GetByPostIds(userPosts, postIds), LinkOfPost(postIds[i])) == LinksOfPost(userPosts, postIds[i])
  {
    forall i | 0 <= i < |postIds|
      ensures Filter(GetByPostIds(userPosts, postIds), LinkOfPost(postIds[i])) == LinksOfPost(userPosts, postIds[i])
    {
      FilterOfFilter(userPosts, PostIdOfLinkIn(postIds), LinkOfPost(postIds[i]));
    }
  }

  lemma {:induction false} FetchedGroupsAreUserLinks(userPosts: seq<UserPost>, userIds: seq<Id>)
    ensures forall i :: 0 <= i < |userIds| ==>
      Filter(GetByUserIds(userPosts, userIds), LinkOfUser(userIds[i])) == LinksOfUser(userPosts, userIds[i])
  {
    forall i | 0 <= i < |userIds|
      ensures Filter(GetByUserIds(userPosts, userIds), LinkOfUser(userIds[i])) == LinksOfUser(userPosts, userIds[i])
    {
      FilterOfFilter(userPosts, UserIdOfLinkIn(userIds), LinkOfUser(userIds[i]));
    }
  }

  /** Batch function of the `userPostsByPost` loader: one group per requested post id,
      at that id's position, holding the post's join rows from the whole table. */
  function UserPostsByPost(userPosts: seq<UserPost>, postIds: seq<Id>): (groups: seq<seq<UserPost>>)
    ensures |groups| == |postIds|
    ensures forall i :: 0 <= i < |postIds| ==> groups[i] == LinksOfPost(userPosts, postIds[i])
  {
    var links := GetByPostIds(userPosts, postIds);
    FetchedGroupsArePostLinks(userPosts, postIds);
    seq(|postIds|, i requires 0 <= i < |postIds| => Filter(links, LinkOfPost(postIds[i])))
  }

  /** Batch function of the `userPostsByUser` loader: one group per requested user id,
      at that id's position, holding the user's join rows from the whole table. */
  function UserPostsByUser(userPosts: seq<UserPost>, userIds: seq<Id>): (groups: seq<seq<UserPost>>)
    ensures |groups| == |userIds|
    ensures forall i :: 0 <= i < |userIds| ==> groups[i] == LinksOfUser(userPosts, userIds[i])
  {
    var links := GetByUserIds(userPosts, userIds);
    FetchedGroupsAreUserLinks(userPosts, userIds);
    seq(|userIds|, i requires 0 <= i < |userIds| => Filter(links, LinkOfUser(userIds[i])))
  }

  /** A post's group holds exactly its join rows, each as often as the table holds it,
      and is empty (not missing) when the post has no links. */
  lemma {:induction false} LinksOfPostSpec(userPosts: seq<UserPost>, postId: Id, up: UserPost)
    ensures forall i :: 0 <= i < |LinksOfPost(userPosts, postId)| ==> LinksOfPost(userPosts, postId)[i].postId == postId
    ensures multiset(LinksOfPost(userPosts, postId))[up] == if up.postId == postId then multiset(userPosts)[up] else 0
    ensures LinksOfPost(userPosts, postId) == [] <==> forall i :: 0 <= i < |userPosts| ==> userPosts[i].postId != postId
  {
    var p := LinkOfPost(postId);
    var g := Filter(userPosts, p);
    assert g == LinksOfPost(userPosts, postId);
    forall i | 0 <= i < |g|
      ensures g[i].postId == postId
    {
      assert p(g[i]);
    }
    FilterCount(userPosts, p, up);
    assert p(up) <==> up.postId == postId;
    if exists i :: 0 <= i < |userPosts| && userPosts[i].postId == postId {
      var i :| 0 <= i < |userPosts| && userPosts[i].postId == postId;
      assert p(userPosts[i]);
      assert userPosts[i] in g;
    } else {
      forall i | 0 <= i < |userPosts|
        ensures !p(userPosts[i])
      {
      }
      FilterNone(userPosts, p);
    }
  }

  lemma {:induction false} LinksOfUserSpec(userPosts: seq<UserPost>, userId: Id, up: UserPost)
    ensures forall i :: 0 <= i < |LinksOfUser(userPosts, userId)| ==> LinksOfUser(userPosts, userId)[i].userId == userId
    ensures multiset(LinksOfUser(userPosts, userId))[up] == if up.userId == userId then multiset(userPosts)[up] else 0
    ensures LinksOfUser(userPosts, userId) == [] <==> forall i :: 0 <= i < |userPosts| ==> userPosts[i].userId != userId
  {
    var p := LinkOfUser(userId);
    var g := Filter(userPosts, p);
    assert g == LinksOfUser(userPosts, userId);
    forall i | 0 <= i < |g|
      ensures g[i].userId == userId
    {
      assert p(g[i]);
    }
    FilterCount(userPosts, p, up);
    assert p(up) <==> up.userId == userId;
    if exists i :: 0 <= i < |userPosts| && userPosts[i].userId == userId {
      var i :| 0 <= i < |userPosts| && userPosts[i].userId == userId;
      assert p(userPosts[i]);
      assert userPosts[i] in g;
    } else {
      forall i | 0 <= i < |userPosts|
        ensures !p(userPosts[i])
      {
      }
      FilterNone(userPosts, p);
    }
  }

  /** A key's group does not depend on the other keys of its batch: a repeated key gets
      equal groups at both positions, and a load of a post id resolves to the same rows
      however the loader batches it. */
  lemma UserPostsByPostConsistent(userPosts: seq<UserPost>, ks1: seq<Id>, i: nat, ks2: seq<Id>, j: nat)
    requires i < |ks1| && j < |ks2| && ks1[i] == ks2[j]
    ensures UserPostsByPost(userPosts, ks1)[i] == UserPostsByPost(userPosts, ks2)[j]
  {
  }

  lemma UserPostsByUserConsistent(userPosts: seq<UserPost>, ks1: seq<Id>, i: nat, ks2: seq<Id>, j: nat)
    requires i < |ks1| && j < |ks2| && ks1[i] == ks2[j]
    ensures UserPostsByUser(userPosts, ks1)[i] == UserPostsByUser(userPosts, ks2)[j]
  {
  }

  // ----- the two-hop resolvers -----

  /** The user id of each join row, in order. */
  function UserIds(links: seq<UserPost>): seq<Id>
  {
    seq(|links|, i requires 0 <= i < |links| => links[i].userId)
  }

  /** The post id of each join row, in order. */
  function PostIds(links: seq<UserPost>): seq<Id>
  {
    seq(|links|, i requires 0 <= i < |links| => links[i].postId)
  }

  /** `Post.authors`: the user ids handed to `user.loadMany`, given the
      `userPostsByPost` loader as a key-to-value function. */
  function PostAuthorIds(loadLinks: Id -> seq<UserPost>, post: Post): (ids: seq<Id>)
    ensures |ids| == |loadLinks(post.id)|
    ensures forall i :: 0 <= i < |ids| ==> ids[i] == loadLinks(post.id)[i].userId
  {
    UserIds(loadLinks(post.id))
  }

  /** `Post.authors`: the resolved list, one `user` load per id, in id order. */
  function PostAuthors<V>(loadLinks: Id -> seq<UserPost>, loadUser: Id -> V, post: Post): (authors: seq<V>)
    ensures |authors| == |loadLinks(post.id)|
    ensures forall i :: 0 <= i < |authors| ==> authors[i] == loadUser(loadLinks(post.id)[i].userId)
  {
    var ids := PostAuthorIds(loadLinks, post);
    seq(|ids|, i requires 0 <= i < |ids| => loadUser(ids[i]))
  }

  /** `User.posts`: the post ids handed to `post.loadMany`. */
  function UserPostIds(loadLinks: Id -> seq<UserPost>, user: User): (ids: seq<Id>)
    ensures |ids| == |loadLinks(user.id)|
    ensures forall i :: 0 <= i < |ids| ==> ids[i] == loadLinks(user.id)[i].postId
  {
    PostIds(loadLinks(user.id))
  }

  /** `User.posts`: the resolved list, one `post` load per id, in id order. */
  function UserPostsOf<V>(loadLinks: Id -> seq<UserPost>, loadPost: Id -> V, user: User): (posts: seq<V>)
    ensures |posts| == |loadLinks(user.id)|
    ensures forall i :: 0 <= i < |posts| ==> posts[i] == loadPost(loadLinks(user.id)[i].postId)
  {
    var ids := UserPostIds(loadLinks, user);
    seq(|ids|, i requires 0 <= i < |ids| => loadPost(ids[i]))
  }

  lemma UserIdsAppend(a: seq<UserPost>, b: seq<UserPost>)
    ensures UserIds(a + b) == UserIds(a) + UserIds(b)
    ensures PostIds(a + b) == PostIds(a) + PostIds(b)
  {
  }

  /** Peeling the first join row off the table peels it off every group. */
  lemma LinksUnfold(userPosts: seq<UserPost>, id: Id)
    requires userPosts != []
    ensures LinksOfPost(userPosts, id)
      == (if userPosts[0].postId == id then [userPosts[0]] else []) + LinksOfPost(userPosts[1..], id)
    ensures LinksOfUser(userPosts, id)
      == (if userPosts[0].userId == id then [userPosts[0]] else []) + LinksOfUser(userPosts[1..], id)
  {
  }

  lemma {:induction false} UserIdsCount(userPosts: seq<UserPost>, postId: Id, u: Id)
    ensures multiset(UserIds(LinksOfPost(userPosts, postId)))[u] == multiset(userPosts)[UserPost(u, postId)]
  {
    if userPosts != [] {
      var head, rest := userPosts[0], userPosts[1..];
      var h := if head.postId == postId then [head] else [];
      UserIdsCount(rest, postId, u);
      LinksUnfold(userPosts, postId);
      UserIdsAppend(h, LinksOfPost(rest, postId));
      assert multiset(userPosts) == multiset([head]) + multiset(rest) by {
        assert userPosts == [head] + rest;
      }
      assert multiset(UserIds(h))[u] == multiset([head])[UserPost(u, postId)];
    }
  }

  lemma {:induction false} PostIdsCount(userPosts: seq<UserPost>, userId: Id, p: Id)
    ensures multiset(PostIds(LinksOfUser(userPosts, userId)))[p] == multiset(userPosts)[UserPost(userId, p)]
  {
    if userPosts != [] {
      var head, rest := userPosts[0], userPosts[1..];
      var h := if head.userId == userId then [head] else [];
      PostIdsCount(rest, userId, p);
      LinksUnfold(userPosts, userId);
      UserIdsAppend(h, LinksOfUser(rest, userId));
      assert multiset(userPosts) == multiset([head]) + multiset(rest) by {
        assert userPosts == [head] + rest;
      }
      assert multiset(PostIds(h))[p] == multiset([head])[UserPost(userId, p)];
    }
  }

  /** When the `userPostsByPost` loader answers a post id with that post's group,
      `Post.authors` loads the linked user of every join row of the post, once per link,
      in join-table order, and resolves to those users in that order. */
  lemma {:induction false} PostAuthorsFromJoinTable<V>(
    userPosts: seq<UserPost>, loadLinks: Id -> seq<UserPost>, loadUser: Id -> V, post: Post, u: Id)
    requires loadLinks(post.id) == UserPostsByPost(userPosts, [post.id])[0]
    ensures var links := LinksOfPost(userPosts, post.id);
      && |PostAuthorIds(loadLinks, post)| == |links|
      && (forall i :: 0 <= i < |links| ==> PostAuthorIds(loadLinks, post)[i] == links[i].userId)
      && |PostAuthors(loadLinks, loadUser, post)| == |links|
      && (forall i :: 0 <= i < |links| ==> PostAuthors(loadLinks, loadUser, post)[i] == loadUser(links[i].userId))
    ensures multiset(PostAuthorIds(loadLinks, post))[u] == multiset(userPosts)[UserPost(u, post.id)]
  {
    UserIdsCount(userPosts, post.id, u);
  }

  /** `User.posts` loads the linked post of every join row of the user, once per link,
      in join-table order, and resolves to those posts in that order. */
  lemma {:induction false} UserPostsFromJoinTable<V>(
    userPosts: seq<UserPost>, loadLinks: Id -> seq<UserPost>, loadPost: Id -> V, user: User, p: Id)
    requires loadLinks(user.id) == UserPostsByUser(userPosts, [user.id])[0]
    ensures var links := LinksOfUser(userPosts, user.id);
      && |UserPostIds(loadLinks, user)| == |links|
      && (forall i :: 0 <= i < |links| ==> UserPostIds(loadLinks, user)[i] == links[i].postId)
      && |UserPostsOf(loadLinks, loadPost, user)| == |links|
      && (forall i :: 0 <= i < |links| ==> UserPostsOf(loadLinks, loadPost, user)[i] == loadPost(links[i].postId))
    ensures multiset(UserPostIds(loadLinks, user))[p] == multiset(userPosts)[UserPost(user.id, p)]
  {
    PostIdsCount(userPosts, user.id, p);
  }

  // The join rows of the posts and users of the seed tables, peeling one join row
  // off the table at each step.
  lemma SeedLinksOfPost2()
    ensures LinksOfPost(SeedUserPosts, "2") == [UserPost("1", "2"), UserPost("2", "2")]
  {
    var t0 := SeedUserPosts;
    var t1 := [UserPost("1", "2"), UserPost("2", "2"), UserPost("2", "3")];
    var t2 := [UserPost("2", "2"), UserPost("2", "3")];
    var t3 := [UserPost("2", "3")];
    assert t0[1..] == t1 && t1[1..] == t2 && t2[1..] == t3 && t3[1..] == [];
    assert LinksOfPost(t3, "2") == [] by { LinksUnfold(t3, "2"); }
    assert LinksOfPost(t2, "2") == [UserPost("2", "2")] by { LinksUnfold(t2, "2"); }
    assert LinksOfPost(t1, "2") == [UserPost("1", "2"), UserPost("2", "2")] by { LinksUnfold(t1, "2"); }
    assert LinksOfPost(t0, "2") == [UserPost("1", "2"), UserPost("2", "2")] by { LinksUnfold(t0, "2"); }
  }

  lemma SeedLinksOfPost3()
    ensures LinksOfPost(SeedUserPosts, "3") == [UserPost("2", "3")]
  {
    var t0 := SeedUserPosts;
    var t1 := [UserPost("1", "2"), UserPost("2", "2"), UserPost("2", "3")];
    var t2 := [UserPost("2", "2"), UserPost("2", "3")];
    var t3 := [UserPost("2", "3")];
    assert t0[1..] == t1 && t1[1..] == t2 && t2[1..] == t3 && t3[1..] == [];
    assert LinksOfPost(t3, "3") == [UserPost("2", "3")] by { LinksUnfold(t3, "3"); }
    assert LinksOfPost(t2, "3") == [UserPost("2", "3")] by { LinksUnfold(t2, "3"); }
    assert LinksOfPost(t1, "3") == [UserPost("2", "3")] by { LinksUnfold(t1, "3"); }
    assert LinksOfPost(t0, "3") == [UserPost("2", "3")] by { LinksUnfold(t0, "3"); }
  }

  lemma SeedLinksOfUser1()
    ensures LinksOfUser(SeedUserPosts, "1") == [UserPost("1", "1"), UserPost("1", "2")]
  {
    var t0 := SeedUserPosts;
    var t1 := [UserPost("1", "2"), UserPost("2", "2"), UserPost("2", "3")];
    var t2 := [UserPost("2", "2"), UserPost("2", "3")];
    var t3 := [UserPost("2", "3")];
    assert t0[1..] == t1 && t1[1..] == t2 && t2[1..] == t3 && t3[1..] == [];
    assert LinksOfUser(t3, "1") == [] by { LinksUnfold(t3, "1"); }
    assert LinksOfUser(t2, "1") == [] by { LinksUnfold(t2, "1"); }
    assert LinksOfUser(t1, "1") == [UserPost("1", "2")] by { LinksUnfold(t1, "1"); }
    assert LinksOfUser(t0, "1") == [UserPost("1", "1"), UserPost("1", "2")] by { LinksUnfold(t0, "1"); }
  }

  lemma SeedLinksOfUser2()
    ensures LinksOfUser(SeedUserPosts, "2") == [UserPost("2", "2"), UserPost("2", "3")]
  {
    var t0 := SeedUserPosts;
    var t1 := [UserPost("1", "2"), UserPost("2", "2"), UserPost("2", "3")];
    var t2 := [UserPost("2", "2"), UserPost("2", "3")];
    var t3 := [UserPost("2", "3")];
    assert t0[1..] == t1 && t1[1..] == t2 && t2[1..] == t3 && t3[1..] == [];
    assert LinksOfUser(t3, "2") == [UserPost("2", "3")] by { LinksUnfold(t3, "2"); }
    assert LinksOfUser(t2, "2") == [UserPost("2", "2"), UserPost("2", "3")] by { LinksUnfold(t2, "2"); }
    assert LinksOfUser(t1, "2") == [UserPost("2", "2"), UserPost("2", "3")] by { LinksUnfold(t1, "2"); }
    assert LinksOfUser(t0, "2") == [UserPost("2", "2"), UserPost("2", "3")] by { LinksUnfold(t0, "2"); }
  }

  lemma PairDisplay(a: seq<Id>, x: Id, y: Id)
    requires |a| == 2 && a[0] == x && a[1] == y
    ensures a == [x, y]
  {
  }

  /** On the seed tables, with the `userPostsByPost` loader answering each key as its
      batch function does: post "2" has authors "1" and "2". */
  lemma SeedAuthorsOfPost2(byPost: Id -> seq<UserPost>)
    requires byPost("2") == UserPostsByPost(SeedUserPosts, ["2"])[0]
    ensures PostAuthorIds(byPost, SeedPosts[1]) == ["1", "2"]
  {
    assert SeedPosts[1].id == "2";
    SeedLinksOfPost2();
    var a := PostAuthorIds(byPost, SeedPosts[1]);
    assert |a| == 2 && a[0] == "1" && a[1] == "2";
    PairDisplay(a, "1", "2");
  }

  /** Post "3" has the single author "2". */
  lemma SeedAuthorsOfPost3(byPost: Id -> seq<UserPost>)
    requires byPost("3") == UserPostsByPost(SeedUserPosts, ["3"])[0]
    ensures PostAuthorIds(byPost, SeedPosts[2]) == ["2"]
  {
    assert SeedPosts[2].id == "3";
    SeedLinksOfPost3();
    var a := PostAuthorIds(byPost, SeedPosts[2]);
    assert |a| == 1 && a[0] == "2";
  }

  /** With the `userPostsByUser` loader answering each key as its batch function does:
      user "1" has posts "1" and "2", user "2" posts "2" and "3". */
  lemma SeedUserPostIds(byUser: Id -> seq<UserPost>)
    requires byUser("1") == UserPostsByUser(SeedUserPosts, ["1"])[0]
    requires byUser("2") == UserPostsByUser(SeedUserPosts, ["2"])[0]
    ensures UserPostIds(byUser, Seed[0]) == ["1", "2"]
    ensures UserPostIds(byUser, Seed[1]) == ["2", "3"]
  {
    assert Seed[0].id == "1" && Seed[1].id == "2";
    assert UserPostIds(byUser, Seed[0]) == ["1", "2"] by {
      SeedLinksOfUser1();
      var a := UserPostIds(byUser, Seed[0]);
      assert |a| == 2 && a[0] == "1" && a[1] == "2";
      PairDisplay(a, "1", "2");
    }
    assert UserPostIds(byUser, Seed[1]) == ["2", "3"] by {
      SeedLinksOfUser2();
      var a := UserPostIds(byUser, Seed[1]);
      assert |a| == 2 && a[0] == "2" && a[1] == "3";
      PairDisplay(a, "2", "3");
    }
  }
}
