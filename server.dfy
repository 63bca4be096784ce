/**
 * The forum's API service (server.js): how the five `/api/posts` handlers
 * normalise their inputs, and what each one does to the `board_posts` and
 * `post_views` tables. Each handler is one atomic step on a `Store`; the
 * connection pool, the transactions and the SQL engine are not modelled,
 * and a failing store is the `storeFails` argument (status 500, nothing
 * changed).
 */
module Server {
  import opened JsText

  const StatusOk := 200
  const StatusBadRequest := 400
  const StatusNotFound := 404
  const StatusServerError := 500

  const DefaultPage := 1
  const DefaultPageSize := 10

  // ---------------------------------------------------------------------
  // Rows
  // ---------------------------------------------------------------------

  /** A `board_posts` row (the store-assigned timestamps are not modelled). */
  datatype Post = Post(id: int, boardType: string, title: string, author: string,
                       content: string, viewCount: int)

  /** A `post_views` row: which post was viewed, and from which address. */
  datatype ViewLog = ViewLog(postId: int, viewerIp: Option<string>)

  /** The detail row: the post joined with its board's display name. */
  datatype PostDetail = PostDetail(post: Post, boardName: Option<string>)

  datatype Pagination = Pagination(totalCount: nat, totalPages: int, currentPage: int)

  /** The body of a successful list response. */
  datatype ListPage = ListPage(rows: seq<Post>, pagination: Pagination)

  /** Query string of `GET /api/posts`; None is a parameter that is absent. */
  datatype ListQuery = ListQuery(board: Option<string>, page: Option<string>,
                                 pageSize: Option<string>, keyword: Option<string>)

  /** The normalised list parameters. */
  datatype ListParams = ListParams(board: string, page: int, pageSize: int, keyword: string)

  /** JSON body of `POST` and `PUT /api/posts`; None is a missing member. */
  datatype PostBody = PostBody(boardType: Option<string>, title: Option<string>,
                               author: Option<string>, content: Option<string>)

  predicate IsBoardCode(b: string) {
    b == "free" || b == "notice"
  }

  // ---------------------------------------------------------------------
  // Parameter normalisation
  // ---------------------------------------------------------------------

  /** The board of a list query or of a new post: "notice" only for that
      exact literal, "free" for anything else, absent included. */
  function NormalizeBoard(raw: Option<string>): (b: string)
    ensures IsBoardCode(b)
    ensures b == "notice" <==> raw == Some("notice")
    ensures b == "free" <==> raw != Some("notice")
  {
    if raw == Some("notice") then "notice" else "free"
  }

  /** `parseInt(v, 10)` of a query value; an absent value is `undefined`,
      whose string form has no digits. */
  function QueryInt(raw: Option<string>): Option<int> {
    ParseInt(if raw.None? then "undefined" else raw.value)
  }

  /** `page` and `pageSize`: the parsed value when it is an integer of at
      least 1, the default otherwise. */
  function PositiveParam(raw: Option<string>, default: int): (n: int)
    requires default >= 1
    ensures n >= 1
    ensures n == default || QueryInt(raw) == Some(n)
    ensures QueryInt(raw).Some? && QueryInt(raw).value >= 1 ==> n == QueryInt(raw).value
  {
    var parsed := QueryInt(raw);
    if parsed.Some? && parsed.value >= 1 then parsed.value else default
  }

  /** `(keyword || "").trim()`. */
  function NormalizeKeyword(raw: Option<string>): string {
    Trim(if raw.None? then "" else raw.value)
  }

  function NormalizeListQuery(q: ListQuery): (p: ListParams)
    ensures IsBoardCode(p.board) && p.page >= 1 && p.pageSize >= 1
  {
    ListParams(NormalizeBoard(q.board), PositiveParam(q.page, DefaultPage),
               PositiveParam(q.pageSize, DefaultPageSize), NormalizeKeyword(q.keyword))
  }

  /** Rows on the pages before `page`. */
  function Offset(page: int, pageSize: int): (r: int)
    requires page >= 1 && pageSize >= 1
    ensures r >= 0
  {
    (page - 1) * pageSize
  }

  /** `Math.max(1, Math.ceil(count / pageSize))`: the fewest pages of
      `pageSize` rows that hold `count` rows, and never fewer than one. */
  function TotalPages(count: nat, pageSize: int): (r: int)
    requires pageSize >= 1
    ensures r >= 1
    ensures r * pageSize >= count
    ensures count > 0 ==> (r - 1) * pageSize < count
    ensures count == 0 ==> r == 1
  {
    if count == 0 then 1
    else
      var q := (count + pageSize - 1) / pageSize;
      assert q * pageSize + (count + pageSize - 1) % pageSize == count + pageSize - 1;
      q
  }

  /** A page past the last one starts beyond every row. */
  lemma PastLastPageOffset(count: nat, page: int, pageSize: int)
    requires pageSize >= 1 && page > TotalPages(count, pageSize)
    ensures Offset(page, pageSize) >= count
  {
    var t := TotalPages(count, pageSize);
    MulMonotone(t, page - 1, pageSize);
  }

  lemma MulMonotone(a: int, b: int, c: int)
    requires a <= b && c >= 0
    ensures a * c <= b * c
  {
    assert b * c - a * c == (b - a) * c;
  }

  // ---------------------------------------------------------------------
  // The list query
  // ---------------------------------------------------------------------

  /** `WHERE board_type = ?` and, for a non-empty keyword only,
      `AND title LIKE %keyword%`. */
  predicate Matches(p: Post, board: string, keyword: string) {
    p.boardType == board && (keyword != "" ==> Contains(p.title, keyword))
  }

  function MatchingIds(posts: map<int, Post>, board: string, keyword: string): set<int> {
    set id | id in posts && Matches(posts[id], board, keyword)
  }

  lemma {:induction false} MaxExists(s: set<int>)
    requires s != {}
    ensures exists m :: m in s && forall x :: x in s ==> x <= m
    decreases |s|
  {
    // Settles that s has an element before the `:|` below picks one.
    if forall x :: x !in s {
      assert false;
    }
    var y :| y in s;
    var rest := s - {y};
    if forall x :: x !in rest {
      forall x | x in s ensures x <= y {
        assert x !in rest;
      }
    } else {
      MaxExists(rest);
      var m :| m in rest && forall x :: x in rest ==> x <= m;
      var big := if y > m then y else m;
      forall x | x in s ensures x <= big {
        if x != y { assert x in rest; }
      }
      assert big in s;
    }
  }

  function MaxOf(s: set<int>): (m: int)
    requires s != {}
    ensures m in s && forall x :: x in s ==> x <= m
  {
    MaxExists(s);
    var m :| m in s && forall x :: x in s ==> x <= m;
    m
  }

  /** `ORDER BY id DESC`: the elements of `s`, largest first. */
  function SortedDesc(s: set<int>): seq<int>
    decreases |s|
  {
    if s == {} then [] else var m := MaxOf(s); [m] + SortedDesc(s - {m})
  }

  /** The sorted sequence holds exactly the elements of the set, each once. */
  lemma {:induction false} SortedDescMembers(s: set<int>)
    decreases |s|
    ensures |SortedDesc(s)| == |s|
    ensures forall i :: 0 <= i < |SortedDesc(s)| ==> SortedDesc(s)[i] in s
    ensures forall x :: x in s ==> x in SortedDesc(s)
  {
    if s != {} {
      var m := MaxOf(s);
      SortedDescMembers(s - {m});
      var rest := SortedDesc(s - {m});
      assert SortedDesc(s) == [m] + rest;
      forall x | x in s ensures x in SortedDesc(s) {
        if x != m {
          assert x in s - {m};
        }
      }
    }
  }

  /** The sorted sequence is strictly decreasing. */
  lemma {:induction false} SortedDescDecreasing(s: set<int>)
    decreases |s|
    ensures forall i, j :: 0 <= i < j < |SortedDesc(s)| ==> SortedDesc(s)[i] > SortedDesc(s)[j]
  {
    if s != {} {
      var m := MaxOf(s);
      var rest := SortedDesc(s - {m});
      SortedDescMembers(s - {m});
      SortedDescDecreasing(s - {m});
      var r := SortedDesc(s);
      assert r == [m] + rest;
      forall i, j | 0 <= i < j < |r| ensures r[i] > r[j] {
        assert r[j] == rest[j - 1];
        assert rest[j - 1] in s - {m};
        if i > 0 {
          assert r[i] == rest[i - 1];
        }
      }
    }
  }

  /** Every post of the board that matches the keyword, by id descending. */
  function FilteredRows(posts: map<int, Post>, board: string, keyword: string): (rows: seq<Post>)
    ensures |rows| == |MatchingIds(posts, board, keyword)|
  {
    var ids := SortedDesc(MatchingIds(posts, board, keyword));
    SortedDescMembers(MatchingIds(posts, board, keyword));
    seq(|ids|, i requires 0 <= i < |ids| => posts[ids[i]])
  }

  /** `LIMIT offset, count`: the rows from position `offset` on, at most
      `count` of them. */
  function Window<T>(rows: seq<T>, offset: int, count: int): (r: seq<T>)
    requires offset >= 0 && count >= 0
    ensures |r| <= count
    ensures |r| == if offset >= |rows| then 0
                   else if offset + count <= |rows| then count else |rows| - offset
    ensures forall i :: 0 <= i < |r| ==> r[i] == rows[offset + i]
  {
    var lo := if offset < |rows| then offset else |rows|;
    var hi := if offset + count < |rows| then offset + count else |rows|;
    rows[lo..hi]
  }

  /** The list response for normalised parameters: the count of matching
      posts, the page count, the echoed page, and that page's rows. */
  function ListPageOf(posts: map<int, Post>, p: ListParams): ListPage
    requires p.page >= 1 && p.pageSize >= 1
  {
    var all := FilteredRows(posts, p.board, p.keyword);
    ListPage(Window(all, Offset(p.page, p.pageSize), p.pageSize),
             Pagination(|all|, TotalPages(|all|, p.pageSize), p.page))
  }

  /** Every post is stored under its own id. */
  predicate KeyedById(posts: map<int, Post>) {
    forall id :: id in posts ==> posts[id].id == id
  }

  /** What `GET /api/posts` promises about one page of results. */
  lemma ListPageProperties(posts: map<int, Post>, p: ListParams)
    requires KeyedById(posts) && p.page >= 1 && p.pageSize >= 1
    ensures var r := ListPageOf(posts, p).rows;
      && |r| <= p.pageSize
      && (forall i :: 0 <= i < |r| ==> r[i].boardType == p.board)
      && (forall i :: 0 <= i < |r| ==> p.keyword != "" ==> Contains(r[i].title, p.keyword))
      && (forall i :: 0 <= i < |r| ==> r[i].id in posts && posts[r[i].id] == r[i])
      && (forall i, j :: 0 <= i < j < |r| ==> r[i].id > r[j].id)
  {
    FilteredRowsSorted(posts, p.board, p.keyword);
  }

  /** All the matching rows, as stored, strictly decreasing by id. */
  lemma FilteredRowsSorted(posts: map<int, Post>, board: string, keyword: string)
    requires KeyedById(posts)
    ensures var all := FilteredRows(posts, board, keyword);
      && (forall i :: 0 <= i < |all| ==>
            all[i].id in posts && posts[all[i].id] == all[i] && Matches(all[i], board, keyword))
      && (forall i, j :: 0 <= i < j < |all| ==> all[i].id > all[j].id)
  {
    var ids := SortedDesc(MatchingIds(posts, board, keyword));
    SortedDescMembers(MatchingIds(posts, board, keyword));
    SortedDescDecreasing(MatchingIds(posts, board, keyword));
    var all := FilteredRows(posts, board, keyword);
    assert forall i :: 0 <= i < |all| ==> all[i] == posts[ids[i]] && all[i].id == ids[i];
  }

  /** Every matching post is in the filtered rows, so the pages together
      show all of them. */
  lemma FilteredRowsComplete(posts: map<int, Post>, board: string, keyword: string, id: int)
    requires id in posts && Matches(posts[id], board, keyword)
    ensures posts[id] in FilteredRows(posts, board, keyword)
  {
    var ids := SortedDesc(MatchingIds(posts, board, keyword));
    SortedDescMembers(MatchingIds(posts, board, keyword));
    assert id in MatchingIds(posts, board, keyword);
    var i :| 0 <= i < |ids| && ids[i] == id;
    assert FilteredRows(posts, board, keyword)[i] == posts[id];
  }

  /** The response echoes a page past the last one, and its slice is empty. */
  lemma PastLastPageIsEmpty(posts: map<int, Post>, p: ListParams)
    requires p.page >= 1 && p.pageSize >= 1
    requires p.page > ListPageOf(posts, p).pagination.totalPages
    ensures ListPageOf(posts, p).rows == []
    ensures ListPageOf(posts, p).pagination.currentPage == p.page
  {
    var all := FilteredRows(posts, p.board, p.keyword);
    PastLastPageOffset(|all|, p.page, p.pageSize);
  }

  // ---------------------------------------------------------------------
  // Body checks and the view log
  // ---------------------------------------------------------------------

  /** A present, non-empty string: the JavaScript truthiness the handlers
      test with `!title || !author || !content`. */
  predicate Truthy(v: Option<string>) {
    v.Some? && v.value != ""
  }

  predicate HasRequiredFields(b: PostBody) {
    Truthy(b.title) && Truthy(b.author) && Truthy(b.content)
  }

  /** `req.ip || null`. */
  function ViewerIp(ip: Option<string>): (r: Option<string>)
    ensures r.Some? <==> Truthy(ip)
    ensures r.Some? ==> r == ip
  {
    if Truthy(ip) then ip else None
  }

  /** The log entries of one post, in order. */
  function LogsOf(views: seq<ViewLog>, id: int): seq<ViewLog> {
    if views == [] then []
    else (if views[0].postId == id then [views[0]] else []) + LogsOf(views[1..], id)
  }

  /** `DELETE FROM post_views WHERE post_id = ?`. */
  function RemoveLogsOf(views: seq<ViewLog>, id: int): (r: seq<ViewLog>)
    ensures |r| <= |views|
  {
    if views == [] then []
    else (if views[0].postId != id then [views[0]] else []) + RemoveLogsOf(views[1..], id)
  }

  lemma {:induction false} LogsOfAppend(a: seq<ViewLog>, b: seq<ViewLog>, id: int)
    ensures LogsOf(a + b, id) == LogsOf(a, id) + LogsOf(b, id)
  {
    if a == [] {
      assert a + b == b;
    } else {
      assert (a + b)[0] == a[0];
      assert (a + b)[1..] == a[1..] + b;
      LogsOfAppend(a[1..], b, id);
    }
  }

  /** Removing a post's log entries leaves none of its own and every other
      post's entries as they were. */
  lemma {:induction false} LogsOfRemoveLogsOf(views: seq<ViewLog>, id: int, q: int)
    ensures LogsOf(RemoveLogsOf(views, id), q) == if q == id then [] else LogsOf(views, q)
  {
    if views != [] {
      var head := if views[0].postId != id then [views[0]] else [];
      LogsOfAppend(head, RemoveLogsOf(views[1..], id), q);
      LogsOfRemoveLogsOf(views[1..], id, q);
    }
  }

  /** Removal keeps exactly the entries of other posts. */
  lemma {:induction false} RemoveLogsOfMembers(views: seq<ViewLog>, id: int)
    ensures forall v :: v in RemoveLogsOf(views, id) <==> v in views && v.postId != id
  {
    if views != [] {
      RemoveLogsOfMembers(views[1..], id);
      assert views == [views[0]] + views[1..];
    }
  }

  /** A view never lowers a view count. */
  predicate ViewCountsKept(before: map<int, Post>, after: map<int, Post>) {
    forall id :: id in before && id in after ==> before[id].viewCount <= after[id].viewCount
  }

  /** The `boards` rows the `board_type` foreign key needs. */
  predicate HasBoardCodes(boards: map<string, string>) {
    "free" in boards && "notice" in boards
  }

  predicate RowOk(p: Post, id: int, nextId: int) {
    p.id == id && 1 <= id < nextId && IsBoardCode(p.boardType) && p.viewCount >= 0
  }

  // ---------------------------------------------------------------------
  // The tables and the five handlers
  // ---------------------------------------------------------------------

  class Store {
    /** `board_posts`, by id. */
    var posts: map<int, Post>
    /** `post_views`, in insertion order. */
    var views: seq<ViewLog>
    /** The `AUTO_INCREMENT` counter of `board_posts`. */
    var nextId: int
    /** `boards`: code to display name; the API never changes it. */
    const boards: map<string, string>

    /** Rows are stored under their ids, below the counter, with a board
        code and a non-negative view count; `board_type` is a foreign key
        into `boards`, which holds both codes. */
    ghost predicate Valid()
      reads this
    {
      && HasBoardCodes(boards)
      && nextId >= 1
      && (forall id :: id in posts ==> RowOk(posts[id], id, nextId))
      && (forall id :: id in posts ==> posts[id].boardType in boards)
    }

    constructor (boards: map<string, string>)
      requires HasBoardCodes(boards)
      ensures Valid()
      ensures posts == map[] && views == [] && nextId == 1 && this.boards == boards
    {
      this.boards := boards;
      posts := map[];
      views := [];
      nextId := 1;
    }

    /** `LEFT JOIN boards b ON p.board_type = b.code`. */
    function BoardName(p: Post): (name: Option<string>)
      ensures name.Some? <==> p.boardType in boards
      ensures name.Some? ==> name.value == boards[p.boardType]
    {
      if p.boardType in boards then Some(boards[p.boardType]) else None
    }

    /** `GET /api/posts`: one page of a board's posts, newest first. */
    method List(q: ListQuery, storeFails: bool) returns (status: int, page: Option<ListPage>)
      requires Valid()
      ensures storeFails ==> status == StatusServerError && page == None
      ensures !storeFails ==> status == StatusOk && page == Some(ListPageOf(posts, NormalizeListQuery(q)))
      ensures !storeFails ==>
        var p := NormalizeListQuery(q);
        var r := page.value.rows;
        && |r| <= p.pageSize
        && page.value.pagination.currentPage == p.page
        && page.value.pagination.totalCount == |MatchingIds(posts, p.board, p.keyword)|
        && (forall i :: 0 <= i < |r| ==> r[i].id in posts && posts[r[i].id] == r[i])
        && (forall i :: 0 <= i < |r| ==> Matches(r[i], p.board, p.keyword))
        && (forall i, j :: 0 <= i < j < |r| ==> r[i].id > r[j].id)
    {
      if storeFails {
        return StatusServerError, None;
      }
      var p := NormalizeListQuery(q);
      assert KeyedById(posts);
      ListPageProperties(posts, p);
      status, page := StatusOk, Some(ListPageOf(posts, p));
    }

    /** `GET /api/posts/:id`: count the view, log it, then read the row. */
    method Detail(idParam: string, ip: Option<string>, storeFails: bool)
      returns (status: int, detail: Option<PostDetail>)
      requires Valid()
      modifies this
      ensures Valid() && ViewCountsKept(old(posts), posts)
      ensures ParseInt(idParam).None? ==> status == StatusBadRequest && detail == None && unchanged(this)
      ensures ParseInt(idParam).Some? && storeFails ==>
        status == StatusServerError && detail == None && unchanged(this)
      ensures ParseInt(idParam).Some? && !storeFails ==>
        var id := ParseInt(idParam).value;
        && nextId == old(nextId)
        && views == old(views) + [ViewLog(id, ViewerIp(ip))]
        && (id in old(posts) ==>
              && posts == old(posts)[id := old(posts)[id].(viewCount := old(posts)[id].viewCount + 1)]
              && status == StatusOk
              && detail == Some(PostDetail(posts[id], BoardName(posts[id])))
              && detail.value.boardName == Some(boards[posts[id].boardType]))
        && (id !in old(posts) ==> posts == old(posts) && status == StatusNotFound && detail == None)
    {
      var parsed := ParseInt(idParam);
      if parsed.None? {
        return StatusBadRequest, None;
      }
      if storeFails {
        return StatusServerError, None;
      }
      var id := parsed.value;
      if id in posts {
        posts := posts[id := posts[id].(viewCount := posts[id].viewCount + 1)];
      }
      views := views + [ViewLog(id, ViewerIp(ip))];
      if id in posts {
        status, detail := StatusOk, Some(PostDetail(posts[id], BoardName(posts[id])));
      } else {
        status, detail := StatusNotFound, None;
      }
    }

    /** `POST /api/posts`: insert a post with a fresh id and no views. */
    method Create(body: PostBody, storeFails: bool) returns (status: int, newId: Option<int>)
      requires Valid()
      modifies this
      ensures Valid() && ViewCountsKept(old(posts), posts)
      ensures !HasRequiredFields(body) ==> status == StatusBadRequest && newId == None && unchanged(this)
      ensures HasRequiredFields(body) && storeFails ==>
        status == StatusServerError && newId == None && unchanged(this)
      ensures HasRequiredFields(body) && !storeFails ==>
        && status == StatusOk
        && newId == Some(old(nextId))
        && old(nextId) !in old(posts)
        && posts == old(posts)[old(nextId) := Post(old(nextId), NormalizeBoard(body.boardType),
                                                   body.title.value, body.author.value,
                                                   body.content.value, 0)]
        && views == old(views)
        && nextId == old(nextId) + 1
    {
      if !HasRequiredFields(body) {
        return StatusBadRequest, None;
      }
      if storeFails {
        return StatusServerError, None;
      }
      var id := nextId;
      posts := posts[id := Post(id, NormalizeBoard(body.boardType), body.title.value,
                                body.author.value, body.content.value, 0)];
      nextId := nextId + 1;
      status, newId := StatusOk, Some(id);
    }

    /** `PUT /api/posts/:id`: replace title, author and content. */
    method Update(idParam: string, body: PostBody, storeFails: bool) returns (status: int)
      requires Valid()
      modifies this
      ensures Valid() && ViewCountsKept(old(posts), posts)
      ensures ParseInt(idParam).None? ==> status == StatusBadRequest && unchanged(this)
      ensures ParseInt(idParam).Some? && !HasRequiredFields(body) ==>
        status == StatusBadRequest && unchanged(this)
      ensures ParseInt(idParam).Some? && HasRequiredFields(body) && storeFails ==>
        status == StatusServerError && unchanged(this)
      ensures ParseInt(idParam).Some? && HasRequiredFields(body) && !storeFails ==>
        var id := ParseInt(idParam).value;
        && views == old(views) && nextId == old(nextId)
        && (id in old(posts) ==>
              && status == StatusOk
              && posts == old(posts)[id := old(posts)[id].(title := body.title.value,
                                                           author := body.author.value,
                                                           content := body.content.value)])
        && (id !in old(posts) ==> status == StatusNotFound && posts == old(posts))
    {
      var parsed := ParseInt(idParam);
      if parsed.None? || !HasRequiredFields(body) {
        return StatusBadRequest;
      }
      if storeFails {
        return StatusServerError;
      }
      var id := parsed.value;
      if id in posts {
        posts := posts[id := posts[id].(title := body.title.value, author := body.author.value,
                                        content := body.content.value)];
        status := StatusOk;
      } else {
        status := StatusNotFound;
      }
    }

    /** `DELETE /api/posts/:id`: drop the post's log entries, then the post. */
    method Delete(idParam: string, storeFails: bool) returns (status: int)
      requires Valid()
      modifies this
      ensures Valid() && ViewCountsKept(old(posts), posts)
      ensures ParseInt(idParam).None? ==> status == StatusBadRequest && unchanged(this)
      ensures ParseInt(idParam).Some? && storeFails ==> status == StatusServerError && unchanged(this)
      ensures ParseInt(idParam).Some? && !storeFails ==>
        var id := ParseInt(idParam).value;
        && views == RemoveLogsOf(old(views), id)
        && posts == old(posts) - {id}
        && nextId == old(nextId)
        && status == (if id in old(posts) then StatusOk else StatusNotFound)
    {
      var parsed := ParseInt(idParam);
      if parsed.None? {
        return StatusBadRequest;
      }
      if storeFails {
        return StatusServerError;
      }
      var id := parsed.value;
      views := RemoveLogsOf(views, id);
      status := if id in posts then StatusOk else StatusNotFound;
      posts := posts - {id};
    }
  }

  /** The walk-through of a post's life: created on "notice", viewed
      twice, retitled, deleted, then no longer found. */
  method PostLifecycle() returns (views: seq<int>, titleAfterEdit: string, boardAfterEdit: string,
                                  finalStatus: int)
    ensures views == [1, 2]
    ensures titleAfterEdit == "B" && boardAfterEdit == "notice"
    ensures finalStatus == StatusNotFound
  {
    var store := new Store(map["free" := "Free board", "notice" := "Notices"]);
    var status, id := store.Create(PostBody(Some("notice"), Some("A"), Some("bob"), Some("hi")), false);
    assert store.posts == map[1 := Post(1, "notice", "A", "bob", "hi", 0)];
    assert NatToString(1) == "1";
    ParseIntOfNatToString(1);
    var d1, d2: Option<PostDetail>;
    status, d1 := store.Detail("1", None, false);
    assert store.posts == map[1 := Post(1, "notice", "A", "bob", "hi", 1)];
    status, d2 := store.Detail("1", None, false);
    assert store.posts == map[1 := Post(1, "notice", "A", "bob", "hi", 2)];
    views := [d1.value.post.viewCount, d2.value.post.viewCount];
    status := store.Update("1", PostBody(None, Some("B"), Some("bob"), Some("hi")), false);
    assert store.posts == map[1 := Post(1, "notice", "B", "bob", "hi", 2)];
    titleAfterEdit, boardAfterEdit := store.posts[1].title, store.posts[1].boardType;
    status := store.Delete("1", false);
    assert store.posts == map[];
    var d3: Option<PostDetail>;
    finalStatus, d3 := store.Detail("1", None, false);
  }
}
