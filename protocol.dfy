/**
 * How the client's requests read on the server: the query string and JSON
 * body a request carries, and what the server's normalisation and checks
 * make of them.
 */
module Protocol {
  import opened JsText
  import Server
  import Board

  /** The query of `GET /api/posts?…` as `URLSearchParams` builds it: board,
      page and page size always, the keyword only when set. */
  function ListQueryOf(r: Board.Request): (q: Server.ListQuery)
    requires r.ListPosts?
    ensures q.board == Some(r.board) && q.page == Some(r.page) && q.pageSize == Some(r.pageSize)
    ensures q.keyword == r.keyword
  {
    Server.ListQuery(Some(r.board), Some(r.page), Some(r.pageSize), r.keyword)
  }

  /** The JSON body of a POST (`{ board_type, title, author, content }`) or a
      PUT (`{ title, author, content }`). */
  function BodyOf(r: Board.Request): (b: Server.PostBody)
    requires r.CreatePost? || r.UpdatePost?
    ensures b.title == Some(r.title) && b.author == Some(r.author) && b.content == Some(r.content)
    ensures r.CreatePost? ==> b.boardType == Some(r.boardType)
    ensures r.UpdatePost? ==> b.boardType == None
  {
    if r.CreatePost? then Server.PostBody(Some(r.boardType), Some(r.title), Some(r.author), Some(r.content))
    else Server.PostBody(None, Some(r.title), Some(r.author), Some(r.content))
  }

  /** A page number the client renders with `String(n)` is the number the
      server's `page`/`pageSize` rule reads. */
  lemma PositiveParamOfIntToString(n: int, default: int)
    requires n >= 1 && default >= 1
    ensures Server.PositiveParam(Some(IntToString(n)), default) == n
  {
    ParseIntOfIntToString(n);
    assert Server.QueryInt(Some(IntToString(n))) == Some(n);
  }

  /** The keyword the client sends (or leaves out) normalises to the trimmed
      search text. */
  lemma KeywordUnderstood(kw: Option<string>, keyword: string)
    requires kw.Some? <==> Trim(keyword) != ""
    requires kw.Some? ==> kw.value == Trim(keyword)
    ensures Server.NormalizeKeyword(kw) == Trim(keyword)
  {
    if kw.Some? {
      TrimIdempotent(keyword);
    } else {
      assert Trim("") == "";
    }
  }

  /** Every list request the client sends is read back by the server as the
      client's own board, page, page size and trimmed keyword. */
  lemma ListRequestUnderstood(board: string, page: int, keyword: string)
    requires page >= 1
    ensures Server.NormalizeListQuery(ListQueryOf(Board.ListRequestOf(board, page, keyword)))
            == Server.ListParams(Server.NormalizeBoard(Some(board)), page, Board.PageSize, Trim(keyword))
  {
    var r := Board.ListRequestOf(board, page, keyword);
    var q := ListQueryOf(r);
    PositiveParamOfIntToString(page, Server.DefaultPage);
    PositiveParamOfIntToString(Board.PageSize, Server.DefaultPageSize);
    KeywordUnderstood(q.keyword, keyword);
  }

  /** The list request a client builds from its own state (`loadPostList`)
      is read back as that state: its page is at least 1 because `Valid()`
      keeps it so. */
  lemma ClientListRequestUnderstood(c: Board.BoardClient)
    requires c.Valid()
    ensures Server.NormalizeListQuery(ListQueryOf(Board.ListRequestOf(c.currentBoard, c.currentPage, c.currentKeyword)))
            == Server.ListParams(Server.NormalizeBoard(Some(c.currentBoard)), c.currentPage, Board.PageSize,
                                 Trim(c.currentKeyword))
  {
    ListRequestUnderstood(c.currentBoard, c.currentPage, c.currentKeyword);
  }

  /** A post id taken from a list row reaches the server as that id. */
  lemma NumericIdUnderstood(n: int)
    ensures ParseInt(Board.IdText(Board.NumId(n))) == Some(n)
  {
    ParseIntOfIntToString(n);
  }

  /** The hidden id of an edit form is the post's id on the server. */
  lemma EditFormIdUnderstood(d: Server.PostDetail)
    ensures ParseInt(Board.EditForm(d).postId) == Some(d.post.id)
  {
    ParseIntOfIntToString(d.post.id);
  }

  /** A body the client submits always passes the server's required-field
      check: the client's check on trimmed fields is the stricter one. */
  lemma SubmittedBodyAccepted(f: Board.Form)
    requires Board.SubmitRequest(f).Some?
    ensures Server.HasRequiredFields(BodyOf(Board.SubmitRequest(f).value))
  {
  }

  /** A new post keeps the board chosen in the form when that is one of the
      two board codes. */
  lemma SubmittedBoardKept(f: Board.Form)
    requires Board.SubmitRequest(f).Some? && f.postId == ""
    requires Server.IsBoardCode(f.boardType)
    ensures Server.NormalizeBoard(BodyOf(Board.SubmitRequest(f).value).boardType) == f.boardType
  {
  }

  /** A numbered button of the bar drawn from a server response selects a
      page that the server answers with a non-empty slice, unless the
      board is empty. */
  lemma PageButtonsWithinPages(posts: map<int, Server.Post>, p: Server.ListParams, i: int)
    requires p.pageSize >= 1 && p.page >= 1
    requires 0 <= i < Server.ListPageOf(posts, p).pagination.totalPages
    ensures var pg := Server.ListPageOf(posts, p).pagination;
      var b := Board.PageButtons(pg.totalPages, pg.currentPage)[i];
      && 1 <= b.page <= pg.totalPages
      && (pg.totalCount > 0 ==> |Server.ListPageOf(posts, p.(page := b.page)).rows| > 0)
  {
    var all := Server.FilteredRows(posts, p.board, p.keyword);
    var t := Server.TotalPages(|all|, p.pageSize);
    if |all| > 0 {
      PageHasRows(|all|, p.pageSize, i + 1);
    }
  }

  /** Every page from 1 to the page count starts at a row that exists. */
  lemma PageHasRows(count: nat, pageSize: int, page: int)
    requires pageSize >= 1 && count > 0 && 1 <= page <= Server.TotalPages(count, pageSize)
    ensures Server.Offset(page, pageSize) < count
  {
    var t := Server.TotalPages(count, pageSize);
    Server.MulMonotone(page - 1, t - 1, pageSize);
  }
}
