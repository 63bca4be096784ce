/**
 * The forum's browser client (public/board.js): the pure helpers that shape
 * what is shown (HTML escaping, the date string, the pagination bar) and the
 * client's state machine over its module-level variables. The DOM, `fetch`
 * and the dialogs are abstracted away: a handler returns the request it
 * would issue, and the reaction to a successful response is a handler of
 * its own.
 */
module Board {
  import opened JsText
  import Server

  /** `pageSize`, fixed for every list request. */
  const PageSize := 10

  // ---------------------------------------------------------------------
  // escapeHtml
  // ---------------------------------------------------------------------

  /** `s.replace(/c/g, rep)`: every `c` becomes `rep`. */
  function ReplaceAll(s: string, c: char, rep: string): string {
    if s == [] then [] else (if s[0] == c then rep else [s[0]]) + ReplaceAll(s[1..], c, rep)
  }

  /** The five chained replacements of `escapeHtml`, `&` first. */
  function EscapePasses(s: string): string {
    ReplaceAll(ReplaceAll(ReplaceAll(ReplaceAll(ReplaceAll(
      s, '&', "&amp;"), '<', "&lt;"), '>', "&gt;"), '"', "&quot;"), '\'', "&#039;")
  }

  /** `escapeHtml(str)`: a falsy input gives "", anything else the five
      replacements of its characters. */
  function EscapeHtml(str: Option<string>): (r: string)
    ensures str.None? || str.value == "" ==> r == ""
    ensures forall i :: 0 <= i < |r| ==> !IsMarkup(r[i])
  {
    if str.None? || str.value == "" then ""
    else
      EscapePassesIsEncodeEach(str.value);
      EscapePasses(str.value)
  }

  /** Characters that must not reach `innerHTML` unescaped. */
  predicate IsMarkup(c: char) {
    c == '<' || c == '>' || c == '"' || c == '\''
  }

  predicate IsEscaped(c: char) {
    c == '&' || IsMarkup(c)
  }

  /** The entity for one character: the reference that the chain of
      replacements is measured against. */
  function EntityOf(c: char): (e: string)
    ensures e != [] && (forall i :: 0 <= i < |e| ==> !IsMarkup(e[i]))
    ensures !IsEscaped(c) ==> e == [c]
  {
    if c == '&' then "&amp;"
    else if c == '<' then "&lt;"
    else if c == '>' then "&gt;"
    else if c == '"' then "&quot;"
    else if c == '\'' then "&#039;"
    else [c]
  }

  /** Each character replaced by its entity, in one pass. */
  function EncodeEach(s: string): (r: string)
    ensures forall i :: 0 <= i < |r| ==> !IsMarkup(r[i])
  {
    if s == [] then [] else EntityOf(s[0]) + EncodeEach(s[1..])
  }

  lemma {:induction false} ReplaceAllAppend(a: string, b: string, c: char, rep: string)
    ensures ReplaceAll(a + b, c, rep) == ReplaceAll(a, c, rep) + ReplaceAll(b, c, rep)
  {
    if a == [] {
      assert a + b == b;
    } else {
      assert (a + b)[0] == a[0];
      assert (a + b)[1..] == a[1..] + b;
      ReplaceAllAppend(a[1..], b, c, rep);
    }
  }

  lemma {:induction false} ReplaceAllAbsent(s: string, c: char, rep: string)
    requires c !in s
    ensures ReplaceAll(s, c, rep) == s
  {
    if s != [] {
      assert c !in s[1..];
      ReplaceAllAbsent(s[1..], c, rep);
    }
  }

  lemma EscapePassesAppend(a: string, b: string)
    ensures EscapePasses(a + b) == EscapePasses(a) + EscapePasses(b)
  {
    var a1, b1 := ReplaceAll(a, '&', "&amp;"), ReplaceAll(b, '&', "&amp;");
    ReplaceAllAppend(a, b, '&', "&amp;");
    var a2, b2 := ReplaceAll(a1, '<', "&lt;"), ReplaceAll(b1, '<', "&lt;");
    ReplaceAllAppend(a1, b1, '<', "&lt;");
    var a3, b3 := ReplaceAll(a2, '>', "&gt;"), ReplaceAll(b2, '>', "&gt;");
    ReplaceAllAppend(a2, b2, '>', "&gt;");
    var a4, b4 := ReplaceAll(a3, '"', "&quot;"), ReplaceAll(b3, '"', "&quot;");
    ReplaceAllAppend(a3, b3, '"', "&quot;");
    ReplaceAllAppend(a4, b4, '\'', "&#039;");
  }

  /** One pass over a single character leaves it alone or replaces it. */
  lemma ReplaceAllSingle(x: char, c: char, rep: string)
    ensures ReplaceAll([x], c, rep) == if x == c then rep else [x]
  {
    assert [x][1..] == [];
  }

  /** A character that none of the five passes touches. */
  lemma EscapePassesOfPlain(x: char)
    requires !IsEscaped(x)
    ensures EscapePasses([x]) == [x]
  {
    ReplaceAllSingle(x, '&', "&amp;");
    ReplaceAllSingle(x, '<', "&lt;");
    ReplaceAllSingle(x, '>', "&gt;");
    ReplaceAllSingle(x, '"', "&quot;");
    ReplaceAllSingle(x, '\'', "&#039;");
  }

  /** The passes for `< > " '` leave a string without those characters
      alone; an entity made by an earlier pass is such a string, because `&`
      is replaced first. */
  lemma MarkupPassesKeep(e: string)
    requires forall i :: 0 <= i < |e| ==> !IsMarkup(e[i])
    ensures ReplaceAll(e, '<', "&lt;") == e && ReplaceAll(e, '>', "&gt;") == e
    ensures ReplaceAll(e, '"', "&quot;") == e && ReplaceAll(e, '\'', "&#039;") == e
  {
    ReplaceAllAbsent(e, '<', "&lt;");
    ReplaceAllAbsent(e, '>', "&gt;");
    ReplaceAllAbsent(e, '"', "&quot;");
    ReplaceAllAbsent(e, '\'', "&#039;");
  }

  /** A lone character goes through the five passes to its entity. */
  lemma EscapePassesOfChar(x: char)
    ensures EscapePasses([x]) == EntityOf(x)
  {
    if !IsEscaped(x) {
      EscapePassesOfPlain(x);
    } else if x == '&' {
      ReplaceAllSingle(x, '&', "&amp;");
      MarkupPassesKeep("&amp;");
    } else if x == '<' {
      ReplaceAllSingle(x, '&', "&amp;");
      ReplaceAllSingle(x, '<', "&lt;");
      MarkupPassesKeep("&lt;");
    } else if x == '>' {
      ReplaceAllSingle(x, '&', "&amp;");
      ReplaceAllSingle(x, '<', "&lt;");
      ReplaceAllSingle(x, '>', "&gt;");
      MarkupPassesKeep("&gt;");
    } else if x == '"' {
      ReplaceAllSingle(x, '&', "&amp;");
      ReplaceAllSingle(x, '<', "&lt;");
      ReplaceAllSingle(x, '>', "&gt;");
      ReplaceAllSingle(x, '"', "&quot;");
      MarkupPassesKeep("&quot;");
    } else {
      ReplaceAllSingle(x, '&', "&amp;");
      ReplaceAllSingle(x, '<', "&lt;");
      ReplaceAllSingle(x, '>', "&gt;");
      ReplaceAllSingle(x, '"', "&quot;");
      ReplaceAllSingle(x, '\'', "&#039;");
    }
  }

  /** The chain of five replacements is the one-pass entity encoding. */
  lemma {:induction false} EscapePassesIsEncodeEach(s: string)
    ensures EscapePasses(s) == EncodeEach(s)
  {
    if s != [] {
      assert s == [s[0]] + s[1..];
      EscapePassesAppend([s[0]], s[1..]);
      EscapePassesOfChar(s[0]);
      EscapePassesIsEncodeEach(s[1..]);
    }
  }

  /** Decoding of the five entities, longest match at each `&`. */
  function Unescape(s: string): string
    decreases |s|
  {
    if s == [] then []
    else if "&amp;" <= s then "&" + Unescape(s[5..])
    else if "&lt;" <= s then "<" + Unescape(s[4..])
    else if "&gt;" <= s then ">" + Unescape(s[4..])
    else if "&quot;" <= s then "\"" + Unescape(s[6..])
    else if "&#039;" <= s then "'" + Unescape(s[6..])
    else [s[0]] + Unescape(s[1..])
  }

  lemma UnescapeEntity(c: char, t: string)
    ensures Unescape(EntityOf(c) + t) == [c] + Unescape(t)
  {
    var s := EntityOf(c) + t;
    var e := EntityOf(c);
    assert s[..|e|] == e;
    assert s[|e|..] == t;
    if !IsEscaped(c) {
      assert s[0] == c;
      assert !("&amp;" <= s) && !("&lt;" <= s) && !("&gt;" <= s);
      assert !("&quot;" <= s) && !("&#039;" <= s);
    } else if c == '<' {
      assert s[1] == 'l';
    } else if c == '>' {
      assert s[1] == 'g';
    } else if c == '"' {
      assert s[1] == 'q';
    } else if c == '\'' {
      assert s[1] == '#';
    }
  }

  lemma {:induction false} UnescapeEncodeEach(s: string)
    ensures Unescape(EncodeEach(s)) == s
  {
    if s != [] {
      UnescapeEntity(s[0], EncodeEach(s[1..]));
      UnescapeEncodeEach(s[1..]);
    }
  }

  /** Unescaping the output of `escapeHtml` gives back its input. */
  lemma EscapeHtmlRoundTrip(s: string)
    ensures Unescape(EscapeHtml(Some(s))) == s
  {
    if s != "" {
      EscapePassesIsEncodeEach(s);
      UnescapeEncodeEach(s);
    }
  }

  lemma {:induction false} EncodeEachPlain(s: string)
    requires forall i :: 0 <= i < |s| ==> !IsEscaped(s[i])
    ensures EncodeEach(s) == s
  {
    if s != [] {
      EncodeEachPlain(s[1..]);
    }
  }

  /** Text with none of `& < > " '` is shown as it is. */
  lemma EscapeHtmlPlain(s: string)
    requires forall i :: 0 <= i < |s| ==> !IsEscaped(s[i])
    ensures EscapeHtml(Some(s)) == s
  {
    if s != "" {
      EscapePassesIsEncodeEach(s);
      EncodeEachPlain(s);
    }
  }

  // ---------------------------------------------------------------------
  // The date string
  // ---------------------------------------------------------------------

  /** Where `c` first occurs in `s`. */
  function FirstIndexOf(s: string, c: char): (k: Option<nat>)
    ensures k.None? <==> c !in s
    ensures k.Some? ==> k.value < |s| && s[k.value] == c && c !in s[..k.value]
  {
    if s == [] then None
    else if s[0] == c then Some(0)
    else
      var k := FirstIndexOf(s[1..], c);
      if k.None? then None
      else
        assert s[..k.value + 1] == [s[0]] + s[1..][..k.value];
        Some(k.value + 1)
  }

  /** `s.replace(c, d)` with a one-character string pattern: only the first
      occurrence is replaced. */
  function ReplaceFirst(s: string, c: char, d: char): (r: string)
    ensures |r| == |s|
  {
    if s == [] then []
    else if s[0] == c then [d] + s[1..]
    else [s[0]] + ReplaceFirst(s[1..], c, d)
  }

  /** `ReplaceFirst` changes the first `c`, if there is one, and nothing else. */
  lemma {:induction false} ReplaceFirstChangesFirst(s: string, c: char, d: char)
    ensures FirstIndexOf(s, c).None? ==> ReplaceFirst(s, c, d) == s
    ensures FirstIndexOf(s, c).Some? ==>
      var k := FirstIndexOf(s, c).value; ReplaceFirst(s, c, d) == s[..k] + [d] + s[k + 1..]
  {
    if s != [] && s[0] != c {
      ReplaceFirstChangesFirst(s[1..], c, d);
      var k := FirstIndexOf(s[1..], c);
      if k.Some? {
        assert s[..k.value + 1] == [s[0]] + s[1..][..k.value];
        assert s[k.value + 2..] == s[1..][k.value + 1..];
      }
    }
  }

  /** `String(v || "").replace("T", " ").slice(0, 16)`: at most 16
      characters, a prefix of the text with its first `T` made a space. */
  function DateDisplay(v: Option<string>): (r: string)
    ensures var s := if v.None? then "" else v.value;
      && |r| == (if |s| < 16 then |s| else 16)
      && r == ReplaceFirst(s, 'T', ' ')[..|r|]
  {
    var s := if v.None? then "" else v.value;
    ReplaceFirstChangesFirst(s, 'T', ' ');
    var t := ReplaceFirst(s, 'T', ' ');
    t[..if |t| < 16 then |t| else 16]
  }

  /** Only the first `T` can change, into a space. */
  lemma DateDisplayChangesOnlyFirstT(v: string, j: int)
    requires 0 <= j < |DateDisplay(Some(v))|
    ensures DateDisplay(Some(v))[j] == v[j]
            || (v[j] == 'T' && DateDisplay(Some(v))[j] == ' ' && 'T' !in v[..j])
  {
    ReplaceFirstChangesFirst(v, 'T', ' ');
  }

  /** An ISO timestamp `YYYY-MM-DDTHH:MM...` shows as `YYYY-MM-DD HH:MM`. */
  lemma DateDisplayOfTimestamp(date: string, time: string)
    requires |date| == 10 && 'T' !in date && |time| >= 5
    ensures DateDisplay(Some(date + "T" + time)) == date + " " + time[..5]
  {
    var s := date + "T" + time;
    assert s[..10] == date;
    assert s[10] == 'T';
    var k := FirstIndexOf(s, 'T');
    assert k == Some(10);
    ReplaceFirstChangesFirst(s, 'T', ' ');
    var r := ReplaceFirst(s, 'T', ' ');
    assert r == date + " " + time;
    assert r[..16] == date + " " + time[..5];
  }

  // ---------------------------------------------------------------------
  // renderPagination
  // ---------------------------------------------------------------------

  /** A numbered button: the page it selects, its caption, and whether it
      carries the `active` class. */
  datatype PageButton = PageButton(page: int, caption: string, active: bool)

  /** The pagination bar: nothing, or prev, the numbered buttons, next. */
  datatype Controls =
    | NoControls
    | Bar(prevDisabled: bool, pages: seq<PageButton>, nextDisabled: bool)

  /** The numbered buttons for `totalPages` pages when `current` is shown:
      pages 1 to `totalPages` in order, labelled `String(p)`, only the
      current one active. */
  function PageButtons(totalPages: nat, current: int): (bs: seq<PageButton>)
    ensures |bs| == totalPages
  {
    seq(totalPages, i => PageButton(i + 1, IntToString(i + 1), i + 1 == current))
  }

  /** When the current page is one of the pages, exactly one button is
      active, and it is the current page's. */
  lemma ExactlyOneActive(totalPages: nat, current: int)
    requires 1 <= current <= totalPages
    ensures var bs := PageButtons(totalPages, current);
      && bs[current - 1].active && bs[current - 1].page == current
      && forall j :: 0 <= j < |bs| && bs[j].active ==> j == current - 1
  {
  }

  lemma PageButtonsSnoc(n: nat, current: int)
    ensures PageButtons(n + 1, current)
            == PageButtons(n, current) + [PageButton(n + 1, IntToString(n + 1), n + 1 == current)]
  {
  }

  /** `renderPagination`: no bar for a single page; otherwise prev, the
      numbered buttons, next, with prev/next disabled at the ends. */
  method RenderPagination(pagination: Server.Pagination) returns (c: Controls)
    ensures pagination.totalPages <= 1 <==> c.NoControls?
    ensures c.Bar? ==>
      && c.pages == PageButtons(pagination.totalPages, pagination.currentPage)
      && c.prevDisabled == (pagination.currentPage <= 1)
      && c.nextDisabled == (pagination.currentPage >= pagination.totalPages)
  {
    var totalPages, cur := pagination.totalPages, pagination.currentPage;
    if totalPages <= 1 {
      return NoControls;
    }
    var prevDisabled := cur <= 1;
    var pages: seq<PageButton> := [];
    for p := 1 to totalPages + 1
      invariant pages == PageButtons(p - 1, cur)
    {
      PageButtonsSnoc(p - 1, cur);
      pages := pages + [PageButton(p, IntToString(p), p == cur)];
    }
    var nextDisabled := cur >= totalPages;
    c := Bar(prevDisabled, pages, nextDisabled);
  }

  // ---------------------------------------------------------------------
  // Requests and the form
  // ---------------------------------------------------------------------

  /** The request a handler would issue; ids are the text put in the URL. */
  datatype Request =
    | ListPosts(board: string, page: string, pageSize: string, keyword: Option<string>)
    | GetPost(id: string)
    | CreatePost(boardType: string, title: string, author: string, content: string)
    | UpdatePost(id: string, title: string, author: string, content: string)
    | DeletePost(id: string)

  /** A post id as the client holds it: a number from the list, or the text
      of the form's hidden id field. */
  datatype PostId = NumId(n: int) | TextId(s: string)

  /** JavaScript truthiness of an id. */
  predicate IdTruthy(id: PostId) {
    match id
    case NumId(n) => n != 0
    case TextId(s) => s != ""
  }

  /** `${id}` in a URL. */
  function IdText(id: PostId): string {
    match id
    case NumId(n) => IntToString(n)
    case TextId(s) => s
  }

  /** `loadPostList`: board, page and page size always; the keyword, trimmed,
      only when it is not blank. */
  function ListRequestOf(board: string, page: int, keyword: string): (r: Request)
    ensures r.ListPosts? && r.board == board
    ensures r.page == IntToString(page) && r.pageSize == IntToString(PageSize)
    ensures r.keyword.Some? <==> Trim(keyword) != ""
    ensures r.keyword.Some? ==> r.keyword.value == Trim(keyword)
  {
    var kw := Trim(keyword);
    ListPosts(board, IntToString(page), IntToString(PageSize), if kw != "" then Some(kw) else None)
  }

  /** The edit form: hidden id, board select, title, author, content, and
      whether the delete button is disabled. */
  datatype Form = Form(postId: string, boardType: string, title: string, author: string,
                       content: string, deleteDisabled: bool)

  /** `resetFormForNew`. */
  function NewForm(board: string): (f: Form)
    ensures f.postId == "" && f.boardType == board && f.deleteDisabled
    ensures f.title == "" && f.author == "" && f.content == ""
  {
    Form("", board, "", "", "", true)
  }

  /** `fillFormForEdit`. */
  function EditForm(d: Server.PostDetail): (f: Form)
    ensures f.postId == IntToString(d.post.id) && !f.deleteDisabled
    ensures f.boardType == d.post.boardType && f.title == d.post.title
    ensures f.author == d.post.author && f.content == d.post.content
  {
    Form(IntToString(d.post.id), d.post.boardType, d.post.title, d.post.author, d.post.content, false)
  }

  /** The form's submit handler: nothing when a trimmed field is empty,
      otherwise PUT when the form holds an id and POST when it does not. */
  function SubmitRequest(f: Form): (r: Option<Request>)
    ensures r.None? <==> Trim(f.title) == "" || Trim(f.author) == "" || Trim(f.content) == ""
    ensures r.Some? && f.postId != "" ==>
      r.value == UpdatePost(f.postId, Trim(f.title), Trim(f.author), Trim(f.content))
    ensures r.Some? && f.postId == "" ==>
      r.value == CreatePost(f.boardType, Trim(f.title), Trim(f.author), Trim(f.content))
  {
    var title, author, content := Trim(f.title), Trim(f.author), Trim(f.content);
    if title == "" || author == "" || content == "" then None
    else if f.postId != "" then Some(UpdatePost(f.postId, title, author, content))
    else Some(CreatePost(f.boardType, title, author, content))
  }

  /** `postIdInput.value || currentSelectedPostId`, when truthy. */
  function DeleteTarget(f: Form, selected: Option<PostId>): (target: Option<string>)
    ensures f.postId != "" ==> target == Some(f.postId)
    ensures f.postId == "" && selected.Some? && IdTruthy(selected.value) ==>
      target == Some(IdText(selected.value))
    ensures target.None? <==> f.postId == "" && (selected.None? || !IdTruthy(selected.value))
  {
    if f.postId != "" then Some(f.postId)
    else if selected.Some? && IdTruthy(selected.value) then Some(IdText(selected.value))
    else None
  }

  // ---------------------------------------------------------------------
  // The client's state
  // ---------------------------------------------------------------------

  datatype Mode = View | Edit

  class BoardClient {
    var currentBoard: string
    var currentPage: int
    var currentKeyword: string
    var currentSelectedPostId: Option<PostId>
    var currentDetailPost: Option<Server.PostDetail>
    var currentMode: Mode
    /** The values in the edit form's fields. */
    var form: Form

    /** The page is always a real page number. */
    ghost predicate Valid()
      reads this
    {
      currentPage >= 1
    }

    /** The module-level initial values; the form holds whatever the page
        markup put in it. */
    constructor (initialForm: Form)
      ensures Valid()
      ensures currentBoard == "free" && currentPage == 1 && currentKeyword == ""
      ensures currentSelectedPostId == None && currentDetailPost == None && currentMode == View
      ensures form == initialForm
    {
      currentBoard := "free";
      currentPage := 1;
      currentKeyword := "";
      currentSelectedPostId := None;
      currentDetailPost := None;
      currentMode := View;
      form := initialForm;
    }

    /** `DOMContentLoaded`: reset the form, show the (empty) detail, load. */
    method Start() returns (req: Request)
      requires Valid()
      modifies this
      ensures Valid()
      ensures form == NewForm(old(currentBoard)) && currentMode == View
      ensures currentBoard == old(currentBoard) && currentPage == old(currentPage)
      ensures currentKeyword == old(currentKeyword)
      ensures currentSelectedPostId == old(currentSelectedPostId)
      ensures currentDetailPost == old(currentDetailPost)
      ensures req == ListRequestOf(currentBoard, currentPage, currentKeyword)
    {
      form := NewForm(currentBoard);
      SetMode(View, None);
      req := ListRequestOf(currentBoard, currentPage, currentKeyword);
    }

    /** `setMode`: switch mode; entering edit fills the form from the given
        post, or resets it for a new one. */
    method SetMode(mode: Mode, postForEdit: Option<Server.PostDetail>)
      modifies this
      ensures currentMode == mode
      ensures form == (if mode == View then old(form)
                       else if postForEdit.Some? then EditForm(postForEdit.value)
                       else NewForm(old(currentBoard)))
      ensures currentBoard == old(currentBoard) && currentPage == old(currentPage)
      ensures currentKeyword == old(currentKeyword)
      ensures currentSelectedPostId == old(currentSelectedPostId)
      ensures currentDetailPost == old(currentDetailPost)
    {
      currentMode := mode;
      if mode == Edit {
        if postForEdit.Some? {
          form := EditForm(postForEdit.value);
        } else {
          form := NewForm(currentBoard);
        }
      }
    }

    /** A title in the list was clicked: fetch that post. */
    method OnClickPost(id: PostId) returns (req: Request)
      ensures req == GetPost(IdText(id))
    {
      req := GetPost(IdText(id));
    }

    /** The detail response of `onClickPost` arrived; `None` is a failed
        response, which changes nothing. */
    method OnPostLoaded(id: PostId, response: Option<Server.PostDetail>)
      requires Valid()
      modifies this
      ensures Valid()
      ensures response.None? ==> unchanged(this)
      ensures response.Some? ==>
        && currentSelectedPostId == Some(id) && currentDetailPost == response
        && currentMode == View && form == old(form)
        && currentBoard == old(currentBoard) && currentPage == old(currentPage)
        && currentKeyword == old(currentKeyword)
    {
      if response.None? {
        return;
      }
      currentSelectedPostId := Some(id);
      currentDetailPost := response;
      SetMode(View, None);
    }

    /** "Edit this post" in the detail view. */
    method OnEditFromDetail()
      requires Valid()
      modifies this
      ensures Valid()
      ensures old(currentDetailPost).None? ==> unchanged(this)
      ensures old(currentDetailPost).Some? ==>
        && currentMode == Edit && form == EditForm(old(currentDetailPost).value)
        && currentBoard == old(currentBoard) && currentPage == old(currentPage)
        && currentKeyword == old(currentKeyword)
        && currentSelectedPostId == old(currentSelectedPostId)
        && currentDetailPost == old(currentDetailPost)
    {
      if currentDetailPost.None? {
        return;
      }
      SetMode(Edit, currentDetailPost);
    }

    /** A board tab was clicked. */
    method OnTab(board: string) returns (req: Option<Request>)
      requires Valid()
      modifies this
      ensures Valid()
      ensures board == old(currentBoard) ==> req == None && unchanged(this)
      ensures board != old(currentBoard) ==>
        && currentBoard == board && currentPage == 1 && currentKeyword == ""
        && currentDetailPost == None && currentSelectedPostId == None
        && currentMode == View && form == old(form)
        && req == Some(ListRequestOf(board, 1, ""))
    {
      if board == currentBoard {
        return None;
      }
      currentBoard := board;
      currentPage := 1;
      currentKeyword := "";
      currentDetailPost := None;
      currentSelectedPostId := None;
      SetMode(View, None);
      req := Some(ListRequestOf(board, 1, ""));
    }

    /** The search button (or Enter in the search box) with the box's text. */
    method OnSearch(text: string) returns (req: Request)
      requires Valid()
      modifies this
      ensures Valid()
      ensures currentKeyword == text && currentPage == 1
      ensures currentBoard == old(currentBoard) && currentMode == old(currentMode)
      ensures currentSelectedPostId == old(currentSelectedPostId)
      ensures currentDetailPost == old(currentDetailPost) && form == old(form)
      ensures req == ListRequestOf(currentBoard, 1, text)
    {
      currentKeyword := text;
      currentPage := 1;
      req := ListRequestOf(currentBoard, currentPage, currentKeyword);
    }

    /** "New post": clear the selection and open an empty form. */
    method OnNewPost()
      requires Valid()
      modifies this
      ensures Valid()
      ensures currentDetailPost == None && currentSelectedPostId == None
      ensures form == NewForm(old(currentBoard)) && currentMode == Edit
      ensures currentBoard == old(currentBoard) && currentPage == old(currentPage)
      ensures currentKeyword == old(currentKeyword)
    {
      currentDetailPost := None;
      currentSelectedPostId := None;
      form := NewForm(currentBoard);
      SetMode(Edit, None);
    }

    /** "Cancel": reset the form and go back to viewing. */
    method OnCancel()
      requires Valid()
      modifies this
      ensures Valid()
      ensures form == NewForm(old(currentBoard)) && currentMode == View
      ensures currentBoard == old(currentBoard) && currentPage == old(currentPage)
      ensures currentKeyword == old(currentKeyword)
      ensures currentSelectedPostId == old(currentSelectedPostId)
      ensures currentDetailPost == old(currentDetailPost)
    {
      form := NewForm(currentBoard);
      SetMode(View, None);
    }

    /** The form was submitted. */
    method OnSubmit() returns (req: Option<Request>)
      ensures req == SubmitRequest(form)
      ensures req.Some? ==> (req.value.UpdatePost? <==> form.postId != "")
    {
      req := SubmitRequest(form);
    }

    /** A PUT for `id` succeeded: reload the list, then the post. */
    method OnUpdateSucceeded(id: string) returns (reqs: seq<Request>)
      ensures reqs == [ListRequestOf(currentBoard, currentPage, currentKeyword), GetPost(id)]
    {
      reqs := [ListRequestOf(currentBoard, currentPage, currentKeyword), GetPost(id)];
    }

    /** A POST succeeded: back to page 1, reload, empty form, empty view. */
    method OnCreateSucceeded() returns (req: Request)
      requires Valid()
      modifies this
      ensures Valid()
      ensures currentPage == 1 && currentDetailPost == None && currentMode == View
      ensures form == NewForm(old(currentBoard))
      ensures currentBoard == old(currentBoard) && currentKeyword == old(currentKeyword)
      ensures currentSelectedPostId == old(currentSelectedPostId)
      ensures req == ListRequestOf(old(currentBoard), 1, old(currentKeyword))
    {
      currentPage := 1;
      req := ListRequestOf(currentBoard, currentPage, currentKeyword);
      form := NewForm(currentBoard);
      currentDetailPost := None;
      SetMode(View, None);
    }

    /** The delete button; `confirmed` is the answer to the confirmation
        dialog. */
    method OnDelete(confirmed: bool) returns (req: Option<Request>)
      ensures DeleteTarget(form, currentSelectedPostId).None? || !confirmed ==> req == None
      ensures DeleteTarget(form, currentSelectedPostId).Some? && confirmed ==>
        req == Some(DeletePost(DeleteTarget(form, currentSelectedPostId).value))
    {
      var target := DeleteTarget(form, currentSelectedPostId);
      if target.None? || !confirmed {
        return None;
      }
      req := Some(DeletePost(target.value));
    }

    /** A DELETE succeeded: clear the selection, reload, reset, view. */
    method OnDeleteSucceeded() returns (req: Request)
      requires Valid()
      modifies this
      ensures Valid()
      ensures currentSelectedPostId == None && currentDetailPost == None
      ensures form == NewForm(old(currentBoard)) && currentMode == View
      ensures currentBoard == old(currentBoard) && currentPage == old(currentPage)
      ensures currentKeyword == old(currentKeyword)
      ensures req == ListRequestOf(currentBoard, currentPage, currentKeyword)
    {
      currentSelectedPostId := None;
      currentDetailPost := None;
      req := ListRequestOf(currentBoard, currentPage, currentKeyword);
      form := NewForm(currentBoard);
      SetMode(View, None);
    }

    /** The prev button: one page back, unless already on the first. */
    method OnPrev() returns (req: Option<Request>)
      requires Valid()
      modifies this
      ensures Valid()
      ensures old(currentPage) > 1 ==>
        currentPage == old(currentPage) - 1 && req == Some(ListRequestOf(currentBoard, currentPage, currentKeyword))
      ensures old(currentPage) <= 1 ==> currentPage == old(currentPage) && req == None
      ensures currentBoard == old(currentBoard) && currentKeyword == old(currentKeyword)
      ensures currentMode == old(currentMode) && form == old(form)
      ensures currentSelectedPostId == old(currentSelectedPostId)
      ensures currentDetailPost == old(currentDetailPost)
    {
      if currentPage > 1 {
        currentPage := currentPage - 1;
        return Some(ListRequestOf(currentBoard, currentPage, currentKeyword));
      }
      return None;
    }

    /** The next button of a bar rendered for `totalPages` pages. */
    method OnNext(totalPages: int) returns (req: Option<Request>)
      requires Valid()
      modifies this
      ensures Valid()
      ensures old(currentPage) < totalPages ==>
        && currentPage == old(currentPage) + 1
        && req == Some(ListRequestOf(currentBoard, currentPage, currentKeyword))
      ensures old(currentPage) >= totalPages ==> currentPage == old(currentPage) && req == None
      ensures old(currentPage) <= totalPages ==> currentPage <= totalPages
      ensures currentBoard == old(currentBoard) && currentKeyword == old(currentKeyword)
      ensures currentMode == old(currentMode) && form == old(form)
      ensures currentSelectedPostId == old(currentSelectedPostId)
      ensures currentDetailPost == old(currentDetailPost)
    {
      if currentPage < totalPages {
        currentPage := currentPage + 1;
        return Some(ListRequestOf(currentBoard, currentPage, currentKeyword));
      }
      return None;
    }

    /** A numbered button of the bar. */
    method OnPageButton(b: PageButton) returns (req: Request)
      requires Valid() && b.page >= 1
      modifies this
      ensures Valid()
      ensures currentPage == b.page && req == ListRequestOf(currentBoard, currentPage, currentKeyword)
      ensures currentBoard == old(currentBoard) && currentKeyword == old(currentKeyword)
      ensures currentMode == old(currentMode) && form == old(form)
      ensures currentSelectedPostId == old(currentSelectedPostId)
      ensures currentDetailPost == old(currentDetailPost)
    {
      currentPage := b.page;
      req := ListRequestOf(currentBoard, currentPage, currentKeyword);
    }
  }
}
