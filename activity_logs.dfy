/**
 * The pure logic of the admin activity-log page
 * (`src/pages/admin/AdminActivityLogs.jsx`): badge colours, the action-name
 * formatter, the query built from the filters, and the filter and page
 * transitions.
 */
module ActivityLogs {
  import opened Wrappers
  import opened Text

  const DEFAULT_BADGE := "bg-gray-100 text-gray-800"

  /** `getSeverityBadgeClass`. */
  function SeverityBadge(severity: string): string {
    if severity == "info" then "bg-blue-100 text-blue-800"
    else if severity == "warning" then "bg-yellow-100 text-yellow-800"
    else if severity == "error" then "bg-red-100 text-red-800"
    else if severity == "critical" then "bg-red-200 text-red-900 font-bold"
    else DEFAULT_BADGE
  }

  const SEVERITIES := ["info", "warning", "error", "critical"]

  /** The four severities get four different colours, none of them the gray default. */
  lemma SeverityBadgesDistinct(a: string, b: string)
    ensures SeverityBadge(a) == DEFAULT_BADGE <==> a !in SEVERITIES
    ensures a in SEVERITIES && b in SEVERITIES && a != b ==> SeverityBadge(a) != SeverityBadge(b)
  {
    assert "bg-blue-100 text-blue-800"[3] != DEFAULT_BADGE[3];
    assert "bg-yellow-100 text-yellow-800"[3] != DEFAULT_BADGE[3];
    assert "bg-red-100 text-red-800"[3] != DEFAULT_BADGE[3];
    assert "bg-red-200 text-red-900 font-bold"[3] != DEFAULT_BADGE[3];
    assert "bg-red-100 text-red-800"[7] != "bg-red-200 text-red-900 font-bold"[7];
  }

  const CATEGORIES := ["auth", "user", "profile", "security", "payment", "order", "product", "cart", "favorite", "admin"]

  /** `getCategoryBadgeClass`. */
  function CategoryBadge(category: string): string {
    if category == "auth" then "bg-purple-100 text-purple-800"
    else if category == "user" then "bg-teal-100 text-teal-800"
    else if category == "profile" then "bg-green-100 text-green-800"
    else if category == "security" then "bg-red-100 text-red-800"
    else if category == "payment" then "bg-yellow-100 text-yellow-800"
    else if category == "order" then "bg-blue-100 text-blue-800"
    else if category == "product" then "bg-indigo-100 text-indigo-800"
    else if category == "cart" then "bg-orange-100 text-orange-800"
    else if category == "favorite" then "bg-pink-100 text-pink-800"
    else if category == "admin" then "bg-gray-800 text-white"
    else DEFAULT_BADGE
  }

  /** The ten known categories have a colour of their own; every other category gets the default. */
  lemma CategoryBadgesKnown(c: string)
    ensures CategoryBadge(c) == DEFAULT_BADGE <==> c !in CATEGORIES
  {
    var b := CategoryBadge(c);
    if c == "auth" { assert b[3] != DEFAULT_BADGE[3]; }
    else if c == "user" { assert b[3] != DEFAULT_BADGE[3]; }
    else if c == "profile" { assert b[4] == 'r' && b[5] != DEFAULT_BADGE[5]; }
    else if c == "security" { assert b[3] != DEFAULT_BADGE[3]; }
    else if c == "payment" { assert b[3] != DEFAULT_BADGE[3]; }
    else if c == "order" { assert b[3] != DEFAULT_BADGE[3]; }
    else if c == "product" { assert b[3] != DEFAULT_BADGE[3]; }
    else if c == "cart" { assert b[3] != DEFAULT_BADGE[3]; }
    else if c == "favorite" { assert b[3] != DEFAULT_BADGE[3]; }
    else if c == "admin" { assert b[8] != DEFAULT_BADGE[8]; }
  }

  // ---------------------------------------------------------------- formatAction

  /** `word.charAt(0).toUpperCase() + word.slice(1)`. */
  function Capitalize(w: string): (r: string)
    ensures |r| == |w|
  {
    if w == "" then "" else [UpperChar(w[0])] + w[1..]
  }

  function CapitalizeAll(ws: seq<string>): (rs: seq<string>)
    ensures |rs| == |ws|
    ensures forall i :: 0 <= i < |ws| ==> rs[i] == Capitalize(ws[i])
  {
    seq(|ws|, i requires 0 <= i < |ws| => Capitalize(ws[i]))
  }

  /** `formatAction`: split on '_', capitalise each piece, join with spaces. */
  function FormatAction(action: string): string {
    Join(CapitalizeAll(Split(action, '_')), " ")
  }

  /**
   * The same result computed character by character: each '_' becomes a
   * space, a character that starts a piece is upper-cased (the first one
   * only when `start`), and every other character is kept.
   */
  function Charwise(s: string, start: bool): (r: string)
    ensures |r| == |s|
  {
    seq(|s|, i requires 0 <= i < |s| =>
      if s[i] == '_' then ' '
      else if (i == 0 && start) || (i > 0 && s[i - 1] == '_') then UpperChar(s[i])
      else s[i])
  }

  /** Join over the pieces, the first one capitalised only when `capFirst`. */
  function FormatPieces(parts: seq<string>, capFirst: bool): string
    requires |parts| >= 1
  {
    Join([if capFirst then Capitalize(parts[0]) else parts[0]] + CapitalizeAll(parts[1..]), " ")
  }

  lemma JoinCons(a: string, rest: seq<string>, sep: string)
    ensures Join([a] + rest, sep) == if rest == [] then a else a + sep + Join(rest, sep)
  {
    assert ([a] + rest)[1..] == rest;
  }

  /** The character-wise result of a non-empty string: its first character, then the rest. */
  lemma CharwiseCons(s: string, start: bool)
    requires s != ""
    ensures Charwise(s, start)
      == [if s[0] == '_' then ' ' else if start then UpperChar(s[0]) else s[0]] + Charwise(s[1..], s[0] == '_')
  {
    var cw, tl := Charwise(s, start), Charwise(s[1..], s[0] == '_');
    assert forall i :: 1 <= i < |s| ==> cw[i] == tl[i - 1];
  }

  /** A leading '_' contributes a space, and the piece after it starts capitalised. */
  lemma FormatPiecesUnderscore(r: seq<string>, start: bool)
    requires |r| >= 1
    ensures FormatPieces([""] + r, start) == " " + FormatPieces(r, true)
  {
    assert ([""] + r)[0] == "" && ([""] + r)[1..] == r;
    JoinCons("", CapitalizeAll(r), " ");
    assert [Capitalize(r[0])] + CapitalizeAll(r[1..]) == CapitalizeAll(r);
  }

  /** A leading ordinary character joins the first piece, capitalised only when `start`. */
  lemma FormatPiecesLetter(c: char, r: seq<string>, start: bool)
    requires |r| >= 1
    ensures FormatPieces([[c] + r[0]] + r[1..], start) == [if start then UpperChar(c) else c] + FormatPieces(r, false)
  {
    var first := [c] + r[0];
    var d := if start then UpperChar(c) else c;
    assert ([first] + r[1..])[1..] == r[1..];
    assert (if start then Capitalize(first) else first) == [d] + r[0];
    JoinCons([d] + r[0], CapitalizeAll(r[1..]), " ");
    JoinCons(r[0], CapitalizeAll(r[1..]), " ");
  }

  lemma {:induction false} FormatPiecesIsCharwise(s: string, start: bool)
    ensures FormatPieces(Split(s, '_'), start) == Charwise(s, start)
    decreases |s|
  {
    if s == "" {
      assert Split(s, '_') == [""];
    } else {
      var r := Split(s[1..], '_');
      FormatPiecesIsCharwise(s[1..], s[0] == '_');
      CharwiseCons(s, start);
      if s[0] == '_' {
        assert Split(s, '_') == [""] + r;
        FormatPiecesUnderscore(r, start);
      } else {
        assert Split(s, '_') == [[s[0]] + r[0]] + r[1..];
        FormatPiecesLetter(s[0], r, start);
      }
    }
  }

  /**
   * `formatAction` agrees with the character-by-character reference: it
   * keeps the length, turns each '_' into a space and upper-cases exactly
   * the first character of each piece.
   */
  lemma FormatActionIsCharwise(action: string)
    ensures FormatAction(action) == Charwise(action, true)
    ensures |FormatAction(action)| == |action|
  {
    var parts := Split(action, '_');
    FormatPiecesIsCharwise(action, true);
    assert [Capitalize(parts[0])] + CapitalizeAll(parts[1..]) == CapitalizeAll(parts);
  }

  // ---------------------------------------------------------------- filters and query

  datatype FilterKey = Category | Severity | StartDate | EndDate | UserId

  datatype Filters = Filters(category: string, severity: string, startDate: string, endDate: string, userId: string)

  const NO_FILTERS := Filters("", "", "", "", "")
  const PAGE_SIZE := 20

  function KeyName(k: FilterKey): string {
    match k
    case Category => "category"
    case Severity => "severity"
    case StartDate => "startDate"
    case EndDate => "endDate"
    case UserId => "userId"
  }

  function Get(f: Filters, k: FilterKey): string {
    match k
    case Category => f.category
    case Severity => f.severity
    case StartDate => f.startDate
    case EndDate => f.endDate
    case UserId => f.userId
  }

  function Set(f: Filters, k: FilterKey, v: string): (g: Filters)
    ensures Get(g, k) == v
    ensures forall k' :: k' != k ==> Get(g, k') == Get(f, k')
  {
    match k
    case Category => f.(category := v)
    case Severity => f.(severity := v)
    case StartDate => f.(startDate := v)
    case EndDate => f.(endDate := v)
    case UserId => f.(userId := v)
  }

  const KEY_ORDER := [Category, Severity, StartDate, EndDate, UserId]

  /** The parameters sent: page, limit, then each filter whose value is not '', in declaration order. */
  datatype Query = Query(page: int, limit: int, filters: seq<(string, string)>)

  function NonEmpty(f: Filters, keys: seq<FilterKey>): (ps: seq<(string, string)>)
    ensures forall i :: 0 <= i < |ps| ==> ps[i].1 != ""
    ensures forall k :: k in keys && Get(f, k) != "" ==> (KeyName(k), Get(f, k)) in ps
    ensures forall i :: 0 <= i < |ps| ==> exists k :: k in keys && ps[i] == (KeyName(k), Get(f, k))
  {
    if keys == [] then []
    else (if Get(f, keys[0]) != "" then [(KeyName(keys[0]), Get(f, keys[0]))] else []) + NonEmpty(f, keys[1..])
  }

  function LogQuery(page: int, f: Filters): Query {
    Query(page, PAGE_SIZE, NonEmpty(f, KEY_ORDER))
  }

  /** With no filter set, only the page and the limit are sent. */
  lemma NoFiltersNoParams(page: int)
    ensures LogQuery(page, NO_FILTERS).filters == []
  {
  }

  /** The page's filter state. */
  datatype PageState = PageState(page: int, filters: Filters)

  const INITIAL := PageState(1, NO_FILTERS)

  /** `handleFilterChange`: one filter changes and the page goes back to 1. */
  function FilterChange(s: PageState, k: FilterKey, v: string): PageState {
    PageState(1, Set(s.filters, k, v))
  }

  /** `clearFilters`. */
  function ClearFilters(s: PageState): PageState {
    PageState(1, NO_FILTERS)
  }

  /** A filter change sets that filter and returns to page 1, and clearing afterwards restores the initial state. */
  lemma ClearAfterChanges(s: PageState, k: FilterKey, v: string)
    ensures ClearFilters(FilterChange(s, k, v)) == INITIAL
    ensures FilterChange(s, k, v).page == 1
    ensures Get(FilterChange(s, k, v).filters, k) == v
  {
  }

  /** `data?.data?.pagination || { total: 0, totalPages: 1 }`. */
  datatype PaginationInfo = PaginationInfo(total: int, totalPages: int)

  function PaginationOrDefault(p: Option<PaginationInfo>): PaginationInfo {
    p.GetOr(PaginationInfo(0, 1))
  }

  function Previous(page: int): int { if page - 1 > 1 then page - 1 else 1 }
  function Next(page: int, totalPages: int): int { if page + 1 < totalPages then page + 1 else totalPages }

  /** Previous and Next keep the page within 1..totalPages and move it by at most one. */
  lemma PrevNextStayInRange(page: int, totalPages: int)
    requires 1 <= page <= totalPages
    ensures 1 <= Previous(page) <= totalPages && 1 <= Next(page, totalPages) <= totalPages
    ensures Previous(page) == (if page == 1 then 1 else page - 1)
    ensures Next(page, totalPages) == (if page == totalPages then totalPages else page + 1)
  {
  }

  /** Before the server answers, there are no logs and both buttons keep the list on page 1. */
  lemma MissingPaginationStaysOnPageOne()
    ensures PaginationOrDefault(None).total == 0
    ensures Previous(1) == 1 && Next(1, PaginationOrDefault(None).totalPages) == 1
  {
  }
}
