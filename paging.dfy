/**
 * Paging over a collection of people (the existing-people page): the paging data a page
 * shows, the current page read from the query string, and the slice of UUIDs on a page.
 * Page numbers are 0-based; `pageLength` is the page size.
 */
module Paging {
  import opened Common

  datatype Page = Page(pageNum: int, displayPageNum: int)

  /** The paging view-model; `start`, `end` and `total` are the three numbers of the paging text. */
  datatype PagingData = PagingData(
    url: string,
    queryString: string,
    showPreviousPage: bool,
    previousPage: int,
    showNextPage: bool,
    nextPage: int,
    start: int,
    end: int,
    total: nat,
    pages: seq<Page>)

  /**
   * The number of the last page: -1 for an empty collection, otherwise the page holding the
   * last item, so that every page up to it is non-empty.
   */
  function MaxPageNum(numThings: nat, pageLength: nat): (m: int)
    requires pageLength > 0
    ensures numThings == 0 ==> m == -1
    ensures numThings > 0 ==> 0 <= m && m * pageLength < numThings <= (m + 1) * pageLength
  {
    var q := numThings / pageLength;
    DivisionBounds(numThings, pageLength);
    Distribute(q, pageLength);
    if pageLength * q == numThings then q - 1 else q
  }

  /** The quotient's multiple is the largest one not above the dividend. */
  lemma DivisionBounds(n: nat, d: nat)
    requires d > 0
    ensures 0 <= n / d && (n / d) * d <= n < (n / d) * d + d
  {
  }

  lemma Distribute(q: int, len: int)
    ensures (q + 1) * len == q * len + len && (q - 1) * len == q * len - len
  {
  }

  /** The 1-based number of the first item shown, 0 for an empty collection. */
  function PageStart(numThings: nat, currentPage: int, pageLength: nat): int
  {
    if numThings == 0 then 0 else currentPage * pageLength + 1
  }

  /** The 1-based number of the last item shown, capped at the collection size. */
  function PageEnd(numThings: nat, currentPage: int, pageLength: nat): (e: int)
    ensures e <= numThings
    ensures e == numThings || e == currentPage * pageLength + pageLength
  {
    var e := currentPage * pageLength + pageLength;
    if e > numThings then numThings else e
  }

  /** The path of a URL: everything before its query string or fragment. */
  function Pathname(u: string): (r: string)
    ensures |r| <= |u| && r == u[..|r|]
    ensures forall i :: 0 <= i < |r| ==> r[i] != '?' && r[i] != '#'
    ensures |r| < |u| ==> u[|r|] == '?' || u[|r|] == '#'
  {
    if u == [] || u[0] == '?' || u[0] == '#' then [] else [u[0]] + Pathname(u[1..])
  }

  /** `_.omit(query, ['p'])`: the query parameters other than the page number, in order. */
  function OmitPage(query: seq<(string, string)>): (r: seq<(string, string)>)
    ensures forall i :: 0 <= i < |r| ==> r[i].0 != "p" && r[i] in query
    ensures forall i :: 0 <= i < |query| && query[i].0 != "p" ==> query[i] in r
  {
    if query == [] then []
    else if query[0].0 == "p" then OmitPage(query[1..])
    else [query[0]] + OmitPage(query[1..])
  }

  /** The characters querystring.escape leaves as they are: letters, digits and - . _ ~ ! ' ( ) *. */
  predicate Unreserved(c: char)
  {
    'a' <= c <= 'z' || 'A' <= c <= 'Z' || '0' <= c <= '9' || c in "-._~!'()*"
  }

  /** An upper-case hexadecimal digit. */
  function HexDigit(d: nat): char
    requires d < 16
  {
    if d < 10 then ('0' as int + d) as char else ('A' as int + d - 10) as char
  }

  predicate IsHex(c: char)
  {
    '0' <= c <= '9' || 'A' <= c <= 'F' || 'a' <= c <= 'f'
  }

  function HexValue(c: char): (r: nat)
    requires IsHex(c)
    ensures r < 16
  {
    if c <= '9' then c as int - '0' as int
    else if c <= 'F' then c as int - 'A' as int + 10
    else c as int - 'a' as int + 10
  }

  /**
   * querystring.escape of one character: an ASCII character that is not unreserved becomes '%'
   * and its code in two upper-case hexadecimal digits.
   */
  function EscapeChar(c: char): (r: string)
    ensures forall k :: 0 <= k < |r| ==> r[k] !in "&=+"
  {
    if Unreserved(c) || c as int >= 128 then [c]
    else ['%', HexDigit(c as int / 16), HexDigit(c as int % 16)]
  }

  /** querystring.escape: each character escaped in turn; no '&', '=' or '+' is left. */
  function Escape(s: string): (r: string)
    ensures forall k :: 0 <= k < |r| ==> r[k] !in "&=+"
  {
    if s == [] then [] else EscapeChar(s[0]) + Escape(s[1..])
  }

  /** querystring.unescape after parse's '+' to space: '%' and two hexadecimal digits give back a character. */
  function Unescape(s: string): string
  {
    if s == [] then []
    else if s[0] == '%' && |s| >= 3 && IsHex(s[1]) && IsHex(s[2]) then
      [(HexValue(s[1]) * 16 + HexValue(s[2])) as char] + Unescape(s[3..])
    else if s[0] == '+' then [' '] + Unescape(s[1..])
    else [s[0]] + Unescape(s[1..])
  }

  /** Unescaping reads one escaped character back and goes on with the rest. */
  lemma UnescapeEscapeChar(c: char, rest: string)
    ensures Unescape(EscapeChar(c) + rest) == [c] + Unescape(rest)
  {
    var e := EscapeChar(c) + rest;
    if Unreserved(c) || c as int >= 128 {
      assert e[0] == c && e[1..] == rest;
    } else {
      var n := c as int;
      assert HexValue(HexDigit(n / 16)) == n / 16 && HexValue(HexDigit(n % 16)) == n % 16;
      assert e[3..] == rest;
      assert ((n / 16) * 16 + n % 16) as char == c;
    }
  }

  /** Unescaping what was escaped gives the string back. */
  lemma {:induction false} UnescapeEscape(s: string)
    ensures Unescape(Escape(s)) == s
  {
    if s != [] {
      UnescapeEscape(s[1..]);
      UnescapeEscapeChar(s[0], Escape(s[1..]));
      assert s == [s[0]] + s[1..];
    }
  }

  /** One parameter as `key=value`, both escaped. */
  function Pair(p: (string, string)): string
  {
    Escape(p.0) + "=" + Escape(p.1)
  }

  /**
   * `querystring.stringify` of a list of parameters: each escaped parameter, joined with '&';
   * empty exactly when there are no parameters.
   */
  function Stringify(query: seq<(string, string)>): (s: string)
    ensures s == [] <==> query == []
  {
    if query == [] then []
    else if |query| == 1 then Pair(query[0])
    else Pair(query[0]) + "&" + Stringify(query[1..])
  }

  /** querystring.parse of one `key=value` piece: split at its first '=', a piece without one has value ''. */
  function ParsePair(piece: string): (string, string)
  {
    var i := IndexOf(piece, "=");
    if i == -1 then (Unescape(piece), "") else (Unescape(piece[..i]), Unescape(piece[i + 1..]))
  }

  /** querystring.parse of a query string into its parameters, in order, without its 1000-key limit. */
  function Parse(s: string): seq<(string, string)>
  {
    if s == [] then [] else var pieces := Split(s, "&"); seq(|pieces|, i requires 0 <= i < |pieces| => ParsePair(pieces[i]))
  }

  lemma ParsePairOf(p: (string, string))
    ensures ParsePair(Pair(p)) == p
  {
    var k := Escape(p.0);
    FirstOccurrence(k, '=', Escape(p.1));
    assert Pair(p) == k + ['='] + Escape(p.1);
    assert Pair(p)[..|k|] == k && Pair(p)[|k| + 1..] == Escape(p.1);
    UnescapeEscape(p.0);
    UnescapeEscape(p.1);
  }

  /** The escaped parameters joined with '&' are the query string. */
  lemma {:induction false} StringifyJoins(query: seq<(string, string)>)
    requires query != []
    ensures Stringify(query) == Join(seq(|query|, i requires 0 <= i < |query| => Pair(query[i])), "&")
  {
    var parts := seq(|query|, i requires 0 <= i < |query| => Pair(query[i]));
    if |query| > 1 {
      StringifyJoins(query[1..]);
      assert parts[1..] == seq(|query| - 1, i requires 0 <= i < |query| - 1 => Pair(query[1..][i]));
    }
  }

  /** Reading a stringified query gives back the same parameters in the same order. */
  lemma StringifyRoundTrip(query: seq<(string, string)>)
    ensures Parse(Stringify(query)) == query
  {
    if query != [] {
      var parts := seq(|query|, i requires 0 <= i < |query| => Pair(query[i]));
      StringifyJoins(query);
      forall k | 0 <= k < |parts| ensures !Includes(parts[k], "&") {
        NoChar(parts[k], '&');
      }
      SplitJoin(parts, "&");
      forall i | 0 <= i < |query| ensures ParsePair(parts[i]) == query[i] {
        ParsePairOf(query[i]);
      }
    }
  }

  /** The query string to put in front of a page link: the other parameters and '&', or nothing. */
  function PagelessQueryString(query: seq<(string, string)>): (s: string)
    ensures s == [] <==> OmitPage(query) == []
    ensures s != [] ==> s[|s| - 1] == '&'
  {
    var q := Stringify(OmitPage(query));
    if q != [] then q + "&" else []
  }

  /**
   * getPagingData. `showPreviousPage` is true on the first page and `showNextPage` on the last
   * (the names read the other way round: the flags mark where the link is not wanted); the
   * previous and next page numbers are clamped at the first and last page; `pages` lists every
   * page with its 1-based display number.
   */
  method GetPagingData(numThings: nat, currentPage: int, pageLength: nat, originalUrl: string,
                       query: seq<(string, string)>) returns (data: PagingData)
    requires pageLength > 0
    ensures data.url == Pathname(originalUrl)
    ensures data.queryString == PagelessQueryString(query)
    ensures data.showPreviousPage <==> currentPage == 0
    ensures data.previousPage == if currentPage == 0 then 0 else currentPage - 1
    ensures data.showNextPage <==> currentPage == MaxPageNum(numThings, pageLength)
    ensures data.nextPage == if currentPage == MaxPageNum(numThings, pageLength) then currentPage else currentPage + 1
    ensures data.start == PageStart(numThings, currentPage, pageLength)
    ensures data.end == PageEnd(numThings, currentPage, pageLength)
    ensures data.total == numThings
    ensures |data.pages| == MaxPageNum(numThings, pageLength) + 1
    ensures forall k :: 0 <= k < |data.pages| ==> data.pages[k] == Page(k, k + 1)
  {
    var maxPageNum := numThings / pageLength;
    if pageLength * maxPageNum == numThings {
      maxPageNum := maxPageNum - 1;
    }
    assert maxPageNum == MaxPageNum(numThings, pageLength);
    var showPreviousPage := currentPage == 0;
    var showNextPage := currentPage == maxPageNum;
    var previousPage := if currentPage == 0 then 0 else currentPage - 1;
    var nextPage := if currentPage == maxPageNum then maxPageNum else currentPage + 1;
    var start := if numThings == 0 then 0 else currentPage * pageLength + 1;
    var end := currentPage * pageLength + pageLength;
    if end > numThings {
      end := numThings;
    }
    var pages: seq<Page> := [];
    var i := 0;
    while i <= maxPageNum
      invariant 0 <= i <= maxPageNum + 1
      invariant |pages| == i
      invariant forall k :: 0 <= k < i ==> pages[k] == Page(k, k + 1)
    {
      pages := pages + [Page(i, i + 1)];
      i := i + 1;
    }
    data := PagingData(Pathname(originalUrl), PagelessQueryString(query), showPreviousPage, previousPage,
                       showNextPage, nextPage, start, end, numThings, pages);
  }

  /**
   * On any page from the first to the last, the previous and next links stay within the pages,
   * and the items shown are a non-empty run of at most one page length.
   */
  lemma PageWithinBounds(numThings: nat, currentPage: int, pageLength: nat)
    requires pageLength > 0 && 0 <= currentPage <= MaxPageNum(numThings, pageLength)
    ensures var m := MaxPageNum(numThings, pageLength);
      var previous := if currentPage == 0 then 0 else currentPage - 1;
      var next := if currentPage == m then currentPage else currentPage + 1;
      0 <= previous <= currentPage <= next <= m
    ensures var s := PageStart(numThings, currentPage, pageLength);
      var e := PageEnd(numThings, currentPage, pageLength);
      1 <= s <= e <= numThings && e - s + 1 <= pageLength
  {
    var m := MaxPageNum(numThings, pageLength);
    assert currentPage * pageLength <= m * pageLength by {
      MultiplyMonotone(currentPage, m, pageLength);
    }
  }

  lemma MultiplyMonotone(a: int, b: int, c: nat)
    requires a <= b
    ensures a * c <= b * c
  {
  }

  /**
   * getCurrentPage: 0 when the `p` parameter is missing or empty or not a number, otherwise the
   * floor of the number. The conversion of the text to a number (`Number`) is a parameter;
   * None stands for NaN.
   */
  function CurrentPage(p: Option<string>, toNumber: string -> Option<real>): (page: int)
    ensures !Truthy(p) ==> page == 0
    ensures Truthy(p) && toNumber(p.value).None? ==> page == 0
    ensures Truthy(p) && toNumber(p.value).Some? ==>
              page as real <= toNumber(p.value).value < page as real + 1.0
  {
    if !Truthy(p) then 0
    else match toNumber(p.value)
      case None => 0
      case Some(x) => x.Floor
  }

  /**
   * `_.slice(s, start, end)`: negative bounds count from the end, bounds past the end are
   * capped, and crossed bounds give nothing.
   */
  function LodashSlice<T>(s: seq<T>, start: int, end: int): (r: seq<T>)
    ensures |r| <= |s|
  {
    var n := |s|;
    if n == 0 then []
    else
      var b := if start < 0 then (if -start > n then 0 else n + start) else start;
      var e0 := if end > n then n else end;
      var e := if e0 < 0 then e0 + n else e0;
      if b >= e then [] else s[b..e]
  }

  /** getUUIDSForCurrentPage: the slice of one page length starting at the page's first item. */
  function UuidsForPage(uuids: seq<string>, currentPage: int, pageLength: nat): seq<string>
  {
    LodashSlice(uuids, currentPage * pageLength, currentPage * pageLength + pageLength)
  }

  function Min(a: int, b: int): int
  {
    if a <= b then a else b
  }

  /** On a page numbered 0 or more, the UUIDs are the page's window of the list, cut at its end. */
  lemma UuidsForPageWindow(uuids: seq<string>, currentPage: nat, pageLength: nat)
    ensures var n := |uuids|;
      UuidsForPage(uuids, currentPage, pageLength)
        == uuids[Min(currentPage * pageLength, n)..Min(currentPage * pageLength + pageLength, n)]
  {
  }

  /**
   * A negative page below -1 (the query string is not checked for sign) counts from the end of
   * the list: page -k shows the k-th page length back from the end.
   */
  lemma NegativePageCountsFromEnd(uuids: seq<string>, currentPage: int, pageLength: nat)
    requires currentPage < -1 && -currentPage * pageLength <= |uuids|
    ensures var n := |uuids|;
      UuidsForPage(uuids, currentPage, pageLength)
        == uuids[n + currentPage * pageLength..n + currentPage * pageLength + pageLength]
  {
    assert currentPage * pageLength + pageLength <= 0 by {
      MultiplyMonotone(currentPage, -1, pageLength);
    }
  }

  /**
   * The paging text agrees with the page of UUIDs: on a page from the first to the last of a
   * non-empty list, the UUIDs shown are exactly items `start` to `end` (1-based).
   */
  lemma PagingTextMatchesUuids(uuids: seq<string>, currentPage: nat, pageLength: nat)
    requires pageLength > 0 && currentPage <= MaxPageNum(|uuids|, pageLength)
    ensures var s := PageStart(|uuids|, currentPage, pageLength);
      var e := PageEnd(|uuids|, currentPage, pageLength);
      1 <= s <= e && UuidsForPage(uuids, currentPage, pageLength) == uuids[s - 1..e]
  {
    PageWithinBounds(|uuids|, currentPage, pageLength);
    UuidsForPageWindow(uuids, currentPage, pageLength);
  }

  /** The pages 0 to k-1, one after the other. */
  function PagesUpTo(uuids: seq<string>, k: nat, pageLength: nat): seq<string>
  {
    if k == 0 then [] else PagesUpTo(uuids, k - 1, pageLength) + UuidsForPage(uuids, k - 1, pageLength)
  }

  /** The first k pages, read in order, are the first k page lengths of the list. */
  lemma {:induction false} PagesUpToPrefix(uuids: seq<string>, k: nat, pageLength: nat)
    ensures PagesUpTo(uuids, k, pageLength) == uuids[..Min(k * pageLength, |uuids|)]
  {
    if k > 0 {
      PagesUpToPrefix(uuids, k - 1, pageLength);
      UuidsForPageWindow(uuids, k - 1, pageLength);
      PageOffsets(k, pageLength);
      JoinPrefix(uuids, PagesUpTo(uuids, k - 1, pageLength), UuidsForPage(uuids, k - 1, pageLength),
                 (k - 1) * pageLength, pageLength);
    }
  }

  /** Page k-1 starts one page length before page k. */
  lemma PageOffsets(k: nat, len: nat)
    requires k > 0
    ensures 0 <= (k - 1) * len && (k - 1) * len + len == k * len
  {
  }

  /** A prefix cut at p, followed by the window from p of length len, is the prefix cut at p + len. */
  lemma JoinPrefix(uuids: seq<string>, prev: seq<string>, page: seq<string>, p: int, len: nat)
    requires 0 <= p
    requires prev == uuids[..Min(p, |uuids|)] && page == uuids[Min(p, |uuids|)..Min(p + len, |uuids|)]
    ensures prev + page == uuids[..Min(p + len, |uuids|)]
  {
  }

  /** Every page listed in the paging data, read in order, gives back the whole list of UUIDs. */
  lemma PagesCoverUuids(uuids: seq<string>, pageLength: nat)
    requires pageLength > 0
    ensures PagesUpTo(uuids, MaxPageNum(|uuids|, pageLength) + 1, pageLength) == uuids
  {
    var m := MaxPageNum(|uuids|, pageLength);
    PagesUpToPrefix(uuids, m + 1, pageLength);
    assert |uuids| <= (m + 1) * pageLength;
  }
}
