/**
 * Listing all customers (`GET /api/customers/list`): `getAllStripeCustomers`
 * asks the provider for pages of at most 100 customers, each starting after
 * the last customer received, and accumulates them until the provider has no
 * more, a page comes back empty, or `maxCustomers` customers are in hand.
 *
 * `stripe.customers.list` is the oracle `list`; the 100 ms pause between
 * requests is left out.
 */
module CustomersList {
  import opened Common
  import opened Text

  /** A customer record; only its id matters to the loop, the rest is carried along. */
  datatype Customer = Customer(id: string, email: Option<string>, name: Option<string>)

  /** The parameters of one `stripe.customers.list` call. */
  datatype ListParams = ListParams(limit: nat, startingAfter: Option<string>)

  /** One page: `data` and `has_more`. */
  datatype Page = Page(data: seq<Customer>, hasMore: bool)

  /** The outcome of `getAllStripeCustomers`: the customers, or the wrapped error it rethrows. */
  datatype Fetched = Fetched(customers: seq<Customer>) | FetchFailed(error: string)

  /** The page size of every request: the provider's maximum. */
  const PAGE_LIMIT: nat := 100

  /** The `maxCustomers` used when the query does not give one. */
  const DEFAULT_MAX_CUSTOMERS: int := 1000

  const FETCH_ERROR_PREFIX := "Could not fetch all customers: "

  /**
   * `count < max` in JavaScript, where `max` is a number or NaN
   * (`None`): every comparison with NaN is false.
   */
  predicate Below(count: nat, max: Option<int>)
  {
    max.Some? && count < max.value
  }

  /** The customers of `pages`, in order, each page whole. */
  function Flatten(pages: seq<Page>): (r: seq<Customer>)
    ensures pages == [] ==> r == []
  {
    if pages == [] then [] else Flatten(pages[..|pages| - 1]) + pages[|pages| - 1].data
  }

  /** The last customer of a non-empty page. */
  function LastId(page: Page): string
    requires page.data != []
  {
    page.data[|page.data| - 1].id
  }

  /**
   * The cursor of the request after a page whose last id is `id`:
   * `starting_after` is spread into the parameters only when the id is truthy.
   */
  function CursorAfter(id: string): (c: Option<string>)
    ensures c.Some? <==> id != ""
    ensures c.Some? ==> c.value == id
  {
    if id != "" then Some(id) else None
  }

  /**
   * How the requests issued so far and the pages received for them relate:
   * every request asks for 100 customers; the first has no cursor, each later
   * one starts after the last id of the page before it, which was non-empty
   * and said `has_more`; each page is what the provider returned for its
   * request; a request is issued only while fewer than `maxCustomers`
   * customers are in hand. The last request may still be unanswered.
   */
  ghost predicate Requested(requests: seq<ListParams>, pages: seq<Page>, maxCustomers: Option<int>,
                            list: ListParams -> Call<Page>)
  {
    && |pages| <= |requests| <= |pages| + 1
    && (forall k | 0 <= k < |pages| :: list(requests[k]) == Returned(pages[k]))
    && Cursors(requests, pages)
    && WithRoom(requests, pages, maxCustomers)
  }

  /**
   * Every request asks for 100 customers; the first has no cursor, each later
   * one starts after the last id of the page before it, which was non-empty
   * and said `has_more`.
   */
  ghost predicate Cursors(requests: seq<ListParams>, pages: seq<Page>)
    requires |requests| <= |pages| + 1
  {
    && (forall k | 0 <= k < |requests| :: requests[k].limit == PAGE_LIMIT)
    && (|requests| > 0 ==> requests[0].startingAfter == None)
    && (forall k | 0 <= k < |requests| - 1 ::
          pages[k].hasMore && pages[k].data != [] && requests[k + 1].startingAfter == CursorAfter(LastId(pages[k])))
  }

  /** Each request was issued while fewer than `maxCustomers` customers were in hand. */
  ghost predicate WithRoom(requests: seq<ListParams>, pages: seq<Page>, maxCustomers: Option<int>)
    requires |requests| <= |pages| + 1
  {
    forall k | 0 <= k < |requests| :: Below(|Flatten(pages[..k])|, maxCustomers)
  }

  /** Issuing the next request as the loop does keeps `Requested`. */
  lemma Request(requests: seq<ListParams>, pages: seq<Page>, maxCustomers: Option<int>,
                list: ListParams -> Call<Page>, cursor: Option<string>)
    requires Requested(requests, pages, maxCustomers, list) && |requests| == |pages|
    requires pages == [] ==> cursor == None
    requires pages != [] ==> var last := pages[|pages| - 1];
      last.hasMore && last.data != [] && cursor == CursorAfter(LastId(last))
    requires Below(|Flatten(pages)|, maxCustomers)
    ensures Requested(requests + [ListParams(PAGE_LIMIT, cursor)], pages, maxCustomers, list)
  {
    var next := requests + [ListParams(PAGE_LIMIT, cursor)];
    NextCursor(requests, pages, cursor);
    assert WithRoom(next, pages, maxCustomers) by {
      assert pages[..|pages|] == pages;
      assert forall k | 0 <= k < |requests| :: next[k] == requests[k];
    }
    assert forall k | 0 <= k < |pages| :: next[k] == requests[k];
  }

  lemma NextCursor(requests: seq<ListParams>, pages: seq<Page>, cursor: Option<string>)
    requires |requests| == |pages| && Cursors(requests, pages)
    requires pages == [] ==> cursor == None
    requires pages != [] ==> var last := pages[|pages| - 1];
      last.hasMore && last.data != [] && cursor == CursorAfter(LastId(last))
    ensures Cursors(requests + [ListParams(PAGE_LIMIT, cursor)], pages)
  {
    var next := requests + [ListParams(PAGE_LIMIT, cursor)];
    forall k | 0 <= k < |next| - 1
      ensures pages[k].hasMore && pages[k].data != []
      ensures next[k + 1].startingAfter == CursorAfter(LastId(pages[k]))
    {
      if k + 1 < |requests| {
        assert next[k + 1] == requests[k + 1];
      }
    }
    assert forall k | 0 <= k < |requests| :: next[k] == requests[k];
  }

  /** Recording the page returned for the last request keeps `Requested`. */
  lemma Receive(requests: seq<ListParams>, pages: seq<Page>, maxCustomers: Option<int>,
                list: ListParams -> Call<Page>, page: Page)
    requires Requested(requests, pages, maxCustomers, list) && |requests| == |pages| + 1
    requires list(requests[|pages|]) == Returned(page)
    ensures Requested(requests, pages + [page], maxCustomers, list)
    ensures Flatten(pages + [page]) == Flatten(pages) + page.data
  {
    var more := pages + [page];
    FlattenPrefixes(pages, page);
    assert forall k | 0 <= k < |pages| :: more[k] == pages[k];
    ReceiveCursors(requests, pages, page);
    ReceiveRoom(requests, pages, maxCustomers, page);
  }

  lemma ReceiveCursors(requests: seq<ListParams>, pages: seq<Page>, page: Page)
    requires |requests| == |pages| + 1 && Cursors(requests, pages)
    ensures Cursors(requests, pages + [page])
  {
    var more := pages + [page];
    assert forall j | 0 <= j < |pages| :: more[j] == pages[j];
  }

  lemma ReceiveRoom(requests: seq<ListParams>, pages: seq<Page>, maxCustomers: Option<int>, page: Page)
    requires |requests| == |pages| + 1 && WithRoom(requests, pages, maxCustomers)
    ensures WithRoom(requests, pages + [page], maxCustomers)
  {
    var more := pages + [page];
    forall k | 0 <= k < |requests|
      ensures Below(|Flatten(more[..k])|, maxCustomers)
    {
      assert more[..k] == pages[..k];
    }
  }

  /**
   * `getAllStripeCustomers(maxCustomers)`. Besides the result it returns, as
   * ghost values, the requests it issued and the pages it received. They are
   * `Requested`; the result is the pages concatenated in order, and the loop
   * stopped because the last page said no more, was empty, or brought the
   * count to `maxCustomers` or beyond (no request at all when `maxCustomers`
   * is not positive or NaN); or the last request threw and the result is the
   * wrapped error. `Overshoot` and `RequestCount` draw the consequences for
   * the size of the result and the number of requests.
   */
  method GetAllStripeCustomers(maxCustomers: Option<int>, list: ListParams -> Call<Page>)
    returns (r: Fetched, ghost requests: seq<ListParams>, ghost pages: seq<Page>)
    ensures Requested(requests, pages, maxCustomers, list)
    ensures r.FetchFailed? <==> |requests| == |pages| + 1
    ensures r.FetchFailed? ==>
      list(requests[|pages|]).Threw? && r.error == FETCH_ERROR_PREFIX + list(requests[|pages|]).message
    ensures r.Fetched? ==> r.customers == Flatten(pages)
    ensures r.Fetched? && pages == [] ==> !Below(0, maxCustomers)
    ensures r.Fetched? && pages != [] ==>
      var last := pages[|pages| - 1];
      !last.hasMore || last.data == [] || !Below(|r.customers|, maxCustomers)
  {
    var allCustomers: seq<Customer> := [];
    var hasMore := true;
    var lastCustomerId: Option<string> := None;
    requests, pages := [], [];
    while hasMore && Below(|allCustomers|, maxCustomers)
      invariant Requested(requests, pages, maxCustomers, list) && |requests| == |pages|
      invariant allCustomers == Flatten(pages)
      invariant pages == [] ==> hasMore && lastCustomerId == None
      invariant pages != [] ==> pages[|pages| - 1].data != [] && hasMore == pages[|pages| - 1].hasMore
                                && lastCustomerId == Some(LastId(pages[|pages| - 1]))
      decreases if maxCustomers.Some? then maxCustomers.value - |allCustomers| else 0
    {
      var params := ListParams(PAGE_LIMIT, if Truthy(lastCustomerId) then lastCustomerId else None);
      Request(requests, pages, maxCustomers, list, params.startingAfter);
      requests := requests + [params];
      var response := list(params);
      if response.Threw? {
        return FetchFailed(FETCH_ERROR_PREFIX + response.message), requests, pages;
      }
      var page := response.value;
      Receive(requests, pages, maxCustomers, list, page);
      pages := pages + [page];
      allCustomers := allCustomers + page.data;
      hasMore := page.hasMore;
      if |page.data| > 0 {
        lastCustomerId := Some(page.data[|page.data| - 1].id);
      } else {
        break;
      }
    }
    r := Fetched(allCustomers);
  }

  /** With no room below the maximum (`maxCustomers <= 0`, or NaN) no request is issued. */
  lemma NoRoomNoRequest(requests: seq<ListParams>, pages: seq<Page>, maxCustomers: Option<int>,
                        list: ListParams -> Call<Page>)
    requires Requested(requests, pages, maxCustomers, list) && !Below(0, maxCustomers)
    ensures requests == [] && pages == [] && Flatten(pages) == []
  {
    assert pages[..0] == [];
  }

  /**
   * Nothing is cut off, and little is over-fetched: when every page holds at
   * most 100 customers, the customers fetched number fewer than
   * `maxCustomers + 100`, since a request is issued only below the maximum.
   */
  lemma Overshoot(requests: seq<ListParams>, pages: seq<Page>, maxCustomers: int,
                                     list: ListParams -> Call<Page>)
    requires Requested(requests, pages, Some(maxCustomers), list) && |requests| == |pages|
    requires maxCustomers > 0
    requires forall k | 0 <= k < |pages| :: |pages[k].data| <= PAGE_LIMIT
    ensures |Flatten(pages)| < maxCustomers + PAGE_LIMIT
  {
    if pages != [] {
      var n := |pages| - 1;
      assert Below(|Flatten(pages[..n])|, Some(maxCustomers));
      assert pages[..|pages| - 1] == pages[..n];
      assert |pages[n].data| <= PAGE_LIMIT;
    }
  }

  /** Each of `k` full pages contributes 100 customers. */
  lemma {:induction false} FullPages(pages: seq<Page>)
    requires forall k | 0 <= k < |pages| :: |pages[k].data| == PAGE_LIMIT
    ensures |Flatten(pages)| == PAGE_LIMIT * |pages|
  {
    if pages != [] {
      FullPages(pages[..|pages| - 1]);
    }
  }

  /**
   * When the provider always has more and always fills the page, the loop
   * issues exactly ceil(maxCustomers / 100) requests and stops because it
   * reached the maximum.
   */
  lemma RequestCount(requests: seq<ListParams>, pages: seq<Page>, maxCustomers: int,
                                        list: ListParams -> Call<Page>)
    requires Requested(requests, pages, Some(maxCustomers), list) && |requests| == |pages|
    requires maxCustomers > 0 && |Flatten(pages)| >= maxCustomers
    requires forall k | 0 <= k < |pages| :: |pages[k].data| == PAGE_LIMIT
    ensures |requests| == (maxCustomers + PAGE_LIMIT - 1) / PAGE_LIMIT
  {
    var n := |pages|;
    FullPages(pages);
    assert n > 0;
    assert Below(|Flatten(pages[..n - 1])|, Some(maxCustomers));
    var earlier := pages[..n - 1];
    assert forall k | 0 <= k < |earlier| :: |earlier[k].data| == PAGE_LIMIT;
    FullPages(earlier);
    assert 100 * (n - 1) < maxCustomers <= 100 * n;
  }

  /** Appending a page leaves the customers of every earlier prefix unchanged. */
  lemma FlattenPrefixes(pages: seq<Page>, page: Page)
    ensures Flatten(pages + [page]) == Flatten(pages) + page.data
    ensures forall k | 0 <= k <= |pages| :: (pages + [page])[..k] == pages[..k]
  {
    assert (pages + [page])[..|pages|] == pages;
  }

  /**
   * `parseInt(s, 10)`: skip leading white space, read an optional sign and
   * the longest run of decimal digits; NaN (`None`) when there are none.
   */
  function ParseInt(s: string): (r: Option<int>)
    ensures r.None? <==> !StartsNumber(SkipSpace(s))
  {
    SignedNaN(SkipSpace(s));
    ParseSigned(SkipSpace(s))
  }

  /** `parseInt` after the white space: an optional sign, then the digit run. */
  function ParseSigned(t: string): (r: Option<int>)
  {
    if t != [] && t[0] == '-' then
      match ParseRun(t[1..])
      case None => None
      case Some(n) => Some(-n)
    else if t != [] && t[0] == '+' then ParseRun(t[1..])
    else ParseRun(t)
  }

  /** The value of the leading run of digits; NaN when there is none. */
  function ParseRun(u: string): (r: Option<int>)
  {
    var digits := DigitPrefix(u);
    if digits == [] then None else Some(DigitsValue(digits))
  }

  /**
   * The white-space and line-terminator characters `parseInt` skips: tab,
   * line feed, vertical tab, form feed, carriage return, space, no-break
   * space, the byte order mark, and the other space separators and line and
   * paragraph separators of Unicode.
   */
  const SPACES: set<char> := {
    '\t', '\n', '\U{000B}', '\U{000C}', '\r', ' ', '\U{00A0}', '\U{FEFF}', '\U{1680}',
    '\U{2000}', '\U{2001}', '\U{2002}', '\U{2003}', '\U{2004}', '\U{2005}', '\U{2006}',
    '\U{2007}', '\U{2008}', '\U{2009}', '\U{200A}',
    '\U{2028}', '\U{2029}', '\U{202F}', '\U{205F}', '\U{3000}'}

  predicate IsSpace(c: char)
  {
    c in SPACES
  }

  function SkipSpace(s: string): (r: string)
    ensures r == [] || !IsSpace(r[0])
    ensures |r| <= |s| && r == s[|s| - |r|..]
  {
    if s != [] && IsSpace(s[0]) then SkipSpace(s[1..]) else s
  }

  predicate IsDigit(c: char)
  {
    '0' <= c <= '9'
  }

  /** The longest prefix of decimal digits. */
  function DigitPrefix(s: string): (r: string)
    ensures |r| <= |s| && r == s[..|r|]
    ensures forall i | 0 <= i < |r| :: IsDigit(r[i])
    ensures |r| < |s| ==> !IsDigit(s[|r|])
  {
    if s != [] && IsDigit(s[0]) then [s[0]] + DigitPrefix(s[1..]) else []
  }

  function DigitValue(c: char): (d: nat)
    requires IsDigit(c)
    ensures d < 10
  {
    c as int - '0' as int
  }

  /** The number a run of decimal digits denotes. */
  function DigitsValue(digits: string): (n: nat)
    requires forall i | 0 <= i < |digits| :: IsDigit(digits[i])
  {
    if digits == [] then 0
    else 10 * DigitsValue(digits[..|digits| - 1]) + DigitValue(digits[|digits| - 1])
  }

  /** The decimal text of a natural number, as `String(n)`. */
  function Decimal(n: nat): (s: string)
    ensures s != [] && forall i | 0 <= i < |s| :: IsDigit(s[i])
  {
    var last := [(('0' as int) + n % 10) as char];
    if n < 10 then last else Decimal(n / 10) + last
  }

  /** `parseInt` reads back the decimal text of any natural number. */
  lemma ParseDecimal(n: nat)
    ensures ParseInt(Decimal(n)) == Some(n)
  {
    var s := Decimal(n);
    DigitNotSpace(s[0]);
    assert SkipSpace(s) == s;
    UnsignedValue(s);
    RunValue(s, []);
    assert s + [] == s;
    DecimalValue(n);
  }

  /** Every character of `ws` is white space `parseInt` skips. */
  predicate AllSpace(ws: string)
  {
    ws == [] || (IsSpace(ws[0]) && AllSpace(ws[1..]))
  }

  /** `t` begins with a digit, or with a sign followed by a digit. */
  predicate StartsNumber(t: string)
  {
    (t != [] && IsDigit(t[0])) || (|t| > 1 && (t[0] == '-' || t[0] == '+') && IsDigit(t[1]))
  }

  /**
   * `parseInt` gives NaN exactly when, after the leading white space, the
   * text starts neither with a digit nor with a sign and a digit.
   */
  lemma ParseIntNaN(ws: string, rest: string)
    requires AllSpace(ws) && (rest == [] || !IsSpace(rest[0]))
    ensures ParseInt(ws + rest).None? <==> !StartsNumber(rest)
  {
    AfterSpace(ws, rest);
    SignedNaN(rest);
  }

  /** After the white space: NaN exactly when no digit follows an optional sign. */
  lemma SignedNaN(t: string)
    ensures ParseSigned(t).None? <==> !StartsNumber(t)
  {
    if t != [] && (t[0] == '-' || t[0] == '+') {
      RunNaN(t[1..]);
    } else {
      RunNaN(t);
    }
  }

  /** A digit run is missing exactly when the text does not start with a digit. */
  lemma RunNaN(u: string)
    ensures ParseRun(u).None? <==> u == [] || !IsDigit(u[0])
  {
    assert DigitPrefix(u) != [] <==> u != [] && IsDigit(u[0]);
  }

  /**
   * After leading white space and an optional sign, `parseInt` reads the
   * text that follows, when it starts with a digit, as its digit run
   * (`RunValue`): the result is the run's value, negated after a minus sign.
   */
  lemma ParseIntValue(ws: string, sign: string, u: string, n: int)
    requires AllSpace(ws)
    requires sign == "" || sign == "-" || sign == "+"
    requires u != [] && IsDigit(u[0]) && ParseRun(u) == Some(n)
    ensures ParseInt(ws + (sign + u)) == Some(if sign == "-" then -n else n)
  {
    SignedStart(sign, u);
    AfterSpace(ws, sign + u);
    SignedValue(sign, u, n);
  }

  /** `parseInt` of white space and then other text reads that text. */
  lemma AfterSpace(ws: string, t: string)
    requires AllSpace(ws) && (t == [] || !IsSpace(t[0]))
    ensures ParseInt(ws + t) == ParseSigned(t)
  {
    SkipSpaces(ws, t);
  }

  /** A sign or a digit is not white space. */
  lemma SignedStart(sign: string, u: string)
    requires sign == "" || sign == "-" || sign == "+"
    requires u != [] && IsDigit(u[0])
    ensures !IsSpace((sign + u)[0])
  {
    DigitNotSpace(u[0]);
    if sign == "" {
      assert (sign + u)[0] == u[0];
    } else {
      assert (sign + u)[0] == sign[0];
    }
  }

  /** After the white space: the digit run after an optional sign, negated after '-'. */
  lemma SignedValue(sign: string, u: string, n: int)
    requires sign == "" || sign == "-" || sign == "+"
    requires u != [] && IsDigit(u[0]) && ParseRun(u) == Some(n)
    ensures ParseSigned(sign + u) == Some(if sign == "-" then -n else n)
  {
    if sign == "" {
      assert sign + u == u;
      UnsignedValue(u);
    } else {
      assert sign == [sign[0]];
      SignValue(sign[0], u);
    }
  }

  /** `parseInt`'s digit run: a run of digits ended by a non-digit is read as the number it denotes. */
  lemma RunValue(digits: string, rest: string)
    requires digits != [] && forall i | 0 <= i < |digits| :: IsDigit(digits[i])
    requires rest == [] || !IsDigit(rest[0])
    ensures ParseRun(digits + rest) == Some(DigitsValue(digits))
  {
    DigitRun(digits, rest);
  }

  /** Text that starts with a digit has no sign to read. */
  lemma UnsignedValue(u: string)
    requires u != [] && IsDigit(u[0])
    ensures ParseSigned(u) == ParseRun(u)
  {
    DigitNotSpace(u[0]);
  }

  /** After a sign the run that follows it is read, negated after '-'. */
  lemma SignValue(c: char, u: string)
    requires c == '-' || c == '+'
    ensures ParseSigned([c] + u) ==
      match ParseRun(u)
      case None => None
      case Some(n) => Some(if c == '-' then -n else n)
  {
    assert ([c] + u)[0] == c && ([c] + u)[1..] == u;
  }

  /** Skipping white space stops at the first other character. */
  lemma {:induction false} SkipSpaces(ws: string, rest: string)
    requires AllSpace(ws) && (rest == [] || !IsSpace(rest[0]))
    ensures SkipSpace(ws + rest) == rest
    decreases |ws|
  {
    if ws == [] {
      assert ws + rest == rest;
    } else {
      assert (ws + rest)[1..] == ws[1..] + rest;
      SkipSpaces(ws[1..], rest);
    }
  }

  /** The digit prefix of a run of digits followed by a non-digit is that run. */
  lemma {:induction false} DigitRun(digits: string, rest: string)
    requires forall i | 0 <= i < |digits| :: IsDigit(digits[i])
    requires rest == [] || !IsDigit(rest[0])
    ensures DigitPrefix(digits + rest) == digits
    decreases |digits|
  {
    if digits == [] {
      assert digits + rest == rest;
    } else {
      assert (digits + rest)[1..] == digits[1..] + rest;
      DigitRun(digits[1..], rest);
      assert [digits[0]] + digits[1..] == digits;
    }
  }

  lemma DigitNotSpace(c: char)
    requires IsDigit(c)
    ensures !IsSpace(c) && c != '-' && c != '+'
  {
  }

  lemma {:induction false} DecimalValue(n: nat)
    ensures DigitsValue(Decimal(n)) == n
    decreases n
  {
    var s := Decimal(n);
    if n >= 10 {
      DecimalValue(n / 10);
      assert s[..|s| - 1] == Decimal(n / 10);
    }
  }

  /** The body of a successful response: `{customers, totalCount}`. */
  datatype Reply = Customers(customers: seq<Customer>, totalCount: nat) | Failure(error: string)

  const LIST_ERROR := "Failed to fetch all customers"

  /**
   * The `maxCustomers` that `GET` passes on: `parseInt` of the query value,
   * or of "1000" when the value is missing or empty.
   */
  function MaxCustomersOf(query: Option<string>): (m: Option<int>)
    ensures !Truthy(query) ==> m == Some(DEFAULT_MAX_CUSTOMERS)
    ensures forall n: nat :: query == Some(Decimal(n)) ==> m == Some(n)
  {
    ParseDecimals();
    ParseThousand();
    ParseInt(OrElse(query, "1000"))
  }

  /** `parseInt` reads back every decimal numeral, "1000" among them. */
  lemma ParseDecimals()
    ensures forall n: nat :: ParseInt(Decimal(n)) == Some(n)
  {
    forall n: nat {
      ParseDecimal(n);
    }
  }

  /** The default text "1000" is the decimal numeral of 1000. */
  lemma ParseThousand()
    ensures ParseInt("1000") == Some(DEFAULT_MAX_CUSTOMERS)
  {
    assert Decimal(1) == "1";
    assert Decimal(10) == "10";
    assert Decimal(100) == "100";
    assert Decimal(1000) == "1000";
    ParseDecimal(1000);
  }

  /**
   * `GET`: fetches the customers with `MaxCustomersOf(query)` as the maximum
   * and answers with them and their count, or 500 exactly when the last
   * request issued threw. A 200 answer comes only once the loop's stop rule
   * held: the last page said no more, was empty, or brought the count to the
   * maximum (no page at all only when the maximum leaves no room). The
   * requests issued and pages received are returned as ghost values.
   */
  method Get(query: Option<string>, list: ListParams -> Call<Page>)
    returns (response: Response<Reply>, ghost requests: seq<ListParams>, ghost pages: seq<Page>)
    ensures Requested(requests, pages, MaxCustomersOf(query), list)
    ensures response.status == 200 <==> |requests| == |pages|
    ensures response.status != 200 ==>
      response == Response(500, Failure(LIST_ERROR)) && list(requests[|pages|]).Threw?
    ensures response.status == 200 ==>
      response.body == Customers(Flatten(pages), |Flatten(pages)|)
    ensures response.status == 200 && pages == [] ==> !Below(0, MaxCustomersOf(query))
    ensures response.status == 200 && pages != [] ==>
      var last := pages[|pages| - 1];
      !last.hasMore || last.data == [] || !Below(|Flatten(pages)|, MaxCustomersOf(query))
  {
    var fetched;
    fetched, requests, pages := GetAllStripeCustomers(MaxCustomersOf(query), list);
    match fetched
    case FetchFailed(_) =>
      response := Response(500, Failure(LIST_ERROR));
    case Fetched(customers) =>
      response := Response(200, Customers(customers, |customers|));
  }
}
