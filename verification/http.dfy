/** Request descriptors for the API client: the verb, the path with its
    template-literal interpolations, and the body handed over unchanged.
    Sending the request and the response are not part of this model. */
module Http {
  import opened Values
  import Decimal

  datatype Verb = Get | Post | Put | Delete

  datatype Request<B> = Request(verb: Verb, path: string, body: Option<B>)

  /** The defaults of the paged calls (`page = 0, size = 10`). */
  const DefaultPage: nat := 0
  const DefaultSize: nat := 10

  /** `${id}`: a numeric id in decimal, a string id verbatim. */
  function IdText(id: Id): (t: string)
    ensures id.Num? ==> |t| >= 1 && forall i :: 0 <= i < |t| ==> Decimal.IsDigit(t[i])
    ensures id.Str? ==> t == id.s
  {
    match id
    case Num(n) => Decimal.Render(n)
    case Str(s) => s
  }

  /** `?page=${page}&size=${size}`, a missing argument taking its default. */
  function Query(page: Option<nat>, size: Option<nat>): string {
    "?page=" + Decimal.Render(page.GetOr(DefaultPage)) + "&size=" + Decimal.Render(size.GetOr(DefaultSize))
  }

  predicate AllDigits(s: string) {
    forall i :: 0 <= i < |s| ==> Decimal.IsDigit(s[i])
  }

  /** The position of the first `c` in `s`, or `|s|` when there is none. */
  function IndexOf(s: string, c: char): (k: nat)
    ensures k <= |s|
    ensures forall j :: 0 <= j < k ==> s[j] != c
    ensures k < |s| ==> s[k] == c
  {
    if |s| == 0 || s[0] == c then 0 else 1 + IndexOf(s[1..], c)
  }

  /** Reads page and size back out of a query string. */
  function ParseQuery(q: string): Option<(nat, nat)> {
    if |q| < 6 || q[..6] != "?page=" then None
    else
      var rest := q[6..];
      var k := IndexOf(rest, '&');
      if k == 0 || k + 6 >= |rest| || rest[k + 1..k + 6] != "size=" then None
      else if !AllDigits(rest[..k]) || !AllDigits(rest[k + 6..]) then None
      else Some((Decimal.Parse(rest[..k]), Decimal.Parse(rest[k + 6..])))
  }

  /** A query string of two non-empty numerals reads back as their
      values. */
  lemma ParseQueryOf(p: string, s: string)
    requires |p| > 0 && |s| > 0 && AllDigits(p) && AllDigits(s)
    ensures ParseQuery("?page=" + p + "&size=" + s) == Some((Decimal.Parse(p), Decimal.Parse(s)))
  {
    var q := "?page=" + p + "&size=" + s;
    var rest := p + "&size=" + s;
    assert q[..6] == "?page=" && q[6..] == rest;
    assert rest[|p|] == '&';
    var k := IndexOf(rest, '&');
    forall j | 0 <= j < |p|
      ensures rest[j] != '&'
    {
      assert rest[j] == p[j];
    }
    assert k == |p|;
    assert rest[..k] == p;
    assert rest[k + 1..k + 6] == "size=";
    assert rest[k + 6..] == s;
  }

  /** The query string carries exactly the page and size it was built from
      (defaults filled in). */
  lemma ParseQueryRoundTrip(page: Option<nat>, size: Option<nat>)
    ensures ParseQuery(Query(page, size)) == Some((page.GetOr(DefaultPage), size.GetOr(DefaultSize)))
  {
    ParseQueryOf(Decimal.Render(page.GetOr(DefaultPage)), Decimal.Render(size.GetOr(DefaultSize)));
    Decimal.ParseRender(page.GetOr(DefaultPage));
    Decimal.ParseRender(size.GetOr(DefaultSize));
  }

  /** Different pages or sizes give different query strings. */
  lemma QueryInjective(page: Option<nat>, size: Option<nat>, otherPage: Option<nat>, otherSize: Option<nat>)
    requires Query(page, size) == Query(otherPage, otherSize)
    ensures page.GetOr(DefaultPage) == otherPage.GetOr(DefaultPage)
    ensures size.GetOr(DefaultSize) == otherSize.GetOr(DefaultSize)
  {
    ParseQueryRoundTrip(page, size);
    ParseQueryRoundTrip(otherPage, otherSize);
  }

  /** Numeric ids interpolate to distinct texts; a string id spelling a
      number interpolates like that number. */
  lemma IdTextNumbers(m: nat, n: nat)
    ensures IdText(Num(m)) == IdText(Num(n)) <==> m == n
    ensures IdText(Str(Decimal.Render(n))) == IdText(Num(n))
  {
    if IdText(Num(m)) == IdText(Num(n)) {
      Decimal.RenderInjective(m, n);
    }
  }

  /** `path` is `prefix` followed by a query string for `page` and `size`. */
  predicate ListsPage(path: string, prefix: string, page: nat, size: nat) {
    |prefix| <= |path| && path[..|prefix|] == prefix && ParseQuery(path[|prefix|..]) == Some((page, size))
  }

  /** The path of a paged listing: `${prefix}?page=${page}&size=${size}`. */
  function Listing(prefix: string, page: Option<nat>, size: Option<nat>): string {
    prefix + Query(page, size)
  }

  /** A listing path names its collection and carries the page and size
      asked for, defaults filled in. */
  lemma ListingListsPage(prefix: string, page: Option<nat>, size: Option<nat>)
    ensures ListsPage(Listing(prefix, page, size), prefix, page.GetOr(DefaultPage), size.GetOr(DefaultSize))
  {
    var path := Listing(prefix, page, size);
    assert path[..|prefix|] == prefix && path[|prefix|..] == Query(page, size);
    ParseQueryRoundTrip(page, size);
  }

  /** The path of one item of a collection: `${collection}/${id}`. */
  function Item(collection: string, id: Id): (path: string)
    ensures |path| == |collection| + 1 + |IdText(id)|
    ensures path[..|collection| + 1] == collection + "/"
    ensures path[|collection| + 1..] == IdText(id)
  {
    collection + "/" + IdText(id)
  }

  /** An item path and a listing path of the same collection never
      coincide, whatever the id. */
  lemma ItemIsNotListing(collection: string, id: Id, page: Option<nat>, size: Option<nat>)
    ensures Item(collection, id) != Listing(collection, page, size)
  {
    var i := Item(collection, id);
    var l := Listing(collection, page, size);
    assert l == collection + Query(page, size);
    assert i[|collection|] == '/' && l[|collection|] == '?';
  }

  /** Item paths of numeric ids identify the id. */
  lemma ItemPathsIdentify(collection: string, m: nat, n: nat)
    requires Item(collection, Num(m)) == Item(collection, Num(n))
    ensures m == n
  {
    IdTextNumbers(m, n);
  }

  /** Ids are interpolated without escaping: a string id can spell out a
      path below the collection, query string included. */
  lemma ItemCanSpellListing(collection: string, sub: string, page: Option<nat>, size: Option<nat>)
    ensures Item(collection, Str(sub + Query(page, size))) == Listing(collection + "/" + sub, page, size)
  {
  }
}
