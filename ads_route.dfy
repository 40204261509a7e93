/**
 * The ad listing endpoint (`GET /api/ads`): the `slotKey` and `limit` query
 * parameters are normalised, the `ads` table is filtered to active rows of
 * the requested slot, ordered newest first and cut to `limit`, and each row
 * is renamed into the camel-case shape the client reads. A missing database
 * configuration or a failed query answers 500 with an error body.
 */
module AdsRoute {
  import opened Wrappers
  import JsText

  // ---------------------------------------------------------------------------
  // Query parameters
  // ---------------------------------------------------------------------------

  /** `URLSearchParams.get`: the value of the first pair with that name, if any. */
  function SearchParam(params: seq<(string, string)>, name: string): (v: Option<string>)
    ensures v.None? <==> forall i :: 0 <= i < |params| ==> params[i].0 != name
    ensures v.Some? ==> exists i :: 0 <= i < |params| && params[i] == (name, v.value)
                                   && forall k :: 0 <= k < i ==> params[k].0 != name
  {
    if params == [] then None
    else if params[0].0 == name then Some(params[0].1)
    else
      var rest := SearchParam(params[1..], name);
      assert rest.Some? ==> exists i :: 0 <= i < |params| && params[i] == (name, rest.value)
                                        && forall k :: 0 <= k < i ==> params[k].0 != name by {
        if rest.Some? {
          var i :| 0 <= i < |params[1..]| && params[1..][i] == (name, rest.value)
                   && forall k :: 0 <= k < i ==> params[1..][k].0 != name;
          assert params[i + 1] == (name, rest.value);
          assert forall k :: 1 <= k < i + 1 ==> params[k] == params[1..][k - 1];
        }
      }
      rest
  }

  /**
   * `slotKey`: the trimmed parameter, or `None` (no slot filter) when the
   * parameter is absent or only whitespace.
   */
  function NormalizeSlotKey(param: Option<string>): (slot: Option<string>)
    ensures slot.None? <==> param.None? || JsText.Trim(param.value) == []
    ensures slot.Some? ==> slot.value == JsText.Trim(param.value)
  {
    if param.None? then None
    else
      var t := JsText.Trim(param.value);
      if t == [] then None else Some(t)
  }

  /** Normalising a normalised slot key changes nothing. */
  lemma NormalizeSlotKeyIdempotent(param: Option<string>)
    ensures NormalizeSlotKey(NormalizeSlotKey(param)) == NormalizeSlotKey(param)
  {
    if param.Some? {
      JsText.TrimIdempotent(param.value);
    }
  }

  /** A slot key that is never empty and never padded with whitespace. */
  lemma NormalizedSlotKeyIsClean(param: Option<string>)
    requires NormalizeSlotKey(param).Some?
    ensures var k := NormalizeSlotKey(param).value;
      k != [] && !JsText.IsJsWhitespace(k[0]) && !JsText.IsJsWhitespace(k[|k| - 1])
  {
  }

  /**
   * `Number(s)` for a trimmed string of the form `[+-]?digits`; `None` stands
   * for `NaN`, which every other string here gives.
   */
  function NumberValue(s: string): (n: Option<int>) {
    if |s| >= 2 && (s[0] == '+' || s[0] == '-') && JsText.AllDigits(s[1..]) then
      Some(if s[0] == '-' then 0 - JsText.DigitsValue(s[1..]) else JsText.DigitsValue(s[1..]))
    else if |s| >= 1 && JsText.AllDigits(s) then Some(JsText.DigitsValue(s))
    else None
  }

  /** The decimal rendering of a number, with or without a sign, reads back as that number. */
  lemma NumberValueOfDecimal(n: nat)
    ensures NumberValue(JsText.NatToString(n)) == Some(n)
    ensures NumberValue("+" + JsText.NatToString(n)) == Some(n)
    ensures NumberValue("-" + JsText.NatToString(n)) == Some(0 - n)
  {
    var d := JsText.NatToString(n);
    JsText.NatToStringRoundTrip(n);
    assert ("+" + d)[1..] == d;
    assert ("-" + d)[1..] == d;
  }

  const DefaultLimit := 10
  const MaxLimit := 20

  /**
   * `limit`: 10 when the parameter is absent or blank; otherwise its number,
   * with `NaN` and zero read as 1, clamped to [1, 20].
   */
  function NormalizeLimit(param: Option<string>): (limit: int)
    ensures 1 <= limit <= MaxLimit
    ensures param.None? || JsText.Trim(param.value) == [] ==> limit == DefaultLimit
    ensures param.Some? && JsText.Trim(param.value) != [] ==>
      var n := NumberValue(JsText.Trim(param.value));
      && (n.None? || n.value <= 1 ==> limit == 1)
      && (n.Some? && 1 <= n.value <= MaxLimit ==> limit == n.value)
      && (n.Some? && n.value > MaxLimit ==> limit == MaxLimit)
  {
    if param.None? then DefaultLimit else LimitOfTrimmed(JsText.Trim(param.value))
  }

  /** The limit for a present parameter, once trimmed. */
  function LimitOfTrimmed(p: string): int {
    if p == [] then DefaultLimit
    else
      var n := NumberValue(p);
      var truthy := if n.None? || n.value == 0 then 1 else n.value;
      Max(1, Min(MaxLimit, truthy))
  }

  /** Any limit from 1 to 20 written in decimal is taken as it is. */
  lemma LimitRoundTrip(n: nat)
    requires 1 <= n <= MaxLimit
    ensures NormalizeLimit(Some(JsText.NatToString(n))) == n
  {
    var d := JsText.NatToString(n);
    NumberValueOfDecimal(n);
    assert !JsText.IsJsWhitespace(d[0]) && !JsText.IsJsWhitespace(d[|d| - 1]);
    JsText.TrimOfClean(d);
  }

  /** The limit depends only on the trimmed parameter. */
  lemma LimitIgnoresSurroundingWhitespace(s: string)
    ensures NormalizeLimit(Some(JsText.Trim(s))) == NormalizeLimit(Some(s))
  {
    JsText.TrimIdempotent(s);
  }

  // ---------------------------------------------------------------------------
  // Rows, selection and order
  // ---------------------------------------------------------------------------

  /**
   * One row of the `ads` table, with the columns the query selects.
   * Timestamps are instants (`None` for SQL null).
   */
  datatype AdRow = AdRow(
    id: string,
    slotKey: string,
    title: Option<string>,
    imageUrl: Option<string>,
    linkUrl: Option<string>,
    isActive: Option<bool>,
    updatedAt: Option<int>,
    createdAt: Option<int>)

  /** `.eq("is_active", true)` and, when a slot key is given, `.eq("slot_key", slotKey)`. */
  predicate Selected(r: AdRow, slot: Option<string>) {
    r.isActive == Some(true) && (slot.None? || r.slotKey == slot.value)
  }

  /** The rows of the table that pass the filters, in table order. */
  function Select(table: seq<AdRow>, slot: Option<string>): (rows: seq<AdRow>)
    ensures forall r :: r in rows ==> Selected(r, slot)
    ensures forall r :: multiset(rows)[r] == if Selected(r, slot) then multiset(table)[r] else 0
  {
    if table == [] then []
    else
      assert table == [table[0]] + table[1..];
      var rest := Select(table[1..], slot);
      if Selected(table[0], slot) then [table[0]] + rest else rest
  }

  /** Descending with nulls last: `a` is strictly before `b`. */
  predicate KeyBefore(a: Option<int>, b: Option<int>) {
    a.Some? && (b.None? || a.value > b.value)
  }

  /**
   * `.order("updated_at", desc, nulls last).order("created_at", desc, nulls last)`:
   * `a` strictly precedes `b`.
   */
  predicate Precedes(a: AdRow, b: AdRow) {
    KeyBefore(a.updatedAt, b.updatedAt)
    || (a.updatedAt == b.updatedAt && KeyBefore(a.createdAt, b.createdAt))
  }

  /** Every row is no later than the next one. */
  predicate Sorted(s: seq<AdRow>) {
    forall i, j :: 0 <= i < j < |s| ==> !Precedes(s[j], s[i])
  }

  /**
   * "Not after" (`!Precedes(b, a)`) is a total preorder: reflexive, total and
   * transitive; `Precedes` itself is irreflexive, asymmetric and transitive;
   * and two rows tie exactly when both timestamps are equal.
   */
  lemma NotAfterIsTotalPreorder(a: AdRow, b: AdRow, c: AdRow)
    ensures !Precedes(a, a)
    ensures !Precedes(a, b) || !Precedes(b, a)
    ensures !Precedes(b, a) && !Precedes(c, b) ==> !Precedes(c, a)
    ensures Precedes(a, b) && Precedes(b, c) ==> Precedes(a, c)
    ensures !Precedes(a, b) && !Precedes(b, a) <==> a.updatedAt == b.updatedAt && a.createdAt == b.createdAt
  {
  }

  /** `x` placed into a sorted list before the first row it does not follow. */
  function Insert(x: AdRow, s: seq<AdRow>): (r: seq<AdRow>)
    ensures |r| == |s| + 1
    ensures multiset(r) == multiset(s) + multiset{x}
  {
    if s == [] then [x]
    else if !Precedes(s[0], x) then [x] + s
    else
      assert s == [s[0]] + s[1..];
      [s[0]] + Insert(x, s[1..])
  }

  lemma {:induction false} InsertSorted(x: AdRow, s: seq<AdRow>)
    requires Sorted(s)
    ensures Sorted(Insert(x, s))
  {
    if s != [] {
      if !Precedes(s[0], x) {
        forall j | 0 <= j < |s|
          ensures !Precedes(s[j], x)
        {
          if j > 0 {
            NotAfterIsTotalPreorder(x, s[0], s[j]);
          }
        }
        assert Sorted([x] + s);
      } else {
        var t := s[1..];
        assert Sorted(t);
        InsertSorted(x, t);
        var r := Insert(x, t);
        forall k | 0 <= k < |r|
          ensures !Precedes(r[k], s[0])
        {
          assert r[k] in multiset(r);
          if r[k] != x {
            assert r[k] in multiset(t);
            var j :| 0 <= j < |t| && t[j] == r[k];
            assert s[j + 1] == r[k];
          }
        }
        assert Sorted([s[0]] + r);
      }
    }
  }

  /** The filtered rows in the query's order (a stable insertion sort). */
  function SortRows(s: seq<AdRow>): (r: seq<AdRow>)
    ensures |r| == |s|
    ensures multiset(r) == multiset(s)
  {
    if s == [] then []
    else
      assert s == [s[0]] + s[1..];
      Insert(s[0], SortRows(s[1..]))
  }

  lemma {:induction false} SortRowsSorted(s: seq<AdRow>)
    ensures Sorted(SortRows(s))
  {
    if s != [] {
      SortRowsSorted(s[1..]);
      InsertSorted(s[0], SortRows(s[1..]));
    }
  }

  /** `.limit(n)`: the first `n` rows. */
  function Take(s: seq<AdRow>, n: nat): (r: seq<AdRow>)
    ensures |r| == Min(n, |s|)
    ensures r == s[..|r|]
  {
    if n >= |s| then s else s[..n]
  }

  /** What a prefix leaves out of a list is exactly the rest of it. */
  lemma PrefixRemainder(s: seq<AdRow>, k: nat)
    requires k <= |s|
    ensures multiset(s) - multiset(s[..k]) == multiset(s[k..])
    ensures multiset(s[..k]) <= multiset(s)
  {
    assert s == s[..k] + s[k..];
  }

  /** In a sorted list, no row of the tail precedes a row of the head. */
  lemma TailNotBeforeHead(s: seq<AdRow>, k: nat, r: AdRow, a: AdRow)
    requires Sorted(s) && k <= |s|
    requires r in s[k..] && a in s[..k]
    ensures !Precedes(r, a)
  {
    var j :| 0 <= j < |s[k..]| && s[k..][j] == r;
    var i :| 0 <= i < |s[..k]| && s[..k][i] == a;
    assert s[k + j] == r && s[i] == a;
  }

  /** Cutting a sorted list keeps the rows that come first: no dropped row precedes a kept one. */
  lemma TakeKeepsFirst(s: seq<AdRow>, n: nat)
    requires Sorted(s)
    ensures forall r, a :: r in multiset(s) - multiset(Take(s, n)) && a in Take(s, n) ==> !Precedes(r, a)
  {
    var k := |Take(s, n)|;
    PrefixRemainder(s, k);
    forall r, a | r in multiset(s[k..]) && a in s[..k]
      ensures !Precedes(r, a)
    {
      TailNotBeforeHead(s, k, r, a);
    }
  }

  /** The rows the query returns: as many as the limit allows of those that match. */
  function QueryRows(table: seq<AdRow>, slot: Option<string>, limit: int): (rows: seq<AdRow>)
    requires limit >= 1
    ensures |rows| == Min(limit, |Select(table, slot)|)
  {
    Take(SortRows(Select(table, slot)), limit)
  }

  /** A row among the ordered matching rows is an active row of the slot from the table. */
  lemma MatchingRowFromTable(table: seq<AdRow>, slot: Option<string>, r: AdRow)
    requires r in multiset(SortRows(Select(table, slot)))
    ensures Selected(r, slot) && r in table
  {
    assert r in multiset(Select(table, slot));
    assert multiset(table)[r] > 0;
  }

  /**
   * What the chained query promises: only active rows of the slot, taken
   * from the table, at most `limit` of them (fewer only when fewer match),
   * in order, and none left out that should have come before a returned one.
   */
  lemma QueryRowsMeetOrder(table: seq<AdRow>, slot: Option<string>, limit: int)
    requires limit >= 1
    ensures var rows := QueryRows(table, slot, limit);
      var matching := Select(table, slot);
      && (forall r :: r in rows ==> Selected(r, slot) && r in table)
      && |rows| == Min(limit, |matching|)
      && multiset(rows) <= multiset(matching)
      && Sorted(rows)
      && (forall r, a :: r in multiset(matching) - multiset(rows) && a in rows ==> !Precedes(r, a))
  {
    var matching := Select(table, slot);
    var sorted := SortRows(matching);
    SortRowsSorted(matching);
    TakeKeepsFirst(sorted, limit);
    var rows := Take(sorted, limit);
    PrefixRemainder(sorted, |rows|);
    forall r | r in rows
      ensures Selected(r, slot) && r in table
    {
      assert r in multiset(sorted);
      MatchingRowFromTable(table, slot, r);
    }
  }

  // ---------------------------------------------------------------------------
  // Projection and the handler
  // ---------------------------------------------------------------------------

  /** An ad as the endpoint returns it. */
  datatype Ad = Ad(
    id: string,
    slotKey: string,
    title: Option<string>,
    imageUrl: Option<string>,
    linkUrl: Option<string>)

  function ToAd(r: AdRow): Ad {
    Ad(r.id, r.slotKey, r.title, r.imageUrl, r.linkUrl)
  }

  /** The `.map` over the returned rows: one ad per row. */
  function ProjectAds(rows: seq<AdRow>): (ads: seq<Ad>)
    ensures |ads| == |rows|
  {
    seq(|rows|, i requires 0 <= i < |rows| => ToAd(rows[i]))
  }

  /**
   * One ad per row, in the same order, carrying the row's id, slot, title,
   * image and link under their new names; only `is_active` and the two
   * timestamps are dropped.
   */
  lemma ProjectAdsFaithful(rows: seq<AdRow>)
    ensures var ads := ProjectAds(rows);
      && |ads| == |rows|
      && forall i :: 0 <= i < |rows| ==>
           ads[i].id == rows[i].id && ads[i].slotKey == rows[i].slotKey && ads[i].title == rows[i].title
           && ads[i].imageUrl == rows[i].imageUrl && ads[i].linkUrl == rows[i].linkUrl
  {
  }

  /** Projection commutes with concatenation, so it keeps the order of the rows. */
  lemma {:induction false} ProjectAdsAppend(a: seq<AdRow>, b: seq<AdRow>)
    ensures ProjectAds(a + b) == ProjectAds(a) + ProjectAds(b)
  {
    assert |ProjectAds(a + b)| == |ProjectAds(a) + ProjectAds(b)|;
    forall i | 0 <= i < |a + b|
      ensures ProjectAds(a + b)[i] == (ProjectAds(a) + ProjectAds(b))[i]
    {
      if i < |a| {
        assert (a + b)[i] == a[i];
      } else {
        assert (a + b)[i] == b[i - |a|];
      }
    }
  }

  /** The environment variables the handler reads; `None` when unset. */
  datatype Env = Env(supabaseUrl: Option<string>, serviceRoleKey: Option<string>, anonKey: Option<string>)

  datatype Config = Config(url: string, key: string)

  /**
   * The URL and key the client is created with: the service-role key when it
   * is set and non-empty, else the anonymous key; nothing when either the URL
   * or both keys are missing or empty.
   */
  function ConfigOf(env: Env): (c: Option<Config>)
    ensures c.Some? <==> Truthy(env.supabaseUrl) && (Truthy(env.serviceRoleKey) || Truthy(env.anonKey))
    ensures c.Some? ==> c.value.url == env.supabaseUrl.value
    ensures c.Some? && Truthy(env.serviceRoleKey) ==> c.value.key == env.serviceRoleKey.value
    ensures c.Some? && !Truthy(env.serviceRoleKey) ==> c.value.key == env.anonKey.value
  {
    var key := if Truthy(env.serviceRoleKey) then env.serviceRoleKey else env.anonKey;
    if !Truthy(env.supabaseUrl) || !Truthy(key) then None
    else Some(Config(env.supabaseUrl.value, key.value))
  }

  const MissingEnvMessage := "缺少 Supabase 环境变量"

  datatype Body = ErrorBody(error: string) | AdsBody(ads: seq<Ad>)

  datatype HttpResponse = HttpResponse(status: nat, body: Body, cacheControl: Option<string>)

  /**
   * `GET`: `params` are the decoded query pairs, `table` the `ads` table and
   * `queryError` the error the database answers the query with, if any.
   */
  function Get(params: seq<(string, string)>, env: Env, table: seq<AdRow>, queryError: Option<string>): (resp: HttpResponse)
    ensures resp.status == 200 || resp.status == 500
    ensures resp.status == 500 <==> ConfigOf(env).None? || queryError.Some?
    ensures resp.status == 500 <==> resp.body.ErrorBody?
    ensures ConfigOf(env).None? ==> resp.body == ErrorBody(MissingEnvMessage)
    ensures ConfigOf(env).Some? && queryError.Some? ==> resp.body == ErrorBody(queryError.value)
    ensures resp.status == 200 <==> resp.cacheControl == Some("no-store")
  {
    var slot := NormalizeSlotKey(SearchParam(params, "slotKey"));
    var limit := NormalizeLimit(SearchParam(params, "limit"));
    if ConfigOf(env).None? then HttpResponse(500, ErrorBody(MissingEnvMessage), None)
    else if queryError.Some? then HttpResponse(500, ErrorBody(queryError.value), None)
    else HttpResponse(200, AdsBody(ProjectAds(QueryRows(table, slot, limit))), Some("no-store"))
  }

  /**
   * A successful answer is the projection of the query's rows: at most
   * `limit` ads, each the projection of an active table row of the requested
   * slot, and with no parameters at all up to ten ads of any slot.
   */
  lemma GetListsSelectedAds(params: seq<(string, string)>, env: Env, table: seq<AdRow>, queryError: Option<string>)
    requires Get(params, env, table, queryError).status == 200
    ensures var ads := Get(params, env, table, queryError).body.ads;
      var slot := NormalizeSlotKey(SearchParam(params, "slotKey"));
      var limit := NormalizeLimit(SearchParam(params, "limit"));
      && ads == ProjectAds(QueryRows(table, slot, limit))
      && |ads| <= limit
      && forall i :: 0 <= i < |ads| ==>
           exists r :: r in table && Selected(r, slot) && ads[i] == ToAd(r)
    ensures params == [] ==> |Get(params, env, table, queryError).body.ads| == Min(DefaultLimit, |Select(table, None)|)
  {
    var slot := NormalizeSlotKey(SearchParam(params, "slotKey"));
    var limit := NormalizeLimit(SearchParam(params, "limit"));
    var rows := QueryRows(table, slot, limit);
    QueryRowsMeetOrder(table, slot, limit);
    var ads := ProjectAds(rows);
    forall i | 0 <= i < |ads|
      ensures exists r :: r in table && Selected(r, slot) && ads[i] == ToAd(r)
    {
      assert rows[i] in rows;
    }
  }
}
