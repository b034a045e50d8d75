/**
  * The domain tools: product search, size recommendation, delivery
  * estimate, order lookup and the cancellation rule, over catalogue and
  * order data passed in as sequences and an evaluation instant passed in
  * as a number.
  */
module Tools {
  import opened Wrappers
  import opened Text

  /** A catalogue item; `price` is in cents. */
  datatype Product = Product(id: string, title: string, price: nat, sizes: seq<string>,
                             tags: seq<string>, color: string)

  /** An order record; `createdAt` is in seconds, on the clock of the evaluation instant. */
  datatype Order = Order(orderId: string, email: string, createdAt: int)

  // ---------- product_search: tokens ----------

  /** A run of token characters starts at `p`, at or after `i`, and cannot be extended to the left. */
  predicate RunStart(q: string, i: nat, p: nat) {
    i <= p < |q| && InClass(q[p], TokenChar) && (p == i || !InClass(q[p - 1], TokenChar))
  }

  /** The whole run of token characters starting at `p`. */
  function RunAt(q: string, p: nat): string
    requires p <= |q|
  {
    q[p..RunEnd(q, p, TokenChar)]
  }

  /**
    * `re.findall(r"[a-z0-9]+", q)` from index `i`: the maximal runs of token
    * characters (`TokensAreRuns`).
    */
  function TokensFrom(q: string, i: nat): (ts: seq<string>)
    requires i <= |q|
    ensures forall j :: 0 <= j < |ts| ==> |ts[j]| > 0 && Contains(q, ts[j])
    ensures forall j, c :: 0 <= j < |ts| && 0 <= c < |ts[j]| ==> InClass(ts[j][c], TokenChar)
    ensures ts == [] <==> forall j :: i <= j < |q| ==> !InClass(q[j], TokenChar)
    decreases |q| - i
  {
    if i == |q| then []
    else if !InClass(q[i], TokenChar) then TokensFrom(q, i + 1)
    else
      var e := RunEnd(q, i, TokenChar);
      assert OccursAt(q, i, q[i..e]);
      [q[i..e]] + TokensFrom(q, e)
  }

  /** `t` is the whole run at some run start at or after `i`. */
  ghost predicate IsRun(q: string, i: nat, t: string) {
    exists p :: RunStart(q, i, p) && RunAt(q, p) == t
  }

  /**
    * The tokens are exactly the maximal runs: each one is the whole run at
    * some run start, and every run start contributes its run. (A split of
    * "midi" into "mi" and "di" would break the first half.)
    */
  lemma {:induction false} TokensAreRuns(q: string, i: nat)
    requires i <= |q|
    ensures forall t :: t in TokensFrom(q, i) ==> IsRun(q, i, t)
    ensures forall p :: RunStart(q, i, p) ==> RunAt(q, p) in TokensFrom(q, i)
    decreases |q| - i
  {
    if i == |q| {
    } else if !InClass(q[i], TokenChar) {
      TokensAreRuns(q, i + 1);
      var ts := TokensFrom(q, i + 1);
      assert TokensFrom(q, i) == ts;
      forall t | t in ts ensures IsRun(q, i, t) {
        var p :| RunStart(q, i + 1, p) && RunAt(q, p) == t;
        assert RunStart(q, i, p);
      }
      forall p | RunStart(q, i, p) ensures RunAt(q, p) in ts {
        assert RunStart(q, i + 1, p);
      }
    } else {
      var e := RunEnd(q, i, TokenChar);
      TokensAreRuns(q, e);
      var rest := TokensFrom(q, e);
      var ts := TokensFrom(q, i);
      assert ts == [RunAt(q, i)] + rest;
      forall t | t in ts ensures IsRun(q, i, t) {
        if t == RunAt(q, i) {
          assert RunStart(q, i, i);
        } else {
          assert t in rest;
          var p :| RunStart(q, e, p) && RunAt(q, p) == t;
          assert p != e;
          assert RunStart(q, i, p);
        }
      }
      forall p | RunStart(q, i, p) ensures RunAt(q, p) in ts {
        if p != i {
          assert p > e;
          assert RunStart(q, e, p);
        }
      }
    }
  }

  /** The query tokens `product_search` matches on. */
  function Tokens(query: string): seq<string> {
    TokensFrom(Lower(query), 0)
  }

  /** Sizes, filler words and prepositions that never select a product. */
  const StopWords: set<string> :=
    {"under", "less", "budget", "m", "l", "xl", "s", "eta", "to", "guest", "between", "im", "i", "zip"}

  function Meaningful(tokens: seq<string>): (m: seq<string>)
    ensures forall t :: t in m <==> t in tokens && t !in StopWords
  {
    if |tokens| == 0 then []
    else (if tokens[0] in StopWords then [] else [tokens[0]]) + Meaningful(tokens[1..])
  }

  /** `" ".join(ts)` */
  function Join(ts: seq<string>): string {
    if |ts| == 0 then "" else if |ts| == 1 then ts[0] else ts[0] + " " + Join(ts[1..])
  }

  /** Title, tags and colour, joined by spaces and lower-cased. */
  function Haystack(p: Product): string {
    Lower(p.title + " " + Join(p.tags) + " " + p.color)
  }

  function LowerSet(ts: seq<string>): set<string> {
    set t | t in ts :: Lower(t)
  }

  /**
    * The per-item filter: the price ceiling always applies; requested tags
    * must all be among the item's tags, and then the query is not looked
    * at; otherwise some meaningful query token must occur in the haystack,
    * and an item passes when no meaningful token (or no token) is left.
    */
  predicate Matches(p: Product, tokens: seq<string>, priceMax: Option<nat>, tags: seq<string>)
    ensures Matches(p, tokens, priceMax, tags) && priceMax.Some? ==> p.price <= priceMax.value
    ensures Matches(p, tokens, priceMax, tags) && |tags| > 0 ==> forall t :: t in tags ==> Lower(t) in LowerSet(p.tags)
    ensures (&& |tags| > 0 && (priceMax.None? || p.price <= priceMax.value)
             && forall t :: t in tags ==> Lower(t) in LowerSet(p.tags))
            ==> Matches(p, tokens, priceMax, tags)
    ensures |tags| == 0 && |Meaningful(tokens)| == 0 ==>
              (Matches(p, tokens, priceMax, tags) <==> priceMax.None? || p.price <= priceMax.value)
    ensures |tags| == 0 && |Meaningful(tokens)| > 0 ==>
              (Matches(p, tokens, priceMax, tags) <==>
                 && (priceMax.None? || p.price <= priceMax.value)
                 && exists t :: t in tokens && t !in StopWords && Contains(Haystack(p), t))
  {
    && (priceMax.None? || p.price <= priceMax.value)
    && (if |tags| > 0 then LowerSet(tags) <= LowerSet(p.tags)
        else if |tokens| > 0 then
          var meaningful := Meaningful(tokens);
          |meaningful| == 0 || exists t :: t in meaningful && Contains(Haystack(p), t)
        else true)
  }

  /** The list comprehension: the matching items, in catalogue order. */
  function Filter(items: seq<Product>, tokens: seq<string>, priceMax: Option<nat>, tags: seq<string>)
    : (r: seq<Product>)
    ensures forall p :: multiset(r)[p] == if Matches(p, tokens, priceMax, tags) then multiset(items)[p] else 0
    decreases |items|
  {
    if |items| == 0 then []
    else
      assert items == [items[0]] + items[1..];
      (if Matches(items[0], tokens, priceMax, tags) then [items[0]] else [])
      + Filter(items[1..], tokens, priceMax, tags)
  }

  // ---------- product_search: ordering ----------

  /** The sort key `(price, id)`, compared as Python compares tuples. */
  predicate KeyLe(a: Product, b: Product) {
    a.price < b.price || (a.price == b.price && LexLe(a.id, b.id))
  }

  lemma KeyLeTotal(a: Product, b: Product)
    ensures KeyLe(a, b) || KeyLe(b, a)
  {
    LexLeTotal(a.id, b.id);
  }

  predicate SortedByKey(s: seq<Product>) {
    forall i :: 0 < i < |s| ==> KeyLe(s[i - 1], s[i])
  }

  /** Insert `x` before the first element it does not sort after (so equal keys keep their order). */
  function Insert(x: Product, s: seq<Product>): (r: seq<Product>)
    requires SortedByKey(s)
    ensures SortedByKey(r)
    ensures multiset(r) == multiset(s) + multiset{x}
    ensures r[0] == x || (|s| > 0 && r[0] == s[0])
    decreases |s|
  {
    if |s| == 0 then [x]
    else if KeyLe(x, s[0]) then [x] + s
    else
      KeyLeTotal(x, s[0]);
      assert s == [s[0]] + s[1..];
      [s[0]] + Insert(x, s[1..])
  }

  /** `list.sort(key=lambda x: (x["price"], x["id"]))`, a stable sort. */
  function SortByKey(s: seq<Product>): (r: seq<Product>)
    ensures SortedByKey(r)
    ensures multiset(r) == multiset(s)
    decreases |s|
  {
    if |s| == 0 then []
    else
      assert s == [s[0]] + s[1..];
      Insert(s[0], SortByKey(s[1..]))
  }

  /**
    * `product_search(query, price_max, tags)`: the items that pass `Matches`,
    * each as often as it occurs in the catalogue, sorted by `(price, id)`.
    */
  function ProductSearch(items: seq<Product>, query: string, priceMax: Option<nat>, tags: seq<string>)
    : (r: seq<Product>)
    ensures SortedByKey(r)
    ensures forall p :: multiset(r)[p] ==
              if Matches(p, Tokens(query), priceMax, tags) then multiset(items)[p] else 0
  {
    SortByKey(Filter(items, Tokens(query), priceMax, tags))
  }

  lemma InResultMatches(items: seq<Product>, query: string, priceMax: Option<nat>, tags: seq<string>, p: Product)
    requires p in ProductSearch(items, query, priceMax, tags)
    ensures Matches(p, Tokens(query), priceMax, tags) && p in items
  {
    var r := ProductSearch(items, query, priceMax, tags);
    assert multiset(r)[p] > 0;
  }

  /** Every result is within the price ceiling. */
  lemma SearchWithinCap(items: seq<Product>, query: string, cap: nat, tags: seq<string>)
    ensures forall p :: p in ProductSearch(items, query, Some(cap), tags) ==> p.price <= cap
  {
    forall p | p in ProductSearch(items, query, Some(cap), tags) ensures p.price <= cap {
      InResultMatches(items, query, Some(cap), tags, p);
    }
  }

  /** With tags requested, every result carries all of them (compared lower-cased). */
  lemma SearchTagSuperset(items: seq<Product>, query: string, priceMax: Option<nat>, tags: seq<string>)
    requires |tags| > 0
    ensures forall p :: p in ProductSearch(items, query, priceMax, tags) ==> LowerSet(tags) <= LowerSet(p.tags)
  {
    forall p | p in ProductSearch(items, query, priceMax, tags) ensures LowerSet(tags) <= LowerSet(p.tags) {
      InResultMatches(items, query, priceMax, tags, p);
    }
  }

  lemma {:induction false} FilterIgnoresTokensWithTags(items: seq<Product>, t1: seq<string>, t2: seq<string>,
                                                      priceMax: Option<nat>, tags: seq<string>)
    requires |tags| > 0
    ensures Filter(items, t1, priceMax, tags) == Filter(items, t2, priceMax, tags)
    decreases |items|
  {
    if |items| > 0 {
      FilterIgnoresTokensWithTags(items[1..], t1, t2, priceMax, tags);
    }
  }

  /** With tags requested the query text is not consulted at all. */
  lemma SearchTagsSkipQuery(items: seq<Product>, q1: string, q2: string, priceMax: Option<nat>, tags: seq<string>)
    requires |tags| > 0
    ensures ProductSearch(items, q1, priceMax, tags) == ProductSearch(items, q2, priceMax, tags)
  {
    FilterIgnoresTokensWithTags(items, Tokens(q1), Tokens(q2), priceMax, tags);
  }

  /**
    * Without tags and with no meaningful token in the query (or no token at
    * all), every item within the ceiling is returned, as often as it occurs.
    */
  lemma SearchNoMeaningfulTokens(items: seq<Product>, query: string, priceMax: Option<nat>)
    requires |Meaningful(Tokens(query))| == 0
    ensures forall p :: p in items && (priceMax.None? || p.price <= priceMax.value) ==>
              multiset(ProductSearch(items, query, priceMax, []))[p] == multiset(items)[p]
  {
  }

  lemma {:induction false} SortedAllPairs(s: seq<Product>)
    requires SortedByKey(s)
    ensures forall i, j :: 0 <= i < j < |s| ==> KeyLe(s[i], s[j])
    decreases |s|
  {
    if |s| > 1 {
      SortedAllPairs(s[1..]);
      forall j | 1 < j < |s| ensures KeyLe(s[0], s[j]) {
        assert KeyLe(s[1..][0], s[1..][j - 1]);
        KeyLeTransitive(s[0], s[1], s[j]);
      }
    }
  }

  lemma KeyLeTransitive(a: Product, b: Product, c: Product)
    requires KeyLe(a, b) && KeyLe(b, c)
    ensures KeyLe(a, c)
  {
    if a.price == b.price == c.price {
      LexLeTransitive(a.id, b.id, c.id);
    }
  }

  /** Ids identify products within `s`. */
  predicate UniqueIds(s: seq<Product>) {
    forall i, j :: 0 <= i < |s| && 0 <= j < |s| && s[i].id == s[j].id ==> s[i] == s[j]
  }

  /** The head of a sorted sequence is its least element. */
  lemma SortedHeadIsLeast(s: seq<Product>)
    requires SortedByKey(s) && |s| > 0
    ensures forall x :: x in s ==> KeyLe(s[0], x)
  {
    SortedAllPairs(s);
    KeyLeTotal(s[0], s[0]);
  }

  lemma SameHeads(a: seq<Product>, b: seq<Product>)
    requires SortedByKey(a) && SortedByKey(b) && multiset(a) == multiset(b) && UniqueIds(a)
    requires |a| > 0
    ensures |b| > 0 && a[0] == b[0]
  {
    assert a[0] in multiset(b);
    assert |b| > 0;
    assert b[0] in multiset(a);
    SortedHeadIsLeast(a);
    SortedHeadIsLeast(b);
    assert KeyLe(a[0], b[0]) && KeyLe(b[0], a[0]);
    LexLeAntisymmetric(a[0].id, b[0].id);
    var j :| 0 <= j < |a| && a[j] == b[0];
  }

  /** Dropping the head keeps the rest of a sequence's properties. */
  lemma DropHead(a: seq<Product>)
    requires |a| > 0
    ensures multiset(a[1..]) == multiset(a) - multiset{a[0]}
    ensures SortedByKey(a) ==> SortedByKey(a[1..])
    ensures UniqueIds(a) ==> UniqueIds(a[1..])
  {
    assert a == [a[0]] + a[1..];
    var t := a[1..];
    forall i | 0 < i < |t| ensures t[i - 1] == a[i] && t[i] == a[i + 1] { }
    forall i, j | 0 <= i < |t| && 0 <= j < |t| ensures t[i] == a[i + 1] && t[j] == a[j + 1] { }
  }

  /**
    * The `(price, id)` order leaves no freedom when ids are unique: two
    * sorted arrangements of the same items are the same sequence.
    */
  lemma {:induction false} SortedArrangementUnique(a: seq<Product>, b: seq<Product>)
    requires SortedByKey(a) && SortedByKey(b) && multiset(a) == multiset(b) && UniqueIds(a)
    ensures a == b
    decreases |a|
  {
    if |a| == 0 {
      assert |multiset(b)| == 0;
    } else {
      SameHeads(a, b);
      DropHead(a);
      DropHead(b);
      SortedArrangementUnique(a[1..], b[1..]);
      assert a == [a[0]] + a[1..] && b == [b[0]] + b[1..];
    }
  }

  /**
    * The search result is the only sorted arrangement of the matching items
    * when ids are unique: its order is fully determined by the catalogue.
    */
  lemma SearchOrderDetermined(items: seq<Product>, query: string, priceMax: Option<nat>, tags: seq<string>,
                              other: seq<Product>)
    requires SortedByKey(other) && multiset(other) == multiset(ProductSearch(items, query, priceMax, tags))
    requires UniqueIds(ProductSearch(items, query, priceMax, tags))
    ensures other == ProductSearch(items, query, priceMax, tags)
  {
    SortedArrangementUnique(ProductSearch(items, query, priceMax, tags), other);
  }

  // ---------- size_recommender ----------

  /**
    * The two rationales, by meaning: "between M and L, M for a closer fit"
    * and "you prefer a looser fit, L is roomier". Their wording is not modelled.
    */
  datatype Rationale = CloserFit | LooserFit

  datatype SizeAdvice = SizeAdvice(recommended: string, rationale: Rationale)

  predicate WantsLooseFit(text: string) {
    Contains(Lower(text), "loose") || Contains(Lower(text), "oversized")
  }

  /** Exactly two outcomes: "L" when a loose fit is asked for, "M" otherwise. */
  function SizeRecommender(text: string): (r: SizeAdvice)
    ensures r.recommended == "L" <==> WantsLooseFit(text)
    ensures r.recommended == "M" <==> !WantsLooseFit(text)
    ensures r.rationale == if WantsLooseFit(text) then LooserFit else CloserFit
  {
    if WantsLooseFit(text) then SizeAdvice("L", LooserFit) else SizeAdvice("M", CloserFit)
  }

  /** The advice does not depend on letter case. */
  lemma SizeIgnoresCase(text: string)
    ensures SizeRecommender(Lower(text)) == SizeRecommender(text)
  {
    LowerIdempotent(text);
  }

  // ---------- eta ----------

  datatype EtaInfo = EtaInfo(zip: string, window: string)

  const SlowWindow := "3–5 business days"
  const FastWindow := "2–3 business days"
  const DefaultWindow := "2–5 business days"

  predicate FastPrefix(z: string) {
    StartsWith(z, "10") || StartsWith(z, "11") || StartsWith(z, "12")
  }

  /** The prefix table; "56" is consulted first. */
  function Eta(zip: string): (r: EtaInfo)
    ensures r.zip == zip
    ensures StartsWith(zip, "56") ==> r.window == SlowWindow
    ensures !StartsWith(zip, "56") && FastPrefix(zip) ==> r.window == FastWindow
    ensures !StartsWith(zip, "56") && !FastPrefix(zip) ==> r.window == DefaultWindow
  {
    var window :=
      if StartsWith(zip, "56") then SlowWindow
      else if FastPrefix(zip) then FastWindow
      else DefaultWindow;
    EtaInfo(zip, window)
  }

  /** Only the first two characters decide the window; shorter codes get the default. */
  lemma EtaByPrefix(z1: string, z2: string)
    requires |z1| >= 2 && |z2| >= 2 && z1[..2] == z2[..2]
    ensures Eta(z1).window == Eta(z2).window
  {
    assert forall p: string :: |p| == 2 ==> (StartsWith(z1, p) <==> StartsWith(z2, p)) by {
      assert z1[..2] == z2[..2];
    }
  }

  lemma EtaShortCode(z: string)
    requires |z| < 2
    ensures Eta(z).window == DefaultWindow
  {
  }

  // ---------- order_lookup ----------

  /** Both keys match, ignoring case. */
  predicate LookupMatch(o: Order, orderId: string, email: string) {
    EqualsIgnoreCase(o.orderId, orderId) && EqualsIgnoreCase(o.email, email)
  }

  /** The first order matching both keys, or None. */
  function FirstLookupMatch(orders: seq<Order>, orderId: string, email: string): (r: Option<Order>)
    ensures r.None? <==> forall k :: 0 <= k < |orders| ==> !LookupMatch(orders[k], orderId, email)
    ensures r.Some? ==> exists k :: 0 <= k < |orders| && orders[k] == r.value
                          && LookupMatch(orders[k], orderId, email)
                          && forall j :: 0 <= j < k ==> !LookupMatch(orders[j], orderId, email)
    decreases |orders|
  {
    if |orders| == 0 then None
    else if LookupMatch(orders[0], orderId, email) then Some(orders[0])
    else
      var r := FirstLookupMatch(orders[1..], orderId, email);
      assert forall k :: 1 <= k < |orders| ==> orders[k] == orders[1..][k - 1];
      r
  }

  lemma FirstLookupStep(orders: seq<Order>, i: nat, orderId: string, email: string)
    requires i < |orders|
    ensures FirstLookupMatch(orders[i..], orderId, email) ==
              if LookupMatch(orders[i], orderId, email) then Some(orders[i])
              else FirstLookupMatch(orders[i + 1..], orderId, email)
  {
    assert orders[i..][0] == orders[i];
    assert orders[i..][1..] == orders[i + 1..];
  }

  /** `order_lookup`: scan the orders, returning at the first one that matches both keys. */
  method OrderLookup(orders: seq<Order>, orderId: string, email: string) returns (r: Option<Order>)
    ensures r == FirstLookupMatch(orders, orderId, email)
  {
    var i := 0;
    assert orders[0..] == orders;
    while i < |orders|
      invariant 0 <= i <= |orders|
      invariant FirstLookupMatch(orders[i..], orderId, email) == FirstLookupMatch(orders, orderId, email)
    {
      FirstLookupStep(orders, i, orderId, email);
      if Lower(orders[i].orderId) == Lower(orderId) && Lower(orders[i].email) == Lower(email) {
        return Some(orders[i]);
      }
      i := i + 1;
    }
    return None;
  }

  /** Queries that differ only in case find the same order. */
  lemma {:induction false} LookupIgnoresCase(orders: seq<Order>, id1: string, e1: string, id2: string, e2: string)
    requires Lower(id1) == Lower(id2) && Lower(e1) == Lower(e2)
    ensures FirstLookupMatch(orders, id1, e1) == FirstLookupMatch(orders, id2, e2)
    decreases |orders|
  {
    if |orders| > 0 {
      LookupIgnoresCase(orders[1..], id1, e1, id2, e2);
    }
  }

  // ---------- order_cancel ----------

  /** Why a cancellation is or is not allowed; the elapsed time is in seconds. */
  datatype Reason =
    | OrderNotFound
    | NotFoundOrMissingCredentials
    | WithinSixtyMinutes(elapsed: int)
    | OverSixtyMinutes(elapsed: int)

  datatype Decision = Decision(cancelAllowed: bool, reason: Reason)

  /** The cancellation window, boundary included. */
  const CancelWindow: int := 3600

  /** The first order whose id matches, ignoring case: the `next(...)` search. */
  function FindById(orders: seq<Order>, orderId: string): (r: Option<Order>)
    ensures r.None? <==> forall k :: 0 <= k < |orders| ==> !EqualsIgnoreCase(orders[k].orderId, orderId)
    ensures r.Some? ==> exists k :: 0 <= k < |orders| && orders[k] == r.value
                          && EqualsIgnoreCase(orders[k].orderId, orderId)
                          && forall j :: 0 <= j < k ==> !EqualsIgnoreCase(orders[j].orderId, orderId)
    decreases |orders|
  {
    if |orders| == 0 then None
    else if EqualsIgnoreCase(orders[0].orderId, orderId) then Some(orders[0])
    else
      var r := FindById(orders[1..], orderId);
      assert forall k :: 1 <= k < |orders| ==> orders[k] == orders[1..][k - 1];
      r
  }

  /** An explicit timestamp overrides the clock. */
  function EvaluationInstant(timestamp: Option<int>, clock: int): int {
    timestamp.GetOr(clock)
  }

  /**
    * `order_cancel`: unknown ids are refused as not found; otherwise the
    * cancellation is allowed exactly when at most an hour has passed since
    * the order was created, and the reason carries the elapsed time.
    */
  function OrderCancel(orders: seq<Order>, orderId: string, timestamp: Option<int>, clock: int): (d: Decision)
    ensures FindById(orders, orderId).None? ==> d == Decision(false, OrderNotFound)
    ensures d.cancelAllowed ==> FindById(orders, orderId).Some?
                                && EvaluationInstant(timestamp, clock) - FindById(orders, orderId).value.createdAt
                                   <= CancelWindow
  {
    match FindById(orders, orderId)
    case None => Decision(false, OrderNotFound)
    case Some(o) =>
      var elapsed := EvaluationInstant(timestamp, clock) - o.createdAt;
      if elapsed <= CancelWindow then Decision(true, WithinSixtyMinutes(elapsed))
      else Decision(false, OverSixtyMinutes(elapsed))
  }

  /**
    * What `order_cancel` decides: not found exactly when no order has the
    * id, and otherwise allowed exactly within the hour, the reason carrying
    * the elapsed time.
    */
  lemma OrderCancelSpec(orders: seq<Order>, orderId: string, timestamp: Option<int>, clock: int)
    ensures var d := OrderCancel(orders, orderId, timestamp, clock);
            && (d.reason == OrderNotFound <==> forall k :: 0 <= k < |orders| ==> !EqualsIgnoreCase(orders[k].orderId, orderId))
            && (d.reason == OrderNotFound ==> !d.cancelAllowed)
            && (d.cancelAllowed <==>
                  FindById(orders, orderId).Some?
                  && EvaluationInstant(timestamp, clock) - FindById(orders, orderId).value.createdAt <= CancelWindow)
            && (FindById(orders, orderId).Some? ==>
                  var elapsed := EvaluationInstant(timestamp, clock) - FindById(orders, orderId).value.createdAt;
                  d.reason == if d.cancelAllowed then WithinSixtyMinutes(elapsed) else OverSixtyMinutes(elapsed))
  {
  }

  /** The order `order_lookup` found has an id `order_cancel` finds too. */
  lemma FoundOrderIsKnown(orders: seq<Order>, orderId: string, email: string)
    requires FirstLookupMatch(orders, orderId, email).Some?
    ensures FindById(orders, FirstLookupMatch(orders, orderId, email).value.orderId).Some?
  {
    var o := FirstLookupMatch(orders, orderId, email).value;
    var k :| 0 <= k < |orders| && orders[k] == o;
    assert EqualsIgnoreCase(orders[k].orderId, o.orderId);
  }

  /** No two orders share an id, ignoring case. */
  predicate DistinctIds(orders: seq<Order>) {
    forall i, j :: 0 <= i < j < |orders| ==> !EqualsIgnoreCase(orders[i].orderId, orders[j].orderId)
  }

  /**
    * `order_cancel` searches by id alone; with distinct ids it lands on the
    * very order `order_lookup` matched on id and email.
    */
  lemma CancelFindsVerifiedOrder(orders: seq<Order>, orderId: string, email: string)
    requires FirstLookupMatch(orders, orderId, email).Some? && DistinctIds(orders)
    ensures FindById(orders, FirstLookupMatch(orders, orderId, email).value.orderId)
            == FirstLookupMatch(orders, orderId, email)
  {
    var o := FirstLookupMatch(orders, orderId, email).value;
    var k :| 0 <= k < |orders| && orders[k] == o;
    FoundOrderIsKnown(orders, orderId, email);
    var f := FindById(orders, o.orderId).value;
    var k2 :| 0 <= k2 < |orders| && orders[k2] == f && EqualsIgnoreCase(orders[k2].orderId, o.orderId);
    assert k2 == k;
  }

  /** The hour rule applied to the order the id finds. */
  lemma CancelFound(orders: seq<Order>, orderId: string, o: Order, timestamp: Option<int>, clock: int)
    requires FindById(orders, orderId) == Some(o)
    ensures var elapsed := EvaluationInstant(timestamp, clock) - o.createdAt;
            OrderCancel(orders, orderId, timestamp, clock) ==
              if elapsed <= CancelWindow then Decision(true, WithinSixtyMinutes(elapsed))
              else Decision(false, OverSixtyMinutes(elapsed))
  {
  }

  /** The decision depends on the orders only through the order the id finds. */
  lemma CancelSameFind(a: seq<Order>, b: seq<Order>, orderId: string, timestamp: Option<int>, clock: int)
    requires FindById(a, orderId) == FindById(b, orderId)
    ensures OrderCancel(a, orderId, timestamp, clock) == OrderCancel(b, orderId, timestamp, clock)
  {
    match FindById(a, orderId)
    case None =>
    case Some(o) => CancelFound(a, orderId, o, timestamp, clock); CancelFound(b, orderId, o, timestamp, clock);
  }

  /** The boundary: exactly sixty minutes is still allowed, one second more is not. */
  lemma CancelBoundary(orders: seq<Order>, o: Order, clock: int)
    requires FindById(orders, o.orderId) == Some(o)
    ensures OrderCancel(orders, o.orderId, Some(o.createdAt + 3600), clock).cancelAllowed
    ensures !OrderCancel(orders, o.orderId, Some(o.createdAt + 3601), clock).cancelAllowed
    ensures OrderCancel(orders, o.orderId, Some(o.createdAt + 3601), clock).reason == OverSixtyMinutes(3601)
  {
  }

  /** With an explicit timestamp the clock is irrelevant. */
  lemma TimestampOverridesClock(orders: seq<Order>, orderId: string, t: int, c1: int, c2: int)
    ensures OrderCancel(orders, orderId, Some(t), c1) == OrderCancel(orders, orderId, Some(t), c2)
  {
  }

  /** Allowed at some instant means allowed at every earlier instant. */
  lemma CancelMonotone(orders: seq<Order>, orderId: string, t1: int, t2: int, clock: int)
    requires t1 <= t2
    requires OrderCancel(orders, orderId, Some(t2), clock).cancelAllowed
    ensures OrderCancel(orders, orderId, Some(t1), clock).cancelAllowed
  {
  }

  // ---------- parse_iso ----------

  /** The `Z` suffix rewritten to `+00:00` before the timestamp is parsed. */
  function NormalizeZulu(ts: string): (r: string)
    ensures !EndsWith(r, "Z")
    ensures EndsWith(ts, "Z") ==> |r| == |ts| + 5 && r[..|ts| - 1] == ts[..|ts| - 1] && EndsWith(r, "+00:00")
    ensures !EndsWith(ts, "Z") ==> r == ts
  {
    if EndsWith(ts, "Z") then
      var r := ts[..|ts| - 1] + "+00:00";
      assert r[|r| - 1..] == "0";
      r
    else ts
  }

  lemma NormalizeIdempotent(ts: string)
    ensures NormalizeZulu(NormalizeZulu(ts)) == NormalizeZulu(ts)
  {
  }
}
