/**
  * The five-stage support pipeline: a request-scoped state record threaded
  * through router, tool selector, policy guard, responder and trace, in
  * that order. The state is a class whose fields the stages update in
  * place; each stage is a method whose contract gives the record it
  * leaves as a pure step function (`RouterStep`, `ToolStep`, `GuardStep`,
  * `ResponderStep`) of the record it found. `Run` composes the steps from
  * the initial record, `Expected` reads the trace off it, and the lemmas
  * about them state what a whole run promises.
  */
module Graph {
  import opened Wrappers
  import opened Text
  import opened Patterns
  import opened Tools

  // ---------- Intents ----------

  datatype Intent = ProductAssist | OrderHelp | Other

  /** The intent as the trace spells it. */
  function IntentLabel(i: Intent): string {
    match i
    case ProductAssist => "product_assist"
    case OrderHelp => "order_help"
    case Other => "other"
  }

  /**
    * How the classification text a language model returns is read: "product"
    * anywhere wins, then "order", and anything else is `Other`. The text is
    * not lower-cased.
    */
  function InterpretClassification(text: string): (i: Intent)
    ensures Contains(text, "product") ==> i == ProductAssist
    ensures i == OrderHelp <==> !Contains(text, "product") && Contains(text, "order")
    ensures i == Other <==> !Contains(text, "product") && !Contains(text, "order")
  {
    if Contains(text, "product") then ProductAssist
    else if Contains(text, "order") then OrderHelp
    else Other
  }

  /** Each label the classifier is asked for is read back as its own intent. */
  lemma LabelsReadBack(i: Intent)
    ensures InterpretClassification(IntentLabel(i)) == i
  {
    match i
    case ProductAssist =>
      assert OccursAt("product_assist", 0, "product");
    case OrderHelp =>
      assert AbsentFrom("order_help", "product", 0);
      AbsentNotContains("order_help", "product");
      assert OccursAt("order_help", 0, "order");
    case Other =>
      AbsentNotContains("other", "product");
      AbsentNotContains("other", "order");
  }

  // ---------- Deterministic routing ----------

  const OrderKeywords: seq<string> :=
    ["cancel order", "order status", "order help", "where is my order", "order ", "refund"]

  const ProductKeywords: seq<string> := ["dress", "product", "wedding", "midi", "size", "eta", "zip"]

  /** Some keyword of `keys` occurs in `low`. */
  predicate MentionsAny(low: string, keys: seq<string>) {
    exists k :: k in keys && Contains(low, k)
  }

  /**
    * Keyword routing on the lower-cased prompt: order keywords are checked
    * first; a prompt with no keyword of either list is `Other`.
    */
  function RouteByKeywords(prompt: string): (r: Intent)
    ensures r == OrderHelp <==> exists k :: k in OrderKeywords && Contains(Lower(prompt), k)
    ensures r == ProductAssist ==> exists k :: k in ProductKeywords && Contains(Lower(prompt), k)
    ensures r == Other <==> forall k :: k in OrderKeywords + ProductKeywords ==> !Contains(Lower(prompt), k)
  {
    var low := Lower(prompt);
    if MentionsAny(low, OrderKeywords) then OrderHelp
    else if MentionsAny(low, ProductKeywords) then ProductAssist
    else Other
  }

  /** An order keyword decides the intent whatever product words appear beside it. */
  lemma OrderKeywordPrecedence(prompt: string)
    requires Contains(Lower(prompt), "refund") || Contains(Lower(prompt), "cancel order")
             || Contains(Lower(prompt), "order ")
    ensures RouteByKeywords(prompt) == OrderHelp
  {
    var low := Lower(prompt);
    if Contains(low, "refund") {
      assert "refund" in OrderKeywords;
    } else if Contains(low, "cancel order") {
      assert "cancel order" in OrderKeywords;
    } else {
      assert "order " in OrderKeywords;
    }
  }

  /**
    * Four of the six order keywords suffice: "order status" and "order help"
    * already contain "order ".
    */
  lemma OrderKeywordsReduce(prompt: string)
    ensures RouteByKeywords(prompt) == OrderHelp <==>
              Contains(Lower(prompt), "cancel order") || Contains(Lower(prompt), "where is my order")
              || Contains(Lower(prompt), "order ") || Contains(Lower(prompt), "refund")
  {
    var low := Lower(prompt);
    if Contains(low, "order status") {
      assert OccursAt("order status", 0, "order ");
      ContainsTransitive(low, "order status", "order ");
    }
    if Contains(low, "order help") {
      assert OccursAt("order help", 0, "order ");
      ContainsTransitive(low, "order help", "order ");
    }
    if MentionsAny(low, OrderKeywords) {
      var k :| k in OrderKeywords && Contains(low, k);
    }
    if Contains(low, "cancel order") || Contains(low, "where is my order") || Contains(low, "order ")
       || Contains(low, "refund") {
      assert "cancel order" in OrderKeywords && "where is my order" in OrderKeywords;
      assert "order " in OrderKeywords && "refund" in OrderKeywords;
    }
  }

  /** Routing does not depend on letter case. */
  lemma RouteIgnoresCase(prompt: string)
    ensures RouteByKeywords(Lower(prompt)) == RouteByKeywords(prompt)
  {
    LowerIdempotent(prompt);
  }

  // ---------- What the tool selector extracts and calls ----------

  /** The price ceiling in cents: whole units from the prompt, times 100. */
  function CapCents(prompt: string): (c: Option<nat>)
    ensures c.None? <==> PriceCap(prompt).None?
    ensures c.Some? ==> c.value == 100 * PriceCap(prompt).value
  {
    match PriceCap(prompt)
    case None => None
    case Some(units) => Some(units * 100)
  }

  /** The search the tool selector runs: the whole prompt as the query, the ceiling and the tags. */
  function SearchFor(catalog: seq<Product>, prompt: string): seq<Product> {
    ProductSearch(catalog, prompt, CapCents(prompt), RequestedTags(prompt))
  }

  /** `products[:2]`: the first two results, or all of them when fewer. */
  function Picks(catalog: seq<Product>, prompt: string): (picks: seq<Product>)
    ensures |picks| == if |SearchFor(catalog, prompt)| < 2 then |SearchFor(catalog, prompt)| else 2
    ensures picks == SearchFor(catalog, prompt)[..|picks|]
  {
    var found := SearchFor(catalog, prompt);
    if |found| <= 2 then found else found[..2]
  }

  /** Every pick is within the ceiling, and no other result sorts before a pick. */
  lemma PicksAreLeast(catalog: seq<Product>, prompt: string)
    ensures forall p :: p in Picks(catalog, prompt) && CapCents(prompt).Some? ==> p.price <= CapCents(prompt).value
    ensures forall i, j :: 0 <= i < |Picks(catalog, prompt)| <= j < |SearchFor(catalog, prompt)| ==>
              KeyLe(SearchFor(catalog, prompt)[i], SearchFor(catalog, prompt)[j])
  {
    var found := SearchFor(catalog, prompt);
    SortedAllPairs(found);
    if CapCents(prompt).Some? {
      SearchWithinCap(catalog, prompt, CapCents(prompt).value, RequestedTags(prompt));
    }
  }

  /** The evidence entries of the product path: id, title, price and sizes of each pick. */
  datatype Evidence =
    | PickEvidence(id: string, title: string, price: nat, sizes: seq<string>)
    | LookupEvidence(orderId: Option<string>, email: Option<string>, found: bool)

  function PickEvidenceOf(picks: seq<Product>): (ev: seq<Evidence>)
    ensures |ev| == |picks|
    ensures forall i :: 0 <= i < |ev| ==>
              ev[i] == PickEvidence(picks[i].id, picks[i].title, picks[i].price, picks[i].sizes)
  {
    seq(|picks|, i requires 0 <= i < |picks| =>
      PickEvidence(picks[i].id, picks[i].title, picks[i].price, picks[i].sizes))
  }

  /** The lookup happens only when the prompt yields both an order id and an email. */
  function LookupFor(orders: seq<Order>, orderId: Option<string>, email: Option<string>): (o: Option<Order>)
    ensures orderId.None? || email.None? ==> o.None?
    ensures o.Some? ==> o.value in orders && LookupMatch(o.value, orderId.value, email.value)
    ensures orderId.Some? && email.Some? ==> o == FirstLookupMatch(orders, orderId.value, email.value)
  {
    if orderId.Some? && email.Some? then FirstLookupMatch(orders, orderId.value, email.value) else None
  }

  /** The tools the selector calls for each intent, in call order. */
  function ToolCalls(intent: Intent): seq<string> {
    match intent
    case ProductAssist => [SearchCall, SizeCall, EtaCall]
    case OrderHelp => [LookupCall]
    case Other => []
  }

  /**
    * The evidence the selector records for each intent: one entry per pick,
    * or one entry for the lookup, or none.
    */
  function ToolEvidence(intent: Intent, catalog: seq<Product>, orders: seq<Order>, prompt: string): seq<Evidence> {
    match intent
    case ProductAssist => PickEvidenceOf(Picks(catalog, prompt))
    case OrderHelp =>
      [LookupEvidence(OrderId(prompt), Email(prompt), LookupFor(orders, OrderId(prompt), Email(prompt)).Some?)]
    case Other => []
  }

  // ---------- Policy ----------

  /**
    * The guard's decision: none outside order help; a refusal when no order
    * was verified; otherwise what `order_cancel` decides for the verified
    * order's id at the current instant.
    */
  function Guard(intent: Intent, order: Option<Order>, orders: seq<Order>, clock: int): (d: Option<Decision>)
    ensures d.None? <==> intent != OrderHelp
    ensures intent == OrderHelp && order.None? ==> d == Some(Decision(false, NotFoundOrMissingCredentials))
    ensures intent == OrderHelp && order.Some? ==> d == Some(OrderCancel(orders, order.value.orderId, None, clock))
  {
    if intent != OrderHelp then None
    else if order.None? then Some(Decision(false, NotFoundOrMissingCredentials))
    else Some(OrderCancel(orders, order.value.orderId, None, clock))
  }

  // ---------- Replies ----------

  /** The next-best options offered when a cancellation is refused. */
  datatype Alternative = EditAddress | StoreCredit | HumanHandoff

  /** The ways to save offered instead of a discount code. */
  datatype Saving = Newsletter | SeasonalSales | Wishlist

  const RefusalAlternatives: seq<Alternative> := [EditAddress, StoreCredit, HumanHandoff]
  const SavingTips: seq<Saving> := [Newsletter, SeasonalSales, Wishlist]

  /**
    * The deterministic replies, by branch and with the fields they embed.
    * In `CancelRefused` an absent reason stands for the default text
    * ">60 min"; in `Recommendations` an absent zip is what an `eta` record
    * without one shows.
    */
  datatype Reply =
    | NoMatches
    | Recommendations(picks: seq<Product>, size: string, rationale: Option<Rationale>, zip: Option<string>,
                      window: string)
    | OrderUnverified
    | CancelConfirmed(orderId: string)
    | CancelRefused(orderId: string, reason: Option<Reason>, alternatives: seq<Alternative>)
    | DiscountRefused(suggestions: seq<Saving>)

  /**
    * The responder's branch table. Absent fields read as the defaults of the
    * dictionary lookups: no picks, size "M" with no rationale, the
    * default window, and an empty decision (not allowed, no reason).
    */
  function ComposeReply(intent: Intent, products: Option<seq<Product>>, size: Option<SizeAdvice>,
                        eta: Option<EtaInfo>, order: Option<Order>, decision: Option<Decision>): (r: Reply)
    ensures r.NoMatches? <==> intent == ProductAssist && |products.GetOr([])| == 0
    ensures r.Recommendations? <==> intent == ProductAssist && |products.GetOr([])| > 0
    ensures r.Recommendations? ==> r.picks == products.value && |r.picks| > 0
    ensures r.OrderUnverified? <==> intent == OrderHelp && order.None?
    ensures r.CancelConfirmed? <==>
              intent == OrderHelp && order.Some? && decision.Some? && decision.value.cancelAllowed
    ensures r.CancelRefused? <==>
              intent == OrderHelp && order.Some? && !(decision.Some? && decision.value.cancelAllowed)
    ensures r.CancelConfirmed? ==> r.orderId == order.value.orderId
    ensures r.CancelRefused? ==> r.orderId == order.value.orderId && |r.alternatives| >= 2
    ensures r.CancelRefused? && decision.Some? ==> r.reason == Some(decision.value.reason)
    ensures r.DiscountRefused? <==> intent == Other
  {
    match intent
    case ProductAssist =>
      var picks := products.GetOr([]);
      if |picks| == 0 then NoMatches
      else
        var rec := if size.Some? then size.value.recommended else "M";
        var rationale := if size.Some? then Some(size.value.rationale) else None;
        var zip := if eta.Some? then Some(eta.value.zip) else None;
        var window := if eta.Some? then eta.value.window else DefaultWindow;
        Recommendations(picks, rec, rationale, zip, window)
    case OrderHelp =>
      if order.None? then OrderUnverified
      else if decision.Some? && decision.value.cancelAllowed then CancelConfirmed(order.value.orderId)
      else
        var reason := if decision.Some? then Some(decision.value.reason) else None;
        CancelRefused(order.value.orderId, reason, RefusalAlternatives)
    case Other => DiscountRefused(SavingTips)
  }

  // ---------- State and stages ----------

  /**
    * The state record as a value. Every field but the prompt starts absent.
    * `None` stands for a key not yet written; for `order`, `order_id`,
    * `email` and `policy_decision` it also stands for a key holding None,
    * which no stage reads differently along the paths that write it.
    */
  datatype Fields = Fields(prompt: string, intent: Option<Intent>, toolsCalled: seq<string>,
                           evidence: seq<Evidence>, policyDecision: Option<Decision>,
                           finalMessage: Option<Reply>, order: Option<Order>, orderId: Option<string>,
                           email: Option<string>, products: Option<seq<Product>>, size: Option<SizeAdvice>,
                           eta: Option<EtaInfo>)

  /** The state the graph is invoked with: the prompt and nothing else. */
  function Initial(prompt: string): Fields {
    Fields(prompt, None, [], [], None, None, None, None, None, None, None, None)
  }

  /** The state record the nodes update in place. */
  class AgentState {
    const prompt: string
    var intent: Option<Intent>
    var toolsCalled: seq<string>
    var evidence: seq<Evidence>
    var policyDecision: Option<Decision>
    var finalMessage: Option<Reply>
    var order: Option<Order>
    var orderId: Option<string>
    var email: Option<string>
    var products: Option<seq<Product>>
    var size: Option<SizeAdvice>
    var eta: Option<EtaInfo>

    /** The current contents of the record. */
    function State(): Fields
      reads this
    {
      Fields(prompt, intent, toolsCalled, evidence, policyDecision, finalMessage, order, orderId, email,
             products, size, eta)
    }

    constructor (prompt: string)
      ensures State() == Initial(prompt)
    {
      this.prompt := prompt;
      intent := None;
      toolsCalled := [];
      evidence := [];
      policyDecision := None;
      finalMessage := None;
      order := None;
      orderId := None;
      email := None;
      products := None;
      size := None;
      eta := None;
    }
  }

  /** The names the tools are logged under. */
  const SearchCall := "product_search"
  const SizeCall := "size_recommender"
  const EtaCall := "eta"
  const LookupCall := "order_lookup"

  // The effect of each node on the record.

  function RouterStep(f: Fields): Fields {
    f.(intent := Some(RouteByKeywords(f.prompt)), toolsCalled := [], evidence := [])
  }

  function ToolStep(f: Fields, catalog: seq<Product>, orders: seq<Order>): Fields
    requires f.intent.Some?
  {
    match f.intent.value
    case ProductAssist =>
      var picks := Picks(catalog, f.prompt);
      f.(toolsCalled := f.toolsCalled + [SearchCall, SizeCall, EtaCall],
         evidence := f.evidence + PickEvidenceOf(picks),
         products := Some(picks), size := Some(SizeRecommender(f.prompt)),
         eta := Some(Eta(ZipOrDefault(f.prompt))))
    case OrderHelp =>
      var oid := OrderId(f.prompt);
      var email := Email(f.prompt);
      var order := LookupFor(orders, oid, email);
      f.(toolsCalled := f.toolsCalled + [LookupCall],
         evidence := f.evidence + [LookupEvidence(oid, email, order.Some?)],
         orderId := oid, email := email, order := order)
    case Other => f
  }

  function GuardStep(f: Fields, orders: seq<Order>, clock: int): Fields
    requires f.intent.Some?
  {
    f.(policyDecision := Guard(f.intent.value, f.order, orders, clock))
  }

  function ResponderStep(f: Fields): Fields
    requires f.intent.Some?
  {
    f.(finalMessage := Some(ComposeReply(f.intent.value, f.products, f.size, f.eta, f.order, f.policyDecision)))
  }

  /**
    * The selector extends both logs by what the intent calls for, writes
    * the fields of that intent's path only, and leaves everything else as
    * it was.
    */
  lemma ToolStepEffect(f: Fields, catalog: seq<Product>, orders: seq<Order>)
    requires f.intent.Some?
    ensures var g := ToolStep(f, catalog, orders);
            && g.toolsCalled == f.toolsCalled + ToolCalls(f.intent.value)
            && g.evidence == f.evidence + ToolEvidence(f.intent.value, catalog, orders, f.prompt)
            && g.prompt == f.prompt && g.intent == f.intent
            && g.policyDecision == f.policyDecision && g.finalMessage == f.finalMessage
            && (f.intent.value == ProductAssist ==>
                  g.products == Some(Picks(catalog, f.prompt)) && g.size == Some(SizeRecommender(f.prompt))
                  && g.eta == Some(Eta(ZipOrDefault(f.prompt))))
            && (f.intent.value != ProductAssist ==> g.products == f.products && g.size == f.size && g.eta == f.eta)
            && (f.intent.value == OrderHelp ==>
                  g.orderId == OrderId(f.prompt) && g.email == Email(f.prompt)
                  && g.order == LookupFor(orders, OrderId(f.prompt), Email(f.prompt)))
            && (f.intent.value != OrderHelp ==> g.orderId == f.orderId && g.email == f.email && g.order == f.order)
  {
  }

  /** Classify the prompt and reset both logs. */
  method Router(s: AgentState)
    modifies s`intent, s`toolsCalled, s`evidence
    ensures s.State() == RouterStep(old(s.State()))
  {
    var low := Lower(s.prompt);
    var intent: Intent;
    if MentionsAny(low, OrderKeywords) {
      intent := OrderHelp;
    } else if MentionsAny(low, ProductKeywords) {
      intent := ProductAssist;
    } else {
      intent := Other;
    }
    s.intent := Some(intent);
    s.toolsCalled := [];
    s.evidence := [];
  }
  /** Appending three entries one at a time appends the three in order. */
  lemma AppendInOrder<T>(log: seq<T>, x: T, y: T, z: T)
    ensures log + [x] + [y] + [z] == log + [x, y, z]
  {
  }

  /** Record the product path's results: the three calls in order, the picks, the size, the estimate. */
  method RecordProductTools(s: AgentState, picks: seq<Product>, size: SizeAdvice, eta: EtaInfo)
    modifies s`toolsCalled, s`evidence, s`products, s`size, s`eta
    ensures s.toolsCalled == old(s.toolsCalled) + [SearchCall, SizeCall, EtaCall]
    ensures s.evidence == old(s.evidence) + PickEvidenceOf(picks)
    ensures s.products == Some(picks) && s.size == Some(size) && s.eta == Some(eta)
  {
    s.toolsCalled := s.toolsCalled + [SearchCall];
    s.toolsCalled := s.toolsCalled + [SizeCall];
    s.toolsCalled := s.toolsCalled + [EtaCall];
    AppendInOrder(old(s.toolsCalled), SearchCall, SizeCall, EtaCall);
    s.products := Some(picks);
    s.size := Some(size);
    s.eta := Some(eta);
    s.evidence := s.evidence + PickEvidenceOf(picks);
  }

  /**
    * The product path of the tool selector: search with the ceiling and the
    * tags, recommend a size, estimate delivery to the first postal code (or
    * "00000"), keep the first two results, and record them.
    */
  method SelectProductTools(s: AgentState, catalog: seq<Product>)
    modifies s`toolsCalled, s`evidence, s`products, s`size, s`eta
    ensures s.toolsCalled == old(s.toolsCalled) + [SearchCall, SizeCall, EtaCall]
    ensures s.evidence == old(s.evidence) + PickEvidenceOf(Picks(catalog, s.prompt))
    ensures s.products == Some(Picks(catalog, s.prompt))
    ensures s.size == Some(SizeRecommender(s.prompt))
    ensures s.eta == Some(Eta(ZipOrDefault(s.prompt)))
  {
    var picks := Picks(catalog, s.prompt);
    var size := SizeRecommender(s.prompt);
    var eta := Eta(ZipOrDefault(s.prompt));
    RecordProductTools(s, picks, size, eta);
  }

  /**
    * The order path of the tool selector: extract the order id and the
    * email, look the order up only when both are present, and log the
    * lookup and one evidence entry either way.
    */
  method SelectOrderTools(s: AgentState, orders: seq<Order>)
    modifies s`toolsCalled, s`evidence, s`orderId, s`email, s`order
    ensures s.toolsCalled == old(s.toolsCalled) + [LookupCall]
    ensures s.orderId == OrderId(s.prompt) && s.email == Email(s.prompt)
    ensures s.order == LookupFor(orders, OrderId(s.prompt), Email(s.prompt))
    ensures s.evidence == old(s.evidence) + [LookupEvidence(OrderId(s.prompt), Email(s.prompt), s.order.Some?)]
  {
    var prompt := s.prompt;
    var oid := OrderId(prompt);
    var email := Email(prompt);
    var order: Option<Order> := None;
    if oid.Some? && email.Some? {
      order := OrderLookup(orders, oid.value, email.value);
    }
    s.toolsCalled := s.toolsCalled + [LookupCall];
    s.orderId := oid;
    s.email := email;
    s.order := order;
    s.evidence := s.evidence + [LookupEvidence(oid, email, order.Some?)];
  }

  /** Dispatch on the intent to the product path, the order path, or nothing. */
  method ToolSelector(s: AgentState, catalog: seq<Product>, orders: seq<Order>)
    requires s.intent.Some?
    modifies s`toolsCalled, s`evidence, s`products, s`size, s`eta, s`orderId, s`email, s`order
    ensures s.State() == ToolStep(old(s.State()), catalog, orders)
  {
    ghost var before := s.State();
    match s.intent.value
    case ProductAssist =>
      SelectProductTools(s, catalog);
      assert s.State() == before.(toolsCalled := s.toolsCalled, evidence := s.evidence,
                                  products := s.products, size := s.size, eta := s.eta);
    case OrderHelp =>
      SelectOrderTools(s, orders);
      assert s.State() == before.(toolsCalled := s.toolsCalled, evidence := s.evidence,
                                  orderId := s.orderId, email := s.email, order := s.order);
    case Other =>
  }

  /** Decide on cancellation, for order requests only; `clock` is the current instant. */
  method PolicyGuard(s: AgentState, orders: seq<Order>, clock: int)
    requires s.intent.Some?
    modifies s`policyDecision
    ensures s.State() == GuardStep(old(s.State()), orders, clock)
  {
    if s.intent.value != OrderHelp {
      s.policyDecision := None;
      return;
    }
    var order := s.order;
    if order.None? {
      s.policyDecision := Some(Decision(false, NotFoundOrMissingCredentials));
      return;
    }
    var decision := OrderCancel(orders, order.value.orderId, None, clock);
    s.policyDecision := Some(decision);
  }

  /** Write the reply the branch table selects. */
  method Responder(s: AgentState)
    requires s.intent.Some?
    modifies s`finalMessage
    ensures s.State() == ResponderStep(old(s.State()))
  {
    var msg := ComposeReply(s.intent.value, s.products, s.size, s.eta, s.order, s.policyDecision);
    s.finalMessage := Some(msg);
  }

  /** The last stage hands the state on as it is. */
  method TraceStage(s: AgentState)
    ensures unchanged(s)
  {
  }

  // ---------- A whole run ----------

  /** What `run_agent` reports. */
  datatype Trace = Trace(intent: Intent, toolsCalled: seq<string>, evidence: seq<Evidence>,
                         policyDecision: Option<Decision>, finalMessage: Reply)

  /** The record after the four working nodes, from the prompt alone. */
  function Run(prompt: string, catalog: seq<Product>, orders: seq<Order>, clock: int): Fields {
    var routed := RouterStep(Initial(prompt));
    ResponderStep(GuardStep(ToolStep(routed, catalog, orders), orders, clock))
  }

  /** The trace read off the record a run ends with. */
  function Expected(prompt: string, catalog: seq<Product>, orders: seq<Order>, clock: int): Trace {
    var out := Run(prompt, catalog, orders, clock);
    Trace(out.intent.value, out.toolsCalled, out.evidence, out.policyDecision, out.finalMessage.value)
  }

  /** The trace of a product request: three tool calls, the picks as evidence, no decision. */
  function ProductTrace(catalog: seq<Product>, prompt: string): Trace {
    var picks := Picks(catalog, prompt);
    Trace(ProductAssist, [SearchCall, SizeCall, EtaCall], PickEvidenceOf(picks), None,
          ComposeReply(ProductAssist, Some(picks), Some(SizeRecommender(prompt)),
                       Some(Eta(ZipOrDefault(prompt))), None, None))
  }

  /** The trace of an order request, given the order id and the email the prompt yields. */
  function OrderTrace(orders: seq<Order>, orderId: Option<string>, email: Option<string>, clock: int): Trace {
    var order := LookupFor(orders, orderId, email);
    var decision := Guard(OrderHelp, order, orders, clock);
    Trace(OrderHelp, [LookupCall], [LookupEvidence(orderId, email, order.Some?)], decision,
          ComposeReply(OrderHelp, None, None, None, order, decision))
  }

  /** The trace of any other request. */
  const OtherTrace: Trace := Trace(Other, [], [], None, ComposeReply(Other, None, None, None, None, None))

  lemma RunProduct(prompt: string, catalog: seq<Product>, orders: seq<Order>, clock: int)
    requires RouteByKeywords(prompt) == ProductAssist
    ensures Expected(prompt, catalog, orders, clock) == ProductTrace(catalog, prompt)
  {
    var tooled := ToolStep(RouterStep(Initial(prompt)), catalog, orders);
    assert tooled.toolsCalled == [SearchCall, SizeCall, EtaCall];
    assert tooled.evidence == PickEvidenceOf(Picks(catalog, prompt));
  }

  lemma RunOrder(prompt: string, catalog: seq<Product>, orders: seq<Order>, clock: int)
    requires RouteByKeywords(prompt) == OrderHelp
    ensures Expected(prompt, catalog, orders, clock) == OrderTrace(orders, OrderId(prompt), Email(prompt), clock)
  {
    var tooled := ToolStep(RouterStep(Initial(prompt)), catalog, orders);
    assert tooled.toolsCalled == [LookupCall];
    assert tooled.order == LookupFor(orders, OrderId(prompt), Email(prompt));
  }

  /** By intent, a run's trace is the product, order or other trace. */
  lemma RunByIntent(prompt: string, catalog: seq<Product>, orders: seq<Order>, clock: int)
    ensures Expected(prompt, catalog, orders, clock).intent == RouteByKeywords(prompt)
    ensures RouteByKeywords(prompt) == ProductAssist ==> Expected(prompt, catalog, orders, clock) == ProductTrace(catalog, prompt)
    ensures RouteByKeywords(prompt) == OrderHelp ==>
              Expected(prompt, catalog, orders, clock) == OrderTrace(orders, OrderId(prompt), Email(prompt), clock)
    ensures RouteByKeywords(prompt) == Other ==> Expected(prompt, catalog, orders, clock) == OtherTrace
  {
    match RouteByKeywords(prompt)
    case ProductAssist => RunProduct(prompt, catalog, orders, clock);
    case OrderHelp => RunOrder(prompt, catalog, orders, clock);
    case Other =>
  }

  /**
    * The router empties both logs, so a run's trace holds exactly the
    * calls and the evidence of this request's path.
    */
  lemma RunLogsThisRequestOnly(prompt: string, catalog: seq<Product>, orders: seq<Order>, clock: int)
    ensures Expected(prompt, catalog, orders, clock).toolsCalled == ToolCalls(RouteByKeywords(prompt))
    ensures Expected(prompt, catalog, orders, clock).evidence ==
              ToolEvidence(RouteByKeywords(prompt), catalog, orders, prompt)
  {
    ToolStepEffect(RouterStep(Initial(prompt)), catalog, orders);
  }

  /**
    * `run_agent`: a fresh state through the five stages in order; the trace
    * is read off the final state and the reply is its final message.
    */
  method RunAgent(prompt: string, catalog: seq<Product>, orders: seq<Order>, clock: int)
    returns (trace: Trace, reply: Reply)
    ensures trace == Expected(prompt, catalog, orders, clock)
    ensures reply == trace.finalMessage
  {
    var s := new AgentState(prompt);
    Router(s);
    ToolSelector(s, catalog, orders);
    PolicyGuard(s, orders, clock);
    Responder(s);
    TraceStage(s);
    trace := Trace(s.intent.value, s.toolsCalled, s.evidence, s.policyDecision, s.finalMessage.value);
    reply := s.finalMessage.value;
  }

  // ---------- What a run promises ----------

  /**
    * A product request calls exactly the three product tools, in order,
    * makes no policy decision, and records one evidence entry per pick (at
    * most two): the leading search results, each within the price ceiling.
    */
  lemma ProductRequestTrace(catalog: seq<Product>, prompt: string)
    ensures ProductTrace(catalog, prompt).toolsCalled == [SearchCall, SizeCall, EtaCall]
    ensures ProductTrace(catalog, prompt).policyDecision == None
    ensures |ProductTrace(catalog, prompt).evidence| <= 2
    ensures forall i :: 0 <= i < |ProductTrace(catalog, prompt).evidence| ==>
              var e := ProductTrace(catalog, prompt).evidence[i];
              var p := SearchFor(catalog, prompt)[i];
              e == PickEvidence(p.id, p.title, p.price, p.sizes)
              && (PriceCap(prompt).Some? ==> e.price <= 100 * PriceCap(prompt).value)
  {
    var picks := Picks(catalog, prompt);
    PicksAreLeast(catalog, prompt);
    forall i | 0 <= i < |picks| ensures picks[i] in picks {
    }
  }

  /**
    * A product request is answered with the no-match text exactly when the
    * search finds nothing; otherwise with the picks, the recommended size
    * and the estimate for the postal code the prompt yields.
    */
  lemma ProductRequestReply(catalog: seq<Product>, prompt: string)
    ensures ProductTrace(catalog, prompt).finalMessage.NoMatches? <==> |SearchFor(catalog, prompt)| == 0
    ensures ProductTrace(catalog, prompt).finalMessage.Recommendations? ==>
              var r := ProductTrace(catalog, prompt).finalMessage;
              && r.picks == Picks(catalog, prompt)
              && r.size == SizeRecommender(prompt).recommended
              && r.zip == Some(ZipOrDefault(prompt))
              && r.window == Eta(ZipOrDefault(prompt)).window
              && r.rationale == Some(SizeRecommender(prompt).rationale)
  {
  }

  /**
    * An order request calls only the lookup, records exactly one evidence
    * entry whose `found` says whether an order was verified, and always
    * makes a decision. Without both an id and an email nothing is looked
    * up, the decision is the missing-credentials refusal and the reply
    * says the order could not be verified.
    */
  lemma OrderRequestTrace(orders: seq<Order>, orderId: Option<string>, email: Option<string>, clock: int)
    ensures OrderTrace(orders, orderId, email, clock).toolsCalled == [LookupCall]
    ensures OrderTrace(orders, orderId, email, clock).evidence ==
              [LookupEvidence(orderId, email, LookupFor(orders, orderId, email).Some?)]
    ensures OrderTrace(orders, orderId, email, clock).policyDecision.Some?
    ensures orderId.None? || email.None? ==>
              && OrderTrace(orders, orderId, email, clock).evidence[0].found == false
              && OrderTrace(orders, orderId, email, clock).policyDecision
                 == Some(Decision(false, NotFoundOrMissingCredentials))
              && OrderTrace(orders, orderId, email, clock).finalMessage == OrderUnverified
  {
  }

  /** The trace once the lookup has verified `o`: one lookup, found, and `order_cancel` on its id. */
  lemma VerifiedOrderTrace(orders: seq<Order>, orderId: Option<string>, email: Option<string>, clock: int, o: Order)
    requires LookupFor(orders, orderId, email) == Some(o)
    ensures var d := Some(OrderCancel(orders, o.orderId, None, clock));
            OrderTrace(orders, orderId, email, clock) ==
              Trace(OrderHelp, [LookupCall], [LookupEvidence(orderId, email, true)], d,
                    ComposeReply(OrderHelp, None, None, None, Some(o), d))
  {
  }

  /** Anything else calls no tool, records nothing, decides nothing and refuses discount codes. */
  lemma OtherRequestTrace(prompt: string, catalog: seq<Product>, orders: seq<Order>, clock: int)
    requires RouteByKeywords(prompt) == Other
    ensures Expected(prompt, catalog, orders, clock) == OtherTrace
    ensures OtherTrace.toolsCalled == [] && OtherTrace.evidence == [] && OtherTrace.policyDecision == None
    ensures OtherTrace.finalMessage == DiscountRefused(SavingTips)
  {
  }

  /** A policy decision is present exactly for order requests. */
  lemma DecisionOnlyForOrders(prompt: string, catalog: seq<Product>, orders: seq<Order>, clock: int)
    ensures Expected(prompt, catalog, orders, clock).policyDecision.Some? <==>
              Expected(prompt, catalog, orders, clock).intent == OrderHelp
  {
  }

  /**
    * An order that passed the lookup is always known to `order_cancel`, so a
    * run never reports it as not found.
    */
  lemma VerifiedOrderIsKnown(orders: seq<Order>, orderId: Option<string>, email: Option<string>, clock: int)
    requires LookupFor(orders, orderId, email).Some?
    ensures FindById(orders, LookupFor(orders, orderId, email).value.orderId).Some?
    ensures OrderTrace(orders, orderId, email, clock).policyDecision.value.reason != OrderNotFound
  {
    FoundOrderIsKnown(orders, orderId.value, email.value);
  }

  /**
    * A cancellation is confirmed exactly when the order was verified and at
    * most sixty minutes separate the creation of the first order with that
    * id from the current instant.
    */
  lemma ConfirmedOnlyWithinWindow(orders: seq<Order>, orderId: Option<string>, email: Option<string>, clock: int)
    ensures OrderTrace(orders, orderId, email, clock).finalMessage.CancelConfirmed? <==>
              && LookupFor(orders, orderId, email).Some?
              && FindById(orders, LookupFor(orders, orderId, email).value.orderId).Some?
              && clock - FindById(orders, LookupFor(orders, orderId, email).value.orderId).value.createdAt
                 <= CancelWindow
  {
    if LookupFor(orders, orderId, email).Some? {
      VerifiedOrderIsKnown(orders, orderId, email, clock);
    }
  }

  /**
    * A refused cancellation names the verified order, cites the elapsed
    * time over the hour, and offers at least two alternatives.
    */
  lemma RefusalCitesReason(orders: seq<Order>, orderId: Option<string>, email: Option<string>, clock: int)
    requires OrderTrace(orders, orderId, email, clock).finalMessage.CancelRefused?
    ensures LookupFor(orders, orderId, email).Some?
    ensures OrderTrace(orders, orderId, email, clock).finalMessage.orderId
            == LookupFor(orders, orderId, email).value.orderId
    ensures FindById(orders, LookupFor(orders, orderId, email).value.orderId).Some?
    ensures OrderTrace(orders, orderId, email, clock).finalMessage.reason ==
              Some(OverSixtyMinutes(clock - FindById(orders, LookupFor(orders, orderId, email).value.orderId)
                                              .value.createdAt))
    ensures |OrderTrace(orders, orderId, email, clock).finalMessage.alternatives| >= 2
  {
    VerifiedOrderIsKnown(orders, orderId, email, clock);
  }

  /**
    * When ids are unique up to case, the decision is about the very order
    * the lookup verified.
    */
  lemma DecisionConcernsVerifiedOrder(orders: seq<Order>, orderId: Option<string>, email: Option<string>,
                                      clock: int)
    requires LookupFor(orders, orderId, email).Some? && DistinctIds(orders)
    ensures OrderTrace(orders, orderId, email, clock).policyDecision ==
              Some(OrderCancel([LookupFor(orders, orderId, email).value],
                               LookupFor(orders, orderId, email).value.orderId, None, clock))
  {
    var o := LookupFor(orders, orderId, email).value;
    CancelFindsVerifiedOrder(orders, orderId.value, email.value);
    assert FindById([o], o.orderId) == Some(o);
    CancelSameFind(orders, [o], o.orderId, None, clock);
    assert OrderTrace(orders, orderId, email, clock).policyDecision == Guard(OrderHelp, Some(o), orders, clock);
  }
}
