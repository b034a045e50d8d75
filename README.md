# A verified model of the support agent's deterministic core

The system is a small customer-support agent for an apparel shop. A request
(one prompt) flows through five stages over a shared state record: the
**router** classifies it as `product_assist`, `order_help` or `other`; the
**tool selector** calls the domain tools for that intent and records which
tools it called and the evidence they returned; the **policy guard** decides,
for order requests, whether a cancellation is allowed under the 60-minute
rule; the **responder** writes the reply; and **trace** passes the record
through unchanged. `run_agent` returns the trace (intent, tools called,
evidence, policy decision, final message) and the reply.

The domain tools are `product_search` (price ceiling, tags, query tokens,
sorted by price then id), `size_recommender` (M, or L for a loose fit), `eta`
(a delivery window by postal-code prefix), `order_lookup` (id and email,
ignoring case) and `order_cancel` (the first order with the id, allowed within
an hour of its creation).

The model has six modules:

- `Wrappers` holds `Option`.
- `Text` holds lower-casing, substring search, the character classes the
  regular expressions use, maximal character runs and Python's code-point
  string order.
- `Patterns` holds the regular-expression searches of the tool selector as
  scanners. Each one looks for a match at one position, and the generic
  `Leftmost` returns the first position that matches, as `re.search` does.
- `Tools` holds the five tools and the `Z` normalisation of `parse_iso`.
- `Graph` holds the stages. `AgentState` is a class whose fields the stage
  methods update in place. Each stage method's contract equates the new
  record with a pure step function of the old one. `Run` composes the steps,
  `Expected` reads the trace off the result, and `RunAgent` runs the stage
  methods in graph order and returns that trace.
- `Scenarios` holds the four seed requests as lemmas.

Representation choices:

- Catalogue prices are whole cents. The price ceiling found in a prompt is in
  whole units and is multiplied by 100.
- Instants are integer seconds. A cancellation is allowed when at most 3600
  seconds have passed.
- Tool results and replies are datatypes that carry the fields the text would
  show. The reply wording is not modelled.
- The catalogue, the orders and the current instant are parameters.

Behaviour of the code that the model keeps:

- Order keywords win over product keywords wherever they appear in the
  prompt.
- Once tags are requested, the query text is not consulted at all.
- The guard re-reads the order by id alone.
- A missing id or email logs the lookup as called even though no lookup
  runs.

## Model

| member | source | states |
|---|---|---|
| Text.Lower | src/graph_langgraph.py:74 | lower-casing keeps the length and maps each character to its lower-case form; upper-case ASCII letters move by 32 and everything else is unchanged |
| Text.LowerIdempotent | src/graph_langgraph.py:74 | lower-casing twice is the same as once |
| Text.LexLeTotal | src/tools.py:43 | the string order used for the id half of the sort key is total |
| Text.LexLeAntisymmetric | src/tools.py:43 | two ids each at most the other are equal |
| Text.LexLeTransitive | src/tools.py:43 | the id order is transitive |
| Patterns.LeftmostAt | src/graph_langgraph.py:93 | the search returns the capture at a matching position when no earlier position in range matches, as `re.search` does |
| Patterns.LeftmostFound | src/graph_langgraph.py:93 | a capture the search returns comes from a matching position with no match before it |
| Patterns.LeftmostNone | src/graph_langgraph.py:93 | the search returns nothing exactly when no position in range matches |
| Patterns.PriceCapAt | src/graph_langgraph.py:93 | "under" followed directly by a digit always starts a match of the price pattern |
| Patterns.PriceCapCapture | src/graph_langgraph.py:93-94 | a match of the price pattern is "under", then spaces with at most one `$`, then a whole digit run, and the capture is that run's decimal value |
| Patterns.PriceCapFromDigits | src/graph_langgraph.py:93-94 | conversely, "under" followed by spaces with at most one `$` and a whole digit run is a match capturing that run's value |
| Patterns.PriceCap | src/graph_langgraph.py:93-94 | there is no ceiling exactly when no position of the lower-cased prompt matches, so "under budget" gives none; a ceiling found is the capture at a matching position |
| Patterns.PriceCapIsLeftmost | src/graph_langgraph.py:93-94 | the price ceiling is the number after the first "under" in the lower-cased prompt that is followed by optional spaces, an optional `$`, optional spaces and digits |
| Patterns.NoUnderNoCap | src/graph_langgraph.py:93-94 | a prompt without "under" has no price ceiling |
| Patterns.RequestedTags | src/graph_langgraph.py:95-97 | "wedding" is requested exactly when the lower-cased prompt contains it, likewise "midi", and no other tag is ever requested |
| Patterns.ZipAt | src/graph_langgraph.py:102 | a match at a position is five or six digits occurring there, with no word character on either side and no digit after it |
| Patterns.ZipFromDigits | src/graph_langgraph.py:102 | conversely, five or six digits with no word character on either side are a match capturing exactly those digits |
| Patterns.ZipOrDefault | src/graph_langgraph.py:102-103 | the postal code is always five or six digits; it is "00000" when no standalone 5- or 6-digit run exists, and otherwise it occurs in the prompt |
| Patterns.ZipIsLeftmost | src/graph_langgraph.py:102-103 | the postal code is the first standalone run of five or six digits |
| Patterns.PlainIdAt | src/graph_langgraph.py:111 | a bare id starts at a position exactly when a letter and four digits start there; the match is a letter and digits, occurs there, and takes the whole digit run |
| Patterns.OrderIdAt | src/graph_langgraph.py:111 | a bare id at a position always matches; a match is a letter and four or more digits from the prompt; a capture other than the bare id needs "order" at that position |
| Patterns.OrderPrefixIrrelevant | src/graph_langgraph.py:111 | the optional "order" prefix never changes which id is captured: the first match with the prefix equals the first bare id |
| Patterns.OrderId | src/graph_langgraph.py:111-113 | a found id is a letter followed by four or more digits and occurs in the prompt; there is no id exactly when no position starts a letter followed by four digits |
| Patterns.OrderIdIsLeftmost | src/graph_langgraph.py:111-113 | the id is the one that starts leftmost |
| Patterns.EmailAt | src/graph_langgraph.py:112 | a match starts at a position exactly when a local-part character starts there, its greedy run ends at `@`, and the domain run after it holds a dot followed by two letters |
| Patterns.EmailEndsAtLetterRun | src/graph_langgraph.py:112 | a match ends where the letter run after its top-level-domain dot ends: the next character, if any, is not a letter |
| Patterns.EmailShape | src/graph_langgraph.py:112 | a match at a position is a local part, `@`, a domain part, a dot and two or more letters, all in the pattern's classes, and it occurs at that position |
| Patterns.Email | src/graph_langgraph.py:112-114 | a found email has that shape and occurs in the prompt; there is none exactly when no position starts a match |
| Patterns.EmailIsLeftmost | src/graph_langgraph.py:112-114 | the email is the match that starts leftmost |
| Patterns.LastTldDotIsLast | src/graph_langgraph.py:112 | the greedy domain gives back characters only until the last dot followed by two letters: no such dot lies to the right of the one chosen, and when none is chosen there is none at all |
| Tools.NormalizeZulu | src/tools.py:14-16 | a trailing `Z` becomes "+00:00" with the rest kept; other stamps are unchanged; the result never ends in `Z` |
| Tools.NormalizeIdempotent | src/tools.py:14-16 | normalising twice is the same as once |
| Tools.TokensFrom | src/tools.py:27-28 | the tokens are non-empty runs of `[a-z0-9]` taken from the query, and there are none exactly when the query has no such character |
| Tools.TokensAreRuns | src/tools.py:28 | each token is the whole run of `[a-z0-9]` at a place where such a run starts, and every such run is a token |
| Tools.Meaningful | src/tools.py:39 | a token is meaningful exactly when it is one of the query tokens and not a stop word |
| Tools.Matches | src/tools.py:29-41 | a matching item is within the ceiling; with tags, an item matches exactly when it is within the ceiling and carries all of them ignoring case; with no tags and some meaningful token, exactly when it is within the ceiling and some query token outside the stop list occurs in its title, tags and colour; with no meaningful token, exactly when it is within the ceiling |
| Tools.Filter | src/tools.py:29-42 | each item keeps its catalogue multiplicity when it matches the filter and is dropped otherwise |
| Tools.SortByKey | src/tools.py:43 | the result is ordered by price and then by id, and is a permutation of the input |
| Tools.ProductSearch | src/tools.py:25-44 | the results are sorted by (price, id) and are, counted with multiplicity, exactly the catalogue items that pass the filter |
| Tools.InResultMatches | src/tools.py:29-42 | every result is a catalogue item that passes the filter |
| Tools.SearchWithinCap | src/tools.py:30-31 | no result costs more than the ceiling |
| Tools.SearchTagSuperset | src/tools.py:32-35 | with tags requested, every result carries all of them, ignoring case |
| Tools.SearchTagsSkipQuery | src/tools.py:32-36 | with tags requested, the query text does not affect the results |
| Tools.SearchNoMeaningfulTokens | src/tools.py:37-40 | a query made only of stop words filters by price alone |
| Tools.SortedArrangementUnique | src/tools.py:43 | two sorted permutations of a list whose ids are unique are equal |
| Tools.SearchOrderDetermined | src/tools.py:43 | with unique ids, the sorted arrangement the search returns is the only one |
| Tools.SizeRecommender | src/tools.py:46-53 | the advice is "L" exactly when the text mentions "loose" or "oversized" in any case, and "M" otherwise; the rationale matches the branch |
| Tools.SizeIgnoresCase | src/tools.py:47 | lower-casing the text first does not change the advice |
| Tools.Eta | src/tools.py:55-63 | the zip is echoed; prefix "56" gets 3–5 days; otherwise "10", "11" and "12" get 2–3 days; everything else gets 2–5 days |
| Tools.EtaByPrefix | src/tools.py:57-62 | two codes sharing their first two characters get the same window |
| Tools.EtaShortCode | src/tools.py:57-62 | a code shorter than two characters gets the default window |
| Tools.FirstLookupMatch | src/tools.py:65-70 | there is no result exactly when no order matches both id and email, ignoring case; otherwise the result is the first order that does |
| Tools.OrderLookup | src/tools.py:65-70 | the loop returns the first order matching id and email, or nothing |
| Tools.LookupIgnoresCase | src/tools.py:68 | keys that agree after lower-casing find the same order |
| Tools.FindById | src/tools.py:74 | the search finds nothing exactly when no order has the id, ignoring case, and otherwise finds the first order that does |
| Tools.OrderCancel | src/tools.py:72-82 | an id no order has gives "not allowed, not found"; an allowed cancellation has a found order created at most an hour before the instant |
| Tools.OrderCancelSpec | src/tools.py:72-82 | the reason is "not found" exactly when no order has the id, and then cancellation is refused; otherwise cancellation is allowed exactly when at most an hour has passed since creation, and the reason carries the elapsed time in both cases |
| Tools.FoundOrderIsKnown | src/tools.py:65-76 | an order the lookup returns is always found again by its id |
| Tools.CancelFindsVerifiedOrder | src/tools.py:65-76 | with distinct ids, the cancellation search lands on the very order the lookup verified |
| Tools.CancelFound | src/tools.py:77-82 | for a found order, the decision is allowed within the hour and refused after it, with the elapsed time |
| Tools.CancelBoundary | src/tools.py:79-82 | for the order the id search finds, wherever it sits, exactly one hour after creation is still allowed, and one second later is refused with the elapsed time |
| Tools.TimestampOverridesClock | src/tools.py:78 | an explicit timestamp makes the current clock irrelevant |
| Tools.CancelMonotone | src/tools.py:79-82 | if cancelling is allowed at an instant, it is allowed at every earlier instant |
| Graph.InterpretClassification | src/graph_langgraph.py:72 | "product" anywhere in the returned text gives product_assist; otherwise "order" gives order_help; otherwise other |
| Graph.LabelsReadBack | src/graph_langgraph.py:72 | each intent's own label is read back as that intent |
| Graph.RouteByKeywords | src/graph_langgraph.py:74-80 | order help exactly when some order keyword occurs in the lower-cased prompt; product assist only when some product keyword occurs; other exactly when no keyword of either list occurs |
| Graph.OrderKeywordPrecedence | src/graph_langgraph.py:74-78 | a prompt containing "refund", "cancel order" or "order " routes to order help, whatever product words it also contains |
| Graph.OrderKeywordsReduce | src/graph_langgraph.py:75-76 | a prompt routes to order help exactly when it contains "cancel order", "where is my order", "order " or "refund", ignoring case |
| Graph.RouteIgnoresCase | src/graph_langgraph.py:74 | the route depends only on the lower-cased prompt |
| Graph.CapCents | src/graph_langgraph.py:93-94 | the ceiling passed to the search exists exactly when the prompt has a price ceiling, and is 100 times it |
| Graph.Picks | src/graph_langgraph.py:104 | the picks are the first two results, or all of them when there are fewer |
| Graph.PicksAreLeast | src/graph_langgraph.py:98-104 | every pick is within the ceiling and sorts at or before every result that was not picked |
| Graph.PickEvidenceOf | src/graph_langgraph.py:108 | one evidence entry per pick, in order, carrying the pick's id, title, price and sizes |
| Graph.LookupFor | src/graph_langgraph.py:115 | without both an id and an email there is no order; with both it is what `order_lookup` returns; an order found is in the data and matches both |
| Graph.Guard | src/graph_langgraph.py:123-133 | there is a decision exactly for order help; with no verified order it is a refusal for missing credentials; otherwise it is what `order_cancel` decides for the order's id at the current instant |
| Graph.ComposeReply | src/graph_langgraph.py:157-185 | the reply branch is determined by intent, picks, verified order and decision. Recommendations carry the picks. Confirmations and refusals name the order. A refusal cites the decision's reason and offers at least two alternatives. Anything outside the two paths is a discount refusal |
| Graph.AgentState.constructor | src/graph_langgraph.py:50-63 | the record starts with the prompt alone |
| Graph.Router | src/graph_langgraph.py:68-84 | the router sets the keyword intent, empties both logs and changes nothing else |
| Graph.RecordProductTools | src/graph_langgraph.py:99-108 | the three product tools are logged in call order; their results and the picks' evidence are stored |
| Graph.SelectProductTools | src/graph_langgraph.py:91-108 | the product path logs search, size and eta, and stores the first two results, the size advice and the window for the postal code |
| Graph.SelectOrderTools | src/graph_langgraph.py:110-118 | the order path logs the lookup, stores the id, email and verified order, and appends one evidence entry recording whether an order was found |
| Graph.ToolSelector | src/graph_langgraph.py:86-121 | the selector's new record is the tool step of the old one |
| Graph.ToolStepEffect | src/graph_langgraph.py:86-121 | the tool step appends exactly its intent's tool calls and evidence, writes only its own path's fields and leaves the rest unchanged |
| Graph.PolicyGuard | src/graph_langgraph.py:123-133 | the guard sets only the policy decision |
| Graph.Responder | src/graph_langgraph.py:135-186 | the responder sets only the final message, from the branch table |
| Graph.TraceStage | src/graph_langgraph.py:188-190 | the trace stage changes nothing |
| Graph.RunAgent | src/graph_langgraph.py:208-218 | running the five stages in graph order returns the trace of the composed steps, with the reply equal to its final message |
| Graph.RunByIntent | src/graph_langgraph.py:193-218 | a run has the keyword intent and is the product trace, the order trace for the prompt's id and email, or the fixed trace for other requests |
| Graph.RunProduct | src/graph_langgraph.py:193-218 | a run routed to product assist is the product trace |
| Graph.RunOrder | src/graph_langgraph.py:193-218 | a run routed to order help is the order trace for the prompt's id and email |
| Graph.RunLogsThisRequestOnly | src/graph_langgraph.py:81-83 | the logs of a run hold exactly this request's tool calls and evidence |
| Graph.ProductRequestTrace | src/graph_langgraph.py:91-108 | a product request logs search, size and eta, makes no decision, and records at most two evidence entries, each being a leading search result within the ceiling |
| Graph.ProductRequestReply | src/graph_langgraph.py:158-170 | the reply says nothing matched exactly when the search is empty; otherwise it carries the picks, the advised size with its rationale, the postal code and the window for it |
| Graph.OrderRequestTrace | src/graph_langgraph.py:110-133 | an order request logs one lookup and always decides; without both an id and an email it records not found, refuses for missing credentials and replies that the order could not be verified |
| Graph.VerifiedOrderTrace | src/graph_langgraph.py:123-133 | once an order is verified, the decision is `order_cancel` on its id and the evidence records it found |
| Graph.OtherRequestTrace | src/graph_langgraph.py:182-184 | any other request calls no tool, records nothing, decides nothing and refuses with the three ways to save |
| Graph.DecisionOnlyForOrders | src/graph_langgraph.py:123-126 | a run carries a policy decision exactly when it is an order request |
| Graph.VerifiedOrderIsKnown | src/graph_langgraph.py:127-131 | a verified order is never refused as "not found" |
| Graph.ConfirmedOnlyWithinWindow | src/graph_langgraph.py:171-177 | the reply confirms a cancellation exactly when an order was verified and at most an hour has passed since the order found by its id was created |
| Graph.RefusalCitesReason | src/graph_langgraph.py:178-181 | a refusal names the verified order, cites the elapsed time over the hour and offers at least two alternatives |
| Graph.DecisionConcernsVerifiedOrder | src/graph_langgraph.py:131 | with distinct ids, the decision is the one `order_cancel` would reach on the verified order alone |
| Scenarios.ProductRoute | tests/run_langgraph.py:26-29 | Test 1 routes to product assist |
| Scenarios.ProductCap | tests/run_langgraph.py:26-29 | Test 1's ceiling is 120, that is 12000 cents |
| Scenarios.ProductTags | tests/run_langgraph.py:26-29 | Test 1 requests the tags wedding and midi, in that order |
| Scenarios.ProductSize | tests/run_langgraph.py:26-29 | Test 1 gets size M for a closer fit |
| Scenarios.ProductZip | tests/run_langgraph.py:26-29 | Test 1's postal code is 560001 |
| Scenarios.ProductEta | tests/run_langgraph.py:26-29 | Test 1 gets the 3–5 day window for 560001 |
| Scenarios.ProductPromptRun | tests/run_langgraph.py:26-29 | a run on Test 1 is the product trace |
| Scenarios.ProductSearchScenario | tests/run_langgraph.py:26-29 | Test 1's results are exactly the catalogue items at most 12000 cents that carry both tags |
| Scenarios.ProductScenario | tests/run_langgraph.py:26-29 | Test 1 logs the three product tools, makes no decision, and recommends the leading results with size M and the slow window, or says nothing matched |
| Scenarios.CancelId | tests/run_langgraph.py:31-41 | a cancellation prompt of the test shape yields its order id |
| Scenarios.CancelEmail | tests/run_langgraph.py:31-41 | a cancellation prompt of the test shape yields its email |
| Scenarios.CancelRoute | tests/run_langgraph.py:31-41 | a cancellation prompt routes to order help |
| Scenarios.CancelTrace | tests/run_langgraph.py:31-41 | a run on a cancellation prompt is the order trace for its id and email |
| Scenarios.KnownOrderDecision | tests/run_langgraph.py:31-41 | when the n-th order matches and no earlier order has its id, the lookup and the id search both find it and the trace is the verified-order trace |
| Scenarios.KnownOrderConfirmed | tests/run_langgraph.py:31-35 | within the hour, that order's cancellation is allowed with the elapsed time and confirmed |
| Scenarios.KnownOrderRefused | tests/run_langgraph.py:37-41 | after the hour, it is refused with the elapsed time and the alternatives |
| Scenarios.CancelRun | tests/run_langgraph.py:31-41 | a whole run on a cancellation prompt for such an order logs one lookup, records it found, and confirms or refuses by the hour rule |
| Scenarios.TestInstantsNormalize | tests/run_langgraph.py:31-41 | the two evaluation instants, written with `Z`, are read as UTC offsets |
| Scenarios.AllowedPromptRun | tests/run_langgraph.py:31-35 | Test 2 is the order trace for A1003 and mira@example.com |
| Scenarios.CancelAllowedScenario | tests/run_langgraph.py:31-35 | with A1003 created within the hour before the instant, the decision is allowed and the reply confirms A1003 |
| Scenarios.RefusedPromptRun | tests/run_langgraph.py:37-41 | Test 3 is the order trace for A1002 and alex@example.com |
| Scenarios.CancelRefusedScenario | tests/run_langgraph.py:37-41 | with A1002 created more than an hour before the instant, the decision is refused and the reply cites the elapsed time with the alternatives |
| Scenarios.ClearRoute | tests/run_langgraph.py:43-46 | a prompt without any keyword letters routes to other |
| Scenarios.DiscountScenario | tests/run_langgraph.py:43-46 | Test 4 calls no tool, records nothing, decides nothing and refuses the discount code with the newsletter, seasonal-sales and wishlist suggestions |

## Left out

- The model leaves out `call_llm` and `use_llm`, the language-model call and the switch that enables it. External services are not modelled. Only the reading of the classification text (`InterpretClassification`) is modelled, and a run always takes the deterministic keyword route.
- The model leaves out the responder's language-model reply: its JSON context and instruction text are inputs to an external service.
- The model leaves out `build_graph` and the LangGraph runtime. The graph is a fixed linear order, so `RunAgent` calls the stages directly in that order.
- `_load_json` and the data files `products.json` and `orders.json` are not part of this model. The catalogue and the orders are parameters.
- The model leaves out `utcnow`, the `NOW_ISO` variable and `datetime.fromisoformat`. The current instant is an integer parameter `clock`, and order creation times are integers on the same scale. Only the `Z` to "+00:00" rewrite of `parse_iso` is modelled.
- Tools.OrderCancel: the source compares floating-point minutes with a tolerance (`delta <= 60.0 + 1e-9`); the model compares whole seconds with 3600. The reason keeps the elapsed seconds rather than the text with minutes to one decimal.
- Tools.Product: prices are whole cents rather than Python floats. The price ceiling is taken in whole units, as `\d+` only matches integers.
- Text.Lower: only ASCII letters are lower-cased, where Python's `str.lower` is Unicode-wide. Likewise `\d` and `\w` are modelled as ASCII. `\s` is modelled as Python's Unicode whitespace.
- Graph.ComposeReply: replies are datatypes that carry the fields the message embeds. The exact wording, bullets and emoji are not modelled.
- Graph.ComposeReply: its `None` arguments model a key that was never written, for which `state.get("size", {})`, `state.get("eta", {})` and `state.get("policy_decision", {})` return the empty default. A key holding None would instead make the next `.get` raise AttributeError. The pipeline never reaches that case, because the guard and the product path always write non-None values before the responder reads them.
- Tools.TokensFrom: the contracts say which strings the tokens are, not the order of the list. Only membership is read by the filter.
- Tools.SortByKey: Python's stable `list.sort` is modelled as a stable insertion sort. With unique ids every sorted arrangement is the same (`SearchOrderDetermined`).
- Tools.Product: the `tags` and `color` keys are assumed present. The `.get(..., [])` and `.get(..., "")` defaults for missing keys are not modelled.
- Graph.Guard: Python tests a dictionary's truth, so an empty order record would count as missing. Order records are never empty here, so an order is treated as present exactly when one was found.
