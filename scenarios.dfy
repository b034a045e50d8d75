module Scenarios {
  import opened Wrappers
  import opened Text
  import opened Patterns
  import opened Tools
  import opened Graph

  /** The shape of the two cancellation prompts: "Cancel order <id> — email <local>@example.com." */
  function CancelPrompt(id: string, local: string): string {
    "Cancel order " + id + " \U{2014} email " + local + "@example.com."
  }

  predicate ShortId(id: string) {
    |id| == 5 && IsLetter(id[0]) && forall t :: 1 <= t < 5 ==> IsDigit(id[t])
  }

  predicate ShortLocal(local: string) {
    |local| == 4 && forall t :: 0 <= t < 4 ==> IsLetter(local[t])
  }

  lemma CancelLayout(id: string, local: string)
    requires |id| == 5 && |local| == 4
    ensures var s := CancelPrompt(id, local);
      && |s| == 44
      && s[..13] == "Cancel order "
      && s[13..18] == id
      && s[18..27] == " \U{2014} email "
      && s[27..31] == local
      && s[31..] == "@example.com."
  {
  }

  /** No bare id starts before the id: every character there is a space, or a letter not followed by a digit. */
  lemma CancelNoIdBefore(id: string, local: string)
    requires ShortId(id) && ShortLocal(local)
    ensures forall k: nat :: k < 13 ==> PlainIdAt(CancelPrompt(id, local), k).None?
  {
    var s := CancelPrompt(id, local);
    CancelLayout(id, local);
    assert forall i :: 0 <= i < 13 ==> s[i] == s[..13][i];
    assert forall i :: 1 <= i < 13 ==> !IsDigit("Cancel order "[i]);
    assert s[13] == id[0];
  }

  lemma CancelIdAt(id: string, local: string)
    requires ShortId(id) && ShortLocal(local)
    ensures PlainIdAt(CancelPrompt(id, local), 13) == Some(id)
  {
    var s := CancelPrompt(id, local);
    CancelLayout(id, local);
    assert forall i :: 13 <= i < 18 ==> s[i] == id[i - 13];
    assert s[18] == ' ';
    assert RunEnd(s, 14, Digit) == 18;
  }

  lemma CancelId(id: string, local: string)
    requires ShortId(id) && ShortLocal(local)
    ensures OrderId(CancelPrompt(id, local)) == Some(id)
  {
    CancelNoIdBefore(id, local);
    CancelIdAt(id, local);
    OrderIdIsLeftmost(CancelPrompt(id, local), 13);
  }

  /** Before the local part there is no `@`, and the character just before it is a space. */
  lemma CancelNoAtBefore(id: string, local: string)
    requires ShortId(id) && ShortLocal(local)
    ensures forall i :: 0 <= i < 27 ==> CancelPrompt(id, local)[i] != '@'
    ensures !InClass(CancelPrompt(id, local)[26], EmailLocal)
  {
    var s := CancelPrompt(id, local);
    CancelLayout(id, local);
    assert forall i :: 0 <= i < 13 ==> s[i] == s[..13][i];
    assert forall i :: 13 <= i < 18 ==> s[i] == id[i - 13];
    assert forall i :: 18 <= i < 27 ==> s[i] == s[18..27][i - 18];
    assert forall i :: 0 <= i < 13 ==> "Cancel order "[i] != '@';
    assert forall i :: 0 <= i < 9 ==> " \U{2014} email "[i] != '@';
  }

  /** No email match starts before the local part: every run of local-part characters there ends before an `@`. */
  lemma CancelNoEmailBefore(id: string, local: string)
    requires ShortId(id) && ShortLocal(local)
    ensures forall k: nat :: k < 27 ==> EmailAt(CancelPrompt(id, local), k).None?
  {
    var s := CancelPrompt(id, local);
    CancelNoAtBefore(id, local);
    forall k: nat | k < 27 ensures EmailAt(s, k).None? {
      if InClass(s[k], EmailLocal) {
        assert RunEnd(s, k, EmailLocal) <= 26;
      }
    }
  }

  /** The local part runs up to the `@`. */
  lemma CancelLocalPart(id: string, local: string)
    requires ShortId(id) && ShortLocal(local)
    ensures RunEnd(CancelPrompt(id, local), 27, EmailLocal) == 31 && CancelPrompt(id, local)[31] == '@'
  {
    var s := CancelPrompt(id, local);
    CancelLayout(id, local);
    assert forall i :: 27 <= i < 31 ==> s[i] == local[i - 27];
    assert s[31] == "@example.com."[0];
  }

  /** The domain part runs to the end, and its top-level-domain dot is the one before "com". */
  lemma CancelDomainPart(id: string, local: string)
    requires ShortId(id) && ShortLocal(local)
    ensures RunEnd(CancelPrompt(id, local), 32, EmailDomain) == 44
    ensures LastTldDot(CancelPrompt(id, local), 33, 44) == Some(39)
    ensures RunEnd(CancelPrompt(id, local), 40, Letter) == 43
  {
    var s := CancelPrompt(id, local);
    CancelLayout(id, local);
    assert forall i :: 31 <= i < 44 ==> s[i] == "@example.com."[i - 31];
    assert s[39] == '.' && s[43] == '.';
    assert forall t :: 40 <= t < 43 ==> IsLetter(s[t]);
    assert RunEnd(s, 40, Letter) == 43;
    assert RunEnd(s, 44, Letter) == 44;
    assert forall k :: 39 < k < 44 ==> !TldDotAt(s, k);
    LastTldDotAt(s, 33, 44, 39);
  }

  lemma CancelEmailAt(id: string, local: string)
    requires ShortId(id) && ShortLocal(local)
    ensures EmailAt(CancelPrompt(id, local), 27) == Some(local + "@example.com")
  {
    var s := CancelPrompt(id, local);
    CancelLayout(id, local);
    CancelLocalPart(id, local);
    CancelDomainPart(id, local);
    assert InClass(s[27], EmailLocal) by {
      assert s[27] == local[0];
    }
    EmailAtParts(s, 27, 31, 44, 39, 43);
    CancelEmailText(id, local);
  }

  lemma CancelEmailText(id: string, local: string)
    requires |id| == 5 && |local| == 4
    ensures CancelPrompt(id, local)[27..43] == local + "@example.com"
  {
    var s := CancelPrompt(id, local);
    CancelLayout(id, local);
    assert s[27..43] == s[27..31] + s[31..][..12];
  }

  lemma CancelEmail(id: string, local: string)
    requires ShortId(id) && ShortLocal(local)
    ensures Email(CancelPrompt(id, local)) == Some(local + "@example.com")
  {
    CancelNoEmailBefore(id, local);
    CancelEmailAt(id, local);
    EmailIsLeftmost(CancelPrompt(id, local), 27);
  }

  /** The lower-cased prompt starts with "cancel order", so the request is order help. */
  lemma CancelRoute(id: string, local: string)
    requires ShortId(id) && ShortLocal(local)
    ensures RouteByKeywords(CancelPrompt(id, local)) == OrderHelp
  {
    var s := CancelPrompt(id, local);
    var low := Lower(s);
    CancelLayout(id, local);
    assert low[..12] == "cancel order" by {
      forall i | 0 <= i < 12 ensures low[..12][i] == "cancel order"[i] {
        assert s[i] == s[..13][i];
        assert low[i] == LowerChar("Cancel order "[i]);
      }
    }
    assert OccursAt(low, 0, "cancel order");
    OrderKeywordPrecedence(s);
  }

  /** A run on a cancellation prompt is the order trace for its id and email. */
  lemma CancelTrace(id: string, local: string, catalog: seq<Product>, orders: seq<Order>, clock: int)
    requires ShortId(id) && ShortLocal(local)
    ensures Expected(CancelPrompt(id, local), catalog, orders, clock) ==
              OrderTrace(orders, Some(id), Some(local + "@example.com"), clock)
  {
    CancelRoute(id, local);
    CancelId(id, local);
    CancelEmail(id, local);
    RunByIntent(CancelPrompt(id, local), catalog, orders, clock);
  }

  /** The lookup verifies the `n`-th order when no earlier order has its id. */
  lemma KnownOrderLookup(orders: seq<Order>, id: string, email: string, n: nat)
    requires n < |orders| && LookupMatch(orders[n], id, email)
    requires forall j :: 0 <= j < n ==> !EqualsIgnoreCase(orders[j].orderId, id)
    ensures LookupFor(orders, Some(id), Some(email)) == Some(orders[n])
  {
    var r := FirstLookupMatch(orders, id, email);
    var k :| 0 <= k < |orders| && orders[k] == r.value && LookupMatch(orders[k], id, email)
             && forall j :: 0 <= j < k ==> !LookupMatch(orders[j], id, email);
    assert k == n;
  }

  /** The cancellation tool finds the `n`-th order by its id when no earlier order has that id. */
  lemma KnownOrderById(orders: seq<Order>, id: string, n: nat)
    requires n < |orders| && EqualsIgnoreCase(orders[n].orderId, id)
    requires forall j :: 0 <= j < n ==> !EqualsIgnoreCase(orders[j].orderId, id)
    ensures FindById(orders, orders[n].orderId) == Some(orders[n])
  {
    var f := FindById(orders, orders[n].orderId);
    var m :| 0 <= m < |orders| && orders[m] == f.value && EqualsIgnoreCase(orders[m].orderId, orders[n].orderId)
             && forall j :: 0 <= j < m ==> !EqualsIgnoreCase(orders[j].orderId, orders[n].orderId);
    assert m == n;
  }

  /**
    * The decision for an order the lookup verified: what `order_cancel`
    * decides for it, since it is also the first order with its id.
    */
  lemma KnownOrderDecision(orders: seq<Order>, id: string, email: string, clock: int, n: nat)
    requires n < |orders| && LookupMatch(orders[n], id, email)
    requires forall j :: 0 <= j < n ==> !EqualsIgnoreCase(orders[j].orderId, id)
    ensures LookupFor(orders, Some(id), Some(email)) == Some(orders[n])
    ensures FindById(orders, orders[n].orderId) == Some(orders[n])
    ensures var d := Some(OrderCancel(orders, orders[n].orderId, None, clock));
            OrderTrace(orders, Some(id), Some(email), clock) ==
              Trace(OrderHelp, [LookupCall], [LookupEvidence(Some(id), Some(email), true)], d,
                    ComposeReply(OrderHelp, None, None, None, Some(orders[n]), d))
  {
    KnownOrderLookup(orders, id, email, n);
    KnownOrderById(orders, id, n);
    VerifiedOrderTrace(orders, Some(id), Some(email), clock, orders[n]);
  }

  /** Within the hour the verified order's cancellation is confirmed. */
  lemma KnownOrderConfirmed(orders: seq<Order>, id: string, email: string, clock: int, n: nat)
    requires n < |orders| && LookupMatch(orders[n], id, email)
    requires forall j :: 0 <= j < n ==> !EqualsIgnoreCase(orders[j].orderId, id)
    requires clock - orders[n].createdAt <= CancelWindow
    ensures OrderTrace(orders, Some(id), Some(email), clock).policyDecision ==
              Some(Decision(true, WithinSixtyMinutes(clock - orders[n].createdAt)))
    ensures OrderTrace(orders, Some(id), Some(email), clock).finalMessage == CancelConfirmed(orders[n].orderId)
  {
    KnownOrderDecision(orders, id, email, clock, n);
    CancelFound(orders, orders[n].orderId, orders[n], None, clock);
  }

  /** After the hour the verified order's cancellation is refused, citing the elapsed time. */
  lemma KnownOrderRefused(orders: seq<Order>, id: string, email: string, clock: int, n: nat)
    requires n < |orders| && LookupMatch(orders[n], id, email)
    requires forall j :: 0 <= j < n ==> !EqualsIgnoreCase(orders[j].orderId, id)
    requires clock - orders[n].createdAt > CancelWindow
    ensures OrderTrace(orders, Some(id), Some(email), clock).policyDecision ==
              Some(Decision(false, OverSixtyMinutes(clock - orders[n].createdAt)))
    ensures OrderTrace(orders, Some(id), Some(email), clock).finalMessage ==
              CancelRefused(orders[n].orderId, Some(OverSixtyMinutes(clock - orders[n].createdAt)), RefusalAlternatives)
  {
    KnownOrderDecision(orders, id, email, clock, n);
    CancelFound(orders, orders[n].orderId, orders[n], None, clock);
    var d := Decision(false, OverSixtyMinutes(clock - orders[n].createdAt));
    assert OrderCancel(orders, orders[n].orderId, None, clock) == d;
    assert ComposeReply(OrderHelp, None, None, None, Some(orders[n]), Some(d)) ==
           CancelRefused(orders[n].orderId, Some(d.reason), RefusalAlternatives);
  }

  /**
    * A whole run on a cancellation prompt whose id and email match the
    * `n`-th order, no earlier order having that id: one lookup logged, the
    * verified order as evidence, and the hour rule deciding between a
    * confirmation and a refusal that cites the elapsed time.
    */
  lemma CancelRun(id: string, local: string, catalog: seq<Product>, orders: seq<Order>, clock: int, n: nat)
    requires ShortId(id) && ShortLocal(local)
    requires n < |orders| && LookupMatch(orders[n], id, local + "@example.com")
    requires forall j :: 0 <= j < n ==> !EqualsIgnoreCase(orders[j].orderId, id)
    ensures var elapsed := clock - orders[n].createdAt;
            Expected(CancelPrompt(id, local), catalog, orders, clock) ==
              Trace(OrderHelp, [LookupCall], [LookupEvidence(Some(id), Some(local + "@example.com"), true)],
                    if elapsed <= CancelWindow then Some(Decision(true, WithinSixtyMinutes(elapsed)))
                    else Some(Decision(false, OverSixtyMinutes(elapsed))),
                    if elapsed <= CancelWindow then CancelConfirmed(orders[n].orderId)
                    else CancelRefused(orders[n].orderId, Some(OverSixtyMinutes(elapsed)), RefusalAlternatives))
  {
    CancelTrace(id, local, catalog, orders, clock);
    KnownOrderDecision(orders, id, local + "@example.com", clock, n);
    if clock - orders[n].createdAt <= CancelWindow {
      KnownOrderConfirmed(orders, id, local + "@example.com", clock, n);
    } else {
      KnownOrderRefused(orders, id, local + "@example.com", clock, n);
    }
  }

  // ---------- Tests 2 and 3: cancellations ----------

  /** "Cancel order A1003 — email mira@example.com." */
  const AllowedPrompt := CancelPrompt("A1003", "mira")
  /** 2025-09-07T12:40:00Z in seconds since the epoch. */
  const AllowedInstant := 1757248800

  /** "Cancel order A1002 — email alex@example.com." */
  const RefusedPrompt := CancelPrompt("A1002", "alex")
  /** 2025-09-06T15:10:00Z in seconds since the epoch. */
  const RefusedInstant := 1757171400

  lemma AllowedPromptShape()
    ensures ShortId("A1003") && ShortLocal("mira") && "mira" + "@example.com" == "mira@example.com"
  {
  }

  lemma RefusedPromptShape()
    ensures ShortId("A1002") && ShortLocal("alex") && "alex" + "@example.com" == "alex@example.com"
  {
  }

  /** The evaluation instants are written with a `Z`, which the parser reads as "+00:00". */
  lemma TestInstantsNormalize()
    ensures NormalizeZulu("2025-09-07T12:40:00Z") == "2025-09-07T12:40:00+00:00"
    ensures NormalizeZulu("2025-09-06T15:10:00Z") == "2025-09-06T15:10:00+00:00"
  {
  }

  /** Test 2's prompt asks to cancel order A1003 for mira@example.com. */
  lemma AllowedPromptRun(catalog: seq<Product>, orders: seq<Order>, clock: int)
    ensures Expected(AllowedPrompt, catalog, orders, clock) ==
              OrderTrace(orders, Some("A1003"), Some("mira@example.com"), clock)
  {
    AllowedPromptShape();
    CancelTrace("A1003", "mira", catalog, orders, clock);
  }

  /** Test 3's prompt asks to cancel order A1002 for alex@example.com. */
  lemma RefusedPromptRun(catalog: seq<Product>, orders: seq<Order>, clock: int)
    ensures Expected(RefusedPrompt, catalog, orders, clock) ==
              OrderTrace(orders, Some("A1002"), Some("alex@example.com"), clock)
  {
    RefusedPromptShape();
    CancelTrace("A1002", "alex", catalog, orders, clock);
  }

  /** Test 2: order A1003, placed within the hour before the instant, may be cancelled. */
  lemma CancelAllowedScenario(orders: seq<Order>, n: nat)
    requires n < |orders| && orders[n].orderId == "A1003" && orders[n].email == "mira@example.com"
    requires forall j :: 0 <= j < n ==> !EqualsIgnoreCase(orders[j].orderId, "A1003")
    requires AllowedInstant - orders[n].createdAt <= CancelWindow
    ensures OrderTrace(orders, Some("A1003"), Some("mira@example.com"), AllowedInstant).policyDecision ==
              Some(Decision(true, WithinSixtyMinutes(AllowedInstant - orders[n].createdAt)))
    ensures OrderTrace(orders, Some("A1003"), Some("mira@example.com"), AllowedInstant).finalMessage ==
              CancelConfirmed("A1003")
  {
    KnownOrderConfirmed(orders, "A1003", "mira@example.com", AllowedInstant, n);
  }

  /** Test 3: order A1002, placed more than an hour before the instant, is refused with the elapsed time. */
  lemma CancelRefusedScenario(orders: seq<Order>, n: nat)
    requires n < |orders| && orders[n].orderId == "A1002" && orders[n].email == "alex@example.com"
    requires forall j :: 0 <= j < n ==> !EqualsIgnoreCase(orders[j].orderId, "A1002")
    requires RefusedInstant - orders[n].createdAt > CancelWindow
    ensures OrderTrace(orders, Some("A1002"), Some("alex@example.com"), RefusedInstant).policyDecision ==
              Some(Decision(false, OverSixtyMinutes(RefusedInstant - orders[n].createdAt)))
    ensures OrderTrace(orders, Some("A1002"), Some("alex@example.com"), RefusedInstant).finalMessage ==
              CancelRefused("A1002", Some(OverSixtyMinutes(RefusedInstant - orders[n].createdAt)), RefusalAlternatives)
  {
    KnownOrderRefused(orders, "A1002", "alex@example.com", RefusedInstant, n);
  }

  // ---------- Test 4: a request outside both paths ----------

  /** The prompt of Test 4, word by word. */
  const DiscountPrompt := "Can " + "you " + "give " + "me " + "a " + "discount " + "code " + "that " + "does" + "n\U{2019}t " + "exist?"

  predicate NoRWZ(c: char) {
    c != 'r' && c != 'R' && c != 'w' && c != 'W' && c != 'z' && c != 'Z'
  }

  predicate NoMiEt(c: char, d: char) {
    && !((c == 'm' || c == 'M') && (d == 'i' || d == 'I'))
    && !((c == 'e' || c == 'E') && (d == 't' || d == 'T'))
  }

  /** No character of `s` is an 'r', 'w' or 'z' in either case, and no two adjacent ones spell "mi" or "et". */
  predicate Clear(s: string) {
    && (forall i :: 0 <= i < |s| ==> NoRWZ(s[i]))
    && (forall i :: 0 <= i < |s| - 1 ==> NoMiEt(s[i], s[i + 1]))
  }

  lemma ClearCat(a: string, b: string)
    requires Clear(a) && Clear(b)
    requires |a| == 0 || |b| == 0 || NoMiEt(a[|a| - 1], b[0])
    ensures Clear(a + b)
  {
    var s := a + b;
    forall i | 0 <= i < |s| - 1 ensures NoMiEt(s[i], s[i + 1]) {
      if i + 1 < |a| {
        assert s[i] == a[i] && s[i + 1] == a[i + 1];
      } else if i + 1 == |a| {
        assert s[i] == a[|a| - 1] && s[i + 1] == b[0];
      } else {
        assert s[i] == b[i - |a|] && s[i + 1] == b[i + 1 - |a|];
      }
    }
  }

  /** A clear prompt contains none of the order or product keywords, so it is routed to Other. */
  lemma ClearRoute(s: string)
    requires Clear(s)
    ensures RouteByKeywords(s) == Other
  {
    var low := Lower(s);
    forall i | 0 <= i < |low| ensures low[i] != 'r' && low[i] != 'w' && low[i] != 'z' {
      assert NoRWZ(s[i]);
    }
    forall i | 0 <= i < |low| - 1
      ensures !(low[i] == 'm' && low[i + 1] == 'i') && !(low[i] == 'e' && low[i + 1] == 't')
    {
      assert NoMiEt(s[i], s[i + 1]);
    }
    AbsentChar(low, "cancel order", 8);
    AbsentChar(low, "order status", 1);
    AbsentChar(low, "order help", 1);
    AbsentChar(low, "where is my order", 3);
    AbsentChar(low, "order ", 1);
    AbsentChar(low, "refund", 0);
    AbsentChar(low, "dress", 1);
    AbsentChar(low, "product", 1);
    AbsentChar(low, "wedding", 0);
    AbsentPair(low, "midi", 0);
    AbsentChar(low, "size", 2);
    AbsentPair(low, "eta", 0);
    AbsentChar(low, "zip", 0);
  }

  lemma DiscountWordsA()
    ensures Clear("Can ") && Clear("you ") && Clear("give ")
  {
  }

  lemma DiscountWordsB()
    ensures Clear("me ") && Clear("a ") && Clear("discount ")
  {
  }

  lemma DiscountWordsC()
    ensures Clear("code ") && Clear("that ")
  {
  }

  lemma DiscountWordsD()
    ensures Clear("does") && Clear("n\U{2019}t ")
  {
  }

  lemma DiscountWordsE()
    ensures Clear("exist?")
  {
  }

  lemma DiscountClear()
    ensures Clear(DiscountPrompt)
  {
    DiscountWordsA();
    DiscountWordsB();
    DiscountWordsC();
    DiscountWordsD();
    DiscountWordsE();
    ClearCat("Can ", "you ");
    ClearCat("Can " + "you ", "give ");
    ClearCat("Can " + "you " + "give ", "me ");
    ClearCat("Can " + "you " + "give " + "me ", "a ");
    ClearCat("Can " + "you " + "give " + "me " + "a ", "discount ");
    ClearCat("Can " + "you " + "give " + "me " + "a " + "discount ", "code ");
    ClearCat("Can " + "you " + "give " + "me " + "a " + "discount " + "code ", "that ");
    ClearCat("Can " + "you " + "give " + "me " + "a " + "discount " + "code " + "that ", "does");
    ClearCat("Can " + "you " + "give " + "me " + "a " + "discount " + "code " + "that " + "does", "n\U{2019}t ");
    ClearCat("Can " + "you " + "give " + "me " + "a " + "discount " + "code " + "that " + "does" + "n\U{2019}t ", "exist?");
  }

  /** Test 4: no tool is called, no decision is made, and the reply declines with ways to save. */
  lemma DiscountScenario(catalog: seq<Product>, orders: seq<Order>, clock: int)
    ensures Expected(DiscountPrompt, catalog, orders, clock) ==
              Trace(Other, [], [], None, DiscountRefused([Newsletter, SeasonalSales, Wishlist]))
  {
    DiscountClear();
    ClearRoute(DiscountPrompt);
    RunByIntent(DiscountPrompt, catalog, orders, clock);
  }

  // ---------- Test 1: a product request ----------

  /** The Test 1 prompt, word by word: a lead, the price phrase, a middle part and the postal code. */
  const ProductLead := "Wedding " + "guest, " + "midi, "
  const ProductMiddle := "\U{2014} " + "I\U{2019}m " + "between " + "M/L. " + "ETA " + "to "
  const ProductPrompt := ProductLead + "under " + "$120 " + ProductMiddle + "560001?"

  /** The same, lower-cased. */
  const LowLead := "wedding " + "guest, " + "midi, "
  const LowMiddle := "\U{2014} " + "i\U{2019}m " + "between " + "m/l. " + "eta " + "to "
  const LowProduct := LowLead + "under " + "$120 " + LowMiddle + "560001?"

  lemma LowerAppend(a: string, b: string)
    ensures Lower(a + b) == Lower(a) + Lower(b)
  {
    assert forall i :: 0 <= i < |a + b| ==> Lower(a + b)[i] == (Lower(a) + Lower(b))[i];
  }

  lemma LowerLeadWords()
    ensures Lower("Wedding ") == "wedding " && Lower("guest, ") == "guest, " && Lower("midi, ") == "midi, "
  {
  }

  lemma LowerMiddleWordsA()
    ensures Lower("\U{2014} ") == "\U{2014} " && Lower("I\U{2019}m ") == "i\U{2019}m " && Lower("between ") == "between "
  {
  }

  lemma LowerMiddleWordsB()
    ensures Lower("M/L. ") == "m/l. " && Lower("ETA ") == "eta " && Lower("to ") == "to "
  {
  }

  lemma LowerTailWords()
    ensures Lower("under ") == "under " && Lower("$120 ") == "$120 " && Lower("560001?") == "560001?"
  {
  }

  lemma LowerLead()
    ensures Lower(ProductLead) == LowLead
  {
    LowerLeadWords();
    LowerAppend("Wedding ", "guest, ");
    LowerAppend("Wedding " + "guest, ", "midi, ");
  }

  lemma LowerMiddle()
    ensures Lower(ProductMiddle) == LowMiddle
  {
    LowerMiddleWordsA();
    LowerMiddleWordsB();
    LowerAppend("\U{2014} ", "I\U{2019}m ");
    LowerAppend("\U{2014} " + "I\U{2019}m ", "between ");
    LowerAppend("\U{2014} " + "I\U{2019}m " + "between ", "M/L. ");
    LowerAppend("\U{2014} " + "I\U{2019}m " + "between " + "M/L. ", "ETA ");
    LowerAppend("\U{2014} " + "I\U{2019}m " + "between " + "M/L. " + "ETA ", "to ");
  }

  lemma LowerProduct()
    ensures Lower(ProductPrompt) == LowProduct
  {
    LowerLead();
    LowerMiddle();
    LowerTailWords();
    LowerAppend(ProductLead, "under ");
    LowerAppend(ProductLead + "under ", "$120 ");
    LowerAppend(ProductLead + "under " + "$120 ", ProductMiddle);
    LowerAppend(ProductLead + "under " + "$120 " + ProductMiddle, "560001?");
  }

  /**
    * No 'f' or 'v', and no "or" or "lo" side by side: a lower-cased text
    * like this holds no order keyword, no "loose" and no "oversized".
    */
  predicate Plain(s: string) {
    && (forall i :: 0 <= i < |s| ==> s[i] != 'f' && s[i] != 'v')
    && (forall i :: 0 <= i < |s| - 1 ==> !(s[i] == 'o' && s[i + 1] == 'r') && !(s[i] == 'l' && s[i + 1] == 'o'))
  }

  lemma PlainCat(a: string, b: string)
    requires Plain(a) && Plain(b)
    requires |a| == 0 || |b| == 0 || (!(a[|a| - 1] == 'o' && b[0] == 'r') && !(a[|a| - 1] == 'l' && b[0] == 'o'))
    ensures Plain(a + b)
  {
    var s := a + b;
    forall i | 0 <= i < |s| - 1
      ensures !(s[i] == 'o' && s[i + 1] == 'r') && !(s[i] == 'l' && s[i + 1] == 'o')
    {
      if i + 1 < |a| {
        assert s[i] == a[i] && s[i + 1] == a[i + 1];
      } else if i + 1 == |a| {
        assert s[i] == a[|a| - 1] && s[i + 1] == b[0];
      } else {
        assert s[i] == b[i - |a|] && s[i + 1] == b[i + 1 - |a|];
      }
    }
  }

  lemma PlainLeadWords()
    ensures Plain("wedding ") && Plain("guest, ") && Plain("midi, ")
  {
  }

  lemma PlainMiddleWordsA()
    ensures Plain("\U{2014} ") && Plain("i\U{2019}m ") && Plain("between ")
  {
  }

  lemma PlainMiddleWordsB()
    ensures Plain("m/l. ") && Plain("eta ") && Plain("to ")
  {
  }

  lemma PlainTailWords()
    ensures Plain("under ") && Plain("$120 ") && Plain("560001?")
  {
  }

  lemma PlainLowProduct()
    ensures Plain(LowProduct)
  {
    PlainLeadWords();
    PlainMiddleWordsA();
    PlainMiddleWordsB();
    PlainTailWords();
    PlainCat("wedding ", "guest, ");
    PlainCat("wedding " + "guest, ", "midi, ");
    PlainCat("\U{2014} ", "i\U{2019}m ");
    PlainCat("\U{2014} " + "i\U{2019}m ", "between ");
    PlainCat("\U{2014} " + "i\U{2019}m " + "between ", "m/l. ");
    PlainCat("\U{2014} " + "i\U{2019}m " + "between " + "m/l. ", "eta ");
    PlainCat("\U{2014} " + "i\U{2019}m " + "between " + "m/l. " + "eta ", "to ");
    PlainCat(LowLead, "under ");
    PlainCat(LowLead + "under ", "$120 ");
    PlainCat(LowLead + "under " + "$120 ", LowMiddle);
    PlainCat(LowLead + "under " + "$120 " + LowMiddle, "560001?");
  }

  /** A plain prompt that mentions a wedding is a product request. */
  lemma PlainRoute(s: string)
    requires Plain(Lower(s)) && Contains(Lower(s), "wedding")
    ensures RouteByKeywords(s) == ProductAssist
  {
    var low := Lower(s);
    AbsentPair(low, "cancel order", 7);
    AbsentPair(low, "order status", 0);
    AbsentPair(low, "order help", 0);
    AbsentPair(low, "where is my order", 12);
    AbsentPair(low, "order ", 0);
    AbsentChar(low, "refund", 2);
    assert "wedding" in ProductKeywords;
  }

  /** A plain prompt asks for neither a loose nor an oversized fit, so the advice is "M". */
  lemma PlainFit(s: string)
    requires Plain(Lower(s))
    ensures SizeRecommender(s) == SizeAdvice("M", CloserFit)
  {
    AbsentPair(Lower(s), "loose", 0);
    AbsentChar(Lower(s), "oversized", 1);
  }

  lemma OccursInFront(a: string, b: string, k: nat, w: string)
    requires OccursAt(a, k, w)
    ensures OccursAt(a + b, k, w)
  {
    assert (a + b)[k..k + |w|] == a[k..k + |w|];
  }

  lemma LeadTags()
    ensures OccursAt(LowLead, 0, "wedding") && OccursAt(LowLead, 15, "midi")
  {
  }

  lemma ProductTagWords()
    ensures Contains(LowProduct, "wedding") && Contains(LowProduct, "midi")
  {
    LeadTags();
    OccursInFront(LowLead, "under ", 0, "wedding");
    OccursInFront(LowLead + "under ", "$120 ", 0, "wedding");
    OccursInFront(LowLead + "under " + "$120 ", LowMiddle, 0, "wedding");
    OccursInFront(LowLead + "under " + "$120 " + LowMiddle, "560001?", 0, "wedding");
    OccursInFront(LowLead, "under ", 15, "midi");
    OccursInFront(LowLead + "under ", "$120 ", 15, "midi");
    OccursInFront(LowLead + "under " + "$120 ", LowMiddle, 15, "midi");
    OccursInFront(LowLead + "under " + "$120 " + LowMiddle, "560001?", 15, "midi");
  }

  /** Test 1 is routed to product assistance. */
  lemma ProductRoute()
    ensures RouteByKeywords(ProductPrompt) == ProductAssist
  {
    LowerProduct();
    PlainLowProduct();
    ProductTagWords();
    PlainRoute(ProductPrompt);
  }

  /** Test 1 asks for the wedding and midi tags, in that order. */
  lemma ProductTags()
    ensures RequestedTags(ProductPrompt) == ["wedding", "midi"]
  {
    LowerProduct();
    ProductTagWords();
  }

  /** Test 1 gets size "M": it asks for no loose fit. */
  lemma ProductSize()
    ensures SizeRecommender(ProductPrompt) == SizeAdvice("M", CloserFit)
  {
    LowerProduct();
    PlainLowProduct();
    PlainFit(ProductPrompt);
  }

  /** Where no "un" starts before `n` and `n - 1` holds no 'u', "under" does not occur before `n`. */
  lemma NoUnderBefore(s: string, n: nat)
    requires n <= |s|
    requires forall i :: 0 <= i < n - 1 ==> !(s[i] == 'u' && s[i + 1] == 'n')
    requires n > 0 ==> s[n - 1] != 'u'
    ensures forall k: nat :: k < n ==> PriceCapAt(s, k).None?
  {
    forall k: nat | k < n ensures !OccursAt(s, k, "under") {
      if k + 5 <= |s| {
        assert s[k..k + 5][0] == s[k] && s[k..k + 5][1] == s[k + 1];
      }
    }
  }

  lemma DecimalOneTwenty()
    ensures DecimalValue("120") == 120
  {
    assert "120"[..2] == "12" && "12"[..1] == "1" && "1"[..0] == "";
  }

  /** "under $120 " at `n` gives a ceiling of 120. */
  lemma CapAtUnder(s: string, n: nat)
    requires n + 11 <= |s| && s[n..n + 11] == "under $120 "
    ensures PriceCapAt(s, n) == Some(120)
  {
    assert s[n..n + 5] == s[n..n + 11][..5];
    var w := s[n..n + 11];
    assert s[n + 5] == w[5] == ' ' && s[n + 6] == w[6] == '$';
    assert s[n + 7] == w[7] == '1' && s[n + 8] == w[8] == '2' && s[n + 9] == w[9] == '0' && s[n + 10] == w[10] == ' ';
    assert RunEnd(s, n + 5, Space) == n + 6;
    assert RunEnd(s, n + 7, Space) == n + 7;
    assert RunEnd(s, n + 7, Digit) == n + 10;
    assert s[n + 7..n + 10] == "120";
    DecimalOneTwenty();
  }

  lemma ProductCapText()
    ensures forall i :: 0 <= i < 20 ==> !(LowProduct[i] == 'u' && LowProduct[i + 1] == 'n')
    ensures LowProduct[20] != 'u'
    ensures LowProduct[21..32] == "under $120 "
  {
    assert forall i :: 0 <= i < 21 ==> LowProduct[i] == LowLead[i];
    assert forall i :: 0 <= i < 20 ==> !(LowLead[i] == 'u' && LowLead[i + 1] == 'n');
  }

  /** Test 1 sets a ceiling of 120, that is 12000 cents. */
  lemma ProductCap()
    ensures PriceCap(ProductPrompt) == Some(120)
    ensures CapCents(ProductPrompt) == Some(12000)
  {
    LowerProduct();
    ProductCapText();
    NoUnderBefore(LowProduct, 21);
    CapAtUnder(LowProduct, 21);
    PriceCapIsLeftmost(ProductPrompt, 21);
  }

  predicate NoDigits(s: string) {
    forall i :: 0 <= i < |s| ==> !IsDigit(s[i])
  }

  lemma NoDigitsCat(a: string, b: string)
    requires NoDigits(a) && NoDigits(b)
    ensures NoDigits(a + b)
  {
    forall i | 0 <= i < |a + b| ensures !IsDigit((a + b)[i]) {
      if i < |a| { assert (a + b)[i] == a[i]; } else { assert (a + b)[i] == b[i - |a|]; }
    }
  }

  lemma NoDigitsLeadWords()
    ensures NoDigits("Wedding ") && NoDigits("guest, ") && NoDigits("midi, ") && NoDigits("under ")
  {
  }

  lemma NoDigitsMiddleWords()
    ensures NoDigits("\U{2014} ") && NoDigits("I\U{2019}m ") && NoDigits("between ")
    ensures NoDigits("M/L. ") && NoDigits("ETA ") && NoDigits("to ")
  {
  }

  lemma ProductDigits()
    ensures NoDigits(ProductLead + "under ") && NoDigits(ProductMiddle)
  {
    NoDigitsLeadWords();
    NoDigitsMiddleWords();
    NoDigitsCat("Wedding ", "guest, ");
    NoDigitsCat("Wedding " + "guest, ", "midi, ");
    NoDigitsCat(ProductLead, "under ");
    NoDigitsCat("\U{2014} ", "I\U{2019}m ");
    NoDigitsCat("\U{2014} " + "I\U{2019}m ", "between ");
    NoDigitsCat("\U{2014} " + "I\U{2019}m " + "between ", "M/L. ");
    NoDigitsCat("\U{2014} " + "I\U{2019}m " + "between " + "M/L. ", "ETA ");
    NoDigitsCat("\U{2014} " + "I\U{2019}m " + "between " + "M/L. " + "ETA ", "to ");
  }

  /**
    * When the only digits before `n` are the three at `d`, followed by a
    * non-digit, no postal code starts before `n`.
    */
  lemma NoZipBefore(s: string, d: nat, n: nat)
    requires d + 3 < n <= |s|
    requires forall i :: 0 <= i < n && !(d <= i < d + 3) ==> !IsDigit(s[i])
    ensures forall k: nat :: k < n ==> ZipAt(s, k).None?
  {
    forall k: nat | k < n ensures ZipAt(s, k).None? {
      if d <= k < d + 3 {
        assert !IsDigit(s[d + 3]);
        assert RunEnd(s, k, Digit) <= d + 3;
      } else {
        assert RunEnd(s, k, Digit) == k;
      }
    }
  }

  /** "560001?" after a space is the postal code 560001. */
  lemma ZipAtEnd(s: string, n: nat)
    requires 0 < n && n + 7 <= |s| && s[n - 1] == ' ' && s[n..n + 7] == "560001?"
    ensures ZipAt(s, n) == Some("560001")
  {
    var w := s[n..n + 7];
    assert s[n] == w[0] == '5' && s[n + 1] == w[1] == '6' && s[n + 2] == w[2] == '0';
    assert s[n + 3] == w[3] == '0' && s[n + 4] == w[4] == '0' && s[n + 5] == w[5] == '1' && s[n + 6] == w[6] == '?';
    assert RunEnd(s, n, Digit) == n + 6;
    assert s[n..n + 6] == "560001";
  }

  lemma ProductZipText()
    ensures |ProductPrompt| == 65
    ensures forall i :: 0 <= i < 58 && !(28 <= i < 31) ==> !IsDigit(ProductPrompt[i])
    ensures ProductPrompt[57] == ' ' && ProductPrompt[58..65] == "560001?"
  {
    var a := ProductLead + "under ";
    ProductDigits();
    assert forall i :: 0 <= i < 27 ==> ProductPrompt[i] == a[i];
    assert forall i :: 32 <= i < 58 ==> ProductPrompt[i] == ProductMiddle[i - 32];
  }

  /** Test 1 asks about postal code 560001. */
  lemma ProductZip()
    ensures ZipOrDefault(ProductPrompt) == "560001"
  {
    ProductZipText();
    NoZipBefore(ProductPrompt, 28, 58);
    ZipAtEnd(ProductPrompt, 58);
    ZipIsLeftmost(ProductPrompt, 58);
  }

  /** 560001 starts with 56 and gets the slow window. */
  lemma SlowZip()
    ensures Eta("560001") == EtaInfo("560001", SlowWindow)
  {
    assert "560001"[..2] == "56";
  }

  lemma ProductEta()
    ensures Eta(ZipOrDefault(ProductPrompt)) == EtaInfo("560001", SlowWindow)
  {
    ProductZip();
    SlowZip();
  }

  /** Test 1 takes the product path. */
  lemma ProductPromptRun(catalog: seq<Product>, orders: seq<Order>, clock: int)
    ensures Expected(ProductPrompt, catalog, orders, clock) == ProductTrace(catalog, ProductPrompt)
  {
    ProductRoute();
    RunByIntent(ProductPrompt, catalog, orders, clock);
  }

  lemma RequestedTagsLower()
    ensures LowerSet(["wedding", "midi"]) == {"wedding", "midi"}
  {
    assert Lower("wedding") == "wedding" && Lower("midi") == "midi";
  }

  /**
    * Test 1 searches with a ceiling of 12000 cents and the tags wedding and
    * midi, so the query words do not matter: the results are exactly the
    * catalogue items within the ceiling that carry both tags.
    */
  lemma ProductSearchScenario(catalog: seq<Product>)
    ensures SearchFor(catalog, ProductPrompt) == ProductSearch(catalog, ProductPrompt, Some(12000), ["wedding", "midi"])
    ensures forall p :: p in SearchFor(catalog, ProductPrompt) <==>
              p in catalog && p.price <= 12000 && {"wedding", "midi"} <= LowerSet(p.tags)
  {
    ProductCap();
    ProductTags();
    RequestedTagsLower();
    var r := SearchFor(catalog, ProductPrompt);
    forall p ensures p in r <==> p in catalog && p.price <= 12000 && {"wedding", "midi"} <= LowerSet(p.tags) {
      assert p in r <==> multiset(r)[p] > 0;
      assert p in catalog <==> multiset(catalog)[p] > 0;
    }
  }

  /**
    * Test 1 calls the three product tools, makes no decision, and answers
    * with the leading results, size "M" for a closer fit, and the slow
    * window for 560001; with no results it says nothing matched.
    */
  lemma ProductScenario(catalog: seq<Product>)
    ensures ProductTrace(catalog, ProductPrompt).toolsCalled == [SearchCall, SizeCall, EtaCall]
    ensures ProductTrace(catalog, ProductPrompt).policyDecision == None
    ensures ProductTrace(catalog, ProductPrompt).finalMessage ==
              if |SearchFor(catalog, ProductPrompt)| == 0 then NoMatches
              else Recommendations(Picks(catalog, ProductPrompt), "M", Some(CloserFit), Some("560001"), SlowWindow)
  {
    ProductSize();
    ProductEta();
  }
}
