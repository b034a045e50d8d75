/**
  * The regular-expression extractors the tool selector applies to the
  * prompt. Each pattern is written as a function `XAt(s, i)` giving the
  * capture a match starting at index `i` would yield (or None); the
  * leftmost search `Leftmost` over those is what `re.search` returns.
  *
  *   price cap   under\s*\$?\s*(\d+)              on the lower-cased prompt
  *   postal code (\b\d{5,6}\b)
  *   order id    (?:order\s*)?([A-Za-z]\d{4,})
  *   email       ([A-Za-z0-9._%+-]+@[A-Za-z0-9.-]+\.[A-Za-z]{2,})
  */
module Patterns {
  import opened Wrappers
  import opened Text

  // ---------- Leftmost search ----------

  /** The capture at the first index in `i..n` where `at` matches, or None. */
  function Leftmost<T>(at: nat -> Option<T>, i: nat, n: nat): (r: Option<T>)
    decreases n - i
  {
    if i >= n then None
    else if at(i).Some? then at(i)
    else Leftmost(at, i + 1, n)
  }

  /** The search returns the match at `p` when none starts between `i` and `p`. */
  lemma {:induction false} LeftmostAt<T>(at: nat -> Option<T>, i: nat, n: nat, p: nat)
    requires i <= p < n && at(p).Some?
    requires forall k: nat :: i <= k < p ==> at(k).None?
    ensures Leftmost(at, i, n) == at(p)
    decreases p - i
  {
    if i < p {
      LeftmostAt(at, i + 1, n, p);
    }
  }

  /** A match the search returns starts at some `k`, and none starts before it. */
  lemma {:induction false} LeftmostFound<T>(at: nat -> Option<T>, i: nat, n: nat) returns (k: nat)
    requires Leftmost(at, i, n).Some?
    ensures i <= k < n && at(k) == Leftmost(at, i, n)
    ensures forall j: nat :: i <= j < k ==> at(j).None?
    decreases n - i
  {
    if at(i).Some? {
      k := i;
    } else {
      k := LeftmostFound(at, i + 1, n);
    }
  }

  /** The search returns nothing exactly when no match starts in `i..n`. */
  lemma {:induction false} LeftmostNone<T>(at: nat -> Option<T>, i: nat, n: nat)
    ensures Leftmost(at, i, n).None? <==> forall k: nat :: i <= k < n ==> at(k).None?
    decreases n - i
  {
    if i < n {
      LeftmostNone(at, i + 1, n);
    }
  }

  // ---------- Price cap ----------

  /**
    * What `\s*\$?\s*(\d+)` captures from index `j` on, as a number. The
    * greedy `\s*` and `\$?` never need to give anything back: a shorter
    * match would leave a space or `$` where a digit is needed.
    */
  function AmountFrom(s: string, j: nat): Option<nat>
    requires j <= |s|
  {
    var a := RunEnd(s, j, Space);
    var b := if a < |s| && s[a] == '$' then a + 1 else a;
    var c := RunEnd(s, b, Space);
    var d := RunEnd(s, c, Digit);
    if d == c then None else Some(DecimalValue(s[c..d]))
  }

  /** `s[j..c]` is what `\s*\$?\s*` can consume: spaces and at most one `$`. */
  predicate AmountPrefix(s: string, j: nat, c: nat) {
    && j <= c <= |s|
    && (forall t :: j <= t < c ==> IsSpace(s[t]) || s[t] == '$')
    && (forall t, u :: j <= t < u < c && s[t] == '$' ==> s[u] != '$')
  }

  /** `s[c..d]` is a whole run of digits: what the greedy `(\d+)` captures from `c`. */
  predicate DigitRun(s: string, c: nat, d: nat) {
    && c < d <= |s|
    && (forall t :: c <= t < d ==> IsDigit(s[t]))
    && (d == |s| || !IsDigit(s[d]))
  }

  /**
    * The capture of the price-cap pattern when a match starts at `i`: a
    * digit right after "under" always gives one. `PriceCapCapture` and
    * `PriceCapFromDigits` give the capture in general.
    */
  function PriceCapAt(s: string, i: nat): (r: Option<nat>)
    ensures OccursAt(s, i, "under") && i + 5 < |s| && IsDigit(s[i + 5]) ==> r.Some?
  {
    if OccursAt(s, i, "under") then AmountFrom(s, i + 5) else None
  }

  /**
    * A match at `i` is "under", then spaces with at most one `$`, then a
    * whole digit run, and the capture is that run's decimal value.
    */
  lemma PriceCapCapture(s: string, i: nat)
    requires PriceCapAt(s, i).Some?
    ensures OccursAt(s, i, "under")
    ensures exists c: nat, d: nat :: && i + 5 <= c && AmountPrefix(s, i + 5, c) && DigitRun(s, c, d)
                                     && PriceCapAt(s, i).value == DecimalValue(s[c..d])
  {
    var a := RunEnd(s, i + 5, Space);
    var b := if a < |s| && s[a] == '$' then a + 1 else a;
    var c := RunEnd(s, b, Space);
    var d := RunEnd(s, c, Digit);
    assert c < d;
    assert forall t :: i + 5 <= t < c && s[t] == '$' ==> t == a;
    assert AmountPrefix(s, i + 5, c) && DigitRun(s, c, d);
  }

  /** Conversely, "under", spaces with at most one `$` and a whole digit run capture that run. */
  lemma PriceCapFromDigits(s: string, i: nat, c: nat, d: nat)
    requires OccursAt(s, i, "under")
    requires i + 5 <= c && AmountPrefix(s, i + 5, c) && DigitRun(s, c, d)
    ensures PriceCapAt(s, i) == Some(DecimalValue(s[c..d]))
  {
    assert !IsSpace(s[c]) && s[c] != '$';
    if m :| i + 5 <= m < c && s[m] == '$' {
      RunEndAt(s, i + 5, Space, m);
      RunEndAt(s, m + 1, Space, c);
    } else {
      RunEndAt(s, i + 5, Space, c);
    }
    RunEndAt(s, c, Digit, d);
  }

  function CapMatches(s: string): nat -> Option<nat> {
    (k: nat) => PriceCapAt(s, k)
  }

  /**
    * The price ceiling in whole units: the first number after "under", if
    * any. There is none exactly when no position of the lower-cased prompt
    * matches (so also for "under budget"), and a ceiling found is the
    * capture at some matching position.
    */
  function PriceCap(prompt: string): (r: Option<nat>)
    ensures r.None? <==> forall k: nat :: PriceCapAt(Lower(prompt), k).None?
    ensures r.Some? ==> exists k: nat :: PriceCapAt(Lower(prompt), k) == r
  {
    var low := Lower(prompt);
    CapNone(low);
    Leftmost(CapMatches(low), 0, |low| + 1)
  }

  lemma CapNone(low: string)
    ensures Leftmost(CapMatches(low), 0, |low| + 1).None? <==> forall k: nat :: PriceCapAt(low, k).None?
    ensures Leftmost(CapMatches(low), 0, |low| + 1).Some? ==>
              exists k: nat :: PriceCapAt(low, k) == Leftmost(CapMatches(low), 0, |low| + 1)
  {
    LeftmostNone(CapMatches(low), 0, |low| + 1);
    forall k: nat ensures CapMatches(low)(k) == PriceCapAt(low, k) { }
    if Leftmost(CapMatches(low), 0, |low| + 1).Some? {
      var k := LeftmostFound(CapMatches(low), 0, |low| + 1);
    }
  }

  lemma {:induction false} CapLeftmost(s: string, i: nat, p: nat)
    requires i <= p && PriceCapAt(s, p).Some?
    requires forall k: nat :: i <= k < p ==> PriceCapAt(s, k).None?
    ensures Leftmost(CapMatches(s), i, |s| + 1) == PriceCapAt(s, p)
    decreases p - i
  {
    if i < p {
      assert CapMatches(s)(i).None?;
      CapLeftmost(s, i + 1, p);
    } else {
      assert OccursAt(s, p, "under");
      assert CapMatches(s)(p) == PriceCapAt(s, p);
    }
  }

  /** The ceiling is the capture at the first place the pattern matches. */
  lemma PriceCapIsLeftmost(prompt: string, p: nat)
    requires PriceCapAt(Lower(prompt), p).Some?
    requires forall k: nat :: k < p ==> PriceCapAt(Lower(prompt), k).None?
    ensures PriceCap(prompt) == PriceCapAt(Lower(prompt), p)
  {
    CapLeftmost(Lower(prompt), 0, p);
  }

  /** Without the word "under" there is no ceiling. */
  lemma NoUnderNoCap(prompt: string)
    requires !Contains(Lower(prompt), "under")
    ensures PriceCap(prompt) == None
  {
    var low := Lower(prompt);
    forall k: nat ensures CapMatches(low)(k).None? {
      assert !OccursAt(low, k, "under");
    }
    LeftmostNone(CapMatches(low), 0, |low| + 1);
  }

  // ---------- Requested tags ----------

  /** The fixed tag vocabulary, in the order the tags are requested. */
  function RequestedTags(prompt: string): (tags: seq<string>)
    ensures "wedding" in tags <==> Contains(Lower(prompt), "wedding")
    ensures "midi" in tags <==> Contains(Lower(prompt), "midi")
    ensures forall t :: t in tags ==> t == "wedding" || t == "midi"
  {
    var low := Lower(prompt);
    (if Contains(low, "wedding") then ["wedding"] else [])
    + (if Contains(low, "midi") then ["midi"] else [])
  }

  // ---------- Postal code ----------

  /** `\w` at index `k` (false outside the string, where `\b` sees a non-word side). */
  predicate WordAt(s: string, k: int) {
    0 <= k < |s| && InClass(s[k], Word)
  }

  /**
    * `\b\d{5,6}\b` at `i`. The digit run starting at `i` must be exactly 5
    * or 6 long: with 7 or more digits, or a letter right after them, no
    * choice of `{5,6}` leaves a word boundary behind.
    */
  function ZipAt(s: string, i: nat): (r: Option<string>)
    ensures r.Some? ==> && IsZip(r.value) && OccursAt(s, i, r.value)
                        && !WordAt(s, i - 1) && !WordAt(s, i + |r.value|)
                        && (i + |r.value| == |s| || !IsDigit(s[i + |r.value|]))
  {
    if i < |s| && !WordAt(s, i - 1) then
      var e := RunEnd(s, i, Digit);
      if (e - i == 5 || e - i == 6) && !WordAt(s, e) then Some(s[i..e]) else None
    else None
  }

  /** Conversely, a standalone run of five or six digits is captured whole. */
  lemma ZipFromDigits(s: string, i: nat, len: nat)
    requires (len == 5 || len == 6) && i + len <= |s|
    requires forall t :: i <= t < i + len ==> IsDigit(s[t])
    requires !WordAt(s, i - 1) && !WordAt(s, i + len)
    ensures ZipAt(s, i) == Some(s[i..i + len])
  {
    RunEndAt(s, i, Digit, i + len);
  }

  function ZipMatches(s: string): nat -> Option<string> {
    (k: nat) => ZipAt(s, k)
  }

  /** Five or six digits. */
  predicate IsZip(z: string) {
    (|z| == 5 || |z| == 6) && forall t :: 0 <= t < |z| ==> IsDigit(z[t])
  }

  lemma FoundZipShape(prompt: string)
    requires Leftmost(ZipMatches(prompt), 0, |prompt|).Some?
    ensures IsZip(Leftmost(ZipMatches(prompt), 0, |prompt|).value)
    ensures Contains(prompt, Leftmost(ZipMatches(prompt), 0, |prompt|).value)
  {
    var at := ZipMatches(prompt);
    var k := LeftmostFound(at, 0, |prompt|);
    assert at(k) == ZipAt(prompt, k);
    var z := ZipAt(prompt, k).value;
    assert OccursAt(prompt, k, z);
  }

  /** The postal code the tool selector passes to `eta`: the first match, else "00000". */
  function ZipOrDefault(prompt: string): (z: string)
    ensures IsZip(z)
    ensures (forall k: nat :: ZipAt(prompt, k).None?) ==> z == "00000"
    ensures (exists k: nat :: ZipAt(prompt, k).Some?) ==> Contains(prompt, z)
  {
    ZipNone(prompt);
    match Leftmost(ZipMatches(prompt), 0, |prompt|)
    case None => "00000"
    case Some(z) => FoundZipShape(prompt); z
  }

  lemma ZipNone(prompt: string)
    ensures Leftmost(ZipMatches(prompt), 0, |prompt|).None? <==> forall k: nat :: ZipAt(prompt, k).None?
  {
    LeftmostNone(ZipMatches(prompt), 0, |prompt|);
    forall k: nat ensures ZipMatches(prompt)(k) == ZipAt(prompt, k) { }
  }

  /** The postal code is the first 5- or 6-digit token. */
  lemma ZipIsLeftmost(prompt: string, p: nat)
    requires ZipAt(prompt, p).Some?
    requires forall k: nat :: k < p ==> ZipAt(prompt, k).None?
    ensures ZipOrDefault(prompt) == ZipAt(prompt, p).value
  {
    assert ZipMatches(prompt)(p) == ZipAt(prompt, p);
    forall k: nat | 0 <= k < p ensures ZipMatches(prompt)(k).None? { }
    LeftmostAt(ZipMatches(prompt), 0, |prompt|, p);
  }

  // ---------- Order id ----------

  /** `[A-Za-z]\d{4,}` at `i`: a letter and the whole digit run after it. */
  function PlainIdAt(s: string, i: nat): (r: Option<string>)
    ensures r.Some? <==> i + 4 < |s| && IsLetter(s[i]) && forall t :: i < t <= i + 4 ==> IsDigit(s[t])
    ensures r.Some? ==> && IsOrderId(r.value) && OccursAt(s, i, r.value)
                        && (i + |r.value| == |s| || !IsDigit(s[i + |r.value|]))
  {
    if i < |s| && IsLetter(s[i]) then
      var e := RunEnd(s, i + 1, Digit);
      if e - (i + 1) >= 4 then Some(s[i..e]) else None
    else None
  }

  /**
    * `(?:order\s*)?([A-Za-z]\d{4,})` at `i`: the optional prefix is tried
    * first, then the bare id at `i` itself.
    */
  function OrderIdAt(s: string, i: nat): (r: Option<string>)
    ensures PlainIdAt(s, i).Some? ==> r.Some?
    ensures r.Some? ==> IsOrderId(r.value) && Contains(s, r.value)
    ensures r.Some? && r != PlainIdAt(s, i) ==> OccursAt(s, i, "order")
  {
    if OccursAt(s, i, "order") && PlainIdAt(s, RunEnd(s, i + 5, Space)).Some? then
      PlainIdAt(s, RunEnd(s, i + 5, Space))
    else PlainIdAt(s, i)
  }

  function OrderIdMatches(s: string): nat -> Option<string> {
    (k: nat) => OrderIdAt(s, k)
  }

  function PlainIdMatches(s: string): nat -> Option<string> {
    (k: nat) => PlainIdAt(s, k)
  }

  /** A letter followed by four or more digits. */
  predicate IsOrderId(x: string) {
    |x| >= 5 && IsLetter(x[0]) && forall t :: 1 <= t < |x| ==> IsDigit(x[t])
  }

  lemma PlainIdShape(s: string, i: nat)
    requires PlainIdAt(s, i).Some?
    ensures IsOrderId(PlainIdAt(s, i).value)
    ensures OccursAt(s, i, PlainIdAt(s, i).value)
  {
  }

  lemma {:induction false} SkipAbsentIds(s: string, i: nat, j: nat)
    requires i <= j
    requires forall k: nat :: i <= k < j ==> PlainIdAt(s, k).None?
    ensures Leftmost(PlainIdMatches(s), i, |s|) == Leftmost(PlainIdMatches(s), j, |s|)
    decreases j - i
  {
    if i < j {
      assert PlainIdMatches(s)(i).None?;
      SkipAbsentIds(s, i + 1, j);
    }
  }

  /**
    * Inside "order" and the spaces after it no bare id can start: each of
    * those characters is a space, or a letter followed by a non-digit.
    */
  lemma NoIdInsidePrefix(s: string, i: nat)
    requires OccursAt(s, i, "order")
    requires PlainIdAt(s, RunEnd(s, i + 5, Space)).Some?
    ensures forall k: nat :: i <= k < RunEnd(s, i + 5, Space) ==> PlainIdAt(s, k).None?
  {
    var j := RunEnd(s, i + 5, Space);
    assert s[i..i + 5] == "order";
    forall k: nat | i <= k < j ensures PlainIdAt(s, k).None? {
      if k < i + 5 {
        assert s[k] == "order"[k - i];
        assert k + 1 < |s|;
        if k + 1 < i + 5 {
          assert s[k + 1] == "order"[k + 1 - i];
        } else if k + 1 < j {
          assert IsSpace(s[k + 1]);
        } else {
          assert IsLetter(s[j]);
        }
        assert !IsDigit(s[k + 1]);
      } else {
        assert IsSpace(s[k]);
      }
    }
  }

  /**
    * The optional "order" prefix never changes the captured id: the
    * search returns exactly the leftmost bare `[A-Za-z]\d{4,}`.
    */
  lemma {:induction false} OrderPrefixIrrelevant(s: string, i: nat)
    ensures Leftmost(OrderIdMatches(s), i, |s|) == Leftmost(PlainIdMatches(s), i, |s|)
    decreases |s| - i
  {
    if i < |s| {
      assert OrderIdMatches(s)(i) == OrderIdAt(s, i) && PlainIdMatches(s)(i) == PlainIdAt(s, i);
      if OccursAt(s, i, "order") && PlainIdAt(s, RunEnd(s, i + 5, Space)).Some? {
        var j := RunEnd(s, i + 5, Space);
        NoIdInsidePrefix(s, i);
        SkipAbsentIds(s, i, j);
        assert Leftmost(PlainIdMatches(s), j, |s|) == PlainIdAt(s, j);
      } else if PlainIdAt(s, i).None? {
        OrderPrefixIrrelevant(s, i + 1);
      }
    }
  }

  lemma FoundIdShape(prompt: string)
    requires Leftmost(PlainIdMatches(prompt), 0, |prompt|).Some?
    ensures IsOrderId(Leftmost(PlainIdMatches(prompt), 0, |prompt|).value)
    ensures Contains(prompt, Leftmost(PlainIdMatches(prompt), 0, |prompt|).value)
  {
    var at := PlainIdMatches(prompt);
    var k := LeftmostFound(at, 0, |prompt|);
    assert at(k) == PlainIdAt(prompt, k);
    PlainIdShape(prompt, k);
  }

  lemma PlainIdNone(prompt: string)
    ensures Leftmost(PlainIdMatches(prompt), 0, |prompt|).None? <==> forall k: nat :: PlainIdAt(prompt, k).None?
  {
    LeftmostNone(PlainIdMatches(prompt), 0, |prompt|);
    forall k: nat ensures PlainIdMatches(prompt)(k) == PlainIdAt(prompt, k) { }
  }

  /** What the tool selector stores as `order_id`. */
  function OrderId(prompt: string): (r: Option<string>)
    ensures r.Some? ==> IsOrderId(r.value) && Contains(prompt, r.value)
    ensures r.None? <==> forall k: nat :: PlainIdAt(prompt, k).None?
  {
    OrderPrefixIrrelevant(prompt, 0);
    PlainIdNone(prompt);
    if Leftmost(PlainIdMatches(prompt), 0, |prompt|).Some? then
      FoundIdShape(prompt); Leftmost(OrderIdMatches(prompt), 0, |prompt|)
    else Leftmost(OrderIdMatches(prompt), 0, |prompt|)
  }

  /** The order id is the first letter-and-digits run, wherever "order" appears. */
  lemma OrderIdIsLeftmost(prompt: string, p: nat)
    requires PlainIdAt(prompt, p).Some?
    requires forall k: nat :: k < p ==> PlainIdAt(prompt, k).None?
    ensures OrderId(prompt) == PlainIdAt(prompt, p)
  {
    OrderPrefixIrrelevant(prompt, 0);
    assert PlainIdMatches(prompt)(p) == PlainIdAt(prompt, p);
    forall k: nat | 0 <= k < p ensures PlainIdMatches(prompt)(k).None? { }
    LeftmostAt(PlainIdMatches(prompt), 0, |prompt|, p);
  }

  // ---------- Email ----------

  /** A dot at `k` followed by at least two letters: where `\.[A-Za-z]{2,}` can start. */
  predicate TldDotAt(s: string, k: nat) {
    k < |s| && s[k] == '.' && RunEnd(s, k + 1, Letter) - (k + 1) >= 2
  }

  /**
    * The greedy domain part `[A-Za-z0-9.-]+` gives characters back from the
    * right until a top-level-domain dot follows: the largest such `k` below `hi`.
    */
  function LastTldDot(s: string, lo: nat, hi: nat): (r: Option<nat>)
    requires hi <= |s|
    ensures r.Some? ==> lo <= r.value < hi && TldDotAt(s, r.value)
    decreases hi
  {
    if hi <= lo then None
    else if TldDotAt(s, hi - 1) then Some(hi - 1)
    else LastTldDot(s, lo, hi - 1)
  }

  /** No top-level-domain dot lies to the right of the one found, and none at all when there is none. */
  lemma {:induction false} LastTldDotIsLast(s: string, lo: nat, hi: nat)
    requires hi <= |s|
    ensures LastTldDot(s, lo, hi).Some? ==> forall k :: LastTldDot(s, lo, hi).value < k < hi ==> !TldDotAt(s, k)
    ensures LastTldDot(s, lo, hi).None? ==> forall k :: lo <= k < hi ==> !TldDotAt(s, k)
    decreases hi
  {
    if lo < hi && !TldDotAt(s, hi - 1) {
      LastTldDotIsLast(s, lo, hi - 1);
    }
  }

  /** Conversely, a dot with no other one to its right is the one found. */
  lemma {:induction false} LastTldDotAt(s: string, lo: nat, hi: nat, k: nat)
    requires hi <= |s| && lo <= k < hi && TldDotAt(s, k)
    requires forall j :: k < j < hi ==> !TldDotAt(s, j)
    ensures LastTldDot(s, lo, hi) == Some(k)
    decreases hi
  {
    if k < hi - 1 {
      assert !TldDotAt(s, hi - 1);
      LastTldDotAt(s, lo, hi - 1, k);
    }
  }

  /**
    * The email pattern at `i`. The greedy local part must end right at an
    * `@` (giving back characters cannot produce one); the domain part is
    * the longest one that leaves a dot and two or more letters after it.
    */
  function EmailAt(s: string, i: nat): (r: Option<string>)
    ensures r.Some? <==> (&& i < |s| && InClass(s[i], EmailLocal) && RunEnd(s, i, EmailLocal) < |s|
                          && s[RunEnd(s, i, EmailLocal)] == '@'
                          && LastTldDot(s, RunEnd(s, i, EmailLocal) + 2,
                                        RunEnd(s, RunEnd(s, i, EmailLocal) + 1, EmailDomain)).Some?)
  {
    if i < |s| && InClass(s[i], EmailLocal) then
      var a := RunEnd(s, i, EmailLocal);
      if a < |s| && s[a] == '@' then
        var d := RunEnd(s, a + 1, EmailDomain);
        match LastTldDot(s, a + 2, d)
        case None => None
        case Some(k) => Some(s[i..RunEnd(s, k + 1, Letter)])
      else None
    else None
  }

  /**
    * A match ends where the letters after its top-level-domain dot end: the
    * greedy `[A-Za-z]{2,}` takes the whole letter run.
    */
  lemma EmailEndsAtLetterRun(s: string, i: nat)
    requires EmailAt(s, i).Some?
    ensures i + |EmailAt(s, i).value| <= |s|
    ensures i + |EmailAt(s, i).value| == |s| || !IsLetter(s[i + |EmailAt(s, i).value|])
  {
    var a := RunEnd(s, i, EmailLocal);
    var d := RunEnd(s, a + 1, EmailDomain);
    var k := LastTldDot(s, a + 2, d).value;
    var f := RunEnd(s, k + 1, Letter);
    assert EmailAt(s, i).value == s[i..f];
  }

  function EmailMatches(s: string): nat -> Option<string> {
    (k: nat) => EmailAt(s, k)
  }

  /** `e` splits as local part, `@` at `a`, domain part, a dot at `k` and two or more letters. */
  predicate EmailSplit(e: string, a: nat, k: nat) {
    && 0 < a && a + 1 < k && k + 2 < |e|
    && (forall t :: 0 <= t < a ==> InClass(e[t], EmailLocal))
    && e[a] == '@'
    && (forall t :: a < t < k ==> InClass(e[t], EmailDomain))
    && e[k] == '.'
    && (forall t :: k < t < |e| ==> IsLetter(e[t]))
  }

  /** local@domain.tld with the classes of the pattern. */
  predicate IsEmail(e: string) {
    exists a: nat, k: nat | a < k < |e| :: EmailSplit(e, a, k)
  }

  /** A slice of `s` whose characters fall in the right classes is an email. */
  lemma SliceIsEmail(s: string, i: nat, a: nat, d: nat, k: nat, f: nat)
    requires i < a && a + 1 < k < d <= |s| && k + 2 < f <= |s|
    requires forall t :: i <= t < a ==> InClass(s[t], EmailLocal)
    requires s[a] == '@'
    requires forall t :: a + 1 <= t < d ==> InClass(s[t], EmailDomain)
    requires s[k] == '.'
    requires forall t :: k + 1 <= t < f ==> InClass(s[t], Letter)
    ensures IsEmail(s[i..f])
  {
    var e := s[i..f];
    forall t | 0 <= t < a - i ensures InClass(e[t], EmailLocal) {
      assert e[t] == s[i + t];
    }
    forall t | a - i < t < k - i ensures InClass(e[t], EmailDomain) {
      assert e[t] == s[i + t];
    }
    forall t | k - i < t < |e| ensures IsLetter(e[t]) {
      assert e[t] == s[i + t];
    }
    assert e[a - i] == '@' && e[k - i] == '.';
    assert EmailSplit(e, a - i, k - i);
  }

  /** The email pattern at `i`, assembled from where each of its runs ends. */
  lemma EmailAtParts(s: string, i: nat, a: nat, d: nat, k: nat, f: nat)
    requires i < |s| && InClass(s[i], EmailLocal) && RunEnd(s, i, EmailLocal) == a
    requires a < |s| && s[a] == '@' && RunEnd(s, a + 1, EmailDomain) == d
    requires LastTldDot(s, a + 2, d) == Some(k) && RunEnd(s, k + 1, Letter) == f
    ensures EmailAt(s, i) == Some(s[i..f])
  {
  }

  lemma EmailShape(s: string, i: nat)
    requires EmailAt(s, i).Some?
    ensures IsEmail(EmailAt(s, i).value)
    ensures OccursAt(s, i, EmailAt(s, i).value)
  {
    assert i < |s| && InClass(s[i], EmailLocal);
    var a := RunEnd(s, i, EmailLocal);
    assert a < |s| && s[a] == '@';
    var d := RunEnd(s, a + 1, EmailDomain);
    assert LastTldDot(s, a + 2, d).Some?;
    var k := LastTldDot(s, a + 2, d).value;
    var f := RunEnd(s, k + 1, Letter);
    assert EmailAt(s, i).value == s[i..f];
    assert i < a;
    assert TldDotAt(s, k) && a + 2 <= k < d;
    SliceIsEmail(s, i, a, d, k, f);
  }

  lemma FoundEmailShape(prompt: string)
    requires Leftmost(EmailMatches(prompt), 0, |prompt|).Some?
    ensures IsEmail(Leftmost(EmailMatches(prompt), 0, |prompt|).value)
    ensures Contains(prompt, Leftmost(EmailMatches(prompt), 0, |prompt|).value)
  {
    var at := EmailMatches(prompt);
    var k := LeftmostFound(at, 0, |prompt|);
    assert at(k) == EmailAt(prompt, k);
    EmailShape(prompt, k);
  }

  lemma EmailNone(prompt: string)
    ensures Leftmost(EmailMatches(prompt), 0, |prompt|).None? <==> forall k: nat :: EmailAt(prompt, k).None?
  {
    LeftmostNone(EmailMatches(prompt), 0, |prompt|);
    forall k: nat ensures EmailMatches(prompt)(k) == EmailAt(prompt, k) { }
  }

  /** What the tool selector stores as `email`. */
  function Email(prompt: string): (r: Option<string>)
    ensures r.Some? ==> IsEmail(r.value) && Contains(prompt, r.value)
    ensures r.None? <==> forall k: nat :: EmailAt(prompt, k).None?
  {
    EmailNone(prompt);
    if Leftmost(EmailMatches(prompt), 0, |prompt|).Some? then
      FoundEmailShape(prompt); Leftmost(EmailMatches(prompt), 0, |prompt|)
    else Leftmost(EmailMatches(prompt), 0, |prompt|)
  }

  /** The email is the match at the first place one starts. */
  lemma EmailIsLeftmost(prompt: string, p: nat)
    requires EmailAt(prompt, p).Some?
    requires forall k: nat :: k < p ==> EmailAt(prompt, k).None?
    ensures Email(prompt) == EmailAt(prompt, p)
  {
    assert EmailMatches(prompt)(p) == EmailAt(prompt, p);
    forall k: nat | 0 <= k < p ensures EmailMatches(prompt)(k).None? { }
    LeftmostAt(EmailMatches(prompt), 0, |prompt|, p);
  }
}
