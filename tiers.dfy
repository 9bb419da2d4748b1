/** Price-tier classification shared by the pricing scripts: thresholds are
    sorted, the first one at or above the price names the tier ("≤3,990원"),
    and a price above all of them is labelled from the LAST threshold as the
    caller listed them (">9,990원"). Also the chart's `_cat_key`, which turns
    a label back into a sort key by keeping only its digits. */
module Tiers {
  import opened Wrappers

  ghost predicate Ascending(s: seq<real>) {
    forall i, j :: 0 <= i < j < |s| ==> s[i] <= s[j]
  }

  /** Insert x into an ascending list, keeping it ascending. */
  function Insert(x: real, s: seq<real>): (r: seq<real>)
    requires Ascending(s)
    ensures Ascending(r)
    ensures multiset(r) == multiset(s) + multiset{x}
    ensures |r| == |s| + 1
  {
    if s == [] then [x]
    else if x <= s[0] then [x] + s
    else
      var rest := Insert(x, s[1..]);
      assert s == [s[0]] + s[1..];
      HeadBelowRest(s, x, rest);
      [s[0]] + rest
  }

  /** The head of an ascending list is at most anything made of its tail and
      an element above it. */
  lemma HeadBelowRest(s: seq<real>, x: real, rest: seq<real>)
    requires s != [] && Ascending(s) && s[0] < x
    requires multiset(rest) == multiset(s[1..]) + multiset{x}
    ensures forall k :: 0 <= k < |rest| ==> s[0] <= rest[k]
  {
    forall k | 0 <= k < |rest| ensures s[0] <= rest[k] {
      assert rest[k] in multiset(rest);
      if rest[k] != x {
        assert rest[k] in multiset(s[1..]);
        var m :| 0 <= m < |s[1..]| && s[1..][m] == rest[k];
        assert s[m + 1] == rest[k];
      }
    }
  }

  /** Python's sorted(tiers): an ascending permutation of the input. */
  function SortAscending(s: seq<real>): (r: seq<real>)
    ensures Ascending(r)
    ensures multiset(r) == multiset(s)
    ensures |r| == |s|
  {
    if s == [] then []
    else
      assert s == [s[0]] + s[1..];
      Insert(s[0], SortAscending(s[1..]))
  }

  /** Python's int(x) on a float: truncation toward zero. */
  function Truncate(x: real): (n: int)
    ensures x >= 0.0 ==> n as real <= x < n as real + 1.0
    ensures x < 0.0 ==> n as real - 1.0 < x <= n as real
  {
    if x >= 0.0 then x.Floor else -((-x).Floor)
  }

  datatype TierLabel = AtMost(bound: int) | Above(bound: int)

  /** The threshold the loop `for threshold in sorted(tiers)` returns at:
      the first one with price <= threshold. */
  function FirstAtLeast(price: real, sorted: seq<real>): (r: Option<real>)
    ensures r.Some? ==> r.value in sorted && price <= r.value
    ensures r.None? <==> forall i :: 0 <= i < |sorted| ==> sorted[i] < price
  {
    if sorted == [] then None
    else if price <= sorted[0] then Some(sorted[0])
    else FirstAtLeast(price, sorted[1..])
  }

  /** categorise_price / categorize_tier, as a label; an empty threshold list
      raises IndexError at tiers[-1]. */
  function Classify(price: real, tiers: seq<real>): Result<TierLabel> {
    match FirstAtLeast(price, SortAscending(tiers))
    case Some(t) => Ok(AtMost(Truncate(t)))
    case None =>
      if |tiers| == 0 then Err(EmptyTiers) else Ok(Above(Truncate(tiers[|tiers| - 1])))
  }

  lemma {:induction false} FirstAtLeastIsSmallest(price: real, sorted: seq<real>, t: real)
    requires Ascending(sorted)
    requires t in sorted && price <= t
    ensures FirstAtLeast(price, sorted).Some? && FirstAtLeast(price, sorted).value <= t
  {
    if price > sorted[0] {
      assert t != sorted[0];
      assert t in sorted[1..] by {
        var k :| 0 <= k < |sorted| && sorted[k] == t;
        assert sorted[1..][k - 1] == t;
      }
      FirstAtLeastIsSmallest(price, sorted[1..], t);
    }
  }

  /** A price goes to the smallest threshold at or above it, whatever order
      the thresholds were listed in. */
  lemma ClassifySmallestFittingTier(price: real, tiers: seq<real>, m: real)
    requires m in tiers && price <= m
    requires forall t :: t in tiers && price <= t ==> m <= t
    ensures Classify(price, tiers) == Ok(AtMost(Truncate(m)))
  {
    var sorted := SortAscending(tiers);
    assert m in multiset(sorted);
    FirstAtLeastIsSmallest(price, sorted, m);
    var f := FirstAtLeast(price, sorted).value;
    assert f in multiset(sorted);
    assert f in tiers;
    assert f == m;
  }

  /** A price above every threshold is labelled from the last threshold as
      listed, and an empty list is an error. */
  lemma ClassifyAboveAll(price: real, tiers: seq<real>)
    requires forall t :: t in tiers ==> t < price
    ensures |tiers| == 0 ==> Classify(price, tiers) == Err(EmptyTiers)
    ensures |tiers| > 0 ==> Classify(price, tiers) == Ok(Above(Truncate(tiers[|tiers| - 1])))
  {
    var sorted := SortAscending(tiers);
    forall i | 0 <= i < |sorted| ensures sorted[i] < price {
      assert sorted[i] in multiset(tiers);
      assert sorted[i] in tiers;
    }
  }

  /** Ties go to the lower tier: a price equal to a threshold is in that tier. */
  lemma ClassifyAtThreshold(t: real, tiers: seq<real>)
    requires t in tiers
    ensures Classify(t, tiers) == Ok(AtMost(Truncate(t)))
  {
    ClassifySmallestFittingTier(t, tiers, t);
  }

  /** Classification is monotone: a higher price never gets a lower
      at-most tier, and once above all thresholds stays there. */
  lemma ClassifyMonotone(p: real, q: real, tiers: seq<real>)
    requires p <= q
    requires Classify(q, tiers).Ok? && Classify(q, tiers).value.AtMost?
    ensures Classify(p, tiers).Ok? && Classify(p, tiers).value.AtMost?
    ensures Classify(p, tiers).value.bound <= Classify(q, tiers).value.bound
  {
    var sorted := SortAscending(tiers);
    var tq := FirstAtLeast(q, sorted).value;
    FirstAtLeastIsSmallest(p, sorted, tq);
    TruncateMonotone(FirstAtLeast(p, sorted).value, tq);
  }

  lemma TruncateMonotone(x: real, y: real)
    requires x <= y
    ensures Truncate(x) <= Truncate(y)
  {
  }

  // ---- rendering: f"≤{int(threshold):,}원" and f">{int(tiers[-1]):,}원" ----

  function DigitChar(d: nat): (c: char)
    requires d < 10
    ensures '0' <= c <= '9'
  {
    ('0' as int + d) as char
  }

  /** str(n) for a non-negative integer. */
  function DecimalDigits(n: nat): (ds: string)
    ensures |ds| >= 1
    ensures forall i :: 0 <= i < |ds| ==> '0' <= ds[i] <= '9'
  {
    if n < 10 then [DigitChar(n)] else DecimalDigits(n / 10) + [DigitChar(n % 10)]
  }

  /** Insert ',' between groups of three digits, counting from the right. */
  function GroupThousands(ds: string): string {
    if |ds| <= 3 then ds
    else GroupThousands(ds[..|ds| - 3]) + [','] + ds[|ds| - 3..]
  }

  /** format(n, ','): the integer with thousands separators. */
  function FormatGrouped(n: int): string {
    if n < 0 then ['-'] + GroupThousands(DecimalDigits(-n))
    else GroupThousands(DecimalDigits(n))
  }

  function Render(tier: TierLabel): string {
    match tier
    case AtMost(b) => "≤" + FormatGrouped(b) + "원"
    case Above(b) => ">" + FormatGrouped(b) + "원"
  }

  /** categorise_price(price, tiers), returning the label text. */
  function Categorise(price: real, tiers: seq<real>): Result<string> {
    match Classify(price, tiers)
    case Ok(tier) => Ok(Render(tier))
    case Err(e) => Err(e)
  }

  lemma FormatDefaults()
    ensures FormatGrouped(3990) == "3,990"
    ensures FormatGrouped(7990) == "7,990"
    ensures FormatGrouped(9990) == "9,990"
  {
    Format3990();
    Format7990();
    Format9990();
  }

  lemma Format3990()
    ensures FormatGrouped(3990) == "3,990"
  {
    assert DecimalDigits(3) == "3";
    assert DecimalDigits(39) == "39";
    assert DecimalDigits(399) == "399";
    assert DecimalDigits(3990) == "3990";
    assert "3990"[..1] == "3" && "3990"[1..] == "990";
  }

  lemma Format7990()
    ensures FormatGrouped(7990) == "7,990"
  {
    assert DecimalDigits(7) == "7";
    assert DecimalDigits(79) == "79";
    assert DecimalDigits(799) == "799";
    assert DecimalDigits(7990) == "7990";
    assert "7990"[..1] == "7" && "7990"[1..] == "990";
  }

  lemma Format9990()
    ensures FormatGrouped(9990) == "9,990"
  {
    assert DecimalDigits(9) == "9";
    assert DecimalDigits(99) == "99";
    assert DecimalDigits(999) == "999";
    assert DecimalDigits(9990) == "9990";
    assert "9990"[..1] == "9" && "9990"[1..] == "990";
  }

  lemma RenderDefaults()
    ensures Render(AtMost(3990)) == "≤3,990원"
    ensures Render(AtMost(7990)) == "≤7,990원"
    ensures Render(AtMost(9990)) == "≤9,990원"
    ensures Render(Above(9990)) == ">9,990원"
    ensures Render(Above(3990)) == ">3,990원"
  {
    Render3990();
    Render7990();
    Render9990();
  }

  lemma Render3990()
    ensures Render(AtMost(3990)) == "≤3,990원" && Render(Above(3990)) == ">3,990원"
  {
    Format3990();
  }

  lemma Render7990()
    ensures Render(AtMost(7990)) == "≤7,990원"
  {
    Format7990();
  }

  lemma Render9990()
    ensures Render(AtMost(9990)) == "≤9,990원" && Render(Above(9990)) == ">9,990원"
  {
    Format9990();
  }

  /** The thresholds the scripts use when none are given. */
  const DefaultTiers: seq<real> := [3990.0, 7990.0, 9990.0]

  /** With the default thresholds every price falls in one of four bands:
      up to 3990 (a price of exactly 3990 included), up to 7990, up to 9990,
      and above 9990. */
  lemma DefaultTierBands(price: real)
    ensures price <= 3990.0 ==> Categorise(price, DefaultTiers) == Ok("≤3,990원")
    ensures 3990.0 < price <= 7990.0 ==> Categorise(price, DefaultTiers) == Ok("≤7,990원")
    ensures 7990.0 < price <= 9990.0 ==> Categorise(price, DefaultTiers) == Ok("≤9,990원")
    ensures 9990.0 < price ==> Categorise(price, DefaultTiers) == Ok(">9,990원")
  {
    RenderDefaults();
    var tiers := DefaultTiers;
    assert Truncate(3990.0) == 3990 && Truncate(7990.0) == 7990 && Truncate(9990.0) == 9990;
    if price <= 3990.0 {
      ClassifySmallestFittingTier(price, tiers, 3990.0);
    } else if price <= 7990.0 {
      ClassifySmallestFittingTier(price, tiers, 7990.0);
    } else if price <= 9990.0 {
      ClassifySmallestFittingTier(price, tiers, 9990.0);
    } else {
      ClassifyAboveAll(price, tiers);
    }
  }

  /** The above-all label is built from the last threshold as listed, not
      from the largest: thresholds given as 9990, 3990 label 12000 ">3,990원". */
  lemma AboveUsesLastListed()
    ensures Categorise(12000.0, [9990.0, 3990.0]) == Ok(">3,990원")
  {
    RenderDefaults();
    ClassifyAboveAll(12000.0, [9990.0, 3990.0]);
    assert Truncate(3990.0) == 3990;
  }

  /** The loop of categorise_price / categorize_tier: walk the sorted
      thresholds and return at the first one at or above the price. */
  method CategorisePrice(price: real, tiers: seq<real>) returns (r: Result<string>)
    ensures r == Categorise(price, tiers)
    ensures r.Err? <==> |tiers| == 0
  {
    var sorted := SortAscending(tiers);
    for i := 0 to |sorted|
      invariant forall j :: 0 <= j < i ==> sorted[j] < price
      invariant FirstAtLeast(price, sorted) == FirstAtLeast(price, sorted[i..])
    {
      assert sorted[i..][1..] == sorted[i + 1..];
      if price <= sorted[i] {
        return Ok(Render(AtMost(Truncate(sorted[i]))));
      }
    }
    if |tiers| == 0 {
      return Err(EmptyTiers);
    }
    r := Ok(Render(Above(Truncate(tiers[|tiers| - 1]))));
  }

  // ---- _cat_key: digits of the tier, or +infinity when there are none ----

  datatype SortKey = Finite(value: nat) | Infinite

  predicate IsDigit(c: char) {
    '0' <= c <= '9'
  }

  /** ''.join(ch for ch in cat if ch.isdigit()) */
  function DigitsOnly(s: string): (ds: string)
    ensures forall i :: 0 <= i < |ds| ==> IsDigit(ds[i])
  {
    if s == [] then []
    else (if IsDigit(s[0]) then [s[0]] else []) + DigitsOnly(s[1..])
  }

  /** float(digits) for a non-empty string of decimal digits. */
  function ParseDigits(ds: string): nat
    requires forall i :: 0 <= i < |ds| ==> IsDigit(ds[i])
  {
    if ds == [] then 0
    else ParseDigits(ds[..|ds| - 1]) * 10 + DigitValue(ds[|ds| - 1])
  }

  function DigitValue(c: char): (d: nat)
    requires IsDigit(c)
    ensures d < 10
  {
    c as int - '0' as int
  }

  function CatKey(cat: string): SortKey {
    var ds := DigitsOnly(cat);
    if ds == [] then Infinite else Finite(ParseDigits(ds))
  }

  lemma {:induction false} DigitsOnlyConcat(a: string, b: string)
    ensures DigitsOnly(a + b) == DigitsOnly(a) + DigitsOnly(b)
  {
    if a != [] {
      assert (a + b)[0] == a[0];
      assert (a + b)[1..] == a[1..] + b;
      DigitsOnlyConcat(a[1..], b);
      var first: string := if IsDigit(a[0]) then [a[0]] else [];
      assert DigitsOnly(a + b) == first + (DigitsOnly(a[1..]) + DigitsOnly(b));
    } else {
      assert a + b == b;
    }
  }

  lemma {:induction false} DigitsOnlyOfDigits(ds: string)
    requires forall i :: 0 <= i < |ds| ==> IsDigit(ds[i])
    ensures DigitsOnly(ds) == ds
  {
    if ds != [] {
      DigitsOnlyOfDigits(ds[1..]);
    }
  }

  /** The thousands separators are the only characters grouping adds. */
  lemma {:induction false} DigitsOnlyGrouped(ds: string)
    requires forall i :: 0 <= i < |ds| ==> IsDigit(ds[i])
    ensures DigitsOnly(GroupThousands(ds)) == ds
    decreases |ds|
  {
    if |ds| <= 3 {
      DigitsOnlyOfDigits(ds);
    } else {
      var front, back := ds[..|ds| - 3], ds[|ds| - 3..];
      DigitsOnlyGrouped(front);
      DigitsOnlyConcat(GroupThousands(front) + [','], back);
      DigitsOnlyConcat(GroupThousands(front), [',']);
      DigitsOnlyOfDigits(back);
      assert DigitsOnly([',']) == [];
      assert front + back == ds;
    }
  }

  /** Reading back the decimal digits of n gives n. */
  lemma {:induction false} ParseDecimalDigits(n: nat)
    ensures ParseDigits(DecimalDigits(n)) == n
  {
    if n >= 10 {
      ParseDecimalDigits(n / 10);
      var ds := DecimalDigits(n);
      assert ds[..|ds| - 1] == DecimalDigits(n / 10);
    } else {
      assert DecimalDigits(n)[..0] == [];
    }
  }

  /** Digits survive formatting: the sign and the separators are dropped. */
  lemma DigitsOnlyFormatted(b: int)
    ensures DigitsOnly(FormatGrouped(b)) == DecimalDigits(if b < 0 then -b else b)
  {
    var n: nat := if b < 0 then -b else b;
    DigitsOnlyGrouped(DecimalDigits(n));
    if b < 0 {
      DigitsOnlyConcat(['-'], GroupThousands(DecimalDigits(n)));
      assert DigitsOnly(['-']) == [];
    }
  }

  lemma DigitsOnlyFramed(head: string, body: string, tail: string)
    requires forall i :: 0 <= i < |head| ==> !IsDigit(head[i])
    requires forall i :: 0 <= i < |tail| ==> !IsDigit(tail[i])
    ensures DigitsOnly(head + body + tail) == DigitsOnly(body)
  {
    DigitsOnlyEmpty(head);
    DigitsOnlyEmpty(tail);
    DigitsOnlyConcat(head + body, tail);
    DigitsOnlyConcat(head, body);
  }

  /** _cat_key inverts the label: the key of a rendered label is the size of
      its bound, for an at-most label and an above label alike. */
  lemma CatKeyOfLabel(tier: TierLabel)
    ensures CatKey(Render(tier)) == Finite(if tier.bound < 0 then -tier.bound else tier.bound)
  {
    var b := tier.bound;
    var n: nat := if b < 0 then -b else b;
    var head: string := if tier.AtMost? then "≤" else ">";
    assert Render(tier) == head + FormatGrouped(b) + "원";
    DigitsOnlyFramed(head, FormatGrouped(b), "원");
    DigitsOnlyFormatted(b);
    assert DigitsOnly(Render(tier)) == DecimalDigits(n);
    ParseDecimalDigits(n);
  }

  /** The above label sorts level with the top at-most label it is built from. */
  lemma CatKeyAboveTiesTop(n: int)
    ensures CatKey(Render(Above(n))) == CatKey(Render(AtMost(n)))
  {
    CatKeyOfLabel(Above(n));
    CatKeyOfLabel(AtMost(n));
  }

  lemma {:induction false} DigitsOnlyEmpty(s: string)
    ensures DigitsOnly(s) == [] <==> forall i :: 0 <= i < |s| ==> !IsDigit(s[i])
  {
    if s != [] {
      DigitsOnlyEmpty(s[1..]);
      assert forall i :: 1 <= i < |s| ==> s[i] == s[1..][i - 1];
    }
  }

  /** A category with no digit at all sorts last (float('inf')). */
  lemma CatKeyInfinite(s: string)
    ensures CatKey(s) == Infinite <==> forall i :: 0 <= i < |s| ==> !IsDigit(s[i])
  {
    DigitsOnlyEmpty(s);
  }
}
