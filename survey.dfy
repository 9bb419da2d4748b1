/** delivery_ashley_menu_analysis.py: the field survey of twelve shoppers,
    the customers in their 40s and 50s, their complaints sorted into
    categories, and the counters behind the health-needs report and the
    charts. The analyzer object stores the survey rows and their 40s/50s
    subset when it is built and changes neither afterwards, so both are
    passed as values. */
module Survey {
  import opened Wrappers
  import opened Text
  import opened Dicts
  import Tally
  import opened ReviewKeywords

  /** One survey record. Every record has the first ten keys; only the
      second interview round recorded satisfaction and Korean-menu demand. */
  datatype Customer = Customer(
    id: string, ageGroup: string, gender: string, occupation: string,
    preferredMenu: string, visitReason: string, complaints: string,
    notes: string, visitFrequency: string, healthNeeds: string,
    satisfaction: Option<string>, koreanMenuDemand: Option<string>)

  // ---- keeping the elements that pass a test ----

  /** [x for x in s if p(x)]. */
  function Filter<T>(s: seq<T>, p: T -> bool): (r: seq<T>)
    ensures |r| <= |s|
  {
    if s == [] then []
    else Filter(s[..|s| - 1], p) + (if p(s[|s| - 1]) then [s[|s| - 1]] else [])
  }

  /** The filter keeps every element that passes, as often as it occurs, and
      nothing else. */
  lemma {:induction false} FilterFacts<T>(s: seq<T>, p: T -> bool)
    ensures forall x :: multiset(Filter(s, p))[x] == if p(x) then multiset(s)[x] else 0
    ensures forall x :: x in Filter(s, p) <==> x in s && p(x)
  {
    if s != [] {
      var front := s[..|s| - 1];
      assert s == front + [s[|s| - 1]];
      FilterFacts(front, p);
    }
  }

  /** Filtering one more element. */
  lemma FilterSnoc<T>(s: seq<T>, x: T, p: T -> bool)
    ensures Filter(s + [x], p) == Filter(s, p) + (if p(x) then [x] else [])
  {
    assert (s + [x])[..|s|] == s;
  }

  /** The filter keeps the original order: filtering a concatenation is
      concatenating the filtered parts. */
  lemma {:induction false} FilterAppend<T>(a: seq<T>, b: seq<T>, p: T -> bool)
    ensures Filter(a + b, p) == Filter(a, p) + Filter(b, p)
  {
    if b == [] {
      assert a + b == a;
    } else {
      var front := b[..|b| - 1];
      assert (a + b)[..|a + b| - 1] == a + front;
      FilterAppend(a, front, p);
    }
  }

  // ---- the 40s and 50s ----

  predicate IsTarget(c: Customer) {
    c.ageGroup == "40대" || c.ageGroup == "50대"
  }

  /** _extract_target_customers: the customers in their 40s or 50s, in
      survey order. */
  method ExtractTargetCustomers(raw: seq<Customer>) returns (targets: seq<Customer>)
    ensures targets == Filter(raw, IsTarget)
    ensures forall c :: c in targets <==> c in raw && IsTarget(c)
  {
    targets := [];
    for i := 0 to |raw|
      invariant targets == Filter(raw[..i], IsTarget)
    {
      assert raw[..i + 1][..i] == raw[..i];
      var customer := raw[i];
      if customer.ageGroup == "40대" || customer.ageGroup == "50대" {
        targets := targets + [customer];
      }
    }
    assert raw[..|raw|] == raw;
    FilterFacts(raw, IsTarget);
  }

  // ---- complaint categories ----

  /** The complaint categories and their keywords, in dictionary order. */
  const ComplaintCategories: seq<(string, seq<string>)> := [
    ("메뉴위치/가독성", ["메뉴가 어디에", "한눈에 보기 어려", "어디에 무엇이", "메뉴 이름 택이", "찾기 어려", "표시 미흡", "출입구"]),
    ("조리품질/일관성", ["눅눅", "조각", "부실", "밀가루가 씹힌다", "기대에 못 미침"]),
    ("동선/배치", ["동선이 좁", "바뀜", "넣다보니 좁아진"]),
    ("가격", ["가격이 놀라", "그 가격에 그 맛"]),
    ("제품부족", ["없어짐", "제품"]),
    ("차별화", ["차별점"]),
    ("집밥/건강니즈", ["건강한 집밥", "국물", "한식", "비빔밥", "김치찌개"]),
    ("원산지/신뢰성", ["원산지", "신뢰", "품질"])
  ]

  /** The table has eight distinct categories. */
  lemma ComplaintCategoriesWellFormed()
    ensures |ComplaintCategories| == 8 && DistinctNames(ComplaintCategories)
  {
  }

  /** The categories, in table order, of which some keyword occurs in the
      complaint. */
  function Categorize(complaint: string, table: seq<(string, seq<string>)>): seq<string> {
    if table == [] then []
    else
      var front := Categorize(complaint, table[..|table| - 1]);
      var row := table[|table| - 1];
      if Mentions(complaint, row.1) then front + [row.0] else front
  }

  /** A category is listed exactly when one of its keywords is a substring of
      the complaint, and with distinct category names none is listed twice. */
  lemma {:induction false} CategorizeFacts(complaint: string, table: seq<(string, seq<string>)>)
    ensures forall c :: c in Categorize(complaint, table) <==>
      exists i :: 0 <= i < |table| && table[i].0 == c && Mentions(complaint, table[i].1)
    ensures DistinctNames(table) ==> forall i, j :: 0 <= i < j < |Categorize(complaint, table)| ==>
      Categorize(complaint, table)[i] != Categorize(complaint, table)[j]
  {
    if table != [] {
      var front := table[..|table| - 1];
      var row := table[|table| - 1];
      CategorizeFacts(complaint, front);
      assert forall i :: 0 <= i < |front| ==> front[i] == table[i];
      if DistinctNames(table) {
        assert DistinctNames(front);
        var cats := Categorize(complaint, front);
        forall k | 0 <= k < |cats| ensures cats[k] != row.0 {
          assert cats[k] in cats;
          var i :| 0 <= i < |front| && front[i].0 == cats[k] && Mentions(complaint, front[i].1);
          assert table[i].0 != table[|table| - 1].0;
        }
      }
    }
  }

  /** Categories come out in table order: the categories of a split table are
      those of its first part followed by those of its second. */
  lemma {:induction false} CategorizeAppend(complaint: string, t1: seq<(string, seq<string>)>, t2: seq<(string, seq<string>)>)
    ensures Categorize(complaint, t1 + t2) == Categorize(complaint, t1) + Categorize(complaint, t2)
  {
    if t2 == [] {
      assert t1 + t2 == t1;
    } else {
      var front := t2[..|t2| - 1];
      assert (t1 + t2)[..|t1 + t2| - 1] == t1 + front;
      CategorizeAppend(complaint, t1, front);
    }
  }

  /** any(keyword in s for keyword in keywords), stopping at the first hit. */
  method AnyKeyword(s: string, keywords: seq<string>) returns (found: bool)
    ensures found == Mentions(s, keywords)
  {
    found := false;
    var k := 0;
    while k < |keywords|
      invariant 0 <= k <= |keywords|
      invariant forall m :: 0 <= m < k ==> !Contains(s, keywords[m])
    {
      if Contains(s, keywords[k]) {
        found := true;
        return;
      }
      k := k + 1;
    }
  }

  /** The inner loop of analyze_target_complaints for one complaint. */
  method MatchCategories(complaint: string, table: seq<(string, seq<string>)>) returns (categories: seq<string>)
    ensures categories == Categorize(complaint, table)
  {
    categories := [];
    for j := 0 to |table|
      invariant categories == Categorize(complaint, table[..j])
    {
      assert table[..j + 1][..j] == table[..j];
      var (category, keywords) := table[j];
      var hit := AnyKeyword(complaint, keywords);
      if hit {
        categories := categories + [category];
      }
    }
    assert table[..|table|] == table;
  }

  /** One entry of customer_complaints. */
  datatype ComplaintEntry = ComplaintEntry(id: string, ageGroup: string, complaints: string, categories: seq<string>)

  /** A complaint other than '없음' or the empty string. */
  predicate Complains(c: Customer) {
    c.complaints != "없음" && c.complaints != ""
  }

  function EntryOf(c: Customer, table: seq<(string, seq<string>)>): ComplaintEntry {
    ComplaintEntry(c.id, c.ageGroup, c.complaints, Categorize(c.complaints, table))
  }

  /** The entries for a list of customers, in order. */
  function ComplaintEntries(customers: seq<Customer>, table: seq<(string, seq<string>)>): seq<ComplaintEntry> {
    if customers == [] then []
    else
      var front := ComplaintEntries(customers[..|customers| - 1], table);
      var c := customers[|customers| - 1];
      if Complains(c) then front + [EntryOf(c, table)] else front
  }

  /** There is one entry per customer with a real complaint, in order, and
      none for '없음' or an empty complaint. */
  lemma {:induction false} ComplaintEntriesFacts(customers: seq<Customer>, table: seq<(string, seq<string>)>)
    ensures |ComplaintEntries(customers, table)| == |Filter(customers, Complains)|
    ensures forall i :: 0 <= i < |ComplaintEntries(customers, table)| ==>
      ComplaintEntries(customers, table)[i] == EntryOf(Filter(customers, Complains)[i], table)
  {
    if customers != [] {
      ComplaintEntriesFacts(customers[..|customers| - 1], table);
    }
  }

  /** Every entry carries a real complaint of one of the customers, and every
      customer with a real complaint has its entry. */
  lemma ComplaintEntriesCover(customers: seq<Customer>, table: seq<(string, seq<string>)>)
    ensures |ComplaintEntries(customers, table)| <= |customers|
    ensures forall e :: e in ComplaintEntries(customers, table) ==>
      e.complaints != "없음" && e.complaints != "" &&
      exists c :: c in customers && e == EntryOf(c, table)
    ensures forall c :: c in customers && Complains(c) ==> EntryOf(c, table) in ComplaintEntries(customers, table)
  {
    var entries := ComplaintEntries(customers, table);
    var noted := Filter(customers, Complains);
    ComplaintEntriesFacts(customers, table);
    FilterFacts(customers, Complains);
    forall e | e in entries
      ensures e.complaints != "없음" && e.complaints != "" && exists c :: c in customers && e == EntryOf(c, table)
    {
      var i :| 0 <= i < |entries| && entries[i] == e;
      assert noted[i] in noted;
    }
    forall c | c in customers && Complains(c) ensures EntryOf(c, table) in entries {
      assert c in noted;
      var i :| 0 <= i < |noted| && noted[i] == c;
      assert entries[i] == EntryOf(c, table);
    }
  }

  /** The loop over the customers in analyze_target_complaints. */
  method ComplaintEntriesFor(customers: seq<Customer>, table: seq<(string, seq<string>)>) returns (entries: seq<ComplaintEntry>)
    ensures entries == ComplaintEntries(customers, table)
  {
    entries := [];
    for i := 0 to |customers|
      invariant entries == ComplaintEntries(customers[..i], table)
    {
      assert customers[..i + 1][..i] == customers[..i];
      var customer := customers[i];
      var complaints := customer.complaints;
      if complaints != "없음" && complaints != "" {
        var categories := MatchCategories(complaints, table);
        entries := entries + [ComplaintEntry(customer.id, customer.ageGroup, complaints, categories)];
      }
    }
    assert customers[..|customers|] == customers;
  }

  /** analyze_target_complaints: the complaint entries of the target
      customers, and the category table. */
  method AnalyzeTargetComplaints(targets: seq<Customer>) returns (entries: seq<ComplaintEntry>, table: seq<(string, seq<string>)>)
    ensures table == ComplaintCategories
    ensures entries == ComplaintEntries(targets, ComplaintCategories)
  {
    table := ComplaintCategories;
    entries := ComplaintEntriesFor(targets, table);
  }

  // ---- analyze_health_home_meal_needs ----

  const KoreanKey := "한식 메뉴 수요"
  const HomeMealKey := "건강한 집밥 선호"
  const SaladKey := "신선한 샐러드 선호"
  const SoupKey := "국물 메뉴 선호"
  const FamilyKey := "가족 식사 중심"

  /** health_needs_stats's keys, in the order the dict literal lists them. */
  const HealthNeedKeys: seq<string> := [KoreanKey, HomeMealKey, SaladKey, SoupKey, FamilyKey]

  /** A free-text answer that says something: neither empty nor '없음'. */
  predicate Noted(s: string) {
    s != "" && s != "없음"
  }

  /** korean_menu_demand is present, non-empty and mentions '한식'. */
  predicate WantsKorean(c: Customer) {
    c.koreanMenuDemand.Some? && c.koreanMenuDemand.value != "" && Contains(c.koreanMenuDemand.value, "한식")
  }

  predicate WantsSalad(c: Customer) {
    Noted(c.healthNeeds) && Contains(c.healthNeeds, "신선한")
  }

  predicate WantsHomeMeal(c: Customer) {
    Noted(c.healthNeeds) && Contains(c.healthNeeds, "건강한")
  }

  predicate WantsSoup(c: Customer) {
    Noted(c.healthNeeds) && Contains(c.healthNeeds, "국물")
  }

  /** '가족' occurs in the visit reason or in the notes. */
  predicate FamilyMeal(c: Customer) {
    Contains(c.visitReason, "가족") || Contains(c.notes, "가족")
  }

  /** The five keys of health_needs_stats are different strings. */
  lemma NeedKeysDistinct()
    ensures KoreanKey != HomeMealKey && KoreanKey != SaladKey && KoreanKey != SoupKey && KoreanKey != FamilyKey
    ensures HomeMealKey != SaladKey && HomeMealKey != SoupKey && HomeMealKey != FamilyKey
    ensures SaladKey != SoupKey && SaladKey != FamilyKey && SoupKey != FamilyKey
  {
    assert KoreanKey[0] == '한' && HomeMealKey[0] == '건' && SaladKey[0] == '신' && SoupKey[0] == '국' && FamilyKey[0] == '가';
  }

  /** The five counts health_needs_stats holds, in its key order. */
  datatype NeedCounts = NeedCounts(korean: nat, homeMeal: nat, salad: nat, soup: nat, family: nat)

  /** health_needs_stats holding the given counts. */
  function NeedsDict(n: NeedCounts): Dict<string, nat> {
    Dict(HealthNeedKeys, map[KoreanKey := n.korean, HomeMealKey := n.homeMeal, SaladKey := n.salad, SoupKey := n.soup, FamilyKey := n.family])
  }

  /** That dict has the five keys in order, each holding its own count. */
  lemma NeedsDictFacts(n: NeedCounts)
    ensures Valid(NeedsDict(n)) && NeedsDict(n).keys == HealthNeedKeys
    ensures NeedsDict(n).entries[KoreanKey] == n.korean && NeedsDict(n).entries[HomeMealKey] == n.homeMeal
    ensures NeedsDict(n).entries[SaladKey] == n.salad && NeedsDict(n).entries[SoupKey] == n.soup
    ensures NeedsDict(n).entries[FamilyKey] == n.family
  {
    NeedKeysDistinct();
  }

  /** `+= 1` on one key of health_needs_stats adds one to that count only. */
  lemma IncrementSalad(n: NeedCounts)
    ensures Increment(NeedsDict(n), SaladKey) == NeedsDict(n.(salad := n.salad + 1))
  {
    NeedKeysDistinct();
  }

  lemma IncrementHomeMeal(n: NeedCounts)
    ensures Increment(NeedsDict(n), HomeMealKey) == NeedsDict(n.(homeMeal := n.homeMeal + 1))
  {
    NeedKeysDistinct();
  }

  lemma IncrementSoup(n: NeedCounts)
    ensures Increment(NeedsDict(n), SoupKey) == NeedsDict(n.(soup := n.soup + 1))
  {
    NeedKeysDistinct();
  }

  lemma IncrementFamily(n: NeedCounts)
    ensures Increment(NeedsDict(n), FamilyKey) == NeedsDict(n.(family := n.family + 1))
  {
    NeedKeysDistinct();
  }

  /** What the pass over the customers seen so far has counted: the salad,
      home-meal, soup and family answers, with the Korean-menu entry still at
      its initial 0. */
  function CountedNeeds(seen: seq<Customer>): NeedCounts {
    NeedCounts(0, |Filter(seen, WantsHomeMeal)|, |Filter(seen, WantsSalad)|, |Filter(seen, WantsSoup)|, |Filter(seen, FamilyMeal)|)
  }

  /** The counts after the three health-need checks on one answer. */
  function AfterNeeds(n: NeedCounts, needs: string): NeedCounts {
    var noted := Noted(needs);
    NeedCounts(n.korean,
      n.homeMeal + (if noted && Contains(needs, "건강한") then 1 else 0),
      n.salad + (if noted && Contains(needs, "신선한") then 1 else 0),
      n.soup + (if noted && Contains(needs, "국물") then 1 else 0),
      n.family)
  }

  /** One more customer adds its answers to the counts. */
  lemma CountedNeedsSnoc(seen: seq<Customer>, c: Customer)
    ensures var n := AfterNeeds(CountedNeeds(seen), c.healthNeeds);
      CountedNeeds(seen + [c]) == n.(family := n.family + (if FamilyMeal(c) then 1 else 0))
  {
    FilterSnoc(seen, c, WantsSalad);
    FilterSnoc(seen, c, WantsHomeMeal);
    FilterSnoc(seen, c, WantsSoup);
    FilterSnoc(seen, c, FamilyMeal);
  }

  /** analyze_health_home_meal_needs: one pass over all the customers counts
      the salad, home-meal, soup and family answers and collects the
      customers asking for Korean food; afterwards the Korean-menu entry is
      overwritten with the constant 4, whatever the pass found. */
  method AnalyzeHealthHomeMealNeeds(raw: seq<Customer>) returns (stats: Dict<string, nat>, focused: seq<Customer>)
    ensures Valid(stats) && stats.keys == HealthNeedKeys
    ensures stats.entries[KoreanKey] == 4
    ensures stats.entries[HomeMealKey] == |Filter(raw, WantsHomeMeal)|
    ensures stats.entries[SaladKey] == |Filter(raw, WantsSalad)|
    ensures stats.entries[SoupKey] == |Filter(raw, WantsSoup)|
    ensures stats.entries[FamilyKey] == |Filter(raw, FamilyMeal)|
    ensures focused == Filter(raw, WantsKorean)
  {
    stats := NeedsDict(NeedCounts(0, 0, 0, 0, 0));
    var koreanMenuDemand := 0;
    focused := [];
    for i := 0 to |raw|
      invariant stats == NeedsDict(CountedNeeds(raw[..i]))
      invariant focused == Filter(raw[..i], WantsKorean) && koreanMenuDemand == |focused|
    {
      assert raw[..i + 1] == raw[..i] + [raw[i]];
      var customer := raw[i];
      if customer.koreanMenuDemand.Some? && customer.koreanMenuDemand.value != "" && Contains(customer.koreanMenuDemand.value, "한식") {
        koreanMenuDemand := koreanMenuDemand + 1;
        focused := focused + [customer];
      }
      stats := CountNeeds(stats, customer, raw[..i]);
    }
    assert raw[..|raw|] == raw;
    NeedsDictFacts(CountedNeeds(raw));
    NeedKeysDistinct();
    stats := Put(stats, KoreanKey, 4);
  }

  /** The body of that pass for one customer, apart from the Korean-menu
      check. */
  method CountNeeds(stats: Dict<string, nat>, customer: Customer, ghost seen: seq<Customer>) returns (next: Dict<string, nat>)
    requires stats == NeedsDict(CountedNeeds(seen))
    ensures next == NeedsDict(CountedNeeds(seen + [customer]))
  {
    CountedNeedsSnoc(seen, customer);
    ghost var m := AfterNeeds(CountedNeeds(seen), customer.healthNeeds);
    next := CountHealthNeeds(stats, customer.healthNeeds, CountedNeeds(seen));
    if Contains(customer.visitReason, "가족") || Contains(customer.notes, "가족") {
      IncrementFamily(m);
      next := Increment(next, FamilyKey);
    }
  }

  /** The three health-need checks, each adding one to its own entry. */
  method CountHealthNeeds(stats: Dict<string, nat>, needs: string, ghost n: NeedCounts) returns (next: Dict<string, nat>)
    requires stats == NeedsDict(n)
    ensures next == NeedsDict(AfterNeeds(n, needs))
  {
    next := stats;
    ghost var m := n;
    if needs != "" && needs != "없음" {
      if Contains(needs, "신선한") {
        IncrementSalad(m);
        next := Increment(next, SaladKey);
        m := m.(salad := m.salad + 1);
      }
      if Contains(needs, "건강한") {
        IncrementHomeMeal(m);
        next := Increment(next, HomeMealKey);
        m := m.(homeMeal := m.homeMeal + 1);
      }
      if Contains(needs, "국물") {
        IncrementSoup(m);
        next := Increment(next, SoupKey);
        m := m.(soup := m.soup + 1);
      }
    }
    assert m == AfterNeeds(n, needs);
  }

  // ---- the counters behind the charts ----

  function AgeOf(c: Customer): string { c.ageGroup }
  function GenderOf(c: Customer): string { c.gender }
  function FrequencyOf(c: Customer): string { c.visitFrequency }
  function ComplaintOf(c: Customer): string { c.complaints }
  function MenuOf(c: Customer): string { c.preferredMenu }

  /** customer.get('satisfaction', ''). */
  function SatisfactionOf(c: Customer): string {
    if c.satisfaction.Some? then c.satisfaction.value else ""
  }

  /** One field of every customer, in order. */
  function Column(raw: seq<Customer>, field: Customer -> string): (col: seq<string>)
    ensures |col| == |raw|
    ensures forall i :: 0 <= i < |raw| ==> col[i] == field(raw[i])
  {
    seq(|raw|, i requires 0 <= i < |raw| => field(raw[i]))
  }

  /** The satisfaction factors: the key to bump and the word that bumps it. */
  const SatisfactionFactors: seq<(string, seq<string>)> := [
    ("가격", ["가격"]), ("메뉴 다양", ["메뉴"]), ("신선함", ["신선"]), ("간편성", ["간단"]), ("매장 접근성", ["가깝"])
  ]

  /** The complaint factors; the menu-location factor has two words. */
  const ComplaintFactors: seq<(string, seq<string>)> := [
    ("음식 눅눅함", ["눅눅"]), ("메뉴 위치/가독성", ["찾기 어려", "표시 미흡"]), ("동선 문제", ["동선"]),
    ("차별점 부족", ["차별점"]), ("가격 문제", ["가격이 놀라"])
  ]

  /** The menu keys, each bumped by a fragment that contains it. */
  const MenuFactors: seq<(string, seq<string>)> := [
    ("샐러드", ["샐러드"]), ("초밥", ["초밥"]), ("튀김", ["튀김"]), ("비빔밥", ["비빔밥"])
  ]

  /** The three factor tables have distinct keys, none of them the
      Korean-menu key that is later added to the menu counts. */
  lemma FactorTablesWellFormed()
    ensures DistinctNames(SatisfactionFactors) && DistinctNames(ComplaintFactors) && DistinctNames(MenuFactors)
    ensures KoreanKey !in Names(MenuFactors)
  {
  }

  /** A counter dict built by `d[key] = d.get(key, 0) + 1`: a key is present
      exactly when some text mentions one of its words, with the number of
      texts that do, and no key outside the table appears. */
  ghost predicate FactorsCounted(d: Dict<string, nat>, texts: seq<string>, factors: seq<(string, seq<string>)>) {
    && Valid(d)
    && (forall k :: k in d.entries ==> k in Names(factors))
    && (forall i :: 0 <= i < |factors| ==> GetOr(d, factors[i].0, 0) == CountMentions(texts, factors[i].1))
    && (forall i :: 0 <= i < |factors| ==> (factors[i].0 in d.entries <==> CountMentions(texts, factors[i].1) > 0))
  }

  /** The loops that fill satisfaction_factors, complaint_factors and
      menu_preferences: every text bumps each factor it mentions once. */
  method CountFactors(texts: seq<string>, factors: seq<(string, seq<string>)>) returns (d: Dict<string, nat>)
    requires DistinctNames(factors)
    ensures FactorsCounted(d, texts, factors)
  {
    d := Empty();
    for t := 0 to |texts|
      invariant FactorsCounted(d, texts[..t], factors)
    {
      assert texts[..t + 1][..t] == texts[..t];
      d := AddMentions(d, texts[t], factors);
    }
    assert texts[..|texts|] == texts;
  }

  /** The dict after the checks of one text against the given factors, in
      order. */
  function Bumped(d: Dict<string, nat>, text: string, factors: seq<(string, seq<string>)>): Dict<string, nat> {
    if factors == [] then d
    else
      var r := Bumped(d, text, factors[..|factors| - 1]);
      var key := factors[|factors| - 1].0;
      if Mentions(text, factors[|factors| - 1].1) then Put(r, key, GetOr(r, key, 0) + 1) else r
  }

  /** The checks keep the dict valid and add only keys of the table. */
  lemma {:induction false} BumpedKeys(d: Dict<string, nat>, text: string, factors: seq<(string, seq<string>)>)
    requires Valid(d)
    ensures Valid(Bumped(d, text, factors))
    ensures forall k :: k in Bumped(d, text, factors).entries ==> k in d.entries || k in Names(factors)
  {
    if factors != [] {
      var front := factors[..|factors| - 1];
      BumpedKeys(d, text, front);
      assert Names(factors) == Names(front) + [factors[|factors| - 1].0];
    }
  }

  /** A key outside the table keeps its entry. */
  lemma {:induction false} BumpedOther(d: Dict<string, nat>, text: string, factors: seq<(string, seq<string>)>, k: string)
    requires k !in Names(factors)
    ensures GetOr(Bumped(d, text, factors), k, 0) == GetOr(d, k, 0)
    ensures k in Bumped(d, text, factors).entries <==> k in d.entries
  {
    if factors != [] {
      var front := factors[..|factors| - 1];
      assert Names(factors) == Names(front) + [factors[|factors| - 1].0];
      BumpedOther(d, text, front, k);
    }
  }

  /** Each factor of a table with distinct keys gains one exactly when the
      text mentions one of its words. */
  lemma {:induction false} BumpedEntry(d: Dict<string, nat>, text: string, factors: seq<(string, seq<string>)>, i: int)
    requires DistinctNames(factors) && 0 <= i < |factors|
    ensures GetOr(Bumped(d, text, factors), factors[i].0, 0) == GetOr(d, factors[i].0, 0) + (if Mentions(text, factors[i].1) then 1 else 0)
    ensures factors[i].0 in Bumped(d, text, factors).entries <==> factors[i].0 in d.entries || Mentions(text, factors[i].1)
  {
    var front := factors[..|factors| - 1];
    assert forall m :: 0 <= m < |front| ==> front[m] == factors[m];
    if i == |front| {
      assert factors[i].0 !in Names(front) by {
        forall m | 0 <= m < |front| ensures Names(front)[m] != factors[i].0 {
          assert Names(front)[m] == factors[m].0;
        }
      }
      BumpedOther(d, text, front, factors[i].0);
    } else {
      assert factors[i] == front[i] && factors[i].0 != factors[|front|].0;
      assert DistinctNames(front);
      BumpedEntry(d, text, front, i);
    }
  }

  /** The checks for one text. */
  method AddMentions(d: Dict<string, nat>, text: string, factors: seq<(string, seq<string>)>) returns (r: Dict<string, nat>)
    requires Valid(d) && DistinctNames(factors)
    requires forall k :: k in d.entries ==> k in Names(factors)
    ensures Valid(r)
    ensures forall k :: k in r.entries ==> k in Names(factors)
    ensures forall i :: 0 <= i < |factors| ==>
      GetOr(r, factors[i].0, 0) == GetOr(d, factors[i].0, 0) + (if Mentions(text, factors[i].1) then 1 else 0)
    ensures forall i :: 0 <= i < |factors| ==>
      (factors[i].0 in r.entries <==> factors[i].0 in d.entries || Mentions(text, factors[i].1))
  {
    r := d;
    for j := 0 to |factors|
      invariant r == Bumped(d, text, factors[..j])
    {
      assert factors[..j + 1][..j] == factors[..j];
      var (key, words) := factors[j];
      var hit := AnyKeyword(text, words);
      if hit {
        r := Put(r, key, GetOr(r, key, 0) + 1);
      }
    }
    assert factors[..|factors|] == factors;
    BumpedKeys(d, text, factors);
    forall i | 0 <= i < |factors|
      ensures GetOr(r, factors[i].0, 0) == GetOr(d, factors[i].0, 0) + (if Mentions(text, factors[i].1) then 1 else 0)
      ensures factors[i].0 in r.entries <==> factors[i].0 in d.entries || Mentions(text, factors[i].1)
    {
      BumpedEntry(d, text, factors, i);
    }
  }

  /** [m.strip() for m in menu.split(',')]. */
  function Pieces(menu: string): (r: seq<string>)
    ensures |r| == |Split(menu, ',')|
    ensures forall i :: 0 <= i < |r| ==> r[i] == Strip(Split(menu, ',')[i])
  {
    var parts := Split(menu, ',');
    seq(|parts|, i requires 0 <= i < |parts| => Strip(parts[i]))
  }

  /** The fragments of every menu answer, in order. */
  function Fragments(menus: seq<string>): seq<string> {
    if menus == [] then [] else Fragments(menus[..|menus| - 1]) + Pieces(menus[|menus| - 1])
  }

  /** No fragment holds a comma or starts or ends with white space. */
  lemma PiecesFacts(menu: string)
    ensures forall i :: 0 <= i < |Pieces(menu)| ==>
      ',' !in Pieces(menu)[i] &&
      (Pieces(menu)[i] != [] ==> !IsSpace(Pieces(menu)[i][0]) && !IsSpace(Pieces(menu)[i][|Pieces(menu)[i]| - 1]))
  {
    var parts := Split(menu, ',');
    forall i | 0 <= i < |parts|
      ensures ',' !in Strip(parts[i])
      ensures Strip(parts[i]) != [] ==> !IsSpace(Strip(parts[i])[0]) && !IsSpace(Strip(parts[i])[|Strip(parts[i])| - 1])
    {
      StripFacts(parts[i]);
    }
  }

  /** Counting over joined lists adds up, so a menu answer contributes one
      for each of its fragments that mentions a key. */
  lemma {:induction false} CountMentionsAppend(a: seq<string>, b: seq<string>, keywords: seq<string>)
    ensures CountMentions(a + b, keywords) == CountMentions(a, keywords) + CountMentions(b, keywords)
  {
    if b == [] {
      assert a + b == a;
    } else {
      var front := b[..|b| - 1];
      assert (a + b)[..|a + b| - 1] == a + front;
      CountMentionsAppend(a, front, keywords);
    }
  }

  /** The menu counter: the Korean-menu entry is 4, each menu key counts
      the fragments mentioning it, and the keys are the Korean-menu key and
      the menu keys some fragment mentions, nothing else. */
  ghost predicate MenuCounted(menus: Dict<string, nat>, fragments: seq<string>) {
    && Valid(menus) && KoreanKey in menus.entries && menus.entries[KoreanKey] == 4
    && (forall i :: 0 <= i < |MenuFactors| ==>
          GetOr(menus, MenuFactors[i].0, 0) == CountMentions(fragments, MenuFactors[i].1))
    && (forall k :: k in menus.entries <==>
          k == KoreanKey || exists i :: 0 <= i < |MenuFactors| && MenuFactors[i].0 == k && CountMentions(fragments, MenuFactors[i].1) > 0)
  }

  /** The menu-preference loop over the fragments, then the Korean-menu
      entry set to the constant 4. */
  method MenuCounts(fragments: seq<string>) returns (menus: Dict<string, nat>)
    ensures MenuCounted(menus, fragments)
  {
    FactorTablesWellFormed();
    var counted := CountFactors(fragments, MenuFactors);
    menus := Put(counted, KoreanKey, 4);
    forall k ensures k in menus.entries <==>
      k == KoreanKey || exists i :: 0 <= i < |MenuFactors| && MenuFactors[i].0 == k && CountMentions(fragments, MenuFactors[i].1) > 0
    {
      if k in counted.entries {
        assert k in Names(MenuFactors);
        var i :| 0 <= i < |MenuFactors| && MenuFactors[i].0 == k;
        assert CountMentions(fragments, MenuFactors[i].1) > 0;
      }
    }
  }

  /** The counters create_health_focused_visualization draws. */
  datatype Charts = Charts(
    ages: Dict<string, nat>, genders: Dict<string, nat>, visits: Dict<string, nat>,
    satisfaction: Dict<string, nat>, complaints: Dict<string, nat>, menus: Dict<string, nat>)

  /** The counting part of create_health_focused_visualization. The three
      distributions count each customer once, so each sums to the number of
      customers; the factor counters count the answers that say something;
      the menu counter counts fragments and then has the Korean-menu entry
      set to the constant 4. */
  method ChartCounts(raw: seq<Customer>) returns (charts: Charts)
    ensures charts.ages == Tally.Tally(Column(raw, AgeOf)) && Valid(charts.ages) && Total(charts.ages) == |raw|
    ensures charts.genders == Tally.Tally(Column(raw, GenderOf)) && Valid(charts.genders) && Total(charts.genders) == |raw|
    ensures charts.visits == Tally.Tally(Column(raw, FrequencyOf)) && Valid(charts.visits) && Total(charts.visits) == |raw|
    ensures FactorsCounted(charts.satisfaction, Filter(Column(raw, SatisfactionOf), Noted), SatisfactionFactors)
    ensures FactorsCounted(charts.complaints, Filter(Column(raw, ComplaintOf), Noted), ComplaintFactors)
    ensures MenuCounted(charts.menus, Fragments(Filter(Column(raw, MenuOf), Noted)))
  {
    FactorTablesWellFormed();
    var ages := Tally.CountEach(Column(raw, AgeOf));
    var genders := Tally.CountEach(Column(raw, GenderOf));
    var visits := Tally.CountEach(Column(raw, FrequencyOf));
    var satisfaction := CountFactors(Filter(Column(raw, SatisfactionOf), Noted), SatisfactionFactors);
    var complaints := CountFactors(Filter(Column(raw, ComplaintOf), Noted), ComplaintFactors);
    var menus := MenuCounts(Fragments(Filter(Column(raw, MenuOf), Noted)));
    charts := Charts(ages, genders, visits, satisfaction, complaints, menus);
  }

  /** The twelve survey records of _load_raw_data, in order. */
  const RawData: seq<Customer> := [
    Customer("K1", "40대", "여성", "주부",
      "폭립", "집과 가까움", "없음",
      "폭립 메뉴 자주 구매", "자주", "없음",
      None, None),
    Customer("K2", "60대", "부부", "부부",
      "새우튀김, 샐러드", "없음", "없음",
      "의사결정권자가 주로 아내", "미기재", "없음",
      None, None),
    Customer("K3", "30대", "남성", "직장인",
      "튀김류, 안주거리", "회사가 근처", "음식이 눅눅함, 차별점 못 느낌",
      "다른 이마트/트레이더스와 차별점 못 느낌", "2주/1", "없음",
      None, None),
    Customer("K4", "50대", "여성", "직장인",
      "없음", "사무실 근처(주2회 방문)", "출입구 표시 미흡으로 헤맴",
      "홍보 및 안내 표시 개선 요청", "주2회", "없음",
      None, None),
    Customer("K5", "50대", "부부", "부부",
      "오징어 튀김", "없음", "오징어 링 형태 제품 없어짐, 튀김이 조각나 있어 비주얼 불만족",
      "비주얼 불만족", "미기재", "없음",
      None, None),
    Customer("K6", "50대", "여성", "미기재",
      "튀김류, 허니버터 감자", "없음", "제품 찾기 어려움",
      "허니버터 감자 위치 파악 어려워 구매 못한 경험", "미기재", "없음",
      None, None),
    Customer("KP1", "50대", "여성", "미기재",
      "유부롤, 후토마끼, 샐러드", "혼자 간단히", "없음",
      "신선함, 메뉴 다양", "미기재", "신선한 샐러드 선호",
      Some("신선함, 메뉴 다양"), Some("한식 메뉴(비빔밥)")),
    Customer("KP2", "50대", "여성", "미기재",
      "초밥/그 때 그때 다름", "미기재", "없음",
      "가격 저렴, 메뉴 다양", "2주/1", "없음",
      Some("가격 저렴, 메뉴 다양"), Some("한식 메뉴(비빔밥, 김치찌개)")),
    Customer("KP3", "30대", "남성", "미기재",
      "샐러드", "가족 식사", "그 가격에 그 맛, 기대에 못 미침, 튀김이 눅눅함",
      "가격 저렴, 메뉴 다양", "2주/1", "없음",
      Some("가격 저렴, 메뉴 다양"), Some("한식 메뉴")),
    Customer("KP4", "50대", "여성", "미기재",
      "파스타, 꼬막비빔밥(딸이 좋아함)", "딸에게 주려고", "없음",
      "딸이 좋아해서", "자주 아님", "건강한 집밥(꼬막비빔밥)",
      Some("딸이 좋아해서"), Some("한식 메뉴")),
    Customer("KP5", "60대", "여성", "미기재",
      "샐러드", "친구들과 한끼 대체", "피자가 부실하다, 동선이 너무 자주 바뀜",
      "매장이 가깝음, 가격 대비 good", "주1회", "없음",
      Some("매장이 가깝음, 가격 대비 good, 메뉴 다양"), Some("없음")),
    Customer("KP6", "40대", "남성", "직장인",
      "초밥", "회사, 가족과 간단하게 식사할 때", "가격이 놀라는 것 같음",
      "간단히 먹기 good", "주2회", "없음",
      Some("간단히 먹기 good"), Some("없음"))
  ]

  /** Eight of the twelve shoppers are in their 40s or 50s. */
  lemma SurveyTargets()
    ensures |Filter(RawData, IsTarget)| == 8
  {
    assert RawData[..1][..0] == [];
    assert IsTarget(RawData[0]);
    assert |Filter(RawData[..1], IsTarget)| == 1;
    assert RawData[..2][..1] == RawData[..1];
    assert !IsTarget(RawData[1]);
    assert |Filter(RawData[..2], IsTarget)| == 1;
    assert RawData[..3][..2] == RawData[..2];
    assert !IsTarget(RawData[2]);
    assert |Filter(RawData[..3], IsTarget)| == 1;
    assert RawData[..4][..3] == RawData[..3];
    assert IsTarget(RawData[3]);
    assert |Filter(RawData[..4], IsTarget)| == 2;
    assert RawData[..5][..4] == RawData[..4];
    assert IsTarget(RawData[4]);
    assert |Filter(RawData[..5], IsTarget)| == 3;
    assert RawData[..6][..5] == RawData[..5];
    assert IsTarget(RawData[5]);
    assert |Filter(RawData[..6], IsTarget)| == 4;
    assert RawData[..7][..6] == RawData[..6];
    assert IsTarget(RawData[6]);
    assert |Filter(RawData[..7], IsTarget)| == 5;
    assert RawData[..8][..7] == RawData[..7];
    assert IsTarget(RawData[7]);
    assert |Filter(RawData[..8], IsTarget)| == 6;
    assert RawData[..9][..8] == RawData[..8];
    assert !IsTarget(RawData[8]);
    assert |Filter(RawData[..9], IsTarget)| == 6;
    assert RawData[..10][..9] == RawData[..9];
    assert IsTarget(RawData[9]);
    assert |Filter(RawData[..10], IsTarget)| == 7;
    assert RawData[..11][..10] == RawData[..10];
    assert !IsTarget(RawData[10]);
    assert |Filter(RawData[..11], IsTarget)| == 7;
    assert RawData[..12][..11] == RawData[..11];
    assert IsTarget(RawData[11]);
    assert |Filter(RawData[..12], IsTarget)| == 8;
    assert RawData[..12] == RawData;
  }

  /** On the survey records the pass itself finds four customers asking for
      Korean food, the number the report stores as a constant. */
  lemma SurveyKoreanDemand()
    ensures |Filter(RawData, WantsKorean)| == 4
  {
    assert RawData[..1][..0] == [];
    assert !WantsKorean(RawData[0]);
    assert |Filter(RawData[..1], WantsKorean)| == 0;
    assert RawData[..2][..1] == RawData[..1];
    assert !WantsKorean(RawData[1]);
    assert |Filter(RawData[..2], WantsKorean)| == 0;
    assert RawData[..3][..2] == RawData[..2];
    assert !WantsKorean(RawData[2]);
    assert |Filter(RawData[..3], WantsKorean)| == 0;
    assert RawData[..4][..3] == RawData[..3];
    assert !WantsKorean(RawData[3]);
    assert |Filter(RawData[..4], WantsKorean)| == 0;
    assert RawData[..5][..4] == RawData[..4];
    assert !WantsKorean(RawData[4]);
    assert |Filter(RawData[..5], WantsKorean)| == 0;
    assert RawData[..6][..5] == RawData[..5];
    assert !WantsKorean(RawData[5]);
    assert |Filter(RawData[..6], WantsKorean)| == 0;
    assert RawData[..7][..6] == RawData[..6];
    assert WantsKorean(RawData[6]);
    assert |Filter(RawData[..7], WantsKorean)| == 1;
    assert RawData[..8][..7] == RawData[..7];
    assert WantsKorean(RawData[7]);
    assert |Filter(RawData[..8], WantsKorean)| == 2;
    assert RawData[..9][..8] == RawData[..8];
    assert WantsKorean(RawData[8]);
    assert |Filter(RawData[..9], WantsKorean)| == 3;
    assert RawData[..10][..9] == RawData[..9];
    assert WantsKorean(RawData[9]);
    assert |Filter(RawData[..10], WantsKorean)| == 4;
    assert RawData[..11][..10] == RawData[..10];
    NoKoreanInNone();
    assert !WantsKorean(RawData[10]);
    assert |Filter(RawData[..11], WantsKorean)| == 4;
    assert RawData[..12][..11] == RawData[..11];
    assert !WantsKorean(RawData[11]) by { NoKoreanInNone(); }
    assert |Filter(RawData[..12], WantsKorean)| == 4;
    assert RawData[..12] == RawData;
  }

  /** '한식' does not occur in '없음'. */
  lemma NoKoreanInNone()
    ensures !Contains("없음", "한식")
  {
    assert "없음"[0] != "한식"[0];
    assert "없음"[1..] == "음";
    assert !Contains("", "한식");
    assert !Contains("음", "한식");
  }

  /** The analyzer's construction: load the survey records and keep their
      40s and 50s, eight customers. */
  method LoadSurvey() returns (raw: seq<Customer>, targets: seq<Customer>)
    ensures raw == RawData && |raw| == 12
    ensures targets == Filter(RawData, IsTarget) && |targets| == 8
  {
    raw := RawData;
    targets := ExtractTargetCustomers(raw);
    SurveyTargets();
  }
}
