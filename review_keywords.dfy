/** naver_review_health_food_analysis.py: how many reviews mention each
    health category, the ranking by that count, its top five, and the
    categories with a non-zero count. The analyzer object only holds its
    keyword table and sample reviews, which nothing changes after
    construction, so both are passed as values. */
module ReviewKeywords {
  import opened Text
  import opened Dicts

  /** Some keyword of the category occurs in the review as a substring. */
  predicate Mentions(review: string, keywords: seq<string>) {
    exists k :: 0 <= k < |keywords| && Contains(review, keywords[k])
  }

  /** The number of reviews that mention a category, each review at most once. */
  function CountMentions(reviews: seq<string>, keywords: seq<string>): nat {
    if reviews == [] then 0
    else CountMentions(reviews[..|reviews| - 1], keywords) + (if Mentions(reviews[|reviews| - 1], keywords) then 1 else 0)
  }

  /** A count lies between 0 and the number of reviews; it is 0 exactly when
      no review mentions the category and the number of reviews exactly
      when every review does. */
  lemma {:induction false} CountMentionsBounds(reviews: seq<string>, keywords: seq<string>)
    ensures CountMentions(reviews, keywords) <= |reviews|
    ensures CountMentions(reviews, keywords) == 0 <==> forall i :: 0 <= i < |reviews| ==> !Mentions(reviews[i], keywords)
    ensures CountMentions(reviews, keywords) == |reviews| <==> forall i :: 0 <= i < |reviews| ==> Mentions(reviews[i], keywords)
  {
    if reviews != [] {
      var front := reviews[..|reviews| - 1];
      CountMentionsBounds(front, keywords);
      assert forall i :: 0 <= i < |front| ==> front[i] == reviews[i];
    }
  }

  /** The category names of the keyword table, in table order. */
  function Names(table: seq<(string, seq<string>)>): (names: seq<string>)
    ensures |names| == |table|
    ensures forall i :: 0 <= i < |table| ==> names[i] == table[i].0
  {
    seq(|table|, i requires 0 <= i < |table| => table[i].0)
  }

  /** The table is a dict, so its category names are distinct. */
  ghost predicate DistinctNames(table: seq<(string, seq<string>)>) {
    forall i, j :: 0 <= i < j < |table| ==> table[i].0 != table[j].0
  }

  /** The dict the category loop builds from the first rows of the table. */
  function CountsFor(table: seq<(string, seq<string>)>, reviews: seq<string>): Dict<string, nat> {
    if table == [] then Empty()
    else
      var row := table[|table| - 1];
      Put(CountsFor(table[..|table| - 1], reviews), row.0, CountMentions(reviews, row.1))
  }

  /** With distinct category names the dict has one key per category, in
      table order. */
  lemma {:induction false} CountsForKeys(table: seq<(string, seq<string>)>, reviews: seq<string>)
    requires DistinctNames(table)
    ensures Valid(CountsFor(table, reviews)) && CountsFor(table, reviews).keys == Names(table)
  {
    if table != [] {
      var front, row := table[..|table| - 1], table[|table| - 1];
      assert DistinctNames(front) by {
        assert forall i :: 0 <= i < |front| ==> front[i] == table[i];
      }
      CountsForKeys(front, reviews);
      var before := CountsFor(front, reviews);
      assert row.0 !in before.keys by {
        forall j | 0 <= j < |before.keys| ensures before.keys[j] != row.0 {
          assert before.keys[j] == table[j].0;
        }
      }
      assert Names(table) == Names(front) + [row.0];
    }
  }

  /** Each category's entry holds the number of reviews that mention it. */
  lemma {:induction false} CountsForEntry(table: seq<(string, seq<string>)>, reviews: seq<string>, i: int)
    requires DistinctNames(table) && 0 <= i < |table|
    ensures table[i].0 in CountsFor(table, reviews).entries
    ensures CountsFor(table, reviews).entries[table[i].0] == CountMentions(reviews, table[i].1)
  {
    var front := table[..|table| - 1];
    if i < |front| {
      assert front[i] == table[i];
      assert table[i].0 != table[|table| - 1].0;
      assert DistinctNames(front) by {
        assert forall k :: 0 <= k < |front| ==> front[k] == table[k];
      }
      CountsForEntry(front, reviews, i);
    }
  }

  /** analyze_health_keywords: for each category, count the reviews in which
      some keyword occurs. The result has one key per category, in table
      order. */
  method AnalyzeHealthKeywords(table: seq<(string, seq<string>)>, reviews: seq<string>)
    returns (counts: Dict<string, nat>, total: nat)
    requires DistinctNames(table)
    ensures total == |reviews|
    ensures Valid(counts) && counts.keys == Names(table)
    ensures forall i :: 0 <= i < |table| ==> counts.entries[table[i].0] == CountMentions(reviews, table[i].1)
  {
    total := |reviews|;
    counts := Empty();
    for c := 0 to |table|
      invariant counts == CountsFor(table[..c], reviews)
    {
      assert table[..c + 1][..c] == table[..c];
      var (category, keywords) := table[c];
      var count := CountReviews(reviews, keywords);
      counts := Put(counts, category, count);
    }
    assert table[..|table|] == table;
    CountsForKeys(table, reviews);
    forall i | 0 <= i < |table|
      ensures counts.entries[table[i].0] == CountMentions(reviews, table[i].1)
    {
      CountsForEntry(table, reviews, i);
    }
  }

  /** The loop over the reviews for one category: the keyword loop stops at
      the first keyword found, so a review adds at most one. */
  method CountReviews(reviews: seq<string>, keywords: seq<string>) returns (count: nat)
    ensures count == CountMentions(reviews, keywords)
  {
    count := 0;
    for r := 0 to |reviews|
      invariant count == CountMentions(reviews[..r], keywords)
    {
      assert reviews[..r + 1][..r] == reviews[..r];
      var review := reviews[r];
      ghost var before := count;
      var k := 0;
      while k < |keywords|
        invariant 0 <= k <= |keywords| && count == before
        invariant forall m :: 0 <= m < k ==> !Contains(review, keywords[m])
      {
        if Contains(review, keywords[k]) {
          count := count + 1;
          break;
        }
        k := k + 1;
      }
    }
    assert reviews[..|reviews|] == reviews;
  }

  // ---- the ranking and its selections ----

  /** Counts never increase along the sequence. */
  ghost predicate NonIncreasing(s: seq<(string, nat)>) {
    forall i, j :: 0 <= i < j < |s| ==> s[i].1 >= s[j].1
  }

  /** Insert x after every entry whose count is at least x's. */
  function InsertByCount(x: (string, nat), s: seq<(string, nat)>): (r: seq<(string, nat)>)
    requires NonIncreasing(s)
    ensures NonIncreasing(r)
    ensures multiset(r) == multiset(s) + multiset{x}
    ensures |r| == |s| + 1
  {
    if s == [] then [x]
    else if x.1 > s[0].1 then [x] + s
    else
      var rest := InsertByCount(x, s[1..]);
      assert s == [s[0]] + s[1..];
      HeadDominates(s, x, rest);
      [s[0]] + rest
  }

  /** The head of a non-increasing list has a count at least that of
      anything made of its tail and an element no larger than it. */
  lemma HeadDominates(s: seq<(string, nat)>, x: (string, nat), rest: seq<(string, nat)>)
    requires s != [] && NonIncreasing(s) && x.1 <= s[0].1
    requires multiset(rest) == multiset(s[1..]) + multiset{x}
    ensures forall j :: 0 <= j < |rest| ==> s[0].1 >= rest[j].1
  {
    forall j | 0 <= j < |rest| ensures s[0].1 >= rest[j].1 {
      assert rest[j] in multiset(rest);
      if rest[j] != x {
        assert rest[j] in multiset(s[1..]);
        var m :| 0 <= m < |s[1..]| && s[1..][m] == rest[j];
        assert s[m + 1] == rest[j];
      }
    }
  }

  /** sorted(items, key=count, reverse=True). */
  function RankByCount(items: seq<(string, nat)>): (r: seq<(string, nat)>)
    ensures NonIncreasing(r)
    ensures multiset(r) == multiset(items)
    ensures |r| == |items|
  {
    if items == [] then []
    else
      var front := items[..|items| - 1];
      assert items == front + [items[|items| - 1]];
      InsertByCount(items[|items| - 1], RankByCount(front))
  }

  /** The ranking's first five entries, or all of them when there are fewer. */
  function TopFive(items: seq<(string, nat)>): seq<(string, nat)> {
    var r := RankByCount(items);
    if |r| <= 5 then r else r[..5]
  }

  /** The top five are at most five entries from the front of the ranking,
      all taken from the items, and none has a smaller count than an entry
      left out. */
  lemma TopFiveFacts(items: seq<(string, nat)>)
    ensures |TopFive(items)| == if |items| < 5 then |items| else 5
    ensures TopFive(items) <= RankByCount(items)
    ensures forall e :: e in TopFive(items) ==> e in items
    ensures forall i, j :: 0 <= i < |TopFive(items)| <= j < |items| ==> TopFive(items)[i].1 >= RankByCount(items)[j].1
  {
    var r := RankByCount(items);
    var top := TopFive(items);
    assert top == if |r| <= 5 then r else r[..5];
    assert forall i :: 0 <= i < |top| ==> top[i] == r[i];
    forall e | e in top ensures e in items {
      assert e in multiset(r);
    }
  }

  /** [cat for cat, count in keyword_counts.items() if count > 0]. */
  function NonZeroCategories(keys: seq<string>, entries: map<string, nat>): (cats: seq<string>)
    requires forall k :: k in keys ==> k in entries
    ensures |cats| <= |keys|
    ensures forall c :: c in cats <==> c in keys && entries[c] > 0
  {
    if keys == [] then []
    else
      var front := NonZeroCategories(keys[..|keys| - 1], entries);
      var k := keys[|keys| - 1];
      assert forall c :: c in keys <==> c in keys[..|keys| - 1] || c == k;
      if entries[k] > 0 then front + [k] else front
  }

  /** [keyword_counts[cat] for cat in non_zero_categories]. */
  function CountsOf(cats: seq<string>, entries: map<string, nat>): (counts: seq<nat>)
    requires forall c :: c in cats ==> c in entries
    ensures |counts| == |cats|
    ensures forall i :: 0 <= i < |cats| ==> counts[i] == entries[cats[i]]
  {
    seq(|cats|, i requires 0 <= i < |cats| => entries[cats[i]])
  }

  /** The pie chart's two lists line up: the i-th count belongs to the i-th
      category and is positive, and the categories are exactly those with a
      positive count. */
  lemma NonZeroLinesUp(counts: Dict<string, nat>)
    requires Valid(counts)
    ensures var cats := NonZeroCategories(counts.keys, counts.entries);
      && |CountsOf(cats, counts.entries)| == |cats|
      && (forall i :: 0 <= i < |cats| ==> CountsOf(cats, counts.entries)[i] == counts.entries[cats[i]] > 0)
      && (forall c :: c in cats <==> c in counts.entries && counts.entries[c] > 0)
  {
    var cats := NonZeroCategories(counts.keys, counts.entries);
    forall i | 0 <= i < |cats| ensures counts.entries[cats[i]] > 0 {
      assert cats[i] in cats;
    }
  }

  /** The analyzer's keyword table. */
  const HealthKeywords: seq<(string, seq<string>)> := [
    ("건강", ["건강", "건강한", "건강식", "건강식품", "건강음식", "건강식단"]),
    ("집밥", ["집밥", "집밥스타일", "집에서", "가정식", "집에서 만든"]),
    ("신선", ["신선", "신선한", "신선도", "싱싱한", "생생한"]),
    ("자연", ["자연", "자연스러운", "자연식", "유기농", "무농약"]),
    ("저칼로리", ["저칼로리", "다이어트", "칼로리", "가벼운", "가벼운 식사"]),
    ("영양", ["영양", "영양가", "영양소", "영양분", "영양식"]),
    ("국물", ["국물", "국물요리", "찌개", "탕", "국"]),
    ("한식", ["한식", "한국음식", "한국요리", "전통음식", "전통요리"]),
    ("채소", ["채소", "야채", "채소류", "녹색채소", "신선채소"]),
    ("단백질", ["단백질", "고단백", "단백질식", "육류", "생선"])
  ]

  /** The table has ten distinct categories, so analyze_health_keywords
      applies to it and reports ten counts. */
  lemma HealthKeywordsWellFormed()
    ensures |HealthKeywords| == 10 && DistinctNames(HealthKeywords)
  {
  }
}
