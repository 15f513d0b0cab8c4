/**
 * Where a quiz's questions come from: the built-in multimedia questions of
 * each category, the category pictures, the trivia-service request and the
 * assembly of the final question list.
 */
module Catalog {
  import opened Wrappers
  import opened Text
  import opened Questions

  const AnimalPhoto := "https://images.unsplash.com/photo-1518717758536-85ae29035b6d?auto=format&fit=crop&w=400&q=80"

  const AnimalQuestion := Question("Which animal is shown in this image?",
    ["Cat", "Dog", "Rabbit", "Horse"], 1, Some(Media(Image, AnimalPhoto)), None)

  /** The built-in questions, keyed by category identifier. */
  const MultimediaQuestions: map<string, seq<Question>> := map[
    "9" := [AnimalQuestion],
    "17" := [Question("What is shown in this science image?",
      ["Atom", "Cell", "Galaxy", "Molecule"], 1,
      Some(Media(Image, "https://images.unsplash.com/photo-1465101046530-73398c7f28ca?auto=format&fit=crop&w=400&q=80")), None)],
    "23" := [Question("Listen to this historical speech. Who is the speaker?",
      ["Martin Luther King Jr.", "John F. Kennedy", "Winston Churchill", "Nelson Mandela"], 0,
      Some(Media(Audio, "https://ia800701.us.archive.org/13/items/MLKDream/MLKDream.mp3")), None)],
    "21" := [Question("Which sport is shown in this video?",
      ["Basketball", "Soccer", "Tennis", "Swimming"], 1,
      Some(Media(Video, "https://www.w3schools.com/html/mov_bbb.mp4")), None)],
    "22" := [Question("Which landmark is shown in this image?",
      ["Eiffel Tower", "Statue of Liberty", "Colosseum", "Great Wall"], 0,
      Some(Media(Image, "https://images.unsplash.com/photo-1506744038136-46273834b3fb?auto=format&fit=crop&w=400&q=80")), None)],
    "any" := [AnimalQuestion]
  ]

  const DefaultPicture := "https://images.unsplash.com/photo-1513258496099-48168024aec0?auto=format&fit=crop&w=400&q=80"

  /** The picture shown with a question that has no media of its own. */
  const CategoryImages: map<string, string> := map[
    "9" := DefaultPicture,
    "17" := "https://images.unsplash.com/photo-1464983953574-0892a716854b?auto=format&fit=crop&w=400&q=80",
    "23" := "https://images.unsplash.com/photo-1503676382389-4809596d5290?auto=format&fit=crop&w=400&q=80",
    "21" := "https://images.unsplash.com/photo-1517841905240-472988babdf9?auto=format&fit=crop&w=400&q=80",
    "22" := "https://images.unsplash.com/photo-1510936111840-6c7d9c5c1b43?auto=format&fit=crop&w=400&q=80",
    "any" := DefaultPicture
  ]

  /** `categoryImages[category] || categoryImages['any']`. */
  function CategoryImage(category: string): (url: string)
    ensures category in CategoryImages ==> url == CategoryImages[category]
    ensures category !in CategoryImages ==> url == CategoryImages["any"]
  {
    if category in CategoryImages then CategoryImages[category] else CategoryImages["any"]
  }

  /** The media a question is shown with: its own, else its category's picture. */
  function MediaShown(q: Question, category: string): (m: Media)
    ensures q.media.Some? ==> m == q.media.value
    ensures q.media.None? ==> m == Media(Image, CategoryImage(category))
  {
    match q.media
    case Some(own) => own
    case None => Media(Image, CategoryImage(category))
  }

  /** Every built-in question names one of its four answers as correct and carries its own media. */
  lemma MultimediaWellFormed(category: string, i: nat)
    requires category in MultimediaQuestions && i < |MultimediaQuestions[category]|
    ensures |MultimediaQuestions[category]| == 1
    ensures WellFormed(MultimediaQuestions[category][i])
    ensures |MultimediaQuestions[category][i].answers| == 4
    ensures MultimediaQuestions[category][i].media.Some?
    ensures MultimediaQuestions[category][i].userAnswer == None
  {
  }

  // The endpoint is written in two pieces so that the absence of '&' in it
  // can be checked piece by piece.
  const ApiPrefix := "https://opentdb" + ".com/api.php?amount="
  const TypeParam := "&type=multiple"

  /** The query for `amount` questions; a parameter whose value is 'any' is left out. */
  function QueryUrl(amount: nat, category: string, difficulty: string): (url: string)
    ensures |url| > |ApiPrefix| + |TypeParam| && url[..|ApiPrefix|] == ApiPrefix
    ensures url[|url| - |TypeParam|..] == TypeParam
  {
    ApiPrefix + Decimal(amount) + QueryTail(category, difficulty)
  }

  /** Everything after the amount: the optional parameters, then the type restriction. */
  function QueryTail(category: string, difficulty: string): string
  {
    CategorySegment(category) + DifficultySegment(difficulty) + TypeParam
  }

  function CategorySegment(category: string): string
  {
    if category != "any" then "&category=" + category else ""
  }

  function DifficultySegment(difficulty: string): string
  {
    if difficulty != "any" then "&difficulty=" + difficulty else ""
  }

  /** The text of `s` before its first '&' (all of `s` if it has none). */
  function BeforeAmp(s: string): (r: string)
    ensures |r| <= |s| && r == s[..|r|]
  {
    if s == [] || s[0] == '&' then [] else [s[0]] + BeforeAmp(s[1..])
  }

  /** The `amount` parameter read back from a query URL. */
  function AmountParam(url: string): Option<nat>
  {
    if |url| >= |ApiPrefix| && url[..|ApiPrefix|] == ApiPrefix
    then Some(DecimalValue(BeforeAmp(url[|ApiPrefix|..])))
    else None
  }

  lemma {:induction false} BeforeAmpStops(a: string, b: string)
    requires Lacks(a, '&') && (b == [] || b[0] == '&')
    ensures BeforeAmp(a + b) == a
    decreases |a|
  {
    if a != [] {
      assert (a + b)[0] == a[0];
      assert Lacks(a[1..], '&');
      BeforeAmpStops(a[1..], b);
      assert (a + b)[1..] == a[1..] + b;
    }
  }

  lemma ApiPrefixLacksAmp()
    ensures Lacks(ApiPrefix, '&')
  {
    LacksConcat("https://opentdb", ".com/api.php?amount=", '&');
  }

  /** The part before the optional parameters holds no '&'. */
  lemma HeadLacksAmp(amount: nat)
    ensures Lacks(ApiPrefix + Decimal(amount), '&')
  {
    ApiPrefixLacksAmp();
    DigitsLack(Decimal(amount), '&');
    LacksConcat(ApiPrefix, Decimal(amount), '&');
  }

  /** The tail opens with a '&' and closes with the type restriction. */
  lemma QueryTailShape(category: string, difficulty: string)
    ensures var tail := QueryTail(category, difficulty);
      |tail| >= |TypeParam| && tail[0] == '&' && tail[|tail| - |TypeParam|..] == TypeParam
  {
    var tail := QueryTail(category, difficulty);
    var opt := CategorySegment(category) + DifficultySegment(difficulty);
    assert tail == opt + TypeParam;
    assert tail[|tail| - |TypeParam|..] == TypeParam;
    if CategorySegment(category) != "" {
      assert tail[0] == CategorySegment(category)[0] == '&';
    } else if DifficultySegment(difficulty) != "" {
      assert tail[0] == DifficultySegment(difficulty)[0] == '&';
    } else {
      assert tail[0] == TypeParam[0];
    }
  }

  /** After the prefix, the amount reads back up to the first '&'. */
  lemma AmountParamOf(digits: string, tail: string)
    requires IsDigits(digits) && |tail| > 0 && tail[0] == '&'
    ensures AmountParam(ApiPrefix + digits + tail) == Some(DecimalValue(digits))
  {
    var url := ApiPrefix + digits + tail;
    PrefixSplit(ApiPrefix, digits + tail);
    assert url == ApiPrefix + (digits + tail);
    DigitsLack(digits, '&');
    BeforeAmpStops(digits, tail);
  }

  lemma PrefixSplit(p: string, rest: string)
    ensures (p + rest)[..|p|] == p && (p + rest)[|p|..] == rest
  {
  }

  /** The amount asked for is the one the URL carries, and the URL ends with the type restriction. */
  lemma QueryUrlAmount(amount: nat, category: string, difficulty: string)
    ensures AmountParam(QueryUrl(amount, category, difficulty)) == Some(amount)
    ensures var url := QueryUrl(amount, category, difficulty);
      |url| >= |TypeParam| && url[|url| - |TypeParam|..] == TypeParam
  {
    var head, tail := ApiPrefix + Decimal(amount), QueryTail(category, difficulty);
    QueryTailShape(category, difficulty);
    AmountParamOf(Decimal(amount), tail);
    DecimalRoundTrip(amount);
    SuffixKept(head, tail, |TypeParam|);
  }

  lemma SuffixKept(head: string, tail: string, n: nat)
    requires n <= |tail|
    ensures (head + tail)[|head + tail| - n..] == tail[|tail| - n..]
  {
  }

  /** An occurrence of a '&'-led needle in `a + b` lies in `b` when `a` has no '&'. */
  lemma ContainsSkip(a: string, b: string, sub: string)
    requires |sub| > 0 && sub[0] == '&' && Lacks(a, '&') && Contains(a + b, sub)
    ensures Contains(b, sub)
  {
    var i :| 0 <= i <= |a + b| - |sub| && OccursAt(a + b, sub, i);
    assert (a + b)[i..i + |sub|][0] == sub[0];
    assert i >= |a|;
    assert (a + b)[i..i + |sub|] == b[i - |a|..i - |a| + |sub|];
    assert OccursAt(b, sub, i - |a|);
  }

  /** A needle whose second character differs from that of `s` cannot start `s`, so it lies in `s[1..]`. */
  lemma ContainsPastHead(s: string, sub: string)
    requires |s| > 1 && |sub| > 1 && s[1] != sub[1] && Contains(s, sub)
    ensures Contains(s[1..], sub)
  {
    var i :| 0 <= i <= |s| - |sub| && OccursAt(s, sub, i);
    assert s[i..i + |sub|][1] == sub[1];
    assert i != 0;
    SliceOfTail(s, i, |sub|);
    assert OccursAt(s[1..], sub, i - 1);
  }

  lemma SliceOfTail(s: string, i: nat, n: nat)
    requires 1 <= i && i + n <= |s|
    ensures s[1..][i - 1..i - 1 + n] == s[i..i + n]
  {
  }

  /** A query segment: '&', a name starting with `lead`, and no further '&'. */
  predicate Segment(seg: string, lead: char)
  {
    |seg| > 1 && seg[0] == '&' && seg[1] == lead && Lacks(seg[1..], '&')
  }

  /** A '&'-led needle is not found in a segment followed by text that lacks it, when their leads differ. */
  lemma SegmentAvoids(seg: string, lead: char, rest: string, sub: string)
    requires Segment(seg, lead) && |sub| > 1 && sub[0] == '&' && sub[1] != lead
    requires !Contains(rest, sub)
    ensures !Contains(seg + rest, sub)
  {
    var s := seg + rest;
    if Contains(s, sub) {
      assert s[1] == lead;
      ContainsPastHead(s, sub);
      assert s[1..] == seg[1..] + rest;
      ContainsSkip(seg[1..], rest, sub);
    }
  }

  lemma TypeParamAvoids(sub: string)
    requires |sub| > 1 && sub[0] == '&' && sub[1] != 't'
    ensures !Contains(TypeParam, sub)
  {
    assert Segment(TypeParam, 't');
    assert !Contains("", sub);
    assert TypeParam + "" == TypeParam;
    SegmentAvoids(TypeParam, 't', "", sub);
  }

  lemma CategorySegmentShape(category: string)
    requires Lacks(category, '&') && category != "any"
    ensures Segment(CategorySegment(category), 'c')
  {
    var seg := CategorySegment(category);
    assert seg[1..] == "category=" + category;
    LacksConcat("category=", category, '&');
  }

  lemma DifficultySegmentShape(difficulty: string)
    requires Lacks(difficulty, '&') && difficulty != "any"
    ensures Segment(DifficultySegment(difficulty), 'd')
  {
    var seg := DifficultySegment(difficulty);
    assert seg[1..] == "difficulty=" + difficulty;
    LacksConcat("difficulty=", difficulty, '&');
  }

  /** A '&'-led needle occurs in the URL exactly when it occurs in the tail. */
  lemma UrlContainsIffTail(amount: nat, category: string, difficulty: string, sub: string)
    requires |sub| > 0 && sub[0] == '&'
    ensures Contains(QueryUrl(amount, category, difficulty), sub) <==> Contains(QueryTail(category, difficulty), sub)
  {
    var head, tail := ApiPrefix + Decimal(amount), QueryTail(category, difficulty);
    HeadLacksAmp(amount);
    if Contains(head + tail, sub) {
      ContainsSkip(head, tail, sub);
    }
    if Contains(tail, sub) {
      ContainsWithin(head, tail, "", sub);
      assert head + tail + "" == head + tail;
    }
  }

  /** With identifiers free of '&', the query carries `&category=` exactly when the category is not 'any'. */
  lemma QueryUrlCategory(amount: nat, category: string, difficulty: string)
    requires Lacks(category, '&') && Lacks(difficulty, '&')
    ensures Contains(QueryUrl(amount, category, difficulty), "&category=") <==> category != "any"
  {
    UrlContainsIffTail(amount, category, difficulty, "&category=");
    if category != "any" {
      TailWithCategory(category, difficulty);
    } else {
      TailWithoutCategory(difficulty);
    }
  }

  lemma TailWithCategory(category: string, difficulty: string)
    requires category != "any"
    ensures Contains(QueryTail(category, difficulty), "&category=")
  {
    var sub := "&category=";
    var rest := DifficultySegment(difficulty) + TypeParam;
    assert QueryTail(category, difficulty) == "" + (sub + category) + rest;
    ContainsPrefix(sub, category);
    ContainsWithin("", sub + category, rest, sub);
  }

  lemma TailWithoutCategory(difficulty: string)
    requires Lacks(difficulty, '&')
    ensures !Contains(QueryTail("any", difficulty), "&category=")
  {
    var sub := "&category=";
    TypeParamAvoids(sub);
    if difficulty != "any" {
      DifficultySegmentShape(difficulty);
      SegmentAvoids(DifficultySegment(difficulty), 'd', TypeParam, sub);
    }
    assert QueryTail("any", difficulty) == DifficultySegment(difficulty) + TypeParam;
  }

  /** With identifiers free of '&', the query carries `&difficulty=` exactly when the difficulty is not 'any'. */
  lemma QueryUrlDifficulty(amount: nat, category: string, difficulty: string)
    requires Lacks(category, '&') && Lacks(difficulty, '&')
    ensures Contains(QueryUrl(amount, category, difficulty), "&difficulty=") <==> difficulty != "any"
  {
    var sub := "&difficulty=";
    UrlContainsIffTail(amount, category, difficulty, sub);
    var cat := CategorySegment(category);
    assert QueryTail(category, difficulty) == cat + DifficultySegment(difficulty) + TypeParam;
    if difficulty != "any" {
      ContainsPrefix(sub, difficulty);
      ContainsWithin(cat, sub + difficulty, TypeParam, sub);
    } else {
      TypeParamAvoids(sub);
      assert QueryTail(category, difficulty) == cat + TypeParam;
      if category != "any" {
        CategorySegmentShape(category);
        SegmentAvoids(cat, 'c', TypeParam, sub);
      }
    }
  }

  /**
   * `fetchQuestions(category, difficulty, num)`. `results` stands for the
   * `results` list of the service's reply and `positions` for the random
   * insertion points; `request` is the URL fetched, None when no request is made.
   */
  method FetchQuestions(category: string, difficulty: string, num: nat,
                        results: seq<RawQuestion>, positions: seq<nat>)
    returns (request: Option<string>, qs: seq<Question>)
    requires ValidPositions(results, positions)
    ensures category in MultimediaQuestions && num <= |MultimediaQuestions[category]| ==>
      request == None && qs == MultimediaQuestions[category]
    ensures category in MultimediaQuestions && num > |MultimediaQuestions[category]| ==>
      request == Some(QueryUrl(num - |MultimediaQuestions[category]|, category, difficulty)) &&
      qs == MultimediaQuestions[category] + NormalizedAll(results, positions)
    ensures category !in MultimediaQuestions ==>
      request == Some(QueryUrl(num, category, difficulty)) && qs == NormalizedAll(results, positions)
    ensures forall i | 0 <= i < |qs| :: WellFormed(qs[i]) && qs[i].userAnswer == None
  {
    if category in MultimediaQuestions {
      var fixed := MultimediaQuestions[category];
      MultimediaWellFormed(category, 0);
      var extra: seq<Question> := [];
      request := None;
      if num > |fixed| {
        request := Some(QueryUrl(num - |fixed|, category, difficulty));
        extra := NormalizeAll(results, positions);
      }
      qs := fixed + extra;
    } else {
      request := Some(QueryUrl(num, category, difficulty));
      qs := NormalizeAll(results, positions);
    }
  }

  /**
   * Categories "9" and "any" both hold exactly the animal picture question,
   * whose correct answer is "Dog".
   */
  lemma AnimalCategories()
    ensures MultimediaQuestions["9"] == [AnimalQuestion] && MultimediaQuestions["any"] == [AnimalQuestion]
    ensures AnimalQuestion.answers[AnimalQuestion.correct] == "Dog"
  {
  }
}
