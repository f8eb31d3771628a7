/** The sample posts and the category list, and the `YYYY-MM-DD` date
    strings the posts carry. The article bodies are long template literals;
    only whether a post defines one is kept here. */
module BlogData {

  datatype Post = Post(id: int, slug: string, title: string, summary: string,
                       category: string, date: string, hasContent: bool)

  const CdnDate := "2024-12-19"
  const GpuDate := "2024-12-15"
  const NetworkDate := "2024-12-10"

  const SamplePosts: seq<Post> := [
    Post(1, "building-high-performance-cdn",
         "Building a High-Performance CDN: From Concept to Production",
         "A deep dive into architecting and implementing a content delivery network that scales to handle millions of requests while maintaining sub-100ms latency.",
         "Infrastructure", CdnDate, true),
    Post(2, "scaling-gpu-infrastructure-ai-training",
         "Scaling GPU Infrastructure for AI Training: Lessons from xAI",
         "Insights from building and managing the 200k GPU supercompute infrastructure that powers Grok 3 training, covering network architecture, job scheduling, and failure handling.",
         "AI Infrastructure", GpuDate, true),
    Post(3, "data-center-network-design",
         "Data Center Network Design: Building for Scale and Reliability",
         "Comprehensive guide to designing enterprise-grade data center networks that can handle massive traffic loads while maintaining 99.99% uptime and sub-millisecond latency.",
         "Networking", NetworkDate, true)
  ]

  const Categories: seq<string> := ["All", "Infrastructure", "AI Infrastructure", "Networking"]

  /** The pseudo-category that selects every post. */
  const AllCategory := "All"

  // ---------------------------------------------------------------------
  // Dates

  predicate IsDigit(c: char)
  {
    '0' <= c <= '9'
  }

  /** `YYYY-MM-DD`. */
  predicate IsoDate(d: string)
  {
    |d| == 10 && d[4] == '-' && d[7] == '-'
    && IsDigit(d[0]) && IsDigit(d[1]) && IsDigit(d[2]) && IsDigit(d[3])
    && IsDigit(d[5]) && IsDigit(d[6]) && IsDigit(d[8]) && IsDigit(d[9])
  }

  function Pow10(n: nat): (r: nat)
    ensures r >= 1
  {
    if n == 0 then 1 else 10 * Pow10(n - 1)
  }

  function DigitValue(c: char): int
  {
    c as int - '0' as int
  }

  function DigitCount(s: string): nat
  {
    if s == [] then 0 else DigitCount(s[..|s| - 1]) + (if IsDigit(s[|s| - 1]) then 1 else 0)
  }

  /** The number spelled by the digits of `s`, other characters skipped. */
  function Num(s: string): nat
  {
    if s == [] then 0
    else if IsDigit(s[|s| - 1]) then Num(s[..|s| - 1]) * 10 + (s[|s| - 1] as int - '0' as int)
    else Num(s[..|s| - 1])
  }

  /** The instant a date string denotes, up to order: `YYYYMMDD` as a
      number. For `YYYY-MM-DD` strings it orders dates as their time values
      do. */
  function DateKey(d: string): nat
  {
    Num(d)
  }

  function Year(d: string): nat requires IsoDate(d) { Num(d[..4]) }
  function Month(d: string): nat requires IsoDate(d) { Num(d[5..7]) }
  function Day(d: string): nat requires IsoDate(d) { Num(d[8..]) }

  /** JavaScript's `<=` on strings: lexicographic on code units. */
  predicate StrLe(a: string, b: string)
  {
    if a == [] then true
    else if b == [] then false
    else if a[0] != b[0] then a[0] < b[0]
    else StrLe(a[1..], b[1..])
  }

  /** Two strings with their digits in the same places and the same
      characters everywhere else. */
  predicate SameShape(a: string, b: string)
  {
    |a| == |b| && forall k :: 0 <= k < |a| ==> IsDigit(a[k]) == IsDigit(b[k]) && (!IsDigit(a[k]) ==> a[k] == b[k])
  }

  lemma {:induction false} NumBound(s: string)
    ensures Num(s) < Pow10(DigitCount(s))
  {
    if s != [] {
      NumBound(s[..|s| - 1]);
    }
  }

  /** The number and digit count of `s` from its first character on. */
  lemma NumFront(s: string)
    requires s != []
    ensures DigitCount(s) == (if IsDigit(s[0]) then 1 else 0) + DigitCount(s[1..])
    ensures Num(s) == (if IsDigit(s[0]) then DigitValue(s[0]) else 0) * Pow10(DigitCount(s[1..])) + Num(s[1..])
  {
    var c := [s[0]];
    assert c[..0] == [];
    assert s == c + s[1..];
    NumAppend(c, s[1..]);
  }

  lemma SameShapeTail(a: string, b: string)
    requires SameShape(a, b) && a != []
    ensures SameShape(a[1..], b[1..])
  {
    forall k | 0 <= k < |a| - 1
      ensures IsDigit(a[1..][k]) == IsDigit(b[1..][k]) && (!IsDigit(a[1..][k]) ==> a[1..][k] == b[1..][k])
    {
      assert a[1..][k] == a[k + 1] && b[1..][k] == b[k + 1];
    }
  }

  lemma {:induction false} SameShapeDigits(a: string, b: string)
    requires SameShape(a, b)
    ensures DigitCount(a) == DigitCount(b)
  {
    if a != [] {
      SameShapeTail(a, b);
      SameShapeDigits(a[1..], b[1..]);
      NumFront(a);
      NumFront(b);
    }
  }

  lemma MulStep(x: int, y: int, p: int)
    requires x < y && p >= 1
    ensures x * p + p <= y * p
  {
    var k := y - x - 1;
    assert y * p == x * p + p + k * p;
    assert k * p >= 0;
  }

  /** For strings of the same shape the string order is the numeric order
      of their digits. */
  lemma {:induction false} ShapeOrder(a: string, b: string)
    requires SameShape(a, b)
    ensures StrLe(a, b) <==> Num(a) <= Num(b)
  {
    if a != [] {
      SameShapeTail(a, b);
      SameShapeDigits(a[1..], b[1..]);
      NumFront(a);
      NumFront(b);
      assert IsDigit(a[0]) == IsDigit(b[0]);
      if a[0] == b[0] {
        ShapeOrder(a[1..], b[1..]);
      } else {
        var p := Pow10(DigitCount(a[1..]));
        NumBound(a[1..]);
        NumBound(b[1..]);
        var da, db := DigitValue(a[0]), DigitValue(b[0]);
        if a[0] < b[0] {
          MulStep(da, db, p);
        } else {
          MulStep(db, da, p);
        }
      }
    }
  }

  /** The number of a concatenation. */
  lemma {:induction false} NumAppend(a: string, b: string)
    ensures Num(a + b) == Num(a) * Pow10(DigitCount(b)) + Num(b)
    ensures DigitCount(a + b) == DigitCount(a) + DigitCount(b)
  {
    if b == [] {
      assert a + b == a;
    } else {
      var t, c := b[..|b| - 1], b[|b| - 1];
      assert (a + b)[..|a + b| - 1] == a + t;
      assert (a + b)[|a + b| - 1] == c;
      NumAppend(a, t);
      if IsDigit(c) {
        var p := Pow10(DigitCount(t));
        assert Pow10(DigitCount(b)) == 10 * p;
        Distribute(Num(a), p, Num(t));
      }
    }
  }

  lemma Distribute(x: int, p: int, y: int)
    ensures (x * p + y) * 10 == x * (10 * p) + y * 10
  {
  }

  lemma {:induction false} AllDigitsCount(s: string)
    requires forall k :: 0 <= k < |s| ==> IsDigit(s[k])
    ensures DigitCount(s) == |s|
  {
    if s != [] {
      var t := s[..|s| - 1];
      assert forall k :: 0 <= k < |t| ==> t[k] == s[k];
      AllDigitsCount(t);
    }
  }

  lemma IsoParts(d: string)
    requires IsoDate(d)
    ensures DigitCount(d[..4]) == 4 && DigitCount(d[5..7]) == 2 && DigitCount(d[8..]) == 2
    ensures Num([d[4]]) == 0 && Num([d[7]]) == 0
    ensures DigitCount([d[4]]) == 0 && DigitCount([d[7]]) == 0
  {
    AllDigitsCount(d[..4]);
    AllDigitsCount(d[5..7]);
    AllDigitsCount(d[8..]);
    assert [d[4]][..0] == [] && [d[7]][..0] == [];
  }

  /** A date's key is its year, month and day written as `YYYYMMDD`. */
  lemma DateKeyParts(d: string)
    requires IsoDate(d)
    ensures DateKey(d) == Year(d) * 10000 + Month(d) * 100 + Day(d)
    ensures Month(d) < 100 && Day(d) < 100
  {
    IsoParts(d);
    var year, month, day := d[..4], d[5..7], d[8..];
    var s1 := year + [d[4]];
    var s2 := s1 + month;
    var s3 := s2 + [d[7]];
    assert d == s3 + day;
    assert Pow10(0) == 1 && Pow10(2) == 100;
    NumAppend(year, [d[4]]);
    assert Num(s1) == Num(year);
    NumAppend(s1, month);
    assert Num(s2) == Num(year) * 100 + Num(month);
    NumAppend(s2, [d[7]]);
    assert Num(s3) == Num(s2);
    NumAppend(s3, day);
    assert Num(d) == Num(s2) * 100 + Num(day);
    NumBound(month);
    NumBound(day);
  }

  /** Two `YYYY-MM-DD` strings compare as strings exactly as their dates
      compare in time: by year, then month, then day. */
  lemma StringOrderIsChronological(a: string, b: string)
    requires IsoDate(a) && IsoDate(b)
    ensures StrLe(a, b) <==> DateKey(a) <= DateKey(b)
    ensures StrLe(a, b) <==> (Year(a) < Year(b)
                             || (Year(a) == Year(b) && Month(a) < Month(b))
                             || (Year(a) == Year(b) && Month(a) == Month(b) && Day(a) <= Day(b)))
  {
    assert SameShape(a, b) by {
      forall k | 0 <= k < |a| ensures IsDigit(a[k]) == IsDigit(b[k]) && (!IsDigit(a[k]) ==> a[k] == b[k]) {
        assert k == 4 || k == 7 || (IsDigit(a[k]) && IsDigit(b[k]));
      }
    }
    ShapeOrder(a, b);
    DateKeyParts(a);
    DateKeyParts(b);
  }

  // ---------------------------------------------------------------------
  // Facts about the shipped data

  /** Ids are pairwise distinct, and so are slugs. */
  lemma IdsAndSlugsDistinct()
    ensures forall i, j :: 0 <= i < j < |SamplePosts| ==> SamplePosts[i].id != SamplePosts[j].id
    ensures forall i, j :: 0 <= i < j < |SamplePosts| ==> SamplePosts[i].slug != SamplePosts[j].slug
  {
    assert SamplePosts[0].slug[0] != SamplePosts[1].slug[0] && SamplePosts[0].slug[0] != SamplePosts[2].slug[0];
    assert SamplePosts[1].slug[0] != SamplePosts[2].slug[0];
  }

  /** Every post's category is listed, and `All`, the first entry, is no
      post's category. */
  lemma CategoriesCoverPosts()
    ensures Categories[0] == AllCategory
    ensures forall i :: 0 <= i < |SamplePosts| ==> SamplePosts[i].category in Categories[1..]
    ensures forall i :: 0 <= i < |SamplePosts| ==> SamplePosts[i].category != AllCategory
  {
    assert SamplePosts[0].category == Categories[1];
    assert SamplePosts[1].category == Categories[2];
    assert SamplePosts[2].category == Categories[3];
    assert SamplePosts[0].category[0] != 'A';
    assert SamplePosts[1].category[1] != AllCategory[1];
    assert SamplePosts[2].category[0] != 'A';
  }

  /** Every post defines a body. */
  lemma EveryPostHasContent()
    ensures forall i :: 0 <= i < |SamplePosts| ==> SamplePosts[i].hasContent
  {
  }

  lemma ShippedDatesIso()
    ensures forall i :: 0 <= i < |SamplePosts| ==> IsoDate(SamplePosts[i].date)
  {
    assert IsoDate(CdnDate) && IsoDate(GpuDate) && IsoDate(NetworkDate);
    assert SamplePosts[0].date == CdnDate && SamplePosts[1].date == GpuDate && SamplePosts[2].date == NetworkDate;
  }

  lemma TwoDigits(s: string)
    requires |s| == 2 && IsDigit(s[0]) && IsDigit(s[1])
    ensures Num(s) == 10 * DigitValue(s[0]) + DigitValue(s[1])
  {
    var t := s[..1];
    assert t[..0] == [] && t[0] == s[0];
    assert Num(t) == DigitValue(s[0]);
    assert s[..|s| - 1] == t;
  }

  lemma FourDigits(s: string)
    requires |s| == 4 && IsDigit(s[0]) && IsDigit(s[1]) && IsDigit(s[2]) && IsDigit(s[3])
    ensures Num(s) == 100 * Num(s[..2]) + Num(s[2..])
  {
    assert s == s[..2] + s[2..];
    NumAppend(s[..2], s[2..]);
    AllDigitsCount(s[2..]);
    assert Pow10(2) == 100;
  }

  /** The key of a `YYYY-MM-DD` date from its ten characters. */
  lemma DateKeyDigits(d: string)
    requires IsoDate(d)
    ensures DateKey(d) == (1000 * DigitValue(d[0]) + 100 * DigitValue(d[1]) + 10 * DigitValue(d[2]) + DigitValue(d[3])) * 10000
                          + (10 * DigitValue(d[5]) + DigitValue(d[6])) * 100 + 10 * DigitValue(d[8]) + DigitValue(d[9])
  {
    DateKeyParts(d);
    var y := d[..4];
    FourDigits(y);
    TwoDigits(y[..2]);
    TwoDigits(y[2..]);
    TwoDigits(d[5..7]);
    TwoDigits(d[8..]);
  }

  lemma FirstDateKey()
    ensures DateKey(CdnDate) == 20241219
  {
    assert IsoDate(CdnDate);
    DateKeyDigits(CdnDate);
  }

  lemma SecondDateKey()
    ensures DateKey(GpuDate) == 20241215
  {
    assert IsoDate(GpuDate);
    DateKeyDigits(GpuDate);
  }

  lemma ThirdDateKey()
    ensures DateKey(NetworkDate) == 20241210
  {
    assert IsoDate(NetworkDate);
    DateKeyDigits(NetworkDate);
  }

  /** The posts are declared newest first, strictly: each is older than
      the one before it. */
  lemma ShippedNewestFirst()
    ensures DateKey(SamplePosts[1].date) < DateKey(SamplePosts[0].date)
    ensures DateKey(SamplePosts[2].date) < DateKey(SamplePosts[1].date)
  {
    FirstDateKey();
    SecondDateKey();
    ThirdDateKey();
    assert SamplePosts[0].date == CdnDate && SamplePosts[1].date == GpuDate && SamplePosts[2].date == NetworkDate;
  }
}
