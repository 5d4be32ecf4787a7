/** Token usage of parallel branches: additive merging, and pricing with floor division. */
module Usage {
  import opened Tables

  datatype FieldName = Input | Output | CacheCreation | CacheRead | OtherField(n: nat)

  /** Token counters by field name; an absent field counts as zero. */
  type Counters = map<FieldName, nat>

  function Field(u: Counters, k: FieldName): nat
  {
    if k in u then u[k] else 0
  }

  /** Every field of either side, with the sum of both. */
  function Merge(a: Counters, b: Counters): (m: Counters)
    ensures m.Keys == a.Keys + b.Keys
    ensures forall k :: Field(m, k) == Field(a, k) + Field(b, k)
  {
    map k | k in a.Keys + b.Keys :: Field(a, k) + Field(b, k)
  }

  /** What a message reports; a counter at zero is left out, and the nested cache counters win
      over the flat ones unless they are zero. */
  datatype Report = Report(input: nat, output: nat, nestedCreation: nat, flatCreation: nat,
                           nestedRead: nat, flatRead: nat)

  function Counted(k: FieldName, n: nat): Counters
  {
    if n == 0 then map[] else map[k := n]
  }

  function UsageFromMessage(m: Option<Report>): Counters
  {
    if m.None? then map[]
    else
      var r := m.value;
      Counted(Input, r.input) + Counted(Output, r.output)
      + Counted(CacheCreation, if r.nestedCreation > 0 then r.nestedCreation else r.flatCreation)
      + Counted(CacheRead, if r.nestedRead > 0 then r.nestedRead else r.flatRead)
  }

  /** Left-to-right accumulation. */
  function Total(us: seq<Counters>): Counters
  {
    if us == [] then map[] else Merge(Total(us[..|us| - 1]), us[|us| - 1])
  }

  /** The items of `b` outside `rest` have been added to `a`. */
  ghost predicate PartlyMerged(a: Counters, b: Counters, rest: set<FieldName>, merged: Counters)
  {
    && merged.Keys == a.Keys + (b.Keys - rest)
    && forall k :: Field(merged, k) == Field(a, k) + if k in rest then 0 else Field(b, k)
  }

  lemma MergeNone(a: Counters, b: Counters)
    ensures PartlyMerged(a, b, b.Keys, a)
  {
  }

  lemma MergeOne(a: Counters, b: Counters, rest: set<FieldName>, merged: Counters, k: FieldName)
    requires PartlyMerged(a, b, rest, merged) && k in rest && rest <= b.Keys
    ensures PartlyMerged(a, b, rest - {k}, merged[k := Field(merged, k) + b[k]])
  {
  }

  lemma MergeDone(a: Counters, b: Counters, merged: Counters)
    requires PartlyMerged(a, b, {}, merged)
    ensures merged == Merge(a, b)
  {
    SameFields(merged, Merge(a, b));
  }

  method MergeUsage(a: Counters, b: Counters) returns (merged: Counters)
    ensures merged == Merge(a, b)
  {
    hide PartlyMerged, Merge;
    merged := a;
    var rest := b.Keys;
    MergeNone(a, b);
    while rest != {}
      invariant rest <= b.Keys && PartlyMerged(a, b, rest, merged)
      decreases |rest|
    {
      var k :| k in rest;
      MergeOne(a, b, rest, merged, k);
      rest := rest - {k};
      merged := merged[k := Field(merged, k) + b[k]];
    }
    MergeDone(a, b, merged);
  }

  function UsagesOf(ms: seq<Option<Report>>): seq<Counters>
  {
    if ms == [] then [] else UsagesOf(ms[..|ms| - 1]) + [UsageFromMessage(ms[|ms| - 1])]
  }

  /** Everything the messages report under one name, message by message. */
  function Reported(messages: seq<Option<Report>>, k: FieldName): nat
  {
    if messages == [] then 0
    else
      var m := messages[|messages| - 1];
      Reported(messages[..|messages| - 1], k) +
        if m.None? then 0
        else
          match k
          case Input => m.value.input
          case Output => m.value.output
          case CacheCreation => if m.value.nestedCreation == 0 then m.value.flatCreation else m.value.nestedCreation
          case CacheRead => if m.value.nestedRead == 0 then m.value.flatRead else m.value.nestedRead
          case OtherField(n) => 0
  }

  lemma OneMore(messages: seq<Option<Report>>, m: Option<Report>, k: FieldName)
    ensures Reported(messages + [m], k) == Reported(messages, k) + Field(UsageFromMessage(m), k)
  {
    assert (messages + [m])[..|messages|] == messages;
  }

  lemma CountersAdd(acc: Counters, messages: seq<Option<Report>>, m: Option<Report>)
    requires forall k :: Field(acc, k) == Reported(messages, k)
    ensures forall k :: Field(Merge(acc, UsageFromMessage(m)), k) == Reported(messages + [m], k)
  {
    forall k
      ensures Field(Merge(acc, UsageFromMessage(m)), k) == Reported(messages + [m], k)
    {
      OneMore(messages, m, k);
    }
  }

  /** The accumulated counters are those of every message added up, name by name. */
  method UsageFromMessages(messages: seq<Option<Report>>) returns (acc: Counters)
    ensures acc == Total(UsagesOf(messages))
    ensures forall k :: Field(acc, k) == Reported(messages, k)
  {
    hide Merge, UsageFromMessage;
    acc := map[];
    var i := 0;
    while i < |messages|
      invariant 0 <= i <= |messages| && acc == Total(UsagesOf(messages[..i]))
      invariant forall k :: Field(acc, k) == Reported(messages[..i], k)
    {
      CountersAdd(acc, messages[..i], messages[i]);
      assert messages[..i + 1] == messages[..i] + [messages[i]];
      var us := UsagesOf(messages[..i]);
      assert messages[..i + 1][..i] == messages[..i];
      assert (us + [UsageFromMessage(messages[i])])[..|us|] == us;
      acc := MergeUsage(acc, UsageFromMessage(messages[i]));
      i := i + 1;
    }
    assert messages[..i] == messages;
  }

  // ---- Order and grouping ------------------------------------------------------------------------

  lemma SameFields(a: Counters, b: Counters)
    requires a.Keys == b.Keys && forall k :: Field(a, k) == Field(b, k)
    ensures a == b
  {
    forall k | k in a
      ensures a[k] == b[k]
    {
      assert Field(a, k) == Field(b, k);
    }
  }

  lemma MergeLaws(a: Counters, b: Counters, c: Counters)
    ensures Merge(a, b) == Merge(b, a)
    ensures Merge(Merge(a, b), c) == Merge(a, Merge(b, c))
    ensures Merge(map[], a) == a
  {
    SameFields(Merge(a, b), Merge(b, a));
    SameFields(Merge(Merge(a, b), c), Merge(a, Merge(b, c)));
    SameFields(Merge(map[], a), a);
  }

  lemma {:induction false} TotalOfConcat(us: seq<Counters>, vs: seq<Counters>)
    ensures Total(us + vs) == Merge(Total(us), Total(vs))
  {
    hide Merge;
    MergeLaws(Total(us), map[], map[]);
    if vs == [] {
      assert us + vs == us;
    } else {
      var n := |vs| - 1;
      TotalOfConcat(us, vs[..n]);
      assert (us + vs)[..|us + vs| - 1] == us + vs[..n];
      MergeLaws(Total(us), Total(vs[..n]), vs[n]);
    }
  }

  /** How concurrent branches were merged: any binary tree of merges. */
  datatype Grouping = Leaf(usage: Counters) | Node(left: Grouping, right: Grouping)

  function Leaves(g: Grouping): seq<Counters>
  {
    match g
    case Leaf(u) => [u]
    case Node(l, r) => Leaves(l) + Leaves(r)
  }

  function MergeTree(g: Grouping): Counters
  {
    match g
    case Leaf(u) => u
    case Node(l, r) => Merge(MergeTree(l), MergeTree(r))
  }

  lemma SingleTotal(u: Counters)
    ensures Total([u]) == u
  {
    MergeLaws(u, u, u);
  }

  lemma {:induction false} TreeIsTotal(g: Grouping)
    ensures MergeTree(g) == Total(Leaves(g))
  {
    match g
    case Leaf(u) => SingleTotal(u);
    case Node(l, r) =>
      TreeIsTotal(l);
      TreeIsTotal(r);
      TotalOfConcat(Leaves(l), Leaves(r));
  }

  lemma TakeOut(us: seq<Counters>, i: nat)
    requires i < |us|
    ensures Total(us) == Merge(Total(us[..i] + us[i + 1..]), us[i])
    ensures multiset(us[..i] + us[i + 1..]) == multiset(us) - multiset{us[i]}
  {
    hide Total, Merge;
    assert us == us[..i] + ([us[i]] + us[i + 1..]);
    SingleTotal(us[i]);
    TotalOfConcat(us[..i], [us[i]] + us[i + 1..]);
    TotalOfConcat([us[i]], us[i + 1..]);
    TotalOfConcat(us[..i], us[i + 1..]);
    MergeLaws(us[i], Total(us[i + 1..]), map[]);
    MergeLaws(Total(us[..i]), Total(us[i + 1..]), us[i]);
  }

  lemma {:induction false} TotalIgnoresOrder(us: seq<Counters>, vs: seq<Counters>)
    requires multiset(us) == multiset(vs)
    ensures Total(us) == Total(vs)
    decreases |us|
  {
    assert |multiset(us)| == |us| && |multiset(vs)| == |vs|;
    if us == [] {
    } else {
      var n := |us| - 1;
      assert us == us[..n] + [us[n]];
      assert us[n] in multiset(vs);
      var i :| 0 <= i < |vs| && vs[i] == us[n];
      TakeOut(vs, i);
      TotalIgnoresOrder(us[..n], vs[..i] + vs[i + 1..]);
    }
  }

  /** Merging the branches' usages gives the same totals for every order and every grouping. */
  lemma MergeIgnoresOrderAndGrouping(g: Grouping, us: seq<Counters>)
    requires multiset(Leaves(g)) == multiset(us)
    ensures MergeTree(g) == Total(us)
  {
    TreeIsTotal(g);
    TotalIgnoresOrder(Leaves(g), us);
  }

  // ---- Pricing -----------------------------------------------------------------------------------

  const MILLION: nat := 1_000_000

  /** Microdollars per million tokens; a missing cache rate counts as zero. */
  datatype Rates = Rates(input: nat, output: nat, cacheCreation: Option<nat>, cacheRead: Option<nat>)

  function RateOr0(r: Option<nat>): nat
  {
    if r.None? then 0 else r.value
  }

  function Weight(u: Counters, r: Rates): nat
  {
    Field(u, Input) * r.input + Field(u, Output) * r.output
    + Field(u, CacheCreation) * RateOr0(r.cacheCreation) + Field(u, CacheRead) * RateOr0(r.cacheRead)
  }

  function Price(u: Counters, r: Rates): nat
  {
    Weight(u, r) / MILLION
  }

  /** The price is the cost of the four counters at their rates in whole microdollars, rounded down; a
      missing cache rate costs nothing. */
  lemma PriceRoundsDown(u: Counters, input: nat, output: nat, creation: Option<nat>, read: Option<nat>)
    ensures var exact := Field(u, Input) * input + Field(u, Output) * output
                         + (if creation.Some? then Field(u, CacheCreation) * creation.value else 0)
                         + (if read.Some? then Field(u, CacheRead) * read.value else 0);
      var price := Price(u, Rates(input, output, creation, read));
      price * 1_000_000 <= exact < price * 1_000_000 + 1_000_000
  {
    var r := Rates(input, output, creation, read);
    assert Price(u, r) == Weight(u, r) / MILLION;
  }

  function PriceSum(us: seq<Counters>, r: Rates): nat
  {
    if us == [] then 0 else PriceSum(us[..|us| - 1], r) + Price(us[|us| - 1], r)
  }

  lemma MulAdds(x: nat, y: nat, z: nat)
    ensures (x + y) * z == x * z + y * z
  {
  }

  lemma WeightAdds(a: Counters, b: Counters, r: Rates)
    ensures Weight(Merge(a, b), r) == Weight(a, r) + Weight(b, r)
  {
    MulAdds(Field(a, Input), Field(b, Input), r.input);
    MulAdds(Field(a, Output), Field(b, Output), r.output);
    MulAdds(Field(a, CacheCreation), Field(b, CacheCreation), RateOr0(r.cacheCreation));
    MulAdds(Field(a, CacheRead), Field(b, CacheRead), RateOr0(r.cacheRead));
  }

  /** Pricing usages one by one never exceeds pricing their merge, and falls short of it by at
      most one microdollar for each usage after the first. */
  lemma {:induction false} SeparatePricesFallShort(us: seq<Counters>, r: Rates)
    requires us != []
    ensures PriceSum(us, r) <= Price(Total(us), r) <= PriceSum(us, r) + |us| - 1
  {
    var n := |us| - 1;
    hide Weight, Merge;
    if n == 0 {
      assert us == [us[0]];
      SingleTotal(us[0]);
    } else {
      SeparatePricesFallShort(us[..n], r);
      WeightAdds(Total(us[..n]), us[n], r);
    }
  }

  function Copies(u: Counters, n: nat): seq<Counters>
  {
    if n == 0 then [] else Copies(u, n - 1) + [u]
  }

  const ALMOST_ONE: Counters := map[Input := 999_999]
  const UNIT_RATE := Rates(1, 0, None, None)

  lemma AlmostOne()
    ensures Weight(ALMOST_ONE, UNIT_RATE) == 999_999 && Price(ALMOST_ONE, UNIT_RATE) == 0
    ensures Weight(map[], UNIT_RATE) == 0
  {
  }

  lemma LastCopy(n: nat)
    requires n > 0
    ensures var us := Copies(ALMOST_ONE, n - 1);
      && Copies(ALMOST_ONE, n) == us + [ALMOST_ONE]
      && Total(Copies(ALMOST_ONE, n)) == Merge(Total(us), ALMOST_ONE)
      && PriceSum(Copies(ALMOST_ONE, n), UNIT_RATE) == PriceSum(us, UNIT_RATE) + Price(ALMOST_ONE, UNIT_RATE)
  {
    hide Merge, Price;
    var us := Copies(ALMOST_ONE, n - 1);
    assert (us + [ALMOST_ONE])[..|us|] == us;
  }

  lemma {:induction false} CopiesWeigh(n: nat)
    ensures |Copies(ALMOST_ONE, n)| == n
    ensures Weight(Total(Copies(ALMOST_ONE, n)), UNIT_RATE) == n * 999_999
    ensures PriceSum(Copies(ALMOST_ONE, n), UNIT_RATE) == 0
  {
    AlmostOne();
    hide Weight, Merge, Price;
    if n == 0 {
    } else {
      CopiesWeigh(n - 1);
      LastCopy(n);
      WeightAdds(Total(Copies(ALMOST_ONE, n - 1)), ALMOST_ONE, UNIT_RATE);
    }
  }

  /** The shortfall is reached for every number of usages up to a million. */
  lemma ShortfallIsReached(n: nat)
    requires 1 <= n <= MILLION
    ensures var us := Copies(ALMOST_ONE, n);
      |us| == n && Price(Total(us), UNIT_RATE) == PriceSum(us, UNIT_RATE) + n - 1
  {
    CopiesWeigh(n);
    assert n * 999_999 == (n - 1) * MILLION + (MILLION - n);
  }
}
