/**
 * The administrator's pie chart: one slice per principle, sized by the number
 * of applause that name it.
 */
module PrinciplesChart {
  import opened Seqs
  import opened JsObject
  import opened Types

  datatype Slice = Slice(name: string, value: nat)

  function PrincipleOf(a: Applause): string
  {
    a.principio
  }

  function Principles(applause: seq<Applause>): seq<string>
  {
    MapSeq(applause, PrincipleOf)
  }

  function ToSlice(e: (string, nat)): Slice
  {
    Slice(e.0, e.1)
  }

  function SliceValue(sl: Slice): int
  {
    sl.value
  }

  function SliceName(sl: Slice): string
  {
    sl.name
  }

  /** `Object.entries(principleCounts).map(([name, value]) => ({ name, value }))` */
  function SlicesOf(counts: Record<nat>): seq<Slice>
  {
    MapSeq(Entries(counts), ToSlice)
  }

  /** `chartData`: the `forEach` fills `principleCounts`, then the entries become slices. */
  method ChartData(applause: seq<Applause>) returns (data: seq<Slice>)
    ensures data == SlicesOf(Tally(Principles(applause)))
  {
    var principleCounts: Record<nat> := [];
    for i := 0 to |applause|
      invariant principleCounts == Tally(Principles(applause[..i]))
    {
      var ps := Principles(applause[..i + 1]);
      assert ps[..|ps| - 1] == Principles(applause[..i]);
      principleCounts := Increment(principleCounts, applause[i].principio);
    }
    assert applause[..|applause|] == applause;
    data := SlicesOf(principleCounts);
  }

  /** Each slice is sized by the number of applause naming its principle, at least one. */
  lemma SliceValues(applause: seq<Applause>)
    ensures var data := SlicesOf(Tally(Principles(applause)));
      forall i :: 0 <= i < |data| ==>
        data[i].value == CountBy(applause, KeyIs(PrincipleOf, data[i].name)) && data[i].value >= 1
  {
    var ps := Principles(applause);
    var t := Tally(ps);
    var es := Entries(t);
    var data := SlicesOf(t);
    forall i | 0 <= i < |data|
      ensures data[i].value == CountBy(applause, KeyIs(PrincipleOf, data[i].name)) && data[i].value >= 1
    {
      assert data[i] == ToSlice(es[i]);
      assert es[i] in multiset(t);
      TallyMember(ps, es[i].0, es[i].1);
      MultiplicityOfMap(applause, PrincipleOf, es[i].0);
    }
  }

  /** There is exactly one slice per distinct principle. */
  lemma SliceNames(applause: seq<Applause>)
    ensures var names := MapSeq(SlicesOf(Tally(Principles(applause))), SliceName);
      NoDuplicates(names) && forall p :: p in names <==> p in Principles(applause)
  {
    var ps := Principles(applause);
    var t := Tally(ps);
    var es := Entries(t);
    TallyKeys(ps);
    var names := MapSeq(SlicesOf(t), SliceName);
    assert names == Keys(es);
    KeysPermutation(t, es);
    NoDuplicatesAfterPermutation(Keys(t), Keys(es));
    forall p
      ensures p in Keys(es) <==> p in Keys(t)
    {
      assert p in Keys(es) <==> p in multiset(Keys(es));
    }
  }

  /** The slices add up to the number of applause. */
  lemma SlicesSumToTotal(applause: seq<Applause>)
    ensures SumBy(SlicesOf(Tally(Principles(applause))), SliceValue) == |applause|
  {
    var t := Tally(Principles(applause));
    var es := Entries(t);
    TallySum(Principles(applause));
    SumByPermutation(t, es, ValueBy(AsInt));
    SumByMap(es, ToSlice, SliceValue, ValueBy(AsInt));
  }

  /** No applause, no slices (the chart then shows its no-data message); otherwise at least one slice. */
  lemma EmptyChart(applause: seq<Applause>)
    ensures |SlicesOf(Tally(Principles(applause)))| == 0 <==> |applause| == 0
  {
    TallyKeys(Principles(applause));
    if |applause| > 0 {
      assert Principles(applause)[0] in Distinct(Principles(applause));
    }
  }
}
