/**
  * gnomAD allele frequencies: exome and genome counts are merged into one
  * accumulator with a bucket per population, and the population with the
  * highest allele frequency is picked from it.
  */
module Gnomad {
  import opened Wrappers
  import PyDict

  // ---------------------------------------------------------------------------
  // Reference genomes and datasets

  datatype ReferenceGenome = GRCh37 | GRCh38 {
    function Value(): string {
      match this
      case GRCh37 => "GRCh37"
      case GRCh38 => "GRCh38"
    }
  }

  datatype GnomadDataset = GnomadR3 | GnomadR2_1 {
    function Value(): string {
      match this
      case GnomadR3 => "gnomad_r3"
      case GnomadR2_1 => "gnomad_r2_1"
    }
  }

  /** `reference_genome_to_dataset`; the enums compare equal to their values. */
  function ReferenceGenomeToDataset(refGenome: string): Option<string> {
    if refGenome == GRCh38.Value() then Some(GnomadR3.Value())
    else if refGenome == GRCh37.Value() then Some(GnomadR2_1.Value())
    else None
  }

  /** `dataset_to_reference_genome`. */
  function DatasetToReferenceGenome(dataset: string): Option<ReferenceGenome> {
    if dataset == GnomadR3.Value() then Some(GRCh38)
    else if dataset == GnomadR2_1.Value() then Some(GRCh37)
    else None
  }

  /** The two mappings are inverse to each other, and each is defined on
      exactly the two known values. */
  lemma GenomeDatasetInverse(refGenome: string, dataset: string)
    ensures ReferenceGenomeToDataset(refGenome) == Some(dataset)
        <==> DatasetToReferenceGenome(dataset).Some? && DatasetToReferenceGenome(dataset).value.Value() == refGenome
    ensures ReferenceGenomeToDataset(refGenome).Some? <==> refGenome in {"GRCh38", "GRCh37"}
    ensures DatasetToReferenceGenome(dataset).Some? <==> dataset in {"gnomad_r3", "gnomad_r2_1"}
  {
  }

  // ---------------------------------------------------------------------------
  // Populations

  /** The population ids and their labels, in table order. */
  const PopulationIds: PyDict.Dict<string, string> := [
    ("afr", "African/African American"),
    ("ami", "Amish"),
    ("amr", "Latino/Admixed American"),
    ("asj", "Ashkenazi Jewish"),
    ("eas", "East Asian"),
    ("jpn", "Japanese"),
    ("kor", "Korean"),
    ("oea", "Other East Asian"),
    ("fin", "European (Finnish)"),
    ("mid", "Middle Eastern"),
    ("nfe", "European (non-Finnish)"),
    ("bgr", "Bulgarian"),
    ("est", "Estonian"),
    ("nwe", "North-western European"),
    ("onf", "Other non-Finnish European"),
    ("seu", "Southern European"),
    ("swe", "Swedish"),
    ("oth", "Other"),
    ("sas", "South Asian")
  ]

  /** An allele count and allele number, for one population or overall. */
  datatype PopulationCount = PopulationCount(id: string, ac: nat, an: nat)

  /** The exome or genome block of a variant: overall counts and per-population
      entries. */
  datatype Block = Block(ac: nat, an: nat, populations: seq<PopulationCount>)

  /** The merged result: overall counts and one bucket per population id. */
  datatype Totals = Totals(ac: nat, an: nat, populations: seq<PopulationCount>)

  function BucketIds(buckets: seq<PopulationCount>): (ids: seq<string>)
    ensures |ids| == |buckets| && forall j :: 0 <= j < |buckets| ==> ids[j] == buckets[j].id
  {
    seq(|buckets|, j requires 0 <= j < |buckets| => buckets[j].id)
  }

  /** The fresh accumulator: zero counts and a zero bucket per population id,
      in table order. */
  function InitialTotals(): (t: Totals)
    ensures t.ac == 0 && t.an == 0 && |t.populations| == 19
    ensures BucketIds(t.populations) == PyDict.Keys(PopulationIds)
    ensures forall j :: 0 <= j < 19 ==> t.populations[j].ac == 0 && t.populations[j].an == 0
  {
    Totals(0, 0, seq(|PopulationIds|, j requires 0 <= j < |PopulationIds| => PopulationCount(PopulationIds[j].0, 0, 0)))
  }

  /** Sum of the allele counts (`ac`) or numbers (`an`) of the entries for `id`. */
  function SumFor(entries: seq<PopulationCount>, id: string, alleleNumber: bool): nat
    decreases |entries|
  {
    if |entries| == 0 then 0
    else
      var e := entries[|entries| - 1];
      SumFor(entries[..|entries| - 1], id, alleleNumber)
        + (if e.id != id then 0 else if alleleNumber then e.an else e.ac)
  }

  /** One population entry added to every bucket with its id. */
  function AddEntry(buckets: seq<PopulationCount>, e: PopulationCount): (r: seq<PopulationCount>)
    ensures |r| == |buckets|
    ensures forall j :: 0 <= j < |buckets| ==> r[j].id == buckets[j].id
  {
    seq(|buckets|, j requires 0 <= j < |buckets| =>
      if buckets[j].id == e.id then PopulationCount(buckets[j].id, buckets[j].ac + e.ac, buckets[j].an + e.an)
      else buckets[j])
  }

  /** The population entries added in order. Bucket count and ids never
      change, and each bucket gains the sums of the entries with its id, so
      entries with unknown ids are ignored. */
  function AddEntries(buckets: seq<PopulationCount>, entries: seq<PopulationCount>): (r: seq<PopulationCount>)
    ensures |r| == |buckets|
    ensures forall j :: 0 <= j < |buckets| ==>
              r[j].id == buckets[j].id
              && r[j].ac == buckets[j].ac + SumFor(entries, buckets[j].id, false)
              && r[j].an == buckets[j].an + SumFor(entries, buckets[j].id, true)
    decreases |entries|
  {
    if |entries| == 0 then buckets
    else AddEntry(AddEntries(buckets, entries[..|entries| - 1]), entries[|entries| - 1])
  }

  /** `population_data` on a given accumulator: an absent block changes
      nothing; otherwise the overall counts are added and each population
      entry goes to its bucket. */
  function MergeBlock(t: Totals, data: Option<Block>): Totals {
    match data
    case None => t
    case Some(b) => Totals(t.ac + b.ac, t.an + b.an, AddEntries(t.populations, b.populations))
  }

  /** The accumulator `frequency_data` builds: genome, then exome. */
  function MergedTotals(genome: Option<Block>, exome: Option<Block>): Totals {
    MergeBlock(MergeBlock(InitialTotals(), genome), exome)
  }

  function BlockCount(data: Option<Block>, alleleNumber: bool): nat {
    match data
    case None => 0
    case Some(b) => if alleleNumber then b.an else b.ac
  }

  function BlockSumFor(data: Option<Block>, id: string, alleleNumber: bool): nat {
    match data
    case None => 0
    case Some(b) => SumFor(b.populations, id, alleleNumber)
  }

  /** The merged totals are the sums over both blocks: the overall counts add
      up, and each population bucket holds the sums of both blocks' entries
      with its id. */
  lemma MergedTotalsAreSums(genome: Option<Block>, exome: Option<Block>)
    ensures var t := MergedTotals(genome, exome);
      t.ac == BlockCount(genome, false) + BlockCount(exome, false)
      && t.an == BlockCount(genome, true) + BlockCount(exome, true)
      && BucketIds(t.populations) == PyDict.Keys(PopulationIds)
      && forall j :: 0 <= j < |t.populations| ==>
           t.populations[j].ac == BlockSumFor(genome, t.populations[j].id, false) + BlockSumFor(exome, t.populations[j].id, false)
           && t.populations[j].an == BlockSumFor(genome, t.populations[j].id, true) + BlockSumFor(exome, t.populations[j].id, true)
  {
    var t0 := InitialTotals();
    var t1 := MergeBlock(t0, genome);
    var t := MergeBlock(t1, exome);
    assert |t1.populations| == 19 && |t.populations| == 19;
    assert BucketIds(t.populations) == BucketIds(t0.populations);
  }

  /** Merging exome before genome gives the same accumulator. */
  lemma MergeOrderIrrelevant(genome: Option<Block>, exome: Option<Block>)
    ensures MergedTotals(genome, exome) == MergedTotals(exome, genome)
  {
    var a, b := MergedTotals(genome, exome), MergedTotals(exome, genome);
    MergedTotalsAreSums(genome, exome);
    MergedTotalsAreSums(exome, genome);
    assert |a.populations| == |b.populations| == 19;
    forall j | 0 <= j < 19 ensures a.populations[j] == b.populations[j] {
      assert BucketIds(a.populations)[j] == BucketIds(b.populations)[j];
    }
  }

  /** An entry for an id no bucket has leaves the buckets as they were. */
  lemma UnknownPopulationIgnored(buckets: seq<PopulationCount>, e: PopulationCount)
    requires e.id !in BucketIds(buckets)
    ensures AddEntry(buckets, e) == buckets
  {
    forall j | 0 <= j < |buckets| ensures AddEntry(buckets, e)[j] == buckets[j] {
      assert BucketIds(buckets)[j] == buckets[j].id;
    }
  }

  /** The accumulator `population_data` updates in place. */
  class PopulationAccumulator {
    var ac: nat
    var an: nat
    var populations: seq<PopulationCount>

    function Current(): Totals
      reads this
    {
      Totals(ac, an, populations)
    }

    /** A falsy `result`: zero counts, then one zero bucket appended per
        population id. */
    constructor ()
      ensures Current() == InitialTotals()
    {
      var buckets: seq<PopulationCount> := [];
      var k := 0;
      while k < |PopulationIds|
        invariant 0 <= k <= |PopulationIds|
        invariant buckets == InitialTotals().populations[..k]
      {
        buckets := buckets + [PopulationCount(PopulationIds[k].0, 0, 0)];
        k := k + 1;
      }
      ac := 0;
      an := 0;
      populations := buckets;
    }

    /** The innermost loop: one entry added to every bucket with its id. */
    method AddEntryInPlace(e: PopulationCount)
      modifies this
      ensures populations == AddEntry(old(populations), e)
      ensures ac == old(ac) && an == old(an)
    {
      ghost var start := populations;
      var j := 0;
      while j < |populations|
        invariant 0 <= j <= |populations| == |start|
        invariant forall k :: 0 <= k < j ==> populations[k] == AddEntry(start, e)[k]
        invariant forall k :: j <= k < |start| ==> populations[k] == start[k]
        invariant ac == old(ac) && an == old(an)
      {
        if populations[j].id == e.id {
          populations := populations[j := PopulationCount(populations[j].id, populations[j].ac + e.ac, populations[j].an + e.an)];
        }
        j := j + 1;
      }
    }

    /** The body of `population_data` once the accumulator exists. */
    method AddBlock(data: Option<Block>)
      modifies this
      ensures Current() == MergeBlock(old(Current()), data)
    {
      if data.None? {
        return;
      }
      var b := data.value;
      ac := ac + b.ac;
      an := an + b.an;
      ghost var start := populations;
      var i := 0;
      while i < |b.populations|
        invariant 0 <= i <= |b.populations|
        invariant populations == AddEntries(start, b.populations[..i])
        invariant ac == old(ac) + b.ac && an == old(an) + b.an
      {
        assert b.populations[..i + 1][..i] == b.populations[..i];
        AddEntryInPlace(b.populations[i]);
        i := i + 1;
      }
      assert b.populations[..i] == b.populations;
    }
  }

  /** `population_data(data, result)`: a null (falsy) `result` is replaced by
      a fresh accumulator; the merged accumulator is returned. */
  method PopulationData(data: Option<Block>, result: PopulationAccumulator?) returns (r: PopulationAccumulator)
    modifies result
    ensures result != null ==> r == result
    ensures result == null ==> fresh(r)
    ensures r.Current() == MergeBlock(if result == null then InitialTotals() else old(result.Current()), data)
  {
    if result == null {
      r := new PopulationAccumulator();
    } else {
      r := result;
    }
    r.AddBlock(data);
  }

  // ---------------------------------------------------------------------------
  // The most frequent population

  /** The frequency `ac / an` of a bucket with `an > 0`. */
  function Frequency(p: PopulationCount): real
    requires p.an > 0
  {
    p.ac as real / p.an as real
  }

  /** `x` has a strictly greater frequency than `y` (both with `an > 0`),
      compared without division. */
  predicate HigherFrequency(x: PopulationCount, y: PopulationCount) {
    x.ac * y.an > y.ac * x.an
  }

  lemma HigherFrequencyIsRatio(x: PopulationCount, y: PopulationCount)
    requires x.an > 0 && y.an > 0
    ensures HigherFrequency(x, y) <==> Frequency(x) > Frequency(y)
  {
    var fx, fy := Frequency(x), Frequency(y);
    assert fx * x.an as real == x.ac as real;
    assert fy * y.an as real == y.ac as real;
    assert x.ac as real * y.an as real == fx * (x.an as real * y.an as real);
    assert y.ac as real * x.an as real == fy * (x.an as real * y.an as real);
  }

  /** The index the selection loop ends on: a bucket replaces the current best
      only when its `an` is non-zero and its frequency is strictly greater,
      starting from frequency 0 with no bucket. */
  function MaxBucket(buckets: seq<PopulationCount>): (r: Option<nat>)
    ensures r.Some? ==> r.value < |buckets| && buckets[r.value].an > 0 && buckets[r.value].ac > 0
    decreases |buckets|
  {
    if |buckets| == 0 then None
    else
      var best := MaxBucket(buckets[..|buckets| - 1]);
      var p := buckets[|buckets| - 1];
      if p.an == 0 then best
      else if best.None? then (if p.ac > 0 then Some(|buckets| - 1) else None)
      else if HigherFrequency(p, buckets[best.value]) then Some(|buckets| - 1)
      else best
  }

  /** The selection picks a bucket exactly when some bucket has a positive
      frequency; the one picked has the highest frequency, and every earlier
      bucket has a strictly lower one (the first maximum wins). */
  lemma {:induction false} MaxBucketIsFirstMax(buckets: seq<PopulationCount>)
    ensures MaxBucket(buckets).None? <==> forall j :: 0 <= j < |buckets| ==> buckets[j].an == 0 || buckets[j].ac == 0
    ensures MaxBucket(buckets).Some? ==> var m := MaxBucket(buckets).value;
      (forall j :: 0 <= j < |buckets| && buckets[j].an > 0 ==> Frequency(buckets[j]) <= Frequency(buckets[m]))
      && (forall j :: 0 <= j < m && buckets[j].an > 0 ==> Frequency(buckets[j]) < Frequency(buckets[m]))
    decreases |buckets|
  {
    if |buckets| > 0 {
      var n := |buckets| - 1;
      var init := buckets[..n];
      MaxBucketIsFirstMax(init);
      assert forall j :: 0 <= j < n ==> init[j] == buckets[j];
      var best := MaxBucket(init);
      var p := buckets[n];
      if p.an > 0 && best.Some? {
        HigherFrequencyIsRatio(p, buckets[best.value]);
      }
      if p.an > 0 && best.None? {
        assert Frequency(p) >= 0.0;
        assert Frequency(p) > 0.0 <==> p.ac > 0;
      }
    }
  }

  /** The loop of `frequency_data` over the buckets, keeping the best index. */
  method MaxPopulationFrequency(buckets: seq<PopulationCount>) returns (best: Option<nat>)
    ensures best == MaxBucket(buckets)
  {
    best := None;
    var i := 0;
    while i < |buckets|
      invariant 0 <= i <= |buckets|
      invariant best == MaxBucket(buckets[..i])
    {
      assert buckets[..i + 1][..i] == buckets[..i];
      var p := buckets[i];
      if p.an != 0 {
        if best.None? {
          if p.ac > 0 {
            best := Some(i);
          }
        } else if HigherFrequency(p, buckets[best.value]) {
          best := Some(i);
        }
      }
      i := i + 1;
    }
    assert buckets[..i] == buckets;
  }

  // ---------------------------------------------------------------------------
  // The frequency summary

  datatype FrequencyError =
    | ZeroDivision       // the overall allele number is 0
    | MissingPopulation  // no bucket was picked, and the label lookup of None fails

  /** Counts with their exact frequency. */
  datatype Observed = Observed(alleleCount: nat, alleleNumber: nat, frequency: real)

  datatype FrequencySummary = FrequencySummary(total: Observed, population: string, maxPopulation: Observed)

  /** The post-processing of `frequency_data`: overall frequency first (which
      fails on a zero allele number), then the most frequent population and its
      label. */
  function Summarize(t: Totals): Result<FrequencySummary, FrequencyError> {
    if t.an == 0 then Err(ZeroDivision)
    else
      var total := Observed(t.ac, t.an, t.ac as real / t.an as real);
      match MaxBucket(t.populations)
      case None => Err(MissingPopulation)
      case Some(m) =>
        var p := t.populations[m];
        match PyDict.Get(PopulationIds, p.id)
        case None => Err(MissingPopulation)
        case Some(name) => Ok(FrequencySummary(total, name, Observed(p.ac, p.an, Frequency(p))))
  }

  /** Lines 378-403 of `frequency_data`: merge genome then exome into a fresh
      accumulator, then summarise it. */
  method FrequencyData(genome: Option<Block>, exome: Option<Block>) returns (r: Result<FrequencySummary, FrequencyError>)
    ensures r == Summarize(MergedTotals(genome, exome))
  {
    var result := PopulationData(genome, null);
    result := PopulationData(exome, result);
    if result.an == 0 {
      return Err(ZeroDivision);
    }
    var best := MaxPopulationFrequency(result.populations);
    if best.None? {
      return Err(MissingPopulation);
    }
    var p := result.populations[best.value];
    var name := PyDict.Get(PopulationIds, p.id);
    if name.None? {
      return Err(MissingPopulation);
    }
    r := Ok(FrequencySummary(Observed(result.ac, result.an, result.ac as real / result.an as real),
                             name.value, Observed(p.ac, p.an, Frequency(p))));
  }

  lemma PopulationIdsHaveLabels(id: string)
    requires id in PyDict.Keys(PopulationIds)
    ensures PyDict.Get(PopulationIds, id).Some?
  {
  }

  /** Summarising totals whose buckets carry the known population ids fails
      with a division by zero exactly when the allele number is 0, and else
      with a missing population exactly when no bucket has a positive
      frequency; otherwise it reports the overall frequency and a bucket of
      highest frequency under its label. */
  lemma SummarizeOutcome(t: Totals)
    requires BucketIds(t.populations) == PyDict.Keys(PopulationIds)
    ensures var r := Summarize(t);
      (r == Err(ZeroDivision) <==> t.an == 0)
      && (r == Err(MissingPopulation) <==>
            t.an > 0 && forall j :: 0 <= j < |t.populations| ==> t.populations[j].an == 0 || t.populations[j].ac == 0)
      && (r.Ok? ==>
            r.value.total == Observed(t.ac, t.an, t.ac as real / t.an as real)
            && exists j :: 0 <= j < |t.populations| && t.populations[j].an > 0
                 && PyDict.Get(PopulationIds, t.populations[j].id) == Some(r.value.population)
                 && r.value.maxPopulation == Observed(t.populations[j].ac, t.populations[j].an, Frequency(t.populations[j]))
                 && forall k :: 0 <= k < |t.populations| && t.populations[k].an > 0 ==>
                      Frequency(t.populations[k]) <= Frequency(t.populations[j]))
  {
    MaxBucketIsFirstMax(t.populations);
    if t.an > 0 && MaxBucket(t.populations).Some? {
      var m := MaxBucket(t.populations).value;
      assert BucketIds(t.populations)[m] == t.populations[m].id;
      PopulationIdsHaveLabels(t.populations[m].id);
      var r := Summarize(t);
      assert r.Ok?;
      assert PyDict.Get(PopulationIds, t.populations[m].id) == Some(r.value.population);
    }
  }

  /** The frequency summary of the two blocks fails with a division by zero
      exactly when both blocks have allele number 0, and the rest of
      `SummarizeOutcome` holds of the merged totals. */
  lemma SummaryOutcome(genome: Option<Block>, exome: Option<Block>)
    ensures var r := Summarize(MergedTotals(genome, exome));
      r == Err(ZeroDivision) <==> BlockCount(genome, true) + BlockCount(exome, true) == 0
    ensures BucketIds(MergedTotals(genome, exome).populations) == PyDict.Keys(PopulationIds)
  {
    MergedTotalsAreSums(genome, exome);
    SummarizeOutcome(MergedTotals(genome, exome));
  }
}
