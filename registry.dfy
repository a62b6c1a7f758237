/**
 * Samples and projects. A project owns an ordered list of samples; a sample
 * points back at its project and may carry a number. Object identity matters:
 * plates hold references to samples, and removal compares references.
 */
module Registry {
  import opened Wrappers
  import opened Decimal
  import opened PySeq

  class Sample {
    const project: Project
    const name: string
    var number: Option<int>

    constructor (project: Project, name: string, number: Option<int>)
      ensures this.project == project && this.name == name && this.number == number
    {
      this.project := project;
      this.name := name;
      this.number := number;
    }
  }

  class Project {
    const name: string
    const color: Option<string>
    var samples: seq<Sample>

    /**
     * A project with `numSamples` fresh samples named Sample1, Sample2, ...
     * and numbered 1, 2, ... (none when `numSamples` is not positive).
     */
    constructor (name: string, color: Option<string>, numSamples: int)
      ensures this.name == name && this.color == color
      ensures |samples| == if numSamples < 0 then 0 else numSamples
      ensures forall i :: 0 <= i < |samples| ==>
        fresh(samples[i]) && samples[i].project == this &&
        samples[i].name == "Sample" + NatToString(i + 1) && samples[i].number == Some(i + 1)
      ensures Distinct(samples)
    {
      this.name := name;
      this.color := color;
      samples := [];
      new;
      var i := 0;
      while i < numSamples
        invariant 0 <= i && |samples| == i
        invariant if numSamples < 0 then i == 0 else i <= numSamples
        invariant forall k :: 0 <= k < i ==>
          fresh(samples[k]) && samples[k].project == this &&
          samples[k].name == "Sample" + NatToString(k + 1) && samples[k].number == Some(k + 1)
        invariant Distinct(samples)
      {
        var s := new Sample(this, "Sample" + NatToString(i + 1), Some(i + 1));
        samples := samples + [s];
        i := i + 1;
      }
    }

    /**
     * Appends `sample`; a sample without a number is numbered with the new
     * sample count (its 1-based place), a numbered one keeps its number.
     */
    method AddSample(sample: Sample)
      modifies this, sample
      ensures samples == old(samples) + [sample]
      ensures sample.number == if old(sample.number).None? then Some(|samples|) else old(sample.number)
    {
      samples := samples + [sample];
      if sample.number.None? {
        sample.number := Some(|samples|);
      }
    }

    /**
     * Pops `sample` from `samples` while enumerating them. Plates that hold
     * the sample are not touched. See PopDuringEnumerate for which
     * occurrences go.
     */
    method RemoveSample(sample: Sample)
      modifies this
      ensures samples == PopDuringEnumerate(old(samples), sample)
      ensures Without(samples, sample) == Without(old(samples), sample)
    {
      var i := 0;
      while i < |samples|
        invariant i <= |samples| + 1
        invariant PopDuringEnumerate(old(samples), sample) == EnumerationLeft(samples, i, sample)
        decreases |samples| + 1 - i
      {
        EnumerationStep(samples, i, sample);
        if samples[i] == sample {
          samples := samples[..i] + samples[i + 1..];
        }
        i := i + 1;
      }
    }
  }

  /**
   * What the loop in Project.RemoveSample ends with, given the list `s` and
   * the enumeration index `i` it has reached.
   */
  ghost function EnumerationLeft<T>(s: seq<T>, i: nat, x: T): seq<T> {
    if i <= |s| then s[..i] + PopDuringEnumerate(s[i..], x) else s
  }

  /** One iteration of that loop leaves the final outcome unchanged. */
  lemma EnumerationStep<T>(s: seq<T>, i: nat, x: T)
    requires i < |s|
    ensures EnumerationLeft(s, i, x) ==
      if s[i] == x then EnumerationLeft(s[..i] + s[i + 1..], i + 1, x) else EnumerationLeft(s, i + 1, x)
  {
    if s[i] != x {
      EnumerationKeep(s, i, x);
    } else if i + 1 < |s| {
      EnumerationPop(s, i, x);
    } else {
      assert s[..i] + s[i + 1..] == s[..i];
    }
  }

  lemma EnumerationKeep<T>(s: seq<T>, i: nat, x: T)
    requires i < |s| && s[i] != x
    ensures EnumerationLeft(s, i, x) == EnumerationLeft(s, i + 1, x)
  {
    assert s[i..][1..] == s[i + 1..];
    assert s[..i + 1] == s[..i] + [s[i]];
    Regroup(s[..i], s[i], PopDuringEnumerate(s[i + 1..], x));
  }

  lemma EnumerationPop<T>(s: seq<T>, i: nat, x: T)
    requires i + 1 < |s| && s[i] == x
    ensures EnumerationLeft(s, i, x) == EnumerationLeft(s[..i] + s[i + 1..], i + 1, x)
  {
    PopFront(s[i..], x);
    assert s[i..][1] == s[i + 1] && s[i..][2..] == s[i + 2..];
    var t := s[..i] + s[i + 1..];
    assert t[..i + 1] == s[..i] + [s[i + 1]];
    assert t[i + 1..] == s[i + 2..];
    Regroup(s[..i], s[i + 1], PopDuringEnumerate(s[i + 2..], x));
  }

  lemma Regroup<T>(a: seq<T>, y: T, b: seq<T>)
    ensures a + ([y] + b) == (a + [y]) + b
  {
  }

  /** A leading `x` is popped and the element sliding into its slot is kept. */
  lemma PopFront<T>(u: seq<T>, x: T)
    requires |u| > 1 && u[0] == x
    ensures PopDuringEnumerate(u, x) == [u[1]] + PopDuringEnumerate(u[2..], x)
  {
    assert u[1..][0] == u[1] && u[1..][1..] == u[2..];
  }
}
