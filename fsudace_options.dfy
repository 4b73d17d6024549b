/**
  The options of the FSU DACE design-of-experiments algorithm.

  The options live in a bag of named attributes (a map from option name to
  value). The constructor fills in the defaults; the validating setters refuse
  out-of-range values and then leave the bag as it was; the optional options
  can be cleared again. The algorithm type and the CVT trial type are carried
  by their value names, the strings the serialised form stores.
*/
module FSUDaceOptions {
  import opened Common

  /** The value of one attribute in the option bag. */
  datatype OptionValue = IntValue(i: int) | BoolValue(b: bool) | IntVectorValue(v: seq<int>)

  /** One entry of the serialised map: a string, or the list of attributes. */
  datatype VariantEntry = Text(text: string) | Attributes(options: map<string, OptionValue>)

  /** What the restoring constructor is given back from a serialised map. */
  datatype Decoded = Decoded(algorithmType: string, trialType: Option<string>, options: map<string, OptionValue>)

  /** The five boolean flags the default constructor sets to false. */
  const FlagNames: set<string> := {"fixedSequence", "latinize", "varianceBasedDecomp", "qualityMetrics", "fixedSeed"}

  function IntOf(value: OptionValue): int {
    if value.IntValue? then value.i else 0
  }

  function IntVectorOf(value: OptionValue): seq<int> {
    if value.IntVectorValue? then value.v else []
  }

  function TextOf(entry: VariantEntry): string {
    if entry.Text? then entry.text else ""
  }

  /** The serialised map: the attributes, the algorithm type, and the trial type only when one is set. */
  function ToVariant(algorithmType: string, trialType: Option<string>, options: map<string, OptionValue>)
    : (m: map<string, VariantEntry>)
    ensures m.Keys == {"attributes", "fsu_dace_algorithm_type"} + (if trialType.Some? then {"trial_type"} else {})
    ensures m["attributes"] == Attributes(options)
    ensures m["fsu_dace_algorithm_type"] == Text(algorithmType)
    ensures trialType.Some? ==> m["trial_type"] == Text(trialType.value)
  {
    var base := map["attributes" := Attributes(options)];
    var m := base["fsu_dace_algorithm_type" := Text(algorithmType)];
    if trialType.Some? then m["trial_type" := Text(trialType.value)] else m
  }

  /** Reads a serialised map back: a trial type is restored only when the key is present. */
  function FromVariant(m: map<string, VariantEntry>): (d: Decoded)
    ensures d.trialType.Some? <==> "trial_type" in m
    ensures "fsu_dace_algorithm_type" in m && m["fsu_dace_algorithm_type"].Text? ==>
              d.algorithmType == m["fsu_dace_algorithm_type"].text
    ensures "attributes" in m && m["attributes"].Attributes? ==> d.options == m["attributes"].options
  {
    Decoded(
      if "fsu_dace_algorithm_type" in m then TextOf(m["fsu_dace_algorithm_type"]) else "",
      if "trial_type" in m then Some(TextOf(m["trial_type"])) else None,
      if "attributes" in m && m["attributes"].Attributes? then m["attributes"].options else map[])
  }

  /** Serialising and reading back restores the algorithm type, the trial type and the options. */
  lemma VariantRoundTrip(algorithmType: string, trialType: Option<string>, options: map<string, OptionValue>)
    ensures FromVariant(ToVariant(algorithmType, trialType, options)) == Decoded(algorithmType, trialType, options)
  {
  }

  /** The smallest element of a non-empty list (std::min_element). */
  method MinElement(values: seq<int>) returns (least: int)
    requires |values| > 0
    ensures least in values
    ensures forall x :: x in values ==> least <= x
  {
    least := values[0];
    var i := 1;
    while i < |values|
      invariant 1 <= i <= |values|
      invariant least in values[..i]
      invariant forall j :: 0 <= j < i ==> least <= values[j]
    {
      if values[i] < least {
        least := values[i];
      }
      i := i + 1;
    }
    assert values[..|values|] == values;
  }

  class FSUDaceAlgorithmOptions {
    var algorithmType: string
    var trialType: Option<string>
    var options: map<string, OptionValue>

    /** The option bag as the default constructor leaves it, up to the values: every
        mandatory option is present with the right type, and every stored value is in range. */
    ghost predicate Consistent()
      reads this
    {
      && "samples" in options && options["samples"].IntValue? && options["samples"].i >= 1
      && (forall name :: name in FlagNames ==> name in options && options[name].BoolValue?)
      && ("seed" in options ==> options["seed"].IntValue? && options["seed"].i >= 1)
      && ("numTrials" in options ==> options["numTrials"].IntValue? && options["numTrials"].i >= 1)
      && ("sequenceStart" in options ==>
            options["sequenceStart"].IntVectorValue? && forall x :: x in options["sequenceStart"].v ==> x >= 0)
      && ("sequenceLeap" in options ==>
            options["sequenceLeap"].IntVectorValue? && forall x :: x in options["sequenceLeap"].v ==> x >= 1)
    }

    /** The default options: 10 samples, every flag false, and a seed of at least 1 taken
        from the random value `randomValue`. */
    constructor (algorithmType: string, randomValue: int)
      ensures Consistent()
      ensures this.algorithmType == algorithmType && trialType == None
      ensures options == map["samples" := IntValue(10),
                             "fixedSequence" := BoolValue(false), "latinize" := BoolValue(false),
                             "varianceBasedDecomp" := BoolValue(false), "qualityMetrics" := BoolValue(false),
                             "fixedSeed" := BoolValue(false),
                             "seed" := IntValue(if randomValue < 1 then 1 else randomValue)]
      ensures Samples() == 10
      ensures !FixedSequence() && !Latinize() && !VarianceBasedDecomp() && !QualityMetrics() && !FixedSeed()
      ensures Seed().Some? && Seed().value >= 1
    {
      this.algorithmType := algorithmType;
      trialType := None;
      options := map["samples" := IntValue(10),
                     "fixedSequence" := BoolValue(false), "latinize" := BoolValue(false),
                     "varianceBasedDecomp" := BoolValue(false), "qualityMetrics" := BoolValue(false),
                     "fixedSeed" := BoolValue(false)];
      new;
      var seeded := SetSeed(if randomValue < 1 then 1 else randomValue);
    }

    /** The constructor used when restoring from a serialised map. */
    constructor Restore(algorithmType: string, trialType: Option<string>, options: map<string, OptionValue>)
      ensures this.algorithmType == algorithmType && this.trialType == trialType && this.options == options
    {
      this.algorithmType := algorithmType;
      this.trialType := trialType;
      this.options := options;
    }

    // Getters. The mandatory ones require their option to be present, as the source asserts.

    function Samples(): int
      reads this
      requires "samples" in options
    {
      IntOf(options["samples"])
    }

    function SequenceStart(): seq<int>
      reads this
    {
      if "sequenceStart" in options then IntVectorOf(options["sequenceStart"]) else []
    }

    function SequenceLeap(): seq<int>
      reads this
    {
      if "sequenceLeap" in options then IntVectorOf(options["sequenceLeap"]) else []
    }

    function Flag(name: string): bool
      reads this
      requires name in options
    {
      options[name].BoolValue? && options[name].b
    }

    function FixedSequence(): bool reads this requires "fixedSequence" in options { Flag("fixedSequence") }
    function Latinize(): bool reads this requires "latinize" in options { Flag("latinize") }
    function VarianceBasedDecomp(): bool reads this requires "varianceBasedDecomp" in options { Flag("varianceBasedDecomp") }
    function QualityMetrics(): bool reads this requires "qualityMetrics" in options { Flag("qualityMetrics") }
    function FixedSeed(): bool reads this requires "fixedSeed" in options { Flag("fixedSeed") }

    function Seed(): Option<int>
      reads this
    {
      if "seed" in options then Some(IntOf(options["seed"])) else None
    }

    function NumTrials(): Option<int>
      reads this
    {
      if "numTrials" in options then Some(IntOf(options["numTrials"])) else None
    }

    /** The serialised form of these options. */
    function Serialised(): (m: map<string, VariantEntry>)
      reads this
      ensures "trial_type" in m <==> trialType.Some?
    {
      ToVariant(algorithmType, trialType, options)
    }

    // Setters.

    method SetSamples(value: int) returns (ok: bool)
      requires value >= 1 ==> "samples" in options
      modifies this
      ensures ok <==> value >= 1
      ensures options == if ok then old(options)["samples" := IntValue(value)] else old(options)
      ensures algorithmType == old(algorithmType) && trialType == old(trialType)
      ensures ok ==> Samples() == value
      ensures old(Consistent()) ==> Consistent()
    {
      if value < 1 {
        return false;
      }
      options := options["samples" := IntValue(value)];
      return true;
    }

    method SetSequenceStart(value: seq<int>) returns (ok: bool)
      requires |value| > 0
      modifies this
      ensures ok <==> forall x :: x in value ==> x >= 0
      ensures options == if ok then old(options)["sequenceStart" := IntVectorValue(value)] else old(options)
      ensures algorithmType == old(algorithmType) && trialType == old(trialType)
      ensures ok ==> SequenceStart() == value
      ensures !ok ==> SequenceStart() == old(SequenceStart())
      ensures old(Consistent()) ==> Consistent()
    {
      var minValue := MinElement(value);
      if minValue < 0 {
        return false;
      }
      // an existing option gets the new value, a missing one is created: the bag maps the name to it either way
      options := options["sequenceStart" := IntVectorValue(value)];
      return true;
    }

    method SetSequenceLeap(value: seq<int>) returns (ok: bool)
      requires |value| > 0
      modifies this
      ensures ok <==> forall x :: x in value ==> x >= 1
      ensures options == if ok then old(options)["sequenceLeap" := IntVectorValue(value)] else old(options)
      ensures algorithmType == old(algorithmType) && trialType == old(trialType)
      ensures ok ==> SequenceLeap() == value
      ensures !ok ==> SequenceLeap() == old(SequenceLeap())
      ensures old(Consistent()) ==> Consistent()
    {
      var minValue := MinElement(value);
      if minValue < 1 {
        return false;
      }
      options := options["sequenceLeap" := IntVectorValue(value)];
      return true;
    }

    /** Sets one of the five boolean flags, which must already be in the bag. */
    method SetFlag(name: string, value: bool)
      requires name in FlagNames && name in options
      modifies this
      ensures options == old(options)[name := BoolValue(value)]
      ensures algorithmType == old(algorithmType) && trialType == old(trialType)
      ensures Flag(name) == value
      ensures forall other :: other != name && other in old(options) ==> other in options && options[other] == old(options)[other]
      ensures old(Consistent()) ==> Consistent()
    {
      options := options[name := BoolValue(value)];
    }

    method SetFixedSequence(value: bool)
      requires "fixedSequence" in options
      modifies this
      ensures options == old(options)["fixedSequence" := BoolValue(value)]
      ensures algorithmType == old(algorithmType) && trialType == old(trialType)
      ensures FixedSequence() == value
      ensures old(Consistent()) ==> Consistent()
    {
      SetFlag("fixedSequence", value);
    }

    method SetLatinize(value: bool)
      requires "latinize" in options
      modifies this
      ensures options == old(options)["latinize" := BoolValue(value)]
      ensures algorithmType == old(algorithmType) && trialType == old(trialType)
      ensures Latinize() == value
      ensures old(Consistent()) ==> Consistent()
    {
      SetFlag("latinize", value);
    }

    method SetVarianceBasedDecomp(value: bool)
      requires "varianceBasedDecomp" in options
      modifies this
      ensures options == old(options)["varianceBasedDecomp" := BoolValue(value)]
      ensures algorithmType == old(algorithmType) && trialType == old(trialType)
      ensures VarianceBasedDecomp() == value
      ensures old(Consistent()) ==> Consistent()
    {
      SetFlag("varianceBasedDecomp", value);
    }

    method SetQualityMetrics(value: bool)
      requires "qualityMetrics" in options
      modifies this
      ensures options == old(options)["qualityMetrics" := BoolValue(value)]
      ensures algorithmType == old(algorithmType) && trialType == old(trialType)
      ensures QualityMetrics() == value
      ensures old(Consistent()) ==> Consistent()
    {
      SetFlag("qualityMetrics", value);
    }

    method SetFixedSeed(value: bool)
      requires "fixedSeed" in options
      modifies this
      ensures options == old(options)["fixedSeed" := BoolValue(value)]
      ensures algorithmType == old(algorithmType) && trialType == old(trialType)
      ensures FixedSeed() == value
      ensures old(Consistent()) ==> Consistent()
    {
      SetFlag("fixedSeed", value);
    }

    method SetSeed(value: int) returns (ok: bool)
      modifies this
      ensures ok <==> value >= 1
      ensures options == if ok then old(options)["seed" := IntValue(value)] else old(options)
      ensures algorithmType == old(algorithmType) && trialType == old(trialType)
      ensures Seed() == if ok then Some(value) else old(Seed())
      ensures old(Consistent()) ==> Consistent()
    {
      if value < 1 {
        return false;
      }
      options := options["seed" := IntValue(value)];
      return true;
    }

    method SetNumTrials(value: int) returns (ok: bool)
      modifies this
      ensures ok <==> value >= 1
      ensures options == if ok then old(options)["numTrials" := IntValue(value)] else old(options)
      ensures algorithmType == old(algorithmType) && trialType == old(trialType)
      ensures NumTrials() == if ok then Some(value) else old(NumTrials())
      ensures old(Consistent()) ==> Consistent()
    {
      if value < 1 {
        return false;
      }
      options := options["numTrials" := IntValue(value)];
      return true;
    }

    method SetTrialType(value: string)
      modifies this
      ensures trialType == Some(value)
      ensures options == old(options) && algorithmType == old(algorithmType)
    {
      trialType := Some(value);
    }

    /** Removes one optional attribute from the bag. */
    method ClearOption(name: string)
      modifies this
      ensures options == old(options) - {name}
      ensures algorithmType == old(algorithmType) && trialType == old(trialType)
      ensures name !in FlagNames && name != "samples" ==> (old(Consistent()) ==> Consistent())
    {
      options := options - {name};
    }

    method ClearSequenceStart()
      modifies this
      ensures options == old(options) - {"sequenceStart"}
      ensures algorithmType == old(algorithmType) && trialType == old(trialType)
      ensures SequenceStart() == []
      ensures old(Consistent()) ==> Consistent()
    {
      ClearOption("sequenceStart");
    }

    method ClearSequenceLeap()
      modifies this
      ensures options == old(options) - {"sequenceLeap"}
      ensures algorithmType == old(algorithmType) && trialType == old(trialType)
      ensures SequenceLeap() == []
      ensures old(Consistent()) ==> Consistent()
    {
      ClearOption("sequenceLeap");
    }

    method ClearSeed()
      modifies this
      ensures options == old(options) - {"seed"}
      ensures algorithmType == old(algorithmType) && trialType == old(trialType)
      ensures Seed() == None
      ensures old(Consistent()) ==> Consistent()
    {
      ClearOption("seed");
    }

    method ClearNumTrials()
      modifies this
      ensures options == old(options) - {"numTrials"}
      ensures algorithmType == old(algorithmType) && trialType == old(trialType)
      ensures NumTrials() == None
      ensures old(Consistent()) ==> Consistent()
    {
      ClearOption("numTrials");
    }

    method ClearTrialType()
      modifies this
      ensures trialType == None
      ensures options == old(options) && algorithmType == old(algorithmType)
    {
      trialType := None;
    }
  }

  /** Serialising a set of options and restoring from the result gives back options with the
      same algorithm type, trial type and attributes. */
  method SerialiseAndRestore(o: FSUDaceAlgorithmOptions) returns (restored: FSUDaceAlgorithmOptions)
    ensures fresh(restored)
    ensures restored.algorithmType == o.algorithmType
    ensures restored.trialType == o.trialType
    ensures restored.options == o.options
  {
    var d := FromVariant(o.Serialised());
    VariantRoundTrip(o.algorithmType, o.trialType, o.options);
    restored := new FSUDaceAlgorithmOptions.Restore(d.algorithmType, d.trialType, d.options);
  }
}
