/** The byte-pattern analyzer of reverse_engineering_tool.py (class
    DroneProtocolAnalyzer): labelled hex samples, and for each label with at least
    two samples a classification of every byte offset as fixed or variable. */
module Analyzer {

  /** The labels the analyzer starts with, in its iteration order. */
  const Labels: seq<string> := [
    "takeoff", "land",
    "move_forward", "move_backward", "move_left", "move_right", "move_up", "move_down",
    "rotate_cw", "rotate_ccw",
    "emergency_stop"]

  /** The shortest sample length (`min(len(s) for s in samples)`). */
  function MinLength(samples: seq<string>): (m: nat)
    requires |samples| > 0
    ensures exists j :: 0 <= j < |samples| && |samples[j]| == m
    ensures forall j :: 0 <= j < |samples| ==> m <= |samples[j]|
  {
    if |samples| == 1 then |samples[0]|
    else
      var rest := MinLength(samples[1..]);
      assert forall j :: 1 <= j < |samples| ==> samples[j] == samples[1..][j - 1];
      if |samples[0]| <= rest then |samples[0]| else rest
  }

  /** The two-character slices `sample[i:i+2]` over the samples with `i + 1 < len(sample)`. */
  function ValuesAt(samples: seq<string>, i: nat): set<string> {
    set s | s in samples && i + 1 < |s| :: s[i..i + 2]
  }

  /** The one member of a singleton set (`list(byte_values)[0]`). */
  ghost function Single(values: set<string>): (v: string)
    requires |values| == 1
    ensures values == {v}
  {
    var v :| v in values;
    assert |values - {v}| == 0;
    v
  }

  lemma SingleMember(values: set<string>, v: string)
    requires |values| == 1 && v in values
    ensures v == Single(values)
  {
  }

  /** The number of steps of `range(0, min_length, 2)`. */
  function Steps(minLength: nat): nat {
    (minLength + 1) / 2
  }

  /** The loop `for i in range(0, n, 2)` stops at the first even i with n <= i. */
  lemma StepsCount(n: nat, k: nat)
    requires n <= 2 * k <= n + 1
    ensures k == Steps(n)
  {
  }

  /** `fixed_bytes` after the first k byte offsets (hex positions 0, 2, ..., 2k - 2):
      offset k - 1 is appended with its value when exactly one slice was seen there. */
  ghost function FixedUpTo(samples: seq<string>, k: nat): seq<(nat, string)> {
    if k == 0 then []
    else
      var values := ValuesAt(samples, 2 * (k - 1));
      FixedUpTo(samples, k - 1) + (if |values| == 1 then [(k - 1, Single(values))] else [])
  }

  /** `variable_bytes` after the first k byte offsets. */
  ghost function VariableUpTo(samples: seq<string>, k: nat): seq<(nat, set<string>)> {
    if k == 0 then []
    else
      var values := ValuesAt(samples, 2 * (k - 1));
      VariableUpTo(samples, k - 1) + (if |values| == 1 then [] else [(k - 1, values)])
  }

  /** What `analyze_command_structure` reports for one label with samples. */
  datatype CommandReport =
    | Raw(command: string, sampleCount: nat, data: string)
    | Classified(command: string, sampleCount: nat,
                 fixed: seq<(nat, string)>, variable: seq<(nat, set<string>)>)

  ghost function Summarize(command: string, samples: seq<string>): CommandReport
    requires |samples| > 0
  {
    if |samples| > 1 then
      var k := Steps(MinLength(samples));
      Classified(command, |samples|, FixedUpTo(samples, k), VariableUpTo(samples, k))
    else Raw(command, 1, samples[0])
  }

  /** The reports for the labels with samples, in label order. */
  ghost function Report(labels: seq<string>, patterns: map<string, seq<string>>): seq<CommandReport>
    requires forall l :: l in labels ==> l in patterns
  {
    if labels == [] then []
    else
      var last := labels[|labels| - 1];
      Report(labels[..|labels| - 1], patterns) +
        (if patterns[last] == [] then [] else [Summarize(last, patterns[last])])
  }

  class DroneProtocolAnalyzer {
    /** The dictionary `command_patterns`: its keys in insertion order, and the
        samples recorded under each key. */
    var labels: seq<string>
    var patterns: map<string, seq<string>>

    /** The keys never change. */
    ghost predicate Valid()
      reads this
    {
      forall l :: l in patterns <==> l in labels
    }

    constructor ()
      ensures Valid()
      ensures labels == Labels
      ensures forall l :: l in Labels ==> patterns[l] == []
    {
      labels := Labels;
      patterns := map l | l in Labels :: [];
    }

    /** `add_command_sample`: append to a known label's samples; ignore unknown labels. */
    method AddCommandSample(commandType: string, packetData: string)
      requires Valid()
      modifies this`patterns
      ensures Valid()
      ensures commandType in labels ==>
                patterns == old(patterns)[commandType := old(patterns)[commandType] + [packetData]]
      ensures commandType !in labels ==> patterns == old(patterns)
    {
      if commandType in patterns {
        patterns := patterns[commandType := patterns[commandType] + [packetData]];
      }
    }

    /** `analyze_command_structure`: one report per label with samples, in label order. */
    method AnalyzeCommandStructure() returns (report: seq<CommandReport>)
      requires Valid()
      ensures report == Report(labels, patterns)
    {
      report := [];
      var n := 0;
      while n < |labels|
        invariant 0 <= n <= |labels|
        invariant report == Report(labels[..n], patterns)
      {
        assert labels[..n + 1][..n] == labels[..n];
        var command := labels[n];
        var samples := patterns[command];
        if samples != [] {
          if |samples| > 1 {
            var fixed, variable := CompareSamples(samples);
            report := report + [Classified(command, |samples|, fixed, variable)];
          } else {
            report := report + [Raw(command, 1, samples[0])];
          }
        }
        n := n + 1;
      }
      assert labels[..n] == labels;
    }
  }

  lemma ValuesAtSnoc(samples: seq<string>, j: nat, i: nat)
    requires j < |samples|
    ensures ValuesAt(samples[..j + 1], i) ==
              ValuesAt(samples[..j], i) + (if i + 1 < |samples[j]| then {samples[j][i..i + 2]} else {})
  {
    assert samples[..j + 1] == samples[..j] + [samples[j]];
  }

  /** The inner loop of the comparison: the slices seen at hex position i. */
  method CollectValues(samples: seq<string>, i: nat) returns (byteValues: set<string>)
    ensures byteValues == ValuesAt(samples, i)
  {
    byteValues := {};
    var j := 0;
    while j < |samples|
      invariant 0 <= j <= |samples|
      invariant byteValues == ValuesAt(samples[..j], i)
    {
      ValuesAtSnoc(samples, j, i);
      if i + 1 < |samples[j]| {
        byteValues := byteValues + {samples[j][i..i + 2]};
      }
      j := j + 1;
    }
    assert samples[..j] == samples;
  }

  /** The comparison of the samples of one label (the body of the `len(samples) > 1` branch). */
  method CompareSamples(samples: seq<string>) returns (fixed: seq<(nat, string)>, variable: seq<(nat, set<string>)>)
    requires |samples| > 1
    ensures fixed == FixedUpTo(samples, Steps(MinLength(samples)))
    ensures variable == VariableUpTo(samples, Steps(MinLength(samples)))
  {
    fixed, variable := [], [];
    var minLength := MinLength(samples);
    var i, k := 0, 0;
    while i < minLength
      invariant i == 2 * k && i <= minLength + 1
      invariant fixed == FixedUpTo(samples, k)
      invariant variable == VariableUpTo(samples, k)
    {
      var byteValues := CollectValues(samples, i);
      if |byteValues| == 1 {
        var v :| v in byteValues;
        SingleMember(byteValues, v);
        fixed := fixed + [(k, v)];
      } else {
        variable := variable + [(k, byteValues)];
      }
      i, k := i + 2, k + 1;
    }
    StepsCount(minLength, k);
  }

  // ---- properties of the classification --------------------------------------

  /** An offset is reported as fixed with value v exactly when it is among the first
      k offsets and v is the only slice observed there. */
  lemma {:induction false} FixedIff(samples: seq<string>, k: nat, o: nat, v: string)
    ensures (o, v) in FixedUpTo(samples, k) <==> o < k && ValuesAt(samples, 2 * o) == {v}
  {
    if k > 0 {
      FixedIff(samples, k - 1, o, v);
      var values := ValuesAt(samples, 2 * (k - 1));
      if values == {v} {
        SingleMember(values, v);
      }
    }
  }

  /** An offset is reported as variable with value set S exactly when it is among the
      first k offsets, S is the set of slices observed there and S is not a singleton. */
  lemma {:induction false} VariableIff(samples: seq<string>, k: nat, o: nat, values: set<string>)
    ensures (o, values) in VariableUpTo(samples, k) <==>
              o < k && values == ValuesAt(samples, 2 * o) && |values| != 1
  {
    if k > 0 {
      VariableIff(samples, k - 1, o, values);
    }
  }

  function OffsetsOf<V(==)>(xs: seq<(nat, V)>): set<nat> {
    set x | x in xs :: x.0
  }

  /** Every offset below k is reported exactly once, as fixed or as variable. */
  lemma OffsetPartition(samples: seq<string>, k: nat)
    ensures OffsetsOf(FixedUpTo(samples, k)) * OffsetsOf(VariableUpTo(samples, k)) == {}
    ensures forall o: nat :: o < k <==> o in OffsetsOf(FixedUpTo(samples, k)) + OffsetsOf(VariableUpTo(samples, k))
  {
    var fp, vp := FixedUpTo(samples, k), VariableUpTo(samples, k);
    forall o: nat
      ensures o !in OffsetsOf(fp) * OffsetsOf(vp)
      ensures o < k <==> o in OffsetsOf(fp) + OffsetsOf(vp)
    {
      var values := ValuesAt(samples, 2 * o);
      if o < k {
        if |values| == 1 {
          FixedIff(samples, k, o, Single(values));
          assert (o, Single(values)) in fp;
        } else {
          VariableIff(samples, k, o, values);
          assert (o, values) in vp;
        }
      }
      if o in OffsetsOf(fp) {
        var x :| x in fp && x.0 == o;
        FixedIff(samples, k, o, x.1);
      }
      if o in OffsetsOf(vp) {
        var y :| y in vp && y.0 == o;
        VariableIff(samples, k, o, y.1);
      }
    }
  }

  /** The fixed offsets are reported in ascending order. */
  lemma {:induction false} FixedAscending(samples: seq<string>, k: nat)
    ensures forall a, b :: 0 <= a < b < |FixedUpTo(samples, k)| ==>
              FixedUpTo(samples, k)[a].0 < FixedUpTo(samples, k)[b].0
    ensures forall x :: x in FixedUpTo(samples, k) ==> x.0 < k
  {
    if k > 0 {
      FixedAscending(samples, k - 1);
    }
  }

  /** The variable offsets are reported in ascending order. */
  lemma {:induction false} VariableAscending(samples: seq<string>, k: nat)
    ensures forall a, b :: 0 <= a < b < |VariableUpTo(samples, k)| ==>
              VariableUpTo(samples, k)[a].0 < VariableUpTo(samples, k)[b].0
    ensures forall x :: x in VariableUpTo(samples, k) ==> x.0 < k
  {
    if k > 0 {
      VariableAscending(samples, k - 1);
    }
  }

  const ThreeSamples: seq<string> := ["AABBCC", "AABBDD", "AABBEE"]

  lemma ThreeSamplesValues()
    ensures MinLength(ThreeSamples) == 6
    ensures ValuesAt(ThreeSamples, 0) == {"AA"}
    ensures ValuesAt(ThreeSamples, 2) == {"BB"}
    ensures ValuesAt(ThreeSamples, 4) == {"CC", "DD", "EE"}
  {
    var s := ThreeSamples;
    assert s[0][0..2] == s[1][0..2] == s[2][0..2] == "AA";
    assert s[0][2..4] == s[1][2..4] == s[2][2..4] == "BB";
    assert s[0][4..6] == "CC" && s[1][4..6] == "DD" && s[2][4..6] == "EE";
  }

  lemma ThreeSamplesFixed()
    ensures FixedUpTo(ThreeSamples, 3) == [(0, "AA"), (1, "BB")]
  {
    ThreeSamplesValues();
    SingleMember({"AA"}, "AA");
    SingleMember({"BB"}, "BB");
    assert |{"CC", "DD", "EE"}| == 3;
  }

  lemma ThreeSamplesVariable()
    ensures VariableUpTo(ThreeSamples, 3) == [(2, {"CC", "DD", "EE"})]
  {
    ThreeSamplesValues();
    assert |{"CC", "DD", "EE"}| == 3;
  }

  /** Three samples that agree on their first two bytes: offsets 0 and 1 are fixed,
      offset 2 is variable with the three observed values. */
  lemma ThreeSamplesExample()
    ensures Summarize("takeoff", ThreeSamples) ==
              Classified("takeoff", 3, [(0, "AA"), (1, "BB")], [(2, {"CC", "DD", "EE"})])
  {
    ThreeSamplesValues();
    ThreeSamplesFixed();
    ThreeSamplesVariable();
  }

  /** With an odd shortest length the last hex position holds half a byte: no sample
      that short contributes a slice there, so the offset is reported as variable
      with no values at all. */
  lemma OddLengthExample()
    ensures Summarize("land", ["AAB", "AAC"]) == Classified("land", 2, [(0, "AA")], [(1, {})])
  {
    var samples := ["AAB", "AAC"];
    assert MinLength(samples) == 3;
    assert ValuesAt(samples, 0) == {"AA"} by {
      assert samples[0][0..2] == samples[1][0..2] == "AA";
    }
    assert ValuesAt(samples, 2) == {};
    SingleMember({"AA"}, "AA");
  }

  /** A longer sample still contributes a slice at the last, odd position: here
      offset 1 is fixed with the slice of the longer sample. */
  lemma MixedLengthExample()
    ensures Summarize("land", ["AAB", "AACD"]) == Classified("land", 2, [(0, "AA"), (1, "CD")], [])
  {
    var samples := ["AAB", "AACD"];
    assert MinLength(samples) == 3;
    assert ValuesAt(samples, 0) == {"AA"} by {
      assert samples[0][0..2] == samples[1][0..2] == "AA";
    }
    assert ValuesAt(samples, 2) == {"CD"} by {
      assert samples[1][2..4] == "CD";
    }
    SingleMember({"AA"}, "AA");
    SingleMember({"CD"}, "CD");
  }

  /** The labels that have samples, in label order. */
  function Sampled(labels: seq<string>, patterns: map<string, seq<string>>): seq<string>
    requires forall l :: l in labels ==> l in patterns
  {
    if labels == [] then []
    else
      var last := labels[|labels| - 1];
      Sampled(labels[..|labels| - 1], patterns) + (if patterns[last] == [] then [] else [last])
  }

  /** The command of each report entry, in order. */
  function Commands(report: seq<CommandReport>): (cs: seq<string>)
    ensures |cs| == |report| && forall i :: 0 <= i < |report| ==> cs[i] == report[i].command
  {
    if report == [] then [] else Commands(report[..|report| - 1]) + [report[|report| - 1].command]
  }

  /** The report's entries are for exactly the labels with samples, one each, in
      label order. */
  lemma {:induction false} ReportOrder(labels: seq<string>, patterns: map<string, seq<string>>)
    requires forall l :: l in labels ==> l in patterns
    ensures Commands(Report(labels, patterns)) == Sampled(labels, patterns)
  {
    if labels != [] {
      var init := labels[..|labels| - 1];
      var last := labels[|labels| - 1];
      ReportOrder(init, patterns);
      var r := Report(init, patterns);
      if patterns[last] != [] {
        var e := Summarize(last, patterns[last]);
        SummarizeShape(last, patterns[last]);
        assert Report(labels, patterns) == r + [e];
        assert (r + [e])[..|r|] == r;
      } else {
        assert Report(labels, patterns) == r;
      }
    }
  }

  /** The report has one entry per label with samples, raw exactly when there is one
      sample, and classified from all of the label's samples otherwise. */
  lemma {:induction false} ReportEntries(labels: seq<string>, patterns: map<string, seq<string>>)
    requires forall l :: l in labels ==> l in patterns
    ensures forall r :: r in Report(labels, patterns) ==>
              r.command in labels && patterns[r.command] != [] &&
              r == Summarize(r.command, patterns[r.command])
    ensures forall l :: l in labels && patterns[l] != [] ==>
              exists r :: r in Report(labels, patterns) && r.command == l
  {
    if labels != [] {
      var init := labels[..|labels| - 1];
      var last := labels[|labels| - 1];
      assert labels == init + [last];
      ReportEntries(init, patterns);
      if patterns[last] != [] {
        SummarizeShape(last, patterns[last]);
        assert Report(labels, patterns)[|Report(labels, patterns)| - 1].command == last;
      }
    }
  }

  /** A summary is raw exactly when there is one sample, and counts the samples. */
  lemma SummarizeShape(command: string, samples: seq<string>)
    requires |samples| > 0
    ensures Summarize(command, samples).command == command
    ensures Summarize(command, samples).sampleCount == |samples|
    ensures Summarize(command, samples).Raw? <==> |samples| == 1
    ensures Summarize(command, samples).Raw? ==> Summarize(command, samples).data == samples[0]
  {
  }
}
