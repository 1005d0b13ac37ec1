/**
 * What the two console summaries share: the lines for the boundaries of a label table, each
 * printed only when the summary counts some call with that boundary.
 */
module Console {
  import opened Text
  import opened Aggregate
  import opened Analyzer
  import opened Markdown

  /** `summary[key]`, with a missing key as 0. */
  function CountOf(t: seq<Entry>, key: string): nat {
    var i := EntryIndex(t, key);
    if i < |t| then t[i].count else 0
  }

  /** The label lines for the boundaries `labels`, of the counts `summary`. */
  function LabelLines(summary: seq<Entry>, labels: seq<(string, string)>): seq<string> {
    if labels == [] then []
    else
      var key := labels[|labels| - 1].0;
      LabelLines(summary, labels[..|labels| - 1])
      + (if CountOf(summary, key) > 0 then [labels[|labels| - 1].1 + " " + NatToString(CountOf(summary, key))] else [])
  }

  /** The label loop over `Object.entries(labels)`. */
  method PrintLabels(summary: seq<Entry>, labels: seq<(string, string)>) returns (out: seq<string>)
    ensures out == LabelLines(summary, labels)
  {
    out := [];
    var k := 0;
    while k < |labels|
      invariant 0 <= k <= |labels|
      invariant out == LabelLines(summary, labels[..k])
    {
      var key := labels[k].0;
      var caption := labels[k].1;
      assert labels[..k + 1][..k] == labels[..k];
      var i := EntryIndex(summary, key);
      if i < |summary| && summary[i].count > 0 {
        out := out + [caption + " " + NatToString(summary[i].count)];
      }
      k := k + 1;
    }
    assert labels[..k] == labels;
  }

  /** A missing key counts as 0, and a present one counts its occurrences. */
  lemma CountOfTally(keys: seq<string>, key: string)
    ensures CountOf(Tally(keys), key) == Occurrences(keys, key)
  {
    TallyCounts(keys, key);
  }

  /** The label line of a boundary, present only when some call has that boundary. */
  function LabelLine(calls: seq<TrpcCall>, key: string, caption: string): seq<string> {
    var n := Occurrences(Boundaries(calls), key);
    if n > 0 then [caption + " " + NatToString(n)] else []
  }

  /** With a table of three boundaries, the label lines are those of the three boundaries, in table order. */
  lemma ThreeLabels(calls: seq<TrpcCall>, l: seq<(string, string)>)
    requires |l| == 3
    ensures LabelLines(Tally(Boundaries(calls)), l) ==
      LabelLine(calls, l[0].0, l[0].1) + LabelLine(calls, l[1].0, l[1].1) + LabelLine(calls, l[2].0, l[2].1)
  {
    var keys := Boundaries(calls);
    var t := Tally(keys);
    CountOfTally(keys, l[0].0);
    CountOfTally(keys, l[1].0);
    CountOfTally(keys, l[2].0);
    assert LabelLines(t, l[..1]) == LabelLine(calls, l[0].0, l[0].1) by {
      assert l[..1][..0] == [];
    }
    assert LabelLines(t, l[..2]) == LabelLines(t, l[..1]) + LabelLine(calls, l[1].0, l[1].1) by {
      assert l[..2][..1] == l[..1];
    }
    assert LabelLines(t, l) == LabelLines(t, l[..2]) + LabelLine(calls, l[2].0, l[2].1) by {
      assert l[..2] == l[..|l| - 1];
    }
  }
}
