/**
 * The `onresult` aggregation that the translator page and the real-time
 * subtitle page share: every recognition result from `resultIndex` on is
 * appended to the final accumulator when it is final and to the interim one
 * otherwise, and the page shows the final text when it is non-empty, else the
 * interim text. A result's text is its first alternative's `transcript`.
 */
module SpeechResults {
  import opened Sequences

  /** One recognition result: `isFinal` and `result[0].transcript`. */
  datatype RecognitionResult = RecognitionResult(isFinal: bool, transcript: string)

  /** The transcripts of `rs`, one after another. */
  function Concat(rs: seq<RecognitionResult>): string {
    if rs == [] then "" else rs[0].transcript + Concat(rs[1..])
  }

  /** The results that are final, in their order. */
  function Finals(rs: seq<RecognitionResult>): seq<RecognitionResult> {
    if rs == [] then [] else (if rs[0].isFinal then [rs[0]] else []) + Finals(rs[1..])
  }

  /** The results that are not final, in their order. */
  function Interims(rs: seq<RecognitionResult>): seq<RecognitionResult> {
    if rs == [] then [] else (if rs[0].isFinal then [] else [rs[0]]) + Interims(rs[1..])
  }

  /** The results the loop visits: from `resultIndex` to the end, none when it starts past the end. */
  function Window(results: seq<RecognitionResult>, resultIndex: nat): (w: seq<RecognitionResult>)
    ensures resultIndex >= |results| ==> w == []
    ensures resultIndex < |results| ==> |w| == |results| - resultIndex && w[0] == results[resultIndex]
  {
    if resultIndex <= |results| then results[resultIndex..] else []
  }

  /** `finalTranscript || interimTranscript`. */
  function Shown(final: string, interim: string): (r: string)
    ensures r == "" <==> final == "" && interim == ""
    ensures final != "" ==> r == final
  {
    if final != "" then final else interim
  }

  lemma {:induction false} ConcatSnoc(rs: seq<RecognitionResult>, r: RecognitionResult)
    ensures Concat(rs + [r]) == Concat(rs) + r.transcript
  {
    if rs == [] {
      assert [] + [r] == [r] && [r][1..] == [];
    } else {
      ConcatSnoc(rs[1..], r);
      assert (rs + [r])[1..] == rs[1..] + [r];
    }
  }

  /** Adding one result at the end adds it to its own accumulator only. */
  lemma {:induction false} FiltersSnoc(rs: seq<RecognitionResult>, r: RecognitionResult)
    ensures r.isFinal ==> Finals(rs + [r]) == Finals(rs) + [r] && Interims(rs + [r]) == Interims(rs)
    ensures !r.isFinal ==> Finals(rs + [r]) == Finals(rs) && Interims(rs + [r]) == Interims(rs) + [r]
  {
    if rs == [] {
      assert [] + [r] == [r] && [r][1..] == [];
    } else {
      FiltersSnoc(rs[1..], r);
      assert (rs + [r])[1..] == rs[1..] + [r];
    }
  }

  lemma SliceSnoc<T>(s: seq<T>, a: nat, b: nat)
    requires a <= b < |s|
    ensures s[a..b + 1] == s[a..b] + [s[b]]
  {
  }

  /**
   * The accumulator loop of `onresult`: the final accumulator holds the final
   * results' transcripts in order and the interim one the others'.
   */
  method Aggregate(results: seq<RecognitionResult>, resultIndex: nat) returns (final: string, interim: string)
    ensures final == Concat(Finals(Window(results, resultIndex)))
    ensures interim == Concat(Interims(Window(results, resultIndex)))
  {
    final, interim := "", "";
    if resultIndex >= |results| {
      assert Finals([]) == [] && Interims([]) == [];
      return;
    }
    var i := resultIndex;
    ghost var seen: seq<RecognitionResult> := [];
    while i < |results|
      invariant resultIndex <= i <= |results|
      invariant seen == results[resultIndex..i]
      invariant final == Concat(Finals(seen))
      invariant interim == Concat(Interims(seen))
    {
      var r := results[i];
      FiltersSnoc(seen, r);
      if r.isFinal {
        ConcatSnoc(Finals(seen), r);
        final := final + r.transcript;
      } else {
        ConcatSnoc(Interims(seen), r);
        interim := interim + r.transcript;
      }
      SliceSnoc(results, resultIndex, i);
      seen := seen + [r];
      i := i + 1;
    }
    assert seen == Window(results, resultIndex);
  }

  /** Each result goes to exactly one accumulator: the two filters split the results. */
  lemma {:induction false} FiltersPartition(rs: seq<RecognitionResult>)
    ensures |Finals(rs)| + |Interims(rs)| == |rs|
    ensures forall r :: r in Finals(rs) ==> r in rs && r.isFinal
    ensures forall r :: r in Interims(rs) ==> r in rs && !r.isFinal
  {
    if rs != [] {
      FiltersPartition(rs[1..]);
      assert rs == [rs[0]] + rs[1..];
    }
  }

  /** The final results keep their order, and so do the interim ones. */
  lemma {:induction false} FiltersKeepOrder(rs: seq<RecognitionResult>)
    ensures IsSubsequence(Finals(rs), rs) && IsSubsequence(Interims(rs), rs)
  {
    if rs != [] {
      var first, rest := rs[0], rs[1..];
      FiltersKeepOrder(rest);
      assert rs == [first] + rest;
      if first.isFinal {
        SubsequenceKeep(first, Finals(rest), rest);
        assert Interims(rs) == Interims(rest);
        SubsequenceSkip(first, Interims(rest), rest);
      } else {
        assert Finals(rs) == Finals(rest);
        SubsequenceSkip(first, Finals(rest), rest);
        SubsequenceKeep(first, Interims(rest), rest);
      }
    }
  }

  lemma ConcatCons(r: RecognitionResult, rs: seq<RecognitionResult>)
    ensures Concat([r] + rs) == r.transcript + Concat(rs)
  {
    assert ([r] + rs)[1..] == rs;
  }

  /** No character is lost or invented: the two accumulators together are as long as all the transcripts. */
  lemma {:induction false} AccumulatorsCoverAll(rs: seq<RecognitionResult>)
    ensures |Concat(Finals(rs))| + |Concat(Interims(rs))| == |Concat(rs)|
  {
    if rs != [] {
      var first, rest := rs[0], rs[1..];
      AccumulatorsCoverAll(rest);
      if first.isFinal {
        assert Finals(rs) == [first] + Finals(rest);
        ConcatCons(first, Finals(rest));
        assert Interims(rs) == Interims(rest);
      } else {
        assert Interims(rs) == [first] + Interims(rest);
        ConcatCons(first, Interims(rest));
        assert Finals(rs) == Finals(rest);
      }
    }
  }

  /**
   * When every visited result has the same finality, that accumulator gets
   * all of them and the other nothing.
   */
  lemma {:induction false} UniformResults(rs: seq<RecognitionResult>, final: bool)
    requires forall k :: 0 <= k < |rs| ==> rs[k].isFinal == final
    ensures Finals(rs) == (if final then rs else [])
    ensures Interims(rs) == (if final then [] else rs)
  {
    if rs != [] {
      var rest := rs[1..];
      assert forall k :: 0 <= k < |rest| ==> rest[k].isFinal == final by {
        forall k | 0 <= k < |rest| ensures rest[k].isFinal == final {
          assert rest[k] == rs[k + 1];
        }
      }
      UniformResults(rest, final);
      assert rs == [rs[0]] + rest;
    }
  }
}
