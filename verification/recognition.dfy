/** The data a speech-recognition result event carries, and how the session folds it into
    committed text and an interim suffix (script.js `onRecognitionResult`). */
module Recognition {

  /** One entry of `event.results`: the transcript of its first (and, with
      `maxAlternatives = 1`, only) alternative, and whether the engine will revise it. */
  datatype ResultEntry = ResultEntry(transcript: string, isFinal: bool)

  /** A result event: the results list and the index from which entries are new. */
  datatype ResultEvent = ResultEvent(resultIndex: nat, results: seq<ResultEntry>)

  /** The entries the loop visits: from `resultIndex` to the end, none when the index is past it. */
  function Window(results: seq<ResultEntry>, resultIndex: nat): seq<ResultEntry>
  {
    if resultIndex <= |results| then results[resultIndex..] else []
  }

  /** The committed-text contribution of a run of entries, built the way the loop builds it:
      each final transcript followed by one space, appended in order. */
  function FinalSegments(rs: seq<ResultEntry>): string
  {
    if rs == [] then ""
    else
      var last := rs[|rs| - 1];
      FinalSegments(rs[..|rs| - 1]) + (if last.isFinal then last.transcript + " " else "")
  }

  /** The interim suffix of a run of entries: the non-final transcripts, appended in order
      with no separator. */
  function InterimSegments(rs: seq<ResultEntry>): string
  {
    if rs == [] then ""
    else
      var last := rs[|rs| - 1];
      InterimSegments(rs[..|rs| - 1]) + (if last.isFinal then "" else last.transcript)
  }

  /** The loop of `onRecognitionResult`: visits the entries from `resultIndex` onward and
      returns the final part and the interim part it accumulated. */
  method ScanResults(results: seq<ResultEntry>, resultIndex: nat)
    returns (finalPart: string, interimPart: string)
    ensures finalPart == FinalSegments(Window(results, resultIndex))
    ensures interimPart == InterimSegments(Window(results, resultIndex))
  {
    finalPart, interimPart := "", "";
    var i := resultIndex;
    while i < |results|
      invariant resultIndex <= |results| ==> resultIndex <= i <= |results|
      invariant resultIndex > |results| ==> i == resultIndex
      invariant i <= |results| ==> finalPart == FinalSegments(results[resultIndex..i])
      invariant i <= |results| ==> interimPart == InterimSegments(results[resultIndex..i])
      invariant resultIndex > |results| ==> finalPart == "" && interimPart == ""
    {
      var transcript := results[i].transcript;
      if results[i].isFinal {
        finalPart := finalPart + transcript + " ";
      } else {
        interimPart := interimPart + transcript;
      }
      ghost var visited := results[resultIndex..i + 1];
      assert visited[..|visited| - 1] == results[resultIndex..i];
      assert visited[|visited| - 1] == results[i];
      i := i + 1;
    }
    if resultIndex <= |results| {
      assert results[resultIndex..i] == Window(results, resultIndex);
    }
  }

  // ---- An independent description: filter the entries, then join ----

  /** The transcripts of the final entries, in delivery order. */
  function FinalTranscripts(rs: seq<ResultEntry>): seq<string>
  {
    if rs == [] then []
    else (if rs[0].isFinal then [rs[0].transcript] else []) + FinalTranscripts(rs[1..])
  }

  /** The transcripts of the interim entries, in delivery order. */
  function InterimTranscripts(rs: seq<ResultEntry>): seq<string>
  {
    if rs == [] then []
    else (if rs[0].isFinal then [] else [rs[0].transcript]) + InterimTranscripts(rs[1..])
  }

  /** Every transcript followed by exactly one space. */
  function SpaceTerminated(ts: seq<string>): string
  {
    if ts == [] then "" else ts[0] + " " + SpaceTerminated(ts[1..])
  }

  /** Every transcript, with no separator. */
  function Concat(ts: seq<string>): string
  {
    if ts == [] then "" else ts[0] + Concat(ts[1..])
  }

  lemma {:induction false} FinalTranscriptsAppend(a: seq<ResultEntry>, b: seq<ResultEntry>)
    ensures FinalTranscripts(a + b) == FinalTranscripts(a) + FinalTranscripts(b)
  {
    if a != [] {
      assert (a + b)[1..] == a[1..] + b;
      FinalTranscriptsAppend(a[1..], b);
    } else {
      assert a + b == b;
    }
  }

  lemma {:induction false} InterimTranscriptsAppend(a: seq<ResultEntry>, b: seq<ResultEntry>)
    ensures InterimTranscripts(a + b) == InterimTranscripts(a) + InterimTranscripts(b)
  {
    if a != [] {
      assert (a + b)[1..] == a[1..] + b;
      InterimTranscriptsAppend(a[1..], b);
    } else {
      assert a + b == b;
    }
  }

  lemma {:induction false} SpaceTerminatedAppend(s: seq<string>, t: seq<string>)
    ensures SpaceTerminated(s + t) == SpaceTerminated(s) + SpaceTerminated(t)
  {
    if s != [] {
      assert (s + t)[1..] == s[1..] + t;
      SpaceTerminatedAppend(s[1..], t);
    } else {
      assert s + t == t;
    }
  }

  lemma {:induction false} ConcatAppend(s: seq<string>, t: seq<string>)
    ensures Concat(s + t) == Concat(s) + Concat(t)
  {
    if s != [] {
      assert (s + t)[1..] == s[1..] + t;
      ConcatAppend(s[1..], t);
    } else {
      assert s + t == t;
    }
  }

  /** The committed-text contribution is exactly the final transcripts, in order, each
      followed by one space; interim entries contribute nothing to it. */
  lemma {:induction false} FinalSegmentsAreFinalTranscripts(rs: seq<ResultEntry>)
    ensures FinalSegments(rs) == SpaceTerminated(FinalTranscripts(rs))
  {
    if rs != [] {
      var init, last := rs[..|rs| - 1], rs[|rs| - 1];
      assert rs == init + [last];
      FinalSegmentsAreFinalTranscripts(init);
      FinalTranscriptsAppend(init, [last]);
      assert FinalTranscripts([last]) == if last.isFinal then [last.transcript] else [];
      SpaceTerminatedAppend(FinalTranscripts(init), FinalTranscripts([last]));
    }
  }

  /** The interim suffix is exactly the interim transcripts, in order, with no separator;
      final entries contribute nothing to it. */
  lemma {:induction false} InterimSegmentsAreInterimTranscripts(rs: seq<ResultEntry>)
    ensures InterimSegments(rs) == Concat(InterimTranscripts(rs))
  {
    if rs != [] {
      var init, last := rs[..|rs| - 1], rs[|rs| - 1];
      assert rs == init + [last];
      InterimSegmentsAreInterimTranscripts(init);
      InterimTranscriptsAppend(init, [last]);
      assert InterimTranscripts([last]) == if last.isFinal then [] else [last.transcript];
      ConcatAppend(InterimTranscripts(init), InterimTranscripts([last]));
    }
  }

  /** Within a run of result events, two runs with the same final transcripts give the same
      committed text, however many interim entries are interleaved: no result event commits
      interim content. (The end event does commit the interim suffix still on display.) */
  lemma InterimNeverCommitted(a: seq<ResultEntry>, b: seq<ResultEntry>)
    requires FinalTranscripts(a) == FinalTranscripts(b)
    ensures FinalSegments(a) == FinalSegments(b)
  {
    FinalSegmentsAreFinalTranscripts(a);
    FinalSegmentsAreFinalTranscripts(b);
  }

  /** Splitting a run of entries splits its committed-text contribution. */
  lemma FinalSegmentsAppend(a: seq<ResultEntry>, b: seq<ResultEntry>)
    ensures FinalSegments(a + b) == FinalSegments(a) + FinalSegments(b)
  {
    FinalSegmentsAreFinalTranscripts(a);
    FinalSegmentsAreFinalTranscripts(b);
    FinalSegmentsAreFinalTranscripts(a + b);
    FinalTranscriptsAppend(a, b);
    SpaceTerminatedAppend(FinalTranscripts(a), FinalTranscripts(b));
  }

  // ---- Several result events in a row ----

  /** The committed text after handling `events` in order, starting from `committed`. */
  function CommittedAfter(committed: string, events: seq<ResultEvent>): string
  {
    if events == [] then committed
    else
      var last := events[|events| - 1];
      CommittedAfter(committed, events[..|events| - 1])
        + FinalSegments(Window(last.results, last.resultIndex))
  }

  /** All entries the events deliver as new, in delivery order. */
  function Delivered(events: seq<ResultEvent>): seq<ResultEntry>
  {
    if events == [] then []
    else
      var last := events[|events| - 1];
      Delivered(events[..|events| - 1]) + Window(last.results, last.resultIndex)
  }

  /** Each event's committed-text contribution adds up to that of everything delivered. */
  lemma {:induction false} CommittedIsFinalSegments(committed: string, events: seq<ResultEvent>)
    ensures CommittedAfter(committed, events) == committed + FinalSegments(Delivered(events))
  {
    if events == [] {
      assert committed + "" == committed;
    } else {
      var init, last := events[..|events| - 1], events[|events| - 1];
      var w := Window(last.results, last.resultIndex);
      var before := Delivered(init);
      assert Delivered(events) == before + w;
      CommittedIsFinalSegments(committed, init);
      FinalSegmentsAppend(before, w);
      assert committed + FinalSegments(before) + FinalSegments(w)
          == committed + (FinalSegments(before) + FinalSegments(w));
    }
  }

  /** Across any run of result events the committed text grows by the final transcripts of
      every delivered entry, in delivery order, each followed by one space: the earlier
      committed text is a prefix, and interim entries leave no trace. */
  lemma CommittedAcrossEvents(committed: string, events: seq<ResultEvent>)
    ensures CommittedAfter(committed, events)
            == committed + SpaceTerminated(FinalTranscripts(Delivered(events)))
    ensures committed <= CommittedAfter(committed, events)
  {
    CommittedIsFinalSegments(committed, events);
    FinalSegmentsAreFinalTranscripts(Delivered(events));
  }
}
