// Shared data shapes of the clip editor: transcribed segments, the
// application status and the subtitle language selector.

module Types {

  /** One transcribed unit of speech; times are seconds on the source video. */
  datatype Segment = Segment(
    id: string,
    startTime: real,
    endTime: real,
    text: string,
    isRedundant: bool,
    confidence: real)
  {
    function Duration(): real { endTime - startTime }
  }

  /** The ordered clips the user has picked for the output. */
  type Timeline = seq<Segment>

  datatype AppStatus = Idle | Uploading | Analyzing | Ready | Generating | Completed

  datatype SubtitleLanguage = Auto | En | Zh | Ja | Ko | Fr | De | Es
  {
    /** The enum's string value, as interpolated into messages. */
    function Code(): string {
      match this
      case Auto => "AUTO"
      case En => "EN"
      case Zh => "ZH"
      case Ja => "JA"
      case Ko => "KO"
      case Fr => "FR"
      case De => "DE"
      case Es => "ES"
    }
  }

  datatype Option<+T> = None | Some(value: T)

  datatype Result<+T, +E> = Success(value: T) | Failure(error: E)

  /** Sum of the durations of the given segments, left to right. */
  function TotalDuration(segs: seq<Segment>): real
  {
    if segs == [] then 0.0 else TotalDuration(segs[..|segs| - 1]) + segs[|segs| - 1].Duration()
  }

  lemma {:induction false} TotalDurationAppend(a: seq<Segment>, b: seq<Segment>)
    ensures TotalDuration(a + b) == TotalDuration(a) + TotalDuration(b)
    decreases |b|
  {
    if b == [] {
      assert a + b == a;
    } else {
      var b' := b[..|b| - 1];
      assert (a + b)[..|a + b| - 1] == a + b';
      TotalDurationAppend(a, b');
    }
  }

  lemma TotalDurationSnoc(a: seq<Segment>, x: Segment)
    ensures TotalDuration(a + [x]) == TotalDuration(a) + x.Duration()
  {
    assert (a + [x])[..|a|] == a;
  }
}
