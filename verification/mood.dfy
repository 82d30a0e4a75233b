/**
 * The mood classifier of the liked-songs dashboard: a first-match-wins decision
 * rule over two audio-feature scores, valence and energy, checked against a
 * fixed table of thresholds.
 */
module Mood {
  import opened Wrappers

  /** The labels the classifier can produce; `Unknown` marks absent features. */
  datatype Mood = Happy | Sad | Energetic | Chill | Balanced | Unknown

  /** The four audio-feature scores the streaming service reports for a track. */
  datatype Features = Features(valence: real, energy: real, danceability: real, tempo: real)

  /** One row of the threshold table. */
  datatype Threshold = Threshold(valence: real, energy: real)

  /**
   * The module-level threshold table. Its keys are also the mood choices
   * offered by the dashboard; the `Balanced` row and the valence column of the
   * `Energetic` and `Chill` rows are never consulted by the classifier.
   */
  const MoodThresholds: map<Mood, Threshold> := map[
    Happy := Threshold(0.7, 0.7),
    Sad := Threshold(0.3, 0.4),
    Energetic := Threshold(0.5, 0.8),
    Chill := Threshold(0.5, 0.3),
    Balanced := Threshold(0.5, 0.5)
  ]

  /** The label as the dashboard shows it and as the mood filter compares it. */
  function MoodName(m: Mood): (name: string)
    ensures name != ""
  {
    match m
    case Happy => "Happy"
    case Sad => "Sad"
    case Energetic => "Energetic"
    case Chill => "Chill"
    case Balanced => "Balanced"
    case Unknown => "Unknown"
  }

  /**
   * Classifies a track from its (possibly absent) audio features. The branches
   * are tried in order; the regions overlap, so the postconditions state the
   * region each label really covers once the earlier branches are accounted for.
   */
  function Classify(features: Option<Features>): (m: Mood)
    ensures m == Unknown <==> features.None?
    ensures features.Some? ==> m in MoodThresholds
    ensures m == Happy <==> features.Some? && features.value.valence >= 0.7 && features.value.energy >= 0.7
    ensures m == Sad <==> features.Some? && features.value.valence <= 0.3 && features.value.energy <= 0.4
    ensures m == Energetic <==> features.Some? && features.value.valence < 0.7 && features.value.energy >= 0.8
    ensures m == Chill <==> features.Some? && features.value.valence > 0.3 && features.value.energy <= 0.3
    ensures m == Balanced <==>
      && features.Some?
      && 0.3 < features.value.energy < 0.8
      && !(features.value.valence >= 0.7 && features.value.energy >= 0.7)
      && !(features.value.valence <= 0.3 && features.value.energy <= 0.4)
  {
    match features
    case None => Unknown
    case Some(f) =>
      if f.valence >= MoodThresholds[Happy].valence && f.energy >= MoodThresholds[Happy].energy then Happy
      else if f.valence <= MoodThresholds[Sad].valence && f.energy <= MoodThresholds[Sad].energy then Sad
      else if f.energy >= MoodThresholds[Energetic].energy then Energetic
      else if f.energy <= MoodThresholds[Chill].energy then Chill
      else Balanced
  }

  /** The five labels of the table are exactly the labels a present feature set can receive. */
  lemma {:induction false} ThresholdLabelsAreReachable(m: Mood)
    requires m in MoodThresholds
    ensures exists v: real, e: real :: Classify(Some(Features(v, e, 0.5, 120.0))) == m
  {
    match m
    case Happy => assert Classify(Some(Features(0.9, 0.9, 0.5, 120.0))) == Happy;
    case Sad => assert Classify(Some(Features(0.1, 0.1, 0.5, 120.0))) == Sad;
    case Energetic => assert Classify(Some(Features(0.5, 0.9, 0.5, 120.0))) == Energetic;
    case Chill => assert Classify(Some(Features(0.5, 0.1, 0.5, 120.0))) == Chill;
    case Balanced => assert Classify(Some(Features(0.5, 0.5, 0.5, 120.0))) == Balanced;
  }

  /** Distinct labels have distinct names, so the mood filter selects exactly one label. */
  lemma MoodNameInjective(m: Mood, other: Mood)
    requires MoodName(m) == MoodName(other)
    ensures m == other
  {
  }

  /**
   * The order of the branches matters: (0.9, 0.9) also clears the Energetic
   * threshold and (0.1, 0.1) the Chill one, yet the earlier branch wins.
   */
  lemma ClassifyExamples()
    ensures Classify(Some(Features(0.9, 0.9, 0.5, 120.0))) == Happy
    ensures Classify(Some(Features(0.1, 0.1, 0.5, 120.0))) == Sad
    ensures Classify(Some(Features(0.5, 0.9, 0.5, 120.0))) == Energetic
    ensures Classify(Some(Features(0.5, 0.1, 0.5, 120.0))) == Chill
    ensures Classify(Some(Features(0.5, 0.5, 0.5, 120.0))) == Balanced
    ensures Classify(None) == Unknown
  {
  }
}
