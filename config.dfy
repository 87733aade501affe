/** The configuration constants the analysis core reads (backend/config.py).
    Everything that comes from the environment or the file system is not
    modelled; these values are fixed in the source. */
module Config {

  /** Expressions that count as an engaged student */
  const EngagedEmotions: seq<string> := ["happy", "surprise", "neutral"]

  /** Expressions that count as a disengaged student */
  const DisengagedEmotions: seq<string> := ["sad", "angry", "fear", "disgust"]

  /** The smallest face, in pixels on each side, that the detector reports */
  const MinFaceSize: nat := 20
}
