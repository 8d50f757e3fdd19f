/** The audio-track records the ffprobe wrapper yields (src/get-audiotracks.js). */
module Audiotracks {
  import opened Results

  /** `{ idx, language, title }`: stream index and the optional language and title tags. */
  datatype Audiotrack = Audiotrack(idx: int, language: Option<string>, title: Option<string>)
}
