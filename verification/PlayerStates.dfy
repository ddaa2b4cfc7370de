/** The main states of the player in source/video_player.c. */
module PlayerStates {
  datatype PlayerState = Idle | PreparePlaying | Playing | Pause | Buffering | PrepareSeeking | Seeking

  // No file is open
  predicate Closed(p: PlayerState) {
    p.Idle? || p.PreparePlaying?
  }
}
