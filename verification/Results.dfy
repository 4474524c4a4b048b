/** Results of finished games. */
module Results {
  datatype ReplayResult = WhiteWin | BlackWin | Draw

  datatype ReplayCause = Checkmate | Forfeit
}
