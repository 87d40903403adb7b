/** The states of a channel and of each of its keys. */
module ChannelStatus {
  const ENABLED := 1
  const MANUALLY_DISABLED := 2
  const AUTO_DISABLED := 3
}
