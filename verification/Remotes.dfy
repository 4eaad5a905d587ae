/** The kinds of remotes (lib/pdm-api-types/src/remotes.rs). */
module Remotes {
  datatype RemoteType = Pve | Pbs
}
