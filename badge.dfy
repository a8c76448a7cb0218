/** The colour variants of the shared badge component. */
module Badges {
  datatype BadgeVariant = Default | Success | Warning | Danger | Info
}
