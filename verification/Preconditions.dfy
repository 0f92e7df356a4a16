/** The write precondition shared by content uploads (server/src/lib/content-preconditions.ts), strict mode. */
module Preconditions {
  import opened Prelude

  type VersionId = nat

  /** What the writer says it opened: x-base-version-id and x-key-epoch. */
  datatype ContentBase = ContentBase(version: Option<VersionId>, epoch: nat)

  datatype BaseError = RotationRequired | StaleBase

  /** assertContentBase: None when the write may proceed. */
  function AssertContentBase(base: ContentBase, current: Option<VersionId>, epoch: nat, rotationRequired: bool)
    : (r: Option<BaseError>)
    ensures r.None? <==> !rotationRequired && base == ContentBase(current, epoch)
  {
    if rotationRequired then Some(RotationRequired)
    else if base.version != current || base.epoch != epoch then Some(StaleBase)
    else None
  }
}
